/**
 * internal/pkg/gui: the windowed shell. A window shows the identity name,
 * its time left (coloured by urgency), a Renew button with a "force"
 * checkbox and a status line; a background ticker refreshes them and sends
 * one notification per kind of trouble (missing, expired, close to
 * expiry) until a renewal succeeds; a settings form changes the identity
 * name and the start-hidden preference. The renewer behind it is seen only
 * through the ages it reports and the outcome of its Renew or ForceRenew.
 */
module Gui {
  import opened Base
  import opened Durations
  import opened Standing

  datatype Importance = Medium | Warning | Danger

  /** Which of the renewer's entry points a renewal called. */
  datatype RenewCall = PlainRenew | ForcedRenew

  const DefaultIdentity: string := "id_opkssh"
  const MissingTitle: string := "Identity missing"
  const ExpiredTitle: string := "Identity expired"
  const NearTitle: string := "Identity nearly expired"
  const NotRequiredTitle: string := "Not Required"
  const ErrorTitle: string := "Error"
  const RenewedTitle: string := "Identity Renewed"

  /** setagelabel: the age label's text and importance. */
  function AgeLabel(age: Duration): (l: (string, Importance))
    ensures l.1 == Danger <==> age == -1 || age > Day
    ensures l.1 == Warning <==> NearAge < age <= Day
    ensures l.0 == "missing" <==> age == -1
  {
    if age == -1 then ("missing", Danger)
    else if age > Day then ("expired", Danger)
    else (FormatDuration(Day - age), if age > NearAge then Warning else Medium)
  }

  /** setsystraytooltip: the tray icon's tooltip. */
  function TrayTooltip(age: Duration): (t: string)
    ensures t == "Current identity missing" <==> age == -1
    ensures t == "Current identity has expired" <==> age > Day
  {
    if age == -1 then "Current identity missing"
    else if age > Day then "Current identity has expired"
    else "Current identity has " + FormatDuration(Day - age) + " until expiry"
  }

  /**
   * The label says "missing" exactly when the identity is missing (the
   * time left of an existing identity is never formatted as "missing"), is
   * Danger exactly when it is missing or expired and Warning exactly when
   * it is close to expiry; for an identity that exists and has not expired,
   * label and tooltip carry the same time left, which reads back as whole
   * hours (at most 24) and minutes.
   */
  lemma LabelAndTooltip(age: Duration)
    ensures AgeLabel(age).0 == "missing" <==> age == -1
    ensures AgeLabel(age).1 == Danger <==> Classify(age) == Missing || Classify(age) == Expired
    ensures AgeLabel(age).1 == Warning <==> Classify(age) == Close
    ensures Classify(age) == Missing ==> TrayTooltip(age) == "Current identity missing"
    ensures Classify(age) == Expired ==> AgeLabel(age).0 == "expired" && TrayTooltip(age) == "Current identity has expired"
    ensures 0 <= age <= Day ==>
      var left := Day - age;
      AgeLabel(age).0 == HoursMinutes(left)
      && TrayTooltip(age) == "Current identity has " + AgeLabel(age).0 + " until expiry"
      && ParseHoursMinutes(AgeLabel(age).0) == Some((WholeHours(left), MinuteOfHour(left)))
      && 0 <= WholeHours(left) <= 24 && 0 <= MinuteOfHour(left) < 60
  {
    if 0 <= age <= Day {
      TimeLeftShown(Day - age);
    }
    if age != -1 && age <= Day {
      assert Day - age != -1;
      assert AgeLabel(age).0 == FormatDuration(Day - age);
    }
  }

  /** The status line update sets for each standing. */
  function StatusLine(k: Standing): (t: string)
    ensures t == "Current identity valid, no action required" <==> k == Valid
    ensures t == "No identity found" <==> k == Missing
  {
    match k
    case Missing => "No identity found"
    case Expired => "Current identity has expired"
    case Close => "Current identity is close to expiry"
    case Valid => "Current identity valid, no action required"
  }

  /** The title of the notification update sends for each standing that needs one. */
  function TroubleTitle(k: Standing): string
    requires k != Valid
  {
    match k
    case Missing => MissingTitle
    case Expired => ExpiredTitle
    case Close => NearTitle
  }

  /** The notification flags: one per kind of trouble, set once it has been notified. */
  datatype Flags = Flags(missing: bool, passed: bool, close: bool)

  /** What the window and the tray show. */
  datatype View = View(statusText: string, ageText: string, importance: Importance, trayTooltip: string)

  /** The force checkbox's value and whether the Renew button and the checkbox are enabled. */
  datatype Controls = Controls(forceRenewal: bool, renewEnabled: bool, forceCheckEnabled: bool)

  /** The settings form, the identity in use and the stored preferences. */
  datatype Settings = Settings(
    settingsIdentity: string,      // the form's name entry
    identity: string,              // the identity name shown
    startHidden: bool,             // the form's start-hidden checkbox
    renewerName: string,           // the name the current renewer was made with
    prefIdentity: Option<string>,
    prefStartHidden: Option<bool>,
    shown: bool)                   // the form is open

  datatype GuiState = GuiState(
    flags: Flags,
    view: View,
    controls: Controls,
    settings: Settings,
    notices: seq<string>,          // titles of the notifications sent
    calls: seq<RenewCall>)

  /** The notification flag update keeps for a standing. */
  function Flag(f: Flags, k: Standing): bool {
    match k
    case Missing => f.missing
    case Expired => f.passed
    case Close => f.close
    case Valid => false
  }

  /** The number of notifications sent with title t. */
  function Count(ns: seq<string>, t: string): nat {
    if ns == [] then 0 else Count(ns[..|ns| - 1], t) + (if ns[|ns| - 1] == t then 1 else 0)
  }

  lemma CountAppend(ns: seq<string>, extra: seq<string>, t: string)
    requires |extra| <= 1
    ensures Count(ns + extra, t) == Count(ns, t) + (if extra == [t] then 1 else 0)
  {
    if extra != [] {
      assert (ns + extra)[..|ns + extra| - 1] == ns;
    } else {
      assert ns + extra == ns;
    }
  }

  /** The identity name shown, the renewer's name and the stored name agree. */
  predicate Consistent(c: Settings) {
    c.renewerName == c.identity && c.prefIdentity.GetOr(DefaultIdentity) == c.identity
  }

  /** Create: the names and the start-hidden choice come from the preferences, with their fallbacks. */
  function Created(prefIdentity: Option<string>, prefStartHidden: Option<bool>): (s: GuiState)
    ensures Consistent(s.settings) && !s.settings.shown
    ensures s.settings.identity == s.settings.settingsIdentity == prefIdentity.GetOr(DefaultIdentity)
    ensures s.settings.startHidden == prefStartHidden.GetOr(false)
    ensures s.flags == Flags(false, false, false) && s.notices == [] && s.calls == []
  {
    var identity := prefIdentity.GetOr(DefaultIdentity);
    GuiState(Flags(false, false, false), View("", "", Medium, ""), Controls(false, true, true),
             Settings(identity, identity, prefStartHidden.GetOr(false), identity, prefIdentity, prefStartHidden, false),
             [], [])
  }

  /** The flags after a tick of standing k: k's flag is set, the others are kept. */
  function Raise(f: Flags, k: Standing): (g: Flags)
    ensures forall j :: Flag(g, j) == (Flag(f, j) || (j == k && k != Valid))
  {
    match k
    case Missing => f.(missing := true)
    case Expired => f.(passed := true)
    case Close => f.(close := true)
    case Valid => f
  }

  /**
   * One tick of update: the age label and tray tooltip are refreshed, the
   * status line follows the standing, and a standing that needs attention
   * sends its notification unless its flag says it already has, until a
   * renewal clears the flag.
   */
  function UpdateStep(s: GuiState, age: Duration): (r: GuiState)
    ensures r.view == View(StatusLine(Classify(age)), AgeLabel(age).0, AgeLabel(age).1, TrayTooltip(age))
    ensures r.controls == s.controls && r.settings == s.settings && r.calls == s.calls
    ensures r.flags == Raise(s.flags, Classify(age))
    ensures r.notices == s.notices + (if Classify(age) == Valid || Flag(s.flags, Classify(age)) then []
                                      else [TroubleTitle(Classify(age))])
  {
    var k := Classify(age);
    var shown := s.(view := View(StatusLine(k), AgeLabel(age).0, AgeLabel(age).1, TrayTooltip(age)));
    if k == Valid || Flag(s.flags, k) then shown.(flags := Raise(s.flags, k))
    else shown.(flags := Raise(s.flags, k), notices := s.notices + [TroubleTitle(k)])
  }

  /** update's loop: every tick in turn. */
  function UpdateRun(s: GuiState, ages: seq<Duration>): GuiState
    decreases |ages|
  {
    if ages == [] then s else UpdateRun(UpdateStep(s, ages[0]), ages[1..])
  }

  /** After a run of ticks the window shows the last tick's standing. */
  lemma {:induction false} UpdateShowsLast(s: GuiState, ages: seq<Duration>)
    requires ages != []
    ensures var last := ages[|ages| - 1];
      UpdateRun(s, ages).view == View(StatusLine(Classify(last)), AgeLabel(last).0, AgeLabel(last).1, TrayTooltip(last))
    decreases |ages|
  {
    if |ages| > 1 {
      UpdateShowsLast(UpdateStep(s, ages[0]), ages[1..]);
      assert ages[1..][|ages| - 2] == ages[|ages| - 1];
    }
  }

  /** Some tick of ages has standing k. */
  predicate Seen(ages: seq<Duration>, k: Standing) {
    exists i :: 0 <= i < |ages| && Classify(ages[i]) == k
  }

  lemma SeenSplit(ages: seq<Duration>, k: Standing)
    requires ages != []
    ensures Seen(ages, k) <==> Classify(ages[0]) == k || Seen(ages[1..], k)
  {
    if Seen(ages, k) {
      var i :| 0 <= i < |ages| && Classify(ages[i]) == k;
      if i > 0 {
        assert ages[1..][i - 1] == ages[i];
      }
    }
    if Seen(ages[1..], k) {
      var i :| 0 <= i < |ages[1..]| && Classify(ages[1..][i]) == k;
      assert ages[i + 1] == ages[1..][i];
    }
  }

  /**
   * Over any run of ticks without a renewal, each kind of trouble is
   * notified at most once: its flag ends set exactly when it was set or the
   * trouble was seen, and one notification is sent exactly when the flag
   * goes from clear to set.
   */
  lemma {:induction false} UpdateNotifiesOnce(s: GuiState, ages: seq<Duration>, k: Standing)
    requires k != Valid
    ensures var r := UpdateRun(s, ages);
      (Flag(r.flags, k) <==> Flag(s.flags, k) || Seen(ages, k))
      && Count(r.notices, TroubleTitle(k))
           == Count(s.notices, TroubleTitle(k)) + (if Flag(r.flags, k) && !Flag(s.flags, k) then 1 else 0)
    decreases |ages|
  {
    if ages != [] {
      var s1 := UpdateStep(s, ages[0]);
      UpdateNotifiesOnce(s1, ages[1..], k);
      SeenSplit(ages, k);
      CountAppend(s.notices, s1.notices[|s.notices|..], TroubleTitle(k));
    }
  }

  /** A run of ticks changes no control, setting or renewal. */
  lemma {:induction false} UpdateKeepsSettings(s: GuiState, ages: seq<Duration>)
    ensures var r := UpdateRun(s, ages);
      r.controls == s.controls && r.settings == s.settings && r.calls == s.calls
    decreases |ages|
  {
    if ages != [] {
      UpdateKeepsSettings(UpdateStep(s, ages[0]), ages[1..]);
    }
  }

  /**
   * renew's gate: it goes ahead when forced, or when the identity is
   * missing or at least 23 hours old. Unforced, that is exactly the ages
   * update does not call valid, plus exactly 23 hours, which update still
   * calls valid.
   */
  predicate RenewProceeds(age: Duration, force: bool): (p: bool)
    ensures !force ==> (p <==> Classify(age) != Valid || age == NearAge)
    ensures force ==> p
  {
    !(age < NearAge && age != -1) || force
  }

  /**
   * renew. A failed read of the force checkbox only reports it; a renewal
   * not yet due and not forced only says so; otherwise the renewer's
   * ForceRenew (forced) or Renew is called, both controls end enabled, and
   * a success refreshes the label and tooltip from the new age, clears the
   * force checkbox and re-arms every notification.
   */
  function RenewStep(s: GuiState, forceReadErr: Option<string>, age: Duration, err: Option<string>, ageAfter: Duration): (r: GuiState)
    ensures r.settings == s.settings
    ensures forceReadErr.Some? ==> r == s.(view := s.view.(statusText := "Error reading force status: " + forceReadErr.value))
    ensures forceReadErr.None? && !RenewProceeds(age, s.controls.forceRenewal) ==>
      r == s.(view := s.view.(statusText := "Renewal not required yet"), notices := s.notices + [NotRequiredTitle])
    ensures forceReadErr.None? && RenewProceeds(age, s.controls.forceRenewal) ==>
      r.calls == s.calls + [if s.controls.forceRenewal then ForcedRenew else PlainRenew]
      && r.controls.renewEnabled && r.controls.forceCheckEnabled
    ensures forceReadErr.None? && RenewProceeds(age, s.controls.forceRenewal) && err.Some? ==>
      r.view == s.view.(statusText := "Error during identity refresh: " + err.value)
      && r.notices == s.notices + [ErrorTitle]
      && r.flags == s.flags && r.controls.forceRenewal == s.controls.forceRenewal
    ensures forceReadErr.None? && RenewProceeds(age, s.controls.forceRenewal) && err.None? ==>
      r.view == View("Identity renewed", AgeLabel(ageAfter).0, AgeLabel(ageAfter).1, TrayTooltip(ageAfter))
      && r.notices == s.notices + [RenewedTitle]
      && !r.controls.forceRenewal && r.flags == Flags(false, false, false)
  {
    if forceReadErr.Some? then
      s.(view := s.view.(statusText := "Error reading force status: " + forceReadErr.value))
    else if !RenewProceeds(age, s.controls.forceRenewal) then
      s.(view := s.view.(statusText := "Renewal not required yet"), notices := s.notices + [NotRequiredTitle])
    else
      var force := s.controls.forceRenewal;
      var call := if force then ForcedRenew else PlainRenew;
      if err.Some? then
        s.(view := s.view.(statusText := "Error during identity refresh: " + err.value),
           controls := Controls(force, true, true), notices := s.notices + [ErrorTitle], calls := s.calls + [call])
      else
        s.(view := View("Identity renewed", AgeLabel(ageAfter).0, AgeLabel(ageAfter).1, TrayTooltip(ageAfter)),
           controls := Controls(false, true, true), flags := Flags(false, false, false),
           notices := s.notices + [RenewedTitle], calls := s.calls + [call])
  }

  /**
   * After a successful renewal a trouble already notified is notified
   * again by the next tick that sees it.
   */
  lemma RenewRearms(s: GuiState, age: Duration, ageAfter: Duration, next: Duration)
    requires RenewProceeds(age, s.controls.forceRenewal) && Classify(next) != Valid
    ensures var r := RenewStep(s, None, age, None, ageAfter);
      UpdateStep(r, next).notices == r.notices + [TroubleTitle(Classify(next))]
  {
  }

  /** Which reads of the settings form's bindings fail. */
  datatype FormFaults = FormFaults(identityErr: bool, currentErr: bool, hiddenErr: bool)

  /**
   * The settings form's OnSubmit. The form always closes. A failed read
   * reports an error and stops; a changed name makes a new renewer (when
   * that fails, nothing is saved) and refreshes the tooltip and label from
   * its age; then the name is stored and shown, and the start-hidden
   * choice is stored unless its read fails.
   */
  function SubmitStep(s: GuiState, faults: FormFaults, homeOk: bool, newAge: Duration): (r: GuiState)
    ensures var c, d := s.settings, r.settings;
      !d.shown && r.calls == s.calls && r.flags == s.flags && r.controls == s.controls
      && d.settingsIdentity == c.settingsIdentity && d.startHidden == c.startHidden
      && (Consistent(c) ==> Consistent(d))
    ensures faults.identityErr || faults.currentErr ==>
      r == s.(settings := s.settings.(shown := false), notices := s.notices + [ErrorTitle])
    ensures !faults.identityErr && !faults.currentErr && s.settings.settingsIdentity != s.settings.identity && !homeOk ==>
      r == s.(settings := s.settings.(shown := false), notices := s.notices + [ErrorTitle])
    ensures var c, d := s.settings, r.settings;
      !faults.identityErr && !faults.currentErr && (c.settingsIdentity == c.identity || homeOk) ==>
        d.identity == c.settingsIdentity && d.prefIdentity == Some(c.settingsIdentity)
        && d.renewerName == (if c.settingsIdentity != c.identity then c.settingsIdentity else c.renewerName)
        && r.view == (if c.settingsIdentity != c.identity
                      then s.view.(ageText := AgeLabel(newAge).0, importance := AgeLabel(newAge).1, trayTooltip := TrayTooltip(newAge))
                      else s.view)
        && (faults.hiddenErr ==> d.prefStartHidden == c.prefStartHidden && r.notices == s.notices + [ErrorTitle])
        && (!faults.hiddenErr ==> d.prefStartHidden == Some(c.startHidden) && r.notices == s.notices)
  {
    var c := s.settings.(shown := false);
    var v := c.settingsIdentity;
    if faults.identityErr || faults.currentErr || (v != c.identity && !homeOk) then
      s.(settings := c, notices := s.notices + [ErrorTitle])
    else
      var view := if v != c.identity
        then s.view.(ageText := AgeLabel(newAge).0, importance := AgeLabel(newAge).1, trayTooltip := TrayTooltip(newAge))
        else s.view;
      var named := c.(renewerName := if v != c.identity then v else c.renewerName, prefIdentity := Some(v), identity := v);
      if faults.hiddenErr then s.(view := view, settings := named, notices := s.notices + [ErrorTitle])
      else s.(view := view, settings := named.(prefStartHidden := Some(c.startHidden)))
  }

  /** The settings form's OnCancel: the form is reset from the stored preferences, with their fallbacks. */
  function CancelStep(s: GuiState): (r: GuiState)
    ensures r.settings.settingsIdentity == s.settings.prefIdentity.GetOr(DefaultIdentity)
    ensures r.settings.startHidden == s.settings.prefStartHidden.GetOr(false)
    ensures !r.settings.shown && r.view == s.view && r.flags == s.flags && r.notices == s.notices
    ensures Consistent(s.settings) ==> Consistent(r.settings) && r.settings.settingsIdentity == r.settings.identity
  {
    s.(settings := s.settings.(settingsIdentity := s.settings.prefIdentity.GetOr(DefaultIdentity),
                               startHidden := s.settings.prefStartHidden.GetOr(false), shown := false))
  }

  /**
   * A submit with no failure stores what the form held, so cancelling
   * afterwards leaves the form as submitted.
   */
  lemma SubmitThenCancel(s: GuiState, homeOk: bool, newAge: Duration)
    requires s.settings.settingsIdentity == s.settings.identity || homeOk
    ensures var r := SubmitStep(s, FormFaults(false, false, false), homeOk, newAge);
      CancelStep(r).settings.settingsIdentity == s.settings.settingsIdentity
      && CancelStep(r).settings.startHidden == s.settings.startHidden
  {
  }

  /**
   * The application. Its fields are grouped as GuiState groups them: the
   * notification flags, what is shown, the controls, and the settings.
   */
  class App {
    var flags: Flags
    var view: View
    var controls: Controls
    var settings: Settings
    var notices: seq<string>
    var calls: seq<RenewCall>

    function State(): GuiState
      reads this
    {
      GuiState(flags, view, controls, settings, notices, calls)
    }

    /** Create, past the point where the renewer is made. */
    constructor (prefIdentity: Option<string>, prefStartHidden: Option<bool>)
      ensures State() == Created(prefIdentity, prefStartHidden)
    {
      var name := prefIdentity.GetOr(DefaultIdentity);
      flags := Flags(false, false, false);
      view := View("", "", Medium, "");
      controls := Controls(false, true, true);
      settings := Settings(name, name, prefStartHidden.GetOr(false), name, prefIdentity, prefStartHidden, false);
      notices, calls := [], [];
    }

    method SetAgeLabel(age: Duration)
      modifies this
      ensures State() == old(State()).(view := old(view).(ageText := AgeLabel(age).0, importance := AgeLabel(age).1))
    {
      if age == -1 {
        view := view.(ageText := "missing", importance := Danger);
        return;
      }
      if age > Day {
        view := view.(ageText := "expired", importance := Danger);
        return;
      }
      view := view.(ageText := FormatDuration(Day - age), importance := Medium);
      if age > NearAge {
        view := view.(importance := Warning);
      }
    }

    method SetTrayTooltip(age: Duration)
      modifies this
      ensures State() == old(State()).(view := old(view).(trayTooltip := TrayTooltip(age)))
    {
      if age == -1 {
        view := view.(trayTooltip := "Current identity missing");
        return;
      }
      if age > Day {
        view := view.(trayTooltip := "Current identity has expired");
        return;
      }
      view := view.(trayTooltip := "Current identity has " + FormatDuration(Day - age) + " until expiry");
    }

    /** One tick of update's loop. */
    method UpdateTick(age: Duration)
      modifies this
      ensures State() == UpdateStep(old(State()), age)
    {
      SetAgeLabel(age);
      SetTrayTooltip(age);
      if age == -1 {
        view := view.(statusText := "No identity found");
        if !flags.missing {
          notices := notices + [MissingTitle];
          flags := flags.(missing := true);
        }
        return;
      }
      if age > Day {
        view := view.(statusText := "Current identity has expired");
        if !flags.passed {
          notices := notices + [ExpiredTitle];
          flags := flags.(passed := true);
        }
        return;
      }
      if age > NearAge {
        view := view.(statusText := "Current identity is close to expiry");
        if !flags.close {
          notices := notices + [NearTitle];
          flags := flags.(close := true);
        }
        return;
      }
      view := view.(statusText := "Current identity valid, no action required");
    }

    /** update: the ticker loop, one age per tick, until the application stops. */
    method Update(ages: seq<Duration>)
      modifies this
      ensures State() == UpdateRun(old(State()), ages)
    {
      for i := 0 to |ages|
        invariant UpdateRun(old(State()), ages) == UpdateRun(State(), ages[i..])
      {
        var rest := ages[i..];
        assert rest[0] == ages[i] && rest[1..] == ages[i + 1..];
        UpdateTick(ages[i]);
      }
    }

    /** renew, with the renewal goroutine run to completion. */
    method Renew(forceReadErr: Option<string>, age: Duration, err: Option<string>, ageAfter: Duration)
      modifies this
      ensures State() == RenewStep(old(State()), forceReadErr, age, err, ageAfter)
    {
      if forceReadErr.Some? {
        view := view.(statusText := "Error reading force status: " + forceReadErr.value);
        return;
      }
      var force := controls.forceRenewal;
      if age < NearAge && age != -1 {
        if !force {
          view := view.(statusText := "Renewal not required yet");
          notices := notices + [NotRequiredTitle];
          return;
        }
        view := view.(statusText := "Renewal forced...");
      }
      view := view.(statusText := "Starting renewal...");
      controls := controls.(renewEnabled := false, forceCheckEnabled := false);
      calls := calls + [if force then ForcedRenew else PlainRenew];
      if err.Some? {
        view := view.(statusText := "Error during identity refresh: " + err.value);
        notices := notices + [ErrorTitle];
      } else {
        view := view.(statusText := "Identity renewed");
        SetAgeLabel(ageAfter);
        controls := controls.(forceRenewal := false);
        notices := notices + [RenewedTitle];
        SetTrayTooltip(ageAfter);
        flags := Flags(false, false, false);
      }
      // the deferred re-enable
      controls := controls.(forceCheckEnabled := true, renewEnabled := true);
    }

    /** The settings form's OnSubmit; homeOk: NewRenewer finds the home directory, newAge: the new renewer's age. */
    method Submit(faults: FormFaults, homeOk: bool, newAge: Duration)
      modifies this
      ensures State() == SubmitStep(old(State()), faults, homeOk, newAge)
    {
      var v := settings.settingsIdentity;
      if faults.identityErr || faults.currentErr {
        notices := notices + [ErrorTitle];
        settings := settings.(shown := false);
        return;
      }
      var current := settings.identity;
      if v != current {
        if !homeOk {
          notices := notices + [ErrorTitle];
          settings := settings.(shown := false);
          return;
        }
        settings := settings.(renewerName := v);
        SetTrayTooltip(newAge);
        SetAgeLabel(newAge);
      }
      settings := settings.(prefIdentity := Some(v), identity := v);
      if faults.hiddenErr {
        notices := notices + [ErrorTitle];
        settings := settings.(shown := false);
        return;
      }
      settings := settings.(prefStartHidden := Some(settings.startHidden), shown := false);
    }

    /** The settings form's OnCancel. */
    method Cancel()
      modifies this
      ensures State() == CancelStep(old(State()))
    {
      settings := settings.(settingsIdentity := settings.prefIdentity.GetOr(DefaultIdentity),
                            startHidden := settings.prefStartHidden.GetOr(false), shown := false);
    }
  }
}
