/**
 * internal/pkg/tray: the system-tray shell. A menu shows the identity's
 * status, offers "Renew" (enabled once renewal is due) and "Force Renew",
 * and a ticker refreshes the status every minute and sends one desktop
 * notification when the identity is close to expiry and one when it has
 * expired. The renewer behind it is seen only through the ages it reports
 * and the outcome of a forced renewal.
 */
module Tray {
  import opened Base
  import opened Durations
  import opened Standing

  const ExpiredTitle: string := "Identity Expired"
  const NearTitle: string := "Identity Nearly Expired"
  const ErrorTitle: string := "Error"
  const RenewedTitle: string := "Identity Renewed"

  /** status: the title of the status menu item. */
  function Status(age: Duration): (t: string)
    ensures t == "Identity Missing" <==> age == -1
    ensures t == "Identity Expired" <==> age > Day
    ensures age != -1 && age <= Day ==> |t| >= 22 && t[..13] == "Identity has " && t[|t| - 5..] == " left"
  {
    if age == -1 then "Identity Missing"
    else if age > Day then "Identity Expired"
    else "Identity has " + HoursMinutes(Day - age) + " left"
  }

  /** statusText: the tooltip of the tray icon and of the status item. */
  function StatusText(age: Duration): (t: string)
    ensures t == "No identity found" <==> age == -1
    ensures t == "Identity has expired" <==> age > Day
    ensures age != -1 && age <= Day ==> |t| >= 30 && t[..13] == "Identity has " && t[|t| - 13..] == " until expiry"
  {
    if age == -1 then "No identity found"
    else if age > Day then "Identity has expired"
    else "Identity has " + HoursMinutes(Day - age) + " until expiry"
  }

  /**
   * Both texts follow the standing of the identity; for one that exists and
   * has not expired they carry the same "HHhMMm" field, which reads back as
   * the time left to expiry rounded down to the minute.
   */
  lemma StatusTexts(age: Duration)
    ensures Classify(age) == Missing ==> Status(age) == "Identity Missing" && StatusText(age) == "No identity found"
    ensures Classify(age) == Expired ==> Status(age) == "Identity Expired" && StatusText(age) == "Identity has expired"
    ensures 0 <= age <= Day ==>
      var left := Day - age;
      var field := HoursMinutes(left);
      Status(age) == "Identity has " + field + " left"
      && StatusText(age) == "Identity has " + field + " until expiry"
      && ParseHoursMinutes(field) == Some((WholeHours(left), MinuteOfHour(left)))
      && 0 <= WholeHours(left) <= 24 && 0 <= MinuteOfHour(left) < 60
      && WholeHours(left) * Hour + MinuteOfHour(left) * Minute <= left < WholeHours(left) * Hour + MinuteOfHour(left) * Minute + Minute
  {
    if 0 <= age <= Day {
      TimeLeftShown(Day - age);
    }
  }

  /** A desktop notification, and whether beeep delivered it. */
  datatype Notice = Notice(title: string, delivered: bool)

  /** What the tray shows and remembers. */
  datatype TrayState = TrayState(
    expiryNearNotified: bool,
    expiredNotified: bool,
    renewEnabled: bool,       // the "Renew" menu item
    forceEnabled: bool,       // the "Force Renew" menu item
    statusTitle: string,
    statusTooltip: string,
    trayTooltip: string,
    notices: seq<Notice>,
    forceRenewals: nat)       // calls to the renewer's ForceRenew

  /** One ticker input: the age the renewer reports, and whether a notification sent now is delivered. */
  datatype TickInput = TickInput(age: Duration, notifyOk: bool)

  /** The number of deliveries of notifications titled title. */
  function Delivered(ns: seq<Notice>, title: string): nat {
    if ns == [] then 0
    else Delivered(ns[..|ns| - 1], title) + (if ns[|ns| - 1] == Notice(title, true) then 1 else 0)
  }

  /**
   * One tick of updateTicker: the three texts are refreshed; past 23 hours
   * Renew is enabled and the matching notification is sent unless one was
   * already delivered (a failed delivery leaves the flag clear); otherwise
   * Renew is disabled.
   */
  function TickStep(s: TrayState, t: TickInput): (r: TrayState)
    ensures r.statusTitle == Status(t.age) && r.statusTooltip == StatusText(t.age) && r.trayTooltip == StatusText(t.age)
    ensures r.renewEnabled <==> t.age > NearAge
    ensures r.forceEnabled == s.forceEnabled && r.forceRenewals == s.forceRenewals
    ensures t.age > Day ==>
      r.expiryNearNotified == s.expiryNearNotified
      && (r.expiredNotified <==> s.expiredNotified || t.notifyOk)
      && r.notices == s.notices + (if s.expiredNotified then [] else [Notice(ExpiredTitle, t.notifyOk)])
    ensures NearAge < t.age <= Day ==>
      r.expiredNotified == s.expiredNotified
      && (r.expiryNearNotified <==> s.expiryNearNotified || t.notifyOk)
      && r.notices == s.notices + (if s.expiryNearNotified then [] else [Notice(NearTitle, t.notifyOk)])
    ensures t.age <= NearAge ==>
      r.expiredNotified == s.expiredNotified && r.expiryNearNotified == s.expiryNearNotified && r.notices == s.notices
  {
    var shown := s.(statusTitle := Status(t.age), statusTooltip := StatusText(t.age), trayTooltip := StatusText(t.age));
    if t.age > Day then
      var on := shown.(renewEnabled := true);
      if s.expiredNotified then on
      else on.(notices := s.notices + [Notice(ExpiredTitle, t.notifyOk)], expiredNotified := t.notifyOk)
    else if t.age > NearAge then
      var on := shown.(renewEnabled := true);
      if s.expiryNearNotified then on
      else on.(notices := s.notices + [Notice(NearTitle, t.notifyOk)], expiryNearNotified := t.notifyOk)
    else
      shown.(renewEnabled := false)
  }

  /** How many ticks the ticker goroutine takes: it returns after the first one past 23 hours. */
  function TicksTaken(ticks: seq<TickInput>): (n: nat)
    ensures n <= |ticks|
    ensures forall i :: 0 <= i < n - 1 ==> ticks[i].age <= NearAge
    ensures n < |ticks| ==> 0 < n && ticks[n - 1].age > NearAge
    ensures ticks != [] ==> n > 0
  {
    if ticks == [] then 0
    else if ticks[0].age > NearAge then 1
    else 1 + TicksTaken(ticks[1..])
  }

  /** updateTicker as written: ticks are applied until one past 23 hours, after which the goroutine has returned. */
  function TickerRun(s: TrayState, ticks: seq<TickInput>): TrayState
    decreases |ticks|
  {
    if ticks == [] then s
    else if ticks[0].age > NearAge then TickStep(s, ticks[0])
    else TickerRun(TickStep(s, ticks[0]), ticks[1..])
  }

  /** The ticker with `continue` for the evidently intended `return`: every tick is applied. */
  function TickerRunAll(s: TrayState, ticks: seq<TickInput>): TrayState
    decreases |ticks|
  {
    if ticks == [] then s else TickerRunAll(TickStep(s, ticks[0]), ticks[1..])
  }

  /**
   * Both tickers leave the tray showing the last tick they took (as written
   * the first one past 23 hours, or the last of all), and neither touches
   * the Force item or the forced renewals.
   */
  lemma {:induction false} TickerShowsLast(s: TrayState, ticks: seq<TickInput>)
    ensures ticks != [] ==>
      var last := ticks[TicksTaken(ticks) - 1];
      var r := TickerRun(s, ticks);
      r.statusTitle == Status(last.age) && r.trayTooltip == StatusText(last.age)
      && (r.renewEnabled <==> last.age > NearAge)
    ensures ticks != [] ==>
      var last := ticks[|ticks| - 1];
      var r := TickerRunAll(s, ticks);
      r.statusTitle == Status(last.age) && r.trayTooltip == StatusText(last.age)
      && (r.renewEnabled <==> last.age > NearAge)
    ensures TickerRun(s, ticks).forceEnabled == s.forceEnabled && TickerRun(s, ticks).forceRenewals == s.forceRenewals
    ensures TickerRunAll(s, ticks).forceEnabled == s.forceEnabled && TickerRunAll(s, ticks).forceRenewals == s.forceRenewals
    decreases |ticks|
  {
    if ticks != [] {
      TickerShowsLast(TickStep(s, ticks[0]), ticks[1..]);
      if ticks[0].age <= NearAge && |ticks| > 1 {
        assert ticks[1..][TicksTaken(ticks[1..]) - 1] == ticks[TicksTaken(ticks) - 1];
      }
      if |ticks| > 1 {
        assert ticks[1..][|ticks| - 2] == ticks[|ticks| - 1];
      }
    }
  }

  /** As written, nothing after the first tick past 23 hours reaches the tray. */
  lemma {:induction false} TickerStopsEarly(s: TrayState, ticks: seq<TickInput>)
    ensures TickerRun(s, ticks) == TickerRun(s, ticks[..TicksTaken(ticks)])
    ensures TickerRun(s, ticks) == TickerRunAll(s, ticks[..TicksTaken(ticks)])
    decreases |ticks|
  {
    if ticks == [] {
    } else {
      var n := TicksTaken(ticks);
      var pre := ticks[..n];
      assert pre[0] == ticks[0];
      if ticks[0].age > NearAge {
        assert pre == [ticks[0]];
        assert TickerRunAll(s, pre) == TickerRunAll(TickStep(s, ticks[0]), []);
      } else {
        TickerStopsEarly(TickStep(s, ticks[0]), ticks[1..]);
        assert pre[1..] == ticks[1..][..TicksTaken(ticks[1..])];
      }
    }
  }

  /**
   * As written, a tick close to expiry ends the ticker, so a later expiry
   * is never reported; with every tick applied, it is.
   */
  lemma AsWrittenMissesExpiry(s: TrayState)
    requires !s.expiredNotified && !s.expiryNearNotified
    ensures var ticks := [TickInput(NearAge + Minute, true), TickInput(Day + Minute, true)];
      TicksTaken(ticks) == 1
      && !TickerRun(s, ticks).expiredNotified
      && Delivered(TickerRun(s, ticks).notices, ExpiredTitle) == Delivered(s.notices, ExpiredTitle)
      && TickerRunAll(s, ticks).expiredNotified
      && Delivered(TickerRunAll(s, ticks).notices, ExpiredTitle) == Delivered(s.notices, ExpiredTitle) + 1
  {
    var ticks := [TickInput(NearAge + Minute, true), TickInput(Day + Minute, true)];
    var s1 := TickStep(s, ticks[0]);
    assert s1.notices == s.notices + [Notice(NearTitle, true)];
    assert s1.notices[..|s1.notices| - 1] == s.notices;
    var s2 := TickStep(s1, ticks[1]);
    assert s2.notices == s1.notices + [Notice(ExpiredTitle, true)];
    assert s2.notices[..|s2.notices| - 1] == s1.notices;
    assert ticks[1..][0] == ticks[1] && ticks[1..][1..] == [];
    assert TickerRunAll(s, ticks) == TickerRunAll(s1, ticks[1..]);
    assert TickerRunAll(s1, ticks[1..]) == TickerRunAll(s2, []);
  }

  /** A delivered notification is only ever appended. */
  lemma DeliveredAppend(ns: seq<Notice>, extra: seq<Notice>, title: string)
    requires |extra| <= 1
    ensures Delivered(ns + extra, title) == Delivered(ns, title) + (if extra == [Notice(title, true)] then 1 else 0)
  {
    if extra != [] {
      assert (ns + extra)[..|ns + extra| - 1] == ns;
    } else {
      assert ns + extra == ns;
    }
  }

  /** Some tick past 24 hours would deliver a notification. */
  predicate ExpiryDue(ticks: seq<TickInput>) {
    exists i :: 0 <= i < |ticks| && ticks[i].age > Day && ticks[i].notifyOk
  }

  /** Some tick between 23 and 24 hours would deliver a notification. */
  predicate NearDue(ticks: seq<TickInput>) {
    exists i :: 0 <= i < |ticks| && NearAge < ticks[i].age <= Day && ticks[i].notifyOk
  }

  lemma DueSplit(ticks: seq<TickInput>)
    requires ticks != []
    ensures ExpiryDue(ticks) <==> (ticks[0].age > Day && ticks[0].notifyOk) || ExpiryDue(ticks[1..])
    ensures NearDue(ticks) <==> (NearAge < ticks[0].age <= Day && ticks[0].notifyOk) || NearDue(ticks[1..])
  {
    if ExpiryDue(ticks) {
      var i :| 0 <= i < |ticks| && ticks[i].age > Day && ticks[i].notifyOk;
      if i > 0 {
        assert ticks[1..][i - 1] == ticks[i];
      }
    }
    if ExpiryDue(ticks[1..]) {
      var i :| 0 <= i < |ticks[1..]| && ticks[1..][i].age > Day && ticks[1..][i].notifyOk;
      assert ticks[i + 1] == ticks[1..][i];
    }
    if NearDue(ticks) {
      var i :| 0 <= i < |ticks| && NearAge < ticks[i].age <= Day && ticks[i].notifyOk;
      if i > 0 {
        assert ticks[1..][i - 1] == ticks[i];
      }
    }
    if NearDue(ticks[1..]) {
      var i :| 0 <= i < |ticks[1..]| && NearAge < ticks[1..][i].age <= Day && ticks[1..][i].notifyOk;
      assert ticks[i + 1] == ticks[1..][i];
    }
  }

  /**
   * With every tick applied, the expiry notification is reported once it
   * is due: its flag ends set exactly when it was set before or some tick
   * past 24 hours delivered one, and it is delivered at most once, when
   * the flag goes from clear to set.
   */
  lemma {:induction false} ContinuingReportsExpiry(s: TrayState, ticks: seq<TickInput>)
    ensures var r := TickerRunAll(s, ticks);
      (r.expiredNotified <==> s.expiredNotified || ExpiryDue(ticks))
      && Delivered(r.notices, ExpiredTitle)
           == Delivered(s.notices, ExpiredTitle) + (if r.expiredNotified && !s.expiredNotified then 1 else 0)
    decreases |ticks|
  {
    if ticks != [] {
      var s1 := TickStep(s, ticks[0]);
      ContinuingReportsExpiry(s1, ticks[1..]);
      DueSplit(ticks);
      DeliveredAppend(s.notices, s1.notices[|s.notices|..], ExpiredTitle);
    }
  }

  /** The same for the notification that the identity is close to expiry. */
  lemma {:induction false} ContinuingReportsNearExpiry(s: TrayState, ticks: seq<TickInput>)
    ensures var r := TickerRunAll(s, ticks);
      (r.expiryNearNotified <==> s.expiryNearNotified || NearDue(ticks))
      && Delivered(r.notices, NearTitle)
           == Delivered(s.notices, NearTitle) + (if r.expiryNearNotified && !s.expiryNearNotified then 1 else 0)
    decreases |ticks|
  {
    if ticks != [] {
      var s1 := TickStep(s, ticks[0]);
      ContinuingReportsNearExpiry(s1, ticks[1..]);
      DueSplit(ticks);
      DeliveredAppend(s.notices, s1.notices[|s.notices|..], NearTitle);
    }
  }

  /**
   * renew as written. Without force it does nothing while the identity is
   * younger than 23 hours (or missing); otherwise it always calls
   * ForceRenew, and the deferred re-enable leaves both menu items enabled
   * whatever happened, overriding the Disable of Renew after a success.
   */
  function RenewStep(s: TrayState, forced: bool, age: Duration, err: Option<string>, notifyOk: bool, ageAfter: Duration): (r: TrayState)
    ensures age < NearAge && !forced ==> r == s
    ensures !(age < NearAge && !forced) ==>
      r.forceRenewals == s.forceRenewals + 1 && r.renewEnabled && r.forceEnabled
    ensures !(age < NearAge && !forced) && err.Some? ==>
      r == s.(renewEnabled := true, forceEnabled := true, forceRenewals := s.forceRenewals + 1,
              notices := s.notices + [Notice(ErrorTitle, notifyOk)])
    ensures !(age < NearAge && !forced) && err.None? ==>
      !r.expiredNotified && !r.expiryNearNotified
      && r.notices == s.notices + [Notice(RenewedTitle, notifyOk)]
      && r.statusTitle == Status(ageAfter) && r.statusTooltip == StatusText(ageAfter) && r.trayTooltip == StatusText(ageAfter)
  {
    if age < NearAge && !forced then s
    else
      var attempted := s.(forceRenewals := s.forceRenewals + 1, renewEnabled := true, forceEnabled := true);
      if err.Some? then attempted.(notices := s.notices + [Notice(ErrorTitle, notifyOk)])
      else attempted.(notices := s.notices + [Notice(RenewedTitle, notifyOk)],
                      expiredNotified := false, expiryNearNotified := false,
                      statusTitle := Status(ageAfter), statusTooltip := StatusText(ageAfter), trayTooltip := StatusText(ageAfter))
  }

  /** As written, a successful renewal leaves Renew enabled although the new identity is not due. */
  lemma RenewLeavesRenewEnabled(s: TrayState, notifyOk: bool, ageAfter: Duration)
    requires 0 <= ageAfter < NearAge
    ensures RenewStep(s, true, ageAfter, None, notifyOk, ageAfter).renewEnabled
    ensures RenewStep(RenewStep(s, true, ageAfter, None, notifyOk, ageAfter), false, ageAfter, None, notifyOk, ageAfter)
         == RenewStep(s, true, ageAfter, None, notifyOk, ageAfter)
  {
  }

  /**
   * renew with the re-enable confined to the failure path: after a
   * success Renew stays disabled and Force Renew enabled, matching the
   * ticker's rule for an identity younger than 23 hours.
   */
  function RenewStepCorrected(s: TrayState, forced: bool, age: Duration, err: Option<string>, notifyOk: bool, ageAfter: Duration): (r: TrayState)
    ensures age < NearAge && !forced ==> r == s
    ensures !(age < NearAge && !forced) && err.Some? ==> r == RenewStep(s, forced, age, err, notifyOk, ageAfter)
    ensures !(age < NearAge && !forced) && err.None? ==>
      r == RenewStep(s, forced, age, err, notifyOk, ageAfter).(renewEnabled := false)
      && !r.renewEnabled && r.forceEnabled
    ensures !(age < NearAge && !forced) && err.None? && ageAfter <= NearAge ==>
      r.renewEnabled == TickStep(r, TickInput(ageAfter, notifyOk)).renewEnabled
  {
    var r := RenewStep(s, forced, age, err, notifyOk, ageAfter);
    if !(age < NearAge && !forced) && err.None? then r.(renewEnabled := false) else r
  }

  class Application {
    var expiryNearNotified: bool
    var expiredNotified: bool
    var renewEnabled: bool
    var forceEnabled: bool
    var statusTitle: string
    var statusTooltip: string
    var trayTooltip: string
    var notices: seq<Notice>
    var forceRenewals: nat

    function State(): TrayState
      reads this
    {
      TrayState(expiryNearNotified, expiredNotified, renewEnabled, forceEnabled,
                statusTitle, statusTooltip, trayTooltip, notices, forceRenewals)
    }

    /** New: nothing notified yet; the menu does not exist before onReady. */
    constructor ()
      ensures State() == TrayState(false, false, false, false, "", "", "", [], 0)
    {
      expiryNearNotified, expiredNotified := false, false;
      renewEnabled, forceEnabled := false, false;
      statusTitle, statusTooltip, trayTooltip := "", "", "";
      notices, forceRenewals := [], 0;
    }

    /** onReady: the menu is built from the identity's age; Renew starts enabled only when renewal is due. */
    method OnReady(age: Duration)
      modifies this
      ensures State() == old(State()).(trayTooltip := StatusText(age), statusTitle := Status(age),
                                       statusTooltip := StatusText(age), renewEnabled := age >= NearAge,
                                       forceEnabled := true)
    {
      trayTooltip := StatusText(age);
      renewEnabled := true;
      if age < NearAge {
        renewEnabled := false;
      }
      forceEnabled := true;
      statusTitle := Status(age);
      statusTooltip := StatusText(age);
    }

    /** One tick of the ticker goroutine; stop is its `return`. */
    method Tick(t: TickInput) returns (stop: bool)
      modifies this
      ensures State() == TickStep(old(State()), t)
      ensures stop <==> t.age > NearAge
    {
      statusTitle := Status(t.age);
      statusTooltip := StatusText(t.age);
      trayTooltip := StatusText(t.age);
      if t.age > Day {
        renewEnabled := true;
        if !expiredNotified {
          notices := notices + [Notice(ExpiredTitle, t.notifyOk)];
          if !t.notifyOk {
            return true;
          }
          expiredNotified := true;
        }
        return true;
      } else if t.age > NearAge {
        renewEnabled := true;
        if !expiryNearNotified {
          notices := notices + [Notice(NearTitle, t.notifyOk)];
          if !t.notifyOk {
            return true;
          }
          expiryNearNotified := true;
        }
        return true;
      }
      renewEnabled := false;
      return false;
    }

    /** updateTicker as written: the goroutine returns after the first tick past 23 hours. */
    method UpdateTicker(ticks: seq<TickInput>) returns (taken: nat)
      modifies this
      ensures taken == TicksTaken(ticks)
      ensures State() == TickerRun(old(State()), ticks)
    {
      taken := 0;
      while taken < |ticks|
        invariant taken <= |ticks|
        invariant TicksTaken(ticks) == taken + TicksTaken(ticks[taken..])
        invariant TickerRun(old(State()), ticks) == TickerRun(State(), ticks[taken..])
      {
        var rest := ticks[taken..];
        assert rest[0] == ticks[taken] && rest[1..] == ticks[taken + 1..];
        var stop := Tick(ticks[taken]);
        taken := taken + 1;
        if stop {
          return;
        }
      }
    }

    /** updateTicker with every tick applied (the corrected ticker). */
    method UpdateTickerContinuing(ticks: seq<TickInput>)
      modifies this
      ensures State() == TickerRunAll(old(State()), ticks)
    {
      for i := 0 to |ticks|
        invariant TickerRunAll(old(State()), ticks) == TickerRunAll(State(), ticks[i..])
      {
        var rest := ticks[i..];
        assert rest[0] == ticks[i] && rest[1..] == ticks[i + 1..];
        var _ := Tick(ticks[i]);
      }
    }

    /** renew(forced) as written, with the deferred re-enable of both items. */
    method Renew(forced: bool, age: Duration, err: Option<string>, notifyOk: bool, ageAfter: Duration)
      modifies this
      ensures State() == RenewStep(old(State()), forced, age, err, notifyOk, ageAfter)
    {
      if age < NearAge && !forced {
        return;
      }
      renewEnabled, forceEnabled := false, false;
      forceRenewals := forceRenewals + 1;
      if err.Some? {
        notices := notices + [Notice(ErrorTitle, notifyOk)];
      } else {
        notices := notices + [Notice(RenewedTitle, notifyOk)];
        expiredNotified := false;
        expiryNearNotified := false;
        renewEnabled := false;
        statusTitle := Status(ageAfter);
        statusTooltip := StatusText(ageAfter);
        trayTooltip := StatusText(ageAfter);
      }
      // the deferred Enable of both items runs last on every path past the gate
      renewEnabled, forceEnabled := true, true;
    }

    /** renew with Renew left disabled after a success (the corrected renew). */
    method RenewCorrected(forced: bool, age: Duration, err: Option<string>, notifyOk: bool, ageAfter: Duration)
      modifies this
      ensures State() == RenewStepCorrected(old(State()), forced, age, err, notifyOk, ageAfter)
    {
      if age < NearAge && !forced {
        return;
      }
      renewEnabled, forceEnabled := false, false;
      forceRenewals := forceRenewals + 1;
      if err.Some? {
        notices := notices + [Notice(ErrorTitle, notifyOk)];
        renewEnabled, forceEnabled := true, true;
      } else {
        notices := notices + [Notice(RenewedTitle, notifyOk)];
        expiredNotified := false;
        expiryNearNotified := false;
        forceEnabled := true;
        statusTitle := Status(ageAfter);
        statusTooltip := StatusText(ageAfter);
        trayTooltip := StatusText(ageAfter);
      }
    }
  }
}
