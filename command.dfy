/**
 * pkg/cmd: the command-line renewer. Its flags give the identity name, the
 * maximum age and the force switch; Run makes the same decision and the
 * same full renewal as the library renewer, but asks for lifetimes: the
 * re-added identity gets its age less one hour, a new one the maximum age.
 * The staging directory is made in ~/.ssh without creating ~/.ssh first.
 */
module Command {
  import opened Base
  import opened Durations
  import opened Host
  import opened Agent
  import opened Environment
  import opened Renewal

  const DefaultName: string := "id_opkssh"
  const DefaultMaxAge: Duration := 23 * Hour

  /** The lifetime a fresh identity is re-added with: its age less one hour, in whole seconds. */
  function ReaddLifetime(age: Duration): (l: Lifetime)
    ensures Hour + Second <= age < Hour + 0x1_0000_0000 * Second
            && (age < Hour + 0x100_0000 * Second || age % Second == 0) ==>
      l.Seconds? && Hour + l.secs * Second <= age < Hour + (l.secs + 1) * Second
    ensures age <= Hour - Second ==> l.Unspecified?
  {
    LifetimeOf(age - Hour)
  }

  /** The default maximum age reaches the agent as 82800 seconds. */
  lemma DefaultLifetime()
    ensures LifetimeOf(DefaultMaxAge) == Seconds(82_800)
  {
    assert Quo(DefaultMaxAge, Second) == 82_800;
  }

  class RootCommand {
    var debug: bool
    var forceRenewal: bool
    var name: string
    var maxAge: Duration

    /** The zero value the command starts from, before Init binds its flags. */
    constructor ()
      ensures !debug && !forceRenewal && name == "" && maxAge == 0
    {
      debug, forceRenewal, name, maxAge := false, false, "", 0;
    }

    /**
     * Init: the embedded command's Init first (baseOk: it succeeded); on
     * failure nothing is bound. Binding a flag sets its default.
     */
    method Init(baseOk: bool) returns (ok: bool)
      modifies this
      ensures ok == baseOk
      ensures !ok ==> debug == old(debug) && forceRenewal == old(forceRenewal) && name == old(name) && maxAge == old(maxAge)
      ensures ok ==> name == DefaultName && maxAge == DefaultMaxAge && !forceRenewal && !debug
    {
      if !baseOk {
        return false;
      }
      name := DefaultName;
      maxAge := DefaultMaxAge;
      forceRenewal := false;
      debug := false;
      ok := true;
    }

    /**
     * Run: renew the identity <home>/.ssh/<name> if it is missing, at least
     * maxAge old, or renewal is forced; otherwise re-add it to the agent.
     */
    method Run(w: World, o: Oracle) returns (res: Outcome)
      modifies w
      ensures w.now == old(w.now)
      ensures o.home.None? ==>
        res == Fail(NoHome) && w.files == old(w.files) && w.agent == old(w.agent) && w.trace == old(w.trace)
      // fresh and not forced: one agent add of the current identity, with its age less an hour as lifetime
      ensures o.home.Some? ==>
        var key := Join(Join(o.home.value, ".ssh"), name);
        var age := AgeOf(old(w.files), key, old(w.now));
        Reuses(age, maxAge, forceRenewal) ==>
          var r := AddRequest(Lookup(old(w.files), key), Lookup(old(w.files), CertPath(key)),
                              ReaddLifetime(age), o.agentUp, o.addOk);
          w.trace == old(w.trace) + [AgentAdd(key, ReaddLifetime(age))]
          && w.files == old(w.files)
          && (r.Ok? ==> res == Pass && w.agent == old(w.agent)[r.value.0 := r.value.1])
          && (r.Err? ==> res == Fail(AddExisting(r.error)) && w.agent == old(w.agent))
      // missing, stale or forced: the full renewal in the existing ~/.ssh, adding with the maximum age
      ensures o.home.Some? ==>
        var key := Join(Join(o.home.value, ".ssh"), name);
        !Reuses(AgeOf(old(w.files), key, old(w.now)), maxAge, forceRenewal) ==>
          Replaced(old(w.files), old(w.agent), old(w.trace), old(w.now), w.files, w.agent, w.trace,
                   o, Join(o.home.value, ".ssh"), name, key, false, LifetimeOf(maxAge), res)
    {
      if o.home.None? {
        return Fail(NoHome);
      }
      var sshDir := Join(o.home.value, ".ssh");
      var key := Join(sshDir, name);
      var age := AgeOf(w.files, key, w.now);
      if age >= 0 && age < maxAge && !forceRenewal {
        var r := w.AddToAgent(key, ReaddLifetime(age), o);
        if r.Err? {
          return Fail(AddExisting(r.error));
        }
        return Pass;
      }
      res := Replace(w, o, sshDir, name, key, false, LifetimeOf(maxAge));
    }
  }
}
