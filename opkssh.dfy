/**
 * pkg/opkssh: the library renewer. A Renewer is configured once (identity
 * name, maximum age, force flag, home directory, logger) and its Run either
 * re-adds the cached identity to the agent, with no lifetime, or replaces
 * it through the full renewal path, making ~/.ssh first if it is missing.
 */
module Opkssh {
  import opened Base
  import opened Durations
  import opened Host
  import opened Agent
  import opened Environment
  import opened Renewal

  /** Where log records go; only the identity of the handler matters here. */
  datatype Logger = Discard | Handler(id: nat)

  /** The functional options NewRenewer applies, in order, after the defaults. */
  datatype RenewerOption = WithLogger(logger: Logger)

  /** The logger left after applying opts, in order, to a renewer whose logger is current. */
  function LoggerAfter(current: Logger, opts: seq<RenewerOption>): (l: Logger)
    ensures opts == [] ==> l == current
    ensures opts != [] ==> l == opts[|opts| - 1].logger
    decreases |opts|
  {
    if opts == [] then current else LoggerAfter(opts[0].logger, opts[1..])
  }

  /** Applying one more option after a prefix is the same as applying the longer prefix. */
  lemma {:induction false} LoggerAfterStep(current: Logger, opts: seq<RenewerOption>, i: nat)
    requires i < |opts|
    ensures LoggerAfter(LoggerAfter(current, opts[..i]), [opts[i]]) == LoggerAfter(current, opts[..i + 1])
  {
    assert opts[..i + 1][i] == opts[i];
  }

  class Renewer {
    const name: string
    const life: Duration
    const force: bool
    const home: Path
    var logger: Logger

    /** The defaults of NewRenewer: a discarding logger, and the home directory found. */
    constructor (name: string, life: Duration, force: bool, home: Path)
      ensures this.name == name && this.life == life && this.force == force && this.home == home
      ensures logger == Discard
    {
      this.name, this.life, this.force, this.home := name, life, force, home;
      logger := Discard;
    }

    /** One option applied to the renewer: WithLogger replaces the logger. */
    method Apply(opt: RenewerOption)
      modifies this
      ensures logger == LoggerAfter(old(logger), [opt])
    {
      match opt
      case WithLogger(l) => logger := l;
    }

    /** Name: the identity file name the renewer was made with. */
    function Name(): (n: string)
      ensures n == name
      ensures Join(Join(home, ".ssh"), n) == IdentityPath()
    {
      name
    }

    /** identityPath: <home>/.ssh/<name>. */
    function IdentityPath(): (p: Path)
      ensures Within(p, Join(home, ".ssh"))
      ensures |p| == |Join(home, ".ssh")| + 1 + |name| && p[|Join(home, ".ssh")| + 1..] == name
    {
      JoinWithin(Join(home, ".ssh"), name, "");
      assert Join(Join(home, ".ssh"), name) + "" == Join(Join(home, ".ssh"), name);
      Join(Join(home, ".ssh"), name)
    }

    /** IdentityAge: -1 when the identity cannot be stat'ed, else how long ago it was written. */
    function IdentityAge(w: World): (age: Duration)
      reads w
      ensures IdentityPath() !in w.files ==> age == -1
      ensures IdentityPath() in w.files ==> age == w.now - w.files[IdentityPath()].mtime
    {
      AgeOf(w.files, IdentityPath(), w.now)
    }

    /**
     * Run: renew the identity if it is missing, at least life old, or
     * renewal is forced; otherwise only re-add it to the agent. The home
     * directory is looked up again (o.home); the staging directory is made
     * in <that home>/.ssh, while the canonical identity stays at
     * IdentityPath(), which uses the home found at construction.
     */
    method Run(w: World, o: Oracle) returns (res: Outcome)
      modifies w
      ensures w.now == old(w.now)
      ensures o.home.None? ==>
        res == Fail(NoHome) && w.files == old(w.files) && w.agent == old(w.agent) && w.trace == old(w.trace)
      // fresh and not forced: one agent add of the current identity, with no lifetime, and nothing else
      ensures o.home.Some? && Reuses(AgeOf(old(w.files), IdentityPath(), old(w.now)), life, force) ==>
        var r := AddRequest(Lookup(old(w.files), IdentityPath()), Lookup(old(w.files), CertPath(IdentityPath())),
                            NoLifetime, o.agentUp, o.addOk);
        w.trace == old(w.trace) + [AgentAdd(IdentityPath(), NoLifetime)]
        && w.files == old(w.files)
        && (r.Ok? ==> res == Pass && w.agent == old(w.agent)[r.value.0 := r.value.1])
        && (r.Err? ==> res == Fail(AddExisting(r.error)) && w.agent == old(w.agent))
      // missing, stale or forced: the full renewal, adding with no lifetime
      ensures o.home.Some? && !Reuses(AgeOf(old(w.files), IdentityPath(), old(w.now)), life, force) ==>
        Replaced(old(w.files), old(w.agent), old(w.trace), old(w.now), w.files, w.agent, w.trace,
                 o, Join(o.home.value, ".ssh"), name, IdentityPath(), true, NoLifetime, res)
    {
      if o.home.None? {
        return Fail(NoHome);
      }
      var sshDir := Join(o.home.value, ".ssh");
      var key := IdentityPath();
      var age := IdentityAge(w);
      if age >= 0 && age < life && !force {
        var r := w.AddToAgent(key, NoLifetime, o);
        if r.Err? {
          return Fail(AddExisting(r.error));
        }
        return Pass;
      }
      res := Replace(w, o, sshDir, name, key, true, NoLifetime);
    }
  }

  /**
   * NewRenewer: the defaults, then the home directory (its absence is an
   * error and no renewer), then each option in order.
   */
  method NewRenewer(name: string, life: Duration, force: bool, opts: seq<RenewerOption>, home: Option<Path>)
    returns (r: Renewer?)
    ensures home.None? <==> r == null
    ensures r != null ==>
      fresh(r) && r.name == name && r.life == life && r.force == force && r.home == home.value
      && r.logger == LoggerAfter(Discard, opts)
  {
    if home.None? {
      return null;
    }
    r := new Renewer(name, life, force, home.value);
    for i := 0 to |opts|
      invariant r.logger == LoggerAfter(Discard, opts[..i])
    {
      LoggerAfterStep(Discard, opts, i);
      r.Apply(opts[i]);
    }
    assert opts[..|opts|] == opts;
  }

  /**
   * With the home directory unchanged since construction and a name that
   * does not begin with the staging prefix, the canonical identity is apart
   * from the staging directory, so Replaced's account of the agent and the
   * canonical files applies to Run.
   */
  lemma RunIdentityApart(r: Renewer, home: Path, suffix: string)
    requires r.home == home && !(|r.name| >= 6 && r.name[..6] == "opkssh")
    ensures Separate(r.IdentityPath(), StagingDir(Join(home, ".ssh"), suffix), Join(home, ".ssh"))
  {
    CanonicalApart(Join(home, ".ssh"), r.name, suffix);
  }
}
