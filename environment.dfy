/**
 * The world a renewal runs against: the filesystem, the agent's loaded keys
 * and a clock, held by one object whose methods are the external calls the
 * renewers make. Each call appends itself to `trace`, so the order of the
 * calls a run made can be stated. What the operating system, the login
 * process and the agent answer is fixed in advance by an Oracle.
 */
module Environment {
  import opened Base
  import opened Durations
  import opened Host
  import opened Agent

  /** What the external login process does with the key path it is given. */
  datatype LoginOutcome =
    | LoginFails
    | LoginWrites(key: Content, pub: Content)   // writes <path> and <path>.pub

  /** The answers of everything outside the renewer, for one run. */
  datatype Oracle = Oracle(
    home: Option<Path>,          // os.UserHomeDir
    mkdirAllOk: bool,            // os.MkdirAll succeeds at the OS level
    mkdirTempOk: bool,           // os.MkdirTemp succeeds at the OS level
    tempSuffix: string,          // the random part os.MkdirTemp puts in place of '*'
    login: LoginOutcome,
    failingRenames: set<Path>,   // sources whose os.Rename fails with an I/O error
    agentUp: bool,               // sshagent.NewAgent connects
    addOk: bool,                 // the agent accepts an add request
    removeOk: bool)              // the agent accepts a remove request

  /** One external call, in the order the renewer issues them. */
  datatype Effect =
    | MakeTemp(parent: Path)
    | OpksshLogin(key: Path)
    | Rename(src: Path, dst: Path)
    | AgentAdd(key: Path, lifetime: Lifetime)
    | AgentRemove(cert: Path)
    | RemoveAll(dir: Path)

  /** The staging directory os.MkdirTemp(parent, "opkssh*") creates. */
  function StagingDir(parent: Path, suffix: string): (p: Path)
    ensures Within(p, parent) && p != parent
    ensures |p| == |parent| + 7 + |suffix| && p[|parent| + 1..|parent| + 7] == "opkssh" && p[|parent| + 7..] == suffix
  {
    JoinWithin(parent, "opkssh" + suffix, "");
    assert Join(parent, "opkssh" + suffix) + "" == Join(parent, "opkssh" + suffix);
    Join(parent, "opkssh" + suffix)
  }

  function PubPath(key: Path): Path {
    key + ".pub"
  }

  function CertPath(key: Path): Path {
    key + "-cert.pub"
  }

  /**
   * Whether parent is a directory once mkdirTemp's os.MkdirAll has run
   * (createParent) or, without it, as found. os.MkdirAll returns at once
   * for an existing directory, fails for an existing file, and otherwise
   * creates the directory unless the OS refuses.
   */
  predicate ParentOk(files: Files, parent: Path, createParent: bool, o: Oracle) {
    IsDir(files, parent) || (createParent && parent !in files && o.mkdirAllOk)
  }

  /**
   * The files after os.MkdirAll(parent) when createParent: a missing parent
   * is created, and stays created even when os.MkdirTemp then fails.
   */
  function WithParent(files: Files, parent: Path, createParent: bool, o: Oracle, now: int): (r: Files)
    ensures forall p :: p != parent ==> Lookup(r, p) == Lookup(files, p)
    ensures parent in files ==> r == files
    ensures ParentOk(files, parent, createParent, o) <==> IsDir(r, parent)
  {
    if createParent && o.mkdirAllOk && parent !in files then files[parent := Node(Directory, now)] else files
  }

  /** Whether the staging directory can be made under parent. */
  predicate TempOk(files: Files, parent: Path, createParent: bool, o: Oracle) {
    ParentOk(files, parent, createParent, o)
    && o.mkdirTempOk
    && (forall p :: p in files ==> !Within(p, StagingDir(parent, o.tempSuffix)))
  }

  class World {
    var files: Files
    var agent: Keys
    var now: int
    var trace: seq<Effect>

    constructor (files: Files, agent: Keys, now: int)
      ensures this.files == files && this.agent == agent && this.now == now && trace == []
    {
      this.files, this.agent, this.now, trace := files, agent, now, [];
    }

    /**
     * mkdirTemp in pkg/opkssh (createParent: os.MkdirAll first) or
     * os.MkdirTemp alone in pkg/cmd. A name the oracle chose that is already
     * taken stands for os.MkdirTemp giving up after its retries.
     */
    method MakeTempDir(parent: Path, createParent: bool, o: Oracle) returns (ok: bool)
      modifies this
      ensures trace == old(trace) + [MakeTemp(parent)]
      ensures agent == old(agent) && now == old(now)
      ensures ok <==> TempOk(old(files), parent, createParent, o)
      ensures ok ==> Vacant(old(files), StagingDir(parent, o.tempSuffix))
      ensures ok ==> files == WithParent(old(files), parent, createParent, o, now)
                              [StagingDir(parent, o.tempSuffix) := Node(Directory, now)]
      ensures !ok ==> files == WithParent(old(files), parent, createParent, o, now)
    {
      trace := trace + [MakeTemp(parent)];
      ok := TempOk(files, parent, createParent, o);
      files := WithParent(files, parent, createParent, o, now);
      if ok {
        files := files[StagingDir(parent, o.tempSuffix) := Node(Directory, now)];
      }
    }

    /** The external login: on success it writes key and key.pub, stamped now. */
    method RunLogin(key: Path, o: Oracle) returns (ok: bool)
      modifies this
      ensures trace == old(trace) + [OpksshLogin(key)]
      ensures agent == old(agent) && now == old(now)
      ensures ok <==> o.login.LoginWrites?
      ensures ok ==> files == old(files)[key := Node(Regular(o.login.key), now)]
                                        [PubPath(key) := Node(Regular(o.login.pub), now)]
      ensures !ok ==> files == old(files)
    {
      trace := trace + [OpksshLogin(key)];
      ok := o.login.LoginWrites?;
      if ok {
        files := files[key := Node(Regular(o.login.key), now)][PubPath(key) := Node(Regular(o.login.pub), now)];
      }
    }

    /** os.Rename: fails when src does not exist or the oracle says so; keeps mtime. */
    method RenameFile(src: Path, dst: Path, o: Oracle) returns (ok: bool)
      modifies this
      ensures trace == old(trace) + [Rename(src, dst)]
      ensures agent == old(agent) && now == old(now)
      ensures ok <==> src in old(files) && src !in o.failingRenames
      ensures ok ==> files == Moved(old(files), src, dst)
      ensures !ok ==> files == old(files)
    {
      trace := trace + [Rename(src, dst)];
      ok := src in files && src !in o.failingRenames;
      if ok {
        files := Moved(files, src, dst);
      }
    }

    /** addToAgent: load key and key-cert.pub, connect, add. */
    method AddToAgent(key: Path, life: Lifetime, o: Oracle) returns (r: Result<(Blob, Entry), Failure>)
      modifies this
      ensures trace == old(trace) + [AgentAdd(key, life)]
      ensures files == old(files) && now == old(now)
      ensures r == AddRequest(Lookup(old(files), key), Lookup(old(files), CertPath(key)), life, o.agentUp, o.addOk)
      ensures agent == if r.Ok? then old(agent)[r.value.0 := r.value.1] else old(agent)
    {
      trace := trace + [AgentAdd(key, life)];
      r := AddRequest(Lookup(files, key), Lookup(files, CertPath(key)), life, o.agentUp, o.addOk);
      if r.Ok? {
        agent := agent[r.value.0 := r.value.1];
      }
    }

    /** removeFromAgent: load the public key or certificate at cert, connect, remove. */
    method RemoveFromAgent(cert: Path, o: Oracle) returns (r: Result<Blob, Failure>)
      modifies this
      ensures trace == old(trace) + [AgentRemove(cert)]
      ensures files == old(files) && now == old(now)
      ensures r == RemoveRequest(Lookup(old(files), cert), old(agent), o.agentUp, o.removeOk)
      ensures agent == if r.Ok? then old(agent) - {r.value} else old(agent)
    {
      trace := trace + [AgentRemove(cert)];
      r := RemoveRequest(Lookup(files, cert), agent, o.agentUp, o.removeOk);
      if r.Ok? {
        agent := agent - {r.value};
      }
    }

    /** The deferred os.RemoveAll; its error is discarded by the caller. */
    method RemoveTree(dir: Path)
      modifies this
      ensures trace == old(trace) + [RemoveAll(dir)]
      ensures agent == old(agent) && now == old(now)
      ensures files == Pruned(old(files), dir)
    {
      trace := trace + [RemoveAll(dir)];
      files := Pruned(files, dir);
    }
  }
}
