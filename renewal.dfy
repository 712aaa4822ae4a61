/**
 * The renewal path both orchestrators follow (Run in pkg/opkssh and
 * rootCommand.Run in pkg/cmd): make a staging directory, log in into it,
 * give the certificate its "-cert.pub" name, add the new identity to the
 * agent, drop the old one from the agent, move the new files over the
 * canonical ones, and always remove the staging directory once it exists.
 * The two callers differ in how the staging directory's parent is made, in
 * the lifetime they ask for, and in how they log in (pkg/opkssh runs the
 * opkssh login in process with a 30-second timeout, pkg/cmd starts the
 * external `opkssh login -i` with none); both logins are the one oracle
 * answer Oracle.login.
 */
module Renewal {
  import opened Base
  import opened Durations
  import opened Host
  import opened Agent
  import opened Environment

  /** Where a renewal stopped; each is returned to the caller as an error. */
  datatype RunError =
    | NoHome                      // os.UserHomeDir failed
    | TempDir                     // "could not create temp dir"
    | Login                       // "problem with opkssh login"
    | StageCert                   // "problem renaming certificate" (staged .pub -> -cert.pub)
    | AddExisting(why: Failure)   // re-adding the current identity failed (returned unwrapped)
    | AddNew(why: Failure)        // "problem adding to agent"
    | MoveKey                     // "problem renaming private key"
    | MoveCert                    // "problem renaming certificate" (into place)

  datatype Outcome = Pass | Fail(error: RunError)

  /**
   * Whether the current identity is re-added instead of replaced: it exists
   * (a non-negative age), is younger than the maximum age, and renewal is not
   * forced.
   */
  function Reuses(age: Duration, maxAge: Duration, force: bool): (reuse: bool)
    ensures reuse ==> 0 <= age < maxAge && !force
    ensures age == -1 ==> !reuse
    ensures force || age >= maxAge ==> !reuse
    ensures 0 <= age < maxAge && !force ==> reuse
  {
    if age >= 0 && age < maxAge then !force else false
  }

  /** Every call of a full renewal, in the order it makes them. */
  function FullRenewal(parent: Path, staged: Path, key: Path, life: Lifetime): seq<Effect> {
    [ MakeTemp(parent),
      OpksshLogin(staged),
      Rename(PubPath(staged), CertPath(staged)),
      AgentAdd(staged, life),
      AgentRemove(CertPath(key)),
      Rename(staged, key),
      Rename(CertPath(staged), CertPath(key)) ]
  }

  /** How many calls of FullRenewal a run that ends with res has made. */
  function StepsTaken(res: Outcome): nat {
    match res
    case Fail(TempDir) => 1
    case Fail(Login) => 2
    case Fail(StageCert) => 3
    case Fail(AddNew(_)) => 4
    case Fail(MoveKey) => 6
    case _ => 7
  }

  /** The calls of a full renewal ending with res: a prefix of FullRenewal, then the cleanup. */
  function RenewalCalls(parent: Path, tmp: Path, staged: Path, key: Path, life: Lifetime, res: Outcome): seq<Effect> {
    FullRenewal(parent, staged, key, life)[..StepsTaken(res)]
      + (if res == Fail(TempDir) then [] else [RemoveAll(tmp)])
  }

  /** The calls of a run, split the way Replace makes them: the staging directory, the rest, the cleanup. */
  lemma CallsSplit(t0: seq<Effect>, parent: Path, tmp: Path, staged: Path, key: Path, life: Lifetime, res: Outcome)
    ensures res == Fail(TempDir) ==> t0 + RenewalCalls(parent, tmp, staged, key, life, res) == t0 + [MakeTemp(parent)]
    ensures res != Fail(TempDir) ==>
      t0 + RenewalCalls(parent, tmp, staged, key, life, res)
      == t0 + [MakeTemp(parent)] + FullRenewal(parent, staged, key, life)[1..StepsTaken(res)] + [RemoveAll(tmp)]
  {
    var full := FullRenewal(parent, staged, key, life);
    assert full[..StepsTaken(res)] == [MakeTemp(parent)] + full[1..StepsTaken(res)];
  }

  /** Two adjacent slices of s, appended in turn, are the slice they span. */
  lemma SliceJoin(t0: seq<Effect>, s: seq<Effect>, i: nat, j: nat, k: nat)
    requires i <= j <= k <= |s|
    ensures t0 + s[i..j] + s[j..k] == t0 + s[i..k]
  {
    assert s[i..j] + s[j..k] == s[i..k];
  }

  /** The canonical key and certificate lie outside the staging directory. */
  predicate Outside(key: Path, tmp: Path) {
    !Within(key, tmp) && !Within(CertPath(key), tmp)
  }

  /** The canonical files lie outside the staging directory and are not the ssh directory. */
  predicate Separate(key: Path, tmp: Path, sshDir: Path) {
    Outside(key, tmp) && key != sshDir && CertPath(key) != sshDir
  }

  /**
   * In every run, the calls that drop the old agent entry or overwrite a
   * canonical file come after the call that adds the new identity; a run
   * that ends before the add has made neither.
   */
  lemma AddComesFirst(parent: Path, tmp: Path, name: string, key: Path, life: Lifetime, res: Outcome)
    requires Separate(key, tmp, parent)
    ensures var t := RenewalCalls(parent, tmp, Join(tmp, name), key, life, res);
      forall i :: 0 <= i < |t| && (t[i].AgentRemove? || (t[i].Rename? && !Within(t[i].dst, tmp))) ==>
        exists j :: 0 <= j < i && t[j] == AgentAdd(Join(tmp, name), life)
    ensures res.Fail? && (res.error.TempDir? || res.error.Login? || res.error.StageCert?) ==>
      forall e :: e in RenewalCalls(parent, tmp, Join(tmp, name), key, life, res) ==> !e.AgentAdd? && !e.AgentRemove?
  {
    var staged := Join(tmp, name);
    var t := RenewalCalls(parent, tmp, staged, key, life, res);
    var full := FullRenewal(parent, staged, key, life);
    StagingLayout(tmp, name);
    forall i | 0 <= i < |t| && (t[i].AgentRemove? || (t[i].Rename? && !Within(t[i].dst, tmp)))
      ensures exists j :: 0 <= j < i && t[j] == AgentAdd(staged, life)
    {
      assert i < StepsTaken(res) && i >= 4;
      assert t[3] == full[3];
    }
  }

  /** Staged files of a run: the login's key and, once renamed, its certificate. */
  function StagedNode(c: Content, now: int): Node {
    Node(Regular(c), now)
  }

  /** What adding the freshly logged-in identity answers. */
  function NewAdd(o: Oracle, now: int, life: Lifetime): Result<(Blob, Entry), Failure>
    requires o.login.LoginWrites?
  {
    AddRequest(Some(StagedNode(o.login.key, now)), Some(StagedNode(o.login.pub, now)), life, o.agentUp, o.addOk)
  }

  /** The agent after one removeFromAgent of the entry named by the file node pub. */
  function AfterRemoval(keys: Keys, pub: Option<Node>, o: Oracle): Keys {
    var r := RemoveRequest(pub, keys, o.agentUp, o.removeOk);
    if r.Ok? then keys - {r.value} else keys
  }

  /**
   * renameIdentity: move src over dst, then src-cert.pub over dst-cert.pub.
   * A failed key move stops before the certificate; a failed certificate
   * move leaves the key already moved (a torn pair).
   */
  method RenameIdentity(w: World, src: Path, dst: Path, o: Oracle) returns (res: Outcome)
    modifies w
    ensures res == Pass || res == Fail(MoveKey) || res == Fail(MoveCert)
    ensures w.agent == old(w.agent) && w.now == old(w.now)
    ensures res == Fail(MoveKey) <==> src !in old(w.files) || src in o.failingRenames
    ensures res == Fail(MoveKey) ==> w.files == old(w.files) && w.trace == old(w.trace) + [Rename(src, dst)]
    ensures res != Fail(MoveKey) ==>
      w.trace == old(w.trace) + [Rename(src, dst), Rename(CertPath(src), CertPath(dst))]
    ensures res != Fail(MoveKey) ==>
      (res == Fail(MoveCert) <==>
        CertPath(src) !in Moved(old(w.files), src, dst) || CertPath(src) in o.failingRenames)
    ensures res == Fail(MoveCert) ==> w.files == Moved(old(w.files), src, dst)
    ensures res == Pass ==> w.files == Moved(Moved(old(w.files), src, dst), CertPath(src), CertPath(dst))
  {
    var ok := w.RenameFile(src, dst, o);
    if !ok {
      return Fail(MoveKey);
    }
    ok := w.RenameFile(CertPath(src), CertPath(dst), o);
    if !ok {
      return Fail(MoveCert);
    }
    res := Pass;
  }

  /** Where the staged files lie: inside the staging directory, at three distinct paths. */
  lemma StagingLayout(tmp: Path, name: string)
    ensures var nk := Join(tmp, name);
      Within(nk, tmp) && Within(PubPath(nk), tmp) && Within(CertPath(nk), tmp)
      && nk != PubPath(nk) && nk != CertPath(nk) && PubPath(nk) != CertPath(nk)
  {
    var nk := Join(tmp, name);
    JoinWithin(tmp, name, "");
    JoinWithin(tmp, name, ".pub");
    JoinWithin(tmp, name, "-cert.pub");
    assert nk + "" == nk;
    assert PubPath(nk)[|nk|] == '.' && CertPath(nk)[|nk|] == '-';
  }

  /**
   * Steps two and three of a full renewal: the login writes the new key and
   * its public half into the staging directory, and the public half is
   * renamed to the certificate name. Nothing outside the staging directory
   * and nothing in the agent changes.
   */
  method Stage(w: World, o: Oracle, sshDir: Path, tmp: Path, name: string, key: Path, life: Lifetime)
    returns (res: Outcome)
    modifies w
    ensures res == Pass || res == Fail(Login) || res == Fail(StageCert)
    ensures w.agent == old(w.agent) && w.now == old(w.now)
    ensures w.trace == old(w.trace) + FullRenewal(sshDir, Join(tmp, name), key, life)[1..if res.Pass? then 3 else StepsTaken(res)]
    ensures AgreeOutside(old(w.files), w.files, tmp, {})
    ensures res == Fail(Login) <==> o.login.LoginFails?
    ensures res == Fail(StageCert) <==> o.login.LoginWrites? && PubPath(Join(tmp, name)) in o.failingRenames
    ensures res == Pass ==>
      Lookup(w.files, Join(tmp, name)) == Some(StagedNode(o.login.key, w.now))
      && Lookup(w.files, CertPath(Join(tmp, name))) == Some(StagedNode(o.login.pub, w.now))
  {
    var staged := Join(tmp, name);
    ghost var full := FullRenewal(sshDir, staged, key, life);
    StagingLayout(tmp, name);
    var ok := w.RunLogin(staged, o);
    if !ok {
      assert full[1..2] == [OpksshLogin(staged)];
      return Fail(Login);
    }
    ok := w.RenameFile(PubPath(staged), CertPath(staged), o);
    assert full[1..3] == [OpksshLogin(staged), Rename(PubPath(staged), CertPath(staged))];
    if !ok {
      return Fail(StageCert);
    }
    res := Pass;
  }

  /**
   * Steps four to seven: add the staged identity to the agent, drop the old
   * entry (a failure there is only logged), and move the staged files over
   * the canonical ones. A failed add changes nothing.
   */
  method Swap(w: World, o: Oracle, sshDir: Path, tmp: Path, name: string, key: Path, life: Lifetime)
    returns (res: Outcome)
    requires o.login.LoginWrites?
    requires Lookup(w.files, Join(tmp, name)) == Some(StagedNode(o.login.key, w.now))
    requires Lookup(w.files, CertPath(Join(tmp, name))) == Some(StagedNode(o.login.pub, w.now))
    modifies w
    ensures res.Pass? || res.error in {MoveKey, MoveCert} || res.error.AddNew?
    ensures w.now == old(w.now)
    ensures w.trace == old(w.trace) + FullRenewal(sshDir, Join(tmp, name), key, life)[3..StepsTaken(res)]
    ensures res.Fail? && res.error.AddNew? <==> NewAdd(o, old(w.now), life).Err?
    ensures res.Fail? && res.error.AddNew? ==>
      res.error.why == NewAdd(o, old(w.now), life).error && w.agent == old(w.agent) && w.files == old(w.files)
    ensures res.Pass? || res.error in {MoveKey, MoveCert} ==>
      NewAdd(o, old(w.now), life).Ok?
      && w.agent == AfterRemoval(old(w.agent)[NewAdd(o, old(w.now), life).value.0 := NewAdd(o, old(w.now), life).value.1],
                                 Lookup(old(w.files), CertPath(key)), o)
      && (res == Fail(MoveKey) <==> Join(tmp, name) in o.failingRenames)
      && (res == Fail(MoveCert) <==> Join(tmp, name) !in o.failingRenames && CertPath(Join(tmp, name)) in o.failingRenames)
    ensures res == Fail(MoveKey) ==> w.files == old(w.files)
    ensures Outside(key, tmp) && res == Fail(MoveCert) ==>
      Lookup(w.files, key) == Some(StagedNode(o.login.key, old(w.now)))
      && AgreeOutside(old(w.files), w.files, tmp, {key})
    ensures Outside(key, tmp) && res == Pass ==>
      Lookup(w.files, key) == Some(StagedNode(o.login.key, old(w.now)))
      && Lookup(w.files, CertPath(key)) == Some(StagedNode(o.login.pub, old(w.now)))
      && AgreeOutside(old(w.files), w.files, tmp, {key, CertPath(key)})
  {
    var staged := Join(tmp, name);
    ghost var full := FullRenewal(sshDir, staged, key, life);
    StagingLayout(tmp, name);
    ghost var f0, t0 := w.files, w.trace;
    var added := Enroll(w, o, staged, key, life);
    if added.Err? {
      assert full[3..4] == [AgentAdd(staged, life)];
      return Fail(AddNew(added.error));
    }
    assert w.trace == t0 + full[3..5];
    res := RenameIdentity(w, staged, key, o);
    assert full[5..StepsTaken(res)] == if res == Fail(MoveKey) then [Rename(staged, key)]
                                       else [Rename(staged, key), Rename(CertPath(staged), CertPath(key))];
    SliceJoin(t0, full, 3, 5, StepsTaken(res));
    MovedPair(f0, tmp, staged, key, StagedNode(o.login.key, old(w.now)), StagedNode(o.login.pub, old(w.now)));
  }

  /**
   * The agent half of the swap: add the staged identity, and only if that
   * succeeds drop the entry of the old certificate (a failure to drop it is
   * only logged).
   */
  method Enroll(w: World, o: Oracle, staged: Path, key: Path, life: Lifetime)
    returns (added: Result<(Blob, Entry), Failure>)
    requires o.login.LoginWrites?
    requires Lookup(w.files, staged) == Some(StagedNode(o.login.key, w.now))
    requires Lookup(w.files, CertPath(staged)) == Some(StagedNode(o.login.pub, w.now))
    modifies w
    ensures w.files == old(w.files) && w.now == old(w.now)
    ensures added == NewAdd(o, old(w.now), life)
    ensures added.Err? ==> w.agent == old(w.agent) && w.trace == old(w.trace) + [AgentAdd(staged, life)]
    ensures added.Ok? ==>
      w.agent == AfterRemoval(old(w.agent)[added.value.0 := added.value.1], Lookup(old(w.files), CertPath(key)), o)
      && w.trace == old(w.trace) + [AgentAdd(staged, life), AgentRemove(CertPath(key))]
  {
    added := w.AddToAgent(staged, life, o);
    if added.Ok? {
      var _ := w.RemoveFromAgent(CertPath(key), o);
    }
  }

  /**
   * Moving a staged pair out of tmp: the certificate is still in place
   * after the key has moved, and outside tmp only the destinations change.
   */
  lemma MovedPair(f0: Files, tmp: Path, staged: Path, key: Path, k: Node, c: Node)
    requires Lookup(f0, staged) == Some(k) && Lookup(f0, CertPath(staged)) == Some(c)
    requires Within(staged, tmp) && Within(CertPath(staged), tmp) && staged != CertPath(staged)
    ensures CertPath(staged) in Moved(f0, staged, key)
    ensures Outside(key, tmp) ==>
      var f1 := Moved(f0, staged, key);
      Lookup(f1, key) == Some(k) && AgreeOutside(f0, f1, tmp, {key})
      && var f2 := Moved(f1, CertPath(staged), CertPath(key));
      Lookup(f2, key) == Some(k) && Lookup(f2, CertPath(key)) == Some(c)
      && AgreeOutside(f0, f2, tmp, {key, CertPath(key)})
  {
    if Outside(key, tmp) {
      assert key != CertPath(key);
      assert Lookup(Moved(f0, staged, key), CertPath(staged)) == Some(c);
    }
  }

  /**
   * Where a run that made its staging directory stops, in terms of what the
   * login, the renames and the agent answer. staged is the staged key path;
   * now is the clock the login stamps its files with.
   */
  ghost predicate StopsAt(o: Oracle, now: int, staged: Path, life: Lifetime, res: Outcome) {
    (res.Pass? || res.error in {Login, StageCert, MoveKey, MoveCert} || res.error.AddNew?)
    && (res == Fail(Login) <==> o.login.LoginFails?)
    && (res == Fail(StageCert) <==> o.login.LoginWrites? && PubPath(staged) in o.failingRenames)
    && (res.Fail? && res.error.AddNew? <==>
          o.login.LoginWrites? && PubPath(staged) !in o.failingRenames && NewAdd(o, now, life).Err?)
    && (res.Fail? && res.error.AddNew? ==> res.error.why == NewAdd(o, now, life).error)
    && (res.Pass? || res.error in {MoveKey, MoveCert} ==>
          o.login.LoginWrites? && NewAdd(o, now, life).Ok?
          && (res == Fail(MoveKey) <==> staged in o.failingRenames)
          && (res == Fail(MoveCert) <==> staged !in o.failingRenames && CertPath(staged) in o.failingRenames))
  }

  /** The run stopped before the new identity reached the agent. */
  predicate BeforeAdd(res: Outcome) {
    res.Fail? && (res.error in {TempDir, Login, StageCert} || res.error.AddNew?)
  }

  /**
   * What a run that ended with res did to the files (from f0 to f) and the
   * agent (from a0 to a), outside the staging directory tmp and the paths in
   * except. Before the add nothing changed. Once the canonical files are
   * known to be apart from staging: the agent gained the new identity and
   * lost the one named by the old certificate; a failed key move leaves the
   * canonical files alone, a failed certificate move leaves the new key next
   * to the old certificate, and a pass has both new files in place.
   */
  ghost predicate Frames(f0: Files, a0: Keys, f: Files, a: Keys, o: Oracle, now: int, tmp: Path,
                         key: Path, life: Lifetime, res: Outcome, except: set<Path>, apart: bool)
  {
    (BeforeAdd(res) ==> a == a0 && AgreeOutside(f0, f, tmp, except))
    && (apart && !BeforeAdd(res) ==>
          o.login.LoginWrites? && NewAdd(o, now, life).Ok?
          && a == AfterRemoval(a0[NewAdd(o, now, life).value.0 := NewAdd(o, now, life).value.1], Lookup(f0, CertPath(key)), o))
    && (apart && res == Fail(MoveKey) ==> AgreeOutside(f0, f, tmp, except))
    && (apart && res == Fail(MoveCert) ==>
          o.login.LoginWrites? && Lookup(f, key) == Some(StagedNode(o.login.key, now))
          && AgreeOutside(f0, f, tmp, except + {key}))
    && (apart && res == Pass ==>
          o.login.LoginWrites? && Lookup(f, key) == Some(StagedNode(o.login.key, now))
          && Lookup(f, CertPath(key)) == Some(StagedNode(o.login.pub, now))
          && AgreeOutside(f0, f, tmp, except + {key, CertPath(key)}))
  }

  /**
   * Everything a full renewal does once the staging directory tmp exists,
   * ending with its removal (the deferred os.RemoveAll): whatever the
   * outcome, nothing is left below tmp.
   */
  method Install(w: World, o: Oracle, sshDir: Path, tmp: Path, name: string, key: Path, life: Lifetime)
    returns (res: Outcome)
    modifies w
    ensures w.now == old(w.now)
    ensures w.trace == old(w.trace) + FullRenewal(sshDir, Join(tmp, name), key, life)[1..StepsTaken(res)] + [RemoveAll(tmp)]
    ensures Vacant(w.files, tmp)
    ensures StopsAt(o, old(w.now), Join(tmp, name), life, res)
    ensures Frames(old(w.files), old(w.agent), w.files, w.agent, o, old(w.now), tmp, key, life, res, {}, Outside(key, tmp))
  {
    ghost var full := FullRenewal(sshDir, Join(tmp, name), key, life);
    ghost var f0, t0 := w.files, w.trace;
    res := Stage(w, o, sshDir, tmp, name, key, life);
    ghost var f1 := w.files;
    if res == Pass {
      res := Swap(w, o, sshDir, tmp, name, key, life);
      SliceJoin(t0, full, 1, 3, StepsTaken(res));
      if Outside(key, tmp) {
        assert Lookup(f1, CertPath(key)) == Lookup(f0, CertPath(key));
      }
    }
    ghost var f2 := w.files;
    w.RemoveTree(tmp);
    if BeforeAdd(res) || (Outside(key, tmp) && res == Fail(MoveKey)) {
      AgreeOutsideTrans(f0, f1, f2, tmp, {}, {}, {});
      AgreeOutsideTrans(f0, f2, w.files, tmp, {}, {}, {});
    } else if Outside(key, tmp) && res == Fail(MoveCert) {
      AgreeOutsideTrans(f0, f1, f2, tmp, {}, {key}, {} + {key});
      AgreeOutsideTrans(f0, f2, w.files, tmp, {} + {key}, {}, {} + {key});
    } else if Outside(key, tmp) && res == Pass {
      AgreeOutsideTrans(f0, f1, f2, tmp, {}, {key, CertPath(key)}, {} + {key, CertPath(key)});
      AgreeOutsideTrans(f0, f2, w.files, tmp, {} + {key, CertPath(key)}, {}, {} + {key, CertPath(key)});
    }
  }

  /** Install's account of a run, seen from before the staging directory was made. */
  lemma FramesWiden(f0: Files, f1: Files, a0: Keys, f: Files, a: Keys, o: Oracle, now: int, sshDir: Path, tmp: Path,
                    key: Path, life: Lifetime, res: Outcome)
    requires AgreeOutside(f0, f1, tmp, {sshDir})
    requires Frames(f1, a0, f, a, o, now, tmp, key, life, res, {}, Outside(key, tmp))
    ensures Frames(f0, a0, f, a, o, now, tmp, key, life, res, {sshDir}, Separate(key, tmp, sshDir))
  {
    if BeforeAdd(res) || (Separate(key, tmp, sshDir) && res == Fail(MoveKey)) {
      AgreeOutsideTrans(f0, f1, f, tmp, {sshDir}, {}, {sshDir});
    } else if Separate(key, tmp, sshDir) && res == Fail(MoveCert) {
      AgreeOutsideTrans(f0, f1, f, tmp, {sshDir}, {} + {key}, {sshDir} + {key});
    } else if Separate(key, tmp, sshDir) && res == Pass {
      AgreeOutsideTrans(f0, f1, f, tmp, {sshDir}, {} + {key, CertPath(key)}, {sshDir} + {key, CertPath(key)});
    }
    if Separate(key, tmp, sshDir) {
      assert Lookup(f1, CertPath(key)) == Lookup(f0, CertPath(key));
    }
  }

  /**
   * What a full renewal from files f0, agent a0 and trace t0 leaves behind
   * (f, a, t) when it ends with res: sshDir is the directory the staging
   * directory is made in, createParent says whether it is created first
   * (os.MkdirAll), key is the canonical private key path and life the
   * lifetime the new identity is added with. The calls are a prefix of
   * FullRenewal followed by the cleanup; a run that could not make the
   * staging directory changed nothing but the parent os.MkdirAll may have
   * made; any other run leaves nothing below the staging directory, stops
   * where StopsAt says, and changed files and agent as Frames says.
   */
  ghost predicate Replaced(f0: Files, a0: Keys, t0: seq<Effect>, now: int, f: Files, a: Keys, t: seq<Effect>,
                           o: Oracle, sshDir: Path, name: string, key: Path, createParent: bool, life: Lifetime,
                           res: Outcome)
  {
    var tmp := StagingDir(sshDir, o.tempSuffix);
    t == t0 + RenewalCalls(sshDir, tmp, Join(tmp, name), key, life, res)
    && (res == Fail(TempDir) <==> !TempOk(f0, sshDir, createParent, o))
    && (res == Fail(TempDir) ==> f == WithParent(f0, sshDir, createParent, o, now) && a == a0)
    && (res != Fail(TempDir) ==>
          Vacant(f, tmp)
          && StopsAt(o, now, Join(tmp, name), life, res)
          && Frames(f0, a0, f, a, o, now, tmp, key, life, res, {sshDir}, Separate(key, tmp, sshDir)))
  }

  /** The full renewal path shared by both orchestrators. */
  method Replace(w: World, o: Oracle, sshDir: Path, name: string, key: Path, createParent: bool, life: Lifetime)
    returns (res: Outcome)
    modifies w
    ensures w.now == old(w.now)
    ensures Replaced(old(w.files), old(w.agent), old(w.trace), old(w.now), w.files, w.agent, w.trace,
                     o, sshDir, name, key, createParent, life, res)
  {
    var tmp := StagingDir(sshDir, o.tempSuffix);
    ghost var f0 := w.files;
    var ok := w.MakeTempDir(sshDir, createParent, o);
    CallsSplit(old(w.trace), sshDir, tmp, Join(tmp, name), key, life, Fail(TempDir));
    if !ok {
      return Fail(TempDir);
    }
    ghost var f1 := w.files;
    assert AgreeOutside(f0, f1, tmp, {sshDir});
    res := Install(w, o, sshDir, tmp, name, key, life);
    CallsSplit(old(w.trace), sshDir, tmp, Join(tmp, name), key, life, res);
    FramesWiden(f0, f1, old(w.agent), w.files, w.agent, o, old(w.now), sshDir, tmp, key, life, res);
  }

  /**
   * The canonical files of an identity named name in sshDir are apart from
   * any staging directory made there, unless the name itself begins with the
   * staging prefix "opkssh".
   */
  lemma CanonicalApart(sshDir: Path, name: string, suffix: string)
    requires !(|name| >= 6 && name[..6] == "opkssh")
    ensures Separate(Join(sshDir, name), StagingDir(sshDir, suffix), sshDir)
  {
    var key, tmp := Join(sshDir, name), StagingDir(sshDir, suffix);
    var cert, n := CertPath(key), |sshDir| + 1;
    assert tmp[n..n + 6] == "opkssh";
    if |name| >= 6 {
      var j :| 0 <= j < 6 && name[j] != "opkssh"[j];
      assert key[n + j] == name[j] == cert[n + j] && tmp[n + j] == "opkssh"[j];
      DifferAt(key, tmp, n + j);
      DifferAt(cert, tmp, n + j);
    } else {
      assert cert[n + |name|] == '-' && tmp[n + |name|] == "opkssh"[|name|];
      DifferAt(cert, tmp, n + |name|);
    }
  }

  /** A path that differs from dir before dir ends is not below it. */
  lemma DifferAt(p: Path, dir: Path, i: nat)
    requires i < |p| && i < |dir| && p[i] != dir[i]
    ensures !Within(p, dir)
  {
    if |p| > |dir| {
      assert p[..|dir| + 1][i] == p[i] && (dir + "/")[i] == dir[i];
    }
  }
}
