/**
 * The machine the renewer runs on, as values: paths, file nodes with their
 * modification time, and the three filesystem operations the renewer relies
 * on (rename, recursive removal, stat for an age).
 */
module Host {
  import opened Base
  import opened Durations

  type Path = string

  /** filepath.Join of a clean directory and one more element. */
  function Join(dir: Path, name: string): (p: Path)
    ensures |p| == |dir| + 1 + |name| && p[..|dir|] == dir && p[|dir|] == '/' && p[|dir| + 1..] == name
  {
    dir + "/" + name
  }

  /** p is dir itself or lies somewhere below it. */
  predicate Within(p: Path, dir: Path) {
    p == dir || (|p| > |dir| && p[..|dir| + 1] == dir + "/")
  }

  lemma JoinWithin(dir: Path, name: string, ext: string)
    ensures Within(Join(dir, name) + ext, dir)
  {
    var p := Join(dir, name) + ext;
    assert p[..|dir| + 1] == dir + "/";
  }

  /** The key algorithms ssh.ParseRawPrivateKey can hand back. */
  datatype KeyAlg = Ecdsa | Rsa | Ed25519

  /**
   * What a file holds, as far as the renewer can tell: a private key, a
   * plain OpenSSH public key, an OpenSSH certificate (with its comment), or
   * bytes none of the parsers accept. `cred` names the key pair a key,
   * public key or certificate belongs to.
   */
  datatype Content =
    | PrivateKey(alg: KeyAlg, cred: nat)
    | PublicKey(cred: nat)
    | Certificate(cred: nat, comment: string)
    | Unparseable

  datatype Kind = Directory | Regular(content: Content)

  /** A filesystem entry: its kind and its modification time (nanoseconds). */
  datatype Node = Node(kind: Kind, mtime: int)

  type Files = map<Path, Node>

  function Lookup(files: Files, p: Path): Option<Node> {
    if p in files then Some(files[p]) else None
  }

  predicate IsDir(files: Files, p: Path) {
    p in files && files[p].kind.Directory?
  }

  /** Nothing exists at or below dir. */
  ghost predicate Vacant(files: Files, dir: Path) {
    forall p :: p in files ==> !Within(p, dir)
  }

  /** f and g agree on every path that is neither below dir nor one of except. */
  ghost predicate AgreeOutside(f: Files, g: Files, dir: Path, except: set<Path>) {
    forall p :: !Within(p, dir) && p !in except ==> Lookup(f, p) == Lookup(g, p)
  }

  lemma AgreeOutsideTrans(f: Files, g: Files, h: Files, dir: Path, a: set<Path>, b: set<Path>, c: set<Path>)
    requires AgreeOutside(f, g, dir, a) && AgreeOutside(g, h, dir, b)
    requires a <= c && b <= c
    ensures AgreeOutside(f, h, dir, c)
  {
  }

  /**
   * Age of the file at p, as the renewers compute it: -1 when os.Stat fails,
   * otherwise time.Since(ModTime()) on a clock reading `now`.
   */
  function AgeOf(files: Files, p: Path, now: int): (age: Duration)
    ensures p !in files ==> age == -1
    ensures p in files ==> files[p].mtime + age == now
  {
    if p in files then now - files[p].mtime else -1
  }

  /** os.Rename of an existing src: dst takes src's node, src is gone. */
  function Moved(files: Files, src: Path, dst: Path): (r: Files)
    requires src in files
    ensures Lookup(r, dst) == Some(files[src])
    ensures src != dst ==> src !in r
    ensures forall p :: p != src && p != dst ==> Lookup(r, p) == Lookup(files, p)
  {
    if src == dst then files else (files - {src})[dst := files[src]]
  }

  /** os.RemoveAll(dir): dir and everything below it are gone, the rest stays. */
  function Pruned(files: Files, dir: Path): (r: Files)
    ensures Vacant(r, dir)
    ensures AgreeOutside(files, r, dir, {})
  {
    map p | p in files && !Within(p, dir) :: files[p]
  }
}
