/**
 * The SSH agent as the renewers see it: a set of loaded keys, each known by
 * its public key blob and carrying a comment and an optional lifetime; and
 * the checks loadKey, loadpubkey and loadcert apply before anything is sent
 * to the agent. Parsing and the agent protocol are abstracted: a file's
 * content is already classified (see Host.Content).
 */
module Agent {
  import opened Base
  import opened Durations
  import opened Host

  /** The public key blob an agent entry is known by. */
  datatype Blob = CertBlob(cred: nat) | KeyBlob(cred: nat)

  /**
   * The lifetime constraint of an added key. LifetimeSecs == 0 adds no
   * constraint; a lifetime whose uint32 value the model does not fix (see
   * LifetimeOf) is Unspecified.
   */
  datatype Lifetime = NoLifetime | Seconds(secs: nat) | Unspecified(requested: Duration)

  datatype Entry = Entry(comment: string, lifetime: Lifetime)

  type Keys = map<Blob, Entry>

  /** Why adding to or removing from the agent failed. */
  datatype Failure =
    | KeyUnreadable       // os.ReadFile of the private key failed
    | KeyUnparseable      // ssh.ParseRawPrivateKey failed
    | NotEcdsa            // the private key is not *ecdsa.PrivateKey
    | PubUnreadable       // os.ReadFile of the public key/certificate failed
    | PubUnparseable      // ssh.ParseAuthorizedKey failed
    | NotCertificate      // a plain public key where a certificate is needed
    | NoAgent             // sshagent.NewAgent could not connect
    | KeyCertMismatch     // the agent client refuses a certificate for another key
    | Refused             // the agent answered with a failure
    | NotLoaded           // removal of a key the agent does not hold

  /** loadKey: the file must read, parse as a private key, and be ECDSA. */
  function LoadKey(n: Option<Node>): (r: Result<nat, Failure>)
    ensures r.Ok? <==> n.Some? && n.value.kind.Regular? && n.value.kind.content.PrivateKey?
                       && n.value.kind.content.alg == Ecdsa
    ensures r.Ok? ==> r.value == n.value.kind.content.cred
    ensures (n.Some? && n.value.kind.Regular? && n.value.kind.content.PrivateKey?
             && n.value.kind.content.alg != Ecdsa) ==> r == Err(NotEcdsa)
  {
    match n
    case None => Err(KeyUnreadable)
    case Some(Node(Directory, _)) => Err(KeyUnreadable)
    case Some(Node(Regular(PrivateKey(alg, cred)), _)) =>
      if alg == Ecdsa then Ok(cred) else Err(NotEcdsa)
    case Some(_) => Err(KeyUnparseable)
  }

  /** loadpubkey: the file must read and parse as a public key or a certificate. */
  function LoadPubKey(n: Option<Node>): (r: Result<Blob, Failure>)
    ensures r.Ok? <==> n.Some? && n.value.kind.Regular?
                       && (n.value.kind.content.PublicKey? || n.value.kind.content.Certificate?)
    ensures r.Ok? ==> (r.value.CertBlob? <==> n.value.kind.content.Certificate?)
    ensures r.Ok? ==> r.value.cred == n.value.kind.content.cred
    ensures r.Err? ==> r.error in {PubUnreadable, PubUnparseable}
  {
    match n
    case None => Err(PubUnreadable)
    case Some(Node(Directory, _)) => Err(PubUnreadable)
    case Some(Node(Regular(Certificate(cred, _)), _)) => Ok(CertBlob(cred))
    case Some(Node(Regular(PublicKey(cred)), _)) => Ok(KeyBlob(cred))
    case Some(_) => Err(PubUnparseable)
  }

  /** loadcert: loadpubkey, then the key must be a certificate; gives its comment. */
  function LoadCert(n: Option<Node>): (r: Result<(nat, string), Failure>)
    ensures r.Ok? <==> n.Some? && n.value.kind.Regular? && n.value.kind.content.Certificate?
    ensures r.Ok? ==> n.value.kind.content == Certificate(r.value.0, r.value.1)
    ensures LoadPubKey(n).Ok? && LoadPubKey(n).value.KeyBlob? ==> r == Err(NotCertificate)
  {
    match LoadPubKey(n)
    case Err(e) => Err(e)
    case Ok(CertBlob(_)) => Ok((n.value.kind.content.cred, n.value.kind.content.comment))
    case Ok(KeyBlob(_)) => Err(NotCertificate)
  }

  /**
   * addToAgent: what one add call registers, or why it fails. The key is
   * loaded before the certificate, and the agent is contacted only when
   * both loaded. up: the agent could be reached; accepts: it took the key.
   */
  function AddRequest(key: Option<Node>, cert: Option<Node>, life: Lifetime, up: bool, accepts: bool)
    : (r: Result<(Blob, Entry), Failure>)
    ensures r.Ok? ==> up && accepts && LoadKey(key).Ok? && LoadCert(cert).Ok?
                      && LoadKey(key).value == LoadCert(cert).value.0
                      && r.value == (CertBlob(LoadKey(key).value), Entry(LoadCert(cert).value.1, life))
    ensures LoadKey(key).Err? ==> r == Err(LoadKey(key).error)
    ensures LoadKey(key).Ok? && LoadCert(cert).Err? ==> r == Err(LoadCert(cert).error)
    ensures LoadKey(key).Ok? && LoadCert(cert).Ok? && !up ==> r == Err(NoAgent)
    ensures LoadKey(key).Ok? && LoadCert(cert).Ok? && up && LoadKey(key).value != LoadCert(cert).value.0 ==>
      r == Err(KeyCertMismatch)
    ensures LoadKey(key).Ok? && LoadCert(cert).Ok? && up && LoadKey(key).value == LoadCert(cert).value.0 ==>
      r == (if accepts then Ok((CertBlob(LoadKey(key).value), Entry(LoadCert(cert).value.1, life))) else Err(Refused))
  {
    match LoadKey(key)
    case Err(e) => Err(e)
    case Ok(k) =>
      match LoadCert(cert)
      case Err(e) => Err(e)
      case Ok((c, comment)) =>
        if !up then Err(NoAgent)
        else if k != c then Err(KeyCertMismatch)
        else if !accepts then Err(Refused)
        else Ok((CertBlob(c), Entry(comment, life)))
  }

  /** removeFromAgent: the blob one remove call drops, or why it fails. */
  function RemoveRequest(pub: Option<Node>, keys: Keys, up: bool, accepts: bool): (r: Result<Blob, Failure>)
    ensures r.Ok? ==> up && accepts && LoadPubKey(pub) == Ok(r.value) && r.value in keys
    ensures LoadPubKey(pub).Err? ==> r == Err(LoadPubKey(pub).error)
    ensures LoadPubKey(pub).Ok? && !up ==> r == Err(NoAgent)
    ensures LoadPubKey(pub).Ok? && up && !accepts ==> r == Err(Refused)
    ensures LoadPubKey(pub).Ok? && up && accepts ==>
      r == (if LoadPubKey(pub).value in keys then Ok(LoadPubKey(pub).value) else Err(NotLoaded))
  {
    match LoadPubKey(pub)
    case Err(e) => Err(e)
    case Ok(blob) =>
      if !up then Err(NoAgent)
      else if !accepts then Err(Refused)
      else if blob !in keys then Err(NotLoaded)
      else Ok(blob)
  }

  /**
   * uint32(life.Seconds()) as the LifetimeSecs of agent.AddedKey: whole
   * seconds, truncated; zero means no constraint; a negative or too large
   * count has no defined uint32 value. Seconds() is a float64 sum of the
   * whole seconds and the fraction, which from 2^24 seconds on can round a
   * fraction just under one up to the next second; such a lifetime with a
   * fraction is left Unspecified, while a whole number of seconds is exact.
   */
  function LifetimeOf(d: Duration): (l: Lifetime)
    ensures l.Seconds? ==> 0 < l.secs < 0x1_0000_0000 && l.secs * Second <= d < (l.secs + 1) * Second
    ensures l == NoLifetime <==> -Second < d < Second
    ensures l.Unspecified? <==>
      d <= -Second || d >= 0x1_0000_0000 * Second || (d >= 0x100_0000 * Second && d % Second != 0)
  {
    var secs := Quo(d, Second);
    if secs < 0 || secs >= 0x1_0000_0000 then Unspecified(d)
    else if secs >= 0x100_0000 && d % Second != 0 then Unspecified(d)
    else if secs == 0 then NoLifetime
    else Seconds(secs)
  }
}
