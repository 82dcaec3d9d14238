/**
 * handshake() and authenticate() of src/ssh/connection.ts as a step machine,
 * cut at every await. The server may send any lines and packets; sends may
 * fail; the timeout may destroy the packet layer between any two steps. The
 * trace records what was sent, in the clear or sealed, and what was received.
 */
module Handshake {
  import opened Wrappers
  import opened ByteStrings
  import opened Wire
  import opened Kex
  import opened Messages

  const SERVICE_REQUEST := 5
  const SERVICE_ACCEPT := 6
  const NEWKEYS := 21
  const KEX_ECDH_INIT := 30
  const KEX_ECDH_REPLY := 31
  const USERAUTH_REQUEST := 50
  const USERAUTH_SUCCESS := 52
  const USERAUTH_BANNER := 53
  const MAX_IDENT_LINES := 32

  const CLIENT_IDENT := Ascii("SSH-2.0-SshTunnelSpike_0.1")

  /** SHA-256, X25519, Ed25519, and the fingerprint text of a host key, as functions. */
  datatype Suite = Suite(
    hash: Bytes -> Bytes,
    sharedSecret: (Bytes, Bytes) -> Option<Bytes>,
    verify: (Bytes, Bytes, Bytes) -> bool,
    sign: (Bytes, Bytes) -> Bytes,
    fingerprint: Bytes -> Bytes)

  datatype Credential = Password(password: Bytes) | PrivateKey(blob: Bytes, secret: Bytes)

  /**
   * pin is the saved fingerprint, empty for none; canConfirm that the caller
   * can ask the user; kexInit the KEXINIT payload this client sends and
   * request the login request it builds for a session id.
   */
  datatype Config = Config(
    suite: Suite,
    pin: Bytes,
    canConfirm: bool,
    kexInit: Bytes,
    request: Bytes -> Bytes,
    ephemeralSecret: Bytes,
    ephemeralPublic: Bytes)
  {
    ghost predicate WellFormed() {
      kexInit != [] && kexInit[0] == KEXINIT
    }
  }

  // ---------------------------------------------------------------------
  // Messages

  function Names(names: seq<string>): seq<Bytes> {
    seq(|names|, i requires 0 <= i < |names| => Ascii(names[i]))
  }

  const KEX_ALGS := ["curve25519-sha256", "curve25519-sha256@libssh.org"]
  const HOST_KEY_ALGS := ["ssh-ed25519"]
  const CIPHERS := ["aes256-gcm@openssh.com"]
  const MACS := ["hmac-sha2-256"]
  const COMPRESSION := ["none"]

  /** The lists we offer, the same in both directions. */
  datatype Offer = Offer(
    kex: seq<Bytes>,
    hostKey: seq<Bytes>,
    cipher: seq<Bytes>,
    mac: seq<Bytes>,
    compression: seq<Bytes>)

  function OurOffer(): Offer {
    Offer(Names(KEX_ALGS), Names(HOST_KEY_ALGS), Names(CIPHERS), Names(MACS), Names(COMPRESSION))
  }

  function KexInitFields(cookie: Bytes, o: Offer): seq<Field> {
    [FByte(KEXINIT), FRaw(cookie), FNames(o.kex), FNames(o.hostKey), FNames(o.cipher), FNames(o.cipher),
     FNames(o.mac), FNames(o.mac), FNames(o.compression), FNames(o.compression), FNames([]), FNames([]),
     FBool(false), FU32(0)]
  }

  function EcdhInit(cfg: Config): Bytes {
    [KEX_ECDH_INIT] + EncodeString(cfg.ephemeralPublic)
  }

  function ServiceRequest(): (payload: Bytes)
    ensures payload != [] && payload[0] == SERVICE_REQUEST
  {
    [SERVICE_REQUEST] + EncodeString(Ascii("ssh-userauth"))
  }

  /** What a public key login signs: the session id, then the request it authorises. */
  function SignedFields(sessionId: Bytes, username: Bytes, blob: Bytes): seq<Field> {
    [FString(sessionId), FByte(USERAUTH_REQUEST), FString(username), FString(Ascii("ssh-connection")),
     FString(Ascii("publickey")), FBool(true), FString(Ascii("ssh-ed25519")), FString(blob)]
  }

  function AuthFields(suite: Suite, username: Bytes, credential: Credential, sessionId: Bytes): (fields: seq<Field>)
    ensures fields != [] && fields[0] == FByte(USERAUTH_REQUEST)
  {
    match credential
    case Password(password) =>
      [FByte(USERAUTH_REQUEST), FString(username), FString(Ascii("ssh-connection")), FString(Ascii("password")),
       FBool(false), FString(password)]
    case PrivateKey(blob, secret) =>
      var signature := suite.sign(secret, Encode(SignedFields(sessionId, username, blob)));
      [FByte(USERAUTH_REQUEST), FString(username), FString(Ascii("ssh-connection")), FString(Ascii("publickey")),
       FBool(true), FString(Ascii("ssh-ed25519")), FString(blob),
       FString(EncodeString(Ascii("ssh-ed25519")) + EncodeString(signature))]
  }

  /** The configuration that connect() amounts to. */
  function ClientConfig(suite: Suite, pin: Bytes, canConfirm: bool, cookie: Bytes, username: Bytes,
                        credential: Credential, ephemeralSecret: Bytes, ephemeralPublic: Bytes): Config {
    Config(suite, pin, canConfirm, Encode(KexInitFields(cookie, OurOffer())),
           id => Encode(AuthFields(suite, username, credential, id)), ephemeralSecret, ephemeralPublic)
  }

  lemma EncodeStarts(fields: seq<Field>, b: byte)
    requires fields != [] && fields[0] == FByte(b)
    ensures Encode(fields) != [] && Encode(fields)[0] == b
  {
  }

  /** What is proved of well-formed configurations holds of every client, and its login is a USERAUTH_REQUEST. */
  lemma ClientConfigIsWellFormed(suite: Suite, pin: Bytes, canConfirm: bool, cookie: Bytes, username: Bytes,
                                 credential: Credential, ephemeralSecret: Bytes, ephemeralPublic: Bytes, id: Bytes)
    ensures var cfg := ClientConfig(suite, pin, canConfirm, cookie, username, credential, ephemeralSecret,
                                    ephemeralPublic);
            cfg.WellFormed() && IsAuth(cfg.request(id))
  {
    EncodeStarts(KexInitFields(cookie, OurOffer()), KEXINIT);
    EncodeStarts(AuthFields(suite, username, credential, id), USERAUTH_REQUEST);
  }

  /** A login signature is bound to its session: the signed bytes determine the session id, the user and the key. */
  lemma SignedBytesBindSession(s1: Bytes, u1: Bytes, b1: Bytes, s2: Bytes, u2: Bytes, b2: Bytes)
    requires |s1| < U32_LIMIT && |u1| < U32_LIMIT && |b1| < U32_LIMIT
    requires |s2| < U32_LIMIT && |u2| < U32_LIMIT && |b2| < U32_LIMIT
    ensures Encode(SignedFields(s1, u1, b1)) == Encode(SignedFields(s2, u2, b2)) <==> s1 == s2 && u1 == u2 && b1 == b2
  {
    var f, g := SignedFields(s1, u1, b1), SignedFields(s2, u2, b2);
    if Encode(f) == Encode(g) {
      RecordInjective(f, [], g, []);
      assert f[0] == g[0] && f[2] == g[2] && f[7] == g[7];
    }
  }

  /** The bytes of a public key request up to its signature (section 7 of RFC 4252). */
  function KeyRequest(username: Bytes, blob: Bytes): Bytes {
    [50] + (EncodeString(username) + (EncodeString(Ascii("ssh-connection")) + (EncodeString(Ascii("publickey"))
    + ([1] + (EncodeString(Ascii("ssh-ed25519")) + EncodeString(blob))))))
  }

  lemma SevenFields(f: seq<Field>)
    requires |f| == 7
    ensures Encode(f)
         == f[0].Encode() + (f[1].Encode() + (f[2].Encode() + (f[3].Encode()
            + (f[4].Encode() + (f[5].Encode() + f[6].Encode())))))
  {
    assert f[0..] == f;
    EncodeFrom(f, 0);
    EncodeFrom(f, 1);
    EncodeFrom(f, 2);
    EncodeFrom(f, 3);
    EncodeFrom(f, 4);
    EncodeFrom(f, 5);
    EncodeLast(f);
  }

  lemma SignedIs(sessionId: Bytes, username: Bytes, blob: Bytes)
    ensures Encode(SignedFields(sessionId, username, blob)) == EncodeString(sessionId) + KeyRequest(username, blob)
  {
    var signed := SignedFields(sessionId, username, blob);
    assert signed[0..] == signed;
    EncodeFrom(signed, 0);
    SevenFields(signed[1..]);
  }

  /**
   * A public key login signs the session id, as a string, followed by the very
   * bytes of the request that precede the signature in it.
   */
  lemma KeyLoginSignsSession(suite: Suite, username: Bytes, blob: Bytes, secret: Bytes, sessionId: Bytes)
    ensures var request := KeyRequest(username, blob);
            Encode(AuthFields(suite, username, PrivateKey(blob, secret), sessionId))
            == request + EncodeString(EncodeString(Ascii("ssh-ed25519"))
                                      + EncodeString(suite.sign(secret, EncodeString(sessionId) + request)))
  {
    var f := AuthFields(suite, username, PrivateKey(blob, secret), sessionId);
    SevenFields(f[..7]);
    EncodePush(f[..7], f[7]);
    assert f == f[..7] + [f[7]];
    SignedIs(sessionId, username, blob);
  }

  lemma KeyFieldsRead(f: seq<Field>, username: Bytes, blob: Bytes, signature: Bytes)
    requires |username| < U32_LIMIT && |blob| < U32_LIMIT && |signature| < U32_LIMIT
    requires f == [FByte(50), FString(username), FString(Ascii("ssh-connection")), FString(Ascii("publickey")),
                   FBool(true), FString(Ascii("ssh-ed25519")), FString(blob), FString(signature)]
    ensures ReadsAs(Encode(f), f)
  {
    RecordReads(f);
  }

  /** What a server reads of it. */
  lemma KeyLoginReads(suite: Suite, username: Bytes, blob: Bytes, secret: Bytes, sessionId: Bytes)
    requires |username| < U32_LIMIT && |blob| < U32_LIMIT
    requires |suite.sign(secret, EncodeString(sessionId) + KeyRequest(username, blob))| < U32_LIMIT - 100
    ensures ReadsAs(Encode(AuthFields(suite, username, PrivateKey(blob, secret), sessionId)),
                    [FByte(50), FString(username), FString(Ascii("ssh-connection")), FString(Ascii("publickey")),
                     FBool(true), FString(Ascii("ssh-ed25519")), FString(blob),
                     FString(EncodeString(Ascii("ssh-ed25519"))
                             + EncodeString(suite.sign(secret, EncodeString(sessionId) + KeyRequest(username, blob))))])
  {
    SignedIs(sessionId, username, blob);
    var signature := suite.sign(secret, EncodeString(sessionId) + KeyRequest(username, blob));
    assert |Ascii("ssh-ed25519")| == 11;
    KeyFieldsRead(AuthFields(suite, username, PrivateKey(blob, secret), sessionId), username, blob,
                  EncodeString(Ascii("ssh-ed25519")) + EncodeString(signature));
  }

  lemma PasswordLoginReads(suite: Suite, username: Bytes, password: Bytes, sessionId: Bytes)
    requires |username| < U32_LIMIT && |password| < U32_LIMIT
    ensures ReadsAs(Encode(AuthFields(suite, username, Password(password), sessionId)),
                    [FByte(50), FString(username), FString(Ascii("ssh-connection")), FString(Ascii("password")),
                     FBool(false), FString(password)])
  {
    var f := AuthFields(suite, username, Password(password), sessionId);
    RecordReads(f);
  }

  lemma SameBytes(f: seq<Field>, g: seq<Field>)
    requires |f| == |g| && forall i | 0 <= i < |f| :: f[i].Encode() == g[i].Encode()
    ensures Encode(f) == Encode(g)
    decreases |f|
  {
    if f != [] {
      SameBytes(f[1..], g[1..]);
    }
  }

  /** Fields read as others that have the same bytes. */
  lemma BytesRead(f: seq<Field>, g: seq<Field>)
    requires |f| == |g| && forall i | 0 <= i < |f| :: f[i].Encode() == g[i].Encode() && g[i].Encodable()
    ensures ReadsAs(Encode(f), g)
  {
    SameBytes(f, g);
    RecordReads(g);
  }

  lemma KexAlgsJoin()
    ensures JoinNames(Names(KEX_ALGS)) == Ascii("curve25519-sha256,curve25519-sha256@libssh.org")
  {
    var two := Names(KEX_ALGS);
    assert two[1..] == [Ascii(KEX_ALGS[1])];
    assert (',' as int) == COMMA;
    assert "curve25519-sha256,curve25519-sha256@libssh.org" == KEX_ALGS[0] + "," + KEX_ALGS[1];
  }

  lemma OneJoins(name: string)
    ensures JoinNames(Names([name])) == Ascii(name)
  {
  }

  lemma OfferJoins()
    ensures JoinNames(Names(KEX_ALGS)) == Ascii("curve25519-sha256,curve25519-sha256@libssh.org")
    ensures JoinNames(Names(HOST_KEY_ALGS)) == Ascii("ssh-ed25519")
    ensures JoinNames(Names(CIPHERS)) == Ascii("aes256-gcm@openssh.com")
    ensures JoinNames(Names(MACS)) == Ascii("hmac-sha2-256")
    ensures JoinNames(Names(COMPRESSION)) == Ascii("none")
  {
    KexAlgsJoin();
    OneJoins("ssh-ed25519");
    OneJoins("aes256-gcm@openssh.com");
    OneJoins("hmac-sha2-256");
    OneJoins("none");
  }

  /** What a server reads of our KEXINIT (section 7.1 of RFC 4253). */
  lemma KexInitReads(cookie: Bytes)
    requires |cookie| == 16
    ensures ReadsAs(Encode(KexInitFields(cookie, OurOffer())),
                    [FByte(20), FRaw(cookie), FString(Ascii("curve25519-sha256,curve25519-sha256@libssh.org")),
                     FString(Ascii("ssh-ed25519")), FString(Ascii("aes256-gcm@openssh.com")),
                     FString(Ascii("aes256-gcm@openssh.com")), FString(Ascii("hmac-sha2-256")),
                     FString(Ascii("hmac-sha2-256")), FString(Ascii("none")), FString(Ascii("none")),
                     FString([]), FString([]), FBool(false), FU32(0)])
  {
    OfferJoins();
    KexInitWith(cookie, OurOffer(), Ascii("curve25519-sha256,curve25519-sha256@libssh.org"), Ascii("ssh-ed25519"),
                Ascii("aes256-gcm@openssh.com"), Ascii("hmac-sha2-256"), Ascii("none"));
  }

  lemma KexInitWith(cookie: Bytes, o: Offer, kex: Bytes, hostKey: Bytes, cipher: Bytes, mac: Bytes, compression: Bytes)
    requires JoinNames(o.kex) == kex && JoinNames(o.hostKey) == hostKey && JoinNames(o.cipher) == cipher
    requires JoinNames(o.mac) == mac && JoinNames(o.compression) == compression
    requires |kex| < U32_LIMIT && |hostKey| < U32_LIMIT && |cipher| < U32_LIMIT
    requires |mac| < U32_LIMIT && |compression| < U32_LIMIT
    ensures ReadsAs(Encode(KexInitFields(cookie, o)),
                    [FByte(20), FRaw(cookie), FString(kex), FString(hostKey), FString(cipher), FString(cipher),
                     FString(mac), FString(mac), FString(compression), FString(compression),
                     FString([]), FString([]), FBool(false), FU32(0)])
  {
    FieldsRead(KexInitFields(cookie, o),
               [FByte(20), FRaw(cookie), FString(kex), FString(hostKey), FString(cipher), FString(cipher),
                FString(mac), FString(mac), FString(compression), FString(compression),
                FString([]), FString([]), FBool(false), FU32(0)]);
  }

  /** The field g is what a reader makes of the bytes of f. */
  ghost predicate Reads(f: Field, g: Field) {
    match g
    case FString(s) => |s| < U32_LIMIT && (f == g || (f.FNames? && JoinNames(f.names) == s))
    case FU32(n) => f == g && n < U32_LIMIT
    case FNames(_) => false
    case _ => f == g
  }

  lemma FieldReads(f: Field, g: Field)
    requires Reads(f, g)
    ensures f.Encode() == g.Encode() && g.Encodable()
  {
  }

  lemma FieldsRead(f: seq<Field>, g: seq<Field>)
    requires |f| == |g| && forall i | 0 <= i < |f| :: Reads(f[i], g[i])
    ensures ReadsAs(Encode(f), g)
  {
    forall i | 0 <= i < |f|
      ensures f[i].Encode() == g[i].Encode() && g[i].Encodable()
    {
      FieldReads(f[i], g[i]);
    }
    BytesRead(f, g);
  }

  lemma TransportReads(cfg: Config)
    requires |cfg.ephemeralPublic| < U32_LIMIT
    ensures ReadsAs(EcdhInit(cfg), [FByte(30), FString(cfg.ephemeralPublic)])
    ensures ReadsAs(ServiceRequest(), [FByte(5), FString(Ascii("ssh-userauth"))])
  {
    RecordReads([FByte(30), FString(cfg.ephemeralPublic)]);
    RecordReads([FByte(5), FString(Ascii("ssh-userauth"))]);
    assert Encode([FByte(30), FString(cfg.ephemeralPublic)]) == EcdhInit(cfg) by {
      TwoFields(FByte(30), FString(cfg.ephemeralPublic));
    }
    assert Encode([FByte(5), FString(Ascii("ssh-userauth"))]) == ServiceRequest() by {
      TwoFields(FByte(5), FString(Ascii("ssh-userauth")));
    }
  }

  lemma TwoFields(a: Field, b: Field)
    ensures Encode([a, b]) == a.Encode() + b.Encode()
  {
    EncodeFrom([a, b], 0);
    EncodeLast([a, b]);
    assert [a, b][0..] == [a, b];
  }

  /** A key or signature blob: the algorithm's name, then n bytes. */
  function Ed25519Part(blob: Bytes, n: nat): Option<Bytes> {
    match TakeString(blob)
    case None => None
    case Some(name) =>
      if name.value != Ascii("ssh-ed25519") then None
      else
        match TakeString(name.rest)
        case None => None
        case Some(part) => if |part.value| == n then Some(part.value) else None
  }

  lemma TwoStringsMean(s: Bytes, a: Bytes, b: Bytes)
    requires |a| < U32_LIMIT && |b| < U32_LIMIT
    ensures TakeString(s).Some? && TakeString(s).value.value == a
            && TakeString(TakeString(s).value.rest).Some? && TakeString(TakeString(s).value.rest).value.value == b
      <==> EncodeString(a) + EncodeString(b) <= s
  {
    var two := EncodeString(a) + EncodeString(b);
    if two <= s {
      var tail := s[|two|..];
      assert s == EncodeString(a) + (EncodeString(b) + tail);
      TakenString(s, a, EncodeString(b) + tail);
      TakenString(EncodeString(b) + tail, b, tail);
    } else if TakeString(s).Some? && TakeString(TakeString(s).value.rest).Some? {
      var k, q := TakeString(s).value, TakeString(TakeString(s).value.rest).value;
      TakenString(s, k.value, k.rest);
      TakenString(k.rest, q.value, q.rest);
      assert s == (EncodeString(k.value) + EncodeString(q.value)) + q.rest;
    }
  }

  /** The blob starts with the string "ssh-ed25519" and a string of n bytes, which is part. */
  ghost predicate Carries(blob: Bytes, n: nat, part: Bytes) {
    |part| == n && EncodeString(Ascii("ssh-ed25519")) + EncodeString(part) <= blob
  }

  lemma PartMeans(blob: Bytes, n: nat)
    requires n < U32_LIMIT
    ensures forall part :: Ed25519Part(blob, n) == Some(part) <==> Carries(blob, n, part)
  {
    forall part
      ensures Ed25519Part(blob, n) == Some(part) <==> Carries(blob, n, part)
    {
      if |part| == n {
        TwoStringsMean(blob, Ascii("ssh-ed25519"), part);
      }
    }
  }

  datatype Reply = Reply(hostKeyBlob: Bytes, serverEphemeral: Bytes, signatureBlob: Bytes)

  function ParseReply(packet: Bytes): Option<Reply>
    requires packet != []
  {
    match TakeString(packet[1..])
    case None => None
    case Some(k) =>
      match TakeString(k.rest)
      case None => None
      case Some(q) =>
        match TakeString(q.rest)
        case None => None
        case Some(s) => Some(Reply(k.value, q.value, s.value))
  }

  predicate Picks(ours: seq<string>, theirs: seq<Bytes>) {
    exists a <- ours :: Ascii(a) in theirs
  }

  /** The lists of a server's KEXINIT that the client looks at. */
  datatype Lists = Lists(kex: seq<Bytes>, hostKey: seq<Bytes>, cipherC2S: seq<Bytes>, cipherS2C: seq<Bytes>)

  function TakeNames(s: Bytes): Option<Taken<seq<Bytes>>> {
    match TakeString(s)
    case None => None
    case Some(t) => Some(Taken(ParseNames(t.value), t.rest))
  }

  function TakeFourLists(s: Bytes): Option<Lists> {
    match TakeNames(s)
    case None => None
    case Some(kex) =>
      match TakeNames(kex.rest)
      case None => None
      case Some(hostKey) =>
        match TakeNames(hostKey.rest)
        case None => None
        case Some(c2s) =>
          match TakeNames(c2s.rest)
          case None => None
          case Some(s2c) => Some(Lists(kex.value, hostKey.value, c2s.value, s2c.value))
  }

  /** Behind a cookie of 16 bytes; None if the packet is cut short. */
  function TakeLists(s: Bytes): Option<Lists> {
    match TakeRaw(16, s)
    case None => None
    case Some(cookie) => TakeFourLists(cookie.rest)
  }

  /** Key exchange, host key and both ciphers have an algorithm in common with ours. */
  predicate Negotiates(packet: Bytes)
    requires packet != []
  {
    match TakeLists(packet[1..])
    case None => false
    case Some(lists) =>
      && Picks(KEX_ALGS, lists.kex) && Picks(HOST_KEY_ALGS, lists.hostKey)
      && Picks(CIPHERS, lists.cipherC2S) && Picks(CIPHERS, lists.cipherS2C)
  }

  // ---------------------------------------------------------------------
  // The machine

  datatype Act =
    | SentClear(payload: Bytes)
    | SentSealed(payload: Bytes)
    | Refused(payload: Bytes)
    | GotLine(line: Bytes)
    | GotPacket(packet: Bytes)
    | Verified(t: ExchangeHashInput, reply: Bytes)
    | Answered(fingerprint: Bytes, accept: bool)
    | GcmOn
    | Destroyed

  datatype Pc =
    | WritingIdent
    | ReadIdent(lines: nat)
    | SendingKexInit
    | AwaitKexInit
    | SendingEcdhInit
    | AwaitEcdhReply
    | AwaitConfirm
    | SendingNewKeys
    | AwaitNewKeys
    | Enabling
    | SendingService
    | AwaitService
    | SendingAuth
    | AwaitAuth
    | Declining(back: Pc)
    | Finished
    | Failed

  /** t is the transcript the client hashes, filled in as its parts arrive. */
  datatype State = State(pc: Pc, zeroed: bool, gcm: bool, t: ExchangeHashInput, reply: Bytes, trace: seq<Act>)

  datatype Event =
    | Settled(ok: bool)
    | Line(line: Bytes)
    | Packet(packet: Bytes)
    | ReadFailed
    | Confirm(accept: bool)
    | KeysReady
    | Timeout

  function Begin(cfg: Config): State {
    State(WritingIdent, false, false,
          ExchangeHashInput(CLIENT_IDENT, [], cfg.kexInit, [], [], cfg.ephemeralPublic, [], []), [], [])
  }

  function Note(h: State, a: Act): State {
    h.(trace := h.trace + [a])
  }

  /** packets.send(): refused once destroyed, sealed once GCM is on, in the clear before. */
  function Emit(h: State, payload: Bytes, next: Pc): State {
    if h.zeroed then Note(h, Refused(payload)).(pc := Failed)
    else Note(h, if h.gcm then SentSealed(payload) else SentClear(payload)).(pc := next)
  }

  function Fail(h: State): State {
    h.(pc := Failed)
  }

  function ExchangeHash(cfg: Config, t: ExchangeHashInput): Bytes {
    cfg.suite.hash(t.Preimage())
  }

  predicate HostKeySigned(suite: Suite, hostKeyBlob: Bytes, signatureBlob: Bytes, exchangeHash: Bytes) {
    var pub, sig := Ed25519Part(hostKeyBlob, 32), Ed25519Part(signatureBlob, 64);
    pub.Some? && sig.Some? && suite.verify(pub.value, sig.value, exchangeHash)
  }

  /** What it comes to: both blobs carry what they should, and the signature verifies over the message. */
  lemma SignedMeans(suite: Suite, hostKeyBlob: Bytes, signatureBlob: Bytes, message: Bytes)
    ensures HostKeySigned(suite, hostKeyBlob, signatureBlob, message)
      <==> exists pub, sig ::
             Carries(hostKeyBlob, 32, pub) && Carries(signatureBlob, 64, sig) && suite.verify(pub, sig, message)
  {
    PartMeans(hostKeyBlob, 32);
    PartMeans(signatureBlob, 64);
  }

  /** The host key in the reply signed the hash of the whole exchange. */
  predicate SignatureValid(cfg: Config, t: ExchangeHashInput, signatureBlob: Bytes) {
    HostKeySigned(cfg.suite, t.hostKeyBlob, signatureBlob, ExchangeHash(cfg, t))
  }

  function OnLine(cfg: Config, h: State, line: Bytes): State
    requires h.pc.ReadIdent?
  {
    var h' := Note(h, GotLine(line));
    if Ascii("SSH-") <= line then
      if Ascii("SSH-2.0-") <= line then Emit(h'.(t := h.t.(serverIdent := line)), cfg.kexInit, SendingKexInit)
      else Fail(h')
    else if h.pc.lines + 1 == MAX_IDENT_LINES then Fail(h')
    else h'.(pc := ReadIdent(h.pc.lines + 1))
  }

  predicate IsNoise(kind: nat) {
    kind == IGNORE || kind == DEBUG || kind == EXT_INFO || kind == UNIMPLEMENTED
  }

  /** Anything but the packet that is wanted, as expectDuringHandshake and authenticate treat it. */
  function OnOther(h: State, packet: Bytes): State
    requires packet != []
  {
    var kind := packet[0];
    if kind == GLOBAL_REQUEST then
      match Parse(packet)
      case GlobalRequest(wantReply) => if wantReply then Emit(h, [REQUEST_FAILURE], Declining(h.pc)) else h
      case _ => Fail(h)
    else if IsNoise(kind) then h
    else Fail(h)
  }

  function OnKexInit(cfg: Config, h: State, packet: Bytes): State
    requires packet != []
  {
    if !Negotiates(packet) then Fail(h)
    else Emit(h.(t := h.t.(serverKexInit := packet)), EcdhInit(cfg), SendingEcdhInit)
  }

  /** The transcript with the reply's parts in it, unless the reply is malformed or its signature does not verify. */
  function CheckedTranscript(cfg: Config, t: ExchangeHashInput, packet: Bytes): (r: Option<ExchangeHashInput>)
    requires packet != []
    ensures r.Some? ==> r.value == t.(hostKeyBlob := r.value.hostKeyBlob, serverEphemeral := r.value.serverEphemeral,
                                     sharedSecret := r.value.sharedSecret)
  {
    match ParseReply(packet)
    case None => None
    case Some(r) =>
      if |r.serverEphemeral| != 32 then None
      else
        match cfg.suite.sharedSecret(cfg.ephemeralSecret, r.serverEphemeral)
        case None => None
        case Some(k) =>
          var t' := t.(hostKeyBlob := r.hostKeyBlob, serverEphemeral := r.serverEphemeral, sharedSecret := k);
          if SignatureValid(cfg, t', r.signatureBlob) then Some(t') else None
  }

  /** Fail closed: a pin must match exactly, and no pin means asking. */
  function OnVerified(cfg: Config, h: State): State {
    if cfg.pin != [] then
      if cfg.pin != cfg.suite.fingerprint(h.t.hostKeyBlob) then Fail(h) else Emit(h, [NEWKEYS], SendingNewKeys)
    else if cfg.canConfirm then h.(pc := AwaitConfirm)
    else Fail(h)
  }

  function OnReply(cfg: Config, h: State, packet: Bytes): State
    requires packet != []
  {
    match CheckedTranscript(cfg, h.t, packet)
    case None => Fail(h)
    case Some(t) => OnVerified(cfg, Note(h, Verified(t, packet)).(t := t, reply := packet))
  }

  function WantedKind(pc: Pc): nat {
    match pc
    case AwaitKexInit => KEXINIT
    case AwaitEcdhReply => KEX_ECDH_REPLY
    case AwaitNewKeys => NEWKEYS
    case AwaitService => SERVICE_ACCEPT
    case _ => USERAUTH_SUCCESS
  }

  function OnWanted(cfg: Config, h: State, packet: Bytes): State
    requires packet != []
  {
    match h.pc
    case AwaitKexInit => OnKexInit(cfg, h, packet)
    case AwaitEcdhReply => OnReply(cfg, h, packet)
    case AwaitNewKeys => h.(pc := Enabling)
    case AwaitService => Emit(h, cfg.request(ExchangeHash(cfg, h.t)), SendingAuth)
    case AwaitAuth => h.(pc := Finished)
    case _ => h
  }

  function OnPacket(cfg: Config, h: State, packet: Bytes): State {
    var h' := Note(h, GotPacket(packet));
    if packet == [] then Fail(h')
    else if packet[0] == WantedKind(h.pc) then OnWanted(cfg, h', packet)
    else if h.pc.AwaitAuth? && packet[0] == USERAUTH_BANNER then h'
    else OnOther(h', packet)
  }

  predicate Awaits(pc: Pc) {
    pc.AwaitKexInit? || pc.AwaitEcdhReply? || pc.AwaitNewKeys? || pc.AwaitService? || pc.AwaitAuth?
  }

  function AfterSend(pc: Pc): Option<Pc> {
    match pc
    case WritingIdent => Some(ReadIdent(0))
    case SendingKexInit => Some(AwaitKexInit)
    case SendingEcdhInit => Some(AwaitEcdhReply)
    case SendingNewKeys => Some(AwaitNewKeys)
    case SendingService => Some(AwaitService)
    case SendingAuth => Some(AwaitAuth)
    case Declining(back) => Some(back)
    case _ => None
  }

  /** An event that h does not await leaves it alone; the timeout may come at any time. */
  function Step(cfg: Config, h: State, e: Event): State {
    match e
    case Settled(ok) =>
      if AfterSend(h.pc).None? then h else if ok then h.(pc := AfterSend(h.pc).value) else Fail(h)
    case Line(line) => if h.pc.ReadIdent? then OnLine(cfg, h, line) else h
    case Packet(packet) => if Awaits(h.pc) then OnPacket(cfg, h, packet) else h
    case ReadFailed => if Awaits(h.pc) || h.pc.ReadIdent? then Fail(h) else h
    case Confirm(accept) =>
      if !h.pc.AwaitConfirm? then h
      else
        var h' := Note(h, Answered(cfg.suite.fingerprint(h.t.hostKeyBlob), accept));
        if accept then Emit(h', [NEWKEYS], SendingNewKeys) else Fail(h')
    case KeysReady =>
      if h.pc.Enabling? then Emit(Note(h, GcmOn).(gcm := true), ServiceRequest(), SendingService) else h
    case Timeout => Note(h, Destroyed).(zeroed := true)
  }

  function Run(cfg: Config, events: seq<Event>): State {
    if events == [] then Begin(cfg)
    else Step(cfg, Run(cfg, events[..|events| - 1]), events[|events| - 1])
  }

  // ---------------------------------------------------------------------
  // What each point of the handshake has behind it

  function Rank(pc: Pc): nat {
    match pc
    case WritingIdent => 0
    case ReadIdent(_) => 0
    case SendingKexInit => 1
    case AwaitKexInit => 1
    case SendingEcdhInit => 2
    case AwaitEcdhReply => 2
    case AwaitConfirm => 3
    case SendingNewKeys => 4
    case AwaitNewKeys => 4
    case Enabling => 5
    case SendingService => 6
    case AwaitService => 6
    case SendingAuth => 7
    case AwaitAuth => 7
    case Declining(back) => Rank(back)
    case Finished => 7
    case Failed => 0
  }

  /** The key is the pinned one, or the user accepted it. */
  ghost predicate HostAccepted(cfg: Config, past: seq<Act>, blob: Bytes) {
    if cfg.pin != [] then cfg.suite.fingerprint(blob) == cfg.pin
    else Answered(cfg.suite.fingerprint(blob), true) in past
  }

  ghost predicate PeerSentNewKeys(past: seq<Act>) {
    exists p :: GotPacket(p) in past && p != [] && p[0] == NEWKEYS
  }

  ghost predicate Facts(cfg: Config, rank: nat, past: seq<Act>, t: ExchangeHashInput, reply: Bytes) {
    && t.clientIdent == CLIENT_IDENT && t.clientKexInit == cfg.kexInit && t.clientEphemeral == cfg.ephemeralPublic
    && (rank >= 1 ==> GotLine(t.serverIdent) in past && SentClear(cfg.kexInit) in past)
    && (rank >= 2 ==> GotPacket(t.serverKexInit) in past && SentClear(EcdhInit(cfg)) in past)
    && (rank >= 3 ==> Verified(t, reply) in past)
    && (rank >= 4 ==> HostAccepted(cfg, past, t.hostKeyBlob) && SentClear([NEWKEYS]) in past)
    && (rank >= 5 ==> PeerSentNewKeys(past))
  }

  ghost predicate Flags(cfg: Config, pc: Pc, gcm: bool, zeroed: bool, past: seq<Act>) {
    && (pc.AwaitConfirm? ==> cfg.pin == [])
    && (!pc.Failed? ==> (gcm <==> Rank(pc) >= 6))
    && (gcm <==> GcmOn in past)
    && (zeroed <==> Destroyed in past)
    && (pc.Declining? ==> Awaits(pc.back))
  }

  ghost predicate Behind(cfg: Config, h: State) {
    Facts(cfg, Rank(h.pc), h.trace, h.t, h.reply) && Flags(cfg, h.pc, h.gcm, h.zeroed, h.trace)
  }

  /** What is behind stays behind as the trace grows. */
  lemma FactsGrow(cfg: Config, rank: nat, past: seq<Act>, a: Act, t: ExchangeHashInput, reply: Bytes, r: nat)
    requires Facts(cfg, rank, past, t, reply) && r <= rank
    ensures Facts(cfg, r, past + [a], t, reply)
  {
    if rank >= 5 {
      var p :| GotPacket(p) in past && p != [] && p[0] == NEWKEYS;
      assert GotPacket(p) in past + [a];
    }
  }

  /** The act that a send leaves in the trace. */
  function SendAct(h: State, payload: Bytes): Act {
    if h.zeroed then Refused(payload) else if h.gcm then SentSealed(payload) else SentClear(payload)
  }

  lemma EmitFlags(cfg: Config, h: State, payload: Bytes, next: Pc)
    requires Flags(cfg, next, h.gcm, h.zeroed, h.trace)
    ensures var h' := Emit(h, payload, next); Flags(cfg, h'.pc, h'.gcm, h'.zeroed, h'.trace)
  {
  }

  /** A send that needs nothing new behind it. */
  lemma EmitKeepsBehind(cfg: Config, h: State, payload: Bytes, next: Pc, rank: nat)
    requires Facts(cfg, rank, h.trace, h.t, h.reply) && Rank(next) <= rank
    requires Flags(cfg, next, h.gcm, h.zeroed, h.trace)
    ensures Behind(cfg, Emit(h, payload, next))
  {
    FactsGrow(cfg, rank, h.trace, SendAct(h, payload), h.t, h.reply, Rank(next));
    FactsGrow(cfg, rank, h.trace, SendAct(h, payload), h.t, h.reply, 0);
    EmitFlags(cfg, h, payload, next);
  }

  lemma IdentKeepsBehind(cfg: Config, h: State, line: Bytes)
    requires Behind(cfg, h) && h.pc.ReadIdent?
    ensures Behind(cfg, Emit(Note(h, GotLine(line)).(t := h.t.(serverIdent := line)), cfg.kexInit, SendingKexInit))
  {
    EmitFlags(cfg, Note(h, GotLine(line)).(t := h.t.(serverIdent := line)), cfg.kexInit, SendingKexInit);
  }

  lemma LineKeepsBehind(cfg: Config, h: State, line: Bytes)
    requires Behind(cfg, h) && h.pc.ReadIdent?
    ensures Behind(cfg, OnLine(cfg, h, line))
  {
    FactsGrow(cfg, 0, h.trace, GotLine(line), h.t, h.reply, 0);
    if Ascii("SSH-2.0-") <= line {
      IdentKeepsBehind(cfg, h, line);
    }
  }

  predicate WantsReply(packet: Bytes) {
    Parse(packet) == GlobalRequest(true)
  }

  lemma OtherCases(h: State, packet: Bytes)
    requires packet != []
    ensures WantsReply(packet) ==> OnOther(h, packet) == Emit(h, [REQUEST_FAILURE], Declining(h.pc))
    ensures !WantsReply(packet) ==> OnOther(h, packet) == h || OnOther(h, packet) == Fail(h)
    ensures WantsReply(packet) ==> packet[0] == GLOBAL_REQUEST
    ensures OtherOutcome(h, OnOther(h, packet))
  {
  }

  /** A packet that is not the wanted one is declined, ignored, or the end. */
  ghost predicate OtherOutcome(h: State, h': State) {
    h' == h || h' == Fail(h) || h' == Emit(h, [REQUEST_FAILURE], Declining(h.pc))
  }

  lemma OtherKeepsBehind(cfg: Config, h: State, packet: Bytes)
    requires Behind(cfg, h) && Awaits(h.pc) && packet != []
    ensures Behind(cfg, OnOther(h, packet))
  {
    if WantsReply(packet) {
      EmitKeepsBehind(cfg, h, [REQUEST_FAILURE], Declining(h.pc), Rank(h.pc));
    } else {
      FailKeepsBehind(cfg, h);
    }
    OtherCases(h, packet);
  }

  lemma KexInitKeepsBehind(cfg: Config, h: State, packet: Bytes)
    requires Behind(cfg, h) && h.pc.AwaitKexInit? && packet != [] && GotPacket(packet) in h.trace
    ensures Behind(cfg, OnKexInit(cfg, h, packet))
  {
    EmitFlags(cfg, h, EcdhInit(cfg), SendingEcdhInit);
  }

  lemma NewKeysKeepsBehind(cfg: Config, h: State)
    requires Facts(cfg, 3, h.trace, h.t, h.reply) && HostAccepted(cfg, h.trace, h.t.hostKeyBlob)
    requires Flags(cfg, SendingNewKeys, h.gcm, h.zeroed, h.trace)
    ensures Behind(cfg, Emit(h, [NEWKEYS], SendingNewKeys))
  {
    FactsGrow(cfg, 3, h.trace, SendAct(h, [NEWKEYS]), h.t, h.reply, 3);
    EmitFlags(cfg, h, [NEWKEYS], SendingNewKeys);
    assert !h.gcm;
  }

  lemma VerifiedKeepsBehind(cfg: Config, h: State, t: ExchangeHashInput, packet: Bytes)
    requires Behind(cfg, h) && h.pc.AwaitEcdhReply?
    requires t == h.t.(hostKeyBlob := t.hostKeyBlob, serverEphemeral := t.serverEphemeral,
                       sharedSecret := t.sharedSecret)
    ensures var h' := Note(h, Verified(t, packet)).(t := t, reply := packet);
            Facts(cfg, 3, h'.trace, t, packet) && Flags(cfg, h'.pc, h'.gcm, h'.zeroed, h'.trace)
  {
  }

  lemma OnVerifiedKeepsBehind(cfg: Config, h: State)
    requires Facts(cfg, 3, h.trace, h.t, h.reply) && Flags(cfg, h.pc, h.gcm, h.zeroed, h.trace)
    requires h.pc.AwaitEcdhReply?
    ensures Behind(cfg, OnVerified(cfg, h))
  {
    if cfg.pin != [] && cfg.pin == cfg.suite.fingerprint(h.t.hostKeyBlob) {
      NewKeysKeepsBehind(cfg, h);
    }
  }

  lemma ReplyKeepsBehind(cfg: Config, h: State, packet: Bytes)
    requires Behind(cfg, h) && h.pc.AwaitEcdhReply? && packet != []
    ensures Behind(cfg, OnReply(cfg, h, packet))
  {
    var checked := CheckedTranscript(cfg, h.t, packet);
    if checked.Some? {
      VerifiedKeepsBehind(cfg, h, checked.value, packet);
      OnVerifiedKeepsBehind(cfg, Note(h, Verified(checked.value, packet)).(t := checked.value, reply := packet));
    }
  }

  lemma PeerNewKeys(cfg: Config, h: State, packet: Bytes)
    requires Behind(cfg, h) && h.pc.AwaitNewKeys? && packet != [] && packet[0] == NEWKEYS
    requires GotPacket(packet) in h.trace
    ensures Behind(cfg, h.(pc := Enabling))
  {
    assert PeerSentNewKeys(h.trace);
  }

  lemma WantedKeepsBehind(cfg: Config, h: State, packet: Bytes)
    requires Behind(cfg, h) && Awaits(h.pc) && packet != [] && packet[0] == WantedKind(h.pc)
    requires GotPacket(packet) in h.trace
    ensures Behind(cfg, OnWanted(cfg, h, packet))
  {
    match h.pc
    case AwaitKexInit => KexInitKeepsBehind(cfg, h, packet);
    case AwaitEcdhReply => ReplyKeepsBehind(cfg, h, packet);
    case AwaitNewKeys => PeerNewKeys(cfg, h, packet);
    case AwaitService => EmitKeepsBehind(cfg, h, cfg.request(ExchangeHash(cfg, h.t)), SendingAuth, 7);
    case _ =>
  }

  lemma PacketKeepsBehind(cfg: Config, h: State, packet: Bytes)
    requires Behind(cfg, h) && Awaits(h.pc)
    ensures Behind(cfg, OnPacket(cfg, h, packet))
  {
    var h' := Note(h, GotPacket(packet));
    FactsGrow(cfg, Rank(h.pc), h.trace, GotPacket(packet), h.t, h.reply, Rank(h.pc));
    assert Behind(cfg, h');
    if packet != [] {
      if packet[0] == WantedKind(h.pc) {
        WantedKeepsBehind(cfg, h', packet);
      } else {
        OtherKeepsBehind(cfg, h', packet);
      }
    }
  }

  lemma ConfirmKeepsBehind(cfg: Config, h: State)
    requires Behind(cfg, h) && h.pc.AwaitConfirm?
    ensures Behind(cfg, Step(cfg, h, Confirm(true)))
  {
    var a := Answered(cfg.suite.fingerprint(h.t.hostKeyBlob), true);
    FactsGrow(cfg, 3, h.trace, a, h.t, h.reply, 3);
    assert a in Note(h, a).trace;
    NewKeysKeepsBehind(cfg, Note(h, a));
  }

  lemma KeysReadyKeepsBehind(cfg: Config, h: State)
    requires Behind(cfg, h) && h.pc.Enabling?
    ensures Behind(cfg, Step(cfg, h, KeysReady))
  {
    FactsGrow(cfg, 5, h.trace, GcmOn, h.t, h.reply, 5);
    EmitKeepsBehind(cfg, Note(h, GcmOn).(gcm := true), ServiceRequest(), SendingService, 6);
  }

  lemma FailKeepsBehind(cfg: Config, h: State)
    requires Behind(cfg, h)
    ensures Behind(cfg, Fail(h))
  {
  }

  lemma SendingKeepsRank(pc: Pc)
    requires AfterSend(pc).Some? && (pc.Declining? ==> Awaits(pc.back))
    ensures Rank(AfterSend(pc).value) == Rank(pc) && !AfterSend(pc).value.AwaitConfirm?
  {
  }

  lemma SettledKeepsBehind(cfg: Config, h: State)
    requires Behind(cfg, h) && AfterSend(h.pc).Some?
    ensures Behind(cfg, h.(pc := AfterSend(h.pc).value))
  {
    SendingKeepsRank(h.pc);
  }

  lemma QuietKeepsBehind(cfg: Config, h: State, e: Event)
    requires Behind(cfg, h) && (e.Settled? || e.ReadFailed? || e.Timeout?)
    ensures Behind(cfg, Step(cfg, h, e))
  {
    FailKeepsBehind(cfg, h);
    if e.Timeout? {
      FactsGrow(cfg, Rank(h.pc), h.trace, Destroyed, h.t, h.reply, Rank(h.pc));
    } else if AfterSend(h.pc).Some? {
      SettledKeepsBehind(cfg, h);
    }
  }

  lemma StepKeepsBehind(cfg: Config, h: State, e: Event)
    requires Behind(cfg, h)
    ensures Behind(cfg, Step(cfg, h, e))
  {
    match e
    case Line(line) =>
      if h.pc.ReadIdent? {
        LineKeepsBehind(cfg, h, line);
      }
    case Packet(packet) =>
      if Awaits(h.pc) {
        PacketKeepsBehind(cfg, h, packet);
      }
    case Confirm(accept) =>
      if h.pc.AwaitConfirm? && accept {
        ConfirmKeepsBehind(cfg, h);
      }
    case KeysReady =>
      if h.pc.Enabling? {
        KeysReadyKeepsBehind(cfg, h);
      }
    case _ => QuietKeepsBehind(cfg, h, e);
  }

  lemma {:induction false} RunIsBehind(cfg: Config, events: seq<Event>)
    ensures Behind(cfg, Run(cfg, events))
  {
    if events != [] {
      RunIsBehind(cfg, events[..|events| - 1]);
      StepKeepsBehind(cfg, Run(cfg, events[..|events| - 1]), events[|events| - 1]);
    }
  }

  // ---------------------------------------------------------------------
  // What every trace shows

  predicate IsAuth(payload: Bytes) {
    payload != [] && payload[0] == USERAUTH_REQUEST
  }

  /** The reply's host key signed the exchange hash of t, whose parts are the reply's and ours. */
  ghost predicate IsVerified(cfg: Config, t: ExchangeHashInput, reply: Bytes) {
    && reply != [] && reply[0] == KEX_ECDH_REPLY && ParseReply(reply).Some?
    && |t.serverEphemeral| == 32
    && t.hostKeyBlob == ParseReply(reply).value.hostKeyBlob
    && t.serverEphemeral == ParseReply(reply).value.serverEphemeral
    && cfg.suite.sharedSecret(cfg.ephemeralSecret, t.serverEphemeral) == Some(t.sharedSecret)
    && SignatureValid(cfg, t, ParseReply(reply).value.signatureBlob)
  }

  /** Everything this login waits for: see Facts, at the rank of a client that has both NEWKEYS. */
  ghost predicate Cleared(cfg: Config, past: seq<Act>, login: Bytes) {
    exists t, reply :: Facts(cfg, 5, past, t, reply) && login == cfg.request(ExchangeHash(cfg, t))
  }

  ghost predicate ActSound(cfg: Config, past: seq<Act>, a: Act) {
    match a
    case Verified(t, reply) => GotPacket(reply) in past && IsVerified(cfg, t, reply)
    case GcmOn => SentClear([NEWKEYS]) in past
    case SentClear(p) => Destroyed !in past && GcmOn !in past && !IsAuth(p)
    case SentSealed(p) => Destroyed !in past && GcmOn in past && (IsAuth(p) ==> Cleared(cfg, past, p))
    case _ => true
  }

  ghost predicate TraceSound(cfg: Config, trace: seq<Act>) {
    forall i | 0 <= i < |trace| :: ActSound(cfg, trace[..i], trace[i])
  }

  lemma ActKeepsSound(cfg: Config, trace: seq<Act>, a: Act)
    requires TraceSound(cfg, trace) && ActSound(cfg, trace, a)
    ensures TraceSound(cfg, trace + [a])
  {
    forall i | 0 <= i < |trace + [a]|
      ensures ActSound(cfg, (trace + [a])[..i], (trace + [a])[i])
    {
      assert (trace + [a])[..i] == trace[..i];
      assert trace[..|trace|] == trace;
    }
  }

  lemma EmitKeepsSound(cfg: Config, h: State, payload: Bytes, next: Pc)
    requires TraceSound(cfg, h.trace)
    requires (h.gcm <==> GcmOn in h.trace) && (h.zeroed <==> Destroyed in h.trace)
    requires IsAuth(payload) ==> h.gcm && Cleared(cfg, h.trace, payload)
    ensures TraceSound(cfg, Emit(h, payload, next).trace)
  {
    ActKeepsSound(cfg, h.trace, SendAct(h, payload));
  }

  lemma CheckedIsVerified(cfg: Config, t: ExchangeHashInput, packet: Bytes)
    requires packet != [] && packet[0] == KEX_ECDH_REPLY && CheckedTranscript(cfg, t, packet).Some?
    ensures IsVerified(cfg, CheckedTranscript(cfg, t, packet).value, packet)
  {
  }

  lemma OnVerifiedKeepsSound(cfg: Config, h: State)
    requires TraceSound(cfg, h.trace)
    requires (h.gcm <==> GcmOn in h.trace) && (h.zeroed <==> Destroyed in h.trace)
    ensures TraceSound(cfg, OnVerified(cfg, h).trace)
  {
    EmitKeepsSound(cfg, h, [NEWKEYS], SendingNewKeys);
  }

  lemma ReplyKeepsSound(cfg: Config, h: State, packet: Bytes)
    requires TraceSound(cfg, h.trace) && packet != [] && GotPacket(packet) in h.trace
    requires packet[0] == KEX_ECDH_REPLY
    requires (h.gcm <==> GcmOn in h.trace) && (h.zeroed <==> Destroyed in h.trace)
    ensures TraceSound(cfg, OnReply(cfg, h, packet).trace)
  {
    var checked := CheckedTranscript(cfg, h.t, packet);
    if checked.Some? {
      CheckedIsVerified(cfg, h.t, packet);
      ActKeepsSound(cfg, h.trace, Verified(checked.value, packet));
      OnVerifiedKeepsSound(cfg, Note(h, Verified(checked.value, packet)).(t := checked.value, reply := packet));
    }
  }

  lemma WantedKeepsSound(cfg: Config, h: State, packet: Bytes)
    requires TraceSound(cfg, h.trace) && Awaits(h.pc) && packet != [] && GotPacket(packet) in h.trace
    requires packet[0] == WantedKind(h.pc)
    requires (h.gcm <==> GcmOn in h.trace) && (h.zeroed <==> Destroyed in h.trace)
    requires h.pc.AwaitService? ==> h.gcm && Facts(cfg, 5, h.trace, h.t, h.reply)
    ensures TraceSound(cfg, OnWanted(cfg, h, packet).trace)
  {
    match h.pc
    case AwaitKexInit => EmitKeepsSound(cfg, h.(t := h.t.(serverKexInit := packet)), EcdhInit(cfg), SendingEcdhInit);
    case AwaitEcdhReply => ReplyKeepsSound(cfg, h, packet);
    case AwaitService => EmitKeepsSound(cfg, h, cfg.request(ExchangeHash(cfg, h.t)), SendingAuth);
    case _ =>
  }

  lemma OtherKeepsSound(cfg: Config, h: State, packet: Bytes)
    requires TraceSound(cfg, h.trace) && packet != []
    requires (h.gcm <==> GcmOn in h.trace) && (h.zeroed <==> Destroyed in h.trace)
    ensures TraceSound(cfg, OnOther(h, packet).trace)
  {
    EmitKeepsSound(cfg, h, [REQUEST_FAILURE], Declining(h.pc));
  }

  lemma PacketKeepsSound(cfg: Config, h: State, packet: Bytes)
    requires TraceSound(cfg, h.trace) && Behind(cfg, h) && Awaits(h.pc)
    ensures TraceSound(cfg, OnPacket(cfg, h, packet).trace)
  {
    var h' := Note(h, GotPacket(packet));
    ActKeepsSound(cfg, h.trace, GotPacket(packet));
    if h.pc.AwaitService? {
      FactsGrow(cfg, Rank(h.pc), h.trace, GotPacket(packet), h.t, h.reply, 5);
    }
    if packet != [] {
      if packet[0] == WantedKind(h.pc) {
        WantedKeepsSound(cfg, h', packet);
      } else {
        OtherKeepsSound(cfg, h', packet);
      }
    }
  }

  lemma LineKeepsSound(cfg: Config, h: State, line: Bytes)
    requires cfg.WellFormed() && TraceSound(cfg, h.trace) && Behind(cfg, h) && h.pc.ReadIdent?
    ensures TraceSound(cfg, OnLine(cfg, h, line).trace)
  {
    ActKeepsSound(cfg, h.trace, GotLine(line));
    EmitKeepsSound(cfg, Note(h, GotLine(line)).(t := h.t.(serverIdent := line)), cfg.kexInit, SendingKexInit);
  }

  lemma ConfirmKeepsSound(cfg: Config, h: State, a: Act)
    requires TraceSound(cfg, h.trace) && Behind(cfg, h) && a.Answered?
    ensures TraceSound(cfg, Note(h, a).trace) && TraceSound(cfg, Emit(Note(h, a), [NEWKEYS], SendingNewKeys).trace)
  {
    ActKeepsSound(cfg, h.trace, a);
    EmitKeepsSound(cfg, Note(h, a), [NEWKEYS], SendingNewKeys);
  }

  lemma KeysReadyKeepsSound(cfg: Config, h: State, payload: Bytes)
    requires TraceSound(cfg, h.trace) && Behind(cfg, h) && h.pc.Enabling? && !IsAuth(payload)
    ensures TraceSound(cfg, Emit(Note(h, GcmOn).(gcm := true), payload, SendingService).trace)
  {
    ActKeepsSound(cfg, h.trace, GcmOn);
    var h' := Note(h, GcmOn).(gcm := true);
    assert GcmOn in h'.trace && (Destroyed in h'.trace <==> Destroyed in h.trace);
    EmitKeepsSound(cfg, h', payload, SendingService);
  }

  lemma StepKeepsSound(cfg: Config, h: State, e: Event)
    requires cfg.WellFormed() && TraceSound(cfg, h.trace) && Behind(cfg, h)
    ensures TraceSound(cfg, Step(cfg, h, e).trace)
  {
    match e
    case Line(line) =>
      if h.pc.ReadIdent? {
        LineKeepsSound(cfg, h, line);
      }
    case Packet(packet) =>
      if Awaits(h.pc) {
        PacketKeepsSound(cfg, h, packet);
      }
    case Confirm(accept) =>
      ConfirmKeepsSound(cfg, h, Answered(cfg.suite.fingerprint(h.t.hostKeyBlob), accept));
    case KeysReady =>
      if h.pc.Enabling? {
        KeysReadyKeepsSound(cfg, h, ServiceRequest());
      }
    case Timeout => ActKeepsSound(cfg, h.trace, Destroyed);
    case _ =>
  }

  lemma {:induction false} RunIsSound(cfg: Config, events: seq<Event>)
    requires cfg.WellFormed()
    ensures TraceSound(cfg, Run(cfg, events).trace)
  {
    if events != [] {
      var h := Run(cfg, events[..|events| - 1]);
      RunIsSound(cfg, events[..|events| - 1]);
      RunIsBehind(cfg, events[..|events| - 1]);
      StepKeepsSound(cfg, h, events[|events| - 1]);
    }
  }

  // ---------------------------------------------------------------------
  // What the trace says was heard was heard

  predicate IsInput(a: Act) {
    a.GotLine? || a.GotPacket? || a.Answered? || a.GcmOn? || a.Destroyed?
  }

  function Inputs(trace: seq<Act>): seq<Act> {
    if trace == [] then []
    else
      var a := trace[|trace| - 1];
      Inputs(trace[..|trace| - 1]) + if IsInput(a) then [a] else []
  }

  /** What an event brings a client that awaits it. */
  function Heard(cfg: Config, h: State, e: Event): seq<Act> {
    match e
    case Line(line) => if h.pc.ReadIdent? then [GotLine(line)] else []
    case Packet(packet) => if Awaits(h.pc) then [GotPacket(packet)] else []
    case Confirm(accept) =>
      if h.pc.AwaitConfirm? then [Answered(cfg.suite.fingerprint(h.t.hostKeyBlob), accept)] else []
    case KeysReady => if h.pc.Enabling? then [GcmOn] else []
    case Timeout => [Destroyed]
    case _ => []
  }

  function AllHeard(cfg: Config, events: seq<Event>): seq<Act> {
    if events == [] then []
    else
      var before := events[..|events| - 1];
      AllHeard(cfg, before) + Heard(cfg, Run(cfg, before), events[|events| - 1])
  }

  lemma {:induction false} InputsConcat(a: seq<Act>, b: seq<Act>)
    ensures Inputs(a + b) == Inputs(a) + Inputs(b)
  {
    if b == [] {
      assert a + b == a;
    } else {
      assert (a + b)[..|a + b| - 1] == a + b[..|b| - 1];
      InputsConcat(a, b[..|b| - 1]);
    }
  }

  /** New acts start with what was heard; whatever follows is the client's own doing. */
  ghost predicate Adds(past: seq<Act>, trace: seq<Act>, heard: seq<Act>) {
    past + heard <= trace && OwnFrom(trace, |past + heard|)
  }

  ghost predicate OwnFrom(trace: seq<Act>, n: nat) {
    forall j | n <= j < |trace| :: !IsInput(trace[j])
  }

  lemma OwnActAdds(past: seq<Act>, trace: seq<Act>, heard: seq<Act>, a: Act)
    requires Adds(past, trace, heard) && !IsInput(a)
    ensures Adds(past, trace + [a], heard)
  {
  }

  lemma EmitAdds(past: seq<Act>, h: State, heard: seq<Act>, payload: Bytes, next: Pc)
    requires Adds(past, h.trace, heard)
    ensures Adds(past, Emit(h, payload, next).trace, heard)
  {
    OwnActAdds(past, h.trace, heard, SendAct(h, payload));
  }

  lemma OtherAdds(past: seq<Act>, h: State, h': State, heard: seq<Act>)
    requires Adds(past, h.trace, heard) && OtherOutcome(h, h')
    ensures Adds(past, h'.trace, heard)
  {
    EmitAdds(past, h, heard, [REQUEST_FAILURE], Declining(h.pc));
  }

  lemma VerifiedAdds(cfg: Config, past: seq<Act>, h: State, heard: seq<Act>)
    requires Adds(past, h.trace, heard)
    ensures Adds(past, OnVerified(cfg, h).trace, heard)
  {
    EmitAdds(past, h, heard, [NEWKEYS], SendingNewKeys);
  }

  lemma ReplyAdds(cfg: Config, past: seq<Act>, h: State, heard: seq<Act>, packet: Bytes)
    requires Adds(past, h.trace, heard) && packet != []
    ensures Adds(past, OnReply(cfg, h, packet).trace, heard)
  {
    var checked := CheckedTranscript(cfg, h.t, packet);
    if checked.Some? {
      OwnActAdds(past, h.trace, heard, Verified(checked.value, packet));
      VerifiedAdds(cfg, past, Note(h, Verified(checked.value, packet)).(t := checked.value, reply := packet), heard);
    }
  }

  lemma WantedAdds(cfg: Config, past: seq<Act>, h: State, heard: seq<Act>, packet: Bytes)
    requires Adds(past, h.trace, heard) && packet != []
    ensures Adds(past, OnWanted(cfg, h, packet).trace, heard)
  {
    match h.pc
    case AwaitKexInit =>
      EmitAdds(past, h.(t := h.t.(serverKexInit := packet)), heard, EcdhInit(cfg), SendingEcdhInit);
    case AwaitEcdhReply => ReplyAdds(cfg, past, h, heard, packet);
    case AwaitService => EmitAdds(past, h, heard, cfg.request(ExchangeHash(cfg, h.t)), SendingAuth);
    case _ =>
  }

  lemma PacketAdds(cfg: Config, h: State, packet: Bytes)
    ensures Adds(h.trace, OnPacket(cfg, h, packet).trace, [GotPacket(packet)])
  {
    if packet != [] {
      var h' := Note(h, GotPacket(packet));
      OtherCases(h', packet);
      OtherAdds(h.trace, h', OnOther(h', packet), [GotPacket(packet)]);
      WantedAdds(cfg, h.trace, Note(h, GotPacket(packet)), [GotPacket(packet)], packet);
    }
  }

  lemma LineAdds(cfg: Config, h: State, line: Bytes)
    requires h.pc.ReadIdent?
    ensures Adds(h.trace, OnLine(cfg, h, line).trace, [GotLine(line)])
  {
    EmitAdds(h.trace, Note(h, GotLine(line)).(t := h.t.(serverIdent := line)), [GotLine(line)], cfg.kexInit,
             SendingKexInit);
  }

  lemma StepAdds(cfg: Config, h: State, e: Event)
    ensures Adds(h.trace, Step(cfg, h, e).trace, Heard(cfg, h, e))
  {
    match e
    case Line(line) =>
      if h.pc.ReadIdent? {
        LineAdds(cfg, h, line);
      }
    case Packet(packet) =>
      if Awaits(h.pc) {
        PacketAdds(cfg, h, packet);
      }
    case Confirm(accept) =>
      var a := Answered(cfg.suite.fingerprint(h.t.hostKeyBlob), accept);
      EmitAdds(h.trace, Note(h, a), [a], [NEWKEYS], SendingNewKeys);
    case KeysReady => EmitAdds(h.trace, Note(h, GcmOn).(gcm := true), [GcmOn], ServiceRequest(), SendingService);
    case _ =>
  }

  lemma {:induction false} OwnDoing(acts: seq<Act>)
    requires forall a <- acts :: !IsInput(a)
    ensures Inputs(acts) == []
  {
    if acts != [] {
      assert forall a <- acts[..|acts| - 1] :: a in acts;
      OwnDoing(acts[..|acts| - 1]);
    }
  }

  lemma HeardIsInput(cfg: Config, h: State, e: Event)
    ensures Inputs(Heard(cfg, h, e)) == Heard(cfg, h, e)
  {
    var heard := Heard(cfg, h, e);
    assert heard == [] || (heard[..0] == [] && heard == [heard[0]]);
  }

  lemma AddsInputs(cfg: Config, h: State, e: Event)
    ensures Inputs(Step(cfg, h, e).trace) == Inputs(h.trace) + Heard(cfg, h, e)
  {
    var h', heard := Step(cfg, h, e), Heard(cfg, h, e);
    StepAdds(cfg, h, e);
    var own := h'.trace[|h.trace + heard|..];
    assert h'.trace == (h.trace + heard) + own;
    InputsConcat(h.trace + heard, own);
    InputsConcat(h.trace, heard);
    OwnDoing(own);
    HeardIsInput(cfg, h, e);
  }

  /**
   * The lines, packets, answers, key switch and timeout in a trace are those
   * of the events, in order, and no others.
   */
  lemma {:induction false} TraceIsWhatWasHeard(cfg: Config, events: seq<Event>)
    ensures Inputs(Run(cfg, events).trace) == AllHeard(cfg, events)
  {
    if events != [] {
      TraceIsWhatWasHeard(cfg, events[..|events| - 1]);
      AddsInputs(cfg, Run(cfg, events[..|events| - 1]), events[|events| - 1]);
    }
  }

  /** Event k was the user's yes to this fingerprint, given before the trace was i long. */
  ghost predicate SaidYes(cfg: Config, events: seq<Event>, k: nat, i: nat, fingerprint: Bytes) {
    && k < |events| && events[k] == Confirm(true)
    && Run(cfg, events[..k]).pc.AwaitConfirm? && |Run(cfg, events[..k]).trace| < i
    && cfg.suite.fingerprint(Run(cfg, events[..k]).t.hostKeyBlob) == fingerprint
  }

  lemma {:induction false} AnswerWasGiven(cfg: Config, events: seq<Event>, i: nat, fingerprint: Bytes)
    requires 0 < i <= |Run(cfg, events).trace| && Run(cfg, events).trace[i - 1] == Answered(fingerprint, true)
    ensures exists k: nat :: SaidYes(cfg, events, k, i, fingerprint)
  {
    var last := |events| - 1;
    var before, h := events[..last], Run(cfg, events[..last]);
    StepAdds(cfg, h, events[last]);
    if i <= |h.trace| {
      AnswerWasGiven(cfg, before, i, fingerprint);
      var k: nat :| SaidYes(cfg, before, k, i, fingerprint);
      assert before[..k] == events[..k];
      assert SaidYes(cfg, events, k, i, fingerprint);
    } else {
      assert i - 1 == |h.trace| && Heard(cfg, h, events[last]) == [Answered(fingerprint, true)];
      assert SaidYes(cfg, events, last, i, fingerprint);
    }
  }

  // ---------------------------------------------------------------------
  // The login

  /** The key is the pinned one, or the user was shown its fingerprint and said yes. */
  ghost predicate HostAgreed(cfg: Config, events: seq<Event>, i: nat, blob: Bytes) {
    if cfg.pin != [] then cfg.suite.fingerprint(blob) == cfg.pin
    else exists k: nat :: SaidYes(cfg, events, k, i, cfg.suite.fingerprint(blob))
  }

  /**
   * The login at i came after a signature over this very exchange, an accepted
   * key and both NEWKEYS, and is the request for the session id that was
   * signed.
   */
  ghost predicate AuthJustified(cfg: Config, events: seq<Event>, i: nat, login: Bytes)
    requires i <= |Run(cfg, events).trace|
  {
    exists t, reply ::
      ExchangeSeen(cfg, Run(cfg, events).trace[..i], t, reply, login) && HostAgreed(cfg, events, i, t.hostKeyBlob)
  }

  /** The reply's bytes: the host key of t, the server's half of the exchange, and a signature over the whole of t. */
  ghost predicate SignsExchange(cfg: Config, t: ExchangeHashInput, reply: Bytes) {
    exists pub, sig, signatureBlob, tail ::
      && reply == [31] + (EncodeString(t.hostKeyBlob) + (EncodeString(t.serverEphemeral)
                                                          + (EncodeString(signatureBlob) + tail)))
      && Carries(t.hostKeyBlob, 32, pub) && Carries(signatureBlob, 64, sig)
      && cfg.suite.verify(pub, sig, cfg.suite.hash(t.Preimage()))
  }

  ghost predicate ExchangeSeen(cfg: Config, past: seq<Act>, t: ExchangeHashInput, reply: Bytes, login: Bytes) {
    && SignsExchange(cfg, t, reply) && login == cfg.request(cfg.suite.hash(t.Preimage()))
    && |t.serverEphemeral| == 32
    && cfg.suite.sharedSecret(cfg.ephemeralSecret, t.serverEphemeral) == Some(t.sharedSecret)
    && t.clientIdent == CLIENT_IDENT && t.clientKexInit == cfg.kexInit && t.clientEphemeral == cfg.ephemeralPublic
    && GotLine(t.serverIdent) in past && SentClear(cfg.kexInit) in past
    && GotPacket(t.serverKexInit) in past && SentClear(EcdhInit(cfg)) in past
    && GotPacket(reply) in past
    && SentClear([NEWKEYS]) in past && PeerSentNewKeys(past)
  }

  lemma AcceptedIsAgreed(cfg: Config, events: seq<Event>, i: nat, blob: Bytes)
    requires i <= |Run(cfg, events).trace| && HostAccepted(cfg, Run(cfg, events).trace[..i], blob)
    ensures HostAgreed(cfg, events, i, blob)
  {
    if cfg.pin == [] {
      var past, fingerprint := Run(cfg, events).trace[..i], cfg.suite.fingerprint(blob);
      var j :| 0 <= j < |past| && past[j] == Answered(fingerprint, true);
      AnswerWasGiven(cfg, events, j + 1, fingerprint);
      var k: nat :| SaidYes(cfg, events, k, j + 1, fingerprint);
      assert SaidYes(cfg, events, k, i, fingerprint);
    }
  }

  lemma ReplyMeans(packet: Bytes) returns (tail: Bytes)
    requires packet != [] && ParseReply(packet).Some?
    ensures var r := ParseReply(packet).value;
            packet == [packet[0]] + (EncodeString(r.hostKeyBlob) + (EncodeString(r.serverEphemeral)
                                     + (EncodeString(r.signatureBlob) + tail)))
  {
    var k := TakeString(packet[1..]).value;
    var q := TakeString(k.rest).value;
    var s := TakeString(q.rest).value;
    TakenString(packet[1..], k.value, k.rest);
    TakenString(k.rest, q.value, q.rest);
    TakenString(q.rest, s.value, s.rest);
    Unheaded(packet);
    tail := s.rest;
  }

  lemma VerifiedSigns(cfg: Config, t: ExchangeHashInput, reply: Bytes)
    requires IsVerified(cfg, t, reply)
    ensures SignsExchange(cfg, t, reply)
  {
    var blob := ParseReply(reply).value.signatureBlob;
    var tail := ReplyMeans(reply);
    SignedMeans(cfg.suite, t.hostKeyBlob, blob, cfg.suite.hash(t.Preimage()));
  }

  lemma FactsAreSeen(cfg: Config, past: seq<Act>, t: ExchangeHashInput, reply: Bytes, login: Bytes)
    requires TraceSound(cfg, past) && Facts(cfg, 5, past, t, reply) && login == cfg.request(ExchangeHash(cfg, t))
    ensures ExchangeSeen(cfg, past, t, reply, login)
  {
    var j :| 0 <= j < |past| && past[j] == Verified(t, reply);
    assert ActSound(cfg, past[..j], past[j]);
    VerifiedSigns(cfg, t, reply);
    assert GotPacket(reply) in past;
  }

  lemma ClearedIsJustified(cfg: Config, events: seq<Event>, i: nat, login: Bytes)
    requires i <= |Run(cfg, events).trace|
    requires TraceSound(cfg, Run(cfg, events).trace[..i]) && Cleared(cfg, Run(cfg, events).trace[..i], login)
    ensures AuthJustified(cfg, events, i, login)
  {
    var past := Run(cfg, events).trace[..i];
    var t, reply :| Facts(cfg, 5, past, t, reply) && login == cfg.request(ExchangeHash(cfg, t));
    FactsAreSeen(cfg, past, t, reply, login);
    AcceptedIsAgreed(cfg, events, i, t.hostKeyBlob);
  }

  lemma TraceSoundPrefix(cfg: Config, trace: seq<Act>, n: nat)
    requires TraceSound(cfg, trace) && n <= |trace|
    ensures TraceSound(cfg, trace[..n])
  {
    forall i | 0 <= i < n
      ensures ActSound(cfg, trace[..n][..i], trace[..n][i])
    {
      assert trace[..n][..i] == trace[..i];
    }
  }

  /**
   * In every run, whatever the server sends and whenever the timeout strikes:
   * a USERAUTH_REQUEST is only ever sent sealed, and only after the host key
   * verified over the lines and packets actually exchanged, was the pinned one
   * or one the user said yes to, and NEWKEYS went both ways; it carries the
   * session id that the host key signed; and nothing is sent once the packet
   * layer was destroyed. What the trace says was received is what the events
   * brought, in their order.
   */
  lemma AuthOnlyAfterVerifiedHost(cfg: Config, events: seq<Event>, i: nat)
    requires cfg.WellFormed() && i < |Run(cfg, events).trace|
    ensures Inputs(Run(cfg, events).trace) == AllHeard(cfg, events)
    ensures var past, a := Run(cfg, events).trace[..i], Run(cfg, events).trace[i];
            && (a.SentClear? ==> !IsAuth(a.payload))
            && (a.SentSealed? && IsAuth(a.payload) ==> AuthJustified(cfg, events, i, a.payload))
            && (Destroyed in past ==> !a.SentClear? && !a.SentSealed?)
  {
    TraceIsWhatWasHeard(cfg, events);
    RunIsSound(cfg, events);
    var trace := Run(cfg, events).trace;
    TraceSoundPrefix(cfg, trace, i);
    assert ActSound(cfg, trace[..i], trace[i]);
    if trace[i].SentSealed? && IsAuth(trace[i].payload) {
      ClearedIsJustified(cfg, events, i, trace[i].payload);
    }
  }

  // ---------------------------------------------------------------------
  // The end of it

  ghost predicate PeerSent(past: seq<Act>, kind: byte) {
    exists p :: GotPacket(p) in past && p != [] && p[0] == kind
  }

  /** The login went out sealed, after a SERVICE_ACCEPT. */
  ghost predicate LoggedIn(past: seq<Act>, login: Bytes) {
    SentSealed(login) in past && PeerSent(past, 6)
  }

  /** And a USERAUTH_SUCCESS came after it. */
  ghost predicate Completed(past: seq<Act>, login: Bytes) {
    exists j :: 0 <= j < |past| && LoggedIn(past[..j], login)
                && past[j].GotPacket? && past[j].packet != [] && past[j].packet[0] == 52
  }

  ghost predicate Completes(cfg: Config, pc: Pc, past: seq<Act>, t: ExchangeHashInput) {
    && (!pc.Failed? && !pc.Finished? && Rank(pc) == 7 ==> LoggedIn(past, cfg.request(cfg.suite.hash(t.Preimage()))))
    && (pc.Finished? ==> Completed(past, cfg.request(cfg.suite.hash(t.Preimage()))))
  }

  lemma CompletesGrows(cfg: Config, pc: Pc, past: seq<Act>, a: Act, t: ExchangeHashInput)
    requires Completes(cfg, pc, past, t)
    ensures Completes(cfg, pc, past + [a], t)
  {
    var login := cfg.request(cfg.suite.hash(t.Preimage()));
    if PeerSent(past, 6) {
      var p :| GotPacket(p) in past && p != [] && p[0] == 6;
      assert GotPacket(p) in past + [a];
    }
    if Completed(past, login) {
      var j :| 0 <= j < |past| && LoggedIn(past[..j], login)
               && past[j].GotPacket? && past[j].packet != [] && past[j].packet[0] == 52;
      assert (past + [a])[..j] == past[..j] && (past + [a])[j] == past[j];
    }
  }

  lemma AcceptCompletes(cfg: Config, h: State, packet: Bytes)
    requires h.pc.AwaitService? && h.gcm && packet != [] && packet[0] == SERVICE_ACCEPT && GotPacket(packet) in h.trace
    ensures var h' := OnWanted(cfg, h, packet); Completes(cfg, h'.pc, h'.trace, h'.t)
  {
    var h' := OnWanted(cfg, h, packet);
    assert GotPacket(packet) in h'.trace;
  }

  lemma SuccessCompletes(cfg: Config, h: State, packet: Bytes)
    requires h.pc.AwaitAuth? && Completes(cfg, h.pc, h.trace, h.t) && packet != [] && packet[0] == USERAUTH_SUCCESS
    ensures var h' := OnWanted(cfg, Note(h, GotPacket(packet)), packet); Completes(cfg, h'.pc, h'.trace, h'.t)
  {
    assert (h.trace + [GotPacket(packet)])[..|h.trace|] == h.trace;
  }

  lemma OtherCompletes(cfg: Config, h: State, packet: Bytes)
    requires packet != [] && Completes(cfg, h.pc, h.trace, h.t) && !h.pc.Finished?
    ensures var h' := OnOther(h, packet); Completes(cfg, h'.pc, h'.trace, h'.t)
  {
    OtherCases(h, packet);
    CompletesGrows(cfg, h.pc, h.trace, SendAct(h, [REQUEST_FAILURE]), h.t);
  }

  /** Before the service is accepted nothing is claimed. */
  ghost predicate Early(pc: Pc) {
    pc.Failed? || (!pc.Finished? && Rank(pc) < 7)
  }

  lemma VerifiedIsEarly(cfg: Config, h: State)
    ensures Early(OnVerified(cfg, h).pc)
  {
  }

  lemma ReplyIsEarly(cfg: Config, h: State, packet: Bytes)
    requires packet != []
    ensures Early(OnReply(cfg, h, packet).pc)
  {
    var checked := CheckedTranscript(cfg, h.t, packet);
    if checked.Some? {
      VerifiedIsEarly(cfg, Note(h, Verified(checked.value, packet)).(t := checked.value, reply := packet));
    }
  }

  lemma KexInitIsEarly(cfg: Config, h: State, packet: Bytes)
    requires packet != []
    ensures Early(OnKexInit(cfg, h, packet).pc)
  {
  }

  lemma WantedIsEarly(cfg: Config, h: State, packet: Bytes)
    requires h.pc.AwaitKexInit? || h.pc.AwaitEcdhReply? || h.pc.AwaitNewKeys?
    requires packet != []
    ensures Early(OnWanted(cfg, h, packet).pc)
  {
    match h.pc
    case AwaitKexInit => KexInitIsEarly(cfg, h, packet);
    case AwaitEcdhReply => ReplyIsEarly(cfg, h, packet);
    case _ =>
  }

  lemma WantedCompletes(cfg: Config, h: State, packet: Bytes)
    requires Behind(cfg, h) && Awaits(h.pc) && Completes(cfg, h.pc, h.trace, h.t)
    requires packet != [] && packet[0] == WantedKind(h.pc)
    ensures var h' := OnWanted(cfg, Note(h, GotPacket(packet)), packet); Completes(cfg, h'.pc, h'.trace, h'.t)
  {
    if h.pc.AwaitService? {
      AcceptCompletes(cfg, Note(h, GotPacket(packet)), packet);
    } else if h.pc.AwaitAuth? {
      SuccessCompletes(cfg, h, packet);
    } else {
      WantedIsEarly(cfg, Note(h, GotPacket(packet)), packet);
    }
  }

  lemma PacketCompletes(cfg: Config, h: State, packet: Bytes)
    requires Behind(cfg, h) && Awaits(h.pc) && Completes(cfg, h.pc, h.trace, h.t)
    ensures var h' := OnPacket(cfg, h, packet); Completes(cfg, h'.pc, h'.trace, h'.t)
  {
    CompletesGrows(cfg, h.pc, h.trace, GotPacket(packet), h.t);
    if packet != [] {
      if packet[0] == WantedKind(h.pc) {
        WantedCompletes(cfg, h, packet);
      } else {
        OtherCompletes(cfg, Note(h, GotPacket(packet)), packet);
      }
    }
  }

  lemma StepCompletes(cfg: Config, h: State, e: Event)
    requires Behind(cfg, h) && Completes(cfg, h.pc, h.trace, h.t)
    ensures var h' := Step(cfg, h, e); Completes(cfg, h'.pc, h'.trace, h'.t)
  {
    match e
    case Packet(packet) =>
      if Awaits(h.pc) {
        PacketCompletes(cfg, h, packet);
      }
    case Timeout => CompletesGrows(cfg, h.pc, h.trace, Destroyed, h.t);
    case Settled(_) =>
      if AfterSend(h.pc).Some? {
        SendingKeepsRank(h.pc);
      }
    case ReadFailed =>
    case _ => EarlyStep(cfg, h, e);
  }

  lemma EarlyStep(cfg: Config, h: State, e: Event)
    requires e.Line? || e.Confirm? || e.KeysReady?
    ensures Step(cfg, h, e) == h || Early(Step(cfg, h, e).pc)
  {
  }

  /**
   * The handshake finishes only on a USERAUTH_SUCCESS that came after the
   * login for this session had gone out sealed, and that after a
   * SERVICE_ACCEPT.
   */
  lemma {:induction false} FinishesOnSuccess(cfg: Config, events: seq<Event>)
    requires cfg.WellFormed()
    ensures var h := Run(cfg, events);
            h.pc.Finished? ==> Completed(h.trace, cfg.request(cfg.suite.hash(h.t.Preimage())))
    ensures var h := Run(cfg, events); Completes(cfg, h.pc, h.trace, h.t)
  {
    if events != [] {
      var before := events[..|events| - 1];
      FinishesOnSuccess(cfg, before);
      RunIsBehind(cfg, before);
      StepCompletes(cfg, Run(cfg, before), events[|events| - 1]);
    }
  }

  // ---------------------------------------------------------------------
  // With whom it goes on

  ghost predicate IsIdent(line: Bytes) {
    Ascii("SSH-2.0-") <= line
  }

  /** The bytes of a KEXINIT: a cookie, then four name-lists that are looked at, then what is not. */
  function KexInitBytes(cookie: Bytes, kex: Bytes, hostKey: Bytes, c2s: Bytes, s2c: Bytes, tail: Bytes): Bytes {
    [20] + (cookie + (EncodeString(kex) + (EncodeString(hostKey) + (EncodeString(c2s) + (EncodeString(s2c) + tail)))))
  }

  /** It has a key exchange, a host key and both ciphers in common with us. */
  ghost predicate Shares(kex: Bytes, hostKey: Bytes, c2s: Bytes, s2c: Bytes) {
    && (Ascii("curve25519-sha256") in ParseNames(kex) || Ascii("curve25519-sha256@libssh.org") in ParseNames(kex))
    && Ascii("ssh-ed25519") in ParseNames(hostKey)
    && Ascii("aes256-gcm@openssh.com") in ParseNames(c2s) && Ascii("aes256-gcm@openssh.com") in ParseNames(s2c)
  }

  ghost predicate Fits(kex: Bytes, hostKey: Bytes, c2s: Bytes, s2c: Bytes) {
    |kex| < U32_LIMIT && |hostKey| < U32_LIMIT && |c2s| < U32_LIMIT && |s2c| < U32_LIMIT
  }

  ghost predicate Agrees(packet: Bytes) {
    exists cookie, kex, hostKey, c2s, s2c, tail ::
      && |cookie| == 16 && Fits(kex, hostKey, c2s, s2c)
      && packet == KexInitBytes(cookie, kex, hostKey, c2s, s2c, tail) && Shares(kex, hostKey, c2s, s2c)
  }

  /** Four strings, one behind the other. */
  ghost predicate Follow(s: Bytes, kex: Bytes, hostKey: Bytes, c2s: Bytes, s2c: Bytes, tail: Bytes) {
    && Fits(kex, hostKey, c2s, s2c)
    && s == EncodeString(kex) + (EncodeString(hostKey) + (EncodeString(c2s) + (EncodeString(s2c) + tail)))
  }

  lemma FourWritten(s: Bytes, kex: Bytes, hostKey: Bytes, c2s: Bytes, s2c: Bytes, tail: Bytes)
    requires Follow(s, kex, hostKey, c2s, s2c, tail)
    ensures TakeFourLists(s) == Some(Lists(ParseNames(kex), ParseNames(hostKey), ParseNames(c2s), ParseNames(s2c)))
  {
    var s4 := EncodeString(s2c) + tail;
    var s3 := EncodeString(c2s) + s4;
    var s2 := EncodeString(hostKey) + s3;
    TakenString(s4, s2c, tail);
    TakenString(s3, c2s, s4);
    TakenString(s2, hostKey, s3);
    TakenString(s, kex, s2);
  }

  lemma FourTaken(s: Bytes) returns (kex: Bytes, hostKey: Bytes, c2s: Bytes, s2c: Bytes, tail: Bytes)
    requires TakeFourLists(s).Some?
    ensures Follow(s, kex, hostKey, c2s, s2c, tail)
  {
    var t1 := TakeString(s).value;
    var t2 := TakeString(t1.rest).value;
    var t3 := TakeString(t2.rest).value;
    var t4 := TakeString(t3.rest).value;
    kex, hostKey, c2s, s2c, tail := t1.value, t2.value, t3.value, t4.value, t4.rest;
    TakenString(s, kex, t1.rest);
    TakenString(t1.rest, hostKey, t2.rest);
    TakenString(t2.rest, c2s, t3.rest);
    TakenString(t3.rest, s2c, tail);
  }

  lemma KexInitCut(cookie: Bytes, kex: Bytes, hostKey: Bytes, c2s: Bytes, s2c: Bytes, tail: Bytes)
    requires |cookie| == 16 && Fits(kex, hostKey, c2s, s2c)
    ensures var packet := KexInitBytes(cookie, kex, hostKey, c2s, s2c, tail);
            packet[1..][..16] == cookie && Follow(packet[1..][16..], kex, hostKey, c2s, s2c, tail)
  {
    var s := EncodeString(kex) + (EncodeString(hostKey) + (EncodeString(c2s) + (EncodeString(s2c) + tail)));
    assert KexInitBytes(cookie, kex, hostKey, c2s, s2c, tail) == [20] + (cookie + s);
    RawRoundTrip(cookie, s);
    ByteRoundTrip(20, cookie + s);
  }

  lemma OursAre()
    ensures forall l :: Picks(KEX_ALGS, l)
                        <==> Ascii("curve25519-sha256") in l || Ascii("curve25519-sha256@libssh.org") in l
    ensures forall l :: Picks(HOST_KEY_ALGS, l) <==> Ascii("ssh-ed25519") in l
    ensures forall l :: Picks(CIPHERS, l) <==> Ascii("aes256-gcm@openssh.com") in l
  {
    assert KEX_ALGS[0] == "curve25519-sha256" && KEX_ALGS[1] == "curve25519-sha256@libssh.org";
    assert HOST_KEY_ALGS[0] == "ssh-ed25519" && CIPHERS[0] == "aes256-gcm@openssh.com";
  }

  lemma AgreesIsOffered(packet: Bytes)
    requires packet != [] && packet[0] == 20 && Agrees(packet)
    ensures Negotiates(packet)
  {
    var cookie, kex, hostKey, c2s, s2c, tail :|
      && |cookie| == 16 && Fits(kex, hostKey, c2s, s2c)
      && packet == KexInitBytes(cookie, kex, hostKey, c2s, s2c, tail) && Shares(kex, hostKey, c2s, s2c);
    OursAre();
    KexInitCut(cookie, kex, hostKey, c2s, s2c, tail);
    FourWritten(packet[1..][16..], kex, hostKey, c2s, s2c, tail);
  }

  lemma OfferedIsAgrees(packet: Bytes)
    requires packet != [] && packet[0] == 20 && Negotiates(packet)
    ensures Agrees(packet)
  {
    var cookie, s := packet[1..][..16], packet[1..][16..];
    var kex, hostKey, c2s, s2c, tail := FourTaken(s);
    FourWritten(s, kex, hostKey, c2s, s2c, tail);
    OursAre();
    assert packet == [20] + (cookie + s);
    assert packet == KexInitBytes(cookie, kex, hostKey, c2s, s2c, tail);
  }

  /** The client goes on with exactly these KEXINITs. */
  lemma NegotiatesExactly(packet: Bytes)
    requires packet != [] && packet[0] == 20
    ensures Negotiates(packet) <==> Agrees(packet)
  {
    if Agrees(packet) {
      AgreesIsOffered(packet);
    }
    if Negotiates(packet) {
      OfferedIsAgrees(packet);
    }
  }

  /** Nothing new is known of the server, and the handshake has not moved past what is. */
  ghost predicate LearnsNothing(h: State, h': State) {
    h'.pc.Failed?
    || (&& h'.t.serverIdent == h.t.serverIdent && h'.t.serverKexInit == h.t.serverKexInit
        && !h.pc.Failed? && (Rank(h'.pc) >= 1 ==> Rank(h.pc) >= 1) && (Rank(h'.pc) >= 2 ==> Rank(h.pc) >= 2))
  }

  lemma LineMeets(cfg: Config, h: State, line: Bytes)
    requires h.pc.ReadIdent?
    ensures var h' := OnLine(cfg, h, line);
            h'.pc.Failed? || h'.pc.ReadIdent? || (IsIdent(h'.t.serverIdent) && Rank(h'.pc) == 1)
  {
  }

  lemma KexInitMeets(cfg: Config, h: State, packet: Bytes)
    requires packet != [] && packet[0] == 20
    ensures var h' := OnKexInit(cfg, h, packet);
            h'.pc.Failed? || (Agrees(h'.t.serverKexInit) && h'.t.serverIdent == h.t.serverIdent)
  {
    if Negotiates(packet) {
      NegotiatesExactly(packet);
    }
  }

  lemma ReplyLearnsNothing(cfg: Config, h: State, packet: Bytes)
    requires packet != [] && h.pc.AwaitEcdhReply?
    ensures LearnsNothing(h, OnReply(cfg, h, packet))
  {
    var checked := CheckedTranscript(cfg, h.t, packet);
    if checked.Some? {
      var h1 := Note(h, Verified(checked.value, packet)).(t := checked.value, reply := packet);
      VerifiedLearnsNothing(cfg, h1);
    }
  }

  lemma VerifiedLearnsNothing(cfg: Config, h: State)
    requires h.pc.AwaitEcdhReply?
    ensures LearnsNothing(h, OnVerified(cfg, h))
  {
  }

  lemma WantedLearnsNothing(cfg: Config, h: State, packet: Bytes)
    requires packet != [] && Awaits(h.pc) && !h.pc.AwaitKexInit?
    ensures LearnsNothing(h, OnWanted(cfg, h, packet))
  {
    if h.pc.AwaitEcdhReply? {
      ReplyLearnsNothing(cfg, h, packet);
    }
  }

  lemma PacketMeets(cfg: Config, h: State, packet: Bytes)
    requires Awaits(h.pc)
    ensures var h' := OnPacket(cfg, h, packet);
            LearnsNothing(h, h')
            || (h.pc.AwaitKexInit? && Agrees(h'.t.serverKexInit) && h'.t.serverIdent == h.t.serverIdent)
  {
    var h1 := Note(h, GotPacket(packet));
    if packet != [] {
      OtherCases(h1, packet);
      if packet[0] == WantedKind(h.pc) {
        if h.pc.AwaitKexInit? {
          KexInitMeets(cfg, h1, packet);
        } else {
          WantedLearnsNothing(cfg, h1, packet);
        }
      }
    }
  }

  lemma QuietLearnsNothing(cfg: Config, h: State, e: Event)
    requires !e.Line? && !e.Packet? && !h.pc.Failed? && (h.pc.Declining? ==> Awaits(h.pc.back))
    ensures LearnsNothing(h, Step(cfg, h, e))
  {
    if e.Settled? && AfterSend(h.pc).Some? {
      SendingKeepsRank(h.pc);
    }
  }

  lemma FailedStays(cfg: Config, h: State, e: Event)
    requires h.pc.Failed?
    ensures Step(cfg, h, e).pc.Failed?
  {
  }

  ghost predicate Met(pc: Pc, ident: bool, kexInit: bool) {
    !pc.Failed? ==> (Rank(pc) >= 1 ==> ident) && (Rank(pc) >= 2 ==> kexInit)
  }

  /**
   * While the handshake has not failed: past the identification the server has
   * named SSH-2.0, and past the KEXINITs it has offered a key exchange, a host
   * key algorithm and both ciphers that are ours.
   */
  lemma {:induction false} GoesOnWithOurs(cfg: Config, events: seq<Event>)
    requires cfg.WellFormed()
    ensures var h := Run(cfg, events); Met(h.pc, IsIdent(h.t.serverIdent), Agrees(h.t.serverKexInit))
  {
    if events != [] {
      var before, e := events[..|events| - 1], events[|events| - 1];
      var h := Run(cfg, before);
      GoesOnWithOurs(cfg, before);
      RunIsBehind(cfg, before);
      if h.pc.Failed? {
        FailedStays(cfg, h, e);
      } else if e.Line? {
        if h.pc.ReadIdent? {
          LineMeets(cfg, h, e.line);
        }
      } else if e.Packet? {
        if Awaits(h.pc) {
          PacketMeets(cfg, h, e.packet);
        }
      } else {
        QuietLearnsNothing(cfg, h, e);
      }
    }
  }

  // ---------------------------------------------------------------------
  // A failure is the end

  /** The task hears of a failure: of what it awaits to read, of its send, or a no. */
  predicate Fails(pc: Pc, e: Event) {
    match e
    case ReadFailed => Awaits(pc) || pc.ReadIdent?
    case Settled(ok) => !ok && AfterSend(pc).Some?
    case Confirm(accept) => !accept && pc.AwaitConfirm?
    case _ => false
  }

  predicate Sends(a: Act) {
    a.SentClear? || a.SentSealed? || a.Refused?
  }

  lemma FailedSendsNothing(cfg: Config, h: State, e: Event)
    requires h.pc.Failed?
    ensures var h' := Step(cfg, h, e); h'.pc.Failed? && (h'.trace == h.trace || h'.trace == h.trace + [Destroyed])
  {
  }

  /**
   * If a read or a send fails, or the user says no, the handshake has failed,
   * and whatever comes afterwards it hands over nothing more.
   */
  lemma {:induction false} FailureIsFinal(cfg: Config, events: seq<Event>, e: Event, more: seq<Event>)
    requires Fails(Run(cfg, events).pc, e)
    ensures var h := Run(cfg, events + [e] + more);
            && h.pc.Failed? && |h.trace| >= |Run(cfg, events).trace|
            && forall i | |Run(cfg, events).trace| <= i < |h.trace| :: !Sends(h.trace[i])
  {
    if more == [] {
      assert (events + [e] + more)[..|events|] == events && events + [e] + more == events + [e];
    } else {
      var before, last := more[..|more| - 1], more[|more| - 1];
      FailureIsFinal(cfg, events, e, before);
      assert (events + [e] + more)[..|events + [e] + more| - 1] == events + [e] + before;
      FailedSendsNothing(cfg, Run(cfg, events + [e] + before), last);
    }
  }
}
