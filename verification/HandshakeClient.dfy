/**
 * handshake() and authenticate() of src/ssh/connection.ts as an object, cut at
 * their awaits as module Handshake specifies, and the messages they build and
 * take apart with Writer and Reader.
 */
module HandshakeClient {
  import opened Wrappers
  import opened ByteStrings
  import opened Wire
  import opened Kex
  import Messages
  import opened Handshake

  // ---------------------------------------------------------------------
  // Building and reading messages

  method PutLists(w: Writer, a: seq<Bytes>, b: seq<Bytes>, c: seq<Bytes>, d: seq<Bytes>)
    requires w.Valid()
    modifies w
    ensures w.Valid() && w.fields == old(w.fields) + [FNames(a), FNames(b), FNames(c), FNames(d)]
  {
    w.NameList(a);
    w.NameList(b);
    w.NameList(c);
    w.NameList(d);
  }

  /** No languages, no guessed packet, and the reserved word. */
  method PutEnd(w: Writer)
    requires w.Valid()
    modifies w
    ensures w.Valid() && w.fields == old(w.fields) + [FNames([]), FNames([]), FBool(false), FU32(0)]
  {
    w.NameList([]);
    w.NameList([]);
    w.Boolean(false);
    w.Uint32(0);
  }

  method BuildKexInit(cookie: Bytes, o: Offer) returns (payload: Bytes)
    ensures payload == Encode(KexInitFields(cookie, o))
  {
    var w := new Writer();
    w.Byte(Messages.KEXINIT);
    w.Raw(cookie);
    PutLists(w, o.kex, o.hostKey, o.cipher, o.cipher);
    PutLists(w, o.mac, o.mac, o.compression, o.compression);
    PutEnd(w);
    payload := w.ToBytes();
    KexInitParts(cookie, o);
  }

  lemma KexInitParts(cookie: Bytes, o: Offer)
    ensures [] + [FByte(Messages.KEXINIT)] + [FRaw(cookie)]
            + [FNames(o.kex), FNames(o.hostKey), FNames(o.cipher), FNames(o.cipher)]
            + [FNames(o.mac), FNames(o.mac), FNames(o.compression), FNames(o.compression)]
            + [FNames([]), FNames([]), FBool(false), FU32(0)]
         == KexInitFields(cookie, o)
  {
  }

  /** The part that the signed bytes and the login request share. */
  method PutLogin(w: Writer, username: Bytes, way: Bytes, signed: bool)
    requires w.Valid()
    modifies w
    ensures w.Valid()
    ensures w.fields == old(w.fields) + [FByte(USERAUTH_REQUEST), FString(username),
                                         FString(Messages.Ascii("ssh-connection")), FString(way), FBool(signed)]
  {
    w.Byte(USERAUTH_REQUEST);
    w.String(username);
    w.String(Messages.Ascii("ssh-connection"));
    w.String(way);
    w.Boolean(signed);
  }

  method BuildSigned(sessionId: Bytes, username: Bytes, blob: Bytes) returns (signed: Bytes)
    ensures signed == Encode(SignedFields(sessionId, username, blob))
  {
    var w := new Writer();
    w.String(sessionId);
    PutLogin(w, username, Messages.Ascii("publickey"), true);
    w.String(Messages.Ascii("ssh-ed25519"));
    w.String(blob);
    signed := w.ToBytes();
    assert w.fields == SignedFields(sessionId, username, blob);
  }

  method PublicKeyRequest(suite: Suite, username: Bytes, blob: Bytes, secret: Bytes, sessionId: Bytes)
    returns (payload: Bytes)
    ensures payload == Encode(AuthFields(suite, username, PrivateKey(blob, secret), sessionId))
    ensures var request := KeyRequest(username, blob);
            payload == request + EncodeString(EncodeString(Messages.Ascii("ssh-ed25519"))
                                              + EncodeString(suite.sign(secret, EncodeString(sessionId) + request)))
  {
    var signed := BuildSigned(sessionId, username, blob);
    var signature := suite.sign(secret, signed);
    var w := new Writer();
    PutLogin(w, username, Messages.Ascii("publickey"), true);
    w.String(Messages.Ascii("ssh-ed25519"));
    w.String(blob);
    w.String(EncodeString(Messages.Ascii("ssh-ed25519")) + EncodeString(signature));
    payload := w.ToBytes();
    assert w.fields == AuthFields(suite, username, PrivateKey(blob, secret), sessionId);
    KeyLoginSignsSession(suite, username, blob, secret, sessionId);
  }

  method BuildAuthRequest(suite: Suite, username: Bytes, credential: Credential, sessionId: Bytes)
    returns (payload: Bytes)
    ensures payload == Encode(AuthFields(suite, username, credential, sessionId))
  {
    if credential.PrivateKey? {
      payload := PublicKeyRequest(suite, username, credential.blob, credential.secret, sessionId);
      return;
    }
    var w := new Writer();
    PutLogin(w, username, Messages.Ascii("password"), false);
    w.String(credential.password);
    payload := w.ToBytes();
    assert w.fields == AuthFields(suite, username, credential, sessionId);
  }

  method ReadPart(blob: Bytes, n: nat) returns (part: Option<Bytes>)
    ensures part == Ed25519Part(blob, n)
  {
    var r := new Reader(blob);
    var name := r.String();
    if name.Err? || name.value != Messages.Ascii("ssh-ed25519") {
      return None;
    }
    var body := r.String();
    if body.Err? || |body.value| != n {
      return None;
    }
    part := Some(body.value);
  }

  datatype HostKeyCheck = Unreadable | Checked(fingerprint: Bytes, signatureValid: bool)

  method VerifyHostKey(suite: Suite, hostKeyBlob: Bytes, signatureBlob: Bytes, exchangeHash: Bytes)
    returns (check: HostKeyCheck)
    ensures check.Checked? && check.signatureValid <==> HostKeySigned(suite, hostKeyBlob, signatureBlob, exchangeHash)
    ensures check.Checked? && check.signatureValid
      <==> exists pub, sig :: Carries(hostKeyBlob, 32, pub) && Carries(signatureBlob, 64, sig)
                              && suite.verify(pub, sig, exchangeHash)
    ensures check.Checked? <==> exists pub, sig :: Carries(hostKeyBlob, 32, pub) && Carries(signatureBlob, 64, sig)
    ensures check.Checked? ==> check.fingerprint == suite.fingerprint(hostKeyBlob)
  {
    SignedMeans(suite, hostKeyBlob, signatureBlob, exchangeHash);
    PartMeans(hostKeyBlob, 32);
    PartMeans(signatureBlob, 64);
    var pub := ReadPart(hostKeyBlob, 32);
    if pub.None? {
      return Unreadable;
    }
    var sig := ReadPart(signatureBlob, 64);
    if sig.None? {
      return Unreadable;
    }
    check := Checked(suite.fingerprint(hostKeyBlob), suite.verify(pub.value, sig.value, exchangeHash));
  }

  /** pick(): the first of ours that is among theirs; None is where it throws. */
  method Pick(ours: seq<string>, theirs: seq<Bytes>) returns (found: Option<string>)
    ensures found.Some? <==> Picks(ours, theirs)
    ensures found.Some? ==> Messages.Ascii(found.value) in theirs
    ensures found.Some? ==> exists i :: 0 <= i < |ours| && found.value == ours[i]
                                        && forall k | 0 <= k < i :: Messages.Ascii(ours[k]) !in theirs
  {
    for i := 0 to |ours|
      invariant forall k | 0 <= k < i :: Messages.Ascii(ours[k]) !in theirs
    {
      if Messages.Ascii(ours[i]) in theirs {
        return Some(ours[i]);
      }
    }
    found := None;
  }

  method ReadNames(r: Reader) returns (names: Option<seq<Bytes>>)
    requires r.Valid()
    modifies r
    ensures r.Valid()
    ensures match TakeNames(old(r.Rest()))
            case Some(t) => names == Some(t.value) && r.Rest() == t.rest
            case None => names == None
  {
    var list := r.NameList();
    names := if list.Ok? then Some(list.value) else None;
  }

  method ReadFourLists(r: Reader) returns (lists: Option<Lists>)
    requires r.Valid()
    modifies r
    ensures lists == TakeFourLists(old(r.Rest()))
  {
    var kex := ReadNames(r);
    if kex.None? {
      return None;
    }
    var hostKey := ReadNames(r);
    if hostKey.None? {
      return None;
    }
    var cipherC2S := ReadNames(r);
    if cipherC2S.None? {
      return None;
    }
    var cipherS2C := ReadNames(r);
    if cipherS2C.None? {
      return None;
    }
    lists := Some(Lists(kex.value, hostKey.value, cipherC2S.value, cipherS2C.value));
  }

  method ReadLists(packet: Bytes) returns (lists: Option<Lists>)
    requires packet != []
    ensures lists == TakeLists(packet[1..])
  {
    var r := new Reader(packet);
    var skipped := r.Byte();
    assert r.Rest() == packet[1..];
    var cookie := r.Raw(16);
    if cookie.Err? {
      return None;
    }
    lists := ReadFourLists(r);
  }

  method PickAll(packet: Bytes) returns (agreed: bool)
    requires packet != []
    ensures agreed == Negotiates(packet)
  {
    var lists := ReadLists(packet);
    if lists.None? {
      return false;
    }
    var kex := Pick(KEX_ALGS, lists.value.kex);
    var hostKey := Pick(HOST_KEY_ALGS, lists.value.hostKey);
    var cipherC2S := Pick(CIPHERS, lists.value.cipherC2S);
    var cipherS2C := Pick(CIPHERS, lists.value.cipherS2C);
    agreed := kex.Some? && hostKey.Some? && cipherC2S.Some? && cipherS2C.Some?;
  }

  /** Reads the server's lists and picks from each; false where the source throws. */
  method Negotiate(packet: Bytes) returns (agreed: bool)
    requires packet != []
    ensures agreed == Negotiates(packet)
    ensures packet[0] == 20 ==> (agreed <==> Agrees(packet))
  {
    agreed := PickAll(packet);
    if packet[0] == 20 {
      NegotiatesExactly(packet);
    }
  }

  method ReadReply(packet: Bytes) returns (reply: Option<Reply>)
    requires packet != []
    ensures reply == ParseReply(packet)
  {
    var r := new Reader(packet);
    var skipped := r.Byte();
    assert r.Rest() == packet[1..];
    var hostKeyBlob := r.String();
    if hostKeyBlob.Err? {
      return None;
    }
    var serverEphemeral := r.String();
    if serverEphemeral.Err? {
      return None;
    }
    var signatureBlob := r.String();
    if signatureBlob.Err? {
      return None;
    }
    reply := Some(Handshake.Reply(hostKeyBlob.value, serverEphemeral.value, signatureBlob.value));
  }

  /** The name, then whether an answer is wanted; None if the request is cut short. */
  method ReadGlobalRequest(packet: Bytes) returns (wantReply: Option<bool>)
    requires packet != [] && packet[0] == Messages.GLOBAL_REQUEST
    ensures Messages.Parse(packet) == match wantReply
                                      case None => Messages.Malformed
                                      case Some(flag) => Messages.GlobalRequest(flag)
  {
    var r := new Reader(packet);
    var skipped := r.Byte();
    assert r.Rest() == packet[1..];
    var name := r.String();
    if name.Err? {
      return None;
    }
    var flag := r.Boolean();
    if flag.Err? {
      return None;
    }
    wantReply := Some(flag.value);
  }

  // ---------------------------------------------------------------------
  // The object

  class Handshaker {
    const cfg: Config
    var pc: Pc
    var zeroed: bool
    var gcm: bool
    var t: ExchangeHashInput
    var reply: Bytes
    var trace: seq<Act>

    function Now(): State
      reads this
    {
      State(pc, zeroed, gcm, t, reply, trace)
    }

    constructor (cfg: Config)
      ensures this.cfg == cfg && Now() == Begin(cfg)
    {
      this.cfg := cfg;
      pc, zeroed, gcm, trace, reply := WritingIdent, false, false, [], [];
      t := ExchangeHashInput(CLIENT_IDENT, [], cfg.kexInit, [], [], cfg.ephemeralPublic, [], []);
    }

    /** packets.send() up to its await. */
    method Send(payload: Bytes, next: Pc)
      modifies this
      ensures Now() == Emit(old(Now()), payload, next)
    {
      if zeroed {
        trace, pc := trace + [Refused(payload)], Failed;
        return;
      }
      trace, pc := trace + [if gcm then SentSealed(payload) else SentClear(payload)], next;
    }

    /** The first line that starts with SSH- settles it; 32 that do not are enough. */
    method OnLine(line: Bytes)
      requires pc.ReadIdent?
      modifies this
      ensures Now() == Handshake.OnLine(cfg, old(Now()), line)
      ensures Messages.Ascii("SSH-2.0-") <= line ==> t.serverIdent == line
      ensures !(Messages.Ascii("SSH-") <= line) ==>
                pc == (if old(pc.lines) == 31 then Failed else ReadIdent(old(pc.lines) + 1)) && t == old(t)
      ensures Messages.Ascii("SSH-") <= line && !(Messages.Ascii("SSH-2.0-") <= line) ==> pc == Failed
    {
      trace := trace + [GotLine(line)];
      if Messages.Ascii("SSH-") <= line {
        if Messages.Ascii("SSH-2.0-") <= line {
          t := t.(serverIdent := line);
          Send(cfg.kexInit, SendingKexInit);
        } else {
          pc := Failed;
        }
      } else if pc.lines + 1 == MAX_IDENT_LINES {
        pc := Failed;
      } else {
        pc := ReadIdent(pc.lines + 1);
      }
    }

    /** The reply taken apart, the shared secret computed, and the host key checked against the transcript. */
    method CheckReply(packet: Bytes) returns (checked: Option<ExchangeHashInput>)
      requires packet != []
      ensures checked == CheckedTranscript(cfg, t, packet)
    {
      var r := ReadReply(packet);
      if r.None? || |r.value.serverEphemeral| != 32 {
        return None;
      }
      var shared := cfg.suite.sharedSecret(cfg.ephemeralSecret, r.value.serverEphemeral);
      if shared.None? {
        return None;
      }
      var transcript := t.(hostKeyBlob := r.value.hostKeyBlob, serverEphemeral := r.value.serverEphemeral,
                           sharedSecret := shared.value);
      var exchangeHash := ComputeExchangeHash(cfg.suite.hash, transcript);
      var check := VerifyHostKey(cfg.suite, r.value.hostKeyBlob, r.value.signatureBlob, exchangeHash);
      checked := if check.Checked? && check.signatureValid then Some(transcript) else None;
    }

    /** Fail closed: a pin must match exactly, and no pin means asking. */
    method DecideHostKey()
      modifies this
      ensures Now() == OnVerified(cfg, old(Now()))
      ensures cfg.pin != [] && cfg.pin != cfg.suite.fingerprint(t.hostKeyBlob) ==> Now() == old(Now()).(pc := Failed)
      ensures cfg.pin == [] ==> Now() == old(Now()).(pc := if cfg.canConfirm then AwaitConfirm else Failed)
    {
      if |cfg.pin| > 0 {
        if cfg.pin != cfg.suite.fingerprint(t.hostKeyBlob) {
          pc := Failed;
        } else {
          Send([NEWKEYS], SendingNewKeys);
        }
      } else if cfg.canConfirm {
        pc := AwaitConfirm;
      } else {
        pc := Failed;
      }
    }

    method OnReply(packet: Bytes)
      requires packet != []
      modifies this
      ensures Now() == Handshake.OnReply(cfg, old(Now()), packet)
    {
      var checked := CheckReply(packet);
      if checked.None? {
        pc := Failed;
        return;
      }
      trace := trace + [Verified(checked.value, packet)];
      t, reply := checked.value, packet;
      assert Now() == Note(old(Now()), Verified(t, packet)).(t := t, reply := packet);
      DecideHostKey();
    }

    /** A packet that is not the one wanted: a request is declined if it asks for that, noise is passed over. */
    method OnOther(packet: Bytes)
      requires packet != []
      modifies this
      ensures Now() == Handshake.OnOther(old(Now()), packet)
      ensures packet[0] in {2, 3, 4, 7} ==> Now() == old(Now())
      ensures packet[0] !in {2, 3, 4, 7, 80} ==> Now() == old(Now()).(pc := Failed)
      ensures packet[0] == 80 ==>
                match Messages.Parse(packet)
                case GlobalRequest(true) => Now() == Emit(old(Now()), [82], Declining(old(pc)))
                case GlobalRequest(false) => Now() == old(Now())
                case _ => Now() == old(Now()).(pc := Failed)
    {
      if packet[0] == Messages.GLOBAL_REQUEST {
        var wantReply := ReadGlobalRequest(packet);
        if wantReply.None? {
          pc := Failed;
        } else if wantReply.value {
          Send([Messages.REQUEST_FAILURE], Declining(pc));
        }
      } else if !IsNoise(packet[0]) {
        pc := Failed;
      }
    }

    method OnWanted(packet: Bytes)
      requires packet != []
      modifies this
      ensures Now() == Handshake.OnWanted(cfg, old(Now()), packet)
    {
      match pc
      case AwaitKexInit =>
        var agreed := Negotiate(packet);
        if !agreed {
          pc := Failed;
        } else {
          t := t.(serverKexInit := packet);
          Send(EcdhInit(cfg), SendingEcdhInit);
        }
      case AwaitEcdhReply => OnReply(packet);
      case AwaitNewKeys => pc := Enabling;
      case AwaitService =>
        var sessionId := ComputeExchangeHash(cfg.suite.hash, t);
        Send(cfg.request(sessionId), SendingAuth);
      case AwaitAuth => pc := Finished;
      case _ =>
    }

    method OnPacket(packet: Bytes)
      requires Awaits(pc)
      modifies this
      ensures Now() == Step(cfg, old(Now()), Packet(packet))
      ensures packet == [] ==> Now() == Note(old(Now()), GotPacket(packet)).(pc := Failed)
      ensures old(pc).AwaitAuth? && packet != [] && packet[0] == 53 ==> Now() == Note(old(Now()), GotPacket(packet))
    {
      trace := trace + [GotPacket(packet)];
      if |packet| == 0 {
        pc := Failed;
      } else if packet[0] == WantedKind(pc) {
        OnWanted(packet);
      } else if !(pc.AwaitAuth? && packet[0] == USERAUTH_BANNER) {
        OnOther(packet);
      }
    }

    method OnSettled(ok: bool)
      modifies this
      ensures Now() == Step(cfg, old(Now()), Settled(ok))
    {
      if AfterSend(pc).Some? {
        pc := if ok then AfterSend(pc).value else Failed;
      }
    }

    method OnConfirm(accept: bool)
      requires pc.AwaitConfirm?
      modifies this
      ensures Now() == Step(cfg, old(Now()), Confirm(accept))
    {
      trace := trace + [Answered(cfg.suite.fingerprint(t.hostKeyBlob), accept)];
      if !accept {
        pc := Failed;
        return;
      }
      Send([NEWKEYS], SendingNewKeys);
    }

    /** enableGcm() has settled. */
    method OnKeysReady()
      requires pc.Enabling?
      modifies this
      ensures Now() == Step(cfg, old(Now()), KeysReady)
    {
      trace := trace + [GcmOn];
      gcm := true;
      Send(ServiceRequest(), SendingService);
    }

    /** withTimeout rejects and connect() destroys the packet layer, whatever the handshake is waiting for. */
    method OnTimeout()
      modifies this
      ensures Now() == Step(cfg, old(Now()), Timeout)
    {
      trace := trace + [Destroyed];
      zeroed := true;
    }
  }
}
