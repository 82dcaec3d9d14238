/**
 * What leaves in the clear after our NEWKEYS: the one gap in which the client
 * of module Handshake answers before its cipher is on, exactly when it is
 * used, and a run that uses it.
 */
module NewKeys {
  import opened Wrappers
  import opened ByteStrings
  import opened Wire
  import opened Kex
  import opened Messages
  import opened Handshake

  ghost predicate SentNewKeys(past: seq<Act>) {
    SentClear([NEWKEYS]) in past
  }

  /** Our NEWKEYS is sent and GCM is not on yet. */
  ghost predicate Between(past: seq<Act>) {
    SentNewKeys(past) && GcmOn !in past && Destroyed !in past
  }

  /** A global request wanting a reply arrived between NEWKEYS and GCM. */
  ghost predicate AskedBetween(trace: seq<Act>) {
    trace != []
    && (var past, a := trace[..|trace| - 1], trace[|trace| - 1];
        AskedBetween(past) || (a.GotPacket? && WantsReply(a.packet) && Between(past)))
  }

  /** A packet left in the clear after our NEWKEYS, against section 7.3 of RFC 4253. */
  ghost predicate ClearAfterNewKeys(trace: seq<Act>) {
    trace != []
    && (var past, a := trace[..|trace| - 1], trace[|trace| - 1];
        ClearAfterNewKeys(past) || (a.SentClear? && SentNewKeys(past)))
  }

  lemma Appended(trace: seq<Act>, a: Act)
    ensures ClearAfterNewKeys(trace + [a]) <==> ClearAfterNewKeys(trace) || (a.SentClear? && SentNewKeys(trace))
    ensures AskedBetween(trace + [a])
      <==> AskedBetween(trace) || (a.GotPacket? && WantsReply(a.packet) && Between(trace))
  {
    assert (trace + [a])[..|trace|] == trace;
  }

  lemma Emitted(h: State, payload: Bytes, next: Pc)
    ensures ClearAfterNewKeys(Emit(h, payload, next).trace)
      <==> ClearAfterNewKeys(h.trace) || (!h.zeroed && !h.gcm && SentNewKeys(h.trace))
    ensures AskedBetween(Emit(h, payload, next).trace) <==> AskedBetween(h.trace)
    ensures SentNewKeys(Emit(h, payload, next).trace)
      <==> SentNewKeys(h.trace) || (!h.zeroed && !h.gcm && payload == [NEWKEYS])
  {
    Appended(h.trace, SendAct(h, payload));
  }

  ghost predicate RankShows(h: State) {
    !h.pc.Failed? ==> (Rank(h.pc) >= 4 <==> SentNewKeys(h.trace))
  }

  ghost predicate OnlyIfAsked(h: State) {
    RankShows(h) && (ClearAfterNewKeys(h.trace) <==> AskedBetween(h.trace))
  }

  /** Declining is the one send in the clear that can follow NEWKEYS. */
  lemma DeclineOnlyIfAsked(cfg: Config, h: State, packet: Bytes)
    requires Behind(cfg, h) && Awaits(h.pc) && OnlyIfAsked(h) && WantsReply(packet)
    ensures OnlyIfAsked(Emit(Note(h, GotPacket(packet)), [REQUEST_FAILURE], Declining(h.pc)))
  {
    Appended(h.trace, GotPacket(packet));
    Emitted(Note(h, GotPacket(packet)), [REQUEST_FAILURE], Declining(h.pc));
  }

  lemma OnVerifiedOnlyIfAsked(cfg: Config, h: State)
    requires h.pc.AwaitEcdhReply? && OnlyIfAsked(h) && !h.gcm
    ensures OnlyIfAsked(OnVerified(cfg, h))
  {
    NewKeysOnlyIfAsked(h);
  }

  lemma ReplyOnlyIfAsked(cfg: Config, h: State, packet: Bytes)
    requires h.pc.AwaitEcdhReply? && packet != [] && OnlyIfAsked(h) && !h.gcm
    ensures OnlyIfAsked(OnReply(cfg, h, packet))
  {
    var checked := CheckedTranscript(cfg, h.t, packet);
    if checked.Some? {
      Appended(h.trace, Verified(checked.value, packet));
      OnVerifiedOnlyIfAsked(cfg, Note(h, Verified(checked.value, packet)).(t := checked.value, reply := packet));
    }
  }

  lemma KexInitOnlyIfAsked(cfg: Config, h: State, packet: Bytes)
    requires h.pc.AwaitKexInit? && packet != [] && OnlyIfAsked(h)
    ensures OnlyIfAsked(OnKexInit(cfg, h, packet))
  {
    Emitted(h.(t := h.t.(serverKexInit := packet)), EcdhInit(cfg), SendingEcdhInit);
  }

  lemma SealedOnlyIfAsked(h: State, payload: Bytes, next: Pc)
    requires !h.pc.Failed? && Rank(h.pc) >= 4 && Rank(next) >= 4 && !next.Failed? && h.gcm && OnlyIfAsked(h)
    ensures OnlyIfAsked(Emit(h, payload, next))
  {
    Emitted(h, payload, next);
  }

  lemma WantedOnlyIfAsked(cfg: Config, h: State, packet: Bytes)
    requires Awaits(h.pc) && packet != [] && packet[0] == WantedKind(h.pc) && OnlyIfAsked(h)
    requires h.gcm <==> Rank(h.pc) >= 6
    ensures OnlyIfAsked(OnWanted(cfg, h, packet))
  {
    match h.pc
    case AwaitKexInit => KexInitOnlyIfAsked(cfg, h, packet);
    case AwaitEcdhReply => ReplyOnlyIfAsked(cfg, h, packet);
    case AwaitService => SealedOnlyIfAsked(h, cfg.request(ExchangeHash(cfg, h.t)), SendingAuth);
    case _ =>
  }

  lemma PacketOnlyIfAsked(cfg: Config, h: State, packet: Bytes)
    requires Behind(cfg, h) && Awaits(h.pc) && OnlyIfAsked(h)
    ensures OnlyIfAsked(OnPacket(cfg, h, packet))
  {
    var h' := Note(h, GotPacket(packet));
    Appended(h.trace, GotPacket(packet));
    if packet != [] {
      OtherCases(h', packet);
      if WantsReply(packet) {
        DeclineOnlyIfAsked(cfg, h, packet);
      } else if packet[0] == WantedKind(h.pc) {
        WantedOnlyIfAsked(cfg, h', packet);
      }
    }
  }

  lemma LineOnlyIfAsked(cfg: Config, h: State, line: Bytes)
    requires cfg.WellFormed() && h.pc.ReadIdent? && OnlyIfAsked(h)
    ensures OnlyIfAsked(OnLine(cfg, h, line))
  {
    Appended(h.trace, GotLine(line));
    Emitted(Note(h, GotLine(line)).(t := h.t.(serverIdent := line)), cfg.kexInit, SendingKexInit);
  }

  /** The first send of NEWKEYS, by a client that is about to. */
  lemma NewKeysOnlyIfAsked(h: State)
    requires Rank(h.pc) == 2 || Rank(h.pc) == 3
    requires !h.pc.Failed? && OnlyIfAsked(h) && !h.gcm
    ensures OnlyIfAsked(Emit(h, [NEWKEYS], SendingNewKeys))
  {
    var h' := Emit(h, [NEWKEYS], SendingNewKeys);
    Emitted(h, [NEWKEYS], SendingNewKeys);
    assert !SentNewKeys(h.trace);
    if h.zeroed {
      assert h'.pc == Failed;
    } else {
      assert h'.pc == SendingNewKeys && SentNewKeys(h'.trace);
    }
  }

  /** Notes that send nothing and are no packet change nothing here. */
  lemma NoteOnlyIfAsked(h: State, a: Act)
    requires OnlyIfAsked(h) && (a.Answered? || a.Verified? || a.GotLine?)
    ensures OnlyIfAsked(Note(h, a))
  {
    Appended(h.trace, a);
  }

  lemma ConfirmOnlyIfAsked(cfg: Config, h: State)
    requires h.pc.AwaitConfirm? && OnlyIfAsked(h) && !h.gcm
    ensures OnlyIfAsked(Step(cfg, h, Confirm(true)))
  {
    var a := Answered(cfg.suite.fingerprint(h.t.hostKeyBlob), true);
    NoteOnlyIfAsked(h, a);
    NewKeysOnlyIfAsked(Note(h, a));
  }

  lemma KeysReadyOnlyIfAsked(cfg: Config, h: State)
    requires h.pc.Enabling? && OnlyIfAsked(h)
    ensures OnlyIfAsked(Step(cfg, h, KeysReady))
  {
    Appended(h.trace, GcmOn);
    Emitted(Note(h, GcmOn).(gcm := true), ServiceRequest(), SendingService);
  }

  lemma QuietOnlyIfAsked(cfg: Config, h: State, e: Event)
    requires (e.Settled? || e.ReadFailed? || e.Timeout?) && OnlyIfAsked(h)
    requires h.pc.Declining? ==> Awaits(h.pc.back)
    ensures OnlyIfAsked(Step(cfg, h, e))
  {
    if e.Timeout? {
      Appended(h.trace, Destroyed);
    } else if AfterSend(h.pc).Some? {
      SendingKeepsRank(h.pc);
    }
  }

  lemma StepOnlyIfAsked(cfg: Config, h: State, e: Event)
    requires cfg.WellFormed() && Behind(cfg, h) && OnlyIfAsked(h)
    ensures OnlyIfAsked(Step(cfg, h, e))
  {
    match e
    case Line(line) =>
      if h.pc.ReadIdent? {
        LineOnlyIfAsked(cfg, h, line);
      }
    case Packet(packet) =>
      if Awaits(h.pc) {
        PacketOnlyIfAsked(cfg, h, packet);
      }
    case Confirm(accept) =>
      if h.pc.AwaitConfirm? && accept {
        ConfirmOnlyIfAsked(cfg, h);
      }
    case KeysReady =>
      if h.pc.Enabling? {
        KeysReadyOnlyIfAsked(cfg, h);
      }
    case _ => QuietOnlyIfAsked(cfg, h, e);
  }

  /**
   * A packet leaves in the clear after our NEWKEYS exactly in the runs where a
   * global request wanting a reply arrives before GCM is on.
   */
  lemma {:induction false} ClearAfterNewKeysExactly(cfg: Config, events: seq<Event>)
    requires cfg.WellFormed()
    ensures RankShows(Run(cfg, events))
    ensures ClearAfterNewKeys(Run(cfg, events).trace) <==> AskedBetween(Run(cfg, events).trace)
  {
    if events != [] {
      ClearAfterNewKeysExactly(cfg, events[..|events| - 1]);
      RunIsBehind(cfg, events[..|events| - 1]);
      StepOnlyIfAsked(cfg, Run(cfg, events[..|events| - 1]), events[|events| - 1]);
    }
  }

  lemma GlobalRequestWantsReply(name: Bytes)
    requires |name| < U32_LIMIT
    ensures WantsReply([GLOBAL_REQUEST] + (EncodeString(name) + [1]))
  {
    StringRoundTrip(name, [1]);
    assert ([GLOBAL_REQUEST] + (EncodeString(name) + [1]))[1..] == EncodeString(name) + [1];
  }

  /** The condition does arise: any client waiting for the server's NEWKEYS answers such a request in the clear. */
  lemma DeclinesInTheClear(cfg: Config, events: seq<Event>, packet: Bytes)
    requires cfg.WellFormed() && packet != [] && WantsReply(packet)
    requires Run(cfg, events).pc.AwaitNewKeys? && !Run(cfg, events).zeroed
    ensures ClearAfterNewKeys(Run(cfg, events + [Packet(packet)]).trace)
  {
    var h := Run(cfg, events);
    RunIsBehind(cfg, events);
    OtherCases(Note(h, GotPacket(packet)), packet);
    Appended(h.trace, GotPacket(packet));
    Emitted(Note(h, GotPacket(packet)), [REQUEST_FAILURE], Declining(h.pc));
    assert (events + [Packet(packet)])[..|events|] == events;
    assert Run(cfg, events + [Packet(packet)]) == OnOther(Note(h, GotPacket(packet)), packet);
    ClearAfterNewKeysExactly(cfg, events + [Packet(packet)]);
  }

  // ---------------------------------------------------------------------
  // A run that reaches the gap

  lemma RunPush(cfg: Config, events: seq<Event>, e: Event)
    ensures Run(cfg, events + [e]) == Step(cfg, Run(cfg, events), e)
  {
    assert (events + [e])[..|events|] == events;
  }

  /** A send that settles well and the packet that is awaited then. */
  lemma SettledThen(cfg: Config, events: seq<Event>, packet: Bytes)
    requires AfterSend(Run(cfg, events).pc).Some? && Awaits(AfterSend(Run(cfg, events).pc).value)
    requires packet != [] && packet[0] == WantedKind(AfterSend(Run(cfg, events).pc).value)
    ensures var h := Run(cfg, events);
            Run(cfg, events + [Settled(true), Packet(packet)])
            == OnWanted(cfg, Note(h, GotPacket(packet)).(pc := AfterSend(h.pc).value), packet)
  {
    RunPush(cfg, events, Settled(true));
    RunPush(cfg, events + [Settled(true)], Packet(packet));
    assert events + [Settled(true)] + [Packet(packet)] == events + [Settled(true), Packet(packet)];
  }

  function Identified(ident: Bytes): seq<Event> {
    [Settled(true), Line(ident)]
  }

  lemma IdentifiedRuns(cfg: Config, ident: Bytes)
    requires Ascii("SSH-") <= ident && Ascii("SSH-2.0-") <= ident
    ensures var h := Run(cfg, Identified(ident));
            && h.pc == SendingKexInit && !h.zeroed && !h.gcm
            && h.t == Begin(cfg).t.(serverIdent := ident)
  {
    RunPush(cfg, [], Settled(true));
    RunPush(cfg, [] + [Settled(true)], Line(ident));
    assert [] + [Settled(true)] + [Line(ident)] == Identified(ident);
  }

  function Negotiated(ident: Bytes, kexInit: Bytes): seq<Event> {
    Identified(ident) + [Settled(true), Packet(kexInit)]
  }

  lemma NegotiatedRuns(cfg: Config, ident: Bytes, kexInit: Bytes)
    requires Ascii("SSH-") <= ident && Ascii("SSH-2.0-") <= ident
    requires kexInit != [] && kexInit[0] == KEXINIT && Negotiates(kexInit)
    ensures var h := Run(cfg, Negotiated(ident, kexInit));
            && h.pc == SendingEcdhInit && !h.zeroed && !h.gcm
            && h.t == Begin(cfg).t.(serverIdent := ident, serverKexInit := kexInit)
  {
    IdentifiedRuns(cfg, ident);
    SettledThen(cfg, Identified(ident), kexInit);
  }

  /** The user's yes, where the client asks. */
  function Consent(cfg: Config): seq<Event> {
    if cfg.pin != [] then [] else [Confirm(true)]
  }

  function Waiting(cfg: Config, ident: Bytes, kexInit: Bytes, reply: Bytes): seq<Event> {
    Negotiated(ident, kexInit) + [Settled(true), Packet(reply)] + Consent(cfg) + [Settled(true)]
  }

  /** The key in this verified reply is one the client goes on with. */
  predicate Acceptable(cfg: Config, t: ExchangeHashInput) {
    if cfg.pin != [] then cfg.pin == cfg.suite.fingerprint(t.hostKeyBlob) else cfg.canConfirm
  }

  lemma ReplyThen(cfg: Config, events: seq<Event>, reply: Bytes)
    requires Run(cfg, events).pc == SendingEcdhInit && reply != [] && reply[0] == KEX_ECDH_REPLY
    ensures Run(cfg, events + [Settled(true), Packet(reply)])
         == OnReply(cfg, Note(Run(cfg, events), GotPacket(reply)).(pc := AwaitEcdhReply), reply)
  {
    SettledThen(cfg, events, reply);
  }

  lemma AcceptableReply(cfg: Config, h: State, reply: Bytes)
    requires !h.zeroed && reply != []
    requires CheckedTranscript(cfg, h.t, reply).Some? && Acceptable(cfg, CheckedTranscript(cfg, h.t, reply).value)
    ensures var h' := OnReply(cfg, h, reply);
            !h'.zeroed && h'.pc == if cfg.pin != [] then SendingNewKeys else AwaitConfirm
  {
  }

  lemma VerifiedRuns(cfg: Config, ident: Bytes, kexInit: Bytes, reply: Bytes)
    requires Ascii("SSH-") <= ident && Ascii("SSH-2.0-") <= ident
    requires kexInit != [] && kexInit[0] == KEXINIT && Negotiates(kexInit)
    requires reply != [] && reply[0] == KEX_ECDH_REPLY
    requires var t := Begin(cfg).t.(serverIdent := ident, serverKexInit := kexInit);
             CheckedTranscript(cfg, t, reply).Some? && Acceptable(cfg, CheckedTranscript(cfg, t, reply).value)
    ensures var h := Run(cfg, Negotiated(ident, kexInit) + [Settled(true), Packet(reply)]);
            !h.zeroed && h.pc == if cfg.pin != [] then SendingNewKeys else AwaitConfirm
  {
    var events := Negotiated(ident, kexInit);
    NegotiatedRuns(cfg, ident, kexInit);
    ReplyThen(cfg, events, reply);
    AcceptableReply(cfg, Note(Run(cfg, events), GotPacket(reply)).(pc := AwaitEcdhReply), reply);
  }

  lemma ConsentRuns(cfg: Config, events: seq<Event>)
    requires var h := Run(cfg, events); !h.zeroed && h.pc == if cfg.pin != [] then SendingNewKeys else AwaitConfirm
    ensures var h := Run(cfg, events + Consent(cfg) + [Settled(true)]); h.pc.AwaitNewKeys? && !h.zeroed
  {
    if cfg.pin == [] {
      RunPush(cfg, events, Confirm(true));
    } else {
      assert events + Consent(cfg) == events;
    }
    RunPush(cfg, events + Consent(cfg), Settled(true));
  }

  /** With a server that offers what we need and proves its key, the client comes to wait for NEWKEYS. */
  lemma WaitingRuns(cfg: Config, ident: Bytes, kexInit: Bytes, reply: Bytes)
    requires Ascii("SSH-") <= ident && Ascii("SSH-2.0-") <= ident
    requires kexInit != [] && kexInit[0] == KEXINIT && Negotiates(kexInit)
    requires reply != [] && reply[0] == KEX_ECDH_REPLY
    requires var t := Begin(cfg).t.(serverIdent := ident, serverKexInit := kexInit);
             CheckedTranscript(cfg, t, reply).Some? && Acceptable(cfg, CheckedTranscript(cfg, t, reply).value)
    ensures var h := Run(cfg, Waiting(cfg, ident, kexInit, reply)); h.pc.AwaitNewKeys? && !h.zeroed
  {
    VerifiedRuns(cfg, ident, kexInit, reply);
    ConsentRuns(cfg, Negotiated(ident, kexInit) + [Settled(true), Packet(reply)]);
  }

  // ---------------------------------------------------------------------
  // And a server like that

  function ListFields(cookie: Bytes, l: Lists): seq<Field> {
    [FRaw(cookie), FNames(l.kex), FNames(l.hostKey), FNames(l.cipherC2S), FNames(l.cipherS2C)]
  }

  /** The lists of a KEXINIT that offers just what we do. */
  function ServerLists(): Lists {
    Lists(Names(KEX_ALGS), Names(HOST_KEY_ALGS), Names(CIPHERS), Names(CIPHERS))
  }

  function ServerKexInit(): Bytes {
    [KEXINIT] + Encode(ListFields(seq(16, _ => 0), ServerLists()))
  }

  /** None of these characters is the one that joins names. */
  predicate Plain(s: string) {
    s != "" && forall c <- s :: c != ',' && c as int < 256
  }

  lemma PlainHasNoComma(s: string)
    requires Plain(s)
    ensures COMMA !in Ascii(s) && Ascii(s) != []
  {
    forall i | 0 <= i < |s|
      ensures Ascii(s)[i] != COMMA
    {
      assert s[i] in s;
      assert (',' as int) == COMMA && (s[i] as int) < 256;
    }
  }

  lemma PlainNamesEncode(names: seq<string>)
    requires |names| > 0 && forall s <- names :: Plain(s)
    requires |JoinNames(Names(names))| < U32_LIMIT
    ensures FNames(Names(names)).Encodable()
  {
    forall i | 0 <= i < |names|
      ensures COMMA !in Names(names)[i] && Names(names)[i] != []
    {
      assert names[i] in names;
      PlainHasNoComma(names[i]);
    }
    NameListRoundTrip(Names(names));
  }

  lemma OneName(s: string)
    requires Plain(s) && |s| < U32_LIMIT
    ensures FNames(Names([s])).Encodable() && Names([s]) == [Ascii(s)]
  {
    PlainNamesEncode([s]);
  }

  lemma KexAlgsPlain()
    ensures forall s <- KEX_ALGS :: Plain(s)
  {
    assert Plain("curve25519-sha256");
    assert Plain("curve25519-sha256@libssh.org");
  }

  lemma TwoNames(names: seq<string>)
    requires |names| == 2 && forall s <- names :: Plain(s) && |s| < 1000
    ensures FNames(Names(names)).Encodable()
  {
    assert Names(names)[1..] == [Names(names)[1]];
    PlainNamesEncode(names);
  }

  lemma KexAlgsEncode()
    ensures FNames(Names(KEX_ALGS)).Encodable()
  {
    KexAlgsPlain();
    TwoNames(KEX_ALGS);
  }

  lemma OfferedIsPicked(ours: seq<string>)
    requires ours != []
    ensures Picks(ours, Names(ours))
  {
    assert ours[0] in ours && Names(ours)[0] == Ascii(ours[0]);
  }

  /** The lists of such a packet are read back. */
  lemma ListsRead(cookie: Bytes, l: Lists)
    requires |cookie| == 16
    requires FNames(l.kex).Encodable() && FNames(l.hostKey).Encodable()
    requires FNames(l.cipherC2S).Encodable() && FNames(l.cipherS2C).Encodable()
    ensures TakeLists(Encode(ListFields(cookie, l))) == Some(l)
  {
    var f := ListFields(cookie, l);
    var kex, hostKey, c2s, s2c :=
      JoinNames(l.kex), JoinNames(l.hostKey), JoinNames(l.cipherC2S), JoinNames(l.cipherS2C);
    assert f[0..] == f;
    EncodeFrom(f, 0);
    EncodeFrom(f, 1);
    EncodeFrom(f, 2);
    EncodeFrom(f, 3);
    EncodeLast(f);
    assert EncodeString(s2c) + [] == EncodeString(s2c);
    RawRoundTrip(cookie, Encode(f[1..]));
    FourWritten(Encode(f[1..]), kex, hostKey, c2s, s2c, []);
  }

  lemma ServerNegotiates()
    ensures Negotiates(ServerKexInit())
  {
    var l := ServerLists();
    KexAlgsEncode();
    OneName("ssh-ed25519");
    OneName("aes256-gcm@openssh.com");
    ListsRead(seq(16, _ => 0), l);
    assert ServerKexInit()[1..] == Encode(ListFields(seq(16, _ => 0), l));
    OfferedIsPicked(KEX_ALGS);
    OfferedIsPicked(HOST_KEY_ALGS);
    OfferedIsPicked(CIPHERS);
  }

  /** A blob as Ed25519Part reads it. */
  function Part(n: nat): Bytes {
    EncodeString(Ascii("ssh-ed25519")) + EncodeString(seq(n, _ => 0))
  }

  lemma PartReads(n: nat)
    requires n < U32_LIMIT
    ensures Ed25519Part(Part(n), n) == Some(seq(n, _ => 0))
  {
    var body: Bytes := seq(n, _ => 0);
    StringRoundTrip(Ascii("ssh-ed25519"), EncodeString(body));
    StringRoundTrip(body, []);
    assert EncodeString(body) + [] == EncodeString(body);
  }

  function ServerReply(): Bytes {
    [KEX_ECDH_REPLY] + (EncodeString(Part(32)) + (EncodeString(seq(32, _ => 0)) + (EncodeString(Part(64)) + [])))
  }

  lemma ReplyReads()
    ensures ParseReply(ServerReply()) == Some(Handshake.Reply(Part(32), seq(32, _ => 0), Part(64)))
  {
    var ephemeral: Bytes := seq(32, _ => 0);
    var tail := EncodeString(Part(64)) + [];
    StringRoundTrip(Part(64), []);
    StringRoundTrip(ephemeral, tail);
    StringRoundTrip(Part(32), EncodeString(ephemeral) + tail);
    assert ServerReply()[1..] == EncodeString(Part(32)) + (EncodeString(ephemeral) + tail);
  }

  /** A suite under which every signature verifies. */
  function Agreeable(): Suite {
    Suite((m: Bytes) => [], (secret: Bytes, public: Bytes) => Some([]), (key: Bytes, sig: Bytes, m: Bytes) => true,
          (secret: Bytes, m: Bytes) => [], (blob: Bytes) => [1])
  }

  function Trusting(): Config {
    Config(Agreeable(), [1], false, [KEXINIT], (id: Bytes) => [], [], [])
  }

  lemma ReplyVerifies(t: ExchangeHashInput)
    ensures CheckedTranscript(Trusting(), t, ServerReply())
         == Some(t.(hostKeyBlob := Part(32), serverEphemeral := seq(32, _ => 0), sharedSecret := []))
  {
    PartReads(32);
    PartReads(64);
    ReplyReads();
  }

  function TrustingRun(): seq<Event> {
    Waiting(Trusting(), Ascii("SSH-2.0-"), ServerKexInit(), ServerReply())
  }

  lemma TrustingWaits()
    ensures var h := Run(Trusting(), TrustingRun()); h.pc.AwaitNewKeys? && !h.zeroed
  {
    var ident := Ascii("SSH-2.0-");
    assert Ascii("SSH-") <= ident;
    ServerNegotiates();
    ReplyVerifies(Begin(Trusting()).t.(serverIdent := ident, serverKexInit := ServerKexInit()));
    WaitingRuns(Trusting(), ident, ServerKexInit(), ServerReply());
  }

  /** The gap is real: a configuration and a run that put a packet in the clear after our NEWKEYS. */
  lemma GapIsReached()
    ensures exists cfg: Config, events: seq<Event> ::
              cfg.WellFormed() && ClearAfterNewKeys(Run(cfg, events).trace)
  {
    var packet := [GLOBAL_REQUEST] + (EncodeString([]) + [1]);
    GlobalRequestWantsReply([]);
    TrustingWaits();
    DeclinesInTheClear(Trusting(), TrustingRun(), packet);
    assert Trusting().WellFormed();
  }
}
