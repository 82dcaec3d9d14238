/**
 * connect() of src/ssh/connection.ts from end to end: the handshake, then the
 * channel, over one packet layer. What module Handshake calls sent in the
 * clear or sealed, and the messages of module Channel, become calls of the
 * send queue of module SendQueue, which frames them when their turn comes.
 */
module Connection {
  import opened Wrappers
  import opened ByteStrings
  import opened Wire
  import opened Kex
  import opened Framing
  import Messages
  import H = Handshake
  import C = Channel
  import W = Writes
  import P = Packets
  import Q = SendQueue

  /** The first n bytes of s, filled up if there are fewer. */
  function Cut(s: Bytes, n: nat): (b: Bytes)
    ensures |b| == n
  {
    if |s| >= n then s[..n] else s + seq(n - |s|, _ => 0)
  }

  /** What the keys of this exchange are derived from; the session id is the exchange hash. */
  function Keys(suite: H.Suite, t: ExchangeHashInput, letter: byte): Derivation {
    var hash := suite.hash(t.Preimage());
    Derivation(suite.hash, t.sharedSecret, hash, letter, hash)
  }

  const LETTER_A: byte := 65
  const LETTER_C: byte := 67

  /** The client's sending direction: key C and IV A, each within the first block. */
  function SendingDirection(suite: H.Suite, t: ExchangeHashInput): (d: Direction)
    ensures d.counter < COUNTER_LIMIT
  {
    P.DirectionFrom(Cut(Keys(suite, t, LETTER_C).Stream(1), 32), Cut(Keys(suite, t, LETTER_A).Stream(1), P.IV_LEN))
  }

  /**
   * d has the key HASH(K || H || "C" || H) and the IV that starts
   * HASH(K || H || "A" || H), with the exchange hash H for the session id
   * (section 7.2 of RFC 4253).
   */
  ghost predicate IsSendingDirection(suite: H.Suite, t: ExchangeHashInput, d: Direction) {
    var hash, k := suite.hash(t.Preimage()), EncodeString(MpintContent(t.sharedSecret));
    var key, iv := suite.hash(k + hash + [67] + hash), suite.hash(k + hash + [65] + hash);
    |key| == 32 && |iv| == 32 && d == P.DirectionFrom(key, iv[..12])
  }

  lemma CutIsDerived(d: Derivation, n: nat)
    requires Digest32(d.hash) && n <= DIGEST_LEN
    ensures IsDerivedKey(d, n, Cut(d.Stream(1), n))
  {
    d.StreamLength(1);
    assert Cut(d.Stream(1), n) <= d.Stream(1);
  }

  lemma CutIsHash(d: Derivation, n: nat)
    requires Digest32(d.hash) && 0 < n <= DIGEST_LEN
    ensures Cut(d.Stream(1), n)
         == d.hash(EncodeString(MpintContent(d.secret)) + d.exchangeHash + [d.letter] + d.sessionId)[..n]
  {
    CutIsDerived(d, n);
    DerivedBlock(d, n, Cut(d.Stream(1), n), 0);
  }

  lemma SendingDirectionIsDerived(suite: H.Suite, t: ExchangeHashInput)
    requires Digest32(suite.hash)
    ensures IsSendingDirection(suite, t, SendingDirection(suite, t))
  {
    CutIsHash(Keys(suite, t, LETTER_C), 32);
    CutIsHash(Keys(suite, t, LETTER_A), P.IV_LEN);
  }

  datatype Setup = Setup(cfg: H.Config, aead: Aead, options: C.Options) {
    ghost predicate Good() {
      cfg.WellFormed() && Digest32(cfg.suite.hash)
    }

    function direction(t: ExchangeHashInput): (d: Direction)
      ensures d.counter < COUNTER_LIMIT
    {
      SendingDirection(cfg.suite, t)
    }
  }

  /** The handshake's events so far, the channel's once the handshake is done, and the queue. */
  datatype World = World(shakes: seq<H.Event>, chan: Option<seq<C.Event>>, s: Q.Sender)

  datatype Event =
    | Shake(e: H.Event)
    | Open
    | Chan(c: C.Event)
    | Start(noise: Bytes)
    | Encrypted(ok: bool)
    | Wrote(ok: bool)

  const BEGIN := World([], None, Q.Fresh)

  /** How a packet leaves: in the clear, sealed, or not at all because the layer was destroyed. */
  datatype Mode = Clear | Sealed | Never

  /** One packet on its way: what packets.send() was given, and how it should leave. */
  datatype Parcel = Parcel(payload: Bytes, mode: Mode)

  function ModeOf(a: H.Act): Mode {
    if a.SentSealed? then Sealed else if a.SentClear? then Clear else Never
  }

  predicate IsSend(a: H.Act) {
    a.SentClear? || a.SentSealed? || a.Refused?
  }

  function Asked(trace: seq<H.Act>): seq<Parcel> {
    if trace == [] then []
    else
      var a := trace[|trace| - 1];
      Asked(trace[..|trace| - 1]) + if IsSend(a) then [Parcel(a.payload, ModeOf(a))] else []
  }

  function Posted(out: seq<Messages.ClientMsg>): seq<Parcel> {
    seq(|out|, i requires 0 <= i < |out| => Parcel(out[i].Payload(), Sealed))
  }

  function Contents(parcels: seq<Parcel>): seq<Bytes> {
    seq(|parcels|, i requires 0 <= i < |parcels| => parcels[i].payload)
  }

  /** Everything the client asked to send, in order. */
  function Parcels(trace: seq<H.Act>, client: Option<C.Client>): seq<Parcel> {
    Asked(trace) + if client.Some? then Posted(client.value.out) else []
  }

  function Hand(setup: Setup, w: World): H.State {
    H.Run(setup.cfg, w.shakes)
  }

  function Client(setup: Setup, w: World): Option<C.Client> {
    if w.chan.None? then None else Some(C.Run(w.chan.value, setup.options))
  }

  predicate Busy(s: Q.Sender) {
    s.queue != [] || !s.phase.Idle?
  }

  /** The latest send has settled, and so. */
  predicate LastWent(s: Q.Sender, ok: bool) {
    && !Busy(s) && s.log != []
    && ok == (s.log[|s.log| - 1].outcome.Written? && s.log[|s.log| - 1].outcome.ok)
  }

  /** The handshake's task hears of its send when the queue has settled it; the first line is written directly. */
  predicate May(h: H.State, s: Q.Sender, e: H.Event) {
    e.Settled? && H.AfterSend(h.pc).Some? && !h.pc.WritingIdent? ==> LastWent(s, e.ok)
  }

  /** connect() destroys the packet layer when the handshake times out or fails. */
  predicate Lost(h: H.State) {
    h.zeroed || h.pc.Failed?
  }

  function Keyed(setup: Setup, s: Q.Sender, h: H.State, h': H.State): Q.Sender {
    if h'.gcm && !h.gcm then Q.Step(setup.aead, s, Q.Enable(setup.direction(h.t))) else s
  }

  function Ready(setup: Setup, s: Q.Sender, h: H.State, h': H.State): Q.Sender {
    var s1 := Keyed(setup, s, h, h');
    if Lost(h') && !Lost(h) then Q.Step(setup.aead, s1, Q.Destroy) else s1
  }

  /** Keys first, then whatever the step sends; a destroyed layer refuses it. */
  function AfterShake(setup: Setup, s: Q.Sender, h: H.State, h': H.State): Q.Sender {
    var s2 := Ready(setup, s, h, h');
    var asked := Asked(h'.trace);
    if |asked| > |Asked(h.trace)| then Q.Step(setup.aead, s2, Q.Call(asked[|asked| - 1].payload)) else s2
  }

  /** finish() and a failed openShell destroy the packet layer. */
  predicate GivesUp(c: C.Client) {
    c.closed || c.main.Aborted?
  }

  function AfterPost(setup: Setup, s: Q.Sender, c: C.Client, c': C.Client): Q.Sender {
    if |c'.out| > |c.out| then Q.Step(setup.aead, s, Q.Call(c'.out[|c'.out| - 1].Payload())) else s
  }

  function AfterChan(setup: Setup, s: Q.Sender, c: C.Client, c': C.Client): Q.Sender {
    var s1 := AfterPost(setup, s, c, c');
    if GivesUp(c') && !GivesUp(c) then Q.Step(setup.aead, s1, Q.Destroy) else s1
  }

  function Step(setup: Setup, w: World, e: Event): World {
    match e
    case Shake(he) =>
      var h := H.Run(setup.cfg, w.shakes);
      if w.chan.Some? || !May(h, w.s, he) then w
      else w.(shakes := w.shakes + [he], s := AfterShake(setup, w.s, h, H.Step(setup.cfg, h, he)))
    case Open =>
      var h := H.Run(setup.cfg, w.shakes);
      if w.chan.Some? || !h.pc.Finished? || h.zeroed then w
      else w.(chan := Some([]), s := Q.Step(setup.aead, w.s, Q.Call(C.OPENING.Payload())))
    case Chan(ce) =>
      (match w.chan
       case None => w
       case Some(events) =>
         var c := C.Run(events, setup.options);
         w.(chan := Some(events + [ce]), s := AfterChan(setup, w.s, c, C.Step(c, ce, setup.options))))
    case Start(noise) => w.(s := Q.Step(setup.aead, w.s, Q.Start(noise)))
    case Encrypted(ok) => w.(s := Q.Step(setup.aead, w.s, Q.Encrypted(ok)))
    case Wrote(ok) => w.(s := Q.Step(setup.aead, w.s, Q.Wrote(ok)))
  }

  function Run(setup: Setup, events: seq<Event>): World {
    if events == [] then BEGIN
    else Step(setup, Run(setup, events[..|events| - 1]), events[|events| - 1])
  }

  // ---------------------------------------------------------------------
  // The queue keeps the modes

  /** Settled, in progress or waiting, every parcel is or will be in its mode; a destroyed layer sends no more. */
  ghost predicate InMode(s: Q.Sender, parcels: seq<Parcel>) {
    && |parcels| == |s.log| + |Q.Active(s)| + |s.queue|
    && (forall k | 0 <= k < |s.log| :: LoggedInMode(s.log[k], parcels[k]))
    && (s.phase.Encrypting? ==> parcels[|s.log|].mode == Sealed)
    && (s.phase.Writing? ==> parcels[|s.log|].mode == if s.phase.sealedBy.Some? then Sealed else Clear)
    && (forall k | |s.log| + |Q.Active(s)| <= k < |parcels| :: WaitsInMode(s, parcels[k]))
  }

  ghost predicate LoggedInMode(e: Q.Entry, p: Parcel) {
    && (e.outcome.Written? ==> p.mode == if Q.IsSealed(e) then Sealed else Clear)
    && (e.outcome.EncryptFailed? ==> p.mode == Sealed)
  }

  ghost predicate WaitsInMode(s: Q.Sender, p: Parcel) {
    s.zeroed || p.mode == if s.start.Some? then Sealed else Clear
  }

  ghost predicate Keeps(setup: Setup, s: Q.Sender, parcels: seq<Parcel>) {
    Q.Valid(setup.aead, s, Contents(parcels)) && InMode(s, parcels)
  }

  lemma ContentsPush(parcels: seq<Parcel>, p: Parcel)
    ensures Contents(parcels + [p]) == Contents(parcels) + [p.payload]
  {
  }

  lemma CallInMode(aead: Aead, s: Q.Sender, parcels: seq<Parcel>, p: Parcel)
    requires InMode(s, parcels) && WaitsInMode(s, p)
    ensures InMode(Q.Step(aead, s, Q.Call(p.payload)), parcels + [p])
  {
  }

  lemma CallKeeps(setup: Setup, s: Q.Sender, parcels: seq<Parcel>, p: Parcel)
    requires Keeps(setup, s, parcels) && WaitsInMode(s, p)
    ensures Keeps(setup, Q.Step(setup.aead, s, Q.Call(p.payload)), parcels + [p])
  {
    ContentsPush(parcels, p);
    Q.StepKeepsValid(setup.aead, s, Contents(parcels), Q.Call(p.payload));
    CallInMode(setup.aead, s, parcels, p);
  }

  lemma CallGoesOn(
    setup: Setup, s: Q.Sender, parcels: seq<Parcel>, p: Parcel, s': Q.Sender, parcels': seq<Parcel>)
    requires Keeps(setup, s, parcels) && WaitsInMode(s, p)
    requires s' == Q.Step(setup.aead, s, Q.Call(p.payload)) && parcels' == parcels + [p]
    ensures Q.Valid(setup.aead, s', Contents(parcels')) && InMode(s', parcels') && s'.start == s.start
  {
    CallKeeps(setup, s, parcels, p);
  }

  /** The mode of a send is settled when its turn comes, by what the queue knows then. */
  lemma StartInMode(aead: Aead, s: Q.Sender, parcels: seq<Parcel>, noise: Bytes)
    requires InMode(s, parcels) && Q.CounterInStep(s)
    ensures InMode(Q.Step(aead, s, Q.Start(noise)), parcels)
  {
    if s.phase.Idle? && s.queue != [] {
      assert WaitsInMode(s, parcels[|s.log|]);
    }
  }

  lemma EncryptedInMode(aead: Aead, s: Q.Sender, parcels: seq<Parcel>, ok: bool)
    requires InMode(s, parcels)
    ensures InMode(Q.Step(aead, s, Q.Encrypted(ok)), parcels)
  {
  }

  lemma WroteInMode(aead: Aead, s: Q.Sender, parcels: seq<Parcel>, ok: bool)
    requires InMode(s, parcels)
    ensures InMode(Q.Step(aead, s, Q.Wrote(ok)), parcels)
  {
  }

  lemma DestroyInMode(aead: Aead, s: Q.Sender, parcels: seq<Parcel>)
    requires InMode(s, parcels)
    ensures InMode(Q.Step(aead, s, Q.Destroy), parcels)
  {
  }

  /** Nobody waits when the keys change. */
  lemma EnableInMode(aead: Aead, s: Q.Sender, parcels: seq<Parcel>, d: Direction)
    requires InMode(s, parcels) && !Busy(s)
    ensures InMode(Q.Step(aead, s, Q.Enable(d)), parcels)
  {
  }

  lemma EventKeeps(setup: Setup, s: Q.Sender, parcels: seq<Parcel>, e: Q.Event)
    requires Keeps(setup, s, parcels) && !e.Call? && (e.Enable? ==> !Busy(s) && e.d.counter < COUNTER_LIMIT)
    ensures Keeps(setup, Q.Step(setup.aead, s, e), parcels)
  {
    Q.StepKeepsValid(setup.aead, s, Contents(parcels), e);
    match e
    case Start(noise) => StartInMode(setup.aead, s, parcels, noise);
    case Encrypted(ok) => EncryptedInMode(setup.aead, s, parcels, ok);
    case Wrote(ok) => WroteInMode(setup.aead, s, parcels, ok);
    case Enable(d) => EnableInMode(setup.aead, s, parcels, d);
    case Destroy => DestroyInMode(setup.aead, s, parcels);
    case _ =>
  }

  lemma DestroyKeeps(setup: Setup, s: Q.Sender, parcels: seq<Parcel>, s': Q.Sender)
    requires Keeps(setup, s, parcels) && s' == Q.Step(setup.aead, s, Q.Destroy)
    ensures Q.Valid(setup.aead, s', Contents(parcels)) && InMode(s', parcels) && s'.start == s.start
  {
    EventKeeps(setup, s, parcels, Q.Destroy);
  }

  lemma EnableKeeps(setup: Setup, s: Q.Sender, parcels: seq<Parcel>, d: Direction, s': Q.Sender)
    requires Keeps(setup, s, parcels) && !Busy(s) && d.counter < COUNTER_LIMIT
    requires s' == Q.Step(setup.aead, s, Q.Enable(d))
    ensures Q.Valid(setup.aead, s', Contents(parcels)) && InMode(s', parcels)
    ensures !Busy(s') && s'.zeroed == s.zeroed && s'.start == if s.start.None? then Some(d) else s.start
  {
    EventKeeps(setup, s, parcels, Q.Enable(d));
  }

  // ---------------------------------------------------------------------
  // One step of the handshake sends at most one packet

  predicate Sending(pc: H.Pc) {
    H.AfterSend(pc).Some? && !pc.WritingIdent?
  }

  /** h' sent nothing since, or one packet, and then it waits for that or has failed. */
  ghost predicate SendsOnce(past: seq<H.Act>, h': H.State) {
    || Asked(h'.trace) == Asked(past)
    || (|Asked(h'.trace)| == |Asked(past)| + 1 && SentLast(past, h', Asked(h'.trace)[|Asked(past)|].payload))
  }

  ghost predicate SentLast(past: seq<H.Act>, h': H.State, payload: Bytes) {
    && Asked(h'.trace) == Asked(past) + [Parcel(payload, ModeOf(H.SendAct(h', payload)))]
    && (Sending(h'.pc) || h'.pc.Failed?)
  }

  lemma AskedPush(trace: seq<H.Act>, a: H.Act)
    ensures Asked(trace + [a]) == Asked(trace) + if IsSend(a) then [Parcel(a.payload, ModeOf(a))] else []
  {
    assert (trace + [a])[..|trace|] == trace;
  }

  lemma EmitSends(past: seq<H.Act>, h: H.State, payload: Bytes, next: H.Pc)
    requires Asked(h.trace) == Asked(past) && Sending(next)
    ensures SendsOnce(past, H.Emit(h, payload, next))
  {
    AskedPush(h.trace, H.SendAct(h, payload));
  }

  lemma OtherSends(past: seq<H.Act>, h: H.State, h': H.State)
    requires Asked(h.trace) == Asked(past) && H.OtherOutcome(h, h')
    ensures SendsOnce(past, h')
  {
    EmitSends(past, h, [Messages.REQUEST_FAILURE], H.Declining(h.pc));
  }

  lemma VerifiedSends(cfg: H.Config, past: seq<H.Act>, h: H.State)
    requires Asked(h.trace) == Asked(past)
    ensures SendsOnce(past, H.OnVerified(cfg, h))
  {
    if cfg.pin != [] && cfg.pin == cfg.suite.fingerprint(h.t.hostKeyBlob) {
      EmitSends(past, h, [H.NEWKEYS], H.SendingNewKeys);
    }
  }

  lemma ReplySends(cfg: H.Config, past: seq<H.Act>, h: H.State, packet: Bytes)
    requires Asked(h.trace) == Asked(past) && packet != []
    ensures SendsOnce(past, H.OnReply(cfg, h, packet))
  {
    var checked := H.CheckedTranscript(cfg, h.t, packet);
    if checked.Some? {
      AskedPush(h.trace, H.Verified(checked.value, packet));
      VerifiedSends(cfg, past, H.Note(h, H.Verified(checked.value, packet)).(t := checked.value, reply := packet));
    }
  }

  lemma WantedSends(cfg: H.Config, past: seq<H.Act>, h: H.State, packet: Bytes)
    requires Asked(h.trace) == Asked(past) && packet != []
    ensures SendsOnce(past, H.OnWanted(cfg, h, packet))
  {
    match h.pc
    case AwaitKexInit =>
      EmitSends(past, h.(t := h.t.(serverKexInit := packet)), H.EcdhInit(cfg), H.SendingEcdhInit);
    case AwaitEcdhReply => ReplySends(cfg, past, h, packet);
    case AwaitService => EmitSends(past, h, cfg.request(H.ExchangeHash(cfg, h.t)), H.SendingAuth);
    case _ =>
  }

  lemma PacketSends(cfg: H.Config, h: H.State, packet: Bytes)
    ensures SendsOnce(h.trace, H.OnPacket(cfg, h, packet))
  {
    AskedPush(h.trace, H.GotPacket(packet));
    if packet != [] {
      H.OtherCases(H.Note(h, H.GotPacket(packet)), packet);
      OtherSends(h.trace, H.Note(h, H.GotPacket(packet)), H.OnOther(H.Note(h, H.GotPacket(packet)), packet));
      WantedSends(cfg, h.trace, H.Note(h, H.GotPacket(packet)), packet);
    }
  }

  lemma LineSends(cfg: H.Config, h: H.State, line: Bytes)
    requires h.pc.ReadIdent?
    ensures SendsOnce(h.trace, H.OnLine(cfg, h, line))
  {
    AskedPush(h.trace, H.GotLine(line));
    EmitSends(h.trace, H.Note(h, H.GotLine(line)).(t := h.t.(serverIdent := line)), cfg.kexInit, H.SendingKexInit);
  }

  lemma NotedSends(h: H.State, a: H.Act, payload: Bytes, next: H.Pc, gcm: bool)
    requires !IsSend(a) && Sending(next)
    ensures Asked(H.Note(h, a).trace) == Asked(h.trace)
    ensures SendsOnce(h.trace, H.Emit(H.Note(h, a).(gcm := gcm), payload, next))
  {
    AskedPush(h.trace, a);
    EmitSends(h.trace, H.Note(h, a).(gcm := gcm), payload, next);
  }

  lemma ShakeSends(cfg: H.Config, h: H.State, e: H.Event)
    ensures SendsOnce(h.trace, H.Step(cfg, h, e))
  {
    match e
    case Line(line) =>
      if h.pc.ReadIdent? {
        LineSends(cfg, h, line);
      }
    case Packet(packet) =>
      if H.Awaits(h.pc) {
        PacketSends(cfg, h, packet);
      }
    case Confirm(accept) => NotedSends(h, H.Answered(cfg.suite.fingerprint(h.t.hostKeyBlob), accept), [H.NEWKEYS],
                                       H.SendingNewKeys, h.gcm);
    case KeysReady => NotedSends(h, H.GcmOn, H.ServiceRequest(), H.SendingService, true);
    case Timeout => AskedPush(h.trace, H.Destroyed);
    case _ =>
  }

  // ---------------------------------------------------------------------
  // What holds between the parts

  /** While the handshake lasts; t is what the direction in use was derived from. */
  ghost predicate Linked(setup: Setup, h: H.State, s: Q.Sender) {
    && (h.gcm <==> s.start.Some?)
    && (s.start.Some? ==> s.start.value == setup.direction(h.t))
    && (Lost(h) ==> s.zeroed)
    && (Busy(s) ==> Sending(h.pc) || h.pc.Failed?)
  }

  lemma RunPush(cfg: H.Config, events: seq<H.Event>, e: H.Event)
    ensures H.Run(cfg, events + [e]) == H.Step(cfg, H.Run(cfg, events), e)
  {
    assert (events + [e])[..|events|] == events;
  }

  lemma VerifiedLeaves(cfg: H.Config, h: H.State)
    ensures var h' := H.OnVerified(cfg, h); h'.gcm == h.gcm && h'.zeroed == h.zeroed
  {
  }

  lemma ReplyLeaves(cfg: H.Config, h: H.State, packet: Bytes)
    requires packet != []
    ensures var h' := H.OnReply(cfg, h, packet); h'.gcm == h.gcm && h'.zeroed == h.zeroed
  {
    var checked := H.CheckedTranscript(cfg, h.t, packet);
    if checked.Some? {
      VerifiedLeaves(cfg, H.Note(h, H.Verified(checked.value, packet)).(t := checked.value, reply := packet));
    }
  }

  lemma WantedLeaves(cfg: H.Config, h: H.State, packet: Bytes)
    requires packet != []
    ensures var h' := H.OnWanted(cfg, h, packet);
            && h'.gcm == h.gcm && h'.zeroed == h.zeroed
            && (!h.pc.AwaitKexInit? && !h.pc.AwaitEcdhReply? ==> h'.t == h.t)
  {
    if h.pc.AwaitEcdhReply? {
      ReplyLeaves(cfg, h, packet);
    }
  }

  lemma OtherLeaves(h: H.State, packet: Bytes)
    requires packet != []
    ensures var h' := H.OnOther(h, packet); h'.t == h.t && h'.gcm == h.gcm && h'.zeroed == h.zeroed
  {
    H.OtherCases(h, packet);
  }

  lemma PacketLeaves(cfg: H.Config, h: H.State, packet: Bytes)
    ensures var h' := H.OnPacket(cfg, h, packet);
            && h'.gcm == h.gcm && h'.zeroed == h.zeroed
            && (!h.pc.AwaitKexInit? && !h.pc.AwaitEcdhReply? ==> h'.t == h.t)
  {
    if packet != [] {
      WantedLeaves(cfg, H.Note(h, H.GotPacket(packet)), packet);
      OtherLeaves(H.Note(h, H.GotPacket(packet)), packet);
    }
  }

  lemma LineLeaves(cfg: H.Config, h: H.State, line: Bytes)
    requires h.pc.ReadIdent?
    ensures var h' := H.OnLine(cfg, h, line); h'.gcm == h.gcm && h'.zeroed == h.zeroed
  {
  }

  /** GCM comes on in one place and stays on, the timeout alone destroys, and neither touches the transcript. */
  lemma ShakeLeaves(cfg: H.Config, h: H.State, e: H.Event)
    ensures var h' := H.Step(cfg, h, e);
            && (h'.gcm <==> h.gcm || (e.KeysReady? && h.pc.Enabling?))
            && (h'.zeroed <==> h.zeroed || e.Timeout?)
            && (!h.pc.AwaitKexInit? && !h.pc.AwaitEcdhReply? && !h.pc.ReadIdent? ==> h'.t == h.t)
            && (e.Timeout? ==> h'.pc == h.pc && h'.t == h.t)
  {
    if e.Packet? && H.Awaits(h.pc) {
      PacketLeaves(cfg, h, e.packet);
    } else if e.Line? && h.pc.ReadIdent? {
      LineLeaves(cfg, h, e.line);
    }
  }

  /** A client whose send is under way goes on only when it has settled. */
  lemma SendingWaits(cfg: H.Config, h: H.State, s: Q.Sender, e: H.Event)
    requires Busy(s) && (Sending(h.pc) || h.pc.Failed?) && May(h, s, e)
    ensures var h' := H.Step(cfg, h, e); h'.pc == h.pc && h'.gcm == h.gcm && h'.t == h.t
    ensures Asked(H.Step(cfg, h, e).trace) == Asked(h.trace)
  {
    if e.Timeout? {
      AskedPush(h.trace, H.Destroyed);
    }
  }

  lemma BusyAfter(setup: Setup, h: H.State, s: Q.Sender, e: H.Event)
    requires Linked(setup, h, s) && Busy(s) && May(h, s, e)
    ensures var h' := H.Step(setup.cfg, h, e);
            var s' := AfterShake(setup, s, h, h');
            && s' == (if Lost(h') && !Lost(h) then Q.Step(setup.aead, s, Q.Destroy) else s)
            && Linked(setup, h', s') && Asked(h'.trace) == Asked(h.trace)
  {
    SendingWaits(setup.cfg, h, s, e);
    ShakeLeaves(setup.cfg, h, e);
  }

  lemma BusyShake(setup: Setup, h: H.State, s: Q.Sender, parcels: seq<Parcel>, e: H.Event)
    requires Linked(setup, h, s) && Keeps(setup, s, parcels) && Busy(s) && May(h, s, e)
    requires parcels == Asked(h.trace)
    ensures var h' := H.Step(setup.cfg, h, e);
            Linked(setup, h', AfterShake(setup, s, h, h'))
            && Keeps(setup, AfterShake(setup, s, h, h'), Asked(h'.trace))
  {
    BusyAfter(setup, h, s, e);
    EventKeeps(setup, s, parcels, Q.Destroy);
  }

  /** The queue is empty: keys, teardown and the next packet each find it in order. */
  lemma IdleShake(setup: Setup, h: H.State, s: Q.Sender, e: H.Event)
    requires setup.Good() && H.Flags(setup.cfg, h.pc, h.gcm, h.zeroed, h.trace)
    requires Linked(setup, h, s) && Keeps(setup, s, Asked(h.trace)) && !Busy(s)
    ensures var h' := H.Step(setup.cfg, h, e);
            Linked(setup, h', AfterShake(setup, s, h, h'))
            && Keeps(setup, AfterShake(setup, s, h, h'), Asked(h'.trace))
  {
    var h' := H.Step(setup.cfg, h, e);
    var s2 := Ready(setup, s, h, h');
    ReadyToSend(setup, h, s, e);
    ShakeSends(setup.cfg, h, e);
    if Asked(h'.trace) != Asked(h.trace) {
      var payload := Asked(h'.trace)[|Asked(h.trace)|].payload;
      var p := Parcel(payload, ModeOf(H.SendAct(h', payload)));
      assert WaitsInMode(s2, p);
      CallKeeps(setup, s2, Asked(h.trace), p);
    }
  }

  lemma KeyedKeeps(setup: Setup, h: H.State, h': H.State, s: Q.Sender)
    requires Linked(setup, h, s) && Keeps(setup, s, Asked(h.trace)) && !Busy(s)
    requires (h.gcm ==> h'.gcm) && h'.t == h.t && (Lost(h') <==> Lost(h))
    ensures var s1 := Keyed(setup, s, h, h');
            Linked(setup, h', s1) && Keeps(setup, s1, Asked(h.trace)) && !Busy(s1)
  {
    var d := setup.direction(h.t);
    EnableKeeps(setup, s, Asked(h.trace), d, Q.Step(setup.aead, s, Q.Enable(d)));
  }

  lemma LostKeeps(setup: Setup, h: H.State, h': H.State, s: Q.Sender, s2: Q.Sender)
    requires Linked(setup, h, s) && Keeps(setup, s, Asked(h.trace)) && !Busy(s)
    requires h'.gcm == h.gcm && (h.gcm ==> h'.t == h.t) && s2 == Ready(setup, s, h, h')
    ensures Linked(setup, h', s2) && Keeps(setup, s2, Asked(h.trace)) && !Busy(s2)
  {
    if Lost(h') && !Lost(h) {
      DestroyKeeps(setup, s, Asked(h.trace), s2);
    }
  }

  /** What the queue is like when the step's packet, if any, is handed over. */
  lemma ReadyToSend(setup: Setup, h: H.State, s: Q.Sender, e: H.Event)
    requires setup.Good() && H.Flags(setup.cfg, h.pc, h.gcm, h.zeroed, h.trace)
    requires Linked(setup, h, s) && Keeps(setup, s, Asked(h.trace)) && !Busy(s)
    ensures var h' := H.Step(setup.cfg, h, e);
            var s2 := Ready(setup, s, h, h');
            && Linked(setup, h', s2) && Keeps(setup, s2, Asked(h.trace)) && !Busy(s2)
  {
    var h' := H.Step(setup.cfg, h, e);
    ShakeLeaves(setup.cfg, h, e);
    var h1 := h.(gcm := h'.gcm);
    if e.KeysReady? {
      KeyedKeeps(setup, h, h1, s);
      LostKeeps(setup, h1, h', Keyed(setup, s, h, h1), Ready(setup, s, h, h'));
    } else {
      LostKeeps(setup, h, h', s, Ready(setup, s, h, h'));
    }
  }

  // ---------------------------------------------------------------------
  // Every run

  ghost predicate Sound(setup: Setup, s: Q.Sender, h: H.State, client: Option<C.Client>) {
    && Keeps(setup, s, Parcels(h.trace, client))
    && (client.None? ==> Linked(setup, h, s))
    && (client.Some? ==> s.start == Some(setup.direction(h.t)))
  }

  lemma ShakeKeepsSound(setup: Setup, s: Q.Sender, h: H.State, e: H.Event)
    requires setup.Good() && H.Flags(setup.cfg, h.pc, h.gcm, h.zeroed, h.trace)
    requires Sound(setup, s, h, None) && May(h, s, e)
    ensures var h' := H.Step(setup.cfg, h, e); Sound(setup, AfterShake(setup, s, h, h'), h', None)
  {
    var h' := H.Step(setup.cfg, h, e);
    assert Parcels(h.trace, None) == Asked(h.trace) && Parcels(h'.trace, None) == Asked(h'.trace);
    if Busy(s) {
      BusyShake(setup, h, s, Asked(h.trace), e);
    } else {
      IdleShake(setup, h, s, e);
    }
  }

  lemma ParcelsPush(trace: seq<H.Act>, client: Option<C.Client>, c': C.Client, m: Messages.ClientMsg)
    requires c'.out == (if client.Some? then client.value.out else []) + [m]
    ensures Parcels(trace, Some(c')) == Parcels(trace, client) + [Parcel(m.Payload(), Sealed)]
  {
    assert Posted(c'.out)
        == (if client.Some? then Posted(client.value.out) else []) + [Parcel(m.Payload(), Sealed)];
  }

  /** openShell hands over its first message. */
  lemma OpenKeepsSound(setup: Setup, s: Q.Sender, s': Q.Sender, h: H.State, c: C.Client, m: Messages.ClientMsg)
    requires H.Flags(setup.cfg, h.pc, h.gcm, h.zeroed, h.trace) && h.pc.Finished?
    requires Sound(setup, s, h, None) && c.out == [m] && s' == Q.Step(setup.aead, s, Q.Call(m.Payload()))
    ensures Sound(setup, s', h, Some(c))
  {
    var p := Parcel(m.Payload(), Sealed);
    ParcelsPush(h.trace, None, c, m);
    CallGoesOn(setup, s, Parcels(h.trace, None), p, s', Parcels(h.trace, Some(c)));
  }

  lemma PostKeeps(setup: Setup, s: Q.Sender, trace: seq<H.Act>, c: C.Client, c': C.Client, m: Messages.ClientMsg)
    requires Keeps(setup, s, Parcels(trace, Some(c))) && s.start.Some? && c'.out == c.out + [m]
    ensures Keeps(setup, Q.Step(setup.aead, s, Q.Call(m.Payload())), Parcels(trace, Some(c')))
  {
    var p := Parcel(m.Payload(), Sealed);
    ParcelsPush(trace, Some(c), c', m);
    CallGoesOn(setup, s, Parcels(trace, Some(c)), p, Q.Step(setup.aead, s, Q.Call(p.payload)),
               Parcels(trace, Some(c')));
  }

  lemma AfterPostKeepsSound(setup: Setup, s: Q.Sender, h: H.State, c: C.Client, c': C.Client)
    requires Sound(setup, s, h, Some(c))
    requires c'.out == c.out || (|c'.out| == |c.out| + 1 && c'.out == c.out + [c'.out[|c.out|]])
    ensures Sound(setup, AfterPost(setup, s, c, c'), h, Some(c'))
  {
    if c'.out != c.out {
      PostKeeps(setup, s, h.trace, c, c', c'.out[|c.out|]);
    } else {
      assert Parcels(h.trace, Some(c')) == Parcels(h.trace, Some(c));
    }
  }

  lemma DestroyKeepsSound(setup: Setup, s: Q.Sender, h: H.State, c: C.Client)
    requires Sound(setup, s, h, Some(c))
    ensures Sound(setup, Q.Step(setup.aead, s, Q.Destroy), h, Some(c))
  {
    DestroyKeeps(setup, s, Parcels(h.trace, Some(c)), Q.Step(setup.aead, s, Q.Destroy));
  }

  lemma ChanKeepsSound(setup: Setup, s: Q.Sender, h: H.State, c: C.Client, c': C.Client)
    requires Sound(setup, s, h, Some(c))
    requires c'.out == c.out || (|c'.out| == |c.out| + 1 && c'.out == c.out + [c'.out[|c.out|]])
    ensures Sound(setup, AfterChan(setup, s, c, c'), h, Some(c'))
  {
    AfterPostKeepsSound(setup, s, h, c, c');
    DestroyKeepsSound(setup, AfterPost(setup, s, c, c'), h, c');
  }

  /** Whoever waits for the queue's own steps still does, or is done waiting. */
  lemma QueueLeaves(aead: Aead, s: Q.Sender, e: Q.Event)
    requires e.Start? || e.Encrypted? || e.Wrote?
    ensures var s' := Q.Step(aead, s, e);
            s'.start == s.start && s'.zeroed == s.zeroed && (Busy(s') ==> Busy(s))
  {
  }

  lemma QueueInRun(setup: Setup, w: World, e: Q.Event)
    requires Sound(setup, w.s, Hand(setup, w), Client(setup, w)) && (e.Start? || e.Encrypted? || e.Wrote?)
    ensures Sound(setup, Q.Step(setup.aead, w.s, e), Hand(setup, w), Client(setup, w))
  {
    EventKeeps(setup, w.s, Parcels(Hand(setup, w).trace, Client(setup, w)), e);
    QueueLeaves(setup.aead, w.s, e);
  }

  lemma ShakeInRun(setup: Setup, w: World, e: H.Event)
    requires setup.Good() && Sound(setup, w.s, Hand(setup, w), Client(setup, w))
    ensures var w' := Step(setup, w, Shake(e)); Sound(setup, w'.s, Hand(setup, w'), Client(setup, w'))
  {
    if w.chan.None? && May(Hand(setup, w), w.s, e) {
      H.RunIsBehind(setup.cfg, w.shakes);
      RunPush(setup.cfg, w.shakes, e);
      ShakeKeepsSound(setup, w.s, Hand(setup, w), e);
    }
  }

  lemma OpenInRun(setup: Setup, w: World)
    requires setup.Good() && Sound(setup, w.s, Hand(setup, w), Client(setup, w))
    ensures var w' := Step(setup, w, Open); Sound(setup, w'.s, Hand(setup, w'), Client(setup, w'))
  {
    if w.chan.None? && Hand(setup, w).pc.Finished? && !Hand(setup, w).zeroed {
      H.RunIsBehind(setup.cfg, w.shakes);
      OpenKeepsSound(setup, w.s, Step(setup, w, Open).s, Hand(setup, w), C.START, C.OPENING);
      assert C.Run([], setup.options) == C.START;
    }
  }

  lemma ChanInRun(setup: Setup, w: World, e: C.Event)
    requires setup.Good() && Sound(setup, w.s, Hand(setup, w), Client(setup, w))
    ensures var w' := Step(setup, w, Chan(e)); Sound(setup, w'.s, Hand(setup, w'), Client(setup, w'))
  {
    if w.chan.Some? {
      var c := C.Run(w.chan.value, setup.options);
      ChanPush(w.chan.value, e, setup.options);
      W.StepSaysOneThing(c, e, setup.options);
      ChanKeepsSound(setup, w.s, Hand(setup, w), c, C.Step(c, e, setup.options));
    }
  }

  lemma ChanPush(events: seq<C.Event>, e: C.Event, o: C.Options)
    ensures C.Run(events + [e], o) == C.Step(C.Run(events, o), e, o)
  {
    assert (events + [e])[..|events|] == events;
  }

  lemma StepInRun(setup: Setup, w: World, e: Event)
    requires setup.Good() && Sound(setup, w.s, Hand(setup, w), Client(setup, w))
    ensures var w' := Step(setup, w, e); Sound(setup, w'.s, Hand(setup, w'), Client(setup, w'))
  {
    match e
    case Shake(he) => ShakeInRun(setup, w, he);
    case Open => OpenInRun(setup, w);
    case Chan(ce) => ChanInRun(setup, w, ce);
    case Start(noise) => QueueInRun(setup, w, Q.Start(noise));
    case Encrypted(ok) => QueueInRun(setup, w, Q.Encrypted(ok));
    case Wrote(ok) => QueueInRun(setup, w, Q.Wrote(ok));
  }

  lemma {:induction false} RunIsSound(setup: Setup, events: seq<Event>)
    requires setup.Good()
    ensures var w := Run(setup, events); Sound(setup, w.s, Hand(setup, w), Client(setup, w))
  {
    if events != [] {
      RunIsSound(setup, events[..|events| - 1]);
      StepInRun(setup, Run(setup, events[..|events| - 1]), events[|events| - 1]);
    }
  }

  function ParcelOf(e: Q.Entry): Parcel {
    Parcel(e.payload, if Q.IsSealed(e) then Sealed else Clear)
  }

  // ---------------------------------------------------------------------
  // After the end

  predicate GivenUp(setup: Setup, w: World) {
    Lost(Hand(setup, w)) || (w.chan.Some? && GivesUp(Client(setup, w).value))
  }

  lemma LostIsDoomed(setup: Setup, s: Q.Sender, h: H.State, h': H.State)
    requires Lost(h') && !Lost(h)
    ensures Q.Doomed(AfterShake(setup, s, h, h'), |s.log| + |Q.Active(s)|)
  {
    var s1 := Keyed(setup, s, h, h');
    var s2 := Q.Step(setup.aead, s1, Q.Destroy);
    Q.DestroyDooms(setup.aead, s1);
    var asked := Asked(h'.trace);
    if |asked| > |Asked(h.trace)| {
      Q.StepKeepsDoomed(setup.aead, s2, Q.Call(asked[|asked| - 1].payload), |s.log| + |Q.Active(s)|);
    }
  }

  lemma ShakeGivesUp(setup: Setup, w: World, e: H.Event)
    requires !GivenUp(setup, w) && GivenUp(setup, Step(setup, w, Shake(e)))
    ensures Q.Doomed(Step(setup, w, Shake(e)).s, |w.s.log| + |Q.Active(w.s)|)
  {
    var h := H.Run(setup.cfg, w.shakes);
    if w.chan.None? && May(h, w.s, e) {
      RunPush(setup.cfg, w.shakes, e);
      LostIsDoomed(setup, w.s, h, H.Step(setup.cfg, h, e));
    }
  }

  lemma ChanGivesUp(setup: Setup, w: World, e: C.Event)
    requires !GivenUp(setup, w) && GivenUp(setup, Step(setup, w, Chan(e)))
    ensures Q.Doomed(Step(setup, w, Chan(e)).s, |w.s.log| + |Q.Active(w.s)|)
  {
    var c := C.Run(w.chan.value, setup.options);
    ChanPush(w.chan.value, e, setup.options);
    var c' := C.Step(c, e, setup.options);
    Q.DestroyDooms(setup.aead, AfterPost(setup, w.s, c, c'));
  }

  lemma OpenIsNoEnd(setup: Setup, w: World)
    requires !GivenUp(setup, w)
    ensures !GivenUp(setup, Step(setup, w, Open))
  {
    assert C.Run([], setup.options) == C.START;
  }

  lemma StepGivesUp(setup: Setup, w: World, e: Event)
    requires !GivenUp(setup, w) && GivenUp(setup, Step(setup, w, e))
    ensures Q.Doomed(Step(setup, w, e).s, |w.s.log| + |Q.Active(w.s)|)
  {
    match e
    case Shake(he) => ShakeGivesUp(setup, w, he);
    case Open => OpenIsNoEnd(setup, w);
    case Chan(ce) => ChanGivesUp(setup, w, ce);
    case _ =>
  }

  lemma AfterShakeDoomed(setup: Setup, s: Q.Sender, h: H.State, h': H.State, started: nat)
    requires Q.Doomed(s, started)
    ensures Q.Doomed(AfterShake(setup, s, h, h'), started)
  {
    var s1, s2 := Keyed(setup, s, h, h'), Ready(setup, s, h, h');
    Q.StepKeepsDoomed(setup.aead, s, Q.Enable(setup.direction(h.t)), started);
    Q.StepKeepsDoomed(setup.aead, s1, Q.Destroy, started);
    var asked := Asked(h'.trace);
    if |asked| > |Asked(h.trace)| {
      Q.StepKeepsDoomed(setup.aead, s2, Q.Call(asked[|asked| - 1].payload), started);
    }
  }

  lemma AfterChanDoomed(setup: Setup, s: Q.Sender, c: C.Client, c': C.Client, started: nat)
    requires Q.Doomed(s, started)
    ensures Q.Doomed(AfterChan(setup, s, c, c'), started)
  {
    if |c'.out| > |c.out| {
      Q.StepKeepsDoomed(setup.aead, s, Q.Call(c'.out[|c'.out| - 1].Payload()), started);
    }
    Q.StepKeepsDoomed(setup.aead, AfterPost(setup, s, c, c'), Q.Destroy, started);
  }

  lemma StepKeepsDoomed(setup: Setup, w: World, e: Event, started: nat)
    requires Q.Doomed(w.s, started)
    ensures Q.Doomed(Step(setup, w, e).s, started)
  {
    match e
    case Shake(he) =>
      AfterShakeDoomed(setup, w.s, Hand(setup, w), H.Step(setup.cfg, Hand(setup, w), he), started);
    case Open => Q.StepKeepsDoomed(setup.aead, w.s, Q.Call(C.OPENING.Payload()), started);
    case Chan(ce) =>
      if w.chan.Some? {
        var c := C.Run(w.chan.value, setup.options);
        AfterChanDoomed(setup, w.s, c, C.Step(c, ce, setup.options), started);
      }
    case Start(noise) => Q.StepKeepsDoomed(setup.aead, w.s, Q.Start(noise), started);
    case Encrypted(ok) => Q.StepKeepsDoomed(setup.aead, w.s, Q.Encrypted(ok), started);
    case Wrote(ok) => Q.StepKeepsDoomed(setup.aead, w.s, Q.Wrote(ok), started);
  }

  lemma RunPushes(setup: Setup, events: seq<Event>, e: Event)
    ensures Run(setup, events + [e]) == Step(setup, Run(setup, events), e)
  {
    assert (events + [e])[..|events|] == events;
  }

  lemma {:induction false} DoomedForEver(setup: Setup, events: seq<Event>, more: seq<Event>, started: nat)
    requires Q.Doomed(Run(setup, events).s, started)
    ensures Q.Doomed(Run(setup, events + more).s, started)
  {
    if more == [] {
      assert events + more == events;
    } else {
      var before, e := more[..|more| - 1], more[|more| - 1];
      DoomedForEver(setup, events, before, started);
      assert events + more == events + before + [e];
      RunPushes(setup, events + before, e);
      StepKeepsDoomed(setup, Run(setup, events + before), e, started);
    }
  }

  /**
   * When the handshake times out or fails, the shell cannot be opened or the
   * session ends, every packet whose send had not started is refused, and so
   * is every later one, whatever happens afterwards.
   */
  lemma NothingLeavesAfterTheEnd(setup: Setup, events: seq<Event>, e: Event, more: seq<Event>)
    requires !GivenUp(setup, Run(setup, events)) && GivenUp(setup, Run(setup, events + [e]))
    ensures var w, s := Run(setup, events), Run(setup, events + [e] + more).s;
            var started := |w.s.log| + |Q.Active(w.s)|;
            && s.zeroed && |s.log| + |Q.Active(s)| >= started
            && (!s.phase.Idle? ==> |s.log| < started)
            && forall k | started <= k < |s.log| :: s.log[k].outcome.Refused?
  {
    RunPushes(setup, events, e);
    StepGivesUp(setup, Run(setup, events), e);
    DoomedForEver(setup, events + [e], more, |Run(setup, events).s.log| + |Q.Active(Run(setup, events).s)|);
  }

  // ---------------------------------------------------------------------
  // What is on the wire

  /** This entry is what became of this parcel: if written, one whole frame of it in its mode. */
  ghost predicate Carries(aead: Aead, e: Q.Entry, p: Parcel) {
    && e.payload == p.payload
    && (e.outcome.Written? ==>
          p.mode == (if Q.IsSealed(e) then Sealed else Clear)
          && Q.WholeFrame(aead, p.payload, e.outcome.frame, e.outcome.sealedBy, e.outcome.pad))
  }

  lemma KeepsCarries(setup: Setup, s: Q.Sender, parcels: seq<Parcel>, k: nat)
    requires Keeps(setup, s, parcels) && k < |s.log|
    ensures |s.log| <= |parcels| && Carries(setup.aead, s.log[k], parcels[k])
    ensures s.log[k].outcome.Written? ==> parcels[k] == ParcelOf(s.log[k])
  {
    assert Contents(parcels) == Q.Payloads(s.log) + (Q.Active(s) + s.queue);
    assert LoggedInMode(s.log[k], parcels[k]);
    assert Q.Payloads(s.log)[k] == Contents(parcels)[k];
  }

  /**
   * What has settled is a prefix of what the client asked to send, in order:
   * the handshake's packets, then the channel's messages. Each written frame
   * is whole, and sealed exactly if the handshake holds it to be or it belongs
   * to the channel.
   */
  lemma WireFollowsClient(setup: Setup, events: seq<Event>)
    requires setup.Good()
    ensures var w := Run(setup, events);
            var parcels := Parcels(Hand(setup, w).trace, Client(setup, w));
            && |w.s.log| <= |parcels|
            && forall k | 0 <= k < |w.s.log| :: Carries(setup.aead, w.s.log[k], parcels[k])
  {
    RunIsSound(setup, events);
    var w := Run(setup, events);
    var parcels := Parcels(Hand(setup, w).trace, Client(setup, w));
    forall k | 0 <= k < |w.s.log|
      ensures Carries(setup.aead, w.s.log[k], parcels[k])
    {
      KeepsCarries(setup, w.s, parcels, k);
    }
  }

  ghost predicate AskedAt(trace: seq<H.Act>, i: nat, p: Parcel) {
    i < |trace| && IsSend(trace[i]) && p == Parcel(trace[i].payload, ModeOf(trace[i]))
  }

  lemma {:induction false} AskedBySend(trace: seq<H.Act>, k: nat)
    requires k < |Asked(trace)|
    ensures exists i: nat :: AskedAt(trace, i, Asked(trace)[k])
  {
    var before := trace[..|trace| - 1];
    if k < |Asked(before)| {
      AskedBySend(before, k);
      var i: nat :| AskedAt(before, i, Asked(before)[k]);
      assert AskedAt(trace, i, Asked(trace)[k]);
    } else {
      assert AskedAt(trace, |trace| - 1, Asked(trace)[k]);
    }
  }

  lemma ChannelSendsNoLogin(m: Messages.ClientMsg)
    ensures !H.IsAuth(m.Payload())
  {
    assert m.Fields() != [] && m.Fields()[0].FByte? && m.Fields()[0].b != H.USERAUTH_REQUEST;
    H.EncodeStarts(m.Fields(), m.Fields()[0].b);
  }

  /** A frame sealed by the n-th use of this direction. */
  ghost predicate SealedBy(aead: Aead, e: Q.Entry, start: Direction, n: nat) {
    && e.outcome.Written? && |e.outcome.pad| < 256 && e.outcome.sealedBy == Some(start.Advance(n))
    && e.outcome.frame == GcmFrame(aead, start.Advance(n), e.payload, e.outcome.pad)
  }

  lemma SealerIsInStep(s: Q.Sender, k: nat)
    requires Q.CounterInStep(s) && k < |s.log| && Q.IsSealed(s.log[k])
    ensures s.start.Some? && exists n: nat :: s.log[k].outcome.sealedBy == Some(s.start.value.Advance(n))
  {
    SealerListed(s.log, k);
    var n: nat :| n < |Q.Sealers(s.log)| && s.log[k].outcome.sealedBy == Some(Q.Sealers(s.log)[n]);
    assert Q.SealersSoFar(s)[n] == Q.Sealers(s.log)[n];
  }

  lemma {:induction false} SealerListed(log: seq<Q.Entry>, k: nat)
    requires k < |log| && Q.IsSealed(log[k])
    ensures exists n: nat :: n < |Q.Sealers(log)| && log[k].outcome.sealedBy == Some(Q.Sealers(log)[n])
  {
    var last := |log| - 1;
    if k < last {
      SealerListed(log[..last], k);
      var n: nat :| n < |Q.Sealers(log[..last])| && log[k].outcome.sealedBy == Some(Q.Sealers(log[..last])[n]);
      assert Q.Sealers(log)[n] == Q.Sealers(log[..last])[n];
    } else {
      assert Q.Sealers(log)[|Q.Sealers(log[..last])|] == log[k].outcome.sealedBy.value;
    }
  }

  lemma PostedIsNoLogin(out: seq<Messages.ClientMsg>, k: nat)
    requires k < |out|
    ensures !H.IsAuth(Posted(out)[k].payload)
  {
    ChannelSendsNoLogin(out[k]);
  }

  /** A login among the parcels was asked for by the handshake, since the channel sends none. */
  lemma LoginWasAsked(trace: seq<H.Act>, client: Option<C.Client>, k: nat)
    requires k < |Parcels(trace, client)| && H.IsAuth(Parcels(trace, client)[k].payload)
    ensures exists i: nat :: AskedAt(trace, i, Parcels(trace, client)[k])
  {
    if client.Some? {
      forall j: nat | j < |client.value.out|
        ensures !H.IsAuth(Posted(client.value.out)[j].payload)
      {
        PostedIsNoLogin(client.value.out, j);
      }
    }
    assert k < |Asked(trace)|;
    AskedBySend(trace, k);
  }

  ghost predicate Justified(setup: Setup, shakes: seq<H.Event>, i: nat, login: Bytes) {
    i < |H.Run(setup.cfg, shakes).trace| && H.AuthJustified(setup.cfg, shakes, i, login)
  }

  lemma AskedLoginIsJustified(setup: Setup, shakes: seq<H.Event>, i: nat, p: Parcel)
    requires setup.Good() && H.IsAuth(p.payload) && AskedAt(H.Run(setup.cfg, shakes).trace, i, p)
    ensures p.mode != Clear && (p.mode == Sealed ==> Justified(setup, shakes, i, p.payload))
  {
    H.AuthOnlyAfterVerifiedHost(setup.cfg, shakes, i);
  }

  lemma WrittenIsSealedBy(setup: Setup, s: Q.Sender, parcels: seq<Parcel>, k: nat)
    requires Keeps(setup, s, parcels) && k < |s.log| && s.log[k].outcome.Written? && Q.IsSealed(s.log[k])
    ensures s.start.Some? && exists n: nat :: SealedBy(setup.aead, s.log[k], s.start.value, n)
  {
    KeepsCarries(setup, s, parcels, k);
    SealerIsInStep(s, k);
    var n: nat :| s.log[k].outcome.sealedBy == Some(s.start.value.Advance(n));
    assert SealedBy(setup.aead, s.log[k], s.start.value, n);
  }

  lemma StartIsDerived(setup: Setup, s: Q.Sender, h: H.State, client: Option<C.Client>)
    requires Sound(setup, s, h, client) && s.start.Some?
    ensures s.start.value == setup.direction(h.t)
  {
  }

  /**
   * Every login that reaches the wire, in every run of the whole client, is a
   * sealed frame under the direction this exchange derived, and was justified
   * when the handshake handed it over.
   */
  lemma LoginIsSealed(setup: Setup, events: seq<Event>, k: nat)
    requires setup.Good() && k < |Run(setup, events).s.log|
    requires Run(setup, events).s.log[k].outcome.Written? && H.IsAuth(Run(setup, events).s.log[k].payload)
    ensures var w := Run(setup, events);
            && (exists n: nat :: SealedBy(setup.aead, w.s.log[k], setup.direction(Hand(setup, w).t), n))
            && IsSendingDirection(setup.cfg.suite, Hand(setup, w).t, setup.direction(Hand(setup, w).t))
            && (exists i: nat :: Justified(setup, w.shakes, i, w.s.log[k].payload))
  {
    RunIsSound(setup, events);
    var w := Run(setup, events);
    var h, e := Hand(setup, w), w.s.log[k];
    KeepsCarries(setup, w.s, Parcels(h.trace, Client(setup, w)), k);
    LoginWasAsked(h.trace, Client(setup, w), k);
    var i: nat :| AskedAt(h.trace, i, ParcelOf(e));
    AskedLoginIsJustified(setup, w.shakes, i, ParcelOf(e));
    WrittenIsSealedBy(setup, w.s, Parcels(h.trace, Client(setup, w)), k);
    StartIsDerived(setup, w.s, h, Client(setup, w));
    SendingDirectionIsDerived(setup.cfg.suite, h.t);
  }
}
