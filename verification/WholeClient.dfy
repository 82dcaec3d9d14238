/**
 * What the peer of a whole client reads: in every run in which nobody asks
 * the client for something between its NEWKEYS and GCM, its packets are sealed
 * exactly from NEWKEYS on, so that a peer which switches there reads them all.
 */
module WholeClient {
  import opened Wrappers
  import opened ByteStrings
  import opened Kex
  import opened Framing
  import opened Connection
  import Stream
  import Messages
  import P = Packets
  import Q = SendQueue
  import D = Delivery
  import H = Handshake
  import K = NewKeys
  import C = Channel

  const SWITCH := Parcel([H.NEWKEYS], Clear)

  /** This parcel is sealed exactly if NEWKEYS was handed over before it. */
  ghost predicate TurnsAt(parcels: seq<Parcel>, k: nat)
    requires k < |parcels|
  {
    && (parcels[k].mode.Sealed? ==> SWITCH in parcels[..k])
    && (parcels[k].mode.Clear? ==> SWITCH !in parcels[..k])
  }

  ghost predicate Turns(parcels: seq<Parcel>) {
    forall k | 0 <= k < |parcels| :: TurnsAt(parcels, k)
  }

  lemma TurnsPush(parcels: seq<Parcel>, p: Parcel)
    requires Turns(parcels)
    requires (p.mode.Sealed? ==> SWITCH in parcels) && (p.mode.Clear? ==> SWITCH !in parcels)
    ensures Turns(parcels + [p])
  {
    forall k | 0 <= k < |parcels| + 1
      ensures TurnsAt(parcels + [p], k)
    {
      assert (parcels + [p])[..k] == parcels[..k];
      assert parcels[..|parcels|] == parcels;
      assert k < |parcels| ==> TurnsAt(parcels, k);
    }
  }

  ghost predicate TurnsLike(parcels: seq<Parcel>, trace: seq<H.Act>) {
    && Turns(parcels) && (SWITCH in parcels <==> K.SentNewKeys(trace))
    && (H.GcmOn in trace ==> K.SentNewKeys(trace))
  }

  lemma ActTurns(cfg: H.Config, past: seq<H.Act>, a: H.Act)
    requires H.ActSound(cfg, past, a) && !(a.SentClear? && K.SentNewKeys(past))
    requires TurnsLike(Asked(past), past)
    ensures TurnsLike(Asked(past) + if IsSend(a) then [Parcel(a.payload, ModeOf(a))] else [], past + [a])
  {
    if IsSend(a) {
      TurnsPush(Asked(past), Parcel(a.payload, ModeOf(a)));
    } else {
      assert Asked(past) + [] == Asked(past);
    }
  }

  /** The handshake's own packets turn at NEWKEYS unless one leaves in the clear after it. */
  lemma {:induction false} AskedTurns(cfg: H.Config, trace: seq<H.Act>)
    requires H.TraceSound(cfg, trace) && !K.ClearAfterNewKeys(trace)
    ensures TurnsLike(Asked(trace), trace)
  {
    if trace != [] {
      var past, a := trace[..|trace| - 1], trace[|trace| - 1];
      assert trace == past + [a];
      assert forall i | 0 <= i < |past| :: past[..i] == trace[..i];
      AskedTurns(cfg, past);
      assert H.ActSound(cfg, past, a);
      K.Appended(past, a);
      ActTurns(cfg, past, a);
      AskedPush(past, a);
    }
  }

  lemma PostedTurns(parcels: seq<Parcel>, out: seq<Messages.ClientMsg>)
    requires Turns(parcels) && SWITCH in parcels
    ensures Turns(parcels + Posted(out))
  {
    var all := parcels + Posted(out);
    forall k | 0 <= k < |all|
      ensures TurnsAt(all, k)
    {
      if k < |parcels| {
        assert all[..k] == parcels[..k] && TurnsAt(parcels, k);
      } else {
        assert all[..k] == parcels + Posted(out)[..k - |parcels|];
      }
    }
  }

  lemma {:induction false} OpensWhenFinished(setup: Setup, events: seq<Event>)
    ensures var w := Run(setup, events); w.chan.Some? ==> Hand(setup, w).pc.Finished?
  {
    if events != [] {
      OpensWhenFinished(setup, events[..|events| - 1]);
    }
  }

  lemma ShakesTurn(cfg: H.Config, shakes: seq<H.Event>)
    requires cfg.WellFormed() && !K.AskedBetween(H.Run(cfg, shakes).trace)
    ensures Turns(Asked(H.Run(cfg, shakes).trace))
    ensures H.Run(cfg, shakes).pc.Finished? ==> SWITCH in Asked(H.Run(cfg, shakes).trace)
  {
    K.ClearAfterNewKeysExactly(cfg, shakes);
    H.RunIsSound(cfg, shakes);
    AskedTurns(cfg, H.Run(cfg, shakes).trace);
  }

  lemma WithPosted(trace: seq<H.Act>, client: Option<C.Client>)
    requires Turns(Asked(trace)) && (client.Some? ==> SWITCH in Asked(trace))
    ensures Turns(Parcels(trace, client))
  {
    if client.Some? {
      PostedTurns(Asked(trace), client.value.out);
    } else {
      assert Parcels(trace, None) == Asked(trace);
    }
  }

  lemma ParcelsTurn(setup: Setup, events: seq<Event>)
    requires setup.Good() && !K.AskedBetween(Hand(setup, Run(setup, events)).trace)
    ensures var w := Run(setup, events); Turns(Parcels(Hand(setup, w).trace, Client(setup, w)))
  {
    var w := Run(setup, events);
    ShakesTurn(setup.cfg, w.shakes);
    OpensWhenFinished(setup, events);
    WithPosted(Hand(setup, w).trace, Client(setup, w));
  }

  // ---------------------------------------------------------------------
  // The queue of a client is a run of the send queue

  function Maybe(b: bool, e: Q.Event): seq<Q.Event> {
    if b then [e] else []
  }

  function LastAsked(h: H.State): Bytes {
    if Asked(h.trace) == [] then [] else Asked(h.trace)[|Asked(h.trace)| - 1].payload
  }

  function LastOut(c: C.Client): Bytes {
    if c.out == [] then [] else c.out[|c.out| - 1].Payload()
  }

  function ShakeFeeds(setup: Setup, h: H.State, h': H.State): seq<Q.Event> {
    Maybe(h'.gcm && !h.gcm, Q.Enable(setup.direction(h.t)))
    + Maybe(Lost(h') && !Lost(h), Q.Destroy)
    + Maybe(|Asked(h'.trace)| > |Asked(h.trace)|, Q.Call(LastAsked(h')))
  }

  function ChanFeeds(c: C.Client, c': C.Client): seq<Q.Event> {
    Maybe(|c'.out| > |c.out|, Q.Call(LastOut(c'))) + Maybe(GivesUp(c') && !GivesUp(c), Q.Destroy)
  }

  /** What the send queue hears of one step of the client. */
  function Feeds(setup: Setup, w: World, e: Event): seq<Q.Event> {
    match e
    case Shake(he) =>
      var h := Hand(setup, w);
      if w.chan.Some? || !May(h, w.s, he) then [] else ShakeFeeds(setup, h, H.Step(setup.cfg, h, he))
    case Open =>
      var h := Hand(setup, w);
      Maybe(w.chan.None? && h.pc.Finished? && !h.zeroed, Q.Call(C.OPENING.Payload()))
    case Chan(ce) =>
      if w.chan.None? then []
      else
        var c := C.Run(w.chan.value, setup.options);
        ChanFeeds(c, C.Step(c, ce, setup.options))
    case Start(noise) => [Q.Start(noise)]
    case Encrypted(ok) => [Q.Encrypted(ok)]
    case Wrote(ok) => [Q.Wrote(ok)]
  }

  function Fed(setup: Setup, events: seq<Event>): seq<Q.Event> {
    if events == [] then []
    else
      var before := events[..|events| - 1];
      Fed(setup, before) + Feeds(setup, Run(setup, before), events[|events| - 1])
  }

  lemma MaybeRuns(aead: Aead, fed: seq<Q.Event>, b: bool, e: Q.Event)
    ensures Q.Run(aead, fed + Maybe(b, e)) == if b then Q.Step(aead, Q.Run(aead, fed), e) else Q.Run(aead, fed)
  {
    if b {
      Q.RunPush(aead, fed, e);
    } else {
      assert fed + [] == fed;
    }
  }

  lemma Regroup(fed: seq<Q.Event>, a: seq<Q.Event>, b: seq<Q.Event>, c: seq<Q.Event>)
    ensures fed + (a + b + c) == fed + a + b + c
  {
  }

  lemma ThreeRun(aead: Aead, fed: seq<Q.Event>, b: bool, e: Q.Event, b1: bool, e1: Q.Event, b2: bool, e2: Q.Event)
    ensures var s := Q.Run(aead, fed);
            var s1 := if b then Q.Step(aead, s, e) else s;
            var s2 := if b1 then Q.Step(aead, s1, e1) else s1;
            Q.Run(aead, fed + (Maybe(b, e) + Maybe(b1, e1) + Maybe(b2, e2)))
            == if b2 then Q.Step(aead, s2, e2) else s2
  {
    var fed1 := fed + Maybe(b, e);
    var fed2 := fed1 + Maybe(b1, e1);
    MaybeRuns(aead, fed, b, e);
    MaybeRuns(aead, fed1, b1, e1);
    MaybeRuns(aead, fed2, b2, e2);
    Regroup(fed, Maybe(b, e), Maybe(b1, e1), Maybe(b2, e2));
  }

  lemma ShakeIsFed(setup: Setup, fed: seq<Q.Event>, h: H.State, h': H.State)
    ensures Q.Run(setup.aead, fed + ShakeFeeds(setup, h, h')) == AfterShake(setup, Q.Run(setup.aead, fed), h, h')
  {
    ThreeRun(setup.aead, fed, h'.gcm && !h.gcm, Q.Enable(setup.direction(h.t)), Lost(h') && !Lost(h), Q.Destroy,
             |Asked(h'.trace)| > |Asked(h.trace)|, Q.Call(LastAsked(h')));
  }

  lemma ChanIsFed(setup: Setup, fed: seq<Q.Event>, c: C.Client, c': C.Client)
    ensures Q.Run(setup.aead, fed + ChanFeeds(c, c')) == AfterChan(setup, Q.Run(setup.aead, fed), c, c')
  {
    var call := Maybe(|c'.out| > |c.out|, Q.Call(LastOut(c')));
    MaybeRuns(setup.aead, fed, |c'.out| > |c.out|, Q.Call(LastOut(c')));
    MaybeRuns(setup.aead, fed + call, GivesUp(c') && !GivesUp(c), Q.Destroy);
    assert fed + ChanFeeds(c, c') == fed + call + Maybe(GivesUp(c') && !GivesUp(c), Q.Destroy);
  }

  lemma OpenIsFed(setup: Setup, fed: seq<Q.Event>, w: World)
    requires w.s == Q.Run(setup.aead, fed)
    ensures Step(setup, w, Open).s == Q.Run(setup.aead, fed + Feeds(setup, w, Open))
  {
    var h := Hand(setup, w);
    MaybeRuns(setup.aead, fed, w.chan.None? && h.pc.Finished? && !h.zeroed, Q.Call(C.OPENING.Payload()));
  }

  lemma TaskIsFed(setup: Setup, fed: seq<Q.Event>, w: World, e: Event)
    requires w.s == Q.Run(setup.aead, fed) && (e.Shake? || e.Chan?)
    ensures Step(setup, w, e).s == Q.Run(setup.aead, fed + Feeds(setup, w, e))
  {
    assert fed + [] == fed;
    if e.Shake? {
      ShakeIsFed(setup, fed, Hand(setup, w), H.Step(setup.cfg, Hand(setup, w), e.e));
    } else if w.chan.Some? {
      var c := C.Run(w.chan.value, setup.options);
      ChanIsFed(setup, fed, c, C.Step(c, e.c, setup.options));
    }
  }

  lemma StepIsFed(setup: Setup, fed: seq<Q.Event>, w: World, e: Event)
    requires w.s == Q.Run(setup.aead, fed)
    ensures Step(setup, w, e).s == Q.Run(setup.aead, fed + Feeds(setup, w, e))
  {
    match e
    case Open => OpenIsFed(setup, fed, w);
    case Start(noise) => Q.RunPush(setup.aead, fed, Q.Start(noise));
    case Encrypted(ok) => Q.RunPush(setup.aead, fed, Q.Encrypted(ok));
    case Wrote(ok) => Q.RunPush(setup.aead, fed, Q.Wrote(ok));
    case _ => TaskIsFed(setup, fed, w, e);
  }

  /** So all that is proved of the send queue's runs holds of a client's queue. */
  lemma {:induction false} QueueIsFed(setup: Setup, events: seq<Event>)
    ensures Run(setup, events).s == Q.Run(setup.aead, Fed(setup, events))
  {
    if events != [] {
      var before, e := events[..|events| - 1], events[|events| - 1];
      QueueIsFed(setup, before);
      StepIsFed(setup, Fed(setup, before), Run(setup, before), e);
    }
  }

  lemma ShakeFeedsAreGood(setup: Setup, h: H.State, h': H.State)
    ensures Q.GoodDirections(ShakeFeeds(setup, h, h'))
  {
  }

  lemma ChanFeedsAreGood(c: C.Client, c': C.Client)
    ensures Q.GoodDirections(ChanFeeds(c, c'))
  {
  }

  lemma FeedsAreGood(setup: Setup, w: World, e: Event)
    ensures Q.GoodDirections(Feeds(setup, w, e))
  {
    match e
    case Shake(he) => ShakeFeedsAreGood(setup, Hand(setup, w), H.Step(setup.cfg, Hand(setup, w), he));
    case Chan(ce) =>
      if w.chan.Some? {
        var c := C.Run(w.chan.value, setup.options);
        ChanFeedsAreGood(c, C.Step(c, ce, setup.options));
      }
    case _ =>
  }

  lemma {:induction false} FedIsGood(setup: Setup, events: seq<Event>)
    ensures Q.GoodDirections(Fed(setup, events))
  {
    if events != [] {
      var before, e := events[..|events| - 1], events[|events| - 1];
      FedIsGood(setup, before);
      FeedsAreGood(setup, Run(setup, before), e);
    }
  }

  // ---------------------------------------------------------------------
  // The switch on the wire

  /** NEWKEYS was written by then. */
  ghost predicate Announced(log: seq<Q.Entry>) {
    exists j :: 0 <= j < |log| && log[j].outcome.Written? && log[j].payload == D.NEWKEYS
  }

  /** This entry, if written, is sealed exactly if NEWKEYS was written before it. */
  ghost predicate SealedInTurn(log: seq<Q.Entry>, k: nat)
    requires k < |log|
  {
    log[k].outcome.Written? ==> (Q.IsSealed(log[k]) <==> Announced(log[..k]))
  }

  lemma SealedAfterSwitch(setup: Setup, s: Q.Sender, parcels: seq<Parcel>, k: nat)
    requires Keeps(setup, s, parcels) && Q.RefusedStay(s) && Turns(parcels)
    requires k < |s.log| && s.log[k].outcome.Written? && Q.IsSealed(s.log[k])
    ensures Announced(s.log[..k])
  {
    KeepsCarries(setup, s, parcels, k);
    assert TurnsAt(parcels, k);
    var j: nat :| j < k && parcels[j] == SWITCH;
    KeepsCarries(setup, s, parcels, j);
    assert LoggedInMode(s.log[j], parcels[j]);
    assert s.log[j].outcome.Written? && s.log[..k][j] == s.log[j];
  }

  lemma SwitchSealsLater(setup: Setup, s: Q.Sender, parcels: seq<Parcel>, j: nat, k: nat)
    requires Keeps(setup, s, parcels) && Turns(parcels) && j < k < |s.log| && s.log[k].outcome.Written?
    requires s.log[j].outcome.Written? && s.log[j].payload == D.NEWKEYS
    ensures Q.IsSealed(s.log[k])
  {
    KeepsCarries(setup, s, parcels, j);
    KeepsCarries(setup, s, parcels, k);
    assert TurnsAt(parcels, k) && parcels[..k][j] == parcels[j];
  }

  lemma AllInTurn(setup: Setup, s: Q.Sender, parcels: seq<Parcel>, k: nat)
    requires Keeps(setup, s, parcels) && Q.RefusedStay(s) && Turns(parcels) && k < |s.log|
    ensures SealedInTurn(s.log, k)
  {
    if s.log[k].outcome.Written? {
      if Q.IsSealed(s.log[k]) {
        SealedAfterSwitch(setup, s, parcels, k);
      }
      if Announced(s.log[..k]) {
        var j: nat :| j < k && s.log[..k][j].outcome.Written? && s.log[..k][j].payload == D.NEWKEYS;
        SwitchSealsLater(setup, s, parcels, j, k);
      }
    }
  }

  lemma AnnouncedNext(log: seq<Q.Entry>, i: nat)
    requires i < |log|
    ensures Announced(log[..i + 1])
      <==> Announced(log[..i]) || (log[i].outcome.Written? && log[i].payload == D.NEWKEYS)
  {
    if Announced(log[..i]) {
      var j: nat :| j < i && log[..i][j].outcome.Written? && log[..i][j].payload == D.NEWKEYS;
      assert log[..i + 1][j] == log[..i][j];
    }
    assert log[..i + 1][i] == log[i];
    forall j | 0 <= j < i
      ensures log[..i + 1][j] == log[..i][j]
    {
    }
  }

  lemma {:induction false} WireSwitches(log: seq<Q.Entry>, i: nat)
    requires i <= |log| && forall k | 0 <= k < |log| :: SealedInTurn(log, k)
    ensures D.SwitchesAtNewKeys(D.OnWire(log[i..]), Announced(log[..i]))
    decreases |log| - i
  {
    if i < |log| {
      WireSwitches(log, i + 1);
      AnnouncedNext(log, i);
      assert log[i..][1..] == log[i + 1..] && SealedInTurn(log, i);
      if log[i].outcome.Written? && log[i].outcome.ok {
        assert D.OnWire(log[i..])[1..] == D.OnWire(log[i + 1..]);
      }
    }
  }

  /**
   * In every run of a client that nobody asks for a reply between NEWKEYS and
   * GCM, however sends fail and whatever else happens, the packets that reach
   * the wire are in the clear up to NEWKEYS and sealed from then on.
   */
  lemma ClientSwitchesAtNewKeys(setup: Setup, events: seq<Event>)
    requires setup.Good() && !K.AskedBetween(Hand(setup, Run(setup, events)).trace)
    ensures D.SwitchesAtNewKeys(D.OnWire(Run(setup, events).s.log), false)
  {
    var w := Run(setup, events);
    var parcels := Parcels(Hand(setup, w).trace, Client(setup, w));
    RunIsSound(setup, events);
    ParcelsTurn(setup, events);
    QueueIsFed(setup, events);
    Q.RefusedStayRefused(setup.aead, Fed(setup, events));
    forall k | 0 <= k < |w.s.log|
      ensures SealedInTurn(w.s.log, k)
    {
      AllInTurn(setup, w.s, parcels, k);
    }
    WireSwitches(w.s.log, 0);
    assert w.s.log[0..] == w.s.log;
  }

  // ---------------------------------------------------------------------
  // The peer

  ghost predicate RefusedLast(log: seq<Q.Entry>) {
    forall i, j | 0 <= i < j < |log| && log[i].outcome.Refused? :: log[j].outcome.Refused?
  }

  lemma {:induction false} NothingOnWire(log: seq<Q.Entry>)
    requires forall e <- log :: !e.outcome.Written?
    ensures D.OnWire(log) == []
  {
    if log != [] {
      NothingOnWire(log[1..]);
    }
  }

  lemma PayloadsFront(first: Q.Entry, others: seq<Q.Entry>)
    ensures Q.Payloads([first] + others) == [first.payload] + Q.Payloads(others)
  {
  }

  lemma NoGapBefore(first: Q.Entry, others: seq<Q.Entry>)
    requires first.outcome.Written? && Q.Payloads(D.OnWire(others)) <= Q.Payloads(others)
    ensures Q.Payloads(D.OnWire([first] + others)) <= Q.Payloads([first] + others)
  {
    assert ([first] + others)[1..] == others;
    if first.outcome.ok {
      PayloadsFront(first, others);
      PayloadsFront(first, D.OnWire(others));
      assert D.OnWire([first] + others) == [first] + D.OnWire(others);
    }
  }

  /** Only a failed encryption leaves a gap in what reaches the wire. */
  lemma {:induction false} NoGaps(log: seq<Q.Entry>)
    requires RefusedLast(log) && forall e <- log :: !e.outcome.EncryptFailed?
    ensures Q.Payloads(D.OnWire(log)) <= Q.Payloads(log)
  {
    if log != [] {
      if log[0].outcome.Refused? {
        NothingOnWire(log);
      } else {
        NoGaps(log[1..]);
        NoGapBefore(log[0], log[1..]);
        assert log == [log[0]] + log[1..];
      }
    }
  }

  /** Whoever derives key C and IV A from the same exchange has the client's direction. */
  lemma DirectionIsUnique(suite: H.Suite, t: ExchangeHashInput, key: Bytes, iv: Bytes)
    requires Digest32(suite.hash)
    requires IsDerivedKey(Keys(suite, t, LETTER_C), 32, key) && IsDerivedKey(Keys(suite, t, LETTER_A), P.IV_LEN, iv)
    ensures P.DirectionFrom(key, iv) == SendingDirection(suite, t)
  {
    var c, a := Keys(suite, t, LETTER_C), Keys(suite, t, LETTER_A);
    CutIsDerived(c, 32);
    CutIsDerived(a, P.IV_LEN);
    DerivedKeysNest(c, 32, key, 32, Cut(c.Stream(1), 32));
    DerivedKeysNest(a, P.IV_LEN, iv, P.IV_LEN, Cut(a.Stream(1), P.IV_LEN));
    assert key == Cut(c.Stream(1), 32) && iv == Cut(a.Stream(1), P.IV_LEN);
  }

  lemma IdentIsALine()
    ensures D.GoodLines([H.CLIENT_IDENT])
  {
    var text := "SSH-2.0-SshTunnelSpike_0.1";
    forall i | 0 <= i < |H.CLIENT_IDENT|
      ensures H.CLIENT_IDENT[i] != Stream.LF
    {
      assert text[i] != '\n';
    }
  }

  /** What has reached the wire, without a failed encryption, is the first of what the client asked to send. */
  lemma WireIsFirst(setup: Setup, events: seq<Event>)
    requires setup.Good() && forall e <- Run(setup, events).s.log :: !e.outcome.EncryptFailed?
    ensures var w := Run(setup, events);
            Q.Payloads(D.OnWire(w.s.log)) <= Contents(Parcels(Hand(setup, w).trace, Client(setup, w)))
  {
    var w := Run(setup, events);
    RunIsSound(setup, events);
    QueueIsFed(setup, events);
    Q.RefusedStayRefused(setup.aead, Fed(setup, events));
    NoGaps(w.s.log);
    Q.OrderShows(w.s, Contents(Parcels(Hand(setup, w).trace, Client(setup, w))));
  }

  /**
   * The peer of any run of the whole client, with the key and the IV the
   * exchange derives for it: it reads the identification line and then just
   * the packets that reached the wire, for every cut of the bytes into chunks,
   * with no assumption about where the client switched to GCM.
   */
  method ReadClient(setup: Setup, chunks: seq<Bytes>, ending: Stream.Ending, key: Bytes, iv: Bytes, n: nat,
                    ghost events: seq<Event>, ghost tail: Bytes)
    returns (lines: seq<Bytes>, got: seq<Bytes>, packets: P.Packets)
    requires setup.Good() && setup.aead.Lawful()
    requires var t := Hand(setup, Run(setup, events)).t;
             && IsDerivedKey(Keys(setup.cfg.suite, t, LETTER_C), 32, key)
             && IsDerivedKey(Keys(setup.cfg.suite, t, LETTER_A), P.IV_LEN, iv)
    requires !K.AskedBetween(Hand(setup, Run(setup, events)).trace)
    requires n == |D.OnWire(Run(setup, events).s.log)| && D.WithinLimits(D.OnWire(Run(setup, events).s.log))
    requires Flatten(chunks)
          == D.LineBytes([H.CLIENT_IDENT]) + (D.WireBytes(D.OnWire(Run(setup, events).s.log)) + tail)
    ensures lines == [H.CLIENT_IDENT]
    ensures got == Q.Payloads(D.OnWire(Run(setup, events).s.log))
    ensures packets.stream.Unread() == tail
  {
    ghost var w := Run(setup, events);
    QueueIsFed(setup, events);
    FedIsGood(setup, events);
    RunIsSound(setup, events);
    if w.s.start.Some? {
      StartIsDerived(setup, w.s, Hand(setup, w), Client(setup, w));
    }
    DirectionIsUnique(setup.cfg.suite, Hand(setup, w).t, key, iv);
    ClientSwitchesAtNewKeys(setup, events);
    IdentIsALine();
    lines, got, packets :=
      D.ReadBack(setup.aead, chunks, ending, key, iv, 1, n, [H.CLIENT_IDENT], Fed(setup, events), tail);
  }
}
