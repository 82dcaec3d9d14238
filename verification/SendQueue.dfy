/**
 * The sending half of the packet layer as a step machine. A send() is cut at
 * its awaits: it is queued, started once the sends before it have settled,
 * encrypted, and written. New calls, the switch to GCM and destroy() may come
 * between any two steps; encryption and writing may each fail.
 */
module SendQueue {
  import opened Wrappers
  import opened ByteStrings
  import opened Framing

  /** How a send settled; a written frame keeps the direction that sealed it and its padding. */
  datatype Outcome =
    | Refused
    | EncryptFailed
    | Written(frame: Bytes, sealedBy: Option<Direction>, pad: Bytes, ok: bool)

  datatype Entry = Entry(payload: Bytes, outcome: Outcome)

  datatype Phase =
    | Idle
    | Encrypting(payload: Bytes, dir: Direction, pad: Bytes)
    | Writing(payload: Bytes, frame: Bytes, sealedBy: Option<Direction>, pad: Bytes)

  /** start is the direction enableGcm installed, out the one the next frame will use. */
  datatype Sender = Sender(
    zeroed: bool,
    start: Option<Direction>,
    out: Option<Direction>,
    queue: seq<Bytes>,
    phase: Phase,
    log: seq<Entry>)

  const Fresh := Sender(false, None, None, [], Idle, [])

  datatype Event =
    | Call(payload: Bytes)
    | Start(noise: Bytes)
    | Encrypted(ok: bool)
    | Wrote(ok: bool)
    | Enable(d: Direction)
    | Destroy

  /** n bytes of padding out of what the random source gave. */
  function PadBytes(noise: Bytes, n: nat): (pad: Bytes)
    ensures |pad| == n
  {
    if |noise| >= n then noise[..n] else noise + seq(n - |noise|, i => 0)
  }

  function Settle(s: Sender, payload: Bytes, outcome: Outcome): Sender {
    s.(phase := Idle, log := s.log + [Entry(payload, outcome)])
  }

  function StartSend(s: Sender, noise: Bytes): Sender
    requires s.phase.Idle? && s.queue != []
  {
    var p, s' := s.queue[0], s.(queue := s.queue[1..]);
    if s.zeroed then Settle(s', p, Refused)
    else if s.out.Some? then
      s'.(phase := Encrypting(p, s.out.value, PadBytes(noise, GcmPad(|p|))))
    else
      var pad := PadBytes(noise, ClearPad(|p|));
      s'.(phase := Writing(p, ClearFrame(p, pad), None, pad))
  }

  /** The counter moves on after a successful encryption, unless destroy() dropped it meanwhile. */
  function FinishEncrypt(aead: Aead, s: Sender, ok: bool): Sender
    requires s.phase.Encrypting? && |s.phase.pad| < 256
  {
    var Encrypting(p, d, pad) := s.phase;
    if !ok then Settle(s, p, EncryptFailed)
    else
      s.(phase := Writing(p, GcmFrame(aead, d, p, pad), Some(d), pad),
         out := if s.out.Some? then Some(s.out.value.Bump()) else None)
  }

  function FinishWrite(s: Sender, ok: bool): Sender
    requires s.phase.Writing?
  {
    Settle(s, s.phase.payload, Written(s.phase.frame, s.phase.sealedBy, s.phase.pad, ok))
  }

  /** An event that cannot happen in s leaves it alone. GCM is enabled once, as the handshake does. */
  function Step(aead: Aead, s: Sender, e: Event): Sender {
    match e
    case Call(p) => s.(queue := s.queue + [p])
    case Start(noise) => if s.phase.Idle? && s.queue != [] then StartSend(s, noise) else s
    case Encrypted(ok) => if s.phase.Encrypting? && |s.phase.pad| < 256 then FinishEncrypt(aead, s, ok) else s
    case Wrote(ok) => if s.phase.Writing? then FinishWrite(s, ok) else s
    case Enable(d) => if s.start.None? then s.(start := Some(d), out := Some(d)) else s
    case Destroy => s.(zeroed := true, out := None)
  }

  function Run(aead: Aead, events: seq<Event>): Sender {
    if events == [] then Fresh
    else Step(aead, Run(aead, events[..|events| - 1]), events[|events| - 1])
  }

  function Calls(events: seq<Event>): seq<Bytes> {
    if events == [] then []
    else
      var e := events[|events| - 1];
      Calls(events[..|events| - 1]) + if e.Call? then [e.payload] else []
  }

  // ---------------------------------------------------------------------
  // What every step keeps

  /** The frame is the whole encoding of this entry's payload, in the mode it was sealed with. */
  ghost predicate WholeFrame(aead: Aead, payload: Bytes, frame: Bytes, sealedBy: Option<Direction>, pad: Bytes) {
    match sealedBy
    case None => |pad| == ClearPad(|payload|) && frame == ClearFrame(payload, pad)
    case Some(d) => |pad| == GcmPad(|payload|) && frame == GcmFrame(aead, d, payload, pad)
  }

  function Active(s: Sender): seq<Bytes> {
    if s.phase.Idle? then [] else [s.phase.payload]
  }

  function Payloads(log: seq<Entry>): seq<Bytes> {
    seq(|log|, i requires 0 <= i < |log| => log[i].payload)
  }

  predicate IsSealed(e: Entry) {
    e.outcome.Written? && e.outcome.sealedBy.Some?
  }

  /** The directions that sealed frames, in the order the frames were written. */
  function Sealers(log: seq<Entry>): seq<Direction> {
    if log == [] then []
    else
      var e := log[|log| - 1];
      Sealers(log[..|log| - 1]) + if IsSealed(e) then [e.outcome.sealedBy.value] else []
  }

  function SealersSoFar(s: Sender): seq<Direction> {
    Sealers(s.log) + if s.phase.Writing? && s.phase.sealedBy.Some? then [s.phase.sealedBy.value] else []
  }

  /** Every call is settled, in progress or waiting, in call order. */
  ghost predicate InCallOrder(s: Sender, calls: seq<Bytes>) {
    calls == Payloads(s.log) + Active(s) + s.queue
  }

  ghost predicate FramesWhole(aead: Aead, s: Sender) {
    && (forall e <- s.log :: e.outcome.Written? ==>
          WholeFrame(aead, e.payload, e.outcome.frame, e.outcome.sealedBy, e.outcome.pad))
    && (s.phase.Writing? ==> WholeFrame(aead, s.phase.payload, s.phase.frame, s.phase.sealedBy, s.phase.pad))
    && (s.phase.Encrypting? ==> |s.phase.pad| == GcmPad(|s.phase.payload|))
  }

  /** The k-th sealed frame is sealed by the start direction advanced k times. */
  ghost predicate CounterInStep(s: Sender) {
    var sealers := SealersSoFar(s);
    match s.start
    case None => sealers == [] && s.out.None? && !s.phase.Encrypting?
    case Some(d0) =>
      && d0.counter < COUNTER_LIMIT
      && (forall k | 0 <= k < |sealers| :: sealers[k] == d0.Advance(k))
      && (s.out.Some? ==> s.out.value == d0.Advance(|sealers|))
      && (s.phase.Encrypting? ==> s.phase.dir == d0.Advance(|sealers|))
      && (s.out.None? ==> s.zeroed)
  }

  /** Nothing is written in the clear once a sealed frame has been. */
  ghost predicate ClearThenSealed(s: Sender) {
    && (forall i, j | 0 <= i < j < |s.log| && IsSealed(s.log[i]) && s.log[j].outcome.Written? :: IsSealed(s.log[j]))
    && (s.phase.Writing? && s.phase.sealedBy.None? ==> forall e <- s.log :: !IsSealed(e))
  }

  ghost predicate Valid(aead: Aead, s: Sender, calls: seq<Bytes>) {
    InCallOrder(s, calls) && FramesWhole(aead, s) && CounterInStep(s) && ClearThenSealed(s)
  }

  ghost predicate GoodDirections(events: seq<Event>) {
    forall e <- events :: e.Enable? ==> e.d.counter < COUNTER_LIMIT
  }

  lemma SettlePayloads(s: Sender, payload: Bytes, outcome: Outcome)
    ensures Payloads(Settle(s, payload, outcome).log) == Payloads(s.log) + [payload]
    ensures Sealers(Settle(s, payload, outcome).log)
         == Sealers(s.log) + if IsSealed(Entry(payload, outcome)) then [outcome.sealedBy.value] else []
  {
    assert Settle(s, payload, outcome).log[..|s.log|] == s.log;
  }

  lemma {:induction false} SealersEmpty(log: seq<Entry>)
    ensures Sealers(log) == [] <==> forall e <- log :: !IsSealed(e)
  {
    if log != [] {
      SealersEmpty(log[..|log| - 1]);
      assert log == log[..|log| - 1] + [log[|log| - 1]];
    }
  }

  lemma SettleKeepsValid(aead: Aead, s: Sender, calls: seq<Bytes>, payload: Bytes, outcome: Outcome)
    requires Valid(aead, s, calls) && !s.phase.Idle? && payload == s.phase.payload
    requires match s.phase
             case Writing(_, frame, sealedBy, pad) =>
               outcome.Written? && outcome == Written(frame, sealedBy, pad, outcome.ok)
             case _ => !outcome.Written?
    ensures Valid(aead, Settle(s, payload, outcome), calls)
  {
    SettlePayloads(s, payload, outcome);
    SealersEmpty(s.log);
    assert SealersSoFar(Settle(s, payload, outcome)) == SealersSoFar(s);
  }

  lemma RefuseKeepsOrder(s: Sender, calls: seq<Bytes>)
    requires InCallOrder(s, calls) && s.phase.Idle? && s.queue != []
    ensures InCallOrder(Settle(s.(queue := s.queue[1..]), s.queue[0], Refused), calls)
  {
    var p, others := s.queue[0], s.queue[1..];
    SettlePayloads(s.(queue := others), p, Refused);
    assert s.queue == [p] + others;
  }

  lemma RefuseKeepsModes(s: Sender)
    requires CounterInStep(s) && ClearThenSealed(s) && s.phase.Idle? && s.queue != []
    ensures CounterInStep(Settle(s.(queue := s.queue[1..]), s.queue[0], Refused))
    ensures ClearThenSealed(Settle(s.(queue := s.queue[1..]), s.queue[0], Refused))
  {
    var s' := Settle(s.(queue := s.queue[1..]), s.queue[0], Refused);
    SettlePayloads(s.(queue := s.queue[1..]), s.queue[0], Refused);
    assert SealersSoFar(s') == SealersSoFar(s);
  }

  lemma RefuseKeepsValid(aead: Aead, s: Sender, calls: seq<Bytes>)
    requires Valid(aead, s, calls) && s.phase.Idle? && s.queue != []
    ensures Valid(aead, Settle(s.(queue := s.queue[1..]), s.queue[0], Refused), calls)
  {
    RefuseKeepsOrder(s, calls);
    RefuseKeepsModes(s);
  }

  lemma BeginKeepsValid(aead: Aead, s: Sender, calls: seq<Bytes>, phase: Phase)
    requires Valid(aead, s, calls) && s.phase.Idle? && s.queue != [] && !s.zeroed
    requires match phase
             case Idle => false
             case Encrypting(p, d, pad) => s.out == Some(d) && p == s.queue[0] && |pad| == GcmPad(|p|)
             case Writing(p, frame, sealedBy, pad) =>
               s.out.None? && sealedBy.None? && p == s.queue[0] && WholeFrame(aead, p, frame, None, pad)
    ensures Valid(aead, s.(queue := s.queue[1..], phase := phase), calls)
  {
    SealersEmpty(s.log);
    assert calls == Payloads(s.log) + [s.queue[0]] + s.queue[1..];
    assert SealersSoFar(s.(queue := s.queue[1..], phase := phase)) == SealersSoFar(s);
  }

  lemma StartKeepsValid(aead: Aead, s: Sender, calls: seq<Bytes>, noise: Bytes)
    requires Valid(aead, s, calls) && s.phase.Idle? && s.queue != []
    ensures Valid(aead, StartSend(s, noise), calls)
  {
    if s.zeroed {
      RefuseKeepsValid(aead, s, calls);
    } else {
      BeginKeepsValid(aead, s, calls, StartSend(s, noise).phase);
    }
  }

  lemma EncryptKeepsValid(aead: Aead, s: Sender, calls: seq<Bytes>)
    requires Valid(aead, s, calls) && s.phase.Encrypting?
    ensures Valid(aead, FinishEncrypt(aead, s, true), calls)
  {
    AdvanceTwice(s.start.value, |SealersSoFar(s)|, 1);
    assert SealersSoFar(FinishEncrypt(aead, s, true)) == SealersSoFar(s) + [s.phase.dir];
  }

  lemma CallKeepsValid(aead: Aead, s: Sender, calls: seq<Bytes>, p: Bytes)
    requires Valid(aead, s, calls)
    ensures Valid(aead, s.(queue := s.queue + [p]), calls + [p])
  {
    assert Payloads(s.log) + Active(s) + (s.queue + [p]) == calls + [p];
  }

  lemma EnableKeepsValid(aead: Aead, s: Sender, calls: seq<Bytes>, d: Direction)
    requires Valid(aead, s, calls) && d.counter < COUNTER_LIMIT
    ensures Valid(aead, Step(aead, s, Enable(d)), calls)
  {
  }

  lemma EncryptedKeepsValid(aead: Aead, s: Sender, calls: seq<Bytes>, ok: bool)
    requires Valid(aead, s, calls) && s.phase.Encrypting?
    ensures Valid(aead, Step(aead, s, Encrypted(ok)), calls)
  {
    if ok {
      EncryptKeepsValid(aead, s, calls);
    } else {
      SettleKeepsValid(aead, s, calls, s.phase.payload, EncryptFailed);
    }
  }

  lemma WroteKeepsValid(aead: Aead, s: Sender, calls: seq<Bytes>, ok: bool)
    requires Valid(aead, s, calls) && s.phase.Writing?
    ensures Valid(aead, Step(aead, s, Wrote(ok)), calls)
  {
    SettleKeepsValid(aead, s, calls, s.phase.payload, Written(s.phase.frame, s.phase.sealedBy, s.phase.pad, ok));
  }

  lemma DestroyKeepsValid(aead: Aead, s: Sender, calls: seq<Bytes>)
    requires Valid(aead, s, calls)
    ensures Valid(aead, Step(aead, s, Destroy), calls)
  {
  }

  lemma StepKeepsValid(aead: Aead, s: Sender, calls: seq<Bytes>, e: Event)
    requires Valid(aead, s, calls) && (e.Enable? ==> e.d.counter < COUNTER_LIMIT)
    ensures Valid(aead, Step(aead, s, e), if e.Call? then calls + [e.payload] else calls)
  {
    match e
    case Call(p) => CallKeepsValid(aead, s, calls, p);
    case Start(noise) =>
      if s.phase.Idle? && s.queue != [] {
        StartKeepsValid(aead, s, calls, noise);
      }
    case Encrypted(ok) =>
      if s.phase.Encrypting? {
        EncryptedKeepsValid(aead, s, calls, ok);
      }
    case Wrote(ok) =>
      if s.phase.Writing? {
        WroteKeepsValid(aead, s, calls, ok);
      }
    case Enable(d) => EnableKeepsValid(aead, s, calls, d);
    case Destroy => DestroyKeepsValid(aead, s, calls);
  }

  lemma {:induction false} RunIsValid(aead: Aead, events: seq<Event>)
    requires GoodDirections(events)
    ensures Valid(aead, Run(aead, events), Calls(events))
  {
    if events == [] {
    } else {
      var before, e := events[..|events| - 1], events[|events| - 1];
      RunIsValid(aead, before);
      StepKeepsValid(aead, Run(aead, before), Calls(before), e);
    }
  }

  // ---------------------------------------------------------------------
  // What follows for whole runs

  lemma OrderShows(s: Sender, calls: seq<Bytes>)
    requires InCallOrder(s, calls)
    ensures Payloads(s.log) <= calls
  {
    assert calls == Payloads(s.log) + (Active(s) + s.queue);
  }

  /**
   * However sends interleave and fail, settled sends are the first calls in
   * call order, and what was written for each is one whole frame of its payload.
   */
  lemma FramesFollowCalls(aead: Aead, events: seq<Event>)
    requires GoodDirections(events)
    ensures var s := Run(aead, events);
            Payloads(s.log) <= Calls(events)
            && (forall e <- s.log :: e.outcome.Written? ==>
                  WholeFrame(aead, e.payload, e.outcome.frame, e.outcome.sealedBy, e.outcome.pad))
            && (forall i, j | 0 <= i < j < |s.log| && IsSealed(s.log[i]) && s.log[j].outcome.Written? ::
                  IsSealed(s.log[j]))
  {
    RunIsValid(aead, events);
    OrderShows(Run(aead, events), Calls(events));
  }

  /** The k-th sealed frame carries the k-th IV after the starting one, and no two of fewer than 2^64 share one. */
  lemma SealedFramesNeverShareAnIv(aead: Aead, events: seq<Event>)
    requires GoodDirections(events)
    requires |Sealers(Run(aead, events).log)| <= COUNTER_LIMIT
    ensures var s := Run(aead, events);
            var sealers := Sealers(s.log);
            (forall k | 0 <= k < |sealers| :: s.start.Some? && sealers[k] == s.start.value.Advance(k))
            && (forall i, j | 0 <= i < j < |sealers| :: sealers[i].Iv() != sealers[j].Iv())
  {
    RunIsValid(aead, events);
    var s := Run(aead, events);
    var sealers := Sealers(s.log);
    assert sealers <= SealersSoFar(s);
    if sealers != [] {
      assert sealers[0] == SealersSoFar(s)[0];
    }
    forall k | 0 <= k < |sealers|
      ensures s.start.Some? && sealers[k] == s.start.value.Advance(k)
    {
      assert sealers[k] == SealersSoFar(s)[k];
    }
    forall i, j | 0 <= i < j < |sealers|
      ensures sealers[i].Iv() != sealers[j].Iv()
    {
      IvsDiffer(s.start.value, i, j);
    }
  }

  /** Once a send was refused no later one is written. */
  ghost predicate RefusedStay(s: Sender) {
    && (forall i, j | 0 <= i < j < |s.log| && s.log[i].outcome.Refused? :: s.log[j].outcome.Refused?)
    && (forall i | 0 <= i < |s.log| && s.log[i].outcome.Refused? :: s.zeroed && s.phase.Idle?)
  }

  lemma StepKeepsRefused(aead: Aead, s: Sender, e: Event)
    requires RefusedStay(s)
    ensures RefusedStay(Step(aead, s, e))
  {
  }

  lemma {:induction false} RefusedStayRefused(aead: Aead, events: seq<Event>)
    ensures RefusedStay(Run(aead, events))
  {
    if events != [] {
      RefusedStayRefused(aead, events[..|events| - 1]);
      StepKeepsRefused(aead, Run(aead, events[..|events| - 1]), events[|events| - 1]);
    }
  }

  lemma RunPush(aead: Aead, events: seq<Event>, e: Event)
    ensures Run(aead, events + [e]) == Step(aead, Run(aead, events), e)
  {
    assert (events + [e])[..|events|] == events;
  }

  /** What the environment decides about one send. */
  datatype Fate = Fate(noise: Bytes, encrypts: bool, writes: bool)

  function RunOne(aead: Aead, s: Sender, f: Fate): Sender {
    Step(aead, Step(aead, Step(aead, s, Start(f.noise)), Encrypted(f.encrypts)), Wrote(f.writes))
  }

  function Drain(aead: Aead, s: Sender, fates: seq<Fate>): Sender
    decreases |fates|
  {
    if fates == [] then s else Drain(aead, RunOne(aead, s, fates[0]), fates[1..])
  }

  /** The outcome a send earns by itself, whatever became of the sends before it. */
  predicate Earned(zeroed: bool, sealed: bool, f: Fate, outcome: Outcome) {
    if zeroed then outcome.Refused?
    else if sealed && !f.encrypts then outcome.EncryptFailed?
    else outcome.Written? && outcome.ok == f.writes && outcome.sealedBy.Some? == sealed
  }

  ghost predicate EachEarned(s: Sender, fates: seq<Fate>, entries: seq<Entry>) {
    && |entries| == |s.queue| == |fates|
    && forall k | 0 <= k < |entries| ::
         entries[k].payload == s.queue[k] && Earned(s.zeroed, s.out.Some?, fates[k], entries[k].outcome)
  }

  lemma RunOneSettles(aead: Aead, s: Sender, f: Fate) returns (e: Entry)
    requires s.phase.Idle? && s.queue != []
    ensures var t := RunOne(aead, s, f);
            && t.phase.Idle? && t.queue == s.queue[1..] && t.zeroed == s.zeroed && t.out.Some? == s.out.Some?
            && t.log == s.log + [e]
    ensures e.payload == s.queue[0] && Earned(s.zeroed, s.out.Some?, f, e.outcome)
  {
    var a := Step(aead, s, Start(f.noise));
    if s.zeroed {
      assert a.phase.Idle? && Step(aead, a, Encrypted(f.encrypts)) == a;
    } else if s.out.Some? {
      assert a.phase.Encrypting? && |a.phase.pad| < 256;
    } else {
      assert a.phase.Writing? && Step(aead, a, Encrypted(f.encrypts)) == a;
    }
    e := RunOne(aead, s, f).log[|s.log|];
  }

  lemma EarnedFront(s: Sender, u: Sender, fates: seq<Fate>, first: Entry, others: seq<Entry>)
    requires s.queue != [] && |fates| == |s.queue| && u.queue == s.queue[1..]
    requires u.zeroed == s.zeroed && u.out.Some? == s.out.Some?
    requires first.payload == s.queue[0] && Earned(s.zeroed, s.out.Some?, fates[0], first.outcome)
    requires EachEarned(u, fates[1..], others)
    ensures EachEarned(s, fates, [first] + others)
  {
    forall k | 0 < k < |fates|
      ensures ([first] + others)[k].payload == s.queue[k]
              && Earned(s.zeroed, s.out.Some?, fates[k], ([first] + others)[k].outcome)
    {
      assert others[k - 1].payload == u.queue[k - 1];
    }
  }

  lemma Regroup(log: seq<Entry>, first: Entry, others: seq<Entry>)
    ensures log + ([first] + others) == (log + [first]) + others
  {
  }

  lemma {:induction false} DrainEntries(aead: Aead, s: Sender, fates: seq<Fate>) returns (entries: seq<Entry>)
    requires s.phase.Idle? && |fates| == |s.queue|
    ensures var t := Drain(aead, s, fates);
            t.phase.Idle? && t.queue == [] && t.log == s.log + entries
    ensures EachEarned(s, fates, entries)
    decreases |fates|
  {
    if fates == [] {
      entries := [];
    } else {
      var u := RunOne(aead, s, fates[0]);
      var first := RunOneSettles(aead, s, fates[0]);
      var others := DrainEntries(aead, u, fates[1..]);
      entries := [first] + others;
      EarnedFront(s, u, fates, first, others);
      Regroup(s.log, first, others);
    }
  }

  /** A failed send never holds up the ones behind it: each settles, with the outcome it earned. */
  lemma DrainSettlesEverySend(aead: Aead, s: Sender, fates: seq<Fate>)
    requires s.phase.Idle? && |fates| == |s.queue|
    ensures var t := Drain(aead, s, fates);
            && t.phase.Idle? && t.queue == [] && s.log <= t.log
            && EachEarned(s, fates, t.log[|s.log|..])
  {
    var entries := DrainEntries(aead, s, fates);
    assert (s.log + entries)[|s.log|..] == entries;
  }

  function Resume(aead: Aead, s: Sender, events: seq<Event>): Sender {
    if events == [] then s
    else Step(aead, Resume(aead, s, events[..|events| - 1]), events[|events| - 1])
  }

  /** Destroyed when this many sends had started: those are settled or in progress, and all later ones refused. */
  ghost predicate Doomed(s: Sender, started: nat) {
    && s.zeroed && |s.log| + |Active(s)| >= started && (!s.phase.Idle? ==> |s.log| < started)
    && forall k | started <= k < |s.log| :: s.log[k].outcome.Refused?
  }

  lemma DestroyDooms(aead: Aead, s: Sender)
    ensures Doomed(Step(aead, s, Destroy), |s.log| + |Active(s)|)
  {
  }

  lemma StepKeepsDoomed(aead: Aead, s: Sender, e: Event, started: nat)
    requires Doomed(s, started)
    ensures Doomed(Step(aead, s, e), started)
  {
  }

  /** A send that had not started when destroy() was called is refused, whatever happens afterwards. */
  lemma {:induction false} NothingStartsAfterDestroy(aead: Aead, s: Sender, events: seq<Event>)
    ensures var started := |s.log| + |Active(s)|;
            var t := Resume(aead, Step(aead, s, Destroy), events);
            t.zeroed && |t.log| + |Active(t)| >= started
            && forall k | started <= k < |t.log| + |Active(t)| :: k < |t.log| && t.log[k].outcome.Refused?
    ensures Doomed(Resume(aead, Step(aead, s, Destroy), events), |s.log| + |Active(s)|)
  {
    if events == [] {
      DestroyDooms(aead, s);
    } else {
      var before := events[..|events| - 1];
      NothingStartsAfterDestroy(aead, s, before);
      StepKeepsDoomed(aead, Resume(aead, Step(aead, s, Destroy), before), events[|events| - 1],
                      |s.log| + |Active(s)|);
    }
  }
}
