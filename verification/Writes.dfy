/**
 * What the write() calls of module Channel do to the server's window and hand
 * to the packet layer, over whole runs: when the window is respected, what of
 * its data each call has sent, and what happens when calls overlap.
 */
module Writes {
  import opened Wrappers
  import opened ByteStrings
  import opened Wire
  import opened Messages
  import opened Channel

  // ---------------------------------------------------------------------
  // Runs without certain steps

  lemma {:induction false} NeverPrefix(events: seq<Event>, o: Options, bad: (Client, Event) -> bool, n: nat)
    requires Never(events, o, bad) && n <= |events|
    ensures Never(events[..n], o, bad)
  {
    if n == |events| {
      assert events[..n] == events;
    } else {
      NeverPrefix(events[..|events| - 1], o, bad, n);
      assert events[..|events| - 1][..n] == events[..n];
    }
  }

  ghost predicate FirstAt(events: seq<Event>, o: Options, bad: (Client, Event) -> bool, n: nat) {
    n < |events| && Never(events[..n], o, bad) && bad(Run(events[..n], o), events[n])
  }

  lemma {:induction false} FirstBad(events: seq<Event>, o: Options, bad: (Client, Event) -> bool)
    requires !Never(events, o, bad)
    ensures exists n: nat :: FirstAt(events, o, bad, n)
  {
    var last := |events| - 1;
    if Never(events[..last], o, bad) {
      assert FirstAt(events, o, bad, last);
    } else {
      FirstBad(events[..last], o, bad);
      var n: nat :| FirstAt(events[..last], o, bad, n);
      assert events[..last][..n] == events[..n];
      assert FirstAt(events, o, bad, n);
    }
  }

  /** The main task and close() start no write and leave every one as it is, or wake it. */
  lemma OthersKeepWrites(c: Client, e: Event, o: Options)
    requires WriterOf(c, e).None?
    ensures var w := Step(c, e, o).writes; w == c.writes || w == WakeAll(c.writes) || w == WakeAll(WakeAll(c.writes))
  {
    if e.Received? && c.main.Expecting? && e.packet != [] {
      DispatchKeepsWrites(c, Parse(e.packet));
    } else if e.Received? && c.main.Pumping? && !c.closed {
      DispatchKeepsWrites(c, Parse(e.packet));
    }
  }

  lemma DispatchKeepsWrites(c: Client, m: ServerMsg)
    ensures var w := Dispatch(c, m).0.writes; w == c.writes || w == WakeAll(c.writes)
  {
  }

  /** They only add to the window, but for the confirmation, which comes before any write. */
  lemma OthersKeepWindow(c: Client, e: Event, o: Options)
    requires WriterOf(c, e).None?
    ensures var w := Step(c, e, o).remoteWindow; w >= c.remoteWindow || (c.main.Expecting? && w >= 0)
  {
    if e.Received? && c.main.Expecting? && e.packet != [] {
      DispatchKeepsWindow(c, Parse(e.packet));
    } else if e.Received? && c.main.Pumping? && !c.closed {
      DispatchKeepsWindow(c, Parse(e.packet));
    }
  }

  lemma DispatchKeepsWindow(c: Client, m: ServerMsg)
    ensures Dispatch(c, m).0.remoteWindow == c.remoteWindow + Adjustment(m)
  {
  }

  // ---------------------------------------------------------------------
  // The server's window

  /** The chunks aloft are covered by the window in hand. */
  ghost predicate InHand(c: Client) {
    Aloft(c.writes) <= c.remoteWindow
  }

  lemma LooksInHand(c: Client, e: Event)
    requires InHand(c) && Looks(c, e).Some?
    ensures var (b, i) := Looks(c, e).value;
            && InHand(b) && b.writes[i].phase.Woken?
            && b.out == c.out && b.closed == c.closed
  {
    match e
    case WriteCall(data) => AloftPush(c.writes, WriteTask(data, 0, Woken));
    case WriteSent(i, _) =>
      var t := c.writes[i];
      AloftUpdate(c.writes, i, WriteTask(t.data, t.offset + t.phase.size, Woken));
    case _ =>
  }

  lemma InnerInHand(b: Client, i: nat)
    requires InHand(b) && i < |b.writes| && b.writes[i].phase.Woken?
    requires !b.closed && b.remoteWindow != 0 ==> Aloft(b.writes) + ChunkSize(b, i) <= b.remoteWindow
    ensures InHand(WriteInner(b, i))
  {
    AloftUpdate(b.writes, i, WriteInner(b, i).writes[i]);
  }

  lemma LoopInHand(b: Client, i: nat)
    requires InHand(b) && i < |b.writes| && b.writes[i].phase.Woken?
    requires !b.closed && b.remoteWindow != 0 && b.writes[i].offset < |b.writes[i].data| ==>
               Aloft(b.writes) + ChunkSize(b, i) <= b.remoteWindow
    ensures InHand(WriteLoop(b, i))
  {
    if b.writes[i].offset < |b.writes[i].data| {
      InnerInHand(b, i);
    } else {
      AloftUpdate(b.writes, i, WriteLoop(b, i).writes[i]);
    }
  }

  lemma WriterInHand(c: Client, e: Event, o: Options, granted: int, lost: int, handed: seq<Bytes>)
    requires Sound(c, granted, lost, handed) && InHand(c) && !Overcommits(c, e) && WriterOf(c, e).Some?
    ensures InHand(Step(c, e, o))
  {
    if e.WriteSent? && !e.ok {
      assert TaskSound(c.writes[e.i], handed[e.i], c.closed);
      AloftUpdate(c.writes, e.i, c.writes[e.i].(phase := Ended(SendFailed)));
    } else {
      var (b, i) := Looks(c, e).value;
      LooksInHand(c, e);
      if e.Resumed? {
        assert TaskSound(c.writes[i], handed[i], c.closed);
        InnerInHand(b, i);
      } else {
        LoopInHand(b, i);
      }
    }
  }

  lemma StepInHand(c: Client, e: Event, o: Options, granted: int, lost: int, handed: seq<Bytes>)
    requires Sound(c, granted, lost, handed) && InHand(c) && !Overcommits(c, e)
    ensures InHand(Step(c, e, o))
  {
    if WriterOf(c, e).Some? {
      WriterInHand(c, e, o, granted, lost, handed);
    } else {
      OthersKeepWrites(c, e, o);
      OthersKeepWindow(c, e, o);
      AloftWake(c.writes);
      AloftWake(WakeAll(c.writes));
      assert WakeAll([]) == [];
    }
  }

  /** With the chunks aloft covered, the window is not overdrawn. */
  lemma WindowNotNegative(c: Client, e: Event, granted: int, lost: int, handed: seq<Bytes>)
    requires Sound(c, granted, lost, handed) && InHand(c) && Looks(c, e).Some?
    ensures Looks(c, e).value.0.remoteWindow >= 0
  {
    var (b, i) := Looks(c, e).value;
    LooksInHand(c, e);
    TasksAloft(c.writes, handed, c.closed);
    assert forall t <- b.writes :: Pending(t) >= 0;
    AloftCovers(b.writes, i);
  }

  lemma {:induction false} FrugalIsForward(events: seq<Event>, o: Options)
    requires Frugal(events, o)
    ensures Forward(events, o) && InHand(Run(events, o))
  {
    if events != [] {
      var before, e := events[..|events| - 1], events[|events| - 1];
      FrugalIsForward(before, o);
      RunIsSound(before, o);
      var c, granted, lost, handed := Run(before, o), Granted(before, o), LostBytes(before, o), Handed(before, o);
      StepInHand(c, e, o, granted, lost, handed);
      if Looks(c, e).Some? {
        WindowNotNegative(c, e, granted, lost, handed);
      }
    }
  }

  ghost predicate NoSendFails(events: seq<Event>) {
    forall e <- events :: e.WriteSent? ==> e.ok
  }

  lemma {:induction false} NothingLost(events: seq<Event>, o: Options)
    requires NoSendFails(events)
    ensures LostBytes(events, o) == 0
  {
    if events != [] {
      var before := events[..|events| - 1];
      assert events[|events| - 1] in events && forall e <- before :: e in events;
      NothingLost(before, o);
    }
  }

  /** What was handed over in sends that did not fail goes beyond what the server granted. */
  ghost predicate Overruns(events: seq<Event>, o: Options) {
    |Written(Run(events, o).out)| - LostBytes(events, o) > Granted(events, o)
  }

  /**
   * In every frugal run what was sent in sends that did not fail is within the
   * credit of the confirmation and the WINDOW_ADJUSTs the client took, all of
   * it is within that credit if no send failed, and every chunk has 1 to
   * MAX_CHUNK bytes.
   */
  lemma SendWindowBound(events: seq<Event>, o: Options)
    requires Frugal(events, o)
    ensures |Written(Run(events, o).out)| - LostBytes(events, o) <= Granted(events, o)
    ensures NoSendFails(events) ==> |Written(Run(events, o).out)| <= Granted(events, o)
    ensures forall m <- Run(events, o).out :: m.Data? ==> 1 <= |m.data| <= MAX_CHUNK
  {
    FrugalIsForward(events, o);
    RunIsSound(events, o);
    if NoSendFails(events) {
      NothingLost(events, o);
    }
  }

  function NextChunk(b: Client, i: nat): ClientMsg
    requires i < |b.writes|
  {
    var t := b.writes[i];
    Messages.Data(b.remoteChannel, Subarray(t.data, t.offset, t.offset + ChunkSize(b, i)))
  }

  /** The step of a write that looks at an open window sends the chunk it takes. */
  lemma LookingSends(c: Client, e: Event, o: Options)
    requires Looks(c, e).Some?
    requires var (b, i) := Looks(c, e).value;
             !b.closed && b.remoteWindow != 0 && b.writes[i].offset < |b.writes[i].data|
    ensures var (b, i) := Looks(c, e).value;
            && Step(c, e, o).out == b.out + [NextChunk(b, i)]
            && Step(c, e, o).writes == b.writes[i := b.writes[i].(phase := InFlight(ChunkSize(b, i)))]
  {
  }

  lemma OneChunkMore(out: seq<ClientMsg>, m: ClientMsg)
    requires m.Data?
    ensures |Written(out + [m])| == |Written(out)| + |m.data|
  {
    WrittenConcat(out, [m]);
    WrittenOne(m);
  }

  /** The chunk taken is as long as its size says. */
  lemma ChunkLength(b: Client, i: nat)
    requires i < |b.writes| && b.remoteWindow > 0 && 0 <= b.writes[i].offset < |b.writes[i].data|
    ensures 0 < ChunkSize(b, i) && |NextChunk(b, i).data| == ChunkSize(b, i)
  {
  }

  lemma LooksBalanced(c: Client, e: Event, granted: int, lost: int, handed: seq<Bytes>)
    requires Sound(c, granted, lost, handed) && Looks(c, e).Some?
    ensures var (b, i) := Looks(c, e).value;
            Books(b.out, lost, b.remoteWindow, b.writes, granted) && 0 <= b.writes[i].offset
  {
    match e
    case WriteCall(data) => BegunIsAtTop(c, data, granted, lost, handed);
    case Resumed(i) => WokenIsAtTop(c, i, granted, lost, handed);
    case WriteSent(i, _) => ChargedIsAtTop(c, i, granted, lost, handed);
    case _ =>
  }

  lemma OvercommitOverruns(c: Client, e: Event, o: Options, granted: int, lost: int, handed: seq<Bytes>)
    requires Sound(c, granted, lost, handed) && InHand(c) && Overcommits(c, e)
    ensures |Written(Step(c, e, o).out)| - (lost + LostIn(c, e)) > GrantStep(c, e, granted)
  {
    var (b, i) := Looks(c, e).value;
    LooksBalanced(c, e, granted, lost, handed);
    WindowNotNegative(c, e, granted, lost, handed);
    LookingSends(c, e, o);
    ChunkLength(b, i);
    OneChunkMore(b.out, NextChunk(b, i));
  }

  lemma OvercommitShows(events: seq<Event>, o: Options, n: nat)
    requires FirstAt(events, o, Overcommits, n)
    ensures Overruns(events[..n + 1], o)
  {
    var before := events[..n];
    FrugalIsForward(before, o);
    RunIsSound(before, o);
    OvercommitOverruns(Run(before, o), events[n], o, Granted(before, o), LostBytes(before, o), Handed(before, o));
    assert events[..n + 1][..n] == before;
  }

  /**
   * With any number of write() calls under way, the client oversteps the
   * server's window at some point of a run exactly if at some point a write
   * takes a chunk that, with the chunks aloft, is larger than remoteWindow.
   */
  lemma OverrunExactly(events: seq<Event>, o: Options)
    ensures (exists n :: 0 <= n <= |events| && Overruns(events[..n], o)) <==> !Frugal(events, o)
  {
    if Frugal(events, o) {
      forall n | 0 <= n <= |events|
        ensures !Overruns(events[..n], o)
      {
        NeverPrefix(events, o, Overcommits, n);
        SendWindowBound(events[..n], o);
      }
    } else {
      FirstBad(events, o, Overcommits);
      var n: nat :| FirstAt(events, o, Overcommits, n);
      OvercommitShows(events, o, n);
    }
  }

  // ---------------------------------------------------------------------
  // What writes hand over

  function TotalLength(parts: seq<Bytes>): nat {
    if parts == [] then 0 else TotalLength(parts[..|parts| - 1]) + |parts[|parts| - 1]|
  }

  lemma {:induction false} TotalUpdate(parts: seq<Bytes>, i: nat, part: Bytes)
    requires i < |parts|
    ensures TotalLength(parts[i := part]) == TotalLength(parts) - |parts[i]| + |part|
  {
    var n := |parts| - 1;
    if i < n {
      TotalUpdate(parts[..n], i, part);
      assert parts[i := part][..n] == parts[..n][i := part];
    } else {
      assert parts[i := part][..n] == parts[..n];
    }
  }

  lemma TotalPush(parts: seq<Bytes>, part: Bytes)
    ensures TotalLength(parts + [part]) == TotalLength(parts) + |part|
  {
    assert (parts + [part])[..|parts|] == parts;
  }

  lemma AddedIsNew(c: Client, c': Client)
    requires c.out <= c'.out
    ensures Written(c'.out) == Written(c.out) + NewBytes(c, c')
  {
    assert c'.out == c.out + c'.out[|c.out|..];
    WrittenConcat(c.out, c'.out[|c.out|..]);
  }

  lemma NothingNew(c: Client, c': Client)
    requires SaysNoData(c.out, c'.out)
    ensures c.out <= c'.out && NewBytes(c, c') == []
  {
    if c'.out == c.out {
      assert c'.out[|c.out|..] == [];
    } else {
      assert c'.out[|c.out|..] == [c'.out[|c.out|]];
      WrittenOne(c'.out[|c.out|]);
    }
  }

  /** Only the steps of a write put channel data into out, and out only grows. */
  lemma StepWrites(c: Client, e: Event, o: Options)
    ensures Written(Step(c, e, o).out) == Written(c.out) + NewBytes(c, Step(c, e, o))
    ensures WriterOf(c, e).None? ==> NewBytes(c, Step(c, e, o)) == []
  {
    if WriterOf(c, e).None? {
      SaysNoDataAlways(c, e, o);
      NothingNew(c, Step(c, e, o));
    } else {
      WriterOnlyAdds(c, e, o);
    }
    AddedIsNew(c, Step(c, e, o));
  }

  lemma SaysNoDataAlways(c: Client, e: Event, o: Options)
    requires WriterOf(c, e).None?
    ensures SaysNoData(c.out, Step(c, e, o).out)
  {
    if e.Received? && c.main.Expecting? && e.packet != [] {
      ExpectSaysNoData(c, c.main.stage, e.packet, o);
    } else if e.Received? && c.main.Pumping? && !c.closed {
      DispatchSaysNoData(c, Parse(e.packet));
    }
  }

  lemma DispatchSaysNoData(c: Client, m: ServerMsg)
    ensures SaysNoData(c.out, Dispatch(c, m).0.out)
  {
  }

  lemma ExpectSaysNoData(c: Client, stage: Stage, packet: Bytes, o: Options)
    requires packet != []
    ensures SaysNoData(c.out, Expect(c, stage, packet, o).out)
  {
    DispatchSaysNoData(c, Parse(packet));
  }

  lemma WriterOnlyAdds(c: Client, e: Event, o: Options)
    requires WriterOf(c, e).Some?
    ensures c.out <= Step(c, e, o).out
  {
  }

  /** No step hands over more than one message. */
  lemma StepSaysOneThing(c: Client, e: Event, o: Options)
    ensures var c' := Step(c, e, o);
            c.out == c'.out || (|c'.out| == |c.out| + 1 && c'.out == c.out + [c'.out[|c.out|]])
  {
    if WriterOf(c, e).None? {
      SaysNoDataAlways(c, e, o);
    }
  }

  lemma {:induction false} HandedTotals(events: seq<Event>, o: Options)
    requires Forward(events, o)
    ensures TotalLength(Handed(events, o)) == |Written(Run(events, o).out)|
  {
    if events == [] {
      WrittenOne(OPENING);
    } else {
      var before, e := events[..|events| - 1], events[|events| - 1];
      HandedTotals(before, o);
      RunIsSound(before, o);
      var c, handed := Run(before, o), Handed(before, o);
      StepWrites(c, e, o);
      var bytes := NewBytes(c, Step(c, e, o));
      if WriterOf(c, e).Some? {
        var i := WriterOf(c, e).value;
        if i < |handed| {
          TotalUpdate(handed, i, handed[i] + bytes);
        } else {
          TotalPush(handed, bytes);
        }
      }
    }
  }

  /** What each write() has handed over is what its own variables say, at this point of a run. */
  ghost predicate PrefixesHold(events: seq<Event>, o: Options) {
    Tasks(Run(events, o).writes, Handed(events, o), Run(events, o).closed)
  }

  /**
   * While chunks have positive sizes, however writes overlap: each write() has
   * handed to the packet layer, by the messages of its own steps, a prefix of
   * its data; all of it when it ended with neither the session closed nor its
   * send failed; and up to its offset and the chunk aloft while it is under
   * way. Together the writes account for all channel data sent.
   */
  lemma WritesSendPrefixes(events: seq<Event>, o: Options)
    requires Forward(events, o)
    ensures var c, handed := Run(events, o), Handed(events, o);
            && |handed| == |c.writes| && TotalLength(handed) == |Written(c.out)|
            && forall i | 0 <= i < |handed| ::
                 var t := c.writes[i];
                 match t.phase
                 case Ended(end) =>
                   handed[i] <= t.data && (end == Finished ==> handed[i] == t.data) && (end == FoundClosed ==> c.closed)
                 case InFlight(size) =>
                   0 <= t.offset < t.offset + size <= |t.data| && handed[i] == t.data[..t.offset + size]
                 case _ => 0 <= t.offset < |t.data| && handed[i] == t.data[..t.offset]
  {
    RunIsSound(events, o);
    HandedTotals(events, o);
    var c, handed := Run(events, o), Handed(events, o);
    forall i | 0 <= i < |handed|
      ensures TaskSound(c.writes[i], handed[i], c.closed)
    {
    }
  }

  /** A chunk taken from an overdrawn window has a negative size, which no prefix has. */
  lemma BackShows(events: seq<Event>, o: Options, n: nat)
    requires FirstAt(events, o, Backs, n)
    ensures !PrefixesHold(events[..n + 1], o)
  {
    var c, e := Run(events[..n], o), events[n];
    var (b, i) := Looks(c, e).value;
    assert events[..n + 1][..n] == events[..n];
    LookingSends(c, e, o);
    var t := Run(events[..n + 1], o).writes[i];
    assert t.phase == InFlight(ChunkSize(b, i)) && ChunkSize(b, i) < 0;
  }

  /**
   * That is just how far it goes: the writes are true to their data at every
   * point of a run exactly if no write takes a chunk while remoteWindow is
   * negative.
   */
  lemma PrefixesExactly(events: seq<Event>, o: Options)
    ensures (forall n | 0 <= n <= |events| :: PrefixesHold(events[..n], o)) <==> Forward(events, o)
  {
    if Forward(events, o) {
      forall n | 0 <= n <= |events|
        ensures PrefixesHold(events[..n], o)
      {
        NeverPrefix(events, o, Backs, n);
        RunIsSound(events[..n], o);
      }
    } else {
      FirstBad(events, o, Backs);
      var n: nat :| FirstAt(events, o, Backs, n);
      BackShows(events, o, n);
    }
  }

  // ---------------------------------------------------------------------
  // Wakeups

  predicate Sleeping(writes: seq<WriteTask>) {
    exists t <- writes :: t.phase.Asleep?
  }

  /** A chunk is charged while another write sleeps. */
  predicate ChargesSleepers(c: Client, e: Event) {
    e.WriteSent? && e.ok && Flying(c, e.i) && Sleeping(c.writes)
  }

  /** Whoever sleeps has no window to use and an open session, which is what it went to sleep over. */
  ghost predicate Alert(c: Client) {
    Sleeping(c.writes) ==> c.remoteWindow == 0 && !c.closed
  }

  /** Before the shell is open nobody has written. */
  lemma {:induction false} NoEarlyWrites(events: seq<Event>, o: Options)
    ensures !Open(Run(events, o).main) ==> Run(events, o).writes == []
  {
    if events != [] {
      var c, e := Run(events[..|events| - 1], o), events[|events| - 1];
      NoEarlyWrites(events[..|events| - 1], o);
      StepKeepsEarly(c, e, o);
    }
  }

  lemma StepKeepsEarly(c: Client, e: Event, o: Options)
    requires !Open(c.main) ==> c.writes == []
    ensures !Open(Step(c, e, o).main) ==> Step(c, e, o).writes == []
  {
    if e.Received? {
      DispatchKeepsWrites(c, Parse(e.packet));
      DispatchKeepsMain(c, Parse(e.packet));
      assert WakeAll([]) == [];
    }
  }

  lemma DispatchKeepsMain(c: Client, m: ServerMsg)
    ensures Dispatch(c, m).0.main == c.main
  {
  }

  /** A write that is under way has data left, and a chunk aloft has a size. */
  ghost predicate Sized(t: WriteTask) {
    match t.phase
    case InFlight(size) => size != 0
    case Ended(_) => true
    case _ => t.offset < |t.data|
  }

  lemma StepKeepsSized(c: Client, e: Event, o: Options)
    requires forall t <- c.writes :: Sized(t)
    ensures forall t <- Step(c, e, o).writes :: Sized(t)
  {
    if WriterOf(c, e).None? {
      OthersKeepWrites(c, e, o);
      WokenSized(c.writes);
      WokenSized(WakeAll(c.writes));
    } else {
      WriterKeepsSized(c, e, o);
    }
  }

  lemma WokenSized(writes: seq<WriteTask>)
    requires forall t <- writes :: Sized(t)
    ensures forall t <- WakeAll(writes) :: Sized(t)
  {
    forall k | 0 <= k < |writes|
      ensures Sized(WakeAll(writes)[k])
    {
      assert Sized(writes[k]);
    }
  }

  lemma WriterKeepsSized(c: Client, e: Event, o: Options)
    requires WriterOf(c, e).Some? && forall t <- c.writes :: Sized(t)
    ensures forall t <- Step(c, e, o).writes :: Sized(t)
  {
    var i, writes := WriterOf(c, e).value, Step(c, e, o).writes;
    forall k | 0 <= k < |writes|
      ensures Sized(writes[k])
    {
      if k < |c.writes| {
        assert Sized(c.writes[k]);
      }
    }
  }

  lemma {:induction false} AlwaysSized(events: seq<Event>, o: Options)
    ensures forall t <- Run(events, o).writes :: Sized(t)
  {
    if events != [] {
      AlwaysSized(events[..|events| - 1], o);
      StepKeepsSized(Run(events[..|events| - 1], o), events[|events| - 1], o);
    }
  }

  /** The main task wakes whoever sleeps when it adds to the window or closes. */
  lemma OthersKeepAlert(c: Client, e: Event, o: Options)
    requires WriterOf(c, e).None? && Alert(c) && (!Open(c.main) ==> c.writes == [])
    ensures Alert(Step(c, e, o))
  {
    StepCloses(c, e, o);
    OthersKeepWrites(c, e, o);
    if Sleeping(Step(c, e, o).writes) {
      assert Step(c, e, o).writes == c.writes && Open(c.main);
      UnwokenIsUnchanged(c, e, o);
    }
  }

  lemma UnwokenIsUnchanged(c: Client, e: Event, o: Options)
    requires WriterOf(c, e).None? && Open(c.main) && Sleeping(Step(c, e, o).writes)
    ensures Step(c, e, o).remoteWindow == c.remoteWindow && Step(c, e, o).closed == c.closed
  {
    if e.Received? && c.main.Pumping? && !c.closed {
      DispatchUnwoken(c, Parse(e.packet));
    }
  }

  lemma DispatchUnwoken(c: Client, m: ServerMsg)
    ensures var c' := Dispatch(c, m).0;
            Sleeping(c'.writes) ==> c'.remoteWindow == c.remoteWindow && c'.closed == c.closed
  {
  }

  lemma WriterKeepsAlert(c: Client, e: Event, o: Options)
    requires WriterOf(c, e).Some? && Alert(c) && !ChargesSleepers(c, e)
    ensures Alert(Step(c, e, o))
  {
  }

  lemma {:induction false} RestedIsAlert(events: seq<Event>, o: Options)
    requires Never(events, o, ChargesSleepers)
    ensures Alert(Run(events, o))
  {
    if events != [] {
      var before, e := events[..|events| - 1], events[|events| - 1];
      RestedIsAlert(before, o);
      NoEarlyWrites(before, o);
      if WriterOf(Run(before, o), e).Some? {
        WriterKeepsAlert(Run(before, o), e, o);
      } else {
        OthersKeepAlert(Run(before, o), e, o);
      }
    }
  }

  lemma ChargeShows(events: seq<Event>, o: Options, n: nat)
    requires FirstAt(events, o, ChargesSleepers, n)
    ensures !Alert(Run(events[..n + 1], o))
  {
    var c, e := Run(events[..n], o), events[n];
    RestedIsAlert(events[..n], o);
    AlwaysSized(events[..n], o);
    assert events[..n + 1][..n] == events[..n];
    var k :| 0 <= k < |c.writes| && c.writes[k].phase.Asleep?;
    assert c.writes[e.i] in c.writes;
    assert Step(c, e, o).writes[k] == c.writes[k];
  }

  /**
   * No wakeup is lost at any point of a run, in that a sleeping write has no
   * window to use and an open session, exactly if no chunk is charged to the
   * window while another write sleeps.
   */
  lemma NoWakeupIsLost(events: seq<Event>, o: Options)
    ensures (forall n | 0 <= n <= |events| :: Alert(Run(events[..n], o))) <==> Never(events, o, ChargesSleepers)
  {
    if Never(events, o, ChargesSleepers) {
      forall n | 0 <= n <= |events|
        ensures Alert(Run(events[..n], o))
      {
        NeverPrefix(events, o, ChargesSleepers, n);
        RestedIsAlert(events[..n], o);
      }
    } else {
      FirstBad(events, o, ChargesSleepers);
      var n: nat :| FirstAt(events, o, ChargesSleepers, n);
      ChargeShows(events, o, n);
    }
  }

  /** In a frugal run nothing is aloft while a write sleeps, so no wakeup is lost there. */
  lemma {:induction false} FrugalIsRested(events: seq<Event>, o: Options)
    requires Frugal(events, o)
    ensures Never(events, o, ChargesSleepers)
  {
    if events != [] {
      var before, e := events[..|events| - 1], events[|events| - 1];
      FrugalIsRested(before, o);
      RestedIsAlert(before, o);
      FrugalIsForward(before, o);
      RunIsSound(before, o);
      var c, handed := Run(before, o), Handed(before, o);
      if ChargesSleepers(c, e) {
        TasksAloft(c.writes, handed, c.closed);
        AloftCovers(c.writes, e.i);
      }
    }
  }

  // ---------------------------------------------------------------------
  // One write at a time

  predicate AllEnded(writes: seq<WriteTask>) {
    forall t <- writes :: t.phase.Ended?
  }

  /** Every write() is called when the ones before it have returned. */
  predicate OneAtATime(events: seq<Event>, o: Options) {
    events == [] || (var before, e := events[..|events| - 1], events[|events| - 1];
                     OneAtATime(before, o)
                     && (e.WriteCall? && Writable(Run(before, o)) ==> AllEnded(Run(before, o).writes)))
  }

  /** All but the last write have returned. */
  ghost predicate LastOnly(writes: seq<WriteTask>) {
    forall i | 0 <= i < |writes| - 1 :: writes[i].phase.Ended?
  }

  lemma {:induction false} EndedAloft(writes: seq<WriteTask>)
    requires AllEnded(writes)
    ensures Aloft(writes) == 0
  {
    if writes != [] {
      assert forall t <- writes[..|writes| - 1] :: t in writes;
      EndedAloft(writes[..|writes| - 1]);
    }
  }

  lemma LastAloft(writes: seq<WriteTask>, i: nat)
    requires LastOnly(writes) && i < |writes| && writes[i].phase.Woken?
    ensures Aloft(writes) == 0
  {
    assert i == |writes| - 1;
    EndedAloft(writes[..i]);
  }

  lemma AloneIsFrugal(c: Client, e: Event)
    requires LastOnly(c.writes) && (e.WriteCall? && Writable(c) ==> AllEnded(c.writes))
    ensures !Overcommits(c, e)
  {
    if Looks(c, e).Some? {
      var (b, i) := Looks(c, e).value;
      LastAloft(b.writes, i);
    }
  }

  lemma WokenLastOnly(writes: seq<WriteTask>)
    requires LastOnly(writes)
    ensures LastOnly(WakeAll(writes))
  {
  }

  lemma StepKeepsLastOnly(c: Client, e: Event, o: Options)
    requires LastOnly(c.writes) && (e.WriteCall? && Writable(c) ==> AllEnded(c.writes))
    ensures LastOnly(Step(c, e, o).writes)
  {
    if WriterOf(c, e).None? {
      OthersKeepWrites(c, e, o);
      WokenLastOnly(c.writes);
      WokenLastOnly(WakeAll(c.writes));
    }
  }

  /** A client whose caller awaits every write() is frugal, so all of the above holds of it. */
  lemma {:induction false} OneAtATimeIsFrugal(events: seq<Event>, o: Options)
    requires OneAtATime(events, o)
    ensures Frugal(events, o) && LastOnly(Run(events, o).writes)
  {
    if events != [] {
      var before, e := events[..|events| - 1], events[|events| - 1];
      OneAtATimeIsFrugal(before, o);
      AloneIsFrugal(Run(before, o), e);
      StepKeepsLastOnly(Run(before, o), e, o);
    }
  }

  lemma FlattenLast(parts: seq<Bytes>, bytes: Bytes)
    requires parts != []
    ensures var n := |parts| - 1; Flatten(parts[n := parts[n] + bytes]) == Flatten(parts) + bytes
  {
    var n := |parts| - 1;
    FlattenPush(parts[..n], parts[n]);
    FlattenPush(parts[..n], parts[n] + bytes);
    assert parts == parts[..n] + [parts[n]];
    assert parts[n := parts[n] + bytes] == parts[..n] + [parts[n] + bytes];
    assert Flatten(parts[..n]) + (parts[n] + bytes) == (Flatten(parts[..n]) + parts[n]) + bytes;
  }

  /** And the channel's bytes are what the writes handed over, one after the other. */
  lemma {:induction false} WritesFollowOneAnother(events: seq<Event>, o: Options)
    requires OneAtATime(events, o)
    ensures Written(Run(events, o).out) == Flatten(Handed(events, o))
  {
    if events == [] {
      WrittenOne(OPENING);
    } else {
      var before, e := events[..|events| - 1], events[|events| - 1];
      WritesFollowOneAnother(before, o);
      OneAtATimeIsFrugal(before, o);
      FrugalIsForward(before, o);
      RunIsSound(before, o);
      var c, handed := Run(before, o), Handed(before, o);
      StepWrites(c, e, o);
      var bytes := NewBytes(c, Step(c, e, o));
      if WriterOf(c, e).Some? {
        if e.WriteCall? {
          FlattenPush(handed, bytes);
        } else {
          assert WriterOf(c, e).value == |handed| - 1;
          FlattenLast(handed, bytes);
        }
      }
    }
  }
}
