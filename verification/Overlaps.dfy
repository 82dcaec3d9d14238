/**
 * Runs of module Channel in which write() calls overlap, packets and all: the
 * server is sent more than it granted, typed bytes are sent twice, and a call
 * sleeps with window to use.
 */
module Overlaps {
  import opened Wrappers
  import opened ByteStrings
  import opened Wire
  import opened Messages
  import opened Channel
  import opened Writes

  // ---------------------------------------------------------------------
  // Overlapping writes

  function Confirming(channel: nat, window: nat): Bytes {
    [CHANNEL_OPEN_CONFIRMATION]
    + (BigEndian(4, CLIENT_CHANNEL)
       + (BigEndian(4, channel) + (BigEndian(4, window) + (BigEndian(4, MAX_PACKET) + []))))
  }

  const GO_AHEAD := [MainSent(true), Received([CHANNEL_SUCCESS])]

  /** openShell against a server that grants everything. */
  function Opening(channel: nat, window: nat): seq<Event> {
    [MainSent(true), Received(Confirming(channel, window))] + GO_AHEAD + GO_AHEAD
  }

  lemma RunPush(events: seq<Event>, e: Event, o: Options)
    ensures Run(events + [e], o) == Step(Run(events, o), e, o)
    ensures Granted(events + [e], o) == GrantStep(Run(events, o), e, Granted(events, o))
  {
    assert (events + [e])[..|events|] == events;
  }

  lemma ConfirmingRead(channel: nat, window: nat)
    requires channel < U32_LIMIT && window < U32_LIMIT
    ensures ParseConfirmation(Confirming(channel, window)[1..]) == Some(Confirmation(channel, window))
  {
    var tail := BigEndian(4, CLIENT_CHANNEL) + (BigEndian(4, channel)
                + (BigEndian(4, window) + (BigEndian(4, MAX_PACKET) + [])));
    ParsesConfirmation(CLIENT_CHANNEL, channel, window, MAX_PACKET);
    assert ([CHANNEL_OPEN_CONFIRMATION] + tail)[1..] == tail;
  }

  /** The shell's channel is open for the next request, with window bytes to spend and nothing written. */
  ghost predicate Fresh(c: Client, main: MainTask, window: nat) {
    c.main == main && c.remoteWindow == window && c.writes == [] && !c.closed && Written(c.out) == []
  }

  lemma ConfirmationOpens(c: Client, packet: Bytes, channel: nat, window: nat, o: Options)
    requires packet != [] && packet[0] == CHANNEL_OPEN_CONFIRMATION
    requires ParseConfirmation(packet[1..]) == Some(Confirmation(channel, window))
    requires c.main == Expecting(OpenReply) && c.writes == [] && !c.closed && Written(c.out) == []
    ensures Fresh(Step(c, Received(packet), o), Requesting(PtyReply), window)
    ensures forall granted :: GrantStep(c, Received(packet), granted) == window
  {
    SaysNoDataWrites(c.out, Step(c, Received(packet), o).out);
  }

  /** The request for a channel has been sent. */
  lemma RequestSent(o: Options)
    ensures Run([MainSent(true)], o) == START.(main := Expecting(OpenReply))
  {
    RunPush([], MainSent(true), o);
    assert [] + [MainSent(true)] == [MainSent(true)];
  }

  lemma FirstReply(packet: Bytes, channel: nat, window: nat, o: Options)
    requires packet != [] && packet[0] == CHANNEL_OPEN_CONFIRMATION
    requires ParseConfirmation(packet[1..]) == Some(Confirmation(channel, window))
    ensures Fresh(Run([MainSent(true), Received(packet)], o), Requesting(PtyReply), window)
    ensures Granted([MainSent(true), Received(packet)], o) == window
  {
    RequestSent(o);
    RunPush([MainSent(true)], Received(packet), o);
    assert [MainSent(true)] + [Received(packet)] == [MainSent(true), Received(packet)];
    WrittenOne(OPENING);
    ConfirmationOpens(START.(main := Expecting(OpenReply)), packet, channel, window, o);
  }

  /** The task after a reply that openShell waits for. */
  function Following(stage: Stage): MainTask {
    if stage.PtyReply? then Requesting(ShellReply) else Pumping
  }

  lemma ReplyMovesOn(c: Client, stage: Stage, window: nat, o: Options)
    requires Fresh(c, Requesting(stage), window) && !stage.OpenReply?
    ensures Fresh(Step(Step(c, MainSent(true), o), Received([CHANNEL_SUCCESS]), o), Following(stage), window)
    ensures forall granted ::
              GrantStep(Step(c, MainSent(true), o), Received([CHANNEL_SUCCESS]), granted) == granted
  {
    SaysNoDataWrites(c.out, Step(Step(c, MainSent(true), o), Received([CHANNEL_SUCCESS]), o).out);
  }

  lemma GoesAhead(events: seq<Event>, stage: Stage, window: nat, o: Options)
    requires Fresh(Run(events, o), Requesting(stage), window) && !stage.OpenReply?
    ensures Fresh(Run(events + GO_AHEAD, o), Following(stage), window)
    ensures Granted(events + GO_AHEAD, o) == Granted(events, o)
  {
    RunPush(events, MainSent(true), o);
    RunPush(events + [MainSent(true)], Received([CHANNEL_SUCCESS]), o);
    assert events + [MainSent(true)] + [Received([CHANNEL_SUCCESS])] == events + GO_AHEAD;
    ReplyMovesOn(Run(events, o), stage, window, o);
  }

  /** A run that ends with the shell open and window bytes to spend. */
  lemma OpeningOpens(channel: nat, window: nat, o: Options)
    requires channel < U32_LIMIT && window < U32_LIMIT
    ensures Fresh(Run(Opening(channel, window), o), Pumping, window)
    ensures Granted(Opening(channel, window), o) == window
  {
    var events := [MainSent(true), Received(Confirming(channel, window))];
    ConfirmingRead(channel, window);
    FirstReply(Confirming(channel, window), channel, window, o);
    GoesAhead(events, PtyReply, window, o);
    GoesAhead(events + GO_AHEAD, ShellReply, window, o);
  }

  lemma FirstChunk(c: Client, data: Bytes, o: Options)
    requires Writable(c) && 0 < c.remoteWindow <= MAX_CHUNK && |data| >= c.remoteWindow
    ensures var c' := Step(c, WriteCall(data), o);
            && Writable(c') && c'.remoteWindow == c.remoteWindow
            && |Written(c'.out)| == |Written(c.out)| + c.remoteWindow
  {
    var m := Messages.Data(c.remoteChannel, data[..c.remoteWindow]);
    assert data[0..c.remoteWindow] == data[..c.remoteWindow];
    WrittenConcat(c.out, [m]);
    WrittenOne(m);
  }

  lemma TwoWrites(events: seq<Event>, window: nat, data: Bytes, o: Options)
    requires Fresh(Run(events, o), Pumping, window) && 0 < window <= MAX_CHUNK && |data| >= window
    ensures var longer := events + [WriteCall(data)] + [WriteCall(data)];
            |Written(Run(longer, o).out)| == 2 * window && Granted(longer, o) == Granted(events, o)
  {
    RunPush(events, WriteCall(data), o);
    FirstChunk(Run(events, o), data, o);
    RunPush(events + [WriteCall(data)], WriteCall(data), o);
    FirstChunk(Run(events + [WriteCall(data)], o), data, o);
  }

  lemma NoFailsConcat(a: seq<Event>, b: seq<Event>)
    requires NoSendFails(a) && NoSendFails(b)
    ensures NoSendFails(a + b)
  {
  }

  lemma OverlapLosesNothing(channel: nat, window: nat, data: Bytes, o: Options)
    ensures LostBytes(Opening(channel, window) + [WriteCall(data)] + [WriteCall(data)], o) == 0
  {
    var first := [MainSent(true), Received(Confirming(channel, window))];
    assert NoSendFails(first) && NoSendFails(GO_AHEAD) && NoSendFails([WriteCall(data)]);
    NoFailsConcat(first, GO_AHEAD);
    NoFailsConcat(first + GO_AHEAD, GO_AHEAD);
    NoFailsConcat(Opening(channel, window), [WriteCall(data)]);
    NoFailsConcat(Opening(channel, window) + [WriteCall(data)], [WriteCall(data)]);
    NothingLost(Opening(channel, window) + [WriteCall(data)] + [WriteCall(data)], o);
  }

  /** Two writes that overlap each spend the whole window: the server is sent twice what it granted. */
  lemma OverlapOverruns(channel: nat, window: nat, data: Bytes, o: Options)
    requires channel < U32_LIMIT && 0 < window <= MAX_CHUNK && |data| >= window
    ensures var events := Opening(channel, window) + [WriteCall(data)] + [WriteCall(data)];
            && |Written(Run(events, o).out)| == 2 * window
            && Granted(events, o) == window && LostBytes(events, o) == 0
            && Overruns(events, o)
  {
    var events := Opening(channel, window) + [WriteCall(data)] + [WriteCall(data)];
    OpeningOpens(channel, window, o);
    TwoWrites(Opening(channel, window), window, data, o);
    OverlapLosesNothing(channel, window, data, o);
  }

  // ---------------------------------------------------------------------
  // What goes wrong beyond

  /** The open client as far as its writes go: the window, the calls, and what each has handed over. */
  datatype Spot = Spot(window: int, writes: seq<WriteTask>, handed: seq<Bytes>)

  datatype Move = Call(data: Bytes) | Settle(i: nat) | Grant(n: nat) | Resume(i: nat)

  predicate Paired(s: Spot) {
    |s.handed| == |s.writes|
  }

  function Rest(s: Spot, i: nat, t: WriteTask, phase: Phase): Spot
    requires Paired(s) && i < |s.writes|
  {
    s.(writes := s.writes[i := t.(phase := phase)])
  }

  /** Write i looks at the window and sleeps, or takes a chunk of it. */
  function Look(s: Spot, i: nat, t: WriteTask): Spot
    requires Paired(s) && i < |s.writes|
  {
    if s.window == 0 then Rest(s, i, t, Asleep)
    else
      var size := Least(|t.data| - t.offset, s.window, MAX_CHUNK);
      Rest(s, i, t, InFlight(size)).(handed := s.handed[i := s.handed[i] + Subarray(t.data, t.offset, t.offset + size)])
  }

  function Round(s: Spot, i: nat, t: WriteTask): Spot
    requires Paired(s) && i < |s.writes|
  {
    if t.offset < |t.data| then Look(s, i, t) else Rest(s, i, t, Ended(Finished))
  }

  function Play(s: Spot, m: Move): (s': Spot)
    requires Paired(s)
    ensures Paired(s')
  {
    match m
    case Call(data) =>
      var t := WriteTask(data, 0, Woken);
      Round(Spot(s.window, s.writes + [t], s.handed + [[]]), |s.writes|, t)
    case Settle(i) =>
      if i < |s.writes| && s.writes[i].phase.InFlight? then
        var t := s.writes[i];
        Round(s.(window := s.window - t.phase.size), i, WriteTask(t.data, t.offset + t.phase.size, Woken))
      else s
    case Grant(n) => s.(window := s.window + n, writes := WakeAll(s.writes))
    case Resume(i) => if i < |s.writes| && s.writes[i].phase.Woken? then Look(s, i, s.writes[i]) else s
  }

  function Plays(s: Spot, ms: seq<Move>): Spot
    requires Paired(s)
    decreases ms
  {
    if ms == [] then s else Plays(Play(s, ms[0]), ms[1..])
  }

  function AdjustPacket(n: nat): Bytes {
    [CHANNEL_WINDOW_ADJUST] + (BigEndian(4, 0) + (BigEndian(4, n) + []))
  }

  function EventOf(m: Move): Event {
    match m
    case Call(data) => WriteCall(data)
    case Settle(i) => WriteSent(i, true)
    case Grant(n) => Received(AdjustPacket(n))
    case Resume(i) => Resumed(i)
  }

  ghost predicate Stands(c: Client, s: Spot) {
    Paired(s) && c.main.Pumping? && !c.closed && c.remoteWindow == s.window && c.writes == s.writes
  }

  lemma QuietStep(c: Client, e: Event, o: Options, handed: seq<Bytes>)
    requires |handed| == |c.writes| && Step(c, e, o).out == c.out
    ensures HandStep(c, e, o, handed) == if e.WriteCall? && Writable(c) then handed + [[]] else handed
  {
    assert Step(c, e, o).out[|c.out|..] == [];
    if WriterOf(c, e).Some? && WriterOf(c, e).value < |handed| {
      assert handed[WriterOf(c, e).value] + [] == handed[WriterOf(c, e).value];
    }
  }

  lemma ChunkStep(c: Client, e: Event, o: Options, m: ClientMsg)
    requires m.Data? && Step(c, e, o).out == c.out + [m]
    ensures NewBytes(c, Step(c, e, o)) == m.data
  {
    assert Step(c, e, o).out[|c.out|..] == [m];
    WrittenOne(m);
  }

  /** One move is one step of the client. */
  lemma CallFollows(c: Client, s: Spot, data: Bytes, o: Options)
    requires Stands(c, s)
    ensures var e, s' := WriteCall(data), Play(s, Call(data));
            Stands(Step(c, e, o), s') && HandStep(c, e, o, s.handed) == s'.handed
  {
    var e := WriteCall(data);
    if data != [] && c.remoteWindow != 0 {
      LookingSends(c, e, o);
      ChunkStep(c, e, o, NextChunk(Begun(c, data), |c.writes|));
    } else {
      QuietStep(c, e, o, s.handed);
    }
  }

  lemma SettleFollows(c: Client, s: Spot, i: nat, o: Options)
    requires Stands(c, s) && Flying(c, i)
    ensures var e, s' := WriteSent(i, true), Play(s, Settle(i));
            Stands(Step(c, e, o), s') && HandStep(c, e, o, s.handed) == s'.handed
  {
    var e, b := WriteSent(i, true), Charged(c, i);
    if b.remoteWindow != 0 && b.writes[i].offset < |b.writes[i].data| {
      LookingSends(c, e, o);
      ChunkStep(c, e, o, NextChunk(b, i));
    } else {
      QuietStep(c, e, o, s.handed);
    }
  }

  lemma ResumeFollows(c: Client, s: Spot, i: nat, o: Options)
    requires Stands(c, s) && InPhase(c, i, Woken) && c.writes[i].offset < |c.writes[i].data|
    ensures var e, s' := Resumed(i), Play(s, Resume(i));
            Stands(Step(c, e, o), s') && HandStep(c, e, o, s.handed) == s'.handed
  {
    var e := Resumed(i);
    if c.remoteWindow != 0 {
      LookingSends(c, e, o);
      ChunkStep(c, e, o, NextChunk(c, i));
    } else {
      QuietStep(c, e, o, s.handed);
    }
  }

  lemma MoveFollows(c: Client, s: Spot, m: Move, o: Options)
    requires Stands(c, s) && (m.Grant? ==> m.n < U32_LIMIT) && forall t <- c.writes :: Sized(t)
    ensures Stands(Step(c, EventOf(m), o), Play(s, m))
    ensures HandStep(c, EventOf(m), o, s.handed) == Play(s, m).handed
  {
    match m
    case Call(data) => CallFollows(c, s, data, o);
    case Settle(i) =>
      if Flying(c, i) {
        SettleFollows(c, s, i, o);
      }
    case Grant(n) => ParsesWindowAdjust(0, n, []);
    case Resume(i) =>
      if InPhase(c, i, Woken) {
        assert Sized(c.writes[i]);
        ResumeFollows(c, s, i, o);
      }
  }

  lemma HandedPush(events: seq<Event>, e: Event, o: Options)
    ensures Handed(events + [e], o) == HandStep(Run(events, o), e, o, Handed(events, o))
    ensures Run(events + [e], o) == Step(Run(events, o), e, o)
  {
    assert (events + [e])[..|events|] == events;
  }

  ghost predicate Grants32(ms: seq<Move>) {
    forall m <- ms :: m.Grant? ==> m.n < U32_LIMIT
  }

  /** Moves played one after the other are what a run of the client comes to. */
  lemma {:induction false} PlaysFollow(events: seq<Event>, s: Spot, ms: seq<Move>, o: Options)
    requires Stands(Run(events, o), s) && Handed(events, o) == s.handed && Grants32(ms)
    ensures exists more :: Stands(Run(more, o), Plays(s, ms)) && Handed(more, o) == Plays(s, ms).handed
    decreases ms
  {
    if ms == [] {
      assert Stands(Run(events, o), Plays(s, ms));
    } else {
      AlwaysSized(events, o);
      MoveFollows(Run(events, o), s, ms[0], o);
      HandedPush(events, EventOf(ms[0]), o);
      assert forall m <- ms[1..] :: m in ms;
      PlaysFollow(events + [EventOf(ms[0])], Play(s, ms[0]), ms[1..], o);
    }
  }

  lemma WritesOnlyGrow(c: Client, e: Event, o: Options)
    ensures |c.writes| <= |Step(c, e, o).writes|
    ensures WriterOf(c, e).Some? ==> Step(c, e, o).writes != []
  {
    if WriterOf(c, e).None? {
      OthersKeepWrites(c, e, o);
    }
  }

  lemma {:induction false} NothingHanded(events: seq<Event>, o: Options)
    requires Run(events, o).writes == []
    ensures Handed(events, o) == []
  {
    if events != [] {
      var before := events[..|events| - 1];
      WritesOnlyGrow(Run(before, o), events[|events| - 1], o);
      NothingHanded(before, o);
    }
  }

  /** Every play of moves after a whole openShell is a run. */
  lemma PlayIsRun(window: nat, ms: seq<Move>, o: Options)
    requires window < U32_LIMIT && Grants32(ms)
    ensures var s := Plays(Spot(window, [], []), ms);
            exists events :: Stands(Run(events, o), s) && Handed(events, o) == s.handed
  {
    OpeningOpens(7, window, o);
    NothingHanded(Opening(7, window), o);
    PlaysFollow(Opening(7, window), Spot(window, [], []), ms, o);
  }

  const FIRST: Bytes := [1, 2, 3]
  const SECOND: Bytes := [4, 5, 6]
  const THIRD: Bytes := [7, 8, 9]

  const REPEATING := [Call(FIRST), Call(SECOND), Settle(0), Settle(1), Settle(1), Grant(1), Resume(1)]

  /** Both have taken the one byte. */
  lemma TwoCalls()
    ensures Play(Play(Spot(1, [], []), Call(FIRST)), Call(SECOND))
         == Spot(1, [WriteTask(FIRST, 0, InFlight(1)), WriteTask(SECOND, 0, InFlight(1))], [[1], [4]])
  {
    var s1 := Play(Spot(1, [], []), Call(FIRST));
    assert s1.writes == [WriteTask(FIRST, 0, InFlight(1))];
    assert s1.handed[0] == [1] && s1.handed == [[1]];
    var s2 := Play(s1, Call(SECOND));
    assert s2.writes == [WriteTask(FIRST, 0, InFlight(1)), WriteTask(SECOND, 0, InFlight(1))];
    assert s2.handed[1] == [4] && s2.handed == [[1], [4]];
  }

  /** The first sleeps; the second overdraws the window, and its chunk of size -1 takes it back to its start. */
  lemma SecondRestarts()
    ensures Plays(Spot(1, [WriteTask(FIRST, 0, InFlight(1)), WriteTask(SECOND, 0, InFlight(1))], [[1], [4]]),
                  [Settle(0), Settle(1), Settle(1)])
         == Spot(0, [WriteTask(FIRST, 1, Asleep), WriteTask(SECOND, 0, Asleep)], [[1], [4]])
  {
    var s2 := Spot(1, [WriteTask(FIRST, 0, InFlight(1)), WriteTask(SECOND, 0, InFlight(1))], [[1], [4]]);
    var s3 := Play(s2, Settle(0));
    assert s3 == Spot(0, [WriteTask(FIRST, 1, Asleep), WriteTask(SECOND, 0, InFlight(1))], [[1], [4]]);
    var s4 := Play(s3, Settle(1));
    assert s4.writes == [WriteTask(FIRST, 1, Asleep), WriteTask(SECOND, 1, InFlight(-1))];
    assert s4.handed[1] == [4] && s4.handed == [[1], [4]];
    var s5 := Play(s4, Settle(1));
    assert s5 == Spot(0, [WriteTask(FIRST, 1, Asleep), WriteTask(SECOND, 0, Asleep)], [[1], [4]]);
    assert Plays(s4, [Settle(1)]) == s5;
    assert Plays(s3, [Settle(1), Settle(1)]) == s5;
  }

  lemma SecondRepeats()
    ensures Plays(Spot(0, [WriteTask(FIRST, 1, Asleep), WriteTask(SECOND, 0, Asleep)], [[1], [4]]),
                  [Grant(1), Resume(1)])
         == Spot(1, [WriteTask(FIRST, 1, Woken), WriteTask(SECOND, 0, InFlight(1))], [[1], [4, 4]])
  {
    var s5 := Spot(0, [WriteTask(FIRST, 1, Asleep), WriteTask(SECOND, 0, Asleep)], [[1], [4]]);
    var s6 := Play(s5, Grant(1));
    assert s6 == Spot(1, [WriteTask(FIRST, 1, Woken), WriteTask(SECOND, 0, Woken)], [[1], [4]]);
    var s7 := Play(s6, Resume(1));
    assert s7.writes == [WriteTask(FIRST, 1, Woken), WriteTask(SECOND, 0, InFlight(1))];
    assert s7.handed[1] == [4, 4] && s7.handed == [[1], [4, 4]];
    assert Plays(s6, [Resume(1)]) == s7;
  }

  lemma {:induction false} PlaysConcat(s: Spot, a: seq<Move>, b: seq<Move>)
    requires Paired(s)
    ensures Paired(Plays(s, a)) && Plays(s, a + b) == Plays(Plays(s, a), b)
    decreases a
  {
    if a == [] {
      assert a + b == b;
    } else {
      assert (a + b)[1..] == a[1..] + b;
      PlaysConcat(Play(s, a[0]), a[1..], b);
    }
  }

  lemma RepeatingPlays()
    ensures Plays(Spot(1, [], []), REPEATING)
         == Spot(1, [WriteTask(FIRST, 1, Woken), WriteTask(SECOND, 0, InFlight(1))], [[1], [4, 4]])
  {
    var calls, settles, others := [Call(FIRST), Call(SECOND)], [Settle(0), Settle(1), Settle(1)], [Grant(1), Resume(1)];
    TwoCalls();
    SecondRestarts();
    SecondRepeats();
    PlaysConcat(Spot(1, [], []), calls, settles + others);
    PlaysConcat(Plays(Spot(1, [], []), calls), settles, others);
    assert REPEATING == calls + (settles + others);
    assert Plays(Play(Spot(1, [], []), Call(FIRST)), [Call(SECOND)])
        == Play(Play(Spot(1, [], []), Call(FIRST)), Call(SECOND));
  }

  /**
   * Two calls that overlap on a window of one byte: once both are charged the
   * second goes back over its data, and after the next adjustment it hands
   * over its first byte again. What was typed once is sent twice.
   */
  lemma OverlapRepeats(o: Options)
    ensures exists events :: |Run(events, o).writes| == 2 && Run(events, o).writes[1].data == SECOND
                             && Handed(events, o) == [[1], [4, 4]]
  {
    RepeatingPlays();
    PlayIsRun(1, REPEATING, o);
  }

  const SLEEPING := [Call(FIRST), Call(SECOND), Call(THIRD), Settle(0), Settle(1), Settle(2), Settle(1), Settle(2)]

  /** The third has taken the byte too, and the first sleeps. */
  lemma ThreeCalls()
    ensures var s := Plays(Spot(1, [], []), [Call(FIRST), Call(SECOND), Call(THIRD), Settle(0)]);
            && s.window == 0
            && s.writes == [WriteTask(FIRST, 1, Asleep), WriteTask(SECOND, 0, InFlight(1)),
                            WriteTask(THIRD, 0, InFlight(1))]
  {
    var s1 := Play(Spot(1, [], []), Call(FIRST));
    var s2 := Play(s1, Call(SECOND));
    var s3 := Play(s2, Call(THIRD));
    TwoCalls();
    assert s3.writes == [WriteTask(FIRST, 0, InFlight(1)), WriteTask(SECOND, 0, InFlight(1)),
                         WriteTask(THIRD, 0, InFlight(1))];
    var s4 := Play(s3, Settle(0));
    assert s4.writes == [WriteTask(FIRST, 1, Asleep), WriteTask(SECOND, 0, InFlight(1)),
                         WriteTask(THIRD, 0, InFlight(1))];
    assert Plays(s3, [Settle(0)]) == s4;
    assert Plays(s2, [Call(THIRD), Settle(0)]) == s4;
    assert Plays(s1, [Call(SECOND), Call(THIRD), Settle(0)]) == s4;
  }

  /** The others overdraw the window in turn, until one of them goes back and refills it. */
  lemma OthersOverdraw(s: Spot)
    requires Paired(s) && s.window == 0
    requires s.writes
          == [WriteTask(FIRST, 1, Asleep), WriteTask(SECOND, 0, InFlight(1)), WriteTask(THIRD, 0, InFlight(1))]
    ensures var s' := Plays(s, [Settle(1), Settle(2), Settle(1), Settle(2)]);
            s'.window == 1 && |s'.writes| == 3 && s'.writes[0].phase.Asleep?
  {
    var s5 := Play(s, Settle(1));
    assert s5.window == -1 && s5.writes[1] == WriteTask(SECOND, 1, InFlight(-1));
    var s6 := Play(s5, Settle(2));
    assert s6.window == -2 && s6.writes[2] == WriteTask(THIRD, 1, InFlight(-2)) && s6.writes[1] == s5.writes[1];
    var s7 := Play(s6, Settle(1));
    assert s7.window == -1 && s7.writes[2] == s6.writes[2];
    var s8 := Play(s7, Settle(2));
    assert s8.window == 1;
    assert s8.writes[0] == s.writes[0];
    assert Plays(s7, [Settle(2)]) == s8;
    assert Plays(s6, [Settle(1), Settle(2)]) == s8;
    assert Plays(s5, [Settle(2), Settle(1), Settle(2)]) == s8;
  }

  lemma SleepingPlays()
    ensures Plays(Spot(1, [], []), SLEEPING).window == 1
    ensures Sleeping(Plays(Spot(1, [], []), SLEEPING).writes)
  {
    var calls := [Call(FIRST), Call(SECOND), Call(THIRD), Settle(0)];
    var settles := [Settle(1), Settle(2), Settle(1), Settle(2)];
    PlaysConcat(Spot(1, [], []), calls, settles);
    ThreeCalls();
    OthersOverdraw(Plays(Spot(1, [], []), calls));
    assert SLEEPING == calls + settles;
    var writes := Plays(Spot(1, [], []), SLEEPING).writes;
    assert writes[0] in writes;
  }

  /** Three calls that overlap: one ends up asleep on an open session with a byte of window to use. */
  lemma OverlapSleeps(o: Options)
    ensures exists events :: Run(events, o).remoteWindow == 1 && !Run(events, o).closed
                             && Sleeping(Run(events, o).writes)
  {
    SleepingPlays();
    PlayIsRun(1, SLEEPING, o);
  }
}
