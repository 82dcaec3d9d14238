/**
 * What the client of module Channel asks of the server, in which order and
 * under which channel number, over all runs.
 */
module Requests {
  import opened Wrappers
  import opened ByteStrings
  import opened Messages
  import opened Channel
  import opened Writes

  /** The requests of openShell; the others are answers, credit, data, resizing and closing. */
  predicate Asks(m: ClientMsg) {
    m.OpenSession? || m.PtyRequest? || m.ShellRequest?
  }

  function Asked(out: seq<ClientMsg>): seq<ClientMsg> {
    if out == [] then []
    else
      var m := out[|out| - 1];
      Asked(out[..|out| - 1]) + if Asks(m) then [m] else []
  }

  /** The confirmation the client took in this step, if any. */
  function TakesConfirmation(c: Client, e: Event): Option<Confirmation> {
    if e.Received? && c.main == Expecting(OpenReply) && e.packet != [] && e.packet[0] == 91
    then ParseConfirmation(e.packet[1..]) else None
  }

  /** The confirmation the client went on with. */
  function Confirmed(events: seq<Event>, o: Options): Option<Confirmation> {
    if events == [] then None
    else
      var before, e := events[..|events| - 1], events[|events| - 1];
      var m := TakesConfirmation(Run(before, o), e);
      if m.Some? then m else Confirmed(before, o)
  }

  /** How many of its requests the client has made, if openShell has not given up. */
  function Made(main: MainTask): nat {
    match main
    case Requesting(stage) => StageNumber(stage)
    case Expecting(stage) => StageNumber(stage)
    case ExpectSend(stage) => StageNumber(stage)
    case _ => 3
  }

  function StageNumber(stage: Stage): nat {
    match stage
    case OpenReply => 1
    case PtyReply => 2
    case ShellReply => 3
  }

  /** A session with this window, then a terminal of this size, then a shell in it, on the confirmed channel. */
  function Script(channel: nat, o: Options): seq<ClientMsg> {
    [OpenSession(0, 2_097_152, 32_768), PtyRequest(channel, o.term, o.cols, o.rows), ShellRequest(channel)]
  }

  ghost predicate OnScript(c: Client, o: Options) {
    && Asked(c.out) <= Script(c.remoteChannel, o)
    && (!c.main.Aborted? ==> |Asked(c.out)| == Made(c.main))
  }

  /** Messages that name a channel name the confirmed one; what is sent before that names channel 0. */
  ghost predicate Named(out: seq<ClientMsg>, confirmed: Option<Confirmation>) {
    forall m <- out :: NamedOne(m, confirmed)
  }

  ghost predicate NamedOne(m: ClientMsg, confirmed: Option<Confirmation>) {
    match m
    case OpenSession(channel, _, _) => channel == 0
    case RequestFailure => true
    case Adjust(channel, _) => channel == 0 || (confirmed.Some? && channel == confirmed.value.channel)
    case ChannelFailure(channel) => channel == 0 || (confirmed.Some? && channel == confirmed.value.channel)
    case _ => confirmed.Some? && m.channel == confirmed.value.channel
  }

  predicate Confirming(main: MainTask) {
    main in {Requesting(OpenReply), Expecting(OpenReply), ExpectSend(OpenReply)}
  }

  ghost predicate OnChannel(c: Client, confirmed: Option<Confirmation>) {
    && Named(c.out, confirmed)
    && (confirmed.None? ==> c.remoteChannel == 0 && (Confirming(c.main) || c.main.Aborted?))
    && (confirmed.Some? ==> c.remoteChannel == confirmed.value.channel && !Confirming(c.main))
  }

  lemma AskedPush(out: seq<ClientMsg>, m: ClientMsg)
    ensures Asked(out + [m]) == Asked(out) + if Asks(m) then [m] else []
  {
    assert (out + [m])[..|out|] == out;
  }

  /** Nothing new is asked, and openShell stands where it stood or has given up. */
  ghost predicate Idles(c: Client, c': Client) {
    && (c'.out == c.out || Says(c, c'))
    && c'.remoteChannel == c.remoteChannel
    && (c'.main.Aborted? || (!c.main.Aborted? && Made(c'.main) == Made(c.main)
                             && (Confirming(c'.main) <==> Confirming(c.main))))
  }

  /** One message more, on its channel, and not a request of openShell. */
  ghost predicate Says(c: Client, c': Client) {
    && |c'.out| == |c.out| + 1 && c'.out == c.out + [c'.out[|c.out|]]
    && SaysOnly(c'.out[|c.out|], c.remoteChannel, Confirming(c.main) || c.main.Aborted?)
  }

  ghost predicate SaysOnly(m: ClientMsg, channel: nat, early: bool) {
    match m
    case RequestFailure => true
    case Adjust(ch, _) => ch == channel
    case ChannelFailure(ch) => ch == channel
    case _ => !Asks(m) && !early && m.channel == channel
  }

  lemma IdlesKeeps(c: Client, c': Client, o: Options, confirmed: Option<Confirmation>)
    requires Idles(c, c') && OnScript(c, o) && OnChannel(c, confirmed)
    ensures OnScript(c', o) && OnChannel(c', confirmed)
  {
    if c'.out != c.out {
      AskedPush(c.out, c'.out[|c.out|]);
    }
  }

  lemma DispatchIdles(c: Client, m: ServerMsg)
    ensures var c' := Dispatch(c, m).0; c'.main == c.main && (c.main.Aborted? || Idles(c, c'))
  {
  }

  lemma ConfirmationKeeps(c: Client, m: Option<Confirmation>, o: Options, confirmed: Option<Confirmation>)
    requires c.main == Expecting(OpenReply) && OnScript(c, o) && OnChannel(c, confirmed)
    ensures var c' := OnConfirmation(c, m, o); OnScript(c', o) && OnChannel(c', if m.Some? then m else confirmed)
  {
    if m.Some? {
      AskedPush(c.out, PtyRequest(m.value.channel, o.term, o.cols, o.rows));
      assert Asked(c.out) == [Script(0, o)[0]];
    }
  }

  lemma NextAsked(c: Client, c': Client, o: Options, confirmed: Option<Confirmation>)
    requires c.main == Expecting(PtyReply) && OnScript(c, o) && OnChannel(c, confirmed)
    requires c' == c.(main := Requesting(ShellReply), out := c.out + [ShellRequest(c.remoteChannel)])
    ensures OnScript(c', o) && OnChannel(c', confirmed)
  {
    AskedPush(c.out, ShellRequest(c.remoteChannel));
    assert Asked(c.out) == Script(c.remoteChannel, o)[..2];
  }

  lemma ReplyKeeps(c: Client, stage: Stage, packet: Bytes, o: Options, confirmed: Option<Confirmation>)
    requires c.main == Expecting(stage) && packet != [] && packet[0] == Wanted(stage)
    requires OnScript(c, o) && OnChannel(c, confirmed)
    ensures var c' := Replied(c, stage, packet, o);
            var m := TakesConfirmation(c, Received(packet));
            OnScript(c', o) && OnChannel(c', if m.Some? then m else confirmed)
  {
    match stage
    case OpenReply => ConfirmationKeeps(c, ParseConfirmation(packet[1..]), o, confirmed);
    case PtyReply => NextAsked(c, Replied(c, stage, packet, o), o, confirmed);
    case ShellReply =>
  }

  lemma ExpectIdles(c: Client, packet: Bytes, o: Options)
    requires c.main.Expecting? && (packet != [] ==> packet[0] != Wanted(c.main.stage))
    ensures Idles(c, Expect(c, c.main.stage, packet, o))
  {
    if packet != [] {
      DispatchIdles(c, Parse(packet));
    }
  }

  lemma PumpIdles(c: Client, packet: Bytes)
    requires c.main.Pumping?
    ensures Idles(c, Pump(c, packet))
  {
    DispatchIdles(c, Parse(packet));
  }

  lemma WriteIdles(c: Client, i: nat)
    requires i < |c.writes| && Open(c.main)
    ensures Idles(c, WriteLoop(c, i)) && Idles(c, WriteInner(c, i))
  {
  }

  lemma OthersIdle(c: Client, e: Event, o: Options)
    requires e.ReadFailed? || e.MainSent? || e.CloseSent? || e.CloseCall? || e.Resize?
    ensures Idles(c, Step(c, e, o)) || Step(c, e, o) == c
  {
  }

  lemma ReceivedKeeps(c: Client, packet: Bytes, o: Options, confirmed: Option<Confirmation>)
    requires OnScript(c, o) && OnChannel(c, confirmed)
    ensures var c', m := Step(c, Received(packet), o), TakesConfirmation(c, Received(packet));
            OnScript(c', o) && OnChannel(c', if m.Some? then m else confirmed)
  {
    if c.main.Expecting? {
      if packet != [] && packet[0] == Wanted(c.main.stage) {
        ReplyKeeps(c, c.main.stage, packet, o, confirmed);
      } else {
        ExpectIdles(c, packet, o);
        IdlesKeeps(c, Expect(c, c.main.stage, packet, o), o, confirmed);
      }
    } else if c.main.Pumping? {
      PumpIdles(c, packet);
      IdlesKeeps(c, Pump(c, packet), o, confirmed);
    }
  }

  lemma WritesIdle(c: Client, e: Event, o: Options)
    requires e.WriteCall? || e.Resumed? || e.WriteSent?
    requires c.writes != [] ==> Open(c.main)
    ensures Idles(c, Step(c, e, o)) || Step(c, e, o) == c
  {
    match e
    case WriteCall(data) =>
      if Writable(c) {
        WriteIdles(Begun(c, data), |c.writes|);
      }
    case Resumed(i) =>
      if InPhase(c, i, Woken) {
        WriteIdles(c, i);
      }
    case WriteSent(i, ok) =>
      if Flying(c, i) {
        WriteIdles(Charged(c, i), i);
      }
  }

  lemma StepKeeps(c: Client, e: Event, o: Options, confirmed: Option<Confirmation>)
    requires OnScript(c, o) && OnChannel(c, confirmed) && (c.writes != [] ==> Open(c.main))
    ensures var c', m := Step(c, e, o), TakesConfirmation(c, e);
            OnScript(c', o) && OnChannel(c', if m.Some? then m else confirmed)
  {
    if e.Received? {
      ReceivedKeeps(c, e.packet, o, confirmed);
    } else {
      if e.WriteCall? || e.Resumed? || e.WriteSent? {
        WritesIdle(c, e, o);
      } else {
        OthersIdle(c, e, o);
      }
      if Step(c, e, o) != c {
        IdlesKeeps(c, Step(c, e, o), o, confirmed);
      }
    }
  }

  lemma StartsOnScript(o: Options)
    ensures OnScript(START, o) && OnChannel(START, None)
  {
    AskedPush([], OPENING);
    assert [] + [OPENING] == [OPENING];
  }

  lemma {:induction false} RunIsOnScript(events: seq<Event>, o: Options)
    ensures OnScript(Run(events, o), o) && OnChannel(Run(events, o), Confirmed(events, o))
  {
    if events == [] {
      StartsOnScript(o);
    } else {
      var before := events[..|events| - 1];
      RunIsOnScript(before, o);
      NoEarlyWrites(before, o);
      StepKeeps(Run(before, o), events[|events| - 1], o, Confirmed(before, o));
    }
  }

  lemma ScriptShows(c: Client, o: Options, confirmed: Option<Confirmation>)
    requires OnScript(c, o) && OnChannel(c, confirmed)
    ensures Asked(c.out) <= Script(if confirmed.Some? then confirmed.value.channel else 0, o)
    ensures (!c.main.Aborted? ==> |Asked(c.out)| == Made(c.main)) && Named(c.out, confirmed)
  {
  }

  /**
   * In every run the client asks for a session of this window, a terminal of
   * its size and a shell, in this order, each once the one before has been
   * granted, and every message it sends on a channel names the number in the
   * confirmation it took, or 0 where it answers before that.
   */
  lemma AsksInOrder(events: seq<Event>, o: Options)
    ensures var c, confirmed := Run(events, o), Confirmed(events, o);
            && Asked(c.out) <= Script(if confirmed.Some? then confirmed.value.channel else 0, o)
            && (!c.main.Aborted? ==> |Asked(c.out)| == Made(c.main))
            && Named(c.out, confirmed)
  {
    RunIsOnScript(events, o);
    ScriptShows(Run(events, o), o, Confirmed(events, o));
  }

  // ---------------------------------------------------------------------
  // Requests of the server

  predicate Answers(m: ClientMsg) {
    m.RequestFailure? || m.ChannelFailure?
  }

  function Given(out: seq<ClientMsg>): seq<ClientMsg> {
    if out == [] then []
    else
      var m := out[|out| - 1];
      Given(out[..|out| - 1]) + if Answers(m) then [m] else []
  }

  function AnswerTo(m: ServerMsg, channel: nat): seq<ClientMsg> {
    match m
    case GlobalRequest(wantReply) => if wantReply then [RequestFailure] else []
    case ChannelRequest(wantReply) => if wantReply then [Messages.ChannelFailure(channel)] else []
    case _ => []
  }

  /** The answer that the packet of this event asks for, if the client takes one and it asks for any. */
  function DueIn(c: Client, e: Event): seq<ClientMsg> {
    if Takes(c, e) then AnswerTo(Parse(e.packet), c.remoteChannel) else []
  }

  function Due(events: seq<Event>, o: Options): seq<ClientMsg> {
    if events == [] then []
    else
      var before, e := events[..|events| - 1], events[|events| - 1];
      Due(before, o) + DueIn(Run(before, o), e)
  }

  lemma GivenPush(out: seq<ClientMsg>, m: ClientMsg)
    ensures Given(out + [m]) == Given(out) + if Answers(m) then [m] else []
  {
    assert (out + [m])[..|out|] == out;
  }

  /** c' has given just these answers more. */
  ghost predicate Gives(c: Client, c': Client, due: seq<ClientMsg>) {
    Given(c'.out) == Given(c.out) + due
  }

  lemma ConsumeGives(c: Client, n: nat)
    ensures Gives(c, ConsumeWindow(c, n).0, [])
  {
    GivenPush(c.out, Adjust(c.remoteChannel, LOCAL_WINDOW - (c.localWindow - n)));
  }

  lemma DispatchGives(c: Client, m: ServerMsg)
    ensures Gives(c, Dispatch(c, m).0, AnswerTo(m, c.remoteChannel))
  {
    match m
    case ChannelData(data) => ConsumeGives(c.(delivered := c.delivered + [OnData(data)]), |data|);
    case ExtendedData(data) => ConsumeGives(c.(delivered := c.delivered + [OnExtendedData(data)]), |data|);
    case ChannelRequest(_) => GivenPush(c.out, Messages.ChannelFailure(c.remoteChannel));
    case GlobalRequest(_) => GivenPush(c.out, RequestFailure);
    case _ =>
  }

  lemma RepliedGives(c: Client, stage: Stage, packet: Bytes, o: Options)
    requires packet != []
    ensures Gives(c, Replied(c, stage, packet, o), [])
  {
    match stage
    case OpenReply =>
      var m := ParseConfirmation(packet[1..]);
      if m.Some? {
        GivenPush(c.out, PtyRequest(m.value.channel, o.term, o.cols, o.rows));
      }
    case PtyReply => GivenPush(c.out, ShellRequest(c.remoteChannel));
    case ShellReply =>
  }

  lemma OnlyRequestsAsk(packet: Bytes)
    requires packet != [] && packet[0] != 80 && packet[0] != 98
    ensures !Parse(packet).GlobalRequest? && !Parse(packet).ChannelRequest?
  {
  }

  lemma ReceivedGives(c: Client, packet: Bytes, o: Options)
    ensures Gives(c, Step(c, Received(packet), o), DueIn(c, Received(packet)))
  {
    if c.main.Expecting? && packet != [] {
      DispatchGives(c, Parse(packet));
      if packet[0] == Wanted(c.main.stage) {
        RepliedGives(c, c.main.stage, packet, o);
      }
      if packet[0] != 80 && packet[0] != 98 {
        OnlyRequestsAsk(packet);
      }
    } else if c.main.Pumping? && !c.closed {
      DispatchGives(c, Parse(packet));
      FinishGives(Dispatch(c, Parse(packet)).0);
    }
  }

  lemma FinishGives(c: Client)
    ensures Finish(c).out == c.out
  {
  }

  lemma WriteGives(c: Client, i: nat)
    requires i < |c.writes|
    ensures Gives(c, WriteLoop(c, i), []) && Gives(c, WriteInner(c, i), [])
  {
    var t, size := c.writes[i], ChunkSize(c, i);
    GivenPush(c.out, Messages.Data(c.remoteChannel, Subarray(t.data, t.offset, t.offset + size)));
  }

  lemma OthersGive(c: Client, e: Event, o: Options)
    requires !e.Received?
    ensures Gives(c, Step(c, e, o), [])
  {
    match e
    case WriteCall(data) => WriteGives(Begun(c, data), |c.writes|);
    case Resumed(i) =>
      if InPhase(c, i, Woken) {
        WriteGives(c, i);
      }
    case WriteSent(i, ok) =>
      if Flying(c, i) {
        WriteGives(Charged(c, i), i);
      }
    case CloseCall => GivenPush(c.out, Messages.Close(c.remoteChannel));
    case Resize(cols, rows) => GivenPush(c.out, WindowChange(c.remoteChannel, cols, rows));
    case _ =>
  }

  /** Each request taken that wants an answer is answered once, in order, with a failure, and no other is. */
  lemma {:induction false} AnswersEveryRequest(events: seq<Event>, o: Options)
    ensures Given(Run(events, o).out) == Due(events, o)
  {
    if events == [] {
      GivenPush([], OPENING);
      assert [] + [OPENING] == [OPENING];
    } else {
      var before, e := events[..|events| - 1], events[|events| - 1];
      AnswersEveryRequest(before, o);
      if e.Received? {
        ReceivedGives(Run(before, o), e.packet, o);
      } else {
        OthersGive(Run(before, o), e, o);
      }
    }
  }
}
