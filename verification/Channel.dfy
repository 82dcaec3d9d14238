/**
 * The channel of src/ssh/connection.ts as a step machine. Three kinds of task
 * share the client: the main one (openShell, then pump), and any number of
 * write() and of close() calls. Each is cut at its awaits, and the steps of
 * different tasks may come in any order.
 */
module Channel {
  import opened Wrappers
  import opened ByteStrings
  import opened Wire
  import opened Messages

  const LOCAL_WINDOW := 2 * 1024 * 1024
  const WINDOW_REFILL_AT := LOCAL_WINDOW / 2
  const MAX_PACKET := 32 * 1024
  const MAX_CHUNK := MAX_PACKET - 64
  const CLIENT_CHANNEL := 0

  /** The reply openShell is after. */
  datatype Stage = OpenReply | PtyReply | ShellReply

  datatype MainTask =
    | Requesting(stage: Stage)  // awaiting the send of the request
    | Expecting(stage: Stage)   // awaiting a packet in expect()
    | ExpectSend(stage: Stage)  // awaiting a send made while dispatching in expect()
    | Pumping
    | PumpSend
    | Stopped
    | Aborted

  datatype WriteEnd = Finished | FoundClosed | SendFailed

  /** Woken is also where a write() stands that is about to look at the window. */
  datatype Phase = Asleep | Woken | InFlight(size: int) | Ended(end: WriteEnd)

  /** One write() call; offset is its loop variable. */
  datatype WriteTask = WriteTask(data: Bytes, offset: int, phase: Phase)

  /** A callback made with bytes of the terminal, in the order they were made. */
  datatype Delivery = OnData(data: Bytes) | OnExtendedData(data: Bytes)

  /**
   * The fields of SshClient and its tasks, every write() call made so far
   * among them, then what the outside has seen: messages handed to the packet
   * layer and callbacks made.
   */
  datatype Client = Client(
    closed: bool,
    remoteWindow: int,
    localWindow: int,
    remoteChannel: nat,
    main: MainTask,
    writes: seq<WriteTask>,
    closers: nat,
    out: seq<ClientMsg>,
    delivered: seq<Delivery>,
    onClose: nat)

  datatype Options = Options(term: Bytes, cols: nat, rows: nat)

  const OPENING := OpenSession(CLIENT_CHANNEL, LOCAL_WINDOW, MAX_PACKET)

  /** openShell up to its first await. */
  const START := Client(false, 0, LOCAL_WINDOW, 0, Requesting(OpenReply), [], 0, [OPENING], [], 0)

  datatype Event =
    | Received(packet: Bytes)
    | ReadFailed
    | MainSent(ok: bool)
    | WriteCall(data: Bytes)
    | Resumed(i: nat)
    | WriteSent(i: nat, ok: bool)
    | CloseCall
    | CloseSent(ok: bool)
    | Resize(cols: nat, rows: nat)

  // ---------------------------------------------------------------------
  // The pieces every task uses

  function Send(c: Client, m: ClientMsg): Client {
    c.(out := c.out + [m])
  }

  function WakeOne(t: WriteTask): WriteTask {
    if t.phase.Asleep? then t.(phase := Woken) else t
  }

  function WakeAll(writes: seq<WriteTask>): seq<WriteTask> {
    seq(|writes|, i requires 0 <= i < |writes| => WakeOne(writes[i]))
  }

  function Wake(c: Client): Client {
    c.(writes := WakeAll(c.writes))
  }

  /** Teardown: once only, waking whoever waits for window. */
  function Finish(c: Client): Client {
    if c.closed then c else Wake(c.(closed := true, onClose := c.onClose + 1))
  }

  /** What dispatch did before its first await, and whether it awaits a send, ended the channel or threw. */
  datatype Verdict = Continue | AwaitSend | Done | Threw

  function ConsumeWindow(c: Client, n: nat): (Client, Verdict) {
    var left := c.localWindow - n;
    if left > WINDOW_REFILL_AT then (c.(localWindow := left), Continue)
    else (Send(c.(localWindow := LOCAL_WINDOW), Adjust(c.remoteChannel, LOCAL_WINDOW - left)), AwaitSend)
  }

  function Dispatch(c: Client, m: ServerMsg): (Client, Verdict) {
    match m
    case ChannelData(data) => ConsumeWindow(c.(delivered := c.delivered + [OnData(data)]), |data|)
    case ExtendedData(data) => ConsumeWindow(c.(delivered := c.delivered + [OnExtendedData(data)]), |data|)
    case WindowAdjust(n) => (Wake(c.(remoteWindow := c.remoteWindow + n)), Continue)
    case ChannelClose => (c, Done)
    case ChannelRequest(wantReply) =>
      if wantReply then (Send(c, ChannelFailure(c.remoteChannel)), AwaitSend) else (c, Continue)
    case GlobalRequest(wantReply) => if wantReply then (Send(c, RequestFailure), AwaitSend) else (c, Continue)
    case Disconnect => (Finish(c), Done)
    case KexInit => (Finish(c), Done)
    case Malformed => (c, Threw)
    case _ => (c, Continue)
  }

  // ---------------------------------------------------------------------
  // The main task

  predicate IsNoise(kind: nat) {
    kind == IGNORE || kind == DEBUG || kind == EXT_INFO || kind == UNIMPLEMENTED
  }

  predicate IsChannelMessage(kind: nat) {
    CHANNEL_OPEN_CONFIRMATION <= kind <= Messages.CHANNEL_FAILURE
  }

  function Wanted(stage: Stage): nat {
    if stage == OpenReply then CHANNEL_OPEN_CONFIRMATION else CHANNEL_SUCCESS
  }

  function Refusal(stage: Stage): nat {
    if stage == OpenReply then CHANNEL_OPEN_FAILURE else Messages.CHANNEL_FAILURE
  }

  /** openShell once expect() has returned the reply it wanted. */
  function Replied(c: Client, stage: Stage, packet: Bytes, o: Options): Client
    requires packet != []
  {
    match stage
    case OpenReply => OnConfirmation(c, ParseConfirmation(packet[1..]), o)
    case PtyReply => Send(c.(main := Requesting(ShellReply)), ShellRequest(c.remoteChannel))
    case ShellReply => c.(main := Pumping)
  }

  function OnConfirmation(c: Client, m: Option<Confirmation>, o: Options): Client {
    match m
    case None => c.(main := Aborted)
    case Some(Confirmation(channel, window)) =>
      Send(c.(remoteChannel := channel, remoteWindow := window, main := Requesting(PtyReply)),
           PtyRequest(channel, o.term, o.cols, o.rows))
  }

  /** One packet in expect(): the reply, a refusal, noise, or traffic for the dispatcher. */
  function Expect(c: Client, stage: Stage, packet: Bytes, o: Options): Client {
    if packet == [] then c.(main := Aborted)
    else
      var kind, m := packet[0], Parse(packet);
      if kind == Wanted(stage) then Replied(c, stage, packet, o)
      else if kind == Refusal(stage) || kind == DISCONNECT then c.(main := Aborted)
      else if kind == GLOBAL_REQUEST || IsChannelMessage(kind) then
        var (c', verdict) := Dispatch(c, m);
        match verdict
        case Continue => c'.(main := Expecting(stage))
        case AwaitSend => c'.(main := ExpectSend(stage))
        case _ => c'.(main := Aborted)
      else if IsNoise(kind) then c
      else c.(main := Aborted)
  }

  function Pump(c: Client, packet: Bytes): Client {
    if c.closed then c.(main := Stopped)
    else
      var (c', verdict) := Dispatch(c, Parse(packet));
      match verdict
      case Continue => c'
      case AwaitSend => c'.(main := PumpSend)
      case _ => Finish(c').(main := Stopped)
  }

  function MainSendSettled(c: Client, ok: bool): Client {
    match c.main
    case Requesting(stage) => c.(main := if ok then Expecting(stage) else Aborted)
    case ExpectSend(stage) => c.(main := if ok then Expecting(stage) else Aborted)
    case PumpSend => if ok then c.(main := Pumping) else Finish(c).(main := Stopped)
    case _ => c
  }

  // ---------------------------------------------------------------------
  // write()

  /** A bound of Uint8Array.subarray: negative ones count from the end, and all are clamped. */
  function Bound(data: Bytes, at: int): nat {
    if at < -|data| then 0 else if at < 0 then |data| + at else if at > |data| then |data| else at
  }

  function Subarray(data: Bytes, from: int, to: int): Bytes {
    var lo, hi := Bound(data, from), Bound(data, to);
    if hi < lo then [] else data[lo..hi]
  }

  function Least(a: int, b: int, c: int): int {
    var m := if a < b then a else b;
    if m < c then m else c
  }

  /** The size of the chunk that write i takes when the window lets it. */
  function ChunkSize(c: Client, i: nat): int
    requires i < |c.writes|
  {
    Least(|c.writes[i].data| - c.writes[i].offset, c.remoteWindow, MAX_CHUNK)
  }

  function SetPhase(c: Client, i: nat, phase: Phase): Client
    requires i < |c.writes|
  {
    c.(writes := c.writes[i := c.writes[i].(phase := phase)])
  }

  /** From the wait for window on: the guard of the outer loop is not looked at again after a wakeup. */
  function WriteInner(c: Client, i: nat): Client
    requires i < |c.writes|
  {
    if c.remoteWindow == 0 && !c.closed then SetPhase(c, i, Asleep)
    else if c.closed then SetPhase(c, i, Ended(FoundClosed))
    else
      var t, size := c.writes[i], ChunkSize(c, i);
      Send(SetPhase(c, i, InFlight(size)),
           Messages.Data(c.remoteChannel, Subarray(t.data, t.offset, t.offset + size)))
  }

  /** The loop of write() from the top of an iteration to its next await or its end. */
  function WriteLoop(c: Client, i: nat): Client
    requires i < |c.writes|
  {
    if c.writes[i].offset < |c.writes[i].data| then WriteInner(c, i) else SetPhase(c, i, Ended(Finished))
  }

  /** write() once called, standing at the top of its loop. */
  function Begun(c: Client, data: Bytes): Client {
    c.(writes := c.writes + [WriteTask(data, 0, Woken)])
  }

  /** The chunk of write i has been sent: the window is charged and the offset moves on. */
  function Charged(c: Client, i: nat): Client
    requires i < |c.writes| && c.writes[i].phase.InFlight?
  {
    var t := c.writes[i];
    c.(remoteWindow := c.remoteWindow - t.phase.size,
       writes := c.writes[i := WriteTask(t.data, t.offset + t.phase.size, Woken)])
  }

  // ---------------------------------------------------------------------
  // Steps

  /** The caller holds a client only once openShell has finished. */
  predicate Open(main: MainTask) {
    main.Pumping? || main.PumpSend? || main.Stopped?
  }

  /** write() throws when it finds the session closed, and leaves nothing behind. */
  predicate Writable(c: Client) {
    Open(c.main) && !c.closed
  }

  predicate InPhase(c: Client, i: nat, phase: Phase) {
    i < |c.writes| && c.writes[i].phase == phase
  }

  predicate Flying(c: Client, i: nat) {
    i < |c.writes| && c.writes[i].phase.InFlight?
  }

  /** An event that cannot happen in c leaves it alone. */
  function Step(c: Client, e: Event, o: Options): Client {
    match e
    case Received(packet) =>
      if c.main.Expecting? then Expect(c, c.main.stage, packet, o)
      else if c.main.Pumping? then Pump(c, packet)
      else c
    case ReadFailed =>
      if c.main.Expecting? then c.(main := Aborted)
      else if c.main.Pumping? then Finish(c).(main := Stopped)
      else c
    case MainSent(ok) => MainSendSettled(c, ok)
    case WriteCall(data) => if Writable(c) then WriteLoop(Begun(c, data), |c.writes|) else c
    case Resumed(i) => if InPhase(c, i, Woken) then WriteInner(c, i) else c
    case WriteSent(i, ok) =>
      if !Flying(c, i) then c
      else if ok then WriteLoop(Charged(c, i), i)
      else SetPhase(c, i, Ended(SendFailed))
    case CloseCall => if Writable(c) then Send(c.(closers := c.closers + 1), Messages.Close(c.remoteChannel)) else c
    case CloseSent(ok) => if c.closers > 0 then Finish(c.(closers := c.closers - 1)) else c
    case Resize(cols, rows) => if Writable(c) then Send(c, WindowChange(c.remoteChannel, cols, rows)) else c
  }

  function Run(events: seq<Event>, o: Options): Client {
    if events == [] then START
    else Step(Run(events[..|events| - 1], o), events[|events| - 1], o)
  }

  // ---------------------------------------------------------------------
  // What a run was granted, lost and handed over

  /** The bytes of channel data in these messages, in order. */
  function Written(out: seq<ClientMsg>): Bytes {
    if out == [] then []
    else
      var m := out[|out| - 1];
      Written(out[..|out| - 1]) + if m.Data? then m.data else []
  }

  /** The client takes the packet of e: it awaits one, and the pump drops what comes after the end. */
  predicate Takes(c: Client, e: Event) {
    e.Received? && e.packet != [] && (c.main.Expecting? || (c.main.Pumping? && !c.closed))
  }

  /** A confirmation sets the credit, a WINDOW_ADJUST adds to it. */
  function GrantStep(c: Client, e: Event, granted: int): int {
    if !Takes(c, e) then granted
    else if c.main == Expecting(OpenReply) && e.packet[0] == CHANNEL_OPEN_CONFIRMATION then
      (match ParseConfirmation(e.packet[1..]) case None => granted case Some(m) => m.window)
    else
      match Parse(e.packet)
      case WindowAdjust(n) => granted + n
      case _ => granted
  }

  /** The credit the server has given, by the packets the client took. */
  function Granted(events: seq<Event>, o: Options): int {
    if events == [] then 0
    else
      var before, e := events[..|events| - 1], events[|events| - 1];
      GrantStep(Run(before, o), e, Granted(before, o))
  }

  function LostIn(c: Client, e: Event): int {
    if e.WriteSent? && !e.ok && Flying(c, e.i) then c.writes[e.i].phase.size else 0
  }

  /** The bytes of the chunks whose sends failed. */
  function LostBytes(events: seq<Event>, o: Options): int {
    if events == [] then 0
    else
      var before, e := events[..|events| - 1], events[|events| - 1];
      LostBytes(before, o) + LostIn(Run(before, o), e)
  }

  /** The write() whose code runs in this step, if any. */
  function WriterOf(c: Client, e: Event): Option<nat> {
    match e
    case WriteCall(_) => if Writable(c) then Some(|c.writes|) else None
    case Resumed(i) => if InPhase(c, i, Woken) then Some(i) else None
    case WriteSent(i, _) => if Flying(c, i) then Some(i) else None
    case _ => None
  }

  /** The channel data that is new in c'. */
  function NewBytes(c: Client, c': Client): Bytes {
    if |c.out| <= |c'.out| then Written(c'.out[|c.out|..]) else []
  }

  function HandStep(c: Client, e: Event, o: Options, handed: seq<Bytes>): seq<Bytes> {
    match WriterOf(c, e)
    case None => handed
    case Some(i) =>
      var bytes := NewBytes(c, Step(c, e, o));
      if i < |handed| then handed[i := handed[i] + bytes] else handed + [bytes]
  }

  /** For each write() call, the bytes it has handed to the packet layer. */
  function Handed(events: seq<Event>, o: Options): seq<Bytes> {
    if events == [] then []
    else
      var before, e := events[..|events| - 1], events[|events| - 1];
      HandStep(Run(before, o), e, o, Handed(before, o))
  }

  function Pending(t: WriteTask): int {
    if t.phase.InFlight? then t.phase.size else 0
  }

  /** The sizes of the chunks whose sends have not settled. */
  function Aloft(writes: seq<WriteTask>): int {
    if writes == [] then 0 else Aloft(writes[..|writes| - 1]) + Pending(writes[|writes| - 1])
  }

  /** The write whose look at the window this step is, and the client it looks at. */
  function Looks(c: Client, e: Event): (r: Option<(Client, nat)>)
    ensures r.Some? ==> r.value.1 < |r.value.0.writes|
  {
    match e
    case WriteCall(data) => if Writable(c) then Some((Begun(c, data), |c.writes|)) else None
    case Resumed(i) => if InPhase(c, i, Woken) then Some((c, i)) else None
    case WriteSent(i, ok) => if Flying(c, i) && ok then Some((Charged(c, i), i)) else None
    case _ => None
  }

  /** It takes a chunk although the chunks aloft leave less window than that. */
  predicate Overcommits(c: Client, e: Event) {
    match Looks(c, e)
    case None => false
    case Some((b, i)) =>
      && !b.closed && b.remoteWindow != 0 && b.writes[i].offset < |b.writes[i].data|
      && Aloft(b.writes) + ChunkSize(b, i) > b.remoteWindow
  }

  /** It takes a chunk out of a window that is overdrawn: the size comes out negative. */
  predicate Backs(c: Client, e: Event) {
    match Looks(c, e)
    case None => false
    case Some((b, i)) => !b.closed && b.remoteWindow < 0 && b.writes[i].offset < |b.writes[i].data|
  }

  /** No step of the run is one of these. */
  predicate Never(events: seq<Event>, o: Options, bad: (Client, Event) -> bool) {
    events == [] || (var before := events[..|events| - 1];
                     Never(before, o, bad) && !bad(Run(before, o), events[|events| - 1]))
  }

  /** No write takes a chunk of negative size. */
  predicate Forward(events: seq<Event>, o: Options) {
    Never(events, o, Backs)
  }

  /** No write takes a chunk that does not fit. */
  predicate Frugal(events: seq<Event>, o: Options) {
    Never(events, o, Overcommits)
  }

  // ---------------------------------------------------------------------
  // What steps keep while sizes are positive

  /** Bytes in sends that did not fail, plus the credit still in hand, are the credit granted. */
  ghost predicate Books(out: seq<ClientMsg>, lost: int, remoteWindow: int, writes: seq<WriteTask>, granted: int) {
    |Written(out)| - lost + remoteWindow - Aloft(writes) == granted
  }

  ghost predicate ChunksFit(out: seq<ClientMsg>) {
    forall m <- out :: m.Data? ==> 1 <= |m.data| <= MAX_CHUNK
  }

  /** A write has handed over a prefix of its data: up to its offset, and the chunk aloft. */
  ghost predicate TaskSound(t: WriteTask, handed: Bytes, closed: bool) {
    match t.phase
    case InFlight(size) => 0 <= t.offset && 0 < size <= |t.data| - t.offset && handed == t.data[..t.offset + size]
    case Ended(end) =>
      handed <= t.data && (end == Finished ==> handed == t.data) && (end == FoundClosed ==> closed)
    case _ => 0 <= t.offset < |t.data| && handed == t.data[..t.offset]
  }

  ghost predicate Tasks(writes: seq<WriteTask>, handed: seq<Bytes>, closed: bool) {
    |handed| == |writes| && forall i | 0 <= i < |writes| :: TaskSound(writes[i], handed[i], closed)
  }

  /** Nothing is written or closed before the caller has the client. */
  ghost predicate Quiet(
    open: bool, out: seq<ClientMsg>, lost: int, writes: seq<WriteTask>, closed: bool, closers: nat)
  {
    !open ==> Written(out) == [] && lost == 0 && writes == [] && !closed && closers == 0
  }

  ghost predicate Sound(c: Client, granted: int, lost: int, handed: seq<Bytes>) {
    && Books(c.out, lost, c.remoteWindow, c.writes, granted)
    && ChunksFit(c.out)
    && Tasks(c.writes, handed, c.closed)
    && Quiet(Open(c.main), c.out, lost, c.writes, c.closed, c.closers)
  }

  lemma {:induction false} WrittenConcat(a: seq<ClientMsg>, b: seq<ClientMsg>)
    ensures Written(a + b) == Written(a) + Written(b)
  {
    if b == [] {
      assert a + b == a;
    } else {
      assert (a + b)[..|a + b| - 1] == a + b[..|b| - 1];
      WrittenConcat(a, b[..|b| - 1]);
    }
  }

  lemma WrittenOne(m: ClientMsg)
    ensures Written([m]) == if m.Data? then m.data else []
  {
    assert [m][..0] == [];
  }

  lemma {:induction false} AloftUpdate(writes: seq<WriteTask>, i: nat, t: WriteTask)
    requires i < |writes|
    ensures Aloft(writes[i := t]) == Aloft(writes) - Pending(writes[i]) + Pending(t)
  {
    var n := |writes| - 1;
    if i < n {
      AloftUpdate(writes[..n], i, t);
      assert writes[i := t][..n] == writes[..n][i := t];
    } else {
      assert writes[i := t][..n] == writes[..n];
    }
  }

  lemma AloftPush(writes: seq<WriteTask>, t: WriteTask)
    ensures Aloft(writes + [t]) == Aloft(writes) + Pending(t)
  {
    assert (writes + [t])[..|writes|] == writes;
  }

  lemma {:induction false} AloftWake(writes: seq<WriteTask>)
    ensures Aloft(WakeAll(writes)) == Aloft(writes)
  {
    if writes != [] {
      AloftWake(writes[..|writes| - 1]);
      assert WakeAll(writes)[..|writes| - 1] == WakeAll(writes[..|writes| - 1]);
    }
  }

  lemma {:induction false} AloftCovers(writes: seq<WriteTask>, i: nat)
    requires i < |writes| && forall t <- writes :: Pending(t) >= 0
    ensures Aloft(writes) >= Pending(writes[i]) >= 0
  {
    var n := |writes| - 1;
    if i < n {
      AloftCovers(writes[..n], i);
    } else if n > 0 {
      AloftCovers(writes[..n], 0);
    }
  }

  lemma TasksAloft(writes: seq<WriteTask>, handed: seq<Bytes>, closed: bool)
    requires Tasks(writes, handed, closed)
    ensures forall t <- writes :: Pending(t) >= 0
  {
    forall t <- writes
      ensures Pending(t) >= 0
    {
      var k :| 0 <= k < |writes| && writes[k] == t;
      assert TaskSound(writes[k], handed[k], closed);
    }
  }

  // ---------------------------------------------------------------------
  // Steps of the main task and of close()

  /** At most one message more, and no channel data in it. */
  ghost predicate SaysNoData(out: seq<ClientMsg>, out': seq<ClientMsg>) {
    out' == out || (|out'| == |out| + 1 && out' == out + [out'[|out|]] && !out'[|out|].Data?)
  }

  /** Whoever changes the window or closes wakes the sleepers. */
  ghost predicate WakesIfNeeded(c: Client, c': Client, credit: int) {
    c'.writes == WakeAll(c.writes) || (c'.writes == c.writes && credit == 0 && c'.closed == c.closed)
  }

  /** A step that writes nothing: it may add credit, and closes once if at all. */
  ghost predicate Apart(c: Client, c': Client, credit: int) {
    && SaysNoData(c.out, c'.out)
    && credit >= 0 && c'.remoteWindow == c.remoteWindow + credit
    && WakesIfNeeded(c, c', credit)
    && (c.closed ==> c'.closed)
    && c'.onClose - c.onClose == (if c'.closed && !c.closed then 1 else 0)
    && (Open(c.main) ==> Open(c'.main))
    && (!Open(c'.main) ==> c'.closed == c.closed && c'.closers == c.closers)
  }

  lemma WakeKeepsTasks(writes: seq<WriteTask>, handed: seq<Bytes>, closed: bool, closed': bool)
    requires Tasks(writes, handed, closed) && (closed ==> closed')
    ensures Tasks(WakeAll(writes), handed, closed')
  {
    forall i | 0 <= i < |writes|
      ensures TaskSound(WakeAll(writes)[i], handed[i], closed')
    {
      assert TaskSound(writes[i], handed[i], closed);
    }
  }

  lemma SaysNoDataWrites(out: seq<ClientMsg>, out': seq<ClientMsg>)
    requires SaysNoData(out, out')
    ensures Written(out') == Written(out) && (ChunksFit(out) ==> ChunksFit(out'))
  {
    if out' != out {
      WrittenConcat(out, [out'[|out|]]);
      WrittenOne(out'[|out|]);
    }
  }

  lemma ApartKeepsSound(c: Client, c': Client, credit: int, granted: int, lost: int, handed: seq<Bytes>)
    requires Sound(c, granted, lost, handed) && Apart(c, c', credit)
    ensures Sound(c', granted + credit, lost, handed)
  {
    SaysNoDataWrites(c.out, c'.out);
    AloftWake(c.writes);
    WakeKeepsTasks(c.writes, handed, c.closed, c'.closed);
    assert WakeAll([]) == [];
  }

  lemma FinishIsApart(c: Client)
    requires Open(c.main)
    ensures Apart(c, Finish(c), 0)
  {
  }

  lemma ConsumeIsApart(c: Client, n: nat)
    ensures Apart(c, ConsumeWindow(c, n).0, 0) && ConsumeWindow(c, n).0.main == c.main
  {
  }

  function Adjustment(m: ServerMsg): nat {
    if m.WindowAdjust? then m.increment else 0
  }

  lemma DispatchIsApart(c: Client, m: ServerMsg)
    requires Open(c.main) || !(m.Disconnect? || m.KexInit?)
    ensures Apart(c, Dispatch(c, m).0, Adjustment(m)) && Dispatch(c, m).0.main == c.main
  {
    match m
    case ChannelData(data) => ConsumeIsApart(c.(delivered := c.delivered + [OnData(data)]), |data|);
    case ExtendedData(data) => ConsumeIsApart(c.(delivered := c.delivered + [OnExtendedData(data)]), |data|);
    case Disconnect => FinishIsApart(c);
    case KexInit => FinishIsApart(c);
    case _ =>
  }

  lemma ChannelTrafficKeepsOpen(packet: Bytes)
    requires packet != [] && (packet[0] == GLOBAL_REQUEST || IsChannelMessage(packet[0]))
    ensures !Parse(packet).Disconnect? && !Parse(packet).KexInit?
  {
  }

  lemma OnlyAdjustAdjusts(packet: Bytes)
    requires packet != [] && packet[0] != CHANNEL_WINDOW_ADJUST
    ensures !Parse(packet).WindowAdjust?
  {
  }

  /** The pump ends a dispatch that is done or threw with finish(). */
  lemma FinishAfter(c: Client, c': Client, credit: int)
    requires Apart(c, c', credit) && Open(c.main)
    ensures Apart(c, Finish(c').(main := Stopped), credit)
  {
    assert WakeAll(WakeAll(c.writes)) == WakeAll(c.writes);
  }

  lemma PumpIsApart(c: Client, packet: Bytes)
    requires c.main.Pumping? && !c.closed
    ensures Apart(c, Pump(c, packet), Adjustment(Parse(packet)))
  {
    DispatchIsApart(c, Parse(packet));
    FinishAfter(c, Dispatch(c, Parse(packet)).0, Adjustment(Parse(packet)));
  }

  lemma ExpectIsApart(c: Client, stage: Stage, packet: Bytes, o: Options)
    requires c.main == Expecting(stage) && packet != []
    requires !(stage == OpenReply && packet[0] == CHANNEL_OPEN_CONFIRMATION)
    ensures Apart(c, Expect(c, stage, packet, o), Adjustment(Parse(packet)))
  {
    var kind := packet[0];
    if kind == GLOBAL_REQUEST || IsChannelMessage(kind) {
      ChannelTrafficKeepsOpen(packet);
      DispatchIsApart(c, Parse(packet));
    }
    if kind != CHANNEL_WINDOW_ADJUST {
      OnlyAdjustAdjusts(packet);
    }
  }

  /** Nothing was written before the confirmation, so its window is all the credit there is. */
  lemma ConfirmationKeepsSound(
    c: Client, m: Option<Confirmation>, o: Options, granted: int, lost: int, handed: seq<Bytes>)
    requires Sound(c, granted, lost, handed) && c.main.Expecting?
    ensures Sound(OnConfirmation(c, m, o), if m.Some? then m.value.window else granted, lost, handed)
  {
    if m.Some? {
      SaysNoDataWrites(c.out, OnConfirmation(c, m, o).out);
    }
  }

  lemma ReceivedKeepsSound(c: Client, packet: Bytes, o: Options, granted: int, lost: int, handed: seq<Bytes>)
    requires Sound(c, granted, lost, handed)
    ensures Sound(Step(c, Received(packet), o), GrantStep(c, Received(packet), granted), lost, handed)
  {
    if c.main.Expecting? && packet != [] {
      if c.main.stage == OpenReply && packet[0] == CHANNEL_OPEN_CONFIRMATION {
        ConfirmationKeepsSound(c, ParseConfirmation(packet[1..]), o, granted, lost, handed);
      } else {
        ExpectIsApart(c, c.main.stage, packet, o);
        ApartKeepsSound(c, Expect(c, c.main.stage, packet, o), Adjustment(Parse(packet)), granted, lost, handed);
      }
    } else if c.main.Pumping? && !c.closed {
      PumpIsApart(c, packet);
      ApartKeepsSound(c, Pump(c, packet), Adjustment(Parse(packet)), granted, lost, handed);
    }
  }

  lemma CallerIsApart(c: Client, e: Event, o: Options)
    requires e.ReadFailed? || e.MainSent? || e.CloseCall? || e.Resize?
    ensures Apart(c, Step(c, e, o), 0)
  {
  }

  lemma CloseSentIsApart(c: Client, ok: bool, o: Options)
    requires Open(c.main)
    ensures Apart(c, Step(c, CloseSent(ok), o), 0)
  {
  }

  // ---------------------------------------------------------------------
  // Steps of write()

  /** The client a write looks at: its own task stands at the top of the loop, wherever its data ends. */
  ghost predicate AtTop(c: Client, i: nat, granted: int, lost: int, handed: seq<Bytes>) {
    && i < |c.writes| && c.writes[i].phase.Woken? && Open(c.main)
    && Books(c.out, lost, c.remoteWindow, c.writes, granted)
    && ChunksFit(c.out)
    && |handed| == |c.writes|
    && (forall k | 0 <= k < |c.writes| && k != i :: TaskSound(c.writes[k], handed[k], c.closed))
    && 0 <= c.writes[i].offset <= |c.writes[i].data| && handed[i] == c.writes[i].data[..c.writes[i].offset]
  }

  /** A phase that sends nothing. */
  lemma RestKeepsSound(c: Client, i: nat, phase: Phase, granted: int, lost: int, handed: seq<Bytes>)
    requires AtTop(c, i, granted, lost, handed) && !phase.InFlight?
    requires TaskSound(c.writes[i].(phase := phase), handed[i], c.closed)
    ensures Sound(SetPhase(c, i, phase), granted, lost, handed)
  {
    AloftUpdate(c.writes, i, c.writes[i].(phase := phase));
  }

  lemma ChunkKeepsTasks(c: Client, i: nat, granted: int, lost: int, handed: seq<Bytes>)
    requires AtTop(c, i, granted, lost, handed)
    requires !c.closed && c.remoteWindow > 0 && c.writes[i].offset < |c.writes[i].data|
    ensures var t, size := c.writes[i], ChunkSize(c, i);
            && 1 <= size <= MAX_CHUNK && t.offset + size <= |t.data|
            && Tasks(c.writes[i := t.(phase := InFlight(size))],
                     handed[i := handed[i] + t.data[t.offset..t.offset + size]], c.closed)
  {
    var t, size := c.writes[i], ChunkSize(c, i);
    assert t.data[..t.offset] + t.data[t.offset..t.offset + size] == t.data[..t.offset + size];
  }

  /** What was in the window is aloft, and what is aloft is written. */
  lemma ChunkBalances(
    out: seq<ClientMsg>, m: ClientMsg, lost: int, window: int, writes: seq<WriteTask>, i: nat, granted: int)
    requires Books(out, lost, window, writes, granted) && m.Data?
    requires i < |writes| && writes[i].phase.Woken?
    ensures Books(out + [m], lost, window, writes[i := writes[i].(phase := InFlight(|m.data|))], granted)
  {
    AloftUpdate(writes, i, writes[i].(phase := InFlight(|m.data|)));
    WrittenConcat(out, [m]);
    WrittenOne(m);
  }

  lemma ChunkKeepsSound(c: Client, i: nat, granted: int, lost: int, handed: seq<Bytes>)
    requires AtTop(c, i, granted, lost, handed)
    requires !c.closed && c.remoteWindow > 0 && c.writes[i].offset < |c.writes[i].data|
    ensures var c', t := WriteInner(c, i), c.writes[i];
            var chunk := t.data[t.offset..t.offset + ChunkSize(c, i)];
            && Sound(c', granted, lost, handed[i := handed[i] + chunk])
            && c'.out == c.out + [Messages.Data(c.remoteChannel, chunk)]
  {
    var t, size := c.writes[i], ChunkSize(c, i);
    var chunk := t.data[t.offset..t.offset + size];
    ChunkBalances(c.out, Messages.Data(c.remoteChannel, chunk), lost, c.remoteWindow, c.writes, i, granted);
    ChunkKeepsTasks(c, i, granted, lost, handed);
  }

  /** What the loop of write i hands over in this step. */
  function Taken(c: Client, i: nat): Bytes
    requires i < |c.writes|
  {
    NewBytes(c, WriteLoop(c, i))
  }

  /** The loop goes to sleep, finds the session closed, or is done. */
  lemma IdleLoopKeepsSound(c: Client, i: nat, granted: int, lost: int, handed: seq<Bytes>)
    requires AtTop(c, i, granted, lost, handed)
    requires c.writes[i].offset >= |c.writes[i].data| || c.closed || c.remoteWindow == 0
    ensures Sound(WriteLoop(c, i), granted, lost, handed[i := handed[i] + Taken(c, i)])
  {
    assert c.out[|c.out|..] == [] && handed[i] + [] == handed[i];
    if c.writes[i].offset >= |c.writes[i].data| {
      RestKeepsSound(c, i, Ended(Finished), granted, lost, handed);
    } else if c.closed {
      RestKeepsSound(c, i, Ended(FoundClosed), granted, lost, handed);
    } else {
      RestKeepsSound(c, i, Asleep, granted, lost, handed);
    }
  }

  lemma ChunkTaken(c: Client, i: nat, chunk: Bytes)
    requires i < |c.writes| && WriteLoop(c, i).out == c.out + [Messages.Data(c.remoteChannel, chunk)]
    ensures Taken(c, i) == chunk
  {
    assert WriteLoop(c, i).out[|c.out|..] == [Messages.Data(c.remoteChannel, chunk)];
    WrittenOne(Messages.Data(c.remoteChannel, chunk));
  }

  lemma LoopKeepsSound(c: Client, i: nat, granted: int, lost: int, handed: seq<Bytes>)
    requires AtTop(c, i, granted, lost, handed)
    requires !c.closed && c.writes[i].offset < |c.writes[i].data| ==> c.remoteWindow >= 0
    ensures Sound(WriteLoop(c, i), granted, lost, handed[i := handed[i] + Taken(c, i)])
  {
    var t := c.writes[i];
    if t.offset < |t.data| && !c.closed && c.remoteWindow != 0 {
      ChunkKeepsSound(c, i, granted, lost, handed);
      ChunkTaken(c, i, t.data[t.offset..t.offset + ChunkSize(c, i)]);
    } else {
      IdleLoopKeepsSound(c, i, granted, lost, handed);
    }
  }

  lemma BegunIsAtTop(c: Client, data: Bytes, granted: int, lost: int, handed: seq<Bytes>)
    requires Sound(c, granted, lost, handed) && Writable(c)
    ensures AtTop(Begun(c, data), |c.writes|, granted, lost, handed + [[]])
  {
    AloftPush(c.writes, WriteTask(data, 0, Woken));
  }

  lemma WokenIsAtTop(c: Client, i: nat, granted: int, lost: int, handed: seq<Bytes>)
    requires Sound(c, granted, lost, handed) && InPhase(c, i, Woken)
    ensures AtTop(c, i, granted, lost, handed) && c.writes[i].offset < |c.writes[i].data|
  {
    assert TaskSound(c.writes[i], handed[i], c.closed);
  }

  lemma ChargedIsAtTop(c: Client, i: nat, granted: int, lost: int, handed: seq<Bytes>)
    requires Sound(c, granted, lost, handed) && Flying(c, i)
    ensures AtTop(Charged(c, i), i, granted, lost, handed)
  {
    var t := c.writes[i];
    assert TaskSound(t, handed[i], c.closed);
    AloftUpdate(c.writes, i, WriteTask(t.data, t.offset + t.phase.size, Woken));
    forall k | 0 <= k < |c.writes| && k != i
      ensures TaskSound(Charged(c, i).writes[k], handed[k], c.closed)
    {
      assert TaskSound(c.writes[k], handed[k], c.closed);
    }
  }

  lemma FailedKeepsSound(c: Client, i: nat, granted: int, lost: int, handed: seq<Bytes>)
    requires Sound(c, granted, lost, handed) && Flying(c, i)
    ensures Sound(SetPhase(c, i, Ended(SendFailed)), granted, lost + c.writes[i].phase.size, handed)
  {
    assert TaskSound(c.writes[i], handed[i], c.closed);
    AloftUpdate(c.writes, i, c.writes[i].(phase := Ended(SendFailed)));
  }

  lemma WriteCallKeepsSound(c: Client, data: Bytes, o: Options, granted: int, lost: int, handed: seq<Bytes>)
    requires Sound(c, granted, lost, handed) && Writable(c) && !Backs(c, WriteCall(data))
    ensures Sound(Step(c, WriteCall(data), o), granted, lost, HandStep(c, WriteCall(data), o, handed))
  {
    var b, i := Begun(c, data), |c.writes|;
    BegunIsAtTop(c, data, granted, lost, handed);
    LoopKeepsSound(b, i, granted, lost, handed + [[]]);
    assert (handed + [[]])[i := [] + Taken(b, i)] == handed + [Taken(b, i)];
  }

  lemma ResumeKeepsSound(c: Client, i: nat, o: Options, granted: int, lost: int, handed: seq<Bytes>)
    requires Sound(c, granted, lost, handed) && InPhase(c, i, Woken) && !Backs(c, Resumed(i))
    ensures Sound(Step(c, Resumed(i), o), granted, lost, HandStep(c, Resumed(i), o, handed))
  {
    WokenIsAtTop(c, i, granted, lost, handed);
    LoopKeepsSound(c, i, granted, lost, handed);
  }

  lemma SentKeepsSound(c: Client, i: nat, o: Options, granted: int, lost: int, handed: seq<Bytes>)
    requires Sound(c, granted, lost, handed) && Flying(c, i) && !Backs(c, WriteSent(i, true))
    ensures Sound(Step(c, WriteSent(i, true), o), granted, lost, HandStep(c, WriteSent(i, true), o, handed))
  {
    ChargedIsAtTop(c, i, granted, lost, handed);
    LoopKeepsSound(Charged(c, i), i, granted, lost, handed);
  }

  lemma WriterKeepsSound(c: Client, e: Event, o: Options, granted: int, lost: int, handed: seq<Bytes>)
    requires Sound(c, granted, lost, handed) && !Backs(c, e) && WriterOf(c, e).Some?
    ensures Sound(Step(c, e, o), granted, lost + LostIn(c, e), HandStep(c, e, o, handed))
  {
    match e
    case WriteCall(data) => WriteCallKeepsSound(c, data, o, granted, lost, handed);
    case Resumed(i) => ResumeKeepsSound(c, i, o, granted, lost, handed);
    case WriteSent(i, ok) =>
      if ok {
        SentKeepsSound(c, i, o, granted, lost, handed);
      } else {
        FailedKeepsSound(c, i, granted, lost, handed);
        assert c.out[|c.out|..] == [] && handed[i] + [] == handed[i];
      }
    case _ =>
  }

  lemma StepKeepsSound(c: Client, e: Event, o: Options, granted: int, lost: int, handed: seq<Bytes>)
    requires Sound(c, granted, lost, handed) && !Backs(c, e)
    ensures Sound(Step(c, e, o), GrantStep(c, e, granted), lost + LostIn(c, e), HandStep(c, e, o, handed))
  {
    if WriterOf(c, e).Some? {
      WriterKeepsSound(c, e, o, granted, lost, handed);
    } else if e.Received? {
      ReceivedKeepsSound(c, e.packet, o, granted, lost, handed);
    } else if e.CloseSent? {
      if c.closers > 0 {
        CloseSentIsApart(c, e.ok, o);
        ApartKeepsSound(c, Step(c, e, o), 0, granted, lost, handed);
      }
    } else if e.ReadFailed? || e.MainSent? || e.CloseCall? || e.Resize? {
      CallerIsApart(c, e, o);
      ApartKeepsSound(c, Step(c, e, o), 0, granted, lost, handed);
    }
  }

  /** Window accounting, chunk sizes and prefixes, in every run whose chunks have positive sizes. */
  lemma {:induction false} RunIsSound(events: seq<Event>, o: Options)
    requires Forward(events, o)
    ensures Sound(Run(events, o), Granted(events, o), LostBytes(events, o), Handed(events, o))
  {
    if events == [] {
      WrittenOne(OPENING);
    } else {
      var before := events[..|events| - 1];
      RunIsSound(before, o);
      StepKeepsSound(Run(before, o), events[|events| - 1], o, Granted(before, o), LostBytes(before, o),
                     Handed(before, o));
    }
  }

  // ---------------------------------------------------------------------
  // Closing

  /** A packet that ends the session when the pump takes it: CHANNEL_CLOSE, DISCONNECT, a rekey, or nonsense. */
  predicate Final(packet: Bytes) {
    match Parse(packet)
    case ChannelClose => true
    case Disconnect => true
    case KexInit => true
    case Malformed => true
    case _ => false
  }

  function ClosesStep(c: Client, e: Event, pending: nat): nat {
    if e.CloseCall? && Writable(c) then pending + 1
    else if e.CloseSent? && pending > 0 then pending - 1
    else pending
  }

  /** The close() calls made on the open session whose sends have not settled. */
  function PendingCloses(events: seq<Event>, o: Options): nat {
    if events == [] then 0
    else
      var before := events[..|events| - 1];
      ClosesStep(Run(before, o), events[|events| - 1], PendingCloses(before, o))
  }

  /** The pump takes a last packet, a read or a send of the pump fails, or a close() settles. */
  predicate EndsIn(c: Client, e: Event, pending: nat) {
    match e
    case Received(packet) => c.main.Pumping? && Final(packet)
    case ReadFailed => c.main.Pumping?
    case MainSent(ok) => c.main.PumpSend? && !ok
    case CloseSent(_) => pending > 0
    case _ => false
  }

  /** The session has been ended, by whichever of these came first. */
  predicate Over(events: seq<Event>, o: Options) {
    events != []
    && (var before, e := events[..|events| - 1], events[|events| - 1];
        Over(before, o) || EndsIn(Run(before, o), e, PendingCloses(before, o)))
  }

  /** One step: onClose is called exactly when the session goes from open to closed, and whoever slept then wakes. */
  ghost predicate ClosesWell(c: Client, c': Client, ends: bool) {
    && (c'.closed <==> c.closed || ends)
    && c'.onClose == c.onClose + (if c'.closed && !c.closed then 1 else 0)
    && (c'.closed && AwakeIfClosed(c) ==> forall t <- c'.writes :: !t.phase.Asleep?)
  }

  ghost predicate AwakeIfClosed(c: Client) {
    c.closed ==> forall t <- c.writes :: !t.phase.Asleep?
  }

  lemma DispatchCloses(c: Client, m: ServerMsg)
    ensures ClosesWell(c, Dispatch(c, m).0, m.Disconnect? || m.KexInit?)
  {
  }

  lemma FinishCloses(c: Client, c': Client, ends: bool)
    requires ClosesWell(c, c', ends)
    ensures ClosesWell(c, Finish(c').(main := Stopped), true)
  {
  }

  lemma PumpCloses(c: Client, packet: Bytes)
    requires c.main.Pumping?
    ensures ClosesWell(c, Pump(c, packet), Final(packet))
  {
    if !c.closed {
      var m := Parse(packet);
      DispatchCloses(c, m);
      FinishCloses(c, Dispatch(c, m).0, m.Disconnect? || m.KexInit?);
    }
  }

  lemma ExpectCloses(c: Client, stage: Stage, packet: Bytes, o: Options)
    ensures ClosesWell(c, Expect(c, stage, packet, o), false)
  {
    if packet != [] && (packet[0] == GLOBAL_REQUEST || IsChannelMessage(packet[0])) {
      ChannelTrafficKeepsOpen(packet);
      DispatchCloses(c, Parse(packet));
    }
  }

  lemma StepCloses(c: Client, e: Event, o: Options)
    ensures ClosesWell(c, Step(c, e, o), EndsIn(c, e, c.closers))
    ensures Step(c, e, o).closers == ClosesStep(c, e, c.closers)
  {
    if e.Received? && c.main.Expecting? {
      ExpectCloses(c, c.main.stage, e.packet, o);
      ReceivedKeepsClosers(c, e.packet, o);
    } else if e.Received? && c.main.Pumping? {
      PumpCloses(c, e.packet);
      ReceivedKeepsClosers(c, e.packet, o);
    }
  }

  lemma ReceivedKeepsClosers(c: Client, packet: Bytes, o: Options)
    ensures Step(c, Received(packet), o).closers == c.closers
  {
    DispatchKeepsClosers(c, Parse(packet));
  }

  lemma DispatchKeepsClosers(c: Client, m: ServerMsg)
    ensures Dispatch(c, m).0.closers == c.closers
  {
  }

  lemma {:induction false} ClosedIsOver(events: seq<Event>, o: Options)
    ensures Run(events, o).closers == PendingCloses(events, o)
    ensures Run(events, o).closed <==> Over(events, o)
    ensures Run(events, o).onClose == if Over(events, o) then 1 else 0
    ensures AwakeIfClosed(Run(events, o))
  {
    if events != [] {
      ClosedIsOver(events[..|events| - 1], o);
      StepCloses(Run(events[..|events| - 1], o), events[|events| - 1], o);
    }
  }

  /**
   * Over all orders of close(), DISCONNECT, rekey, read error and channel
   * close, and however writes overlap, the session is closed exactly once one
   * of them has come; onClose has fired once then and never before; and no
   * write sleeps any more.
   */
  lemma ClosesOnce(events: seq<Event>, o: Options)
    ensures Run(events, o).closed <==> Over(events, o)
    ensures Run(events, o).onClose == if Over(events, o) then 1 else 0
    ensures Over(events, o) ==> forall t <- Run(events, o).writes :: !t.phase.Asleep?
  {
    ClosedIsOver(events, o);
  }
}
