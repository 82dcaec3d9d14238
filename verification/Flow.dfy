/**
 * Both ends of the channel's receive direction (section 5.2 of RFC 4254): the
 * client of module Channel, a server that sends no more data than the credit
 * it holds, and a first-in first-out link each way.
 */
module Flow {
  import opened Wrappers
  import opened ByteStrings
  import opened Wire
  import opened Messages
  import opened Channel

  /**
   * number is the server's own for the channel, confirmed whether it has sent
   * a confirmation. toClient holds the packets in flight to the client; of the
   * messages the client has handed over, the server has read the first seen.
   */
  datatype World = World(
    number: nat,
    confirmed: bool,
    c: Client,
    credit: int,
    toClient: seq<Bytes>,
    seen: nat,
    sent: seq<Delivery>)

  function Begin(number: nat): World {
    World(number, false, START, 0, [], 0, [])
  }

  datatype Move =
    | ServerSends(packet: Bytes)
    | Delivers
    | ServerReads
    | Local(e: Event)

  /** The window bytes a packet uses up: ordinary and extended data both count. */
  function Carried(m: ServerMsg): nat {
    match m
    case ChannelData(data) => |data|
    case ExtendedData(data) => |data|
    case _ => 0
  }

  /** The number a server reads at the front, 0 if it is cut short. */
  function Number(s: Option<Taken<nat>>): nat {
    match s
    case None => 0
    case Some(t) => t.value
  }

  /**
   * The credit a server whose number for the channel this is takes from a
   * payload: the window in a CHANNEL_OPEN, behind the type and the sender's
   * number, and the increment in a WINDOW_ADJUST for that channel.
   */
  function CreditOf(payload: Bytes, number: nat): nat {
    if payload != [] && payload[0] == 90 then
      match TakeString(payload[1..])
      case None => 0
      case Some(kind) =>
        match TakeU32(kind.rest)
        case None => 0
        case Some(sender) => Number(TakeU32(sender.rest))
    else if payload != [] && payload[0] == 93 then
      match TakeU32(payload[1..])
      case None => 0
      case Some(recipient) => if recipient.value == number then Number(TakeU32(recipient.rest)) else 0
    else 0
  }

  /** The credit a message is meant to give. */
  function Credit(m: ClientMsg): int {
    match m
    case OpenSession(_, window, _) => window
    case Adjust(_, increment) => increment
    case _ => 0
  }

  function InFlight(packets: seq<Bytes>): nat {
    if packets == [] then 0 else InFlight(packets[..|packets| - 1]) + Carried(Parse(packets[|packets| - 1]))
  }

  function Offered(out: seq<ClientMsg>): int {
    if out == [] then 0 else Offered(out[..|out| - 1]) + Credit(out[|out| - 1])
  }

  /** What the server takes from the bytes of these messages. */
  function CreditIn(out: seq<ClientMsg>, number: nat): int {
    if out == [] then 0
    else CreditIn(out[..|out| - 1], number) + CreditOf(out[|out| - 1].Payload(), number)
  }

  /** The increments in these messages that name another channel, and so are lost on the server. */
  function Stray(out: seq<ClientMsg>, number: nat): int {
    if out == [] then 0
    else
      var m := out[|out| - 1];
      Stray(out[..|out| - 1], number) + if m.Adjust? && m.channel != number then m.increment else 0
  }

  /** A confirmation that openShell can read. */
  predicate Confirms(packet: Bytes) {
    packet != [] && packet[0] == 91 && ParseConfirmation(packet[1..]).Some?
  }

  /** The server names its own number, and sends no data it has no credit for. */
  predicate MaySend(w: World, packet: Bytes) {
    && Carried(Parse(packet)) <= w.credit
    && (Confirms(packet) ==> ParseConfirmation(packet[1..]).value.channel == w.number)
  }

  function DeliveryOf(m: ServerMsg): seq<Delivery> {
    match m
    case ChannelData(data) => [OnData(data)]
    case ExtendedData(data) => [OnExtendedData(data)]
    case _ => []
  }

  function Deliveries(packets: seq<Bytes>): seq<Delivery> {
    if packets == [] then []
    else Deliveries(packets[..|packets| - 1]) + DeliveryOf(Parse(packets[|packets| - 1]))
  }

  /** The client is still taking packets. */
  predicate Live(c: Client) {
    !c.main.Stopped? && !c.main.Aborted?
  }

  predicate Receiving(c: Client) {
    c.main.Expecting? || c.main.Pumping?
  }

  function MoveOn(w: World, mv: Move, o: Options): World {
    match mv
    case ServerSends(packet) =>
      var m := Parse(packet);
      if !MaySend(w, packet) then w
      else
        w.(credit := w.credit - Carried(m), toClient := w.toClient + [packet],
           sent := w.sent + DeliveryOf(m), confirmed := w.confirmed || Confirms(packet))
    case Delivers =>
      if w.toClient == [] || !Receiving(w.c) then w
      else w.(c := Step(w.c, Received(w.toClient[0]), o), toClient := w.toClient[1..])
    case ServerReads =>
      if w.seen >= |w.c.out| then w
      else w.(credit := w.credit + CreditOf(w.c.out[w.seen].Payload(), w.number), seen := w.seen + 1)
    case Local(e) => if e.Received? then w else w.(c := Step(w.c, e, o))
  }

  function Play(number: nat, moves: seq<Move>, o: Options): World {
    if moves == [] then Begin(number) else MoveOn(Play(number, moves[..|moves| - 1], o), moves[|moves| - 1], o)
  }

  // ---------------------------------------------------------------------
  // Conservation

  ghost predicate WindowHigh(c: Client) {
    WINDOW_REFILL_AT < c.localWindow <= LOCAL_WINDOW && c.remoteChannel < U32_LIMIT
  }

  ghost predicate Fits(m: ClientMsg) {
    && (m.Adjust? ==> WINDOW_REFILL_AT <= m.increment <= LOCAL_WINDOW && m.channel < U32_LIMIT)
    && (m.OpenSession? ==> m == OPENING)
  }

  ghost predicate AdjustsFit(out: seq<ClientMsg>) {
    forall m <- out :: Fits(m)
  }

  ghost predicate Conserved(w: World) {
    && w.seen <= |w.c.out| && 0 <= w.credit && AdjustsFit(w.c.out)
    && (Live(w.c) ==>
          && WindowHigh(w.c)
          && w.credit + InFlight(w.toClient) + Offered(w.c.out) - Offered(w.c.out[..w.seen])
             + Stray(w.c.out[..w.seen], w.number) == w.c.localWindow)
  }

  ghost predicate InOrder(w: World) {
    && w.c.delivered <= w.sent
    && (Live(w.c) ==> w.sent == w.c.delivered + Deliveries(w.toClient))
  }

  lemma {:induction false} CreditGrows(out: seq<ClientMsg>, n: nat)
    requires n <= |out| && AdjustsFit(out)
    ensures 0 <= Offered(out[..n]) <= Offered(out)
  {
    assert out == [] || Fits(out[|out| - 1]);
    if n == |out| {
      assert out[..n] == out;
      if n > 0 {
        CreditGrows(out[..n - 1], n - 1);
        assert out[..n - 1][..n - 1] == out[..n - 1];
      }
    } else {
      CreditGrows(out[..|out| - 1], n);
      assert out[..|out| - 1][..n] == out[..n];
    }
  }

  /** The server's reading of a WINDOW_ADJUST, field by field. */
  lemma AdjustTaken(f: seq<Field>, channel: nat, increment: nat, number: nat)
    requires channel < U32_LIMIT && increment < U32_LIMIT && f == [FByte(93), FU32(channel), FU32(increment)]
    ensures CreditOf(Encode(f), number) == if channel == number then increment else 0
  {
    assert f[0..] == f;
    FieldFrom(f, 0);
    FieldFrom(f, 1);
    FieldFrom(f, 2);
  }

  lemma AdjustCredit(channel: nat, increment: nat, number: nat)
    requires channel < U32_LIMIT && increment < U32_LIMIT
    ensures CreditOf(Adjust(channel, increment).Payload(), number) == if channel == number then increment else 0
  {
    AdjustTaken(Adjust(channel, increment).Fields(), channel, increment, number);
  }

  lemma OpenRead(payload: Bytes, s1: Bytes, s2: Bytes, s3: Bytes, s4: Bytes, kind: Bytes, sender: nat, window: nat,
                 number: nat)
    requires TakeByte(payload) == Some(Taken(90, s1)) && TakeString(s1) == Some(Taken(kind, s2))
    requires TakeU32(s2) == Some(Taken(sender, s3)) && TakeU32(s3) == Some(Taken(window, s4))
    ensures CreditOf(payload, number) == window
  {
  }

  lemma OpenTaken(f: seq<Field>, kind: Bytes, sender: nat, window: nat, number: nat)
    requires |kind| < U32_LIMIT && sender < U32_LIMIT && window < U32_LIMIT
    requires |f| >= 4 && f[0] == FByte(90) && f[1] == FString(kind) && f[2] == FU32(sender) && f[3] == FU32(window)
    ensures CreditOf(Encode(f), number) == window
  {
    assert f[0..] == f;
    ByteFrom(f, 0, 90);
    StringFrom(f, 1, kind);
    NumberFrom(f, 2, sender);
    NumberFrom(f, 3, window);
    OpenRead(Encode(f), Encode(f[1..]), Encode(f[2..]), Encode(f[3..]), Encode(f[4..]), kind, sender, window, number);
  }

  lemma ByteFrom(f: seq<Field>, k: nat, b: byte)
    requires k < |f| && f[k] == FByte(b)
    ensures TakeByte(Encode(f[k..])) == Some(Taken(b, Encode(f[k + 1..])))
  {
    FieldFrom(f, k);
  }

  lemma StringFrom(f: seq<Field>, k: nat, s: Bytes)
    requires k < |f| && f[k] == FString(s) && |s| < U32_LIMIT
    ensures TakeString(Encode(f[k..])) == Some(Taken(s, Encode(f[k + 1..])))
  {
    FieldFrom(f, k);
  }

  lemma NumberFrom(f: seq<Field>, k: nat, n: nat)
    requires k < |f| && f[k] == FU32(n) && n < U32_LIMIT
    ensures TakeU32(Encode(f[k..])) == Some(Taken(n, Encode(f[k + 1..])))
  {
    FieldFrom(f, k);
  }

  lemma OpenCredit(number: nat)
    ensures CreditOf(OPENING.Payload(), number) == 2_097_152
  {
    OpenTaken(OPENING.Fields(), Ascii("session"), 0, 2_097_152, number);
  }

  lemma OtherCredit(m: ClientMsg, number: nat)
    requires !m.Adjust? && !m.OpenSession?
    ensures CreditOf(m.Payload(), number) == 0
  {
    var f := m.Fields();
    assert f[0..] == f && f[0].FByte? && f[0].b != 90 && f[0].b != 93;
    EncodeFrom(f, 0);
    assert m.Payload()[0] == f[0].b;
  }

  /** The server reads the credit a message is meant to give, unless that names another channel. */
  lemma CreditIsRead(m: ClientMsg, number: nat)
    requires Fits(m)
    ensures CreditOf(m.Payload(), number) == Credit(m) - if m.Adjust? && m.channel != number then m.increment else 0
  {
    match m
    case Adjust(channel, increment) => AdjustCredit(channel, increment, number);
    case OpenSession(_, _, _) => OpenCredit(number);
    case _ => OtherCredit(m, number);
  }

  lemma {:induction false} CreditInIs(out: seq<ClientMsg>, number: nat)
    requires AdjustsFit(out)
    ensures CreditIn(out, number) == Offered(out) - Stray(out, number)
    ensures Stray(out, number) >= 0
  {
    if out != [] {
      CreditInIs(out[..|out| - 1], number);
      CreditIsRead(out[|out| - 1], number);
    }
  }

  lemma {:induction false} FrontInFlight(packets: seq<Bytes>)
    requires packets != []
    ensures InFlight(packets) == Carried(Parse(packets[0])) + InFlight(packets[1..])
  {
    if |packets| > 1 {
      var before := packets[..|packets| - 1];
      FrontInFlight(before);
      assert packets[1..][..|packets| - 2] == before[1..];
    }
  }

  lemma {:induction false} FrontDelivery(packets: seq<Bytes>)
    requires packets != []
    ensures Deliveries(packets) == DeliveryOf(Parse(packets[0])) + Deliveries(packets[1..])
  {
    if |packets| > 1 {
      var before := packets[..|packets| - 1];
      FrontDelivery(before);
      assert packets[1..][..|packets| - 2] == before[1..];
    }
  }

  /** out' goes on from out with messages worth extra. */
  ghost predicate Grows(out: seq<ClientMsg>, out': seq<ClientMsg>, extra: int) {
    out <= out' && Offered(out') == Offered(out) + extra && (AdjustsFit(out) ==> AdjustsFit(out'))
  }

  lemma SendGrows(c: Client, m: ClientMsg)
    requires Fits(m)
    ensures Grows(c.out, Send(c, m).out, Credit(m))
  {
    assert Send(c, m).out[..|c.out|] == c.out;
  }

  /** What a packet does to the window, the messages sent and the callbacks. */
  ghost predicate Balanced(c: Client, c': Client, m: ServerMsg) {
    && Grows(c.out, c'.out, c'.localWindow - (c.localWindow - Carried(m)))
    && WindowHigh(c')
    && c'.delivered == c.delivered + DeliveryOf(m)
  }

  lemma ConsumeBalances(c: Client, n: nat)
    requires WindowHigh(c) && n <= c.localWindow
    ensures var c' := ConsumeWindow(c, n).0;
            && Grows(c.out, c'.out, c'.localWindow - (c.localWindow - n))
            && WindowHigh(c') && c'.delivered == c.delivered
  {
    var left := c.localWindow - n;
    if left <= WINDOW_REFILL_AT {
      SendGrows(c.(localWindow := LOCAL_WINDOW), Adjust(c.remoteChannel, LOCAL_WINDOW - left));
    }
  }

  lemma DataBalances(c: Client, m: ServerMsg, d: Delivery)
    requires WindowHigh(c) && Carried(m) <= c.localWindow && DeliveryOf(m) == [d]
    ensures Balanced(c, ConsumeWindow(c.(delivered := c.delivered + [d]), Carried(m)).0, m)
  {
    ConsumeBalances(c.(delivered := c.delivered + [d]), Carried(m));
  }

  lemma QuietBalances(c: Client, m: ServerMsg)
    requires WindowHigh(c) && Carried(m) == 0 && DeliveryOf(m) == [] && !m.ChannelRequest? && !m.GlobalRequest?
    ensures Balanced(c, Dispatch(c, m).0, m)
  {
  }

  /** A dispatched packet uses window, and returns all of it once half is used. */
  lemma DispatchBalances(c: Client, m: ServerMsg)
    requires WindowHigh(c) && Carried(m) <= c.localWindow
    ensures Balanced(c, Dispatch(c, m).0, m)
  {
    match m
    case ChannelData(data) => DataBalances(c, m, OnData(data));
    case ExtendedData(data) => DataBalances(c, m, OnExtendedData(data));
    case ChannelRequest(_) => SendGrows(c, Messages.ChannelFailure(c.remoteChannel));
    case GlobalRequest(_) => SendGrows(c, RequestFailure);
    case _ => QuietBalances(c, m);
  }

  lemma OnlyDataCarries(packet: Bytes)
    ensures packet != [] && packet[0] != CHANNEL_DATA && packet[0] != CHANNEL_EXTENDED_DATA ==>
              Carried(Parse(packet)) == 0 && DeliveryOf(Parse(packet)) == []
  {
  }

  /** A packet balances while the client stays live; its last one may be dropped. */
  ghost predicate Took(c: Client, c': Client, m: ServerMsg) {
    || Balanced(c, c', m)
    || (!Live(c') && c'.out == c.out && c'.delivered == c.delivered)
  }

  lemma ConfirmedNumber(s: Bytes)
    requires ParseConfirmation(s).Some?
    ensures ParseConfirmation(s).value.channel < U32_LIMIT
  {
    var m := ParseConfirmation(s).value;
    ConfirmationExactly(s, m.channel, m.window);
  }

  lemma ReplyBalances(c: Client, stage: Stage, packet: Bytes, o: Options)
    requires packet != [] && WindowHigh(c)
    requires Carried(Parse(packet)) == 0 && DeliveryOf(Parse(packet)) == []
    ensures Balanced(c, Replied(c, stage, packet, o), Parse(packet))
  {
    match stage
    case OpenReply =>
      var m := ParseConfirmation(packet[1..]);
      if m.Some? {
        ConfirmedNumber(packet[1..]);
        SendGrows(c, PtyRequest(m.value.channel, o.term, o.cols, o.rows));
      }
    case PtyReply => SendGrows(c, ShellRequest(c.remoteChannel));
    case ShellReply =>
  }

  lemma ExpectBalances(c: Client, packet: Bytes, o: Options)
    requires c.main.Expecting? && WindowHigh(c) && Carried(Parse(packet)) <= c.localWindow
    ensures Took(c, Expect(c, c.main.stage, packet, o), Parse(packet))
  {
    if packet != [] {
      var m := Parse(packet);
      OnlyDataCarries(packet);
      if packet[0] == Wanted(c.main.stage) {
        ReplyBalances(c, c.main.stage, packet, o);
      } else {
        DispatchBalances(c, m);
      }
    }
  }

  lemma PumpBalances(c: Client, packet: Bytes)
    requires c.main.Pumping? && WindowHigh(c) && Carried(Parse(packet)) <= c.localWindow
    ensures Took(c, Pump(c, packet), Parse(packet))
  {
    DispatchBalances(c, Parse(packet));
  }

  /** Every other task leaves the receive direction alone. */
  ghost predicate Aloof(c: Client, c': Client) {
    && c'.localWindow == c.localWindow && c'.delivered == c.delivered
    && c'.remoteChannel == c.remoteChannel
    && Grows(c.out, c'.out, 0) && (Live(c') ==> Live(c))
  }

  lemma WriteIsAloof(c: Client, i: nat)
    requires i < |c.writes|
    ensures Aloof(c, WriteInner(c, i)) && Aloof(c, WriteLoop(c, i))
  {
    var t, size := c.writes[i], ChunkSize(c, i);
    SendGrows(c, Messages.Data(c.remoteChannel, Subarray(t.data, t.offset, t.offset + size)));
  }

  lemma SettlingIsAloof(c: Client, e: Event, o: Options)
    requires e.ReadFailed? || e.MainSent? || e.CloseSent?
    ensures Aloof(c, Step(c, e, o))
  {
  }

  lemma LocalStepIsAloof(c: Client, e: Event, o: Options)
    requires !e.Received?
    ensures Aloof(c, Step(c, e, o))
  {
    match e
    case WriteCall(data) => WriteIsAloof(Begun(c, data), |c.writes|);
    case Resumed(i) =>
      if InPhase(c, i, Woken) {
        WriteIsAloof(c, i);
      }
    case WriteSent(i, ok) =>
      if Flying(c, i) {
        WriteIsAloof(Charged(c, i), i);
      }
    case CloseCall => SendGrows(c, Messages.Close(c.remoteChannel));
    case Resize(cols, rows) => SendGrows(c, WindowChange(c.remoteChannel, cols, rows));
    case _ => SettlingIsAloof(c, e, o);
  }

  lemma SeenStays(out: seq<ClientMsg>, more: seq<ClientMsg>, seen: nat)
    requires seen <= |out| && out <= more
    ensures more[..seen] == out[..seen]
  {
  }

  lemma ReceivedIsTaken(c: Client, packet: Bytes, o: Options)
    requires Receiving(c) && WindowHigh(c) && Carried(Parse(packet)) <= c.localWindow
    ensures Took(c, Step(c, Received(packet), o), Parse(packet))
  {
    if c.main.Expecting? {
      ExpectBalances(c, packet, o);
    } else {
      PumpBalances(c, packet);
    }
  }

  lemma TakingConserves(w: World, c': Client)
    requires Conserved(w) && w.toClient != [] && Live(w.c)
    requires Took(w.c, c', Parse(w.toClient[0]))
    ensures Conserved(w.(c := c', toClient := w.toClient[1..]))
  {
    FrontInFlight(w.toClient);
    SeenStays(w.c.out, c'.out, w.seen);
  }

  lemma Regroup(now: seq<Delivery>, next: seq<Delivery>, others: seq<Delivery>)
    ensures now + (next + others) == (now + next) + others
  {
  }

  lemma TakingKeepsOrder(w: World, c': Client)
    requires InOrder(w) && w.toClient != [] && Live(w.c)
    requires Took(w.c, c', Parse(w.toClient[0]))
    ensures InOrder(w.(c := c', toClient := w.toClient[1..]))
  {
    FrontDelivery(w.toClient);
    Regroup(w.c.delivered, DeliveryOf(Parse(w.toClient[0])), Deliveries(w.toClient[1..]));
  }

  lemma DeliveryKeepsInvariants(w: World, o: Options)
    requires Conserved(w) && InOrder(w) && w.toClient != [] && Receiving(w.c)
    ensures Conserved(MoveOn(w, Delivers, o)) && InOrder(MoveOn(w, Delivers, o))
  {
    FrontInFlight(w.toClient);
    CreditGrows(w.c.out, w.seen);
    CreditInIs(w.c.out[..w.seen], w.number);
    ReceivedIsTaken(w.c, w.toClient[0], o);
    var c' := Step(w.c, Received(w.toClient[0]), o);
    TakingConserves(w, c');
    TakingKeepsOrder(w, c');
  }

  lemma ServerSendKeepsInvariants(w: World, packet: Bytes, o: Options)
    requires Conserved(w) && InOrder(w)
    ensures Conserved(MoveOn(w, ServerSends(packet), o)) && InOrder(MoveOn(w, ServerSends(packet), o))
  {
    assert (w.toClient + [packet])[..|w.toClient|] == w.toClient;
  }

  lemma OneMore(out: seq<ClientMsg>, n: nat, number: nat)
    requires n < |out| && AdjustsFit(out)
    ensures Offered(out[..n + 1]) == Offered(out[..n]) + Credit(out[n])
    ensures Stray(out[..n + 1], number)
         == Stray(out[..n], number) + if out[n].Adjust? && out[n].channel != number then out[n].increment else 0
    ensures Fits(out[n])
  {
    assert out[..n + 1][..n] == out[..n];
    assert out[n] in out;
  }

  lemma ReadingConserves(w: World, got: int)
    requires Conserved(w) && w.seen < |w.c.out|
    requires var m := w.c.out[w.seen];
             got >= 0 && got == Credit(m) - if m.Adjust? && m.channel != w.number then m.increment else 0
    ensures Conserved(w.(credit := w.credit + got, seen := w.seen + 1))
  {
    OneMore(w.c.out, w.seen, w.number);
  }

  lemma ServerReadKeepsInvariants(w: World, o: Options)
    requires Conserved(w) && InOrder(w)
    ensures Conserved(MoveOn(w, ServerReads, o)) && InOrder(MoveOn(w, ServerReads, o))
  {
    if w.seen < |w.c.out| {
      assert w.c.out[w.seen] in w.c.out;
      CreditIsRead(w.c.out[w.seen], w.number);
      ReadingConserves(w, CreditOf(w.c.out[w.seen].Payload(), w.number));
    }
  }

  lemma {:induction false} PlayKeepsInvariants(number: nat, moves: seq<Move>, o: Options)
    ensures Conserved(Play(number, moves, o)) && InOrder(Play(number, moves, o))
  {
    if moves == [] {
      assert [OPENING][..0] == [] && Offered([OPENING]) == LOCAL_WINDOW;
    } else {
      var w, mv := Play(number, moves[..|moves| - 1], o), moves[|moves| - 1];
      PlayKeepsInvariants(number, moves[..|moves| - 1], o);
      match mv
      case Delivers =>
        if w.toClient != [] && Receiving(w.c) {
          DeliveryKeepsInvariants(w, o);
        }
      case Local(e) =>
        if !e.Received? {
          LocalStepIsAloof(w.c, e, o);
          SeenStays(w.c.out, Step(w.c, e, o).out, w.seen);
        }
      case ServerSends(packet) => ServerSendKeepsInvariants(w, packet, o);
      case ServerReads => ServerReadKeepsInvariants(w, o);
    }
  }

  /**
   * In every run with such a server, while the client takes packets: the
   * server's credit, the data in flight and the credit on its way back, as the
   * server reads it, add up to localWindow less what went astray, and that
   * window stays above half.
   */
  lemma CreditIsConserved(number: nat, moves: seq<Move>, o: Options)
    requires Live(Play(number, moves, o).c)
    ensures var w := Play(number, moves, o);
            && w.seen <= |w.c.out|
            && w.credit + InFlight(w.toClient) + (CreditIn(w.c.out, number) - CreditIn(w.c.out[..w.seen], number))
               + Stray(w.c.out, number) == w.c.localWindow
            && w.credit >= 0 && 1_048_576 < w.c.localWindow <= 2_097_152
  {
    PlayKeepsInvariants(number, moves, o);
    NumberStays(number, moves, o);
    ReadConserved(Play(number, moves, o));
  }

  lemma {:induction false} NumberStays(number: nat, moves: seq<Move>, o: Options)
    ensures Play(number, moves, o).number == number
  {
    if moves != [] {
      NumberStays(number, moves[..|moves| - 1], o);
    }
  }

  lemma ReadConserved(w: World)
    requires Conserved(w) && Live(w.c)
    ensures w.credit + InFlight(w.toClient) + (CreditIn(w.c.out, w.number) - CreditIn(w.c.out[..w.seen], w.number))
            + Stray(w.c.out, w.number) == w.c.localWindow
  {
    CreditInIs(w.c.out, w.number);
    CreditInIs(w.c.out[..w.seen], w.number);
  }

  /**
   * Each stretch of ordinary and extended data the server sends reaches its
   * callback once and in order, whether it arrives while expect() waits for a
   * reply or in pump(): the callbacks made are always a prefix of what was
   * sent, and while the client takes packets all but what is in flight.
   */
  lemma DataDeliveredOnceInOrder(number: nat, moves: seq<Move>, o: Options)
    ensures var w := Play(number, moves, o);
            && w.c.delivered <= w.sent
            && (Live(w.c) ==> w.sent == w.c.delivered + Deliveries(w.toClient))
  {
    PlayKeepsInvariants(number, moves, o);
  }

  // ---------------------------------------------------------------------
  // When no credit goes astray

  /** The client has yet to take the confirmation. */
  predicate Confirming(c: Client) {
    c.main in {Requesting(OpenReply), Expecting(OpenReply), ExpectSend(OpenReply)}
  }

  /** The server sends no data before it has confirmed the channel (section 5.1 of RFC 4254). */
  predicate Orderly(number: nat, moves: seq<Move>, o: Options) {
    moves == []
    || (var before, mv := moves[..|moves| - 1], moves[|moves| - 1];
        && Orderly(number, before, o)
        && (mv.ServerSends? && Carried(Parse(mv.packet)) > 0 ==> Play(number, before, o).confirmed))
  }

  /** What is in flight to a client that has not taken the confirmation yet. */
  ghost predicate Ahead(packets: seq<Bytes>, confirmed: bool) {
    if packets == [] then !confirmed
    else Confirms(packets[0]) || (Carried(Parse(packets[0])) == 0 && Ahead(packets[1..], confirmed))
  }

  lemma {:induction false} AheadPush(packets: seq<Bytes>, confirmed: bool, packet: Bytes)
    requires Ahead(packets, confirmed) && (Carried(Parse(packet)) > 0 ==> confirmed)
    ensures Ahead(packets + [packet], confirmed || Confirms(packet))
  {
    if packets != [] {
      assert (packets + [packet])[1..] == packets[1..] + [packet];
      if !Confirms(packets[0]) {
        AheadPush(packets[1..], confirmed, packet);
      }
    } else {
      assert [packet][1..] == [];
    }
  }

  /** c' has sent nothing that goes astray, and what was lost before stays lost. */
  ghost predicate Straight(c: Client, c': Client, number: nat) {
    Stray(c'.out, number) == Stray(c.out, number)
  }

  lemma StrayPush(out: seq<ClientMsg>, m: ClientMsg, number: nat)
    ensures Stray(out + [m], number)
         == Stray(out, number) + if m.Adjust? && m.channel != number then m.increment else 0
  {
    assert (out + [m])[..|out|] == out;
  }

  /** The client's number is the server's, or it has used none of its window and this uses none. */
  ghost predicate Knows(c: Client, m: ServerMsg, number: nat) {
    c.remoteChannel == number || (Carried(m) == 0 && c.localWindow == LOCAL_WINDOW)
  }

  lemma ConsumeIsStraight(c: Client, n: nat, number: nat)
    requires c.remoteChannel == number || (n == 0 && c.localWindow == LOCAL_WINDOW)
    ensures var c' := ConsumeWindow(c, n).0;
            && Straight(c, c', number) && c'.remoteChannel == c.remoteChannel
            && (n == 0 && c.localWindow == LOCAL_WINDOW ==> c'.localWindow == LOCAL_WINDOW)
  {
    var left := c.localWindow - n;
    StrayPush(c.out, Adjust(c.remoteChannel, LOCAL_WINDOW - left), number);
  }

  lemma DispatchIsStraight(c: Client, m: ServerMsg, number: nat)
    requires Knows(c, m, number)
    ensures var c' := Dispatch(c, m).0;
            && Straight(c, c', number) && c'.remoteChannel == c.remoteChannel
            && (Carried(m) == 0 && c.localWindow == LOCAL_WINDOW ==> c'.localWindow == LOCAL_WINDOW)
  {
    match m
    case ChannelData(data) => ConsumeIsStraight(c.(delivered := c.delivered + [OnData(data)]), |data|, number);
    case ExtendedData(data) => ConsumeIsStraight(c.(delivered := c.delivered + [OnExtendedData(data)]), |data|, number);
    case ChannelRequest(_) => StrayPush(c.out, Messages.ChannelFailure(c.remoteChannel), number);
    case GlobalRequest(_) => StrayPush(c.out, RequestFailure, number);
    case _ =>
  }

  /** What the client and the packets in flight to it know of the number. */
  ghost predicate Settled(c: Client, toClient: seq<Bytes>, confirmed: bool, number: nat) {
    && Stray(c.out, number) == 0
    && (forall p <- toClient :: Confirms(p) ==> ParseConfirmation(p[1..]).value.channel == number)
    && (Live(c) ==> if Confirming(c) then c.localWindow == LOCAL_WINDOW && Ahead(toClient, confirmed)
                    else c.remoteChannel == number)
  }

  lemma ConfirmationSettles(c: Client, m: Option<Confirmation>, o: Options, number: nat)
    requires Stray(c.out, number) == 0 && (m.Some? ==> m.value.channel == number)
    ensures var c' := OnConfirmation(c, m, o);
            Stray(c'.out, number) == 0 && (Live(c') ==> !Confirming(c') && c'.remoteChannel == number)
  {
    if m.Some? {
      StrayPush(c.out, PtyRequest(m.value.channel, o.term, o.cols, o.rows), number);
    }
  }

  lemma ReplySettles(c: Client, stage: Stage, packet: Bytes, o: Options, number: nat)
    requires packet != [] && Stray(c.out, number) == 0 && (stage != OpenReply ==> c.remoteChannel == number)
    requires stage == OpenReply ==> packet[0] == 91
                                    && (Confirms(packet) ==> ParseConfirmation(packet[1..]).value.channel == number)
    ensures var c' := Replied(c, stage, packet, o);
            Stray(c'.out, number) == 0 && (Live(c') ==> !Confirming(c') && c'.remoteChannel == number)
  {
    match stage
    case OpenReply => ConfirmationSettles(c, ParseConfirmation(packet[1..]), o, number);
    case PtyReply => StrayPush(c.out, ShellRequest(c.remoteChannel), number);
    case ShellReply =>
  }

  /** What a packet that is not the awaited reply does to the client. */
  ghost predicate Passes(c: Client, c': Client, m: ServerMsg, number: nat)
    requires c.main.Expecting?
  {
    && Straight(c, c', number) && c'.remoteChannel == c.remoteChannel
    && (Carried(m) == 0 && c.localWindow == LOCAL_WINDOW ==> c'.localWindow == LOCAL_WINDOW)
    && (c'.main.Aborted? || c'.main == Expecting(c.main.stage) || c'.main == ExpectSend(c.main.stage))
  }

  /** Traffic for the dispatcher while a reply is awaited. */
  function Traffic(c: Client, stage: Stage, m: ServerMsg): Client {
    var (c', verdict) := Dispatch(c, m);
    c'.(main := if verdict == Continue then Expecting(stage) else if verdict == AwaitSend then ExpectSend(stage)
                else Aborted)
  }

  lemma ExpectCases(c: Client, packet: Bytes, o: Options)
    requires c.main.Expecting? && (packet != [] ==> packet[0] != Wanted(c.main.stage))
    ensures var c' := Expect(c, c.main.stage, packet, o);
            c' == c || c' == c.(main := Aborted) || c' == Traffic(c, c.main.stage, Parse(packet))
  {
  }

  lemma TrafficPasses(c: Client, m: ServerMsg, number: nat)
    requires c.main.Expecting? && Knows(c, m, number)
    ensures Passes(c, Traffic(c, c.main.stage, m), m, number)
    ensures Passes(c, c, m, number) && Passes(c, c.(main := Aborted), m, number)
  {
    DispatchIsStraight(c, m, number);
  }

  lemma PassingSettles(c: Client, c': Client, toClient: seq<Bytes>, confirmed: bool, number: nat)
    requires Settled(c, toClient, confirmed, number) && toClient != [] && c.main.Expecting?
    requires toClient[0] != [] ==> toClient[0][0] != Wanted(c.main.stage)
    requires Passes(c, c', Parse(toClient[0]), number)
    ensures Settled(c', toClient[1..], confirmed, number)
  {
  }

  lemma ExpectSettles(c: Client, toClient: seq<Bytes>, confirmed: bool, o: Options, number: nat)
    requires Settled(c, toClient, confirmed, number) && toClient != [] && c.main.Expecting?
    ensures Settled(Expect(c, c.main.stage, toClient[0], o), toClient[1..], confirmed, number)
  {
    var packet, stage := toClient[0], c.main.stage;
    assert packet in toClient;
    if packet != [] && packet[0] == Wanted(stage) {
      ReplySettles(c, stage, packet, o, number);
    } else {
      OnlyDataCarries(packet);
      ExpectCases(c, packet, o);
      TrafficPasses(c, Parse(packet), number);
      PassingSettles(c, Expect(c, stage, packet, o), toClient, confirmed, number);
    }
  }

  lemma PumpSettles(c: Client, toClient: seq<Bytes>, confirmed: bool, number: nat)
    requires Settled(c, toClient, confirmed, number) && toClient != [] && c.main.Pumping?
    ensures Settled(Pump(c, toClient[0]), toClient[1..], confirmed, number)
  {
    DispatchIsStraight(c, Parse(toClient[0]), number);
  }

  /** Every other task sends no WINDOW_ADJUST and leaves the stage of openShell alone. */
  ghost predicate Keeps(c: Client, c': Client, number: nat) {
    && Straight(c, c', number) && c'.localWindow == c.localWindow && c'.remoteChannel == c.remoteChannel
    && (Live(c') ==> Live(c) && (Confirming(c') <==> Confirming(c)))
  }

  lemma WriteKeeps(c: Client, i: nat, number: nat)
    requires i < |c.writes|
    ensures Keeps(c, WriteInner(c, i), number)
  {
    var t, size := c.writes[i], ChunkSize(c, i);
    StrayPush(c.out, Messages.Data(c.remoteChannel, Subarray(t.data, t.offset, t.offset + size)), number);
  }

  lemma LoopKeeps(c: Client, i: nat, number: nat)
    requires i < |c.writes|
    ensures Keeps(c, WriteLoop(c, i), number)
  {
    WriteKeeps(c, i, number);
  }

  lemma SettlingKeeps(c: Client, e: Event, o: Options, number: nat)
    requires e.ReadFailed? || e.MainSent? || e.CloseSent?
    ensures Keeps(c, Step(c, e, o), number)
  {
  }

  lemma LocalKeeps(c: Client, e: Event, o: Options, number: nat)
    requires !e.Received?
    ensures Keeps(c, Step(c, e, o), number)
  {
    match e
    case WriteCall(data) => LoopKeeps(Begun(c, data), |c.writes|, number);
    case Resumed(i) =>
      if InPhase(c, i, Woken) {
        WriteKeeps(c, i, number);
      }
    case WriteSent(i, ok) =>
      if Flying(c, i) {
        LoopKeeps(Charged(c, i), i, number);
      }
    case CloseCall => StrayPush(c.out, Messages.Close(c.remoteChannel), number);
    case Resize(cols, rows) => StrayPush(c.out, WindowChange(c.remoteChannel, cols, rows), number);
    case _ => SettlingKeeps(c, e, o, number);
  }

  lemma SendSettles(w: World, packet: Bytes, o: Options)
    requires Settled(w.c, w.toClient, w.confirmed, w.number) && (Carried(Parse(packet)) > 0 ==> w.confirmed)
    ensures var w' := MoveOn(w, ServerSends(packet), o); Settled(w'.c, w'.toClient, w'.confirmed, w'.number)
  {
    if Live(w.c) && Confirming(w.c) {
      AheadPush(w.toClient, w.confirmed, packet);
    }
  }

  lemma MoveSettles(w: World, mv: Move, o: Options)
    requires Settled(w.c, w.toClient, w.confirmed, w.number)
    requires mv.ServerSends? && Carried(Parse(mv.packet)) > 0 ==> w.confirmed
    ensures var w' := MoveOn(w, mv, o); Settled(w'.c, w'.toClient, w'.confirmed, w'.number)
  {
    match mv
    case ServerSends(packet) => SendSettles(w, packet, o);
    case Delivers =>
      if w.toClient != [] && w.c.main.Expecting? {
        ExpectSettles(w.c, w.toClient, w.confirmed, o, w.number);
      } else if w.toClient != [] && w.c.main.Pumping? {
        PumpSettles(w.c, w.toClient, w.confirmed, w.number);
      }
    case ServerReads =>
    case Local(e) =>
      if !e.Received? {
        LocalKeeps(w.c, e, o, w.number);
      }
  }

  lemma {:induction false} NothingGoesAstray(number: nat, moves: seq<Move>, o: Options)
    requires Orderly(number, moves, o)
    ensures var w := Play(number, moves, o);
            Settled(w.c, w.toClient, w.confirmed, w.number) && Stray(w.c.out, number) == 0
  {
    NumberStays(number, moves, o);
    if moves == [] {
      StrayPush([], OPENING, number);
      assert [] + [OPENING] == [OPENING];
    } else {
      NothingGoesAstray(number, moves[..|moves| - 1], o);
      MoveSettles(Play(number, moves[..|moves| - 1], o), moves[|moves| - 1], o);
    }
  }

  /**
   * With a server that sends no data before it has confirmed the channel, no
   * credit is lost: what it holds, what is in flight and what is on its way
   * back are the whole of localWindow, so that once the links drain it can
   * send more than half of the window.
   */
  lemma CreditComesBack(number: nat, moves: seq<Move>, o: Options)
    requires Orderly(number, moves, o) && Live(Play(number, moves, o).c)
    ensures var w := Play(number, moves, o);
            && w.seen <= |w.c.out|
            && w.credit + InFlight(w.toClient) + (CreditIn(w.c.out, number) - CreditIn(w.c.out[..w.seen], number))
               == w.c.localWindow
            && (w.toClient == [] && w.seen == |w.c.out| ==> w.credit > 1_048_576)
  {
    CreditIsConserved(number, moves, o);
    NothingGoesAstray(number, moves, o);
    var w := Play(number, moves, o);
    assert w.seen == |w.c.out| ==> w.c.out[..w.seen] == w.c.out;
  }

  lemma PlayPush(number: nat, moves: seq<Move>, mv: Move, o: Options)
    ensures Play(number, moves + [mv], o) == MoveOn(Play(number, moves, o), mv, o)
  {
    assert (moves + [mv])[..|moves|] == moves;
  }

  lemma EarlyDispatch(c: Client, data: Bytes)
    requires c.localWindow == LOCAL_WINDOW && |data| == 1_048_576
    ensures Dispatch(c, ChannelData(data)).1 == AwaitSend
    ensures Dispatch(c, ChannelData(data)).0.out == c.out + [Adjust(c.remoteChannel, 1_048_576)]
  {
  }

  lemma EarlyExpect(c: Client, packet: Bytes, data: Bytes, o: Options)
    requires c.localWindow == LOCAL_WINDOW && |data| == 1_048_576
    requires packet != [] && packet[0] == 94 && Parse(packet) == ChannelData(data)
    ensures var c' := Expect(c, OpenReply, packet, o);
            c'.main == ExpectSend(OpenReply) && c'.out == c.out + [Adjust(c.remoteChannel, 1_048_576)]
  {
    EarlyDispatch(c, data);
  }

  lemma EarlyCredit(c: Client, packet: Bytes, data: Bytes, number: nat, o: Options)
    requires c.localWindow == LOCAL_WINDOW && |data| == 1_048_576 && c.remoteChannel == 0 && c.out == [OPENING]
    requires number != 0 && packet != [] && packet[0] == 94 && Parse(packet) == ChannelData(data)
    ensures var c' := Expect(c, OpenReply, packet, o);
            Live(c') && Stray(c'.out, number) == 1_048_576
  {
    EarlyExpect(c, packet, data, o);
    StrayPush([], OPENING, number);
    StrayPush(c.out, Adjust(0, 1_048_576), number);
    assert [] + [OPENING] == [OPENING];
  }

  lemma FirstRead(number: nat, o: Options)
    ensures var w := MoveOn(Begin(number), ServerReads, o);
            w.credit == 2_097_152 && w.c == START && w.toClient == []
  {
    OpenCredit(number);
  }

  lemma ThenSent(w: World, packet: Bytes, o: Options)
    requires Carried(Parse(packet)) <= w.credit && packet != [] && packet[0] == 94
    ensures var w' := MoveOn(w, ServerSends(packet), o); w'.c == w.c && w'.toClient == w.toClient + [packet]
  {
  }

  lemma EarlyMoves(number: nat, packet: Bytes, data: Bytes, o: Options)
    requires packet != [] && packet[0] == 94 && Parse(packet) == ChannelData(data) && |data| == 1_048_576
    ensures var w := Play(number, [ServerReads] + [ServerSends(packet)] + [Local(MainSent(true))], o);
            w.c == START.(main := Expecting(OpenReply)) && w.toClient == [packet]
  {
    PlayPush(number, [], ServerReads, o);
    assert [] + [ServerReads] == [ServerReads];
    FirstRead(number, o);
    PlayPush(number, [ServerReads], ServerSends(packet), o);
    ThenSent(Play(number, [ServerReads], o), packet, o);
    PlayPush(number, [ServerReads] + [ServerSends(packet)], Local(MainSent(true)), o);
  }

  lemma EarlyDataStrays(number: nat, packet: Bytes, data: Bytes, o: Options)
    requires number != 0 && packet != [] && packet[0] == 94
    requires Parse(packet) == ChannelData(data) && |data| == 1_048_576
    ensures var w := Play(number, [ServerReads] + [ServerSends(packet)] + [Local(MainSent(true))] + [Delivers], o);
            Live(w.c) && Stray(w.c.out, number) == 1_048_576
  {
    EarlyMoves(number, packet, data, o);
    PlayPush(number, [ServerReads] + [ServerSends(packet)] + [Local(MainSent(true))], Delivers, o);
    EarlyCredit(START.(main := Expecting(OpenReply)), packet, data, number, o);
  }

  lemma DataPacket(data: Bytes) returns (packet: Bytes)
    requires |data| < U32_LIMIT
    ensures packet != [] && packet[0] == 94 && Parse(packet) == ChannelData(data)
  {
    packet := [94] + (BigEndian(4, 0) + (EncodeString(data) + []));
    ParsesData(0, data, []);
  }

  /** Otherwise it can: data that come before the confirmation are credited to channel 0, whatever the number is. */
  lemma CreditCanStray(number: nat, o: Options)
    requires number != 0
    ensures exists moves :: Live(Play(number, moves, o).c) && Stray(Play(number, moves, o).c.out, number) > 0
  {
    var data: Bytes := seq(1_048_576, _ => 0);
    var packet := DataPacket(data);
    EarlyDataStrays(number, packet, data, o);
  }
}
