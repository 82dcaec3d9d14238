/**
 * From one end to the other: what any run of the sending machine puts on the
 * wire, cut into chunks anywhere, is read back by the receiving classes line
 * by line and packet by packet.
 */
module Delivery {
  import opened Wrappers
  import opened ByteStrings
  import opened Stream
  import opened Framing
  import opened SendQueue
  import opened Packets

  const NEWKEYS: Bytes := [21]

  /** The frames that reach the peer: those written before the first write that failed. */
  function OnWire(log: seq<Entry>): (sent: seq<Entry>)
    ensures forall e <- sent :: e in log && e.outcome.Written?
    ensures |sent| <= |log|
  {
    if log == [] then []
    else if !log[0].outcome.Written? then OnWire(log[1..])
    else if !log[0].outcome.ok then []
    else [log[0]] + OnWire(log[1..])
  }

  function WireBytes(sent: seq<Entry>): Bytes
    requires forall e <- sent :: e.outcome.Written?
  {
    if sent == [] then [] else sent[0].outcome.frame + WireBytes(sent[1..])
  }

  /** The sealed entries use d and the directions after it, one each. */
  ghost predicate Chained(sent: seq<Entry>, d: Direction) {
    if sent == [] then true
    else if IsSealed(sent[0]) then sent[0].outcome.sealedBy == Some(d) && Chained(sent[1..], d.Bump())
    else Chained(sent[1..], d)
  }

  lemma {:induction false} SealersConcat(a: seq<Entry>, b: seq<Entry>)
    ensures Sealers(a + b) == Sealers(a) + Sealers(b)
  {
    if b == [] {
      assert a + b == a;
    } else {
      assert (a + b)[..|a + b| - 1] == a + b[..|b| - 1];
      SealersConcat(a, b[..|b| - 1]);
    }
  }

  lemma SealersFront(log: seq<Entry>)
    requires log != []
    ensures Sealers(log) == (if IsSealed(log[0]) then [log[0].outcome.sealedBy.value] else []) + Sealers(log[1..])
  {
    assert log == [log[0]] + log[1..];
    SealersConcat([log[0]], log[1..]);
    assert [log[0]][..0] == [];
  }

  ghost predicate InSequence(sealers: seq<Direction>, d: Direction) {
    forall k | 0 <= k < |sealers| :: sealers[k] == d.Advance(k)
  }

  lemma InSequenceTail(sealers: seq<Direction>, d: Direction)
    requires sealers != [] && InSequence(sealers, d) && d.counter < COUNTER_LIMIT
    ensures sealers[0] == d && InSequence(sealers[1..], d.Bump())
  {
    assert sealers[0] == d.Advance(0);
    forall k | 0 <= k < |sealers| - 1
      ensures sealers[1..][k] == d.Bump().Advance(k)
    {
      AdvanceTwice(d, 1, k);
    }
  }

  lemma {:induction false} OnWireChained(log: seq<Entry>, d: Direction)
    requires d.counter < COUNTER_LIMIT && InSequence(Sealers(log), d)
    ensures Chained(OnWire(log), d)
    decreases |log|
  {
    if log != [] {
      SealersFront(log);
      var next := d;
      if IsSealed(log[0]) {
        InSequenceTail(Sealers(log), d);
        assert Sealers(log)[1..] == Sealers(log[1..]);
        next := d.Bump();
      } else {
        assert Sealers(log) == Sealers(log[1..]);
      }
      OnWireChained(log[1..], next);
      if log[0].outcome.Written? && log[0].outcome.ok {
        assert OnWire(log)[1..] == OnWire(log[1..]);
      }
    }
  }

  // ---------------------------------------------------------------------
  // What the peer is sent

  /** Identification lines, each ended by CR LF (section 4.2 of RFC 4253). */
  function LineBytes(lines: seq<Bytes>): Bytes {
    if lines == [] then [] else lines[0] + [CR, LF] + LineBytes(lines[1..])
  }

  ghost predicate GoodLines(lines: seq<Bytes>) {
    forall line <- lines :: LF !in line && |line| < MAX_LINE
  }

  /** Packets are sealed exactly from the first NEWKEYS on (section 7.3 of RFC 4253). */
  ghost predicate SwitchesAtNewKeys(sent: seq<Entry>, switched: bool) {
    sent == [] || (IsSealed(sent[0]) == switched
                   && SwitchesAtNewKeys(sent[1..], switched || sent[0].payload == NEWKEYS))
  }

  ghost predicate WithinLimits(sent: seq<Entry>) {
    forall e <- sent :: |e.payload| <= if IsSealed(e) then GCM_LIMIT else CLEAR_LIMIT
  }

  /** A line within the limit is read whole wherever the chunk boundaries are. */
  lemma NearLine(buf: Bytes, chunks: seq<Bytes>, ending: Ending, line: Bytes, tail: Bytes)
    requires buf + Flatten(chunks) == line + [CR, LF] + tail
    requires LF !in line && |line| < MAX_LINE
    ensures LineResult(buf, chunks, ending, MAX_LINE) == Ok(line)
    ensures LF in line + [CR, LF] + tail && AfterLine(line + [CR, LF] + tail) == tail
  {
    var s := line + [CR, LF] + tail;
    var i := |line| + 1;
    assert s[i] == LF && s[i - 1] == CR && s[..i] == line + [CR];
    IndexIs(s, LF, i);
    assert s[..i - 1] == line && s[i + 1..] == tail;
    TooLongExactly(buf, chunks, MAX_LINE);
  }

  lemma FirstOnWire(sent: seq<Entry>, tail: Bytes)
    requires sent != [] && forall e <- sent :: e.outcome.Written?
    ensures WireBytes(sent) + tail == sent[0].outcome.frame + (WireBytes(sent[1..]) + tail)
  {
  }

  lemma FirstFrame(aead: Aead, e: Entry, after: Bytes, ending: Ending)
    requires aead.Lawful() && e.outcome.Written? && WithinLimits([e])
    requires WholeFrame(aead, e.payload, e.outcome.frame, e.outcome.sealedBy, e.outcome.pad)
    ensures match e.outcome.sealedBy
            case None => ReceiveClear(e.outcome.frame + after, ending) == Receipt(Ok(e.payload), after)
            case Some(d) =>
              ReceiveGcm(aead, d, e.outcome.frame + after, ending) == (Receipt(Ok(e.payload), after), d.Bump())
  {
    assert e in [e];
    match e.outcome.sealedBy
    case None => ClearFrameRoundTrip(e.payload, e.outcome.pad, after, ending);
    case Some(d) => GcmFrameRoundTrip(aead, d, e.payload, e.outcome.pad, after, ending);
  }

  /** The sent frames of a run, and all the receiver needs to know of them. */
  lemma RunOnWire(aead: Aead, events: seq<Event>, d: Direction)
    requires GoodDirections(events) && d.counter < COUNTER_LIMIT
    requires Run(aead, events).start.Some? ==> Run(aead, events).start == Some(d)
    ensures var sent := OnWire(Run(aead, events).log);
            && (forall e <- sent :: WholeFrame(aead, e.payload, e.outcome.frame, e.outcome.sealedBy, e.outcome.pad))
            && Chained(sent, d)
  {
    RunIsValid(aead, events);
    var s := Run(aead, events);
    assert forall k | 0 <= k < |Sealers(s.log)| :: Sealers(s.log)[k] == SealersSoFar(s)[k];
    assert InSequence(Sealers(s.log), d);
    OnWireChained(s.log, d);
  }

  lemma FirstLine(lines: seq<Bytes>, i: nat, rest: Bytes)
    requires i < |lines|
    ensures LineBytes(lines[i..]) + rest == lines[i] + [CR, LF] + (LineBytes(lines[i + 1..]) + rest)
    ensures lines[i] in lines
  {
    assert lines[i..][1..] == lines[i + 1..];
  }

  method ReadOneLine(stream: ByteStream, ghost line: Bytes, ghost after: Bytes) returns (got: Bytes)
    requires stream.Valid() && stream.Unread() == line + [CR, LF] + after
    requires LF !in line && |line| < MAX_LINE
    modifies stream
    ensures stream.Valid() && stream.Unread() == after && got == line
  {
    NearLine(stream.buf, stream.chunks, stream.ending, line, after);
    var r := stream.ReadLine();
    got := r.value;
  }

  method ReadLines(stream: ByteStream, n: nat, ghost lines: seq<Bytes>, ghost rest: Bytes) returns (got: seq<Bytes>)
    requires stream.Valid() && stream.Unread() == LineBytes(lines) + rest
    requires n == |lines| && GoodLines(lines)
    modifies stream
    ensures stream.Valid() && stream.Unread() == rest && got == lines
  {
    got := [];
    assert lines[0..] == lines;
    for i := 0 to n
      invariant stream.Valid() && got == lines[..i]
      invariant stream.Unread() == LineBytes(lines[i..]) + rest
    {
      FirstLine(lines, i, rest);
      var line := ReadOneLine(stream, lines[i], LineBytes(lines[i + 1..]) + rest);
      got := got + [line];
    }
  }

  /** The receiver is at the front of sent, in the right mode and with the right counter. */
  ghost predicate AtFront(packets: Packets, sent: seq<Entry>, first: Direction, d: Direction, tail: Bytes)
    requires forall e <- sent :: e.outcome.Written?
    reads packets, packets.stream, packets.gcmOut, packets.gcmIn, packets.active
  {
    && packets.Valid() && !packets.zeroed
    && (packets.gcmIn != null) == packets.start.Some?
    && d == (if packets.gcmIn != null then packets.gcmIn.Dir() else first)
    && Chained(sent, d) && SwitchesAtNewKeys(sent, packets.gcmIn != null)
    && (forall e <- sent :: WholeFrame(packets.aead, e.payload, e.outcome.frame, e.outcome.sealedBy, e.outcome.pad))
    && WithinLimits(sent)
    && packets.stream.Unread() == WireBytes(sent) + tail
  }

  /** One packet, and the switch to GCM when it is NEWKEYS. */
  method ReadOne(packets: Packets, key: Bytes, iv: Bytes,
                 ghost sent: seq<Entry>, ghost d: Direction, ghost tail: Bytes)
    returns (payload: Bytes, ghost d': Direction)
    requires packets.aead.Lawful() && |iv| == IV_LEN
    requires sent != [] && forall e <- sent :: e.outcome.Written?
    requires AtFront(packets, sent, DirectionFrom(key, iv), d, tail)
    modifies packets, packets.stream, packets.gcmIn
    ensures payload == sent[0].payload && d' == if IsSealed(sent[0]) then d.Bump() else d
    ensures AtFront(packets, sent[1..], DirectionFrom(key, iv), d', tail)
    ensures packets.gcmIn == old(packets.gcmIn) || fresh(packets.gcmIn)
  {
    FirstOnWire(sent, tail);
    assert sent[0] in sent;
    FirstFrame(packets.aead, sent[0], WireBytes(sent[1..]) + tail, packets.stream.ending);
    var packet := packets.Receive();
    payload := packet.value;
    d' := if IsSealed(sent[0]) then d.Bump() else d;
    if packets.gcmIn == null && payload == NEWKEYS {
      packets.EnableGcm(key, iv, key, iv);
    }
  }

  lemma CounterMoves(first: Direction, sent: seq<Entry>, i: nat)
    requires i < |sent|
    ensures var d := first.Advance(|Sealers(sent[..i])|);
            first.Advance(|Sealers(sent[..i + 1])|) == if IsSealed(sent[i]) then d.Bump() else d
  {
    assert sent[..i + 1][..i] == sent[..i];
    AdvanceTwice(first, |Sealers(sent[..i])|, 1);
  }

  method ReadPackets(packets: Packets, key: Bytes, iv: Bytes, n: nat, ghost sent: seq<Entry>, ghost tail: Bytes)
    returns (got: seq<Bytes>)
    requires packets.aead.Lawful() && |iv| == IV_LEN
    requires n == |sent| && forall e <- sent :: e.outcome.Written?
    requires AtFront(packets, sent, DirectionFrom(key, iv), DirectionFrom(key, iv), tail) && packets.gcmIn == null
    modifies packets, packets.stream
    ensures got == Payloads(sent)
    ensures packets.stream.Unread() == tail
    ensures packets.gcmIn != null ==> packets.gcmIn.Dir() == DirectionFrom(key, iv).Advance(|Sealers(sent)|)
  {
    got := [];
    ghost var d := DirectionFrom(key, iv);
    assert sent[0..] == sent;
    for i := 0 to n
      invariant AtFront(packets, sent[i..], DirectionFrom(key, iv), d, tail)
      invariant packets.gcmIn != null ==> fresh(packets.gcmIn)
      invariant got == Payloads(sent[..i])
      invariant d == DirectionFrom(key, iv).Advance(|Sealers(sent[..i])|)
    {
      CounterMoves(DirectionFrom(key, iv), sent, i);
      assert sent[i..][1..] == sent[i + 1..];
      assert Payloads(sent[..i + 1]) == Payloads(sent[..i]) + [sent[i].payload];
      var payload;
      payload, d := ReadOne(packets, key, iv, sent[i..], d, tail);
      got := got + [payload];
    }
    assert sent[..n] == sent && sent[n..] == [];
  }

  /**
   * The peer of any run of the sender, reading the identification lines and
   * then as many packets as reached the wire, switching to GCM when NEWKEYS
   * has been read: it gets exactly those lines and payloads, for every cut of
   * the bytes into chunks, leaves what follows them unread, and has moved its
   * counter on by one for each sealed frame, as the sender did.
   */
  method ReadBack(aead: Aead, chunks: seq<Bytes>, ending: Ending, key: Bytes, iv: Bytes, nLines: nat, nPackets: nat,
                  ghost lines: seq<Bytes>, ghost events: seq<Event>, ghost tail: Bytes)
    returns (gotLines: seq<Bytes>, got: seq<Bytes>, packets: Packets)
    requires aead.Lawful() && |iv| == IV_LEN && GoodDirections(events) && GoodLines(lines)
    requires Run(aead, events).start.Some? ==> Run(aead, events).start == Some(DirectionFrom(key, iv))
    requires Flatten(chunks) == LineBytes(lines) + (WireBytes(OnWire(Run(aead, events).log)) + tail)
    requires nLines == |lines| && nPackets == |OnWire(Run(aead, events).log)|
    requires SwitchesAtNewKeys(OnWire(Run(aead, events).log), false)
    requires WithinLimits(OnWire(Run(aead, events).log))
    ensures gotLines == lines
    ensures got == Payloads(OnWire(Run(aead, events).log))
    ensures packets.stream.Unread() == tail
    ensures packets.gcmIn != null ==>
              packets.gcmIn.Dir() == DirectionFrom(key, iv).Advance(|Sealers(OnWire(Run(aead, events).log))|)
  {
    ghost var sent := OnWire(Run(aead, events).log);
    RunOnWire(aead, events, DirectionFrom(key, iv));
    var stream := new ByteStream(chunks, ending);
    assert stream.Unread() == Flatten(chunks);
    gotLines := ReadLines(stream, nLines, lines, WireBytes(sent) + tail);
    packets := new Packets(aead, stream);
    got := ReadPackets(packets, key, iv, nPackets, sent, tail);
  }
}
