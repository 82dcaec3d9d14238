/**
 * The messages of the connection layer (sections 5 and 6 of RFC 4254): what
 * the client sends, field by field, and what its dispatcher makes of a packet.
 */
module Messages {
  import opened Wrappers
  import opened ByteStrings
  import opened Wire

  const DISCONNECT := 1
  const IGNORE := 2
  const UNIMPLEMENTED := 3
  const DEBUG := 4
  const EXT_INFO := 7
  const KEXINIT := 20
  const GLOBAL_REQUEST := 80
  const REQUEST_FAILURE := 82
  const CHANNEL_OPEN := 90
  const CHANNEL_OPEN_CONFIRMATION := 91
  const CHANNEL_OPEN_FAILURE := 92
  const CHANNEL_WINDOW_ADJUST := 93
  const CHANNEL_DATA := 94
  const CHANNEL_EXTENDED_DATA := 95
  const CHANNEL_EOF := 96
  const CHANNEL_CLOSE := 97
  const CHANNEL_REQUEST := 98
  const CHANNEL_SUCCESS := 99
  const CHANNEL_FAILURE := 100

  function Ascii(s: string): (b: Bytes)
    ensures |b| == |s|
  {
    seq(|s|, i requires 0 <= i < |s| => (s[i] as int) % 256)
  }

  // ---------------------------------------------------------------------
  // From the client

  /** The field Writer.uint32 writes for any number. */
  function U32(v: int): Field {
    FU32(v % U32_LIMIT)
  }

  datatype ClientMsg =
    | OpenSession(channel: nat, window: nat, maxPacket: nat)
    | PtyRequest(channel: nat, term: Bytes, cols: nat, rows: nat)
    | ShellRequest(channel: nat)
    | WindowChange(channel: nat, cols: nat, rows: nat)
    | Data(channel: nat, data: Bytes)
    | Adjust(channel: nat, increment: int)
    | Close(channel: nat)
    | ChannelFailure(channel: nat)
    | RequestFailure
  {
    function Fields(): seq<Field> {
      match this
      case OpenSession(ch, window, maxPacket) =>
        [FByte(CHANNEL_OPEN), FString(Ascii("session")), U32(ch), U32(window), U32(maxPacket)]
      case PtyRequest(ch, term, cols, rows) =>
        [FByte(CHANNEL_REQUEST), U32(ch), FString(Ascii("pty-req")), FBool(true), FString(term),
         U32(cols), U32(rows), U32(0), U32(0), FString([0])]
      case ShellRequest(ch) => [FByte(CHANNEL_REQUEST), U32(ch), FString(Ascii("shell")), FBool(true)]
      case WindowChange(ch, cols, rows) =>
        [FByte(CHANNEL_REQUEST), U32(ch), FString(Ascii("window-change")), FBool(false),
         U32(cols), U32(rows), U32(0), U32(0)]
      case Data(ch, data) => [FByte(CHANNEL_DATA), U32(ch), FString(data)]
      case Adjust(ch, increment) => [FByte(CHANNEL_WINDOW_ADJUST), U32(ch), U32(increment)]
      case Close(ch) => [FByte(CHANNEL_CLOSE), U32(ch)]
      case ChannelFailure(ch) => [FByte(CHANNEL_FAILURE), U32(ch)]
      case RequestFailure => [FByte(REQUEST_FAILURE)]
    }

    function Payload(): Bytes {
      Encode(Fields())
    }
  }

  // ---------------------------------------------------------------------
  // What a server reads of them

  /** For numbers that fit, U32 is the number itself. */
  predicate Small(n: int) {
    0 <= n < U32_LIMIT
  }

  lemma MessageReads(m: ClientMsg, f: seq<Field>)
    requires m.Fields() == f && forall i | 0 <= i < |f| :: f[i].Encodable()
    ensures ReadsAs(m.Payload(), f)
  {
    RecordReads(f);
  }

  lemma OpenReads(channel: nat, window: nat, maxPacket: nat)
    requires Small(channel) && Small(window) && Small(maxPacket)
    ensures ReadsAs(OpenSession(channel, window, maxPacket).Payload(),
                    [FByte(90), FString(Ascii("session")), FU32(channel), FU32(window), FU32(maxPacket)])
  {
    MessageReads(OpenSession(channel, window, maxPacket),
                 [FByte(90), FString(Ascii("session")), FU32(channel), FU32(window), FU32(maxPacket)]);
  }

  lemma PtyReads(channel: nat, term: Bytes, cols: nat, rows: nat)
    requires Small(channel) && |term| < U32_LIMIT && Small(cols) && Small(rows)
    ensures ReadsAs(PtyRequest(channel, term, cols, rows).Payload(),
                    [FByte(98), FU32(channel), FString(Ascii("pty-req")), FBool(true), FString(term), FU32(cols),
                     FU32(rows), FU32(0), FU32(0), FString([0])])
  {
    MessageReads(PtyRequest(channel, term, cols, rows),
                 [FByte(98), FU32(channel), FString(Ascii("pty-req")), FBool(true), FString(term), FU32(cols),
                  FU32(rows), FU32(0), FU32(0), FString([0])]);
  }

  lemma ShellReads(channel: nat)
    requires Small(channel)
    ensures ReadsAs(ShellRequest(channel).Payload(),
                    [FByte(98), FU32(channel), FString(Ascii("shell")), FBool(true)])
  {
    MessageReads(ShellRequest(channel), [FByte(98), FU32(channel), FString(Ascii("shell")), FBool(true)]);
  }

  lemma WindowChangeReads(channel: nat, cols: nat, rows: nat)
    requires Small(channel) && Small(cols) && Small(rows)
    ensures ReadsAs(WindowChange(channel, cols, rows).Payload(),
                    [FByte(98), FU32(channel), FString(Ascii("window-change")), FBool(false), FU32(cols), FU32(rows),
                     FU32(0), FU32(0)])
  {
    MessageReads(WindowChange(channel, cols, rows),
                 [FByte(98), FU32(channel), FString(Ascii("window-change")), FBool(false), FU32(cols), FU32(rows),
                  FU32(0), FU32(0)]);
  }

  lemma DataReads(channel: nat, data: Bytes)
    requires Small(channel) && |data| < U32_LIMIT
    ensures ReadsAs(Data(channel, data).Payload(), [FByte(94), FU32(channel), FString(data)])
  {
    MessageReads(Data(channel, data), [FByte(94), FU32(channel), FString(data)]);
  }

  lemma AdjustReads(channel: nat, increment: nat)
    requires Small(channel) && Small(increment)
    ensures ReadsAs(Adjust(channel, increment).Payload(), [FByte(93), FU32(channel), FU32(increment)])
  {
    MessageReads(Adjust(channel, increment), [FByte(93), FU32(channel), FU32(increment)]);
  }

  lemma CloseReads(channel: nat)
    requires Small(channel)
    ensures ReadsAs(Close(channel).Payload(), [FByte(97), FU32(channel)])
  {
    MessageReads(Close(channel), [FByte(97), FU32(channel)]);
  }

  /** A refused channel request names its channel; a refused global one is a single byte. */
  lemma FailureReads(channel: nat)
    requires Small(channel)
    ensures ReadsAs(ChannelFailure(channel).Payload(), [FByte(100), FU32(channel)])
    ensures RequestFailure.Payload() == [82]
  {
    MessageReads(ChannelFailure(channel), [FByte(100), FU32(channel)]);
    assert RequestFailure.Fields()[1..] == [];
  }

  /** The characters of a name are its bytes. */
  lemma AsciiBytes()
    ensures Ascii("SSH-2.0-") == [83, 83, 72, 45, 50, 46, 48, 45]
    ensures Ascii("shell") == [115, 104, 101, 108, 108]
  {
  }

  // ---------------------------------------------------------------------
  // From the server

  datatype ServerMsg =
    | ChannelData(data: Bytes)
    | ExtendedData(data: Bytes)
    | WindowAdjust(increment: nat)
    | Eof
    | ChannelClose
    | ChannelRequest(wantReply: bool)
    | GlobalRequest(wantReply: bool)
    | Disconnect
    | KexInit
    | Other(kind: byte)
    | Malformed

  /** u32 then string, the shape of most channel messages. */
  function TakeU32String(s: Bytes): Option<Taken<Bytes>> {
    match TakeU32(s)
    case None => None
    case Some(n) => TakeString(n.rest)
  }

  function TakeTwoU32(s: Bytes): Option<Taken<nat>> {
    match TakeU32(s)
    case None => None
    case Some(n) => TakeU32(n.rest)
  }

  function TakeFlag(s: Option<Taken<Bytes>>): Option<Taken<byte>> {
    match s
    case None => None
    case Some(t) => TakeByte(t.rest)
  }

  /** A server's answer to CHANNEL_OPEN: its channel number and the window it offers. */
  datatype Confirmation = Confirmation(channel: nat, window: nat)

  /** Our own channel number and the server's packet limit are read and dropped; both must be there. */
  function ParseConfirmation(s: Bytes): Option<Confirmation> {
    match TakeTwoU32(s)
    case None => None
    case Some(channel) =>
      match TakeU32(channel.rest)
      case None => None
      case Some(window) =>
        if TakeU32(window.rest).None? then None else Some(Confirmation(channel.value, window.value))
  }

  /** What the dispatcher reads of each kind of packet; anything after that, and any other kind, is ignored. */
  function Parse(packet: Bytes): ServerMsg {
    if packet == [] then Malformed
    else
      var kind, s := packet[0], packet[1..];
      if kind == CHANNEL_DATA then
        (match TakeU32String(s) case None => Malformed case Some(t) => ChannelData(t.value))
      else if kind == CHANNEL_EXTENDED_DATA then
        (match TakeU32(s)
         case None => Malformed
         case Some(ch) => match TakeU32String(ch.rest) case None => Malformed case Some(t) => ExtendedData(t.value))
      else if kind == CHANNEL_WINDOW_ADJUST then
        (match TakeTwoU32(s) case None => Malformed case Some(t) => WindowAdjust(t.value))
      else if kind == CHANNEL_REQUEST then
        (match TakeFlag(TakeU32String(s)) case None => Malformed case Some(t) => ChannelRequest(t.value != 0))
      else if kind == GLOBAL_REQUEST then
        (match TakeFlag(TakeString(s)) case None => Malformed case Some(t) => GlobalRequest(t.value != 0))
      else if kind == DISCONNECT then (if TakeU32String(s).None? then Malformed else Disconnect)
      else if kind == CHANNEL_EOF then Eof
      else if kind == CHANNEL_CLOSE then ChannelClose
      else if kind == KEXINIT then KexInit
      else Other(kind)
  }

  /** The data and the credit a server sends are what the client sees. */
  lemma ParsesData(ch: nat, data: Bytes, tail: Bytes)
    requires ch < U32_LIMIT && |data| < U32_LIMIT
    ensures Parse([94] + (BigEndian(4, ch) + (EncodeString(data) + tail))) == ChannelData(data)
  {
    StringRoundTrip(data, tail);
    U32FieldRoundTrip(ch, EncodeString(data) + tail);
    assert ([94] + (BigEndian(4, ch) + (EncodeString(data) + tail)))[1..]
        == BigEndian(4, ch) + (EncodeString(data) + tail);
  }

  lemma ParsesExtendedData(ch: nat, code: nat, data: Bytes, tail: Bytes)
    requires ch < U32_LIMIT && code < U32_LIMIT && |data| < U32_LIMIT
    ensures Parse([95] + (BigEndian(4, ch) + (BigEndian(4, code) + (EncodeString(data) + tail))))
         == ExtendedData(data)
  {
    var s := BigEndian(4, code) + (EncodeString(data) + tail);
    StringRoundTrip(data, tail);
    U32FieldRoundTrip(code, EncodeString(data) + tail);
    U32FieldRoundTrip(ch, s);
    assert ([95] + (BigEndian(4, ch) + s))[1..] == BigEndian(4, ch) + s;
  }

  lemma ParsesWindowAdjust(ch: nat, n: nat, tail: Bytes)
    requires ch < U32_LIMIT && n < U32_LIMIT
    ensures Parse([93] + (BigEndian(4, ch) + (BigEndian(4, n) + tail))) == WindowAdjust(n)
  {
    U32FieldRoundTrip(n, tail);
    U32FieldRoundTrip(ch, BigEndian(4, n) + tail);
    assert ([93] + (BigEndian(4, ch) + (BigEndian(4, n) + tail)))[1..]
        == BigEndian(4, ch) + (BigEndian(4, n) + tail);
  }

  lemma ParsesConfirmation(ours: nat, channel: nat, window: nat, limit: nat)
    requires ours < U32_LIMIT && channel < U32_LIMIT && window < U32_LIMIT && limit < U32_LIMIT
    ensures ParseConfirmation(BigEndian(4, ours) + (BigEndian(4, channel) + (BigEndian(4, window)
                                                                              + (BigEndian(4, limit) + []))))
         == Some(Confirmation(channel, window))
  {
    var s := BigEndian(4, limit) + [];
    U32FieldRoundTrip(limit, []);
    U32FieldRoundTrip(window, s);
    U32FieldRoundTrip(channel, BigEndian(4, window) + s);
    U32FieldRoundTrip(ours, BigEndian(4, channel) + (BigEndian(4, window) + s));
  }

  // ---------------------------------------------------------------------
  // What the client sees is what the bytes say

  lemma U32StringTaken(s: Bytes, n: nat, v: Bytes, rest: Bytes)
    requires n < U32_LIMIT && |v| < U32_LIMIT && s == BigEndian(4, n) + (EncodeString(v) + rest)
    ensures TakeU32String(s) == Some(Taken(v, rest))
  {
    TakenU32(s, n, EncodeString(v) + rest);
    TakenString(EncodeString(v) + rest, v, rest);
  }

  lemma U32StringCut(s: Bytes) returns (n: nat, v: Bytes, rest: Bytes)
    requires TakeU32String(s).Some?
    ensures n < U32_LIMIT && |v| < U32_LIMIT && s == BigEndian(4, n) + (EncodeString(v) + rest)
    ensures TakeU32String(s) == Some(Taken(v, rest))
  {
    var t := TakeU32(s).value;
    var r := TakeString(t.rest).value;
    n, v, rest := t.value, r.value, r.rest;
    TakenU32(s, n, t.rest);
    TakenString(t.rest, v, rest);
  }

  ghost predicate IsData(packet: Bytes, channel: nat, data: Bytes, tail: Bytes) {
    && channel < U32_LIMIT && |data| < U32_LIMIT
    && packet == [94] + (BigEndian(4, channel) + (EncodeString(data) + tail))
  }

  ghost predicate IsExtendedData(packet: Bytes, channel: nat, code: nat, data: Bytes, tail: Bytes) {
    && channel < U32_LIMIT && code < U32_LIMIT && |data| < U32_LIMIT
    && packet == [95] + (BigEndian(4, channel) + (BigEndian(4, code) + (EncodeString(data) + tail)))
  }

  ghost predicate IsAdjust(packet: Bytes, channel: nat, increment: nat, tail: Bytes) {
    && channel < U32_LIMIT && increment < U32_LIMIT
    && packet == [93] + (BigEndian(4, channel) + (BigEndian(4, increment) + tail))
  }

  ghost predicate IsRequest(packet: Bytes, channel: nat, name: Bytes, flag: byte, tail: Bytes) {
    && channel < U32_LIMIT && |name| < U32_LIMIT
    && packet == [98] + (BigEndian(4, channel) + (EncodeString(name) + ([flag] + tail)))
  }

  ghost predicate IsGlobalRequest(packet: Bytes, name: Bytes, flag: byte, tail: Bytes) {
    |name| < U32_LIMIT && packet == [80] + (EncodeString(name) + ([flag] + tail))
  }

  ghost predicate IsDisconnect(packet: Bytes, code: nat, text: Bytes, tail: Bytes) {
    && code < U32_LIMIT && |text| < U32_LIMIT
    && packet == [1] + (BigEndian(4, code) + (EncodeString(text) + tail))
  }

  lemma Headed(packet: Bytes, kind: byte, s: Bytes)
    requires packet == [kind] + s
    ensures packet != [] && packet[0] == kind && packet[1..] == s
  {
  }

  lemma Unheaded(packet: Bytes)
    requires packet != []
    ensures packet == [packet[0]] + packet[1..]
  {
  }

  /** A packet is taken for data exactly if it is a CHANNEL_DATA, whole and with just that data. */
  lemma DataExactly(packet: Bytes, data: Bytes)
    ensures Parse(packet) == ChannelData(data) <==> exists channel, tail :: IsData(packet, channel, data, tail)
  {
    if Parse(packet) == ChannelData(data) {
      var channel, v, tail := U32StringCut(packet[1..]);
      Unheaded(packet);
      assert IsData(packet, channel, data, tail);
    }
    forall channel: nat, tail | IsData(packet, channel, data, tail)
      ensures Parse(packet) == ChannelData(data)
    {
      ParsesData(channel, data, tail);
    }
  }

  lemma ExtendedDataExactly(packet: Bytes, data: Bytes)
    ensures Parse(packet) == ExtendedData(data)
      <==> exists channel, code, tail :: IsExtendedData(packet, channel, code, data, tail)
  {
    if Parse(packet) == ExtendedData(data) {
      var t := TakeU32(packet[1..]).value;
      TakenU32(packet[1..], t.value, t.rest);
      var code, v, tail := U32StringCut(t.rest);
      Unheaded(packet);
      assert IsExtendedData(packet, t.value, code, data, tail);
    }
    forall channel: nat, code: nat, tail | IsExtendedData(packet, channel, code, data, tail)
      ensures Parse(packet) == ExtendedData(data)
    {
      ParsesExtendedData(channel, code, data, tail);
    }
  }

  lemma AdjustExactly(packet: Bytes, increment: nat)
    ensures Parse(packet) == WindowAdjust(increment)
      <==> exists channel, tail :: IsAdjust(packet, channel, increment, tail)
  {
    if Parse(packet) == WindowAdjust(increment) {
      var t := TakeU32(packet[1..]).value;
      var n := TakeU32(t.rest).value;
      TakenU32(packet[1..], t.value, t.rest);
      TakenU32(t.rest, n.value, n.rest);
      Unheaded(packet);
      assert IsAdjust(packet, t.value, increment, n.rest);
    }
    forall channel: nat, tail | IsAdjust(packet, channel, increment, tail)
      ensures Parse(packet) == WindowAdjust(increment)
    {
      ParsesWindowAdjust(channel, increment, tail);
    }
  }

  lemma RequestParse(packet: Bytes, wantReply: bool)
    ensures Parse(packet) == ChannelRequest(wantReply)
      <==> packet != [] && packet[0] == 98 && TakeFlag(TakeU32String(packet[1..])).Some?
           && (TakeFlag(TakeU32String(packet[1..])).value.value != 0) == wantReply
  {
  }

  lemma DisconnectParse(packet: Bytes)
    ensures Parse(packet) == Disconnect <==> packet != [] && packet[0] == 1 && TakeU32String(packet[1..]).Some?
  {
  }

  /** A request wants an answer exactly if the byte after its name is not zero. */
  lemma RequestExactly(packet: Bytes, wantReply: bool)
    ensures Parse(packet) == ChannelRequest(wantReply)
      <==> exists channel, name, flag, tail :: IsRequest(packet, channel, name, flag, tail) && (flag != 0) == wantReply
  {
    RequestParse(packet, wantReply);
    if Parse(packet) == ChannelRequest(wantReply) {
      var channel, name, rest := U32StringCut(packet[1..]);
      Unheaded(packet);
      Unheaded(rest);
      assert IsRequest(packet, channel, name, rest[0], rest[1..]);
    }
    forall channel: nat, name, flag, tail | IsRequest(packet, channel, name, flag, tail)
      ensures Parse(packet) == ChannelRequest(flag != 0)
    {
      RequestParse(packet, flag != 0);
      Headed(packet, 98, BigEndian(4, channel) + (EncodeString(name) + ([flag] + tail)));
      U32StringTaken(packet[1..], channel, name, [flag] + tail);
      ByteRoundTrip(flag, tail);
    }
  }

  lemma GlobalRequestExactly(packet: Bytes, wantReply: bool)
    ensures Parse(packet) == GlobalRequest(wantReply)
      <==> exists name, flag, tail :: IsGlobalRequest(packet, name, flag, tail) && (flag != 0) == wantReply
  {
    if Parse(packet) == GlobalRequest(wantReply) {
      var t := TakeString(packet[1..]).value;
      TakenString(packet[1..], t.value, t.rest);
      Unheaded(packet);
      Unheaded(t.rest);
      assert IsGlobalRequest(packet, t.value, t.rest[0], t.rest[1..]);
    }
    forall name, flag, tail | IsGlobalRequest(packet, name, flag, tail)
      ensures Parse(packet) == GlobalRequest(flag != 0)
    {
      Headed(packet, 80, EncodeString(name) + ([flag] + tail));
      TakenString(packet[1..], name, [flag] + tail);
      ByteRoundTrip(flag, tail);
    }
  }

  lemma DisconnectExactly(packet: Bytes)
    ensures Parse(packet) == Disconnect <==> exists code, text, tail :: IsDisconnect(packet, code, text, tail)
  {
    DisconnectParse(packet);
    if Parse(packet) == Disconnect {
      var code, text, tail := U32StringCut(packet[1..]);
      Unheaded(packet);
      assert IsDisconnect(packet, code, text, tail);
    }
    forall code: nat, text, tail | IsDisconnect(packet, code, text, tail)
      ensures Parse(packet) == Disconnect
    {
      Headed(packet, 1, BigEndian(4, code) + (EncodeString(text) + tail));
      U32StringTaken(packet[1..], code, text, tail);
    }
  }

  /** What the first byte alone decides, and which packets can be malformed. */
  lemma KindsExactly(packet: Bytes)
    ensures Parse(packet) == Eof <==> packet != [] && packet[0] == 96
    ensures Parse(packet) == ChannelClose <==> packet != [] && packet[0] == 97
    ensures Parse(packet) == KexInit <==> packet != [] && packet[0] == 20
    ensures Parse(packet) == Malformed ==> packet == [] || packet[0] in {1, 80, 93, 94, 95, 98}
    ensures packet != [] && packet[0] !in {1, 20, 80, 93, 94, 95, 96, 97, 98} ==> Parse(packet) == Other(packet[0])
  {
  }

  ghost predicate IsConfirmation(s: Bytes, ours: nat, channel: nat, window: nat, limit: nat, tail: Bytes) {
    && ours < U32_LIMIT && channel < U32_LIMIT && window < U32_LIMIT && limit < U32_LIMIT
    && s == BigEndian(4, ours) + (BigEndian(4, channel) + (BigEndian(4, window) + (BigEndian(4, limit) + tail)))
  }

  /** A confirmation is the recipient's number, the sender's, the window and a packet limit. */
  lemma ConfirmationExactly(s: Bytes, channel: nat, window: nat)
    ensures ParseConfirmation(s) == Some(Confirmation(channel, window))
      <==> exists ours, limit, tail :: IsConfirmation(s, ours, channel, window, limit, tail)
  {
    if ParseConfirmation(s) == Some(Confirmation(channel, window)) {
      var a := TakeU32(s).value;
      var b := TakeU32(a.rest).value;
      var c := TakeU32(b.rest).value;
      var d := TakeU32(c.rest).value;
      TakenU32(s, a.value, a.rest);
      TakenU32(a.rest, b.value, b.rest);
      TakenU32(b.rest, c.value, c.rest);
      TakenU32(c.rest, d.value, d.rest);
      assert IsConfirmation(s, a.value, channel, window, d.value, d.rest);
    }
    forall ours: nat, limit: nat, tail | IsConfirmation(s, ours, channel, window, limit, tail)
      ensures ParseConfirmation(s) == Some(Confirmation(channel, window))
    {
      var s4 := BigEndian(4, limit) + tail;
      var s3 := BigEndian(4, window) + s4;
      TakenU32(s4, limit, tail);
      TakenU32(s3, window, s4);
      TakenU32(BigEndian(4, channel) + s3, channel, s3);
      TakenU32(s, ours, BigEndian(4, channel) + s3);
    }
  }
}
