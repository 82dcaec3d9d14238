/**
 * SSH wire codecs, section 5 of RFC 4251: the Writer and Reader classes of
 * src/ssh/wire.ts, and the functions on byte strings that specify them.
 */
module Wire {
  import opened Wrappers
  import opened ByteStrings

  const U32_LIMIT := 0x1_0000_0000
  const COMMA: byte := 0x2c

  datatype WireError = ReadPastEnd

  // ---------------------------------------------------------------------
  // Encodings

  function EncodeString(s: Bytes): (b: Bytes)
    ensures |b| == 4 + |s|
  {
    BigEndian(4, |s| % U32_LIMIT) + s
  }

  function StripZeros(v: Bytes): Bytes {
    if v != [] && v[0] == 0 then StripZeros(v[1..]) else v
  }

  /** The content bytes of the mpint that encodes the unsigned number v denotes. */
  function MpintContent(v: Bytes): Bytes {
    var trimmed := StripZeros(v);
    if trimmed != [] && trimmed[0] >= 0x80 then [0] + trimmed else trimmed
  }

  /** names.join(',') */
  function JoinNames(names: seq<Bytes>): Bytes {
    if names == [] then []
    else if |names| == 1 then names[0]
    else names[0] + [COMMA] + JoinNames(names[1..])
  }

  /** s.split(',') */
  function SplitNames(s: Bytes): (names: seq<Bytes>)
    ensures names != []
    decreases |s|
  {
    var i := IndexOf(s, COMMA);
    if i == |s| then [s] else [s[..i]] + SplitNames(s[i + 1..])
  }

  function ParseNames(s: Bytes): seq<Bytes> {
    if s == [] then [] else SplitNames(s)
  }

  // ---------------------------------------------------------------------
  // Reading from the front of the unread bytes

  datatype Taken<+T> = Taken(value: T, rest: Bytes)

  function TakeRaw(n: nat, s: Bytes): Option<Taken<Bytes>> {
    if n > |s| then None else Some(Taken(s[..n], s[n..]))
  }

  function TakeByte(s: Bytes): Option<Taken<byte>> {
    if s == [] then None else Some(Taken(s[0], s[1..]))
  }

  function TakeU32(s: Bytes): Option<Taken<nat>> {
    if |s| < 4 then None else Some(Taken(Value(s[..4]), s[4..]))
  }

  function TakeString(s: Bytes): Option<Taken<Bytes>> {
    match TakeU32(s)
    case None => None
    case Some(n) => TakeRaw(n.value, n.rest)
  }

  // ---------------------------------------------------------------------
  // Records of fields

  datatype Shape = AByte | ABool | AU32 | AString | ANameList | ARaw(len: nat)

  datatype Field =
    | FByte(b: byte)
    | FBool(flag: bool)
    | FU32(n: nat)
    | FString(s: Bytes)
    | FNames(names: seq<Bytes>)
    | FRaw(raw: Bytes)
  {
    function Shape(): Shape {
      match this
      case FByte(_) => AByte
      case FBool(_) => ABool
      case FU32(_) => AU32
      case FString(_) => AString
      case FNames(_) => ANameList
      case FRaw(raw) => ARaw(|raw|)
    }

    /** The values that fit their field; a name-list must also survive joining. */
    ghost predicate Encodable() {
      match this
      case FByte(_) => true
      case FBool(_) => true
      case FU32(n) => n < U32_LIMIT
      case FString(s) => |s| < U32_LIMIT
      case FNames(names) => |JoinNames(names)| < U32_LIMIT && ParseNames(JoinNames(names)) == names
      case FRaw(_) => true
    }

    function Encode(): Bytes {
      match this
      case FByte(b) => [b]
      case FBool(flag) => [if flag then 1 else 0]
      case FU32(n) => BigEndian(4, n % U32_LIMIT)
      case FString(s) => EncodeString(s)
      case FNames(names) => EncodeString(JoinNames(names))
      case FRaw(raw) => raw
    }
  }

  function TakeField(shape: Shape, s: Bytes): Option<Taken<Field>> {
    match shape
    case AByte => (match TakeByte(s) case None => None case Some(t) => Some(Taken(FByte(t.value), t.rest)))
    case ABool => (match TakeByte(s) case None => None case Some(t) => Some(Taken(FBool(t.value != 0), t.rest)))
    case AU32 => (match TakeU32(s) case None => None case Some(t) => Some(Taken(FU32(t.value), t.rest)))
    case AString => (match TakeString(s) case None => None case Some(t) => Some(Taken(FString(t.value), t.rest)))
    case ANameList =>
      (match TakeString(s) case None => None case Some(t) => Some(Taken(FNames(ParseNames(t.value)), t.rest)))
    case ARaw(len) => (match TakeRaw(len, s) case None => None case Some(t) => Some(Taken(FRaw(t.value), t.rest)))
  }

  function Encode(fields: seq<Field>): Bytes {
    if fields == [] then [] else fields[0].Encode() + Encode(fields[1..])
  }

  function Shapes(fields: seq<Field>): seq<Shape> {
    seq(|fields|, i requires 0 <= i < |fields| => fields[i].Shape())
  }

  function Decode(shapes: seq<Shape>, s: Bytes): Option<Taken<seq<Field>>> {
    if shapes == [] then Some(Taken([], s))
    else
      match TakeField(shapes[0], s)
      case None => None
      case Some(first) =>
        match Decode(shapes[1..], first.rest)
        case None => None
        case Some(others) => Some(Taken([first.value] + others.value, others.rest))
  }

  ghost predicate AllEncodable(fields: seq<Field>) {
    forall f <- fields :: f.Encodable()
  }

  lemma {:induction false} EncodePush(fields: seq<Field>, f: Field)
    ensures Encode(fields + [f]) == Encode(fields) + f.Encode()
  {
    if fields == [] {
      assert fields + [f] == [f] && [f][1..] == [];
    } else {
      assert (fields + [f])[1..] == fields[1..] + [f];
      EncodePush(fields[1..], f);
      assert fields[0].Encode() + (Encode(fields[1..]) + f.Encode())
        == (fields[0].Encode() + Encode(fields[1..])) + f.Encode();
    }
  }

  /** The encoding from field k on, one field at a time. */
  lemma EncodeFrom(fields: seq<Field>, k: nat)
    requires k < |fields|
    ensures Encode(fields[k..]) == fields[k].Encode() + Encode(fields[k + 1..])
  {
    assert fields[k..][1..] == fields[k + 1..];
  }

  lemma EncodeLast(fields: seq<Field>)
    requires fields != []
    ensures Encode(fields[|fields| - 1..]) == fields[|fields| - 1].Encode()
  {
    EncodeFrom(fields, |fields| - 1);
    assert fields[|fields|..] == [];
  }

  lemma U32FieldRoundTrip(n: nat, tail: Bytes)
    requires n < U32_LIMIT
    ensures TakeU32(BigEndian(4, n) + tail) == Some(Taken(n, tail))
  {
    var b := BigEndian(4, n) + tail;
    U32RoundTrip(n);
    assert b[..4] == BigEndian(4, n) && b[4..] == tail;
  }

  lemma StringRoundTrip(s: Bytes, tail: Bytes)
    requires |s| < U32_LIMIT
    ensures TakeString(EncodeString(s) + tail) == Some(Taken(s, tail))
  {
    assert EncodeString(s) + tail == BigEndian(4, |s|) + (s + tail);
    U32FieldRoundTrip(|s|, s + tail);
    assert (s + tail)[..|s|] == s && (s + tail)[|s|..] == tail;
  }

  lemma TakenU32(s: Bytes, n: nat, rest: Bytes)
    ensures TakeU32(s) == Some(Taken(n, rest)) <==> n < U32_LIMIT && s == BigEndian(4, n) + rest
  {
    if TakeU32(s) == Some(Taken(n, rest)) {
      BigEndianOfValue(s[..4]);
      ValueBound(s[..4]);
      Pow256Widths();
      assert s == s[..4] + s[4..];
    } else if n < U32_LIMIT && s == BigEndian(4, n) + rest {
      U32FieldRoundTrip(n, rest);
    }
  }

  /** What a string read off the front means for the bytes. */
  lemma TakenString(s: Bytes, v: Bytes, rest: Bytes)
    ensures TakeString(s) == Some(Taken(v, rest)) <==> |v| < U32_LIMIT && s == EncodeString(v) + rest
  {
    if TakeString(s) == Some(Taken(v, rest)) {
      BigEndianOfValue(s[..4]);
      ValueBound(s[..4]);
      Pow256Widths();
      assert s == s[..4] + (s[4..][..|v|] + s[4..][|v|..]);
    } else if |v| < U32_LIMIT && s == EncodeString(v) + rest {
      StringRoundTrip(v, rest);
    }
  }

  /** The number, the string and the flags of the examples in section 5 of RFC 4251. */
  lemma WireExamples()
    ensures FU32(0x29b7f4aa).Encode() == [0x29, 0xb7, 0xf4, 0xaa]
    ensures EncodeString([0x74, 0x65, 0x73, 0x74, 0x69, 0x6e, 0x67])
         == [0, 0, 0, 7] + [0x74, 0x65, 0x73, 0x74, 0x69, 0x6e, 0x67]
    ensures FBool(true).Encode() == [1] && FBool(false).Encode() == [0]
  {
    FourBytes(0x29, 0xb7, 0xf4, 0xaa);
    FourBytes(0, 0, 0, 7);
  }

  /** Its lists of no, one and two names. */
  lemma NameListExamples()
    ensures JoinNames([]) == []
    ensures JoinNames([[0x7a, 0x6c, 0x69, 0x62]]) == [0x7a, 0x6c, 0x69, 0x62]
    ensures JoinNames([[0x7a, 0x6c, 0x69, 0x62], [0x6e, 0x6f, 0x6e, 0x65]])
         == [0x7a, 0x6c, 0x69, 0x62, 0x2c, 0x6e, 0x6f, 0x6e, 0x65]
    ensures forall names :: FNames(names).Encode() == EncodeString(JoinNames(names))
  {
  }

  /** Its mpint examples: zero, a number, and one with the sign bit set; leading zeros go. */
  lemma MpintExamples()
    ensures MpintContent([0]) == []
    ensures MpintContent([9, 0xa3, 0x78, 0xf9, 0xb2, 0xe3, 0x32, 0xa7]) == [9, 0xa3, 0x78, 0xf9, 0xb2, 0xe3, 0x32, 0xa7]
    ensures MpintContent([0x80]) == [0, 0x80]
    ensures MpintContent([0, 0, 1]) == [1]
  {
    assert [0, 0, 1][1..] == [0, 1] && [0, 1][1..] == [1];
  }

  lemma ByteRoundTrip(b: byte, tail: Bytes)
    ensures TakeByte([b] + tail) == Some(Taken(b, tail))
  {
    assert ([b] + tail)[1..] == tail;
  }

  lemma RawRoundTrip(raw: Bytes, tail: Bytes)
    ensures TakeRaw(|raw|, raw + tail) == Some(Taken(raw, tail))
  {
    assert (raw + tail)[..|raw|] == raw && (raw + tail)[|raw|..] == tail;
  }

  lemma FieldRoundTrip(f: Field, tail: Bytes)
    requires f.Encodable()
    ensures TakeField(f.Shape(), f.Encode() + tail) == Some(Taken(f, tail))
  {
    match f
    case FByte(b) =>
      ByteRoundTrip(b, tail);
    case FBool(flag) =>
      ByteRoundTrip(if flag then 1 else 0, tail);
    case FU32(n) =>
      U32FieldRoundTrip(n, tail);
    case FString(s) =>
      StringRoundTrip(s, tail);
    case FNames(names) =>
      StringRoundTrip(JoinNames(names), tail);
    case FRaw(raw) =>
      RawRoundTrip(raw, tail);
  }

  /** Field k is read off what is encoded from it on. */
  lemma FieldFrom(fields: seq<Field>, k: nat)
    requires k < |fields| && fields[k].Encodable()
    ensures TakeField(fields[k].Shape(), Encode(fields[k..])) == Some(Taken(fields[k], Encode(fields[k + 1..])))
  {
    EncodeFrom(fields, k);
    FieldRoundTrip(fields[k], Encode(fields[k + 1..]));
  }

  /** Reading a record's own shape gives the record back and stops exactly at its end. */
  lemma {:induction false} RecordRoundTrip(fields: seq<Field>, tail: Bytes)
    requires AllEncodable(fields)
    ensures Decode(Shapes(fields), Encode(fields) + tail) == Some(Taken(fields, tail))
  {
    if fields == [] {
      assert Encode(fields) + tail == tail;
    } else {
      var others := fields[1..];
      assert Encode(fields) + tail == fields[0].Encode() + (Encode(others) + tail);
      FieldRoundTrip(fields[0], Encode(others) + tail);
      assert Shapes(fields)[1..] == Shapes(others);
      RecordRoundTrip(others, tail);
      assert fields == [fields[0]] + others;
    }
  }

  /** A reader who takes these kinds of field off the payload, one after the other, gets these and no more is left. */
  ghost predicate ReadsAs(payload: Bytes, fields: seq<Field>) {
    Decode(Shapes(fields), payload) == Some(Taken(fields, []))
  }

  lemma RecordReads(fields: seq<Field>)
    requires AllEncodable(fields)
    ensures ReadsAs(Encode(fields), fields)
  {
    RecordRoundTrip(fields, []);
    assert Encode(fields) + [] == Encode(fields);
  }

  /** Records of one shape are prefix-free, so a record is recovered from any stream that starts with it. */
  lemma RecordInjective(f: seq<Field>, fTail: Bytes, g: seq<Field>, gTail: Bytes)
    requires AllEncodable(f) && AllEncodable(g) && Shapes(f) == Shapes(g)
    requires Encode(f) + fTail == Encode(g) + gTail
    ensures f == g && fTail == gTail
  {
    RecordRoundTrip(f, fTail);
    RecordRoundTrip(g, gTail);
  }

  // ---------------------------------------------------------------------
  // Name-lists

  lemma {:induction false} SplitParts(s: Bytes)
    ensures forall part <- SplitNames(s) :: COMMA !in part
    decreases |s|
  {
    var i := IndexOf(s, COMMA);
    if i == |s| {
      assert s == s[..i];
    } else {
      SplitParts(s[i + 1..]);
    }
  }

  lemma {:induction false} SplitJoin(names: seq<Bytes>)
    requires names != [] && forall name <- names :: COMMA !in name
    ensures SplitNames(JoinNames(names)) == names
  {
    var s := JoinNames(names);
    var n := |names[0]|;
    assert s[..n] == names[0];
    IndexIs(s, COMMA, n);
    if |names| > 1 {
      assert s[n + 1..] == JoinNames(names[1..]);
      SplitJoin(names[1..]);
    }
  }

  /**
   * A name-list survives the wire exactly when no name holds a comma and the
   * list is not the single empty name, which joins to the empty list's bytes.
   */
  lemma NameListRoundTrip(names: seq<Bytes>)
    ensures ParseNames(JoinNames(names)) == names
      <==> (forall name <- names :: COMMA !in name) && names != [[]]
  {
    var s := JoinNames(names);
    if s != [] {
      SplitParts(s);
      if forall name <- names :: COMMA !in name {
        SplitJoin(names);
      }
    }
  }

  // ---------------------------------------------------------------------
  // Multiple-precision integers

  lemma {:induction false} ValueLeadingZero(t: Bytes)
    ensures Value([0] + t) == Value(t)
  {
    if t == [] {
      assert ([0] + t)[..0] == [];
    } else {
      assert ([0] + t)[..|t|] == [0] + t[..|t| - 1];
      ValueLeadingZero(t[..|t| - 1]);
    }
  }

  lemma {:induction false} StripZerosKeepsValue(v: Bytes)
    ensures Value(StripZeros(v)) == Value(v)
    ensures StripZeros(v) != [] ==> StripZeros(v)[0] != 0
    ensures |StripZeros(v)| <= |v|
  {
    if v != [] && v[0] == 0 {
      assert v == [0] + v[1..];
      ValueLeadingZero(v[1..]);
      StripZerosKeepsValue(v[1..]);
    }
  }

  lemma {:induction false} PositiveValue(v: Bytes)
    requires v != [] && v[0] != 0
    ensures Value(v) > 0
  {
    if |v| > 1 {
      PositiveValue(v[..|v| - 1]);
    }
  }

  /** Base-256 digits without a leading zero are determined by the number. */
  lemma {:induction false} DigitsUnique(a: Bytes, b: Bytes)
    requires a != [] ==> a[0] != 0
    requires b != [] ==> b[0] != 0
    requires Value(a) == Value(b)
    ensures a == b
  {
    if a != [] {
      PositiveValue(a);
    }
    if b != [] {
      PositiveValue(b);
    }
    if a != [] && b != [] {
      var a', b' := a[..|a| - 1], b[..|b| - 1];
      var p, q := a[|a| - 1], b[|b| - 1];
      assert 256 * Value(a') + p == 256 * Value(b') + q;
      assert Value(a') == Value(b') && p == q;
      DigitsUnique(a', b');
      assert a == a' + [p] && b == b' + [q];
    }
  }

  /** Section 5 of RFC 4251: sign bit clear, and no byte that could be dropped. */
  ghost predicate CanonicalMpint(c: Bytes) {
    c == [] || (c[0] < 0x80 && (c[0] == 0 ==> |c| > 1 && c[1] >= 0x80))
  }

  /** mpint produces the one canonical string that denotes the number v denotes. */
  lemma MpintCanonical(v: Bytes, c: Bytes)
    ensures CanonicalMpint(c) && Value(c) == Value(v) <==> c == MpintContent(v)
  {
    StripZerosKeepsValue(v);
    var t := StripZeros(v);
    ValueLeadingZero(t);
    if CanonicalMpint(c) && Value(c) == Value(v) {
      var d := if c != [] && c[0] == 0 then c[1..] else c;
      if c != [] && c[0] == 0 {
        assert c == [0] + d;
        ValueLeadingZero(d);
      }
      DigitsUnique(d, t);
    }
  }

  /** Two inputs encode equally exactly when they denote the same number. */
  lemma MpintInjective(v: Bytes, w: Bytes)
    ensures MpintContent(v) == MpintContent(w) <==> Value(v) == Value(w)
  {
    MpintCanonical(v, MpintContent(v));
    MpintCanonical(w, MpintContent(w));
    MpintCanonical(v, MpintContent(w));
  }

  // ---------------------------------------------------------------------
  // The stateful codecs

  lemma PrefixThenBytes(fields: seq<Field>, v: Bytes)
    ensures Encode(fields + [FU32(|v| % U32_LIMIT)] + [FRaw(v)]) == Encode(fields + [FString(v)])
  {
    var prefix := FU32(|v| % U32_LIMIT);
    EncodePush(fields, prefix);
    EncodePush(fields + [prefix], FRaw(v));
    EncodePush(fields, FString(v));
    Regroup(Encode(fields), prefix.Encode(), v);
  }

  lemma Regroup(a: Bytes, b: Bytes, c: Bytes)
    ensures a + b + c == a + (b + c)
  {
  }

  /** The fields written so far are recorded in ghost state; the chunks hold their encoding. */
  class Writer {
    var chunks: seq<Bytes>
    var len: nat
    ghost var fields: seq<Field>

    ghost predicate Valid()
      reads this
    {
      Flatten(chunks) == Encode(fields) && len == |Encode(fields)|
    }

    constructor ()
      ensures Valid() && fields == []
    {
      chunks, len, fields := [], 0, [];
    }

    /** v as it is, for a reader that knows its length. */
    method Raw(v: Bytes)
      requires Valid()
      modifies this
      ensures Valid() && fields == old(fields) + [FRaw(v)]
    {
      FlattenPush(chunks, v);
      EncodePush(fields, FRaw(v));
      chunks := chunks + [v];
      len := len + |v|;
      fields := fields + [FRaw(v)];
    }

    method Byte(v: int)
      requires Valid()
      modifies this
      ensures Valid() && fields == old(fields) + [FByte(v % 256)]
    {
      Raw([v % 256]);
      Retype(old(fields), FByte(v % 256));
    }

    method Boolean(v: bool)
      requires Valid()
      modifies this
      ensures Valid() && fields == old(fields) + [FBool(v)]
    {
      Byte(if v then 1 else 0);
      Retype(old(fields), FBool(v));
    }

    method Uint32(v: int)
      requires Valid()
      modifies this
      ensures Valid() && fields == old(fields) + [FU32(v % U32_LIMIT)]
    {
      assert (v % U32_LIMIT) % U32_LIMIT == v % U32_LIMIT;
      Raw(BigEndian(4, v % U32_LIMIT));
      Retype(old(fields), FU32(v % U32_LIMIT));
    }

    /** A string field: its length, modulo 2^32, then its bytes. */
    method String(v: Bytes)
      requires Valid()
      modifies this
      ensures Valid() && fields == old(fields) + [FString(v)]
    {
      Uint32(|v|);
      Raw(v);
      PrefixThenBytes(old(fields), v);
      fields := old(fields) + [FString(v)];
    }

    /** A name-list field, which is the string field of the joined names. */
    method NameList(names: seq<Bytes>)
      requires Valid()
      modifies this
      ensures Valid() && fields == old(fields) + [FNames(names)]
    {
      String(JoinNames(names));
      Retype(old(fields), FNames(names));
    }

    /** The mpint field of the number that v denotes. */
    method Mpint(v: Bytes)
      requires Valid()
      modifies this
      ensures Valid() && fields == old(fields) + [FString(MpintContent(v))]
    {
      var i := 0;
      while i < |v| && v[i] == 0
        invariant i <= |v|
        invariant StripZeros(v[i..]) == StripZeros(v)
      {
        assert v[i..][1..] == v[i + 1..];
        i := i + 1;
      }
      var trimmed := v[i..];
      if |trimmed| == 0 {
        Uint32(0);
        Retype(old(fields), FString([]));
      } else if trimmed[0] >= 0x80 {
        String([0] + trimmed);
      } else {
        String(trimmed);
      }
    }

    /** The last field reads just as well as f when both have the same bytes. */
    ghost method Retype(before: seq<Field>, f: Field)
      requires Valid() && fields != [] && fields[..|fields| - 1] == before
      requires fields[|fields| - 1].Encode() == f.Encode()
      modifies `fields
      ensures Valid() && fields == before + [f]
    {
      EncodePush(before, fields[|fields| - 1]);
      EncodePush(before, f);
      assert fields == before + [fields[|fields| - 1]];
      fields := before + [f];
    }

    method ToBytes() returns (out: Bytes)
      requires Valid()
      ensures out == Encode(fields)
    {
      var buffer := new byte[len];
      var off, i := 0, 0;
      assert chunks == chunks[..|chunks|];
      while i < |chunks|
        invariant i <= |chunks|
        invariant off == |Flatten(chunks[..i])| <= buffer.Length
        invariant buffer[..off] == Flatten(chunks[..i])
      {
        var c := chunks[i];
        assert chunks[..i + 1] == chunks[..i] + [c];
        FlattenPush(chunks[..i], c);
        assert chunks == chunks[..i + 1] + chunks[i + 1..];
        FlattenConcat(chunks[..i + 1], chunks[i + 1..]);
        SetBytes(buffer, off, c);
        assert buffer[..off + |c|] == Flatten(chunks[..i]) + c;
        off := off + |c|;
        i := i + 1;
      }
      out := buffer[..];
    }
  }

  class Reader {
    const buf: Bytes
    var off: nat

    ghost predicate Valid()
      reads this
    {
      off <= |buf|
    }

    /** What is still to be read. */
    function Rest(): Bytes
      requires Valid()
      reads this
    {
      buf[off..]
    }

    constructor (buf: Bytes)
      ensures Valid() && Rest() == buf
    {
      this.buf := buf;
      this.off := 0;
    }

    method Byte() returns (r: Result<byte, WireError>)
      requires Valid()
      modifies this
      ensures Valid()
      ensures match TakeByte(old(Rest()))
              case Some(t) => r == Ok(t.value) && Rest() == t.rest
              case None => r == Err(ReadPastEnd) && Rest() == old(Rest())
    {
      if off >= |buf| {
        return Err(ReadPastEnd);
      }
      r := Ok(buf[off]);
      off := off + 1;
    }

    method Boolean() returns (r: Result<bool, WireError>)
      requires Valid()
      modifies this
      ensures Valid()
      ensures match TakeField(ABool, old(Rest()))
              case Some(t) => r == Ok(t.value.flag) && Rest() == t.rest
              case None => r == Err(ReadPastEnd) && Rest() == old(Rest())
    {
      var b := Byte();
      match b
      case Err(e) => r := Err(e);
      case Ok(v) => r := Ok(v != 0);
    }

    method Raw(n: nat) returns (r: Result<Bytes, WireError>)
      requires Valid()
      modifies this
      ensures Valid()
      ensures match TakeRaw(n, old(Rest()))
              case Some(t) => r == Ok(t.value) && Rest() == t.rest
              case None => r == Err(ReadPastEnd) && Rest() == old(Rest())
    {
      if off + n > |buf| {
        return Err(ReadPastEnd);
      }
      assert Rest()[..n] == buf[off..off + n] && Rest()[n..] == buf[off + n..];
      r := Ok(buf[off..off + n]);
      off := off + n;
    }

    method Uint32() returns (r: Result<nat, WireError>)
      requires Valid()
      modifies this
      ensures Valid()
      ensures match TakeU32(old(Rest()))
              case Some(t) => r == Ok(t.value) && Rest() == t.rest
              case None => r == Err(ReadPastEnd) && Rest() == old(Rest())
    {
      var b := Raw(4);
      match b
      case Err(e) => r := Err(e);
      case Ok(v) => r := Ok(Value(v));
    }

    /** A string cut short leaves its length prefix consumed, as in the source. */
    method String() returns (r: Result<Bytes, WireError>)
      requires Valid()
      modifies this
      ensures Valid()
      ensures match TakeString(old(Rest()))
              case Some(t) => r == Ok(t.value) && Rest() == t.rest
              case None => r == Err(ReadPastEnd)
                           && Rest() == if |old(Rest())| < 4 then old(Rest()) else old(Rest())[4..]
    {
      var n := Uint32();
      match n
      case Err(e) => r := Err(e);
      case Ok(v) => r := Raw(v);
    }

    method NameList() returns (r: Result<seq<Bytes>, WireError>)
      requires Valid()
      modifies this
      ensures Valid()
      ensures match TakeField(ANameList, old(Rest()))
              case Some(t) => r == Ok(t.value.names) && Rest() == t.rest
              case None => r == Err(ReadPastEnd)
                           && Rest() == if |old(Rest())| < 4 then old(Rest()) else old(Rest())[4..]
    {
      var s := String();
      match s
      case Err(e) => r := Err(e);
      case Ok(v) => r := Ok(if |v| == 0 then [] else SplitNames(v));
    }
  }

  /** concat(...parts): measure, allocate, copy. */
  method Concat(parts: seq<Bytes>) returns (out: Bytes)
    ensures out == Flatten(parts)
  {
    var len := 0;
    for i := 0 to |parts|
      invariant len == |Flatten(parts[..i])|
    {
      assert parts[..i + 1] == parts[..i] + [parts[i]];
      FlattenPush(parts[..i], parts[i]);
      len := len + |parts[i]|;
    }
    assert parts[..|parts|] == parts;
    var buffer := new byte[len];
    var off := 0;
    for i := 0 to |parts|
      invariant off == |Flatten(parts[..i])| <= buffer.Length
      invariant buffer[..off] == Flatten(parts[..i])
    {
      var c := parts[i];
      assert parts[..i + 1] == parts[..i] + [c];
      FlattenPush(parts[..i], c);
      assert parts == parts[..i + 1] + parts[i + 1..];
      FlattenConcat(parts[..i + 1], parts[i + 1..]);
      SetBytes(buffer, off, c);
      assert buffer[..off + |c|] == Flatten(parts[..i]) + c;
      off := off + |c|;
    }
    out := buffer[..];
  }
}
