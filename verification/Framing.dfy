/**
 * Binary packet framing, section 6 of RFC 4253, in the two modes of
 * src/ssh/packet.ts: cleartext, and aes256-gcm with the length in the clear
 * and a 16-byte tag (section 7 of RFC 5647). AES-GCM is a parameter.
 */
module Framing {
  import opened Wrappers
  import opened ByteStrings
  import opened Stream

  const TAG_LEN := 16
  const MAX_PACKET := 256 * 1024
  /** The largest payloads whose frames the receiving side accepts. */
  const CLEAR_LIMIT := 262135
  const GCM_LIMIT := 262139
  const COUNTER_LIMIT := 0x1_0000_0000_0000_0000
  const LENGTH_LIMIT := 0x1_0000_0000

  /** seal(key, iv, aad, plain) and open(key, iv, aad, sealed). */
  datatype Aead = Aead(
    seal: (Bytes, Bytes, Bytes, Bytes) -> Bytes,
    open: (Bytes, Bytes, Bytes, Bytes) -> Option<Bytes>)
  {
    /** What the model uses of AES-GCM: sealed data opens to itself and is one tag longer. */
    ghost predicate Lawful() {
      && (forall key, iv, aad, m ::
            open(key, iv, aad, seal(key, iv, aad, m)) == Some(m) && |seal(key, iv, aad, m)| == |m| + TAG_LEN)
      && (forall key, iv, aad, c ::
            open(key, iv, aad, c).Some? ==> |c| == |open(key, iv, aad, c).value| + TAG_LEN)
    }
  }

  /** A cipher that only appends a tag meets the laws, so they are no contradiction. */
  lemma LawsCanBeMet()
    ensures exists a: Aead :: a.Lawful()
  {
    var a := Aead(
      (key: Bytes, iv: Bytes, aad: Bytes, m: Bytes) => m + BigEndian(TAG_LEN, 0),
      (key: Bytes, iv: Bytes, aad: Bytes, c: Bytes) =>
        if |c| < TAG_LEN then None else Some(c[..|c| - TAG_LEN]));
    forall key: Bytes, iv: Bytes, aad: Bytes, m: Bytes
      ensures a.open(key, iv, aad, a.seal(key, iv, aad, m)) == Some(m)
    {
      assert (m + BigEndian(TAG_LEN, 0))[..|m|] == m;
    }
    assert a.Lawful();
  }

  /** One direction's key and invocation counter. */
  datatype Direction = Direction(key: Bytes, fixed: Bytes, counter: nat) {
    function Iv(): Bytes {
      fixed + BigEndian(8, counter)
    }

    function Advance(n: nat): Direction {
      this.(counter := (counter + n) % COUNTER_LIMIT)
    }

    function Bump(): Direction {
      Advance(1)
    }
  }

  lemma AdvanceTwice(d: Direction, m: nat, n: nat)
    ensures d.Advance(m).Advance(n) == d.Advance(m + n)
  {
    var c := d.counter + m;
    assert c == c / COUNTER_LIMIT * COUNTER_LIMIT + c % COUNTER_LIMIT;
    ModShift(c % COUNTER_LIMIT + n, c / COUNTER_LIMIT);
  }

  lemma ModShift(x: nat, k: nat)
    ensures (x + k * COUNTER_LIMIT) % COUNTER_LIMIT == x % COUNTER_LIMIT
  {
  }

  lemma CountersDiffer(c: nat, i: nat, j: nat)
    requires i < j < i + COUNTER_LIMIT
    ensures (c + i) % COUNTER_LIMIT != (c + j) % COUNTER_LIMIT
  {
    var a, b := c + i, c + j;
    assert a == a / COUNTER_LIMIT * COUNTER_LIMIT + a % COUNTER_LIMIT;
    assert b == b / COUNTER_LIMIT * COUNTER_LIMIT + b % COUNTER_LIMIT;
  }

  /** Fewer than 2^64 steps of the counter never bring an IV back. */
  lemma IvsDiffer(d: Direction, i: nat, j: nat)
    requires i < j < i + COUNTER_LIMIT
    ensures d.Advance(i).Iv() != d.Advance(j).Iv()
  {
    var a, b := d.Advance(i), d.Advance(j);
    CountersDiffer(d.counter, i, j);
    Pow256Widths();
    ValueOfBigEndian(8, a.counter);
    ValueOfBigEndian(8, b.counter);
    assert a.Iv()[|d.fixed|..] == BigEndian(8, a.counter);
    assert b.Iv()[|d.fixed|..] == BigEndian(8, b.counter);
  }

  // ---------------------------------------------------------------------
  // Frames

  function ClearPad(n: nat): (p: nat)
    ensures 4 <= p < 12
  {
    var p := 8 - (5 + n) % 8;
    if p < 4 then p + 8 else p
  }

  function GcmPad(n: nat): (p: nat)
    ensures 4 <= p < 20
  {
    var p := 16 - (1 + n) % 16;
    if p < 4 then p + 16 else p
  }

  /** The whole cleartext packet, length field included, fills blocks of 8. */
  predicate ClearAligned(n: nat, pad: nat) {
    (4 + 1 + n + pad) % 8 == 0
  }

  /** The encrypted part of a sealed packet fills blocks of 16. */
  predicate GcmAligned(n: nat, pad: nat) {
    (1 + n + pad) % 16 == 0
  }

  /** Cleartext padding is the least of four bytes or more that aligns the packet. */
  lemma ClearPadIsLeast(n: nat, p: nat)
    ensures p == ClearPad(n)
      <==> p >= 4 && ClearAligned(n, p) && forall q | 4 <= q < p :: !ClearAligned(n, q)
  {
    assert ClearAligned(n, ClearPad(n));
    assert ClearAligned(n, p) && p < ClearPad(n) ==> p < 4;
  }

  /** Sealed padding is the least of four bytes or more that aligns the encrypted part. */
  lemma GcmPadIsLeast(n: nat, p: nat)
    ensures p == GcmPad(n)
      <==> p >= 4 && GcmAligned(n, p) && forall q | 4 <= q < p :: !GcmAligned(n, q)
  {
    assert GcmAligned(n, GcmPad(n));
  }

  /** padding_length || payload || padding */
  function Padded(payload: Bytes, pad: Bytes): Bytes
    requires |pad| < 256
  {
    [|pad|] + payload + pad
  }

  function LengthField(n: nat): (b: Bytes)
    ensures |b| == 4
  {
    BigEndian(4, n % LENGTH_LIMIT)
  }

  function ClearFrame(payload: Bytes, pad: Bytes): Bytes
    requires |pad| < 256
  {
    LengthField(1 + |payload| + |pad|) + Padded(payload, pad)
  }

  function GcmFrame(aead: Aead, d: Direction, payload: Bytes, pad: Bytes): Bytes
    requires |pad| < 256
  {
    var aad := LengthField(1 + |payload| + |pad|);
    aad + aead.seal(d.key, d.Iv(), aad, Padded(payload, pad))
  }

  // ---------------------------------------------------------------------
  // Receiving

  datatype PacketError =
    | Transport(e: StreamError)
    | BadLength(n: nat)
    | BadPadding
    | TagMismatch
    | Destroyed

  /** What receive() gives, and the bytes left unread after it. */
  datatype Receipt = Receipt(result: Result<Bytes, PacketError>, rest: Bytes)

  function Unpad(packet: Bytes): Result<Bytes, PacketError>
    requires packet != []
  {
    var padLen := packet[0];
    if padLen + 1 > |packet| then Err(BadPadding) else Ok(packet[1..|packet| - padLen])
  }

  function ReceiveClear(s: Bytes, ending: Ending): Receipt {
    if |s| < 4 then Receipt(Err(Transport(EndError(ending))), s)
    else
      var n := Value(s[..4]);
      if n < 8 || n > MAX_PACKET then Receipt(Err(BadLength(n)), s[4..])
      else if |s| - 4 < n then Receipt(Err(Transport(EndError(ending))), s[4..])
      else Receipt(Unpad(s[4..][..n]), s[4..][n..])
  }

  /** As ReceiveClear, and the receiving direction afterwards: it moves on once the tag has verified. */
  function ReceiveGcm(aead: Aead, d: Direction, s: Bytes, ending: Ending): (Receipt, Direction)
    requires aead.Lawful()
  {
    if |s| < 4 then (Receipt(Err(Transport(EndError(ending))), s), d)
    else
      var aad := s[..4];
      var n := Value(aad);
      if n < 16 || n % 16 != 0 || n > MAX_PACKET then (Receipt(Err(BadLength(n)), s[4..]), d)
      else if |s| - 4 < n + TAG_LEN then (Receipt(Err(Transport(EndError(ending))), s[4..]), d)
      else
        var body, rest := s[4..][..n + TAG_LEN], s[4..][n + TAG_LEN..];
        match aead.open(d.key, d.Iv(), aad, body)
        case None => (Receipt(Err(TagMismatch), rest), d)
        case Some(plain) => (Receipt(Unpad(plain), rest), d.Bump())
  }

  lemma UnpadPadded(payload: Bytes, pad: Bytes)
    requires |pad| < 256
    ensures Unpad(Padded(payload, pad)) == Ok(payload)
  {
    assert Padded(payload, pad)[1..1 + |payload|] == payload;
  }

  lemma ClearLengths(n: nat)
    ensures 12 <= 1 + n + ClearPad(n)
    ensures 1 + n + ClearPad(n) <= MAX_PACKET <==> n <= CLEAR_LIMIT
  {
    assert (5 + n + ClearPad(n)) % 8 == 0;
  }

  lemma GcmLengths(n: nat)
    ensures 16 <= 1 + n + GcmPad(n) && (1 + n + GcmPad(n)) % 16 == 0
    ensures 1 + n + GcmPad(n) <= MAX_PACKET <==> n <= GCM_LIMIT
  {
    assert (1 + n + GcmPad(n)) % 16 == 0;
  }

  /** A cleartext frame is read back whole exactly when its payload is within CLEAR_LIMIT. */
  lemma ClearFrameRoundTrip(payload: Bytes, pad: Bytes, tail: Bytes, ending: Ending)
    requires |pad| == ClearPad(|payload|) && |payload| + 32 < LENGTH_LIMIT
    ensures ReceiveClear(ClearFrame(payload, pad) + tail, ending)
         == if |payload| <= CLEAR_LIMIT then Receipt(Ok(payload), tail)
            else Receipt(Err(BadLength(1 + |payload| + |pad|)), Padded(payload, pad) + tail)
  {
    var n := 1 + |payload| + |pad|;
    CutThree(LengthField(n), Padded(payload, pad), tail);
    U32RoundTrip(n);
    ClearLengths(|payload|);
    UnpadPadded(payload, pad);
  }

  /**
   * A sealed frame is read back whole, and the receiver stays in step, exactly
   * when its payload is within GCM_LIMIT.
   */
  lemma GcmFrameRoundTrip(aead: Aead, d: Direction, payload: Bytes, pad: Bytes, tail: Bytes, ending: Ending)
    requires aead.Lawful() && |pad| == GcmPad(|payload|) && |payload| + 32 < LENGTH_LIMIT
    ensures ReceiveGcm(aead, d, GcmFrame(aead, d, payload, pad) + tail, ending)
         == if |payload| <= GCM_LIMIT then (Receipt(Ok(payload), tail), d.Bump())
            else (Receipt(Err(BadLength(1 + |payload| + |pad|)), (GcmFrame(aead, d, payload, pad) + tail)[4..]), d)
  {
    var n := 1 + |payload| + |pad|;
    var aad := LengthField(n);
    var body := aead.seal(d.key, d.Iv(), aad, Padded(payload, pad));
    U32RoundTrip(n);
    GcmLengths(|payload|);
    SealedReads(aead, d, aad, n, body, payload, pad, tail, ending);
  }

  lemma SealedReads(aead: Aead, d: Direction, aad: Bytes, n: nat, body: Bytes, payload: Bytes, pad: Bytes, tail: Bytes,
                    ending: Ending)
    requires aead.Lawful() && |pad| < 256 && n == 1 + |payload| + |pad| && n >= 16 && n % 16 == 0
    requires |aad| == 4 && Value(aad) == n && body == aead.seal(d.key, d.Iv(), aad, Padded(payload, pad))
    ensures ReceiveGcm(aead, d, aad + body + tail, ending)
         == if n <= MAX_PACKET then (Receipt(Ok(payload), tail), d.Bump())
            else (Receipt(Err(BadLength(n)), body + tail), d)
  {
    assert aead.open(d.key, d.Iv(), aad, body) == Some(Padded(payload, pad));
    CutThree(aad, body, tail);
    UnpadPadded(payload, pad);
  }

  // ---------------------------------------------------------------------
  // What is accepted, byte by byte

  /** s is a four-byte length n, n bytes, which are body, and rest. */
  ghost predicate Splits(s: Bytes, n: nat, body: Bytes, rest: Bytes) {
    |s| >= 4 && Value(s[..4]) == n && |body| == n && s[4..] == body + rest
  }

  lemma SplitHolds(s: Bytes, n: nat, body: Bytes, rest: Bytes)
    requires |s| >= 4
    ensures s[4..] == body + rest && |body| == n <==> |s| - 4 >= n && s[4..][..n] == body && s[4..][n..] == rest
  {
    if |s| - 4 >= n {
      assert s[4..] == s[4..][..n] + s[4..][n..];
    }
  }

  lemma UnpadMeans(body: Bytes, payload: Bytes)
    requires body != []
    ensures Unpad(body) == Ok(payload) <==> exists pad :: |pad| < 256 && body == [|pad|] + payload + pad
  {
    if Unpad(body) == Ok(payload) {
      var pad := body[|body| - body[0]..];
      assert body == [|pad|] + payload + pad;
    }
    forall pad | |pad| < 256 && body == [|pad|] + payload + pad
      ensures Unpad(body) == Ok(payload)
    {
      UnpadPadded(payload, pad);
    }
  }

  /** A padding length, the payload and the padding, of 8 to 262,144 bytes (section 6 of RFC 4253). */
  ghost predicate IsClearPacket(s: Bytes, payload: Bytes, pad: Bytes, rest: Bytes) {
    var body := [|pad| % 256] + payload + pad;
    |pad| < 256 && 8 <= |body| <= 262_144 && Splits(s, |body|, body, rest)
  }

  lemma ClearReceived(s: Bytes, ending: Ending, payload: Bytes, pad: Bytes, rest: Bytes)
    requires IsClearPacket(s, payload, pad, rest)
    ensures ReceiveClear(s, ending) == Receipt(Ok(payload), rest)
  {
    SplitHolds(s, 1 + |payload| + |pad|, [|pad|] + payload + pad, rest);
    UnpadPadded(payload, pad);
  }

  lemma BodyMeans(s: Bytes, body: Bytes, payload: Bytes, rest: Bytes) returns (pad: Bytes)
    requires |s| >= 4 && Value(s[..4]) == |body| && 8 <= |body| <= MAX_PACKET && |s| - 4 >= |body|
    requires body == s[4..][..|body|] && rest == s[4..][|body|..] && Unpad(body) == Ok(payload)
    ensures IsClearPacket(s, payload, pad, rest)
  {
    UnpadMeans(body, payload);
    pad :| |pad| < 256 && body == [|pad|] + payload + pad;
    SplitHolds(s, |body|, body, rest);
  }

  lemma ReceivedClear(s: Bytes, ending: Ending, payload: Bytes, rest: Bytes) returns (pad: Bytes)
    requires ReceiveClear(s, ending) == Receipt(Ok(payload), rest)
    ensures IsClearPacket(s, payload, pad, rest)
  {
    pad := BodyMeans(s, s[4..][..Value(s[..4])], payload, rest);
  }

  /**
   * A payload is received in the clear exactly if the unread bytes start with
   * a packet that holds it behind its padding length and before its padding;
   * what follows stays unread.
   */
  lemma ClearAcceptedExactly(s: Bytes, ending: Ending, payload: Bytes, rest: Bytes)
    ensures ReceiveClear(s, ending) == Receipt(Ok(payload), rest)
      <==> exists pad :: IsClearPacket(s, payload, pad, rest)
  {
    if ReceiveClear(s, ending) == Receipt(Ok(payload), rest) {
      var pad := ReceivedClear(s, ending, payload, rest);
    }
    forall pad | IsClearPacket(s, payload, pad, rest)
      ensures ReceiveClear(s, ending) == Receipt(Ok(payload), rest)
    {
      ClearReceived(s, ending, payload, pad, rest);
    }
  }

  /**
   * The length in the clear, then 16 bytes more than that, which open, under
   * this key and IV and with the length field as associated data, to padding
   * length, payload and padding, in blocks of 16 (section 7 of RFC 5647).
   */
  ghost predicate IsSealedPacket(
    aead: Aead, key: Bytes, iv: Bytes, s: Bytes, sealed: Bytes, payload: Bytes, pad: Bytes, rest: Bytes)
  {
    var plain := [|pad| % 256] + payload + pad;
    && |pad| < 256 && 16 <= |plain| <= 262_144 && |plain| % 16 == 0
    && |s| >= 4 && Value(s[..4]) == |plain| && |sealed| == |plain| + 16 && s[4..] == sealed + rest
    && aead.open(key, iv, s[..4], sealed) == Some(plain)
  }

  lemma SealedReceived(aead: Aead, d: Direction, s: Bytes, ending: Ending, sealed: Bytes, payload: Bytes, pad: Bytes,
                       rest: Bytes)
    requires aead.Lawful() && IsSealedPacket(aead, d.key, d.Iv(), s, sealed, payload, pad, rest)
    ensures ReceiveGcm(aead, d, s, ending) == (Receipt(Ok(payload), rest), d.Bump())
  {
    SplitHolds(s, |sealed|, sealed, rest);
    UnpadPadded(payload, pad);
  }

  lemma OpenedMeans(
    aead: Aead, key: Bytes, iv: Bytes, s: Bytes, sealed: Bytes, plain: Bytes, payload: Bytes, rest: Bytes)
    returns (pad: Bytes)
    requires |s| >= 4 && Value(s[..4]) == |plain| && 16 <= |plain| <= MAX_PACKET && |plain| % 16 == 0
    requires |s| - 4 >= |plain| + 16 && sealed == s[4..][..|plain| + 16] && rest == s[4..][|plain| + 16..]
    requires aead.open(key, iv, s[..4], sealed) == Some(plain) && Unpad(plain) == Ok(payload)
    ensures IsSealedPacket(aead, key, iv, s, sealed, payload, pad, rest)
  {
    UnpadMeans(plain, payload);
    pad :| |pad| < 256 && plain == [|pad|] + payload + pad;
    SplitHolds(s, |plain| + 16, sealed, rest);
  }

  lemma ReceivedSealed(aead: Aead, d: Direction, s: Bytes, ending: Ending, payload: Bytes, rest: Bytes)
    returns (sealed: Bytes, pad: Bytes)
    requires aead.Lawful() && ReceiveGcm(aead, d, s, ending).0 == Receipt(Ok(payload), rest)
    ensures IsSealedPacket(aead, d.key, d.Iv(), s, sealed, payload, pad, rest)
  {
    var iv, n := d.Iv(), Value(s[..4]);
    sealed := s[4..][..n + TAG_LEN];
    var plain := aead.open(d.key, iv, s[..4], sealed).value;
    pad := OpenedMeans(aead, d.key, iv, s, sealed, plain, payload, rest);
  }

  /** The same for sealed packets; the counter moves on by one, modulo 2^64. */
  lemma SealedAcceptedExactly(
    aead: Aead, d: Direction, iv: Bytes, s: Bytes, ending: Ending, payload: Bytes, rest: Bytes)
    requires aead.Lawful() && iv == d.fixed + BigEndian(8, d.counter)
    ensures ReceiveGcm(aead, d, s, ending).0 == Receipt(Ok(payload), rest)
      <==> exists sealed, pad :: IsSealedPacket(aead, d.key, iv, s, sealed, payload, pad, rest)
    ensures ReceiveGcm(aead, d, s, ending).0 == Receipt(Ok(payload), rest) ==>
              ReceiveGcm(aead, d, s, ending).1 == d.(counter := (d.counter + 1) % 0x1_0000_0000_0000_0000)
  {
    assert d.Iv() == iv;
    if ReceiveGcm(aead, d, s, ending).0 == Receipt(Ok(payload), rest) {
      var sealed, pad := ReceivedSealed(aead, d, s, ending, payload, rest);
      SealedReceived(aead, d, s, ending, sealed, payload, pad, rest);
    }
    forall sealed, pad | IsSealedPacket(aead, d.key, iv, s, sealed, payload, pad, rest)
      ensures ReceiveGcm(aead, d, s, ending).0 == Receipt(Ok(payload), rest)
    {
      SealedReceived(aead, d, s, ending, sealed, payload, pad, rest);
    }
  }

  /**
   * What is refused: a length outside 8 to 262,144, or 16 to 262,144 in blocks
   * of 16 when sealed, for that length; and bytes cut short, as the socket ends.
   */
  lemma LengthsRefused(aead: Aead, d: Direction, s: Bytes, ending: Ending)
    requires aead.Lawful()
    ensures |s| < 4 ==> ReceiveClear(s, ending) == Receipt(Err(Transport(EndError(ending))), s)
    ensures |s| >= 4 && !(8 <= Value(s[..4]) <= 262_144) ==>
              ReceiveClear(s, ending) == Receipt(Err(BadLength(Value(s[..4]))), s[4..])
    ensures |s| >= 4 && !(16 <= Value(s[..4]) <= 262_144 && Value(s[..4]) % 16 == 0) ==>
              ReceiveGcm(aead, d, s, ending) == (Receipt(Err(BadLength(Value(s[..4]))), s[4..]), d)
    ensures |s| >= 4 && 8 <= Value(s[..4]) <= 262_144 && |s| - 4 < Value(s[..4]) ==>
              ReceiveClear(s, ending) == Receipt(Err(Transport(EndError(ending))), s[4..])
  {
  }
}
