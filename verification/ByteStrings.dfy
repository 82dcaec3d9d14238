/**
 * Byte strings, big-endian numbers and runs of chunks: the vocabulary of the
 * codecs, of the packet layer and of the socket reader.
 */
module ByteStrings {

  type byte = x: int | 0 <= x < 256

  type Bytes = seq<byte>

  function Pow256(n: nat): (p: nat)
    ensures p > 0
  {
    if n == 0 then 1 else 256 * Pow256(n - 1)
  }

  /** The n low-order bytes of v, most significant first (DataView.setUintN). */
  function BigEndian(n: nat, v: int): (b: Bytes)
    ensures |b| == n
  {
    if n == 0 then [] else BigEndian(n - 1, v / 256) + [v % 256]
  }

  /** The natural number that b denotes when read most significant byte first. */
  function Value(b: Bytes): nat {
    if b == [] then 0 else 256 * Value(b[..|b| - 1]) + b[|b| - 1]
  }

  lemma {:induction false} ValueBound(b: Bytes)
    ensures Value(b) < Pow256(|b|)
  {
    if b == [] {
    } else {
      ValueBound(b[..|b| - 1]);
    }
  }

  lemma {:induction false} ValueOfBigEndian(n: nat, v: nat)
    requires v < Pow256(n)
    ensures Value(BigEndian(n, v)) == v
  {
    if n == 0 {
    } else {
      ValueOfBigEndian(n - 1, v / 256);
      var b := BigEndian(n, v);
      assert b[..|b| - 1] == BigEndian(n - 1, v / 256);
    }
  }

  lemma {:induction false} BigEndianOfValue(b: Bytes)
    ensures BigEndian(|b|, Value(b)) == b
  {
    if b == [] {
    } else {
      BigEndianOfValue(b[..|b| - 1]);
    }
  }

  lemma Pow256Widths()
    ensures Pow256(4) == 0x1_0000_0000
    ensures Pow256(8) == 0x1_0000_0000_0000_0000
  {
    assert Pow256(2) == 0x1_0000;
    assert Pow256(4) == 0x1_0000_0000;
    assert Pow256(6) == 0x1_0000_0000_0000;
  }

  lemma ValuePush(b: Bytes, x: byte)
    ensures Value(b + [x]) == 256 * Value(b) + x
  {
    assert (b + [x])[..|b|] == b;
  }

  /** Four bytes, the most significant first. */
  lemma FourBytes(a: byte, b: byte, c: byte, d: byte)
    ensures Value([a, b, c, d]) == 0x100_0000 * a + 0x1_0000 * b + 0x100 * c + d
    ensures BigEndian(4, 0x100_0000 * a + 0x1_0000 * b + 0x100 * c + d) == [a, b, c, d]
  {
    ValuePush([], a);
    ValuePush([a], b);
    ValuePush([a, b], c);
    ValuePush([a, b, c], d);
    assert [] + [a] == [a] && [a] + [b] == [a, b] && [a, b] + [c] == [a, b, c] && [a, b, c] + [d] == [a, b, c, d];
    BigEndianOfValue([a, b, c, d]);
  }

  /** A big-endian 32-bit field reads back as the number that was put in it. */
  lemma U32RoundTrip(v: nat)
    requires v < 0x1_0000_0000
    ensures Value(BigEndian(4, v)) == v
  {
    Pow256Widths();
    ValueOfBigEndian(4, v);
  }

  function Flatten(chunks: seq<Bytes>): Bytes {
    if chunks == [] then [] else chunks[0] + Flatten(chunks[1..])
  }

  lemma {:induction false} FlattenConcat(a: seq<Bytes>, b: seq<Bytes>)
    ensures Flatten(a + b) == Flatten(a) + Flatten(b)
  {
    if a == [] {
      assert a + b == b;
    } else {
      assert (a + b)[1..] == a[1..] + b;
      FlattenConcat(a[1..], b);
      calc {
        Flatten(a + b);
        a[0] + (Flatten(a[1..]) + Flatten(b));
        (a[0] + Flatten(a[1..])) + Flatten(b);
      }
    }
  }

  lemma FlattenPush(a: seq<Bytes>, c: Bytes)
    ensures Flatten(a + [c]) == Flatten(a) + c
  {
    FlattenConcat(a, [c]);
    assert Flatten([c]) == c + Flatten([]);
  }

  /** Cutting a message into its header, its body and what follows. */
  lemma CutThree(a: Bytes, b: Bytes, c: Bytes)
    ensures (a + b + c)[..|a|] == a
    ensures (a + b + c)[|a|..] == b + c
    ensures (a + b + c)[|a|..][..|b|] == b
    ensures (a + b + c)[|a|..][|b|..] == c
  {
    assert (a + b + c)[|a|..] == b + c;
  }

  /** Position of the first c in b, or |b| when there is none. */
  function IndexOf(b: Bytes, c: byte): (i: nat)
    ensures i <= |b|
    ensures i < |b| ==> b[i] == c
    ensures c !in b[..i]
  {
    if b == [] then 0
    else if b[0] == c then 0
    else
      var i := 1 + IndexOf(b[1..], c);
      assert b[..i] == [b[0]] + b[1..][..i - 1];
      i
  }

  lemma {:induction false} IndexIs(b: Bytes, c: byte, n: nat)
    requires n <= |b| && c !in b[..n]
    requires n < |b| ==> b[n] == c
    ensures IndexOf(b, c) == n
  {
    if n == 0 {
    } else {
      assert b[0] in b[..n];
      assert b[1..][..n - 1] == b[..n][1..];
      IndexIs(b[1..], c, n - 1);
    }
  }

  /** Uint8Array.set: overwrite the bytes of buffer from off on with c. */
  method SetBytes(buffer: array<byte>, off: nat, c: Bytes)
    requires off + |c| <= buffer.Length
    modifies buffer
    ensures buffer[..] == old(buffer[..off]) + c + old(buffer[off + |c|..])
  {
    forall k | 0 <= k < |c| {
      buffer[off + k] := c[k];
    }
  }
}
