/**
 * Key exchange: the transcript that is hashed and signed (section 4 of
 * RFC 5656) and the key derivation of section 7.2 of RFC 4253. The hash is a
 * parameter; of SHA-256 only the digest length is used.
 */
module Kex {
  import opened ByteStrings
  import opened Wire

  const DIGEST_LEN := 32

  ghost predicate Digest32(hash: Bytes -> Bytes) {
    forall m :: |hash(m)| == DIGEST_LEN
  }

  datatype ExchangeHashInput = ExchangeHashInput(
    clientIdent: Bytes,
    serverIdent: Bytes,
    clientKexInit: Bytes,
    serverKexInit: Bytes,
    hostKeyBlob: Bytes,
    clientEphemeral: Bytes,
    serverEphemeral: Bytes,
    sharedSecret: Bytes)
  {
    /** V_C, V_S, I_C, I_S, K_S, Q_C, Q_S and K, as one record of strings. */
    function Fields(): seq<Field> {
      [FString(clientIdent), FString(serverIdent), FString(clientKexInit), FString(serverKexInit),
       FString(hostKeyBlob), FString(clientEphemeral), FString(serverEphemeral),
       FString(MpintContent(sharedSecret))]
    }

    function Preimage(): Bytes {
      Encode(Fields())
    }

    /** Each string behind its length, and the secret as an mpint. */
    lemma PreimageBytes()
      ensures Preimage()
           == EncodeString(clientIdent) + (EncodeString(serverIdent) + (EncodeString(clientKexInit)
              + (EncodeString(serverKexInit) + (EncodeString(hostKeyBlob) + (EncodeString(clientEphemeral)
              + (EncodeString(serverEphemeral) + EncodeString(MpintContent(sharedSecret))))))))
    {
      var f := Fields();
      assert f[0..] == f;
      EncodeFrom(f, 0);
      EncodeFrom(f, 1);
      EncodeFrom(f, 2);
      EncodeFrom(f, 3);
      EncodeFrom(f, 4);
      EncodeFrom(f, 5);
      EncodeFrom(f, 6);
      EncodeLast(f);
    }

    ghost predicate FitsLengthPrefixes() {
      && |clientIdent| < U32_LIMIT && |serverIdent| < U32_LIMIT
      && |clientKexInit| < U32_LIMIT && |serverKexInit| < U32_LIMIT
      && |hostKeyBlob| < U32_LIMIT && |clientEphemeral| < U32_LIMIT
      && |serverEphemeral| < U32_LIMIT && |sharedSecret| < U32_LIMIT - 1
    }

    lemma FieldsInOrder()
      ensures [] + [FString(clientIdent)] + [FString(serverIdent)] + [FString(clientKexInit)]
              + [FString(serverKexInit)] + [FString(hostKeyBlob)] + [FString(clientEphemeral)]
              + [FString(serverEphemeral)] + [FString(MpintContent(sharedSecret))]
           == Fields()
    {
    }

    lemma FieldsEncodable()
      requires FitsLengthPrefixes()
      ensures AllEncodable(Fields())
    {
      StripZerosKeepsValue(sharedSecret);
    }
  }

  method ComputeExchangeHash(hash: Bytes -> Bytes, i: ExchangeHashInput) returns (h: Bytes)
    ensures h == hash(i.Preimage())
    ensures h == hash(EncodeString(i.clientIdent) + (EncodeString(i.serverIdent) + (EncodeString(i.clientKexInit)
                      + (EncodeString(i.serverKexInit) + (EncodeString(i.hostKeyBlob)
                      + (EncodeString(i.clientEphemeral) + (EncodeString(i.serverEphemeral)
                      + EncodeString(MpintContent(i.sharedSecret)))))))))
  {
    var w := new Writer();
    w.String(i.clientIdent);
    w.String(i.serverIdent);
    w.String(i.clientKexInit);
    w.String(i.serverKexInit);
    w.String(i.hostKeyBlob);
    w.String(i.clientEphemeral);
    w.String(i.serverEphemeral);
    w.Mpint(i.sharedSecret);
    var preimage := w.ToBytes();
    i.FieldsInOrder();
    i.PreimageBytes();
    h := hash(preimage);
  }

  /**
   * The signed transcript pins down the exchange: equal preimages mean equal
   * identification strings, KEXINITs, host key and ephemeral keys, and shared
   * secrets that are the same number.
   */
  lemma TranscriptInjective(i: ExchangeHashInput, j: ExchangeHashInput)
    requires i.FitsLengthPrefixes() && j.FitsLengthPrefixes()
    ensures i.Preimage() == j.Preimage()
      <==> i.(sharedSecret := []) == j.(sharedSecret := [])
           && Value(i.sharedSecret) == Value(j.sharedSecret)
  {
    i.FieldsEncodable();
    j.FieldsEncodable();
    MpintInjective(i.sharedSecret, j.sharedSecret);
    if i.Preimage() == j.Preimage() {
      RecordInjective(i.Fields(), [], j.Fields(), []);
      assert forall k | 0 <= k < 8 :: i.Fields()[k] == j.Fields()[k];
    } else {
      assert i.Fields() != j.Fields();
    }
  }

  // ---------------------------------------------------------------------
  // Key derivation

  datatype Derivation = Derivation(
    hash: Bytes -> Bytes,
    secret: Bytes,
    exchangeHash: Bytes,
    letter: byte,
    sessionId: Bytes)
  {
    /** K1 || K2 || ... || Kn of section 7.2 of RFC 4253. */
    function Stream(n: nat): Bytes
      decreases n, 1
    {
      if n == 0 then [] else Stream(n - 1) + Block(n)
    }

    /** K1 covers the letter and the session id, every later block the blocks before it. */
    function Block(n: nat): Bytes
      requires n > 0
      decreases n, 0
    {
      var k := EncodeString(MpintContent(secret));
      if n == 1 then hash(k + exchangeHash + [letter] + sessionId)
      else hash(k + exchangeHash + Stream(n - 1))
    }

    lemma {:induction false} StreamLength(n: nat)
      requires Digest32(hash)
      ensures |Stream(n)| == DIGEST_LEN * n
    {
      if n > 0 {
        StreamLength(n - 1);
      }
    }

    lemma {:induction false} StreamPrefix(m: nat, n: nat)
      requires m <= n
      ensures Stream(m) <= Stream(n)
    {
      if m < n {
        StreamPrefix(m, n - 1);
      }
    }
  }

  /** key is the first length bytes of K1 || K2 || ..., however many blocks that takes. */
  ghost predicate IsDerivedKey(d: Derivation, length: nat, key: Bytes) {
    |key| == length && exists n: nat :: key <= d.Stream(n)
  }

  function Min(a: int, b: int): int {
    if a < b then a else b
  }

  /** Block m of a derived key, from the key before it; the first covers the letter and the session id. */
  lemma DerivedBlock(d: Derivation, length: nat, key: Bytes, m: nat)
    requires Digest32(d.hash) && IsDerivedKey(d, length, key) && 32 * m < length
    ensures var k, block := EncodeString(MpintContent(d.secret)), key[32 * m..Min(32 * m + 32, length)];
            && (m == 0 ==> block == d.hash(k + d.exchangeHash + [d.letter] + d.sessionId)[..|block|])
            && (m > 0 ==> block == d.hash(k + d.exchangeHash + key[..32 * m])[..|block|])
  {
    var i: nat :| key <= d.Stream(i);
    d.StreamLength(i);
    d.StreamLength(m);
    d.StreamPrefix(m, i);
    d.StreamPrefix(m + 1, i);
    assert d.Stream(m + 1) == d.Stream(m) + d.Block(m + 1);
    assert key[..32 * m] == d.Stream(m);
    var end := Min(32 * m + 32, length);
    assert key[32 * m..end] == d.Stream(i)[32 * m..end] == d.Stream(m + 1)[32 * m..end];
  }

  /**
   * K1 = HASH(K || H || X || session_id), and each further block is the hash
   * of K, H and the whole key so far; the last is cut to the length asked for.
   */
  method DeriveKey(d: Derivation, length: nat) returns (key: Bytes)
    requires Digest32(d.hash)
    ensures IsDerivedKey(d, length, key)
    ensures length <= 32 ==>
              key == d.hash(EncodeString(MpintContent(d.secret)) + d.exchangeHash + [d.letter] + d.sessionId)[..length]
    ensures length > 32 ==>
              key[..32] == d.hash(EncodeString(MpintContent(d.secret)) + d.exchangeHash + [d.letter] + d.sessionId)
    ensures forall m: nat | m > 0 && 32 * m < length ::
              var block := key[32 * m..Min(32 * m + 32, length)];
              block == d.hash(EncodeString(MpintContent(d.secret)) + d.exchangeHash + key[..32 * m])[..|block|]
  {
    var w := new Writer();
    w.Mpint(d.secret);
    var k := w.ToBytes();
    assert w.fields[1..] == [] && k == EncodeString(MpintContent(d.secret));
    var input := Concat([k, d.exchangeHash, [d.letter], d.sessionId]);
    FlattenFour(k, d.exchangeHash, [d.letter], d.sessionId);
    var out := d.hash(input);
    ghost var n := 1;
    assert out == d.Block(1) && d.Stream(0) + d.Block(1) == d.Block(1);
    while |out| < length
      invariant n > 0 && out == d.Stream(n)
      decreases length - |out|
    {
      var next := Concat([k, d.exchangeHash, out]);
      FlattenThree(k, d.exchangeHash, out);
      var block := d.hash(next);
      out := Concat([out, block]);
      FlattenTwo(d.Stream(n), block);
      n := n + 1;
    }
    key := out[..length];
    if length > 0 {
      DerivedBlock(d, length, key, 0);
    }
    forall m: nat | m > 0 && 32 * m < length
      ensures var block := key[32 * m..Min(32 * m + 32, length)];
              block == d.hash(k + d.exchangeHash + key[..32 * m])[..|block|]
    {
      DerivedBlock(d, length, key, m);
    }
  }

  lemma FlattenTwo(a: Bytes, b: Bytes)
    ensures Flatten([a, b]) == a + b
  {
    assert [a, b] == [a] + [b];
    FlattenPush([a], b);
    assert Flatten([a]) == a + Flatten([]);
  }

  lemma FlattenThree(a: Bytes, b: Bytes, c: Bytes)
    ensures Flatten([a, b, c]) == a + b + c
  {
    assert [a, b, c] == [a, b] + [c];
    FlattenPush([a, b], c);
    FlattenTwo(a, b);
  }

  lemma FlattenFour(a: Bytes, b: Bytes, c: Bytes, d: Bytes)
    ensures Flatten([a, b, c, d]) == a + b + c + d
  {
    assert [a, b, c, d] == [a, b, c] + [d];
    FlattenPush([a, b, c], d);
    FlattenThree(a, b, c);
  }

  /** A shorter key of the same derivation is a prefix of a longer one, so length alone fixes the key. */
  lemma DerivedKeysNest(d: Derivation, m: nat, short: Bytes, n: nat, long: Bytes)
    requires m <= n && IsDerivedKey(d, m, short) && IsDerivedKey(d, n, long)
    ensures short == long[..m]
  {
    var i: nat :| short <= d.Stream(i);
    var j: nat :| long <= d.Stream(j);
    if i <= j {
      d.StreamPrefix(i, j);
    } else {
      d.StreamPrefix(j, i);
    }
  }
}
