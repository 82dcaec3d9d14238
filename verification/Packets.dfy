/**
 * The packet layer of src/ssh/packet.ts as objects: GcmDirection with its
 * invocation counter, and Packets, whose send() is cut at its awaits into the
 * steps of module SendQueue and whose receive() is specified by module Framing.
 */
module Packets {
  import opened Wrappers
  import opened ByteStrings
  import opened Stream
  import opened Framing
  import opened SendQueue
  import opened Wire

  const IV_LEN := 12

  function DirectionFrom(key: Bytes, iv: Bytes): (d: Direction)
    requires |iv| == IV_LEN
    ensures d.counter < COUNTER_LIMIT
  {
    Pow256Widths();
    ValueBound(iv[4..]);
    Direction(key, iv[..4], Value(iv[4..]))
  }

  lemma FirstIvIsTheDerivedOne(key: Bytes, iv: Bytes)
    requires |iv| == IV_LEN
    ensures DirectionFrom(key, iv).Iv() == iv && DirectionFrom(key, iv).key == key
  {
    BigEndianOfValue(iv[4..]);
    assert iv == iv[..4] + iv[4..];
  }

  class GcmDirection {
    const key: Bytes
    const fixed: Bytes
    var counter: nat

    function Dir(): Direction
      reads this
    {
      Direction(key, fixed, counter)
    }

    constructor (key: Bytes, iv: Bytes)
      requires |iv| == IV_LEN
      ensures Dir() == DirectionFrom(key, iv)
    {
      this.key, this.fixed, this.counter := key, iv[..4], Value(iv[4..]);
    }

    /** The IV of the next packet; Bump() after each one. */
    method Iv() returns (iv: Bytes)
      ensures iv == Dir().Iv() == fixed + BigEndian(8, counter)
    {
      var out := new byte[|fixed| + 8];
      SetBytes(out, 0, fixed);
      SetBytes(out, |fixed|, BigEndian(8, counter));
      iv := out[..];
    }

    method Bump()
      modifies this
      ensures Dir() == old(Dir()).Bump()
      ensures counter == (old(counter) + 1) % 0x1_0000_0000_0000_0000
    {
      counter := (counter + 1) % COUNTER_LIMIT;
    }
  }

  class Packets {
    const aead: Aead
    const stream: ByteStream
    var gcmOut: GcmDirection?
    var gcmIn: GcmDirection?
    var zeroed: bool
    var queue: seq<Bytes>
    /** The send in progress, and the direction object it captured. */
    var phase: Phase
    var active: GcmDirection?
    /** Settled sends, oldest first. */
    var log: seq<Entry>
    ghost var start: Option<Direction>

    ghost function State(): Sender
      reads this, gcmOut
    {
      Sender(zeroed, start, if gcmOut == null then None else Some(gcmOut.Dir()), queue, phase, log)
    }

    ghost predicate Valid()
      reads this, stream, gcmOut, gcmIn, active
    {
      && stream.Valid()
      && (gcmIn != null ==> gcmIn != gcmOut && gcmIn != active)
      && (start.None? ==> gcmOut == null && !phase.Encrypting?)
      && (phase.Encrypting? ==>
            && active != null && active.Dir() == phase.dir && |phase.pad| < 256
            && (gcmOut != null ==> gcmOut == active))
    }

    constructor (aead: Aead, stream: ByteStream)
      requires stream.Valid()
      ensures Valid() && State() == Fresh && this.aead == aead && this.stream == stream && gcmIn == null
    {
      this.aead, this.stream := aead, stream;
      gcmOut, gcmIn, active := null, null, null;
      zeroed, queue, phase, log, start := false, [], Idle, [], None;
    }

    /** Switch to aes256-gcm in both directions; the handshake does so once. */
    method EnableGcm(keyC2S: Bytes, ivC2S: Bytes, keyS2C: Bytes, ivS2C: Bytes)
      requires Valid() && start.None?
      requires |ivC2S| == IV_LEN && |ivS2C| == IV_LEN
      modifies this
      ensures Valid()
      ensures State() == Step(aead, old(State()), Enable(DirectionFrom(keyC2S, ivC2S)))
      ensures gcmIn != null && fresh(gcmIn) && gcmIn.Dir() == DirectionFrom(keyS2C, ivS2C)
      ensures gcmOut != null && fresh(gcmOut) && gcmOut.key == keyC2S && gcmIn.key == keyS2C
    {
      gcmOut := new GcmDirection(keyC2S, ivC2S);
      gcmIn := new GcmDirection(keyS2C, ivS2C);
      start := Some(gcmOut.Dir());
    }

    /** send(): takes its place at the end of the chain. */
    method Send(payload: Bytes)
      requires Valid()
      modifies this
      ensures Valid() && State() == Step(aead, old(State()), Call(payload)) && gcmIn == old(gcmIn)
    {
      queue := queue + [payload];
    }

    /** The first continuation in the chain runs up to its first await. */
    method StartNext(noise: Bytes)
      requires Valid()
      modifies this
      ensures Valid() && State() == Step(aead, old(State()), Start(noise)) && gcmIn == old(gcmIn)
      ensures old(phase).Idle? && !phase.Idle? && |noise| >= 20 ==> phase.pad <= noise
    {
      if !phase.Idle? || queue == [] {
        return;
      }
      var payload := queue[0];
      queue := queue[1..];
      if zeroed {
        log := log + [Entry(payload, Refused)];
      } else if gcmOut != null {
        active := gcmOut;
        phase := Encrypting(payload, gcmOut.Dir(), PadBytes(noise, GcmPad(|payload|)));
      } else {
        var pad := PadBytes(noise, ClearPad(|payload|));
        var frame := FrameClear(payload, pad);
        phase := Writing(payload, frame, None, pad);
      }
    }

    method EncryptSettled(ok: bool)
      requires Valid()
      modifies this, active
      ensures Valid() && State() == Step(aead, old(State()), Encrypted(ok)) && gcmIn == old(gcmIn)
    {
      if !phase.Encrypting? {
        return;
      }
      var payload, dir, pad := phase.payload, phase.dir, phase.pad;
      if !ok {
        phase, log := Idle, log + [Entry(payload, EncryptFailed)];
        return;
      }
      var frame := FrameGcm(dir, payload, pad);
      active.Bump();
      phase := Writing(payload, frame, Some(dir), pad);
    }

    method WriteSettled(ok: bool)
      requires Valid()
      modifies this
      ensures Valid() && State() == Step(aead, old(State()), Wrote(ok)) && gcmIn == old(gcmIn)
    {
      if !phase.Writing? {
        return;
      }
      log := log + [Entry(phase.payload, Written(phase.frame, phase.sealedBy, phase.pad, ok))];
      phase := Idle;
    }

    method Destroy()
      requires Valid()
      modifies this
      ensures Valid() && State() == Step(aead, old(State()), SendQueue.Destroy)
      ensures zeroed && gcmIn == null && gcmOut == null
    {
      zeroed, gcmIn, gcmOut := true, null, null;
    }

    /** What remains to a multiple of 8, and 8 more if that is less than 4. */
    method ClearPadLen(n: nat) returns (padLen: nat)
      ensures padLen == ClearPad(n)
    {
      padLen := 8 - (5 + n) % 8;
      if padLen < 4 {
        padLen := padLen + 8;
      }
    }

    /** Length, padding length, payload and padding, filled into one buffer in place. */
    method FrameClear(payload: Bytes, pad: Bytes) returns (frame: Bytes)
      requires |pad| == ClearPad(|payload|)
      ensures frame == ClearFrame(payload, pad)
      ensures |payload| + 32 < 0x1_0000_0000 ==>
                frame == BigEndian(4, 1 + |payload| + |pad|) + ([|pad|] + payload + pad)
    {
      var padLen := ClearPadLen(|payload|);
      frame := FillClear(payload, pad, padLen);
    }

    method FillClear(payload: Bytes, pad: Bytes, padLen: nat) returns (frame: Bytes)
      requires padLen == |pad| < 256
      ensures frame == ClearFrame(payload, pad)
    {
      var packetLen := 1 + |payload| + padLen;
      var out := new byte[4 + packetLen];
      SetBytes(out, 0, LengthField(packetLen));
      out[4] := padLen;
      SetBytes(out, 5, payload);
      SetBytes(out, 5 + |payload|, pad);
      assert out[..] == LengthField(packetLen) + Padded(payload, pad);
      frame := out[..];
    }

    method FrameGcm(dir: Direction, payload: Bytes, pad: Bytes) returns (frame: Bytes)
      requires |pad| < 256
      ensures frame == GcmFrame(aead, dir, payload, pad)
      ensures |payload| + 300 < 0x1_0000_0000 ==>
                var aad := BigEndian(4, 1 + |payload| + |pad|);
                frame == aad + aead.seal(dir.key, dir.fixed + BigEndian(8, dir.counter), aad, [|pad|] + payload + pad)
    {
      var packetLen := 1 + |payload| + |pad|;
      var plain := new byte[packetLen];
      plain[0] := |pad|;
      SetBytes(plain, 1, payload);
      SetBytes(plain, 1 + |payload|, pad);
      assert plain[..] == Padded(payload, pad);
      var aad := LengthField(packetLen);
      var sealed := aead.seal(dir.key, dir.Iv(), aad, plain[..]);
      frame := Concat([aad, sealed]);
      assert Flatten([aad, sealed]) == aad + Flatten([sealed]) && Flatten([sealed]) == sealed + Flatten([]);
    }

    method Receive() returns (r: Result<Bytes, PacketError>)
      requires Valid() && aead.Lawful()
      modifies stream, gcmIn
      ensures Valid() && State() == old(State())
      ensures zeroed ==> r == Err(Destroyed) && stream.Unread() == old(stream.Unread())
      ensures !zeroed && gcmIn == null ==>
                Receipt(r, stream.Unread()) == ReceiveClear(old(stream.Unread()), stream.ending)
      ensures !zeroed && gcmIn != null ==>
                (Receipt(r, stream.Unread()), gcmIn.Dir())
                == ReceiveGcm(aead, old(gcmIn.Dir()), old(stream.Unread()), stream.ending)
      ensures zeroed && gcmIn != null ==> gcmIn.Dir() == old(gcmIn.Dir())
    {
      if zeroed {
        return Err(Destroyed);
      }
      if gcmIn != null {
        r := ReadGcm();
      } else {
        r := ReadClear();
      }
    }

    method ReadClear() returns (r: Result<Bytes, PacketError>)
      requires stream.Valid()
      modifies stream
      ensures stream.Valid()
      ensures Receipt(r, stream.Unread()) == ReceiveClear(old(stream.Unread()), stream.ending)
    {
      var lenBuf := stream.ReadExact(4);
      if lenBuf.Err? {
        return Err(Transport(lenBuf.error));
      }
      var packetLen := Value(lenBuf.value);
      if packetLen < 8 || packetLen > MAX_PACKET {
        return Err(BadLength(packetLen));
      }
      var body := stream.ReadExact(packetLen);
      if body.Err? {
        return Err(Transport(body.error));
      }
      var rest := body.value;
      var padLen := rest[0];
      if padLen + 1 > packetLen {
        return Err(BadPadding);
      }
      r := Ok(rest[1..packetLen - padLen]);
    }

    method ReadGcm() returns (r: Result<Bytes, PacketError>)
      requires stream.Valid() && gcmIn != null && aead.Lawful()
      modifies stream, gcmIn
      ensures stream.Valid()
      ensures (Receipt(r, stream.Unread()), gcmIn.Dir())
           == ReceiveGcm(aead, old(gcmIn.Dir()), old(stream.Unread()), stream.ending)
    {
      var header := stream.ReadExact(4);
      if header.Err? {
        return Err(Transport(header.error));
      }
      var aad := header.value;
      var packetLen := Value(aad);
      if packetLen < 16 || packetLen % 16 != 0 || packetLen > MAX_PACKET {
        return Err(BadLength(packetLen));
      }
      var body := stream.ReadExact(packetLen + TAG_LEN);
      if body.Err? {
        return Err(Transport(body.error));
      }
      var iv := gcmIn.Iv();
      var unsealed := aead.open(gcmIn.key, iv, aad, body.value);
      if unsealed.None? {
        return Err(TagMismatch);
      }
      var plain := unsealed.value;
      gcmIn.Bump();
      var padLen := plain[0];
      if padLen + 1 > |plain| {
        return Err(BadPadding);
      }
      r := Ok(plain[1..|plain| - padLen]);
    }
  }
}
