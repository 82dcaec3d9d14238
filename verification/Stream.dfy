/**
 * The buffered socket reader of src/ssh/stream.ts. The socket is the list of
 * chunks it has yet to deliver and the way it ends; both methods are specified
 * by the unread bytes alone wherever the chunk boundaries do not matter.
 */
module Stream {
  import opened Wrappers
  import opened ByteStrings

  const LF: byte := 0x0a
  const CR: byte := 0x0d
  const MAX_LINE := 8192

  /** After the last chunk, read() either reports done or rejects. */
  datatype Ending = Closed | Failed

  datatype StreamError = ConnectionClosed | SocketFailed | LineTooLong

  function EndError(ending: Ending): StreamError {
    if ending == Failed then SocketFailed else ConnectionClosed
  }

  // ---------------------------------------------------------------------
  // Lines

  /** The first line of s without its LF or CRLF. */
  function LineOf(s: Bytes): Bytes
    requires LF in s
  {
    var i := IndexOf(s, LF);
    assert i < |s|;
    if i > 0 && s[i - 1] == CR then s[..i - 1] else s[..i]
  }

  function AfterLine(s: Bytes): Bytes
    requires LF in s
  {
    s[IndexOf(s, LF) + 1..]
  }

  /** Does a read that has buf in hand and chunks to come fail for length? */
  predicate TooLong(buf: Bytes, chunks: seq<Bytes>, maxLen: nat)
    decreases |chunks|
  {
    if LF in buf then false
    else if |buf| > maxLen then true
    else if chunks == [] then false
    else TooLong(buf + chunks[0], chunks[1..], maxLen)
  }

  function LineResult(buf: Bytes, chunks: seq<Bytes>, ending: Ending, maxLen: nat): Result<Bytes, StreamError> {
    var s := buf + Flatten(chunks);
    if TooLong(buf, chunks, maxLen) then Err(LineTooLong)
    else if LF in s then Ok(LineOf(s))
    else Err(EndError(ending))
  }

  class ByteStream {
    var buf: Bytes
    var eof: bool
    var chunks: seq<Bytes>
    const ending: Ending

    ghost predicate Valid()
      reads this
    {
      eof ==> chunks == [] && ending == Closed
    }

    /** Every byte the peer sent that has not been handed to a caller. */
    ghost function Unread(): Bytes
      reads this
    {
      buf + Flatten(chunks)
    }

    constructor (chunks: seq<Bytes>, ending: Ending)
      ensures Valid() && buf == [] && this.chunks == chunks && this.ending == ending && !eof
    {
      this.buf, this.eof, this.chunks, this.ending := [], false, chunks, ending;
    }

    /** One read() of the socket; false when it rejects. */
    method Pull() returns (ok: bool)
      requires Valid()
      modifies this
      ensures Valid() && Unread() == old(Unread())
      ensures old(chunks) != [] ==>
                ok && eof == old(eof) && chunks == old(chunks)[1..] && buf == old(buf) + old(chunks)[0]
      ensures old(chunks) == [] ==>
                ok == (ending == Closed) && eof == (old(eof) || ok) && chunks == [] && buf == old(buf)
    {
      if chunks == [] {
        if ending == Failed {
          return false;
        }
        eof := true;
        return true;
      }
      var value := chunks[0];
      chunks := chunks[1..];
      if |value| == 0 {
        assert buf + value == buf;
        return true;
      }
      assert (buf + value) + Flatten(chunks) == buf + (value + Flatten(chunks));
      buf := buf + value;
      return true;
    }

    /** Exactly the next n bytes, or an error that consumes nothing. */
    method ReadExact(n: nat) returns (r: Result<Bytes, StreamError>)
      requires Valid()
      modifies this
      ensures Valid()
      ensures |old(Unread())| >= n ==> r == Ok(old(Unread())[..n]) && Unread() == old(Unread())[n..]
      ensures |old(Unread())| < n ==>
                r == Err(if ending == Failed then SocketFailed else ConnectionClosed) && Unread() == old(Unread())
    {
      while |buf| < n
        invariant Valid() && Unread() == old(Unread())
        decreases |chunks|, !eof
      {
        if eof {
          return Err(ConnectionClosed);
        }
        var ok := Pull();
        if !ok {
          return Err(SocketFailed);
        }
      }
      assert Unread()[..n] == buf[..n] && Unread()[n..] == buf[n..] + Flatten(chunks);
      r := Ok(buf[..n]);
      buf := buf[n..];
    }

    /** One LF- or CRLF-terminated line; a failed read consumes nothing. */
    method ReadLine(maxLen: nat := 8192) returns (r: Result<Bytes, StreamError>)
      requires Valid()
      modifies this
      ensures Valid()
      ensures r == LineResult(old(buf), old(chunks), ending, maxLen)
      ensures Unread() == if r.Ok? then AfterLine(old(Unread())) else old(Unread())
    {
      while true
        invariant Valid() && Unread() == old(Unread())
        invariant LineResult(buf, chunks, ending, maxLen) == LineResult(old(buf), old(chunks), ending, maxLen)
        decreases |chunks|, !eof
      {
        var idx := IndexOf(buf, LF);
        if idx < |buf| {
          var end := idx;
          if end > 0 && buf[end - 1] == CR {
            end := end - 1;
          }
          IndexIs(Unread(), LF, idx) by {
            assert Unread()[..idx] == buf[..idx];
          }
          assert Unread()[..end] == buf[..end];
          assert Unread()[idx + 1..] == buf[idx + 1..] + Flatten(chunks);
          r := Ok(buf[..end]);
          buf := buf[idx + 1..];
          return;
        }
        assert LF !in buf by {
          assert buf[..idx] == buf;
        }
        if |buf| > maxLen {
          return Err(LineTooLong);
        }
        if eof {
          assert Unread() == buf;
          return Err(ConnectionClosed);
        }
        if chunks == [] {
          assert Unread() == buf;
        }
        var ok := Pull();
        if !ok {
          return Err(SocketFailed);
        }
      }
    }
  }

  // ---------------------------------------------------------------------
  // When the chunk boundaries matter

  /** Does the buffer, growing chunk by chunk, stop between maxLen and the newline? */
  ghost predicate StopsShortOfNewline(buf: Bytes, chunks: seq<Bytes>, maxLen: nat) {
    exists k :: 0 <= k <= |chunks|
      && maxLen < |buf + Flatten(chunks[..k])| <= IndexOf(buf + Flatten(chunks), LF)
  }

  /** A line is refused for length exactly when some prefix of the chunks is longer than maxLen and has no newline. */
  lemma {:induction false} TooLongExactly(buf: Bytes, chunks: seq<Bytes>, maxLen: nat)
    ensures TooLong(buf, chunks, maxLen) <==> StopsShortOfNewline(buf, chunks, maxLen)
    decreases |chunks|
  {
    var s := buf + Flatten(chunks);
    var i := IndexOf(s, LF);
    assert buf + Flatten(chunks[..0]) == buf;
    if LF in buf {
      var j := IndexOf(buf, LF);
      assert s[..j] == buf[..j];
      IndexIs(s, LF, j);
    } else {
      assert forall k | 0 <= k < |buf| :: s[k] == buf[k];
      assert |buf| <= i;
      if |buf| <= maxLen && chunks != [] {
        var next, others := buf + chunks[0], chunks[1..];
        assert next + Flatten(others) == s;
        TooLongExactly(next, others, maxLen);
        forall k | 0 <= k <= |others|
          ensures buf + Flatten(chunks[..k + 1]) == next + Flatten(others[..k])
        {
          assert chunks[..k + 1][1..] == others[..k];
        }
        assert forall k | 0 < k <= |chunks| ::
            buf + Flatten(chunks[..k]) == next + Flatten(others[..k - 1]);
      }
    }
  }

  /** Refusal for length is a matter of the bytes alone unless the newline lies beyond maxLen. */
  lemma TooLongByBytes(chunks: seq<Bytes>, maxLen: nat)
    requires LF !in Flatten(chunks) || IndexOf(Flatten(chunks), LF) <= maxLen
    ensures TooLong([], chunks, maxLen) <==> LF !in Flatten(chunks) && |Flatten(chunks)| > maxLen
  {
    var s := Flatten(chunks);
    assert [] + s == s;
    TooLongExactly([], chunks, maxLen);
    if LF !in s {
      assert chunks[..|chunks|] == chunks;
      forall k | 0 <= k <= |chunks|
        ensures |[] + Flatten(chunks[..k])| <= |s|
      {
        assert chunks == chunks[..k] + chunks[k..];
        FlattenConcat(chunks[..k], chunks[k..]);
      }
    }
  }

  lemma FlattenOne(s: Bytes)
    ensures Flatten([s]) == s
  {
    assert Flatten([s]) == s + Flatten([]);
  }

  /** Cut just before the newline, the bytes are refused. */
  lemma CutIsRefused(s: Bytes, i: nat, maxLen: nat)
    requires i < |s| && i > maxLen && LF !in s[..i]
    ensures Flatten([s[..i], s[i..]]) == s && TooLong([], [s[..i], s[i..]], maxLen)
  {
    var cut := [s[..i], s[i..]];
    assert cut[1..] == [s[i..]];
    FlattenOne(s[i..]);
    assert s[..i] + s[i..] == s;
    assert [] + cut[0] == s[..i];
    assert TooLong(s[..i], cut[1..], maxLen);
  }

  /** In one piece, they are not. */
  lemma WholeIsRead(s: Bytes, maxLen: nat)
    requires LF in s
    ensures !TooLong([], [s], maxLen)
  {
    assert [] + s == s;
    assert [s][1..] == [];
  }

  lemma FarNewlineSplits(s: Bytes, maxLen: nat)
    requires LF in s && IndexOf(s, LF) > maxLen
    ensures exists cut :: Flatten(cut) == s && TooLong([], cut, maxLen)
    ensures !TooLong([], [s], maxLen)
  {
    CutIsRefused(s, IndexOf(s, LF), maxLen);
    WholeIsRead(s, maxLen);
  }

  /**
   * Every way of cutting the bytes into chunks gives the same outcome exactly
   * when there is no newline, or it is at index maxLen or before.
   */
  lemma LineFragmentation(s: Bytes, ending: Ending, maxLen: nat)
    ensures (forall chunks | Flatten(chunks) == s ::
               LineResult([], chunks, ending, maxLen) == LineResult([], [s], ending, maxLen))
      <==> LF !in s || IndexOf(s, LF) <= maxLen
  {
    FlattenOne(s);
    assert [] + s == s;
    if LF in s && IndexOf(s, LF) > maxLen {
      FarNewlineSplits(s, maxLen);
      var cut :| Flatten(cut) == s && TooLong([], cut, maxLen);
      assert LineResult([], cut, ending, maxLen) != LineResult([], [s], ending, maxLen);
    } else {
      TooLongByBytes([s], maxLen);
      forall chunks | Flatten(chunks) == s
        ensures LineResult([], chunks, ending, maxLen) == LineResult([], [s], ending, maxLen)
      {
        TooLongByBytes(chunks, maxLen);
      }
    }
  }
}
