/**
 * SshClient of src/ssh/connection.ts as an object. Its async methods are cut
 * at their awaits, as in module Channel, which specifies every step; messages
 * are built with Writer and taken apart with Reader.
 */
module SshClient {
  import opened Wrappers
  import opened ByteStrings
  import opened Wire
  import opened Messages
  import opened Channel

  class SshClient {
    const options: Options
    var closed: bool
    var remoteWindow: int
    var localWindow: int
    var remoteChannel: nat
    var main: MainTask
    var writes: seq<WriteTask>
    var closers: nat
    /** Payloads handed to packets.send, and the messages they encode. */
    var sent: seq<Bytes>
    ghost var out: seq<ClientMsg>
    var delivered: seq<Delivery>
    var onClose: nat

    ghost function State(): Client
      reads this
    {
      Client(closed, remoteWindow, localWindow, remoteChannel, main, writes, closers, out, delivered, onClose)
    }

    ghost predicate Valid()
      reads this
    {
      |sent| == |out| && forall i | 0 <= i < |out| :: sent[i] == out[i].Payload()
    }

    /** openShell up to its first await: the window it offers is the one it starts with. */
    constructor (options: Options)
      ensures Valid() && State() == START && this.options == options
      ensures |sent| == 1
      ensures ReadsAs(sent[0], [FByte(90), FString(Ascii("session")), FU32(0), FU32(2_097_152), FU32(32_768)])
      ensures localWindow == 2_097_152 && remoteWindow == 0
    {
      this.options := options;
      closed, remoteWindow, localWindow, remoteChannel := false, 0, LOCAL_WINDOW, 0;
      main, writes, closers, delivered, onClose := Requesting(OpenReply), [], 0, [], 0;
      sent, out := [], [];
      new;
      SendOpen();
    }

    method SendOpen()
      requires Valid()
      modifies this`sent, this`out
      ensures Valid() && out == old(out) + [OPENING] && |sent| == |old(sent)| + 1
      ensures ReadsAs(sent[|old(sent)|],
                      [FByte(90), FString(Ascii("session")), FU32(0), FU32(2_097_152), FU32(32_768)])
    {
      var w := new Writer();
      w.Byte(CHANNEL_OPEN);
      w.String(Ascii("session"));
      w.Uint32(CLIENT_CHANNEL);
      w.Uint32(LOCAL_WINDOW);
      w.Uint32(Channel.MAX_PACKET);
      Hand(w, OPENING);
      OpenReads(0, 2_097_152, 32_768);
    }

    /** packets.send(w.bytes()) up to its await; what was handed over is named for the proof. */
    method Hand(w: Writer, ghost m: ClientMsg)
      requires Valid() && w.Valid() && w.fields == m.Fields()
      modifies this`sent, this`out
      ensures Valid() && out == old(out) + [m]
    {
      var payload := w.ToBytes();
      sent := sent + [payload];
      out := out + [m];
    }

    /** Every sleeping write() is woken. */
    method Wake()
      requires Valid()
      modifies this`writes
      ensures Valid() && State() == Channel.Wake(old(State()))
    {
      for i := 0 to |writes|
        invariant |writes| == |old(writes)| && Valid()
        invariant forall k | 0 <= k < i :: writes[k] == WakeOne(old(writes)[k])
        invariant forall k | i <= k < |writes| :: writes[k] == old(writes)[k]
      {
        if writes[i].phase.Asleep? {
          writes := writes[i := writes[i].(phase := Woken)];
        }
      }
      assert writes == WakeAll(old(writes));
    }

    method Finish()
      requires Valid()
      modifies this
      ensures Valid() && State() == Channel.Finish(old(State()))
    {
      if closed {
        return;
      }
      closed := true;
      Wake();
      onClose := onClose + 1;
    }

    method SendAdjust(increment: int)
      requires Valid()
      modifies this`sent, this`out
      ensures Valid() && out == old(out) + [Adjust(remoteChannel, increment)] && |sent| == |old(sent)| + 1
      ensures 0 <= increment < U32_LIMIT && remoteChannel < U32_LIMIT ==>
                ReadsAs(sent[|old(sent)|], [FByte(93), FU32(remoteChannel), FU32(increment)])
    {
      var w := new Writer();
      w.Byte(CHANNEL_WINDOW_ADJUST);
      w.Uint32(remoteChannel);
      w.Uint32(increment);
      Hand(w, Adjust(remoteChannel, increment));
      if 0 <= increment < U32_LIMIT && remoteChannel < U32_LIMIT {
        AdjustReads(remoteChannel, increment);
      }
    }

    method ConsumeWindow(n: nat) returns (v: Verdict)
      requires Valid()
      modifies this
      ensures Valid() && (State(), v) == Channel.ConsumeWindow(old(State()), n)
      ensures old(localWindow) - n > 1_048_576 ==> localWindow == old(localWindow) - n && sent == old(sent)
      ensures old(localWindow) - n <= 1_048_576 ==> localWindow == 2_097_152 && |sent| == |old(sent)| + 1
      ensures 0 <= old(localWindow) - n <= 1_048_576 && remoteChannel < U32_LIMIT ==>
                ReadsAs(sent[|old(sent)|],
                        [FByte(93), FU32(remoteChannel), FU32(2_097_152 - (old(localWindow) - n))])
    {
      localWindow := localWindow - n;
      if localWindow > WINDOW_REFILL_AT {
        return Continue;
      }
      var increment := LOCAL_WINDOW - localWindow;
      localWindow := LOCAL_WINDOW;
      SendAdjust(increment);
      v := AwaitSend;
    }

    method DeclineChannelRequest()
      requires Valid()
      modifies this
      ensures Valid() && State() == Send(old(State()), Messages.ChannelFailure(old(remoteChannel)))
    {
      var w := new Writer();
      w.Byte(Messages.CHANNEL_FAILURE);
      w.Uint32(remoteChannel);
      Hand(w, Messages.ChannelFailure(remoteChannel));
    }

    method DeclineGlobalRequest()
      requires Valid()
      modifies this
      ensures Valid() && State() == Send(old(State()), Messages.RequestFailure)
    {
      var w := new Writer();
      w.Byte(REQUEST_FAILURE);
      Hand(w, Messages.RequestFailure);
    }

    /** dispatch() up to its first await. */
    method Dispatch(packet: Bytes) returns (v: Verdict)
      requires Valid()
      modifies this
      ensures Valid() && (State(), v) == Channel.Dispatch(old(State()), Parse(packet))
    {
      if |packet| == 0 {
        return Threw;
      }
      var r := new Reader(packet);
      var skipped := r.Byte();
      assert r.Rest() == packet[1..];
      var kind := packet[0];
      if kind == CHANNEL_DATA || kind == CHANNEL_EXTENDED_DATA || kind == CHANNEL_WINDOW_ADJUST {
        v := DispatchFlow(packet, r);
      } else if kind == CHANNEL_CLOSE {
        v := Done;
      } else if kind == CHANNEL_REQUEST {
        v := DispatchRequest(r);
      } else if kind == GLOBAL_REQUEST {
        v := Decline(r, true);
      } else if kind == DISCONNECT {
        v := DispatchDisconnect(r);
      } else if kind == KEXINIT {
        Finish();
        v := Done;
      } else {
        v := Continue;
      }
    }

    /** The three kinds that move data or credit. */
    method DispatchFlow(packet: Bytes, r: Reader) returns (v: Verdict)
      requires Valid() && r.Valid() && packet != [] && r.Rest() == packet[1..]
      requires packet[0] == CHANNEL_DATA || packet[0] == CHANNEL_EXTENDED_DATA || packet[0] == CHANNEL_WINDOW_ADJUST
      modifies this, r
      ensures Valid() && (State(), v) == Channel.Dispatch(old(State()), Parse(packet))
    {
      if packet[0] == CHANNEL_DATA {
        v := DispatchData(r);
      } else if packet[0] == CHANNEL_EXTENDED_DATA {
        v := DispatchExtendedData(r);
      } else {
        v := DispatchWindowAdjust(r);
      }
    }

    method DispatchData(r: Reader) returns (v: Verdict)
      requires Valid() && r.Valid()
      modifies this, r
      ensures Valid() && this.main == old(this.main)
      ensures (State(), v) == match TakeU32String(old(r.Rest()))
                              case None => (old(State()), Threw)
                              case Some(t) => Channel.Dispatch(old(State()), ChannelData(t.value))
    {
      var channel := r.Uint32();
      if channel.Err? {
        return Threw;
      }
      var data := r.String();
      if data.Err? {
        return Threw;
      }
      delivered := delivered + [OnData(data.value)];
      v := ConsumeWindow(|data.value|);
    }

    method DispatchExtendedData(r: Reader) returns (v: Verdict)
      requires Valid() && r.Valid()
      modifies this, r
      ensures Valid()
      ensures (State(), v) == match TakeU32(old(r.Rest()))
                              case None => (old(State()), Threw)
                              case Some(ch) =>
                                match TakeU32String(ch.rest)
                                case None => (old(State()), Threw)
                                case Some(t) => Channel.Dispatch(old(State()), ExtendedData(t.value))
    {
      var channel := r.Uint32();
      if channel.Err? {
        return Threw;
      }
      var code := r.Uint32();
      if code.Err? {
        return Threw;
      }
      var data := r.String();
      if data.Err? {
        return Threw;
      }
      delivered := delivered + [OnExtendedData(data.value)];
      v := ConsumeWindow(|data.value|);
    }

    method DispatchWindowAdjust(r: Reader) returns (v: Verdict)
      requires Valid() && r.Valid()
      modifies this, r
      ensures Valid()
      ensures (State(), v) == match TakeTwoU32(old(r.Rest()))
                              case None => (old(State()), Threw)
                              case Some(t) => Channel.Dispatch(old(State()), WindowAdjust(t.value))
    {
      var channel := r.Uint32();
      if channel.Err? {
        return Threw;
      }
      var increment := r.Uint32();
      if increment.Err? {
        return Threw;
      }
      remoteWindow := remoteWindow + increment.value;
      Wake();
      v := Continue;
    }

    method DispatchRequest(r: Reader) returns (v: Verdict)
      requires Valid() && r.Valid()
      modifies this, r
      ensures Valid()
      ensures (State(), v) == match TakeFlag(TakeU32String(old(r.Rest())))
                              case None => (old(State()), Threw)
                              case Some(t) => Channel.Dispatch(old(State()), ChannelRequest(t.value != 0))
    {
      var channel := r.Uint32();
      if channel.Err? {
        return Threw;
      }
      v := Decline(r, false);
    }

    /** The code and the text are read before the session ends. */
    method DispatchDisconnect(r: Reader) returns (v: Verdict)
      requires Valid() && r.Valid()
      modifies this, r
      ensures Valid()
      ensures (State(), v) == match TakeU32String(old(r.Rest()))
                              case None => (old(State()), Threw)
                              case Some(_) => Channel.Dispatch(old(State()), Disconnect)
    {
      var code := r.Uint32();
      if code.Err? {
        return Threw;
      }
      var text := r.String();
      if text.Err? {
        return Threw;
      }
      Finish();
      v := Done;
    }

    /** The request's name, then its reply flag. */
    method Decline(r: Reader, global: bool) returns (v: Verdict)
      requires Valid() && r.Valid()
      modifies this, r
      ensures Valid()
      ensures (State(), v) == match TakeFlag(TakeString(old(r.Rest())))
                              case None => (old(State()), Threw)
                              case Some(t) =>
                                Channel.Dispatch(old(State()), if global then GlobalRequest(t.value != 0)
                                                               else ChannelRequest(t.value != 0))
    {
      var name := r.String();
      if name.Err? {
        return Threw;
      }
      var wantReply := r.Boolean();
      if wantReply.Err? {
        return Threw;
      }
      if !wantReply.value {
        return Continue;
      }
      if global {
        DeclineGlobalRequest();
      } else {
        DeclineChannelRequest();
      }
      v := AwaitSend;
    }

    // -------------------------------------------------------------------
    // openShell and expect

    /** The rest of openShell's step once its reply is there: read it, send the next request. */
    method Replied(stage: Stage, packet: Bytes)
      requires Valid() && packet != [] && packet[0] == Wanted(stage)
      modifies this
      ensures Valid() && State() == Channel.Replied(old(State()), stage, packet, options)
    {
      if stage == OpenReply {
        var m := ReadConfirmation(packet);
        if m.None? {
          main := Aborted;
          return;
        }
        remoteChannel, remoteWindow := m.value.channel, m.value.window;
        RequestPty();
        main := Requesting(PtyReply);
      } else if stage == PtyReply {
        RequestShell();
        main := Requesting(ShellReply);
      } else {
        main := Pumping;
      }
    }

    method ReadConfirmation(packet: Bytes) returns (m: Option<Confirmation>)
      requires packet != []
      ensures m == ParseConfirmation(packet[1..])
    {
      var r := new Reader(packet);
      var skipped := r.Byte();
      assert r.Rest() == packet[1..];
      var ours := r.Uint32();
      if ours.Err? {
        return None;
      }
      var theirs := r.Uint32();
      if theirs.Err? {
        return None;
      }
      var window := r.Uint32();
      if window.Err? {
        return None;
      }
      var maxPacket := r.Uint32();
      if maxPacket.Err? {
        return None;
      }
      m := Some(Confirmation(theirs.value, window.value));
    }

    /** Columns and rows, and no size in pixels. */
    method PutSize(w: Writer, cols: nat, rows: nat)
      requires w.Valid()
      modifies w
      ensures w.Valid() && w.fields == old(w.fields) + [U32(cols), U32(rows), U32(0), U32(0)]
    {
      w.Uint32(cols);
      w.Uint32(rows);
      w.Uint32(0);
      w.Uint32(0);
    }

    method PutRequest(w: Writer, kind: Bytes, wantReply: bool)
      requires w.Valid() && w.fields == []
      modifies w
      ensures w.Valid()
      ensures w.fields == [FByte(CHANNEL_REQUEST), U32(remoteChannel), FString(kind), FBool(wantReply)]
    {
      w.Byte(CHANNEL_REQUEST);
      w.Uint32(remoteChannel);
      w.String(kind);
      w.Boolean(wantReply);
    }

    method RequestPty()
      requires Valid()
      modifies this`sent, this`out
      ensures Valid() && out == old(out) + [PtyRequest(remoteChannel, options.term, options.cols, options.rows)]
    {
      var w := new Writer();
      PutRequest(w, Ascii("pty-req"), true);
      w.String(options.term);
      PutSize(w, options.cols, options.rows);
      w.String([0]);
      Hand(w, PtyRequest(remoteChannel, options.term, options.cols, options.rows));
    }

    method RequestShell()
      requires Valid()
      modifies this`sent, this`out
      ensures Valid() && out == old(out) + [ShellRequest(remoteChannel)]
    {
      var w := new Writer();
      PutRequest(w, Ascii("shell"), true);
      Hand(w, ShellRequest(remoteChannel));
    }

    /** One packet in expect(). */
    method ExpectPacket(packet: Bytes)
      requires Valid() && main.Expecting?
      modifies this
      ensures Valid() && State() == Channel.Expect(old(State()), old(main).stage, packet, options)
      ensures packet == [] || packet[0] == 1 ==> main == Aborted
      ensures packet != [] && packet[0] == (if old(main).stage == OpenReply then 92 else 100) ==> main == Aborted
      ensures packet != [] && packet[0] in {2, 3, 4, 7, 96} ==> State() == old(State())
      ensures packet != [] && packet[0] in (if old(main).stage == OpenReply then {99, 100} else {91, 92}) ==>
                State() == old(State())
      ensures packet != [] && packet[0] !in {1, 2, 3, 4, 7, 80} && !(91 <= packet[0] <= 100) ==>
                State() == old(State()).(main := Aborted)
    {
      var stage := main.stage;
      if |packet| == 0 {
        main := Aborted;
        return;
      }
      var kind := packet[0];
      if kind == Wanted(stage) {
        Replied(stage, packet);
      } else if kind == Refusal(stage) || kind == DISCONNECT {
        main := Aborted;
      } else if kind == GLOBAL_REQUEST || IsChannelMessage(kind) {
        var v := Dispatch(packet);
        main := match v
          case Continue => Expecting(stage)
          case AwaitSend => ExpectSend(stage)
          case _ => Aborted;
      } else if !IsNoise(kind) {
        main := Aborted;
      }
    }

    // -------------------------------------------------------------------
    // pump

    method PumpPacket(packet: Bytes)
      requires Valid() && main.Pumping?
      modifies this
      ensures Valid() && State() == Channel.Pump(old(State()), packet)
    {
      if closed {
        main := Stopped;
        return;
      }
      var v := Dispatch(packet);
      match v {
        case Continue =>
        case AwaitSend => main := PumpSend;
        case Done => Finish(); main := Stopped;
        case Threw => Finish(); main := Stopped;
      }
    }

    method OnReceived(packet: Bytes)
      requires Valid()
      modifies this
      ensures Valid() && State() == Step(old(State()), Received(packet), options)
    {
      if main.Expecting? {
        ExpectPacket(packet);
      } else if main.Pumping? {
        PumpPacket(packet);
      }
    }

    method OnReadFailed()
      requires Valid()
      modifies this
      ensures Valid() && State() == Step(old(State()), ReadFailed, options)
      ensures old(main).Expecting? ==> State() == old(State()).(main := Aborted)
      ensures old(main).Pumping? ==> closed && main == Stopped
      ensures !old(main).Expecting? && !old(main).Pumping? ==> State() == old(State())
    {
      if main.Expecting? {
        main := Aborted;
      } else if main.Pumping? {
        Finish();
        main := Stopped;
      }
    }

    method OnMainSent(ok: bool)
      requires Valid()
      modifies this
      ensures Valid() && State() == Step(old(State()), MainSent(ok), options)
      ensures old(main).Requesting? || old(main).ExpectSend? ==>
                State() == old(State()).(main := if ok then Expecting(old(main).stage) else Aborted)
      ensures old(main).PumpSend? && ok ==> State() == old(State()).(main := Pumping)
      ensures old(main).PumpSend? && !ok ==> closed && main == Stopped
    {
      if main.Requesting? || main.ExpectSend? {
        main := if ok then Expecting(main.stage) else Aborted;
      } else if main.PumpSend? {
        if ok {
          main := Pumping;
        } else {
          Finish();
          main := Stopped;
        }
      }
    }

    // -------------------------------------------------------------------
    // write, resize and close

    method SetPhase(i: nat, phase: Phase)
      requires Valid() && i < |writes|
      modifies this`writes
      ensures Valid() && State() == Channel.SetPhase(old(State()), i, phase)
    {
      writes := writes[i := writes[i].(phase := phase)];
    }

    /** From the wait for window on: what a woken write() does, and one whose loop goes round. */
    method WriteInner(i: nat)
      requires Valid() && i < |writes|
      modifies this
      ensures Valid() && State() == Channel.WriteInner(old(State()), i)
      ensures closed == old(closed) && remoteWindow == old(remoteWindow) && remoteChannel == old(remoteChannel)
      ensures closed || remoteWindow == 0 ==>
                && sent == old(sent)
                && writes == old(writes)[i := old(writes)[i].(phase := if closed then Ended(FoundClosed) else Asleep)]
      ensures var t := old(writes)[i];
              !closed && remoteWindow > 0 && 0 <= t.offset < |t.data| ==>
                var size := Least(|t.data| - t.offset, remoteWindow, 32_704);
                && writes == old(writes)[i := t.(phase := InFlight(size))]
                && |sent| == |old(sent)| + 1
                && (remoteChannel < U32_LIMIT ==>
                      ReadsAs(sent[|old(sent)|],
                              [FByte(94), FU32(remoteChannel), FString(t.data[t.offset..t.offset + size])]))
    {
      if remoteWindow == 0 && !closed {
        SetPhase(i, Asleep);
        return;
      }
      if closed {
        SetPhase(i, Ended(FoundClosed));
        return;
      }
      var data, offset := writes[i].data, writes[i].offset;
      var size := Least(|data| - offset, remoteWindow, MAX_CHUNK);
      var chunk := Subarray(data, offset, offset + size);
      SendChunk(chunk);
      SetPhase(i, InFlight(size));
    }

    method SendChunk(chunk: Bytes)
      requires Valid()
      modifies this`sent, this`out
      ensures Valid() && out == old(out) + [Messages.Data(remoteChannel, chunk)] && |sent| == |old(sent)| + 1
      ensures remoteChannel < U32_LIMIT && |chunk| < U32_LIMIT ==>
                ReadsAs(sent[|old(sent)|], [FByte(94), FU32(remoteChannel), FString(chunk)])
    {
      var w := new Writer();
      w.Byte(CHANNEL_DATA);
      w.Uint32(remoteChannel);
      w.String(chunk);
      Hand(w, Messages.Data(remoteChannel, chunk));
      if remoteChannel < U32_LIMIT && |chunk| < U32_LIMIT {
        DataReads(remoteChannel, chunk);
      }
    }

    method WriteLoop(i: nat)
      requires Valid() && i < |writes|
      modifies this
      ensures Valid() && State() == Channel.WriteLoop(old(State()), i)
    {
      if writes[i].offset < |writes[i].data| {
        WriteInner(i);
      } else {
        SetPhase(i, Ended(Finished));
      }
    }

    /** write(data) up to its first await; false when it throws because the session is closed. */
    method Write(data: Bytes) returns (ok: bool)
      requires Valid()
      modifies this
      ensures Valid() && State() == Step(old(State()), WriteCall(data), options)
      ensures ok == Writable(old(State())) == (Open(old(main)) && !old(closed))
      ensures !ok ==> State() == old(State())
    {
      ok := Open(main) && !closed;
      if ok {
        writes := writes + [WriteTask(data, 0, Woken)];
        WriteLoop(|writes| - 1);
      }
    }

    method OnResumed(i: nat)
      requires Valid()
      modifies this
      ensures Valid() && State() == Step(old(State()), Resumed(i), options)
      ensures i < |writes| ==> !writes[i].phase.Woken?
    {
      if i < |writes| && writes[i].phase == Woken {
        WriteInner(i);
      }
    }

    method OnWriteSent(i: nat, ok: bool)
      requires Valid()
      modifies this
      ensures Valid() && State() == Step(old(State()), WriteSent(i, ok), options)
      ensures i < |old(writes)| && old(writes)[i].phase.InFlight? && ok ==>
                remoteWindow == old(remoteWindow) - old(writes)[i].phase.size && |writes| == |old(writes)|
                && writes[i].offset == old(writes)[i].offset + old(writes)[i].phase.size
      ensures i < |old(writes)| && old(writes)[i].phase.InFlight? && !ok ==>
                State() == old(State()).(writes := old(writes)[i := old(writes)[i].(phase := Ended(SendFailed))])
    {
      if i >= |writes| || !writes[i].phase.InFlight? {
        return;
      }
      if ok {
        var size := writes[i].phase.size;
        remoteWindow := remoteWindow - size;
        writes := writes[i := WriteTask(writes[i].data, writes[i].offset + size, Woken)];
        WriteLoop(i);
      } else {
        SetPhase(i, Ended(SendFailed));
      }
    }

    method Close()
      requires Valid()
      modifies this
      ensures Valid() && State() == Step(old(State()), CloseCall, options)
      ensures !Open(main) || closed ==> State() == old(State())
      ensures Open(main) && !closed && remoteChannel < U32_LIMIT ==>
                |sent| == |old(sent)| + 1 && ReadsAs(sent[|old(sent)|], [FByte(97), FU32(remoteChannel)])
    {
      if !Open(main) || closed {
        return;
      }
      SendClose();
      closers := closers + 1;
    }

    method SendClose()
      requires Valid()
      modifies this`sent, this`out
      ensures Valid() && out == old(out) + [Messages.Close(remoteChannel)] && |sent| == |old(sent)| + 1
      ensures remoteChannel < U32_LIMIT ==> ReadsAs(sent[|old(sent)|], [FByte(97), FU32(remoteChannel)])
    {
      var w := new Writer();
      w.Byte(CHANNEL_CLOSE);
      w.Uint32(remoteChannel);
      Hand(w, Messages.Close(remoteChannel));
      if remoteChannel < U32_LIMIT {
        CloseReads(remoteChannel);
      }
    }

    /** close() goes on to finish() whether its send succeeded or not. */
    method OnCloseSent(ok: bool)
      requires Valid()
      modifies this
      ensures Valid() && State() == Step(old(State()), CloseSent(ok), options)
      ensures old(closers) > 0 ==> closed && closers == old(closers) - 1
    {
      if closers > 0 {
        closers := closers - 1;
        Finish();
      }
    }

    method ResizeTerminal(cols: nat, rows: nat)
      requires Valid()
      modifies this
      ensures Valid() && State() == Step(old(State()), Resize(cols, rows), options)
      ensures !Open(main) || closed ==> State() == old(State())
      ensures Open(main) && !closed && remoteChannel < U32_LIMIT && cols < U32_LIMIT && rows < U32_LIMIT ==>
                && |sent| == |old(sent)| + 1
                && ReadsAs(sent[|old(sent)|],
                           [FByte(98), FU32(remoteChannel), FString(Ascii("window-change")), FBool(false),
                            FU32(cols), FU32(rows), FU32(0), FU32(0)])
    {
      if !Open(main) || closed {
        return;
      }
      var w := new Writer();
      PutRequest(w, Ascii("window-change"), false);
      PutSize(w, cols, rows);
      Hand(w, WindowChange(remoteChannel, cols, rows));
      if remoteChannel < U32_LIMIT && cols < U32_LIMIT && rows < U32_LIMIT {
        WindowChangeReads(remoteChannel, cols, rows);
      }
    }
  }
}
