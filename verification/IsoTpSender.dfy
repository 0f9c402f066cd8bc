/** The transmitter in the form of main/isotp_tx.c: one record that the handlers update, with the
    payload copied into a fixed buffer and frames built byte by byte. */
module IsoTpSender {
  import opened IsoTp

  class Sender {
    const cfg: Config
    var leaf: Leaf
    var busy: bool
    var startPending: bool
    var result: Result
    var nextDeadlineUs: int
    const payload: array<Byte>
    var payloadSize: nat
    var payloadOffset: nat
    var separationTimeUs: nat
    var blockSize: Byte
    var blockSent: Byte
    var sequenceNumber: nat
    var waitFrames: Byte
    ghost var owed: bool
    ghost var log: seq<Event>

    ghost predicate Valid()
      reads this
    {
      payload.Length == MAX_PAYLOAD && payloadSize <= MAX_PAYLOAD
    }

    ghost function Value(): Tx
      requires Valid()
      reads this, payload
    {
      Tx(leaf, busy, startPending, owed, result, nextDeadlineUs, payload[..payloadSize], payloadOffset,
         separationTimeUs, blockSize, blockSent, sequenceNumber, waitFrames, log)
    }

    /** `isotp_tx_init`. */
    constructor (cfg: Config)
      ensures Valid() && fresh(payload) && this.cfg == cfg && Value() == INITIAL
    {
      this.cfg := cfg;
      leaf, busy, startPending, result, nextDeadlineUs := Idle, false, false, NoResult, NO_DEADLINE;
      payload := new Byte[MAX_PAYLOAD](_ => 0);
      payloadSize, payloadOffset, separationTimeUs := 0, 0, 0;
      blockSize, blockSent, sequenceNumber, waitFrames := 0, 0, 0, 0;
      owed, log := false, [];
    }

    // -------------------------------------------------------------- building and sending frames

    /** A frame buffer full of padding. */
    method BlankFrame() returns (frame: array<Byte>)
      ensures fresh(frame) && frame.Length == 8
      ensures forall i :: 0 <= i < 8 ==> frame[i] == cfg.padding
    {
      var padding := cfg.padding;
      frame := new Byte[8](_ => padding);
    }

    /** Copy `n` payload bytes from `from` into a frame at `to`. */
    method CopyPayload(frame: array<Byte>, to: nat, from: nat, n: nat)
      requires Valid() && frame != payload && from + n <= payloadSize && to + n <= frame.Length
      modifies frame
      ensures frame[..] == old(frame[..to]) + payload[from..from + n] + old(frame[to + n..])
    {
      var i := 0;
      while i < n
        invariant 0 <= i <= n
        invariant frame[..to] == old(frame[..to]) && frame[to + n..] == old(frame[to + n..])
        invariant frame[to..to + i] == payload[from..from + i]
      {
        frame[to + i] := payload[from + i];
        i := i + 1;
      }
      assert frame[..] == frame[..to] + frame[to..to + n] + frame[to + n..];
    }

    /** Hand a frame to the bus, which takes it or not. */
    method SendFrame(now: int, frame: array<Byte>, sendOk: bool)
      requires Valid()
      modifies this`log
      ensures Value() == if sendOk then Transmit(old(Value()), now, frame[..])
                         else Logged(old(Value()), Refused(now))
    {
      log := log + [if sendOk then Sent(now, frame[..]) else Refused(now)];
    }

    method Finish(res: Result)
      requires Valid()
      modifies this`result, this`busy, this`nextDeadlineUs
      ensures Value() == IsoTp.Finish(old(Value()), res)
    {
      result := res;
      busy := false;
      nextDeadlineUs := NO_DEADLINE;
    }

    // -------------------------------------------------------------- handlers

    method SendSingleFrame(now: int, sendOk: bool)
      requires Valid() && payloadSize <= SINGLE_DATA
      modifies this`log
      ensures Value() == if sendOk then Transmit(old(Value()), now, SingleFrame(cfg, payload[..payloadSize]))
                         else Logged(old(Value()), Refused(now))
    {
      var frame := BlankFrame();
      frame[0] := payloadSize;
      CopyPayload(frame, 1, 0, payloadSize);
      assert frame[..] == SingleFrame(cfg, payload[..payloadSize]);
      SendFrame(now, frame, sendOk);
    }

    method SendFirstFrame(now: int, sendOk: bool)
      requires Valid() && SINGLE_DATA < payloadSize
      modifies this
      ensures Valid()
      ensures Value() == if sendOk
        then Transmit(old(Value()), now, FirstFrame(old(Value()).payload)).(
               offset := FIRST_DATA, sequence := 1, waitFrames := 0)
        else Logged(old(Value()), Refused(now))
    {
      var frame := BlankFrame();
      frame[0] := 0x10 + payloadSize / 256;
      frame[1] := payloadSize % 256;
      CopyPayload(frame, 2, 0, FIRST_DATA);
      assert frame[..] == FirstFrame(payload[..payloadSize]);
      SendFrame(now, frame, sendOk);
      if sendOk {
        payloadOffset := FIRST_DATA;
        sequenceNumber := 1;
        waitFrames := 0;
      }
    }

    method IdleEvent(now: int, sendOk: bool)
      requires Valid() && 1 <= payloadSize
      modifies this
      ensures Valid() && Value() == IdleStart(cfg, old(Value()), now, sendOk)
    {
      if payloadSize <= SINGLE_DATA {
        SendSingleFrame(now, sendOk);
        Finish(if sendOk then Success else SendError);
        return;
      }
      SendFirstFrame(now, sendOk);
      if !sendOk {
        Finish(SendError);
        return;
      }
      nextDeadlineUs := now + cfg.timeoutUs;
      leaf := WaitFlowControl;
    }

    method WaitFlowControlTick(now: int)
      requires Valid()
      modifies this
      ensures Valid() && Value() == WaitTick(old(Value()), now)
    {
      if now >= nextDeadlineUs {
        log := log + [Expired(now)];
        Finish(Timeout);
        leaf := Idle;
      }
    }

    method Continue(now: int, size: Byte, separationUs: nat)
      requires Valid()
      modifies this
      ensures Valid() && Value() == IsoTp.Continue(old(Value()), now, size, separationUs)
    {
      blockSize := size;
      blockSent := 0;
      waitFrames := 0;
      separationTimeUs := separationUs;
      nextDeadlineUs := now;
      leaf := SendConsecutive;
    }

    method CountWait(now: int)
      requires Valid()
      modifies this
      ensures Valid() && Value() == IsoTp.CountWait(cfg, old(Value()), now)
    {
      waitFrames := (waitFrames + 1) % 256;
      if waitFrames > cfg.maxWaitFrames {
        Finish(Timeout);
        leaf := Idle;
      } else {
        nextDeadlineUs := now + cfg.timeoutUs;
      }
    }

    method WaitFlowControlRx(now: int, f: RxFrame)
      requires Valid() && (f.dlc >= 3 ==> |f.data| >= 3)
      modifies this
      ensures Valid() && Value() == WaitRx(cfg, old(Value()), now, f)
    {
      hide DecodeSeparationUs, IsoTp.Continue, IsoTp.CountWait;
      if !f.onChannel {
        return;
      }
      log := log + [Received(now, f)];
      if f.dlc < 3 || f.data[0] / 16 != 3 {
        Finish(ProtocolError);
        leaf := Idle;
        return;
      }
      match f.data[0] % 16 {
        case 0 => Continue(now, f.data[1], DecodeSeparationUs(f.data[2]));
        case 1 => CountWait(now);
        case 2 =>
          Finish(Overflow);
          leaf := Idle;
        case _ =>
          Finish(ProtocolError);
          leaf := Idle;
      }
    }

    method BuildConsecutive(frameSize: nat) returns (frame: array<Byte>)
      requires Valid() && frameSize <= CONSECUTIVE_DATA && payloadOffset + frameSize <= payloadSize
      requires sequenceNumber < 16
      ensures fresh(frame)
      ensures frame[..] == ConsecutiveFrame(cfg, sequenceNumber,
                             Value().payload[payloadOffset..payloadOffset + frameSize])
    {
      frame := BlankFrame();
      frame[0] := 0x20 + sequenceNumber;
      CopyPayload(frame, 1, payloadOffset, frameSize);
      ghost var chunk := payload[..payloadSize][payloadOffset..payloadOffset + frameSize];
      assert payload[payloadOffset..payloadOffset + frameSize] == chunk;
      assert frame[..] == [0x20 + sequenceNumber] + chunk + frame[1 + frameSize..];
      assert frame[..] == ConsecutiveFrame(cfg, sequenceNumber, chunk);
    }

    method SendConsecutiveTick(now: int, sendOk: bool)
      requires Valid() && payloadOffset <= payloadSize && sequenceNumber < 16
      modifies this
      ensures Valid() && Value() == SendTick(cfg, old(Value()), now, sendOk)
    {
      hide ConsecutiveFrame, IsoTp.Advance, Counted;
      if now < nextDeadlineUs {
        return;
      }
      var remaining := payloadSize - payloadOffset;
      var frameSize := if remaining < CONSECUTIVE_DATA then remaining else CONSECUTIVE_DATA;
      var frame := BuildConsecutive(frameSize);
      SendFrame(now, frame, sendOk);
      if !sendOk {
        Finish(SendError);
        leaf := Idle;
        return;
      }
      CountFrame(frameSize);
      Advance(now);
    }

    method CountFrame(frameSize: nat)
      requires Valid()
      modifies this`payloadOffset, this`sequenceNumber, this`blockSent
      ensures Value() == Counted(old(Value()), frameSize)
    {
      payloadOffset := payloadOffset + frameSize;
      sequenceNumber := (sequenceNumber + 1) % 16;
      blockSent := (blockSent + 1) % 256;
    }

    method Advance(now: int)
      requires Valid()
      modifies this
      ensures Valid() && Value() == IsoTp.Advance(cfg, old(Value()), now)
    {
      if payloadOffset >= payloadSize {
        Finish(Success);
        leaf := Idle;
      } else if blockSize != 0 && blockSent >= blockSize {
        waitFrames := 0;
        nextDeadlineUs := now + cfg.timeoutUs;
        leaf := WaitFlowControl;
      } else {
        nextDeadlineUs := now + separationTimeUs;
      }
    }

    // -------------------------------------------------------------- public operations

    method Store(data: seq<Byte>)
      requires Valid() && |data| <= MAX_PAYLOAD
      modifies payload
      ensures payload[..|data|] == data
    {
      var i := 0;
      while i < |data|
        invariant 0 <= i <= |data| && payload[..i] == data[..i]
      {
        payload[i] := data[i];
        i := i + 1;
      }
    }

    /** `isotp_tx_start` under the request lock, up to the store that publishes the start. */
    method Publish(data: seq<Byte>) returns (accepted: bool)
      requires Valid() && !owed
      modifies this, payload
      ensures Valid() && Value() == Request(old(Value()), data)
      ensures accepted <==> data != [] && |data| <= 4095 && !old(busy)
      ensures owed <==> accepted
    {
      if data == [] || |data| > MAX_PAYLOAD || busy {
        return false;
      }
      Store(data);
      payloadSize := |data|;
      payloadOffset := 0;
      result := InProgress;
      busy := true;
      startPending := true;
      owed, log := true, [];
      return true;
    }

    /** `set_deadline` with the reading the requester took; only then is the lock given back. */
    method WriteDeadline(at: int)
      requires Valid() && owed
      modifies this`nextDeadlineUs, this`owed
      ensures Valid() && Value() == IsoTp.WriteDeadline(old(Value()), at)
    {
      nextDeadlineUs := at;
      owed := false;
    }

    /** `isotp_tx_start` when the worker does not run in between. */
    method Start(data: seq<Byte>, now: int) returns (accepted: bool)
      requires Valid() && !owed
      modifies this, payload
      ensures Valid() && Value() == IsoTp.WriteDeadline(Request(old(Value()), data), now)
      ensures accepted <==> data != [] && |data| <= 4095 && !old(busy)
    {
      accepted := Publish(data);
      if accepted {
        WriteDeadline(now);
      }
    }

    /** `isotp_tx_tick`. */
    method Tick(now: int, sendOk: bool)
      requires Valid() && WellTyped(Value())
      modifies this
      ensures Valid() && Value() == Work(cfg, old(Value()), now, sendOk)
    {
      if startPending {
        startPending := false;
        if leaf.Idle? {
          IdleEvent(now, sendOk);
        }
        return;
      }
      match leaf {
        case Idle =>
        case WaitFlowControl => WaitFlowControlTick(now);
        case SendConsecutive => SendConsecutiveTick(now, sendOk);
      }
    }

    /** `isotp_tx_rx`: claims exactly the frames of the channel while a transfer is active. */
    method Rx(now: int, f: RxFrame) returns (claimed: bool)
      requires Valid() && (f.dlc >= 3 ==> |f.data| >= 3)
      modifies this
      ensures Valid() && Value() == Receive(cfg, old(Value()), now, f)
      ensures claimed <==> old(busy) && f.onChannel
    {
      if !busy || !f.onChannel {
        return false;
      }
      if leaf.WaitFlowControl? {
        WaitFlowControlRx(now, f);
      }
      return true;
    }
  }
}
