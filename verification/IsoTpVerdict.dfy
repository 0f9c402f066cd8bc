/** What a transfer comes to and what it puts on the wire, read from the frames sent and received alone:
    the result that the machine reports is the one its history shows, and every frame it sends is, byte
    for byte, the next one of the payload's segmentation. */
module IsoTpVerdict {
  import opened Wrappers
  import opened IsoTp
  import opened IsoTpLaws

  // ---------------------------------------------------------------- the result

  /** How many frames of a history's end asked to hold, one after another. */
  function Holds(log: seq<Event>): nat
    decreases |log|
  {
    if log == [] then 0 else
      var e := log[|log| - 1];
      if e.Received? && ReadFlow(e.f).Hold? then Holds(log[..|log| - 1]) + 1 else 0
  }

  /** The result that a history shows: the whole payload delivered is success; otherwise the last thing
      that happened decides. The limit on wait frames is compared with a counter of eight bits. */
  function ResultOf(cfg: Config, payload: seq<Byte>, log: seq<Event>): Result {
    if Heard(log) == Delivered(payload) then Success
    else if log == [] then InProgress
    else
      match log[|log| - 1]
      case Sent(_, _) => InProgress
      case Refused(_) => SendError
      case Expired(_) => Timeout
      case Received(_, f) =>
        match ReadFlow(f)
        case Go(_, _) => InProgress
        case Hold => if cfg.maxWaitFrames < Holds(log) % 256 then Timeout else InProgress
        case NoRoom => Overflow
        case NotFlow => ProtocolError
  }

  /** The reported result is that of the history, once anything was requested; while waiting, the
      counter is what the history shows. */
  ghost predicate Judged(cfg: Config, tx: Tx) {
    && (tx.result == NoResult ==> tx.leaf.Idle? && !tx.startPending && tx.log == [] && tx.payload == [])
    && (tx.result != NoResult ==> tx.result == ResultOf(cfg, tx.payload, tx.log))
    && (tx.leaf.WaitFlowControl? ==> tx.waitFrames == Holds(tx.log) % 256)
  }

  lemma ResultGrows(cfg: Config, payload: seq<Byte>, log: seq<Event>, e: Event)
    ensures var l := log + [e];
      ResultOf(cfg, payload, l)
      == if Heard(l) == Delivered(payload) then Success
         else match e
              case Sent(_, _) => InProgress
              case Refused(_) => SendError
              case Expired(_) => Timeout
              case Received(_, f) =>
                match ReadFlow(f)
                case Go(_, _) => InProgress
                case Hold => if cfg.maxWaitFrames < Holds(l) % 256 then Timeout else InProgress
                case NoRoom => Overflow
                case NotFlow => ProtocolError
    ensures Holds(log + [e]) == if e.Received? && ReadFlow(e.f).Hold? then Holds(log) + 1 else 0
  {
    hide Heard, ReadFlow;
    Grow(log, e);
  }

  lemma OpenIsUndelivered(cfg: Config, tx: Tx)
    requires Good(cfg, tx) && !tx.leaf.Idle?
    ensures Heard(tx.log) != Delivered(tx.payload) && tx.result == InProgress
  {
    hide Heard, Permitted;
  }

  /** A history of one event. */
  lemma FirstEventShows(cfg: Config, payload: seq<Byte>, now: int, f: seq<Byte>)
    requires payload != [] && f != [] && f[0] / 16 != 2
    ensures ResultOf(cfg, payload, [Refused(now)]) == SendError
    ensures ResultOf(cfg, payload, [Sent(now, f)])
         == if Hear(Listening, f) == Delivered(payload) then Success else InProgress
    ensures Holds([Sent(now, f)]) == 0
  {
    hide Heard, Hear, ResultOf, Holds, ReadFlow;
    assert Heard([]) == Listening by { NothingHeard(); }
    PauseLogged([], Refused(now));
    FirstLogged(now, f);
    assert [] + [Refused(now)] == [Refused(now)] && [] + [Sent(now, f)] == [Sent(now, f)];
    ResultGrows(cfg, payload, [], Refused(now));
    ResultGrows(cfg, payload, [], Sent(now, f));
  }

  lemma NothingHeard()
    ensures Heard([]) == Listening
  {
  }

  lemma StartIsJudged(cfg: Config, tx: Tx, now: int, sendOk: bool)
    requires Good(cfg, tx) && tx.startPending
    ensures SizeOk(tx) && Judged(cfg, IdleStart(cfg, tx.(startPending := false), now, sendOk))
  {
    hide Heard, Hear, Permitted, Good, ResultOf, Holds, SingleFrame, FirstFrame, ReadFlow;
    PendingStart(cfg, tx);
    assert [] + [Refused(now)] == [Refused(now)];
    if |tx.payload| <= SINGLE_DATA {
      var f := SingleFrame(cfg, tx.payload);
      HearSingle(cfg, tx.payload);
      FirstEventShows(cfg, tx.payload, now, f);
      assert [] + [Sent(now, f)] == [Sent(now, f)];
    } else {
      var f := FirstFrame(tx.payload);
      HearFirst(tx.payload);
      FirstEventShows(cfg, tx.payload, now, f);
      assert [] + [Sent(now, f)] == [Sent(now, f)];
    }
  }

  lemma WaitTickIsJudged(cfg: Config, tx: Tx, now: int)
    requires Good(cfg, tx) && Judged(cfg, tx) && tx.leaf.WaitFlowControl?
    ensures Judged(cfg, WaitTick(tx, now))
  {
    hide Heard, Permitted, Good, ResultOf, Holds, ReadFlow;
    OpenIsUndelivered(cfg, tx);
    PauseLogged(tx.log, Expired(now));
    ResultGrows(cfg, tx.payload, tx.log, Expired(now));
  }

  lemma GoIsJudged(cfg: Config, tx: Tx, now: int, f: RxFrame)
    requires Good(cfg, tx) && Judged(cfg, tx) && tx.leaf.WaitFlowControl? && ReadFlow(f).Go?
    ensures Judged(cfg, Continue(Logged(tx, Received(now, f)), now, ReadFlow(f).blockSize, ReadFlow(f).separationUs))
  {
    hide Heard, Permitted, Good, ResultOf, Holds, ReadFlow;
    OpenIsUndelivered(cfg, tx);
    ResultGrows(cfg, tx.payload, tx.log, Received(now, f));
    ClearanceLogged(tx.log, Received(now, f));
  }

  lemma HoldIsJudged(cfg: Config, tx: Tx, now: int, f: RxFrame)
    requires Good(cfg, tx) && Judged(cfg, tx) && tx.leaf.WaitFlowControl? && ReadFlow(f).Hold?
    ensures Judged(cfg, CountWait(cfg, Logged(tx, Received(now, f)), now))
  {
    hide Heard, Permitted, Good, ResultOf, Holds, ReadFlow;
    OpenIsUndelivered(cfg, tx);
    ResultGrows(cfg, tx.payload, tx.log, Received(now, f));
    PauseLogged(tx.log, Received(now, f));
  }

  lemma AbortIsJudged(cfg: Config, tx: Tx, now: int, f: RxFrame, r: Result)
    requires Good(cfg, tx) && Judged(cfg, tx) && tx.leaf.WaitFlowControl?
    requires (ReadFlow(f).NoRoom? && r == Overflow) || (ReadFlow(f).NotFlow? && r == ProtocolError)
    ensures Judged(cfg, Abort(Logged(tx, Received(now, f)), r))
  {
    hide Heard, Permitted, Good, ResultOf, Holds, ReadFlow;
    OpenIsUndelivered(cfg, tx);
    ResultGrows(cfg, tx.payload, tx.log, Received(now, f));
    PauseLogged(tx.log, Received(now, f));
  }

  lemma WaitRxIsJudged(cfg: Config, tx: Tx, now: int, f: RxFrame)
    requires Good(cfg, tx) && Judged(cfg, tx) && tx.leaf.WaitFlowControl? && (f.dlc >= 3 ==> |f.data| >= 3)
    ensures Judged(cfg, WaitRx(cfg, tx, now, f))
  {
    hide *;
    if f.onChannel {
      WaitRxReads(cfg, tx, now, f);
      match ReadFlow(f)
      case Go(_, _) => GoIsJudged(cfg, tx, now, f);
      case Hold => HoldIsJudged(cfg, tx, now, f);
      case NoRoom => AbortIsJudged(cfg, tx, now, f, Overflow);
      case NotFlow => AbortIsJudged(cfg, tx, now, f, ProtocolError);
    } else {
      OffChannel(cfg, tx, now, f);
    }
  }

  lemma SendTickIsJudged(cfg: Config, tx: Tx, now: int, sendOk: bool)
    requires Good(cfg, tx) && Judged(cfg, tx) && tx.leaf.SendConsecutive?
    ensures WellTyped(tx) && Judged(cfg, SendTick(cfg, tx, now, sendOk))
  {
    hide Heard, Permitted, Good, ResultOf, Holds, ReadFlow, ConsecutiveFrame, Governing, InBlock, ConsecutiveCount;
    assert WellTyped(tx) by { OpenIsUnderWay(cfg, tx); }
    OpenIsUndelivered(cfg, tx);
    PauseLogged(tx.log, Refused(now));
    ResultGrows(cfg, tx.payload, tx.log, Refused(now));
    if tx.deadline <= now && sendOk {
      SendingIsJustSent(cfg, tx, now);
      var n := ChunkSize(tx);
      var f := ConsecutiveFrame(cfg, tx.sequence, tx.payload[tx.offset..tx.offset + n]);
      ResultGrows(cfg, tx.payload, tx.log, Sent(now, f));
    }
  }

  lemma StepKeepsJudged(cfg: Config, tx: Tx, i: Input)
    requires Good(cfg, tx) && Judged(cfg, tx) && InputOk(i)
    ensures WellTyped(tx) && Judged(cfg, Step(cfg, tx, i))
  {
    hide Good, ResultOf, Holds, IdleStart, WaitRx, SendTick, WaitTick, Heard;
    assert WellTyped(tx) by { TypedAndFresh(cfg, tx); }
    TypedAndFresh(cfg, tx);
    match i
    case StartRequest(payload) => NothingYet(cfg, payload);
    case DeadlineWritten(_) =>
    case DeadlineLost =>
    case Tick(now, sendOk) =>
      if tx.startPending {
        StartIsJudged(cfg, tx, now, sendOk);
      } else if tx.leaf.WaitFlowControl? {
        WaitTickIsJudged(cfg, tx, now);
      } else if tx.leaf.SendConsecutive? {
        SendTickIsJudged(cfg, tx, now, sendOk);
      }
    case Frame(now, f) =>
      if tx.leaf.WaitFlowControl? {
        WaitRxIsJudged(cfg, tx, now, f);
      }
  }

  lemma TypedAndFresh(cfg: Config, tx: Tx)
    requires Good(cfg, tx)
    ensures WellTyped(tx) && (tx.startPending ==> tx.leaf.Idle?) && (!tx.leaf.Idle? ==> tx.busy)
  {
    hide Heard, Permitted;
  }

  lemma NothingYet(cfg: Config, payload: seq<Byte>)
    ensures ResultOf(cfg, payload, []) == InProgress && Holds([]) == 0
  {
  }

  lemma {:induction false} RunKeepsJudged(cfg: Config, tx: Tx, ins: seq<Input>)
    requires Good(cfg, tx) && Judged(cfg, tx) && forall i :: i in ins ==> InputOk(i)
    ensures Judged(cfg, Run(cfg, tx, ins))
    decreases |ins|
  {
    hide Good, Judged, Step;
    if ins != [] {
      StepKeepsGood(cfg, tx, ins[0]);
      StepKeepsJudged(cfg, tx, ins[0]);
      RunKeepsJudged(cfg, Step(cfg, tx, ins[0]), ins[1..]);
    }
  }

  /** Over every run the result that is reported is the one the frames show: success when the receiver
      has the payload, overflow and protocol error when a received frame said so, a timeout when the
      waiting was given up or held too often, and a send error when the bus refused a frame. */
  lemma ResultFollowsFromFrames(cfg: Config, ins: seq<Input>)
    requires forall i :: i in ins ==> InputOk(i)
    ensures Good(cfg, INITIAL)
    ensures var tx := Run(cfg, INITIAL, ins);
      if tx.result == NoResult then tx.log == [] && tx.payload == []
      else tx.result == ResultOf(cfg, tx.payload, tx.log)
  {
    hide ResultOf;
    InitialIsGood(cfg);
    RunKeepsJudged(cfg, INITIAL, ins);
  }

  // ---------------------------------------------------------------- whose turn it is

  /** Nothing may be sent before the receiver has spoken: it has not yet, or its block is full. */
  predicate BlockDone(log: seq<Event>) {
    var g := Governing(log);
    g.None? || (g.value.blockSize != 0 && InBlock(log) == g.value.blockSize)
  }

  ghost predicate Placed(tx: Tx) {
    tx.leaf.WaitFlowControl? ==> BlockDone(tx.log)
  }

  lemma PauseKeepsTurn(log: seq<Event>, e: Event)
    requires IsPause(e)
    ensures BlockDone(log + [e]) == BlockDone(log)
  {
    hide Governing, InBlock, IsPause;
    PauseLogged(log, e);
  }

  lemma StartIsPlaced(cfg: Config, tx: Tx, now: int, sendOk: bool)
    requires Good(cfg, tx) && tx.startPending
    ensures SizeOk(tx) && Placed(IdleStart(cfg, tx.(startPending := false), now, sendOk))
  {
    hide Good, Governing, InBlock, FirstFrame, SingleFrame, Hear;
    PendingStart(cfg, tx);
    if SINGLE_DATA < |tx.payload| {
      HearFirst(tx.payload);
      FirstLogged(now, FirstFrame(tx.payload));
      assert [] + [Sent(now, FirstFrame(tx.payload))] == [Sent(now, FirstFrame(tx.payload))];
    }
  }

  lemma SendTickIsPlaced(cfg: Config, tx: Tx, now: int, sendOk: bool)
    requires Good(cfg, tx) && tx.leaf.SendConsecutive?
    ensures WellTyped(tx) && Placed(SendTick(cfg, tx, now, sendOk))
  {
    hide Good, Heard, Permitted, ConsecutiveFrame, ConsecutiveCount, Governing, InBlock;
    OpenIsUnderWay(cfg, tx);
    if tx.deadline <= now && sendOk {
      SendingIsJustSent(cfg, tx, now);
    }
  }

  lemma StepKeepsPlaced(cfg: Config, tx: Tx, i: Input)
    requires Good(cfg, tx) && Placed(tx) && InputOk(i)
    ensures WellTyped(tx) && Placed(Step(cfg, tx, i))
  {
    hide Good, BlockDone, IdleStart, WaitRx, SendTick;
    TypedAndFresh(cfg, tx);
    match i
    case StartRequest(_) =>
    case DeadlineWritten(_) =>
    case DeadlineLost =>
    case Tick(now, sendOk) =>
      if tx.startPending {
        StartIsPlaced(cfg, tx, now, sendOk);
      } else if tx.leaf.SendConsecutive? {
        SendTickIsPlaced(cfg, tx, now, sendOk);
      }
    case Frame(now, f) =>
      if tx.leaf.WaitFlowControl? {
        WaitRxIsPlaced(cfg, tx, now, f);
      }
  }

  lemma WaitRxIsPlaced(cfg: Config, tx: Tx, now: int, f: RxFrame)
    requires Placed(tx) && tx.leaf.WaitFlowControl? && (f.dlc >= 3 ==> |f.data| >= 3)
    ensures Placed(WaitRx(cfg, tx, now, f))
  {
    hide BlockDone, WaitRx, ReadFlow;
    if f.onChannel {
      WaitRxReads(cfg, tx, now, f);
      if !ReadFlow(f).Go? {
        PauseKeepsTurn(tx.log, Received(now, f));
      }
    } else {
      OffChannel(cfg, tx, now, f);
    }
  }

  lemma {:induction false} RunKeepsPlaced(cfg: Config, tx: Tx, ins: seq<Input>)
    requires Good(cfg, tx) && Placed(tx) && forall i :: i in ins ==> InputOk(i)
    ensures Placed(Run(cfg, tx, ins))
    decreases |ins|
  {
    hide Good, Placed, Step;
    if ins != [] {
      StepKeepsGood(cfg, tx, ins[0]);
      StepKeepsPlaced(cfg, tx, ins[0]);
      RunKeepsPlaced(cfg, Step(cfg, tx, ins[0]), ins[1..]);
    }
  }

  /** Over every run, an open transfer waits for the receiver exactly when that has not spoken yet or its
      block is full: every block is used up. */
  lemma TurnFollowsFromFrames(cfg: Config, ins: seq<Input>)
    requires forall i :: i in ins ==> InputOk(i)
    ensures Good(cfg, INITIAL)
    ensures var tx := Run(cfg, INITIAL, ins);
      tx.leaf.Idle? || (tx.leaf.WaitFlowControl? <==> BlockDone(tx.log))
  {
    hide Heard, Permitted, Governing, InBlock;
    InitialIsGood(cfg);
    RunKeepsPlaced(cfg, INITIAL, ins);
  }

  // ---------------------------------------------------------------- the wire

  /** The frames sent, in order. */
  function Frames(log: seq<Event>): seq<seq<Byte>>
    decreases |log|
  {
    if log == [] then []
    else if log[|log| - 1].Sent? then Frames(log[..|log| - 1]) + [log[|log| - 1].frame]
    else Frames(log[..|log| - 1])
  }

  /** Byte `j` of frame `k` of a payload's segmentation (ISO 15765-2, section 9.6): a single frame up to
      seven bytes; otherwise six bytes after a length of twelve bits, and then seven bytes a frame after
      a number that counts modulo sixteen. What is left of the last frame is padding. */
  function WireByte(cfg: Config, payload: seq<Byte>, k: nat, j: nat): Byte
    requires |payload| <= 4095 && j < 8
  {
    if |payload| <= 7 then
      (if j == 0 then |payload| else if j - 1 < |payload| then payload[j - 1] else cfg.padding)
    else if k == 0 then
      (if j == 0 then 0x10 + |payload| / 256 else if j == 1 then |payload| % 256 else payload[j - 2])
    else if j == 0 then 0x20 + k % 16
    else if 7 * k + j - 2 < |payload| then payload[7 * k + j - 2]
    else cfg.padding
  }

  function WireFrame(cfg: Config, payload: seq<Byte>, k: nat): seq<Byte>
    requires |payload| <= 4095
  {
    seq(8, j requires 0 <= j < 8 => WireByte(cfg, payload, k, j))
  }

  function FrameCount(payload: seq<Byte>): nat {
    if |payload| <= 7 then 1 else 1 + |payload| / 7
  }

  ghost predicate Segments(cfg: Config, payload: seq<Byte>, frames: seq<seq<Byte>>) {
    && |payload| <= 4095 && |frames| <= FrameCount(payload)
    && forall k :: 0 <= k < |frames| ==> frames[k] == WireFrame(cfg, payload, k)
  }

  ghost predicate Wired(cfg: Config, tx: Tx) {
    && Segments(cfg, tx.payload, Frames(tx.log))
    && (!tx.leaf.Idle? ==> |Frames(tx.log)| == 1 + ConsecutiveCount(tx.log))
    && (tx.result.Success? ==> |Frames(tx.log)| == FrameCount(tx.payload))
  }

  lemma FramesGrow(log: seq<Event>, e: Event)
    ensures Frames(log + [e]) == if e.Sent? then Frames(log) + [e.frame] else Frames(log)
  {
    Grow(log, e);
  }

  lemma SingleOnWire(cfg: Config, payload: seq<Byte>)
    requires 1 <= |payload| <= 7
    ensures SingleFrame(cfg, payload) == WireFrame(cfg, payload, 0)
  {
  }

  lemma FirstOnWire(cfg: Config, payload: seq<Byte>)
    requires 7 < |payload| <= 4095
    ensures FirstFrame(payload) == WireFrame(cfg, payload, 0)
  {
  }

  lemma ConsecutiveOnWire(cfg: Config, payload: seq<Byte>, count: nat, n: nat)
    requires 7 < |payload| <= 4095 && 6 + 7 * count < |payload|
    requires n == if |payload| - (6 + 7 * count) < 7 then |payload| - (6 + 7 * count) else 7
    ensures ConsecutiveFrame(cfg, (count + 1) % 16, payload[6 + 7 * count..6 + 7 * count + n])
         == WireFrame(cfg, payload, count + 1)
  {
    var f := ConsecutiveFrame(cfg, (count + 1) % 16, payload[6 + 7 * count..6 + 7 * count + n]);
    forall j | 0 <= j < 8
      ensures f[j] == WireByte(cfg, payload, count + 1, j)
    {
    }
  }

  lemma OneMoreSegment(cfg: Config, payload: seq<Byte>, frames: seq<seq<Byte>>, f: seq<Byte>)
    requires Segments(cfg, payload, frames) && |frames| < FrameCount(payload) && f == WireFrame(cfg, payload, |frames|)
    ensures Segments(cfg, payload, frames + [f])
  {
    hide WireFrame, FrameCount;
  }

  lemma StartIsWired(cfg: Config, tx: Tx, now: int, sendOk: bool)
    requires Good(cfg, tx) && Wired(cfg, tx) && tx.startPending
    ensures SizeOk(tx) && Wired(cfg, IdleStart(cfg, tx.(startPending := false), now, sendOk))
  {
    hide Heard, Hear, Permitted, Good, SingleFrame, FirstFrame, WireFrame, Frames, ConsecutiveCount;
    PendingStart(cfg, tx);
    assert Frames([]) == [] by { NoFrames(); }
    FramesGrow([], Refused(now));
    if |tx.payload| <= SINGLE_DATA {
      SingleOnWire(cfg, tx.payload);
      FramesGrow([], Sent(now, SingleFrame(cfg, tx.payload)));
    } else {
      var f := FirstFrame(tx.payload);
      FirstOnWire(cfg, tx.payload);
      HearFirst(tx.payload);
      FirstLogged(now, f);
      FramesGrow([], Sent(now, f));
      assert [] + [Sent(now, f)] == [Sent(now, f)];
    }
  }

  lemma NoFrames()
    ensures Frames([]) == []
  {
  }

  lemma PauseIsWired(cfg: Config, tx: Tx, e: Event)
    requires Wired(cfg, tx) && !tx.leaf.Idle? && (IsPause(e) || IsClearance(e)) && tx.result != Success
    ensures Wired(cfg, Logged(tx, e))
  {
    hide WireFrame, Frames, ConsecutiveCount, Segments, ReadFlow;
    FramesGrow(tx.log, e);
    if IsPause(e) {
      PauseLogged(tx.log, e);
    } else {
      ClearanceLogged(tx.log, e);
    }
  }

  lemma SendTickIsWired(cfg: Config, tx: Tx, now: int, sendOk: bool)
    requires Good(cfg, tx) && Wired(cfg, tx) && tx.leaf.SendConsecutive?
    ensures WellTyped(tx) && Wired(cfg, SendTick(cfg, tx, now, sendOk))
  {
    hide Heard, Permitted, Good, ConsecutiveFrame, WireFrame, Frames, ConsecutiveCount, Segments, Governing, InBlock;
    OpenIsUnderWay(cfg, tx);
    OpenIsUndelivered(cfg, tx);
    PauseIsWired(cfg, tx, Refused(now));
    if tx.deadline <= now && sendOk {
      var n := ChunkSize(tx);
      var f := ConsecutiveFrame(cfg, tx.sequence, tx.payload[tx.offset..tx.offset + n]);
      ConsecutiveOnWire(cfg, tx.payload, ConsecutiveCount(tx.log), n);
      SendingIsJustSent(cfg, tx, now);
      OneMoreFrame(cfg, tx, now, n, f);
      FramesGrow(tx.log, Sent(now, f));
      OneMoreSegment(cfg, tx.payload, Frames(tx.log), f);
    }
  }

  lemma WaitIsWired(cfg: Config, tx: Tx, now: int)
    requires Good(cfg, tx) && Wired(cfg, tx) && tx.leaf.WaitFlowControl?
    ensures Wired(cfg, WaitTick(tx, now))
  {
    hide Good, WireFrame, Frames, ConsecutiveCount, Segments, ReadFlow;
    OpenIsUndelivered(cfg, tx);
    PauseIsWired(cfg, tx, Expired(now));
  }

  lemma WaitRxIsWired(cfg: Config, tx: Tx, now: int, f: RxFrame)
    requires Good(cfg, tx) && Wired(cfg, tx) && tx.leaf.WaitFlowControl? && (f.dlc >= 3 ==> |f.data| >= 3)
    ensures Wired(cfg, WaitRx(cfg, tx, now, f))
  {
    hide Good, WireFrame, Frames, ConsecutiveCount, Segments, ReadFlow, WaitRx;
    OpenIsUndelivered(cfg, tx);
    PauseIsWired(cfg, tx, Received(now, f));
    if f.onChannel {
      WaitRxReads(cfg, tx, now, f);
    } else {
      OffChannel(cfg, tx, now, f);
    }
  }

  lemma StepKeepsWired(cfg: Config, tx: Tx, i: Input)
    requires Good(cfg, tx) && Wired(cfg, tx) && InputOk(i)
    ensures WellTyped(tx) && Wired(cfg, Step(cfg, tx, i))
  {
    hide Good, IdleStart, WaitRx, SendTick, WaitTick, WireFrame, Frames, ConsecutiveCount, Segments;
    TypedAndFresh(cfg, tx);
    match i
    case StartRequest(payload) => NothingSent(cfg, payload);
    case DeadlineWritten(_) =>
    case DeadlineLost =>
    case Tick(now, sendOk) =>
      if tx.startPending {
        StartIsWired(cfg, tx, now, sendOk);
      } else if tx.leaf.WaitFlowControl? {
        WaitIsWired(cfg, tx, now);
      } else if tx.leaf.SendConsecutive? {
        SendTickIsWired(cfg, tx, now, sendOk);
      }
    case Frame(now, f) =>
      if tx.leaf.WaitFlowControl? {
        WaitRxIsWired(cfg, tx, now, f);
      }
  }

  lemma NothingSent(cfg: Config, payload: seq<Byte>)
    ensures |payload| <= MAX_PAYLOAD ==> Segments(cfg, payload, Frames([]))
  {
  }

  lemma {:induction false} RunKeepsWired(cfg: Config, tx: Tx, ins: seq<Input>)
    requires Good(cfg, tx) && Wired(cfg, tx) && forall i :: i in ins ==> InputOk(i)
    ensures Wired(cfg, Run(cfg, tx, ins))
    decreases |ins|
  {
    hide Good, Wired, Step;
    if ins != [] {
      StepKeepsGood(cfg, tx, ins[0]);
      StepKeepsWired(cfg, tx, ins[0]);
      RunKeepsWired(cfg, Step(cfg, tx, ins[0]), ins[1..]);
    }
  }

  /** Over every run the frames sent are, byte for byte and in order, the first frames of the payload's
      segmentation, and all of them when the transfer succeeds. */
  lemma FramesOnTheWire(cfg: Config, ins: seq<Input>)
    requires forall i :: i in ins ==> InputOk(i)
    ensures Good(cfg, INITIAL)
    ensures var tx := Run(cfg, INITIAL, ins);
      && |tx.payload| <= 4095 && |Frames(tx.log)| <= FrameCount(tx.payload)
      && (forall k :: 0 <= k < |Frames(tx.log)| ==> Frames(tx.log)[k] == WireFrame(cfg, tx.payload, k))
      && (tx.result.Success? ==> |Frames(tx.log)| == FrameCount(tx.payload))
  {
    hide WireFrame;
    InitialIsGood(cfg);
    NoFrames();
    RunKeepsWired(cfg, INITIAL, ins);
  }
}
