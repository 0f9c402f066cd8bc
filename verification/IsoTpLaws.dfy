/** Correctness of the transmitter over whole runs, whenever requesters write their deadlines:
    against the reference receiver, against the permissions it was given, and in the number of steps
    a transfer can take. When its frames go out is the subject of module IsoTpTiming. */
module IsoTpLaws {
  import opened Wrappers
  import opened IsoTp

  // ---------------------------------------------------------------- the invariant

  /** The flow control in force is the one the fields hold, and its block has room. */
  ghost predicate InForce(tx: Tx) {
    var g := Governing(tx.log);
    && g.Some? && g.value.blockSize == tx.blockSize && g.value.separationUs == tx.separationUs
    && (tx.blockSize != 0 ==> tx.blockSent == InBlock(tx.log) < tx.blockSize)
  }

  /** A segmented transfer under way: the receiver holds exactly what has been sent. */
  ghost predicate UnderWay(cfg: Config, tx: Tx) {
    && tx.busy && !tx.startPending && tx.result.InProgress?
    && SINGLE_DATA < |tx.payload| <= MAX_PAYLOAD && FIRST_DATA <= tx.offset < |tx.payload|
    && Heard(tx.log) == Receiving(|tx.payload|, tx.payload[..tx.offset], tx.sequence)
    && tx.sequence == (ConsecutiveCount(tx.log) + 1) % 16
    && tx.offset == FIRST_DATA + CONSECUTIVE_DATA * ConsecutiveCount(tx.log)
    && (tx.leaf.WaitFlowControl? ==> tx.waitFrames <= cfg.maxWaitFrames)
    && (tx.leaf.SendConsecutive? ==> InForce(tx))
  }

  /** Nothing under way: the verdict of the last transfer agrees with what its receiver got. */
  ghost predicate Settled(tx: Tx) {
    && !tx.busy && !tx.result.InProgress?
    && (tx.result.Success? <==> Heard(tx.log) == Delivered(tx.payload))
  }

  ghost predicate Good(cfg: Config, tx: Tx) {
    && tx.offset <= |tx.payload| && tx.sequence < 16
    && Permitted(tx.log)
    && Heard(tx.log) != Broken && DataOf(Heard(tx.log)) <= tx.payload
    && (if tx.startPending then
          tx.leaf.Idle? && tx.busy && tx.result.InProgress? && SizeOk(tx) && tx.log == [] && tx.offset == 0
        else if tx.leaf.Idle? then Settled(tx)
        else UnderWay(cfg, tx))
  }

  // ---------------------------------------------------------------- frames and the receiver

  lemma Grow(log: seq<Event>, e: Event)
    ensures (log + [e])[..|log + [e]| - 1] == log && (log + [e])[|log + [e]| - 1] == e
  {
  }

  lemma HearSingle(cfg: Config, payload: seq<Byte>)
    requires 1 <= |payload| <= SINGLE_DATA
    ensures Hear(Listening, SingleFrame(cfg, payload)) == Delivered(payload)
    ensures |SingleFrame(cfg, payload)| == 8 && SingleFrame(cfg, payload)[0] / 16 == 0
  {
    var f := SingleFrame(cfg, payload);
    assert f[1..1 + |payload|] == payload;
  }

  lemma HearFirst(payload: seq<Byte>)
    requires SINGLE_DATA < |payload| <= MAX_PAYLOAD
    ensures Hear(Listening, FirstFrame(payload)) == Receiving(|payload|, payload[..FIRST_DATA], 1)
    ensures |FirstFrame(payload)| == 8 && FirstFrame(payload)[0] / 16 == 1
  {
    var f := FirstFrame(payload);
    assert f[2..] == payload[..FIRST_DATA];
  }

  lemma HearConsecutive(cfg: Config, payload: seq<Byte>, offset: nat, sequence: nat, n: nat)
    requires offset < |payload| && sequence < 16
    requires n == if |payload| - offset < CONSECUTIVE_DATA then |payload| - offset else CONSECUTIVE_DATA
    ensures var f := ConsecutiveFrame(cfg, sequence, payload[offset..offset + n]);
      && |f| == 8 && f[0] / 16 == 2 && f[0] % 16 == sequence
      && Hear(Receiving(|payload|, payload[..offset], sequence), f)
         == if offset + n == |payload| then Delivered(payload)
            else Receiving(|payload|, payload[..offset + n], (sequence + 1) % 16)
  {
    var chunk := payload[offset..offset + n];
    var f := ConsecutiveFrame(cfg, sequence, chunk);
    assert f[1..1 + n] == chunk;
    assert payload[..offset] + chunk == payload[..offset + n];
    if offset + n == |payload| {
      assert payload[..offset + n] == payload;
    } else {
      assert f[1..] == chunk;
    }
  }

  // ---------------------------------------------------------------- every operation keeps it

  /** A transfer's first frame, which is no consecutive one. */
  lemma FirstLogged(at: int, f: seq<Byte>)
    requires f != [] && f[0] / 16 != 2
    ensures var l := [Sent(at, f)];
      && Permitted(l) && Heard(l) == Hear(Listening, f) && ConsecutiveCount(l) == 0 && Governing(l).None?
  {
    hide Hear;
    Grow([], Sent(at, f));
    assert [] + [Sent(at, f)] == [Sent(at, f)];
  }

  lemma PendingStart(cfg: Config, tx: Tx)
    requires Good(cfg, tx) && tx.startPending
    ensures tx.leaf.Idle? && tx.busy && tx.result.InProgress? && SizeOk(tx) && tx.log == [] && tx.offset == 0
    ensures tx.sequence < 16 && Permitted([]) && Heard([]) == Listening
  {
  }

  lemma StartKeeps(cfg: Config, tx: Tx, now: int, sendOk: bool)
    requires Good(cfg, tx) && tx.startPending
    ensures SizeOk(tx) && Good(cfg, IdleStart(cfg, tx.(startPending := false), now, sendOk))
  {
    hide Hear, Heard, Permitted, Governing, InBlock, ConsecutiveCount, FirstFrame, SingleFrame;
    PendingStart(cfg, tx);
    PauseLogged([], Refused(now));
    assert [] + [Refused(now)] == [Refused(now)];
    if |tx.payload| <= SINGLE_DATA {
      var f := SingleFrame(cfg, tx.payload);
      HearSingle(cfg, tx.payload);
      FirstLogged(now, f);
      assert [] + [Sent(now, f)] == [Sent(now, f)];
    } else {
      var f := FirstFrame(tx.payload);
      HearFirst(tx.payload);
      FirstLogged(now, f);
      assert [] + [Sent(now, f)] == [Sent(now, f)];
    }
  }

  /** Anything that neither sends nor permits to. */
  predicate IsPause(e: Event) {
    !e.Sent? && !IsClearance(e)
  }

  lemma PauseLogged(log: seq<Event>, e: Event)
    requires IsPause(e)
    ensures var l := log + [e];
      && (Permitted(log) ==> Permitted(l)) && Heard(l) == Heard(log) && Governing(l) == Governing(log)
      && InBlock(l) == InBlock(log) && ConsecutiveCount(l) == ConsecutiveCount(log) && LastAt(l) == e.at
  {
    hide ReadFlow;
    Grow(log, e);
  }

  lemma ClearanceLogged(log: seq<Event>, e: Event)
    requires IsClearance(e)
    ensures var l := log + [e];
      && (Permitted(log) ==> Permitted(l)) && Heard(l) == Heard(log) && Governing(l) == Some(ClearanceOf(e))
      && InBlock(l) == 0 && ConsecutiveCount(l) == ConsecutiveCount(log) && LastAt(l) == e.at
  {
    hide ReadFlow;
    Grow(log, e);
  }

  lemma PauseKeeps(cfg: Config, tx: Tx, e: Event)
    requires Good(cfg, tx) && !tx.leaf.Idle? && IsPause(e)
    ensures Good(cfg, Logged(tx, e))
  {
    hide Heard, Permitted, Governing, InBlock, ConsecutiveCount, IsPause;
    PauseLogged(tx.log, e);
  }

  lemma AbortKeeps(cfg: Config, tx: Tx, r: Result)
    requires Good(cfg, tx) && !tx.leaf.Idle? && r != Success && r != InProgress
    ensures Good(cfg, Abort(tx, r))
  {
    hide Heard, Permitted;
  }

  lemma WaitTickKeeps(cfg: Config, tx: Tx, now: int)
    requires Good(cfg, tx) && tx.leaf.WaitFlowControl?
    ensures Good(cfg, WaitTick(tx, now))
  {
    hide Good, Abort;
    PauseKeeps(cfg, tx, Expired(now));
    AbortKeeps(cfg, Logged(tx, Expired(now)), Timeout);
  }

  lemma {:induction false} SeparationIs(b: Byte)
    ensures DecodeSeparationUs(b) == SeparationOf(b)
    decreases b
  {
    if 0 < b <= 0x7F || 0xF2 <= b <= 0xF9 {
      SeparationIs(b - 1);
    }
  }

  /** The handler does what the frame says. */
  lemma WaitRxReads(cfg: Config, tx: Tx, now: int, f: RxFrame)
    requires f.onChannel && (f.dlc >= 3 ==> |f.data| >= 3)
    ensures var heard := Logged(tx, Received(now, f));
      WaitRx(cfg, tx, now, f)
      == match ReadFlow(f)
         case Go(blockSize, separationUs) => Continue(heard, now, blockSize, separationUs)
         case Hold => CountWait(cfg, heard, now)
         case NoRoom => Abort(heard, Overflow)
         case NotFlow => Abort(heard, ProtocolError)
  {
    hide DecodeSeparationUs, SeparationOf, Continue, CountWait, Abort;
    if f.dlc >= 3 {
      SeparationIs(f.data[2]);
    }
  }

  lemma ContinueKeeps(cfg: Config, tx: Tx, now: int, f: RxFrame)
    requires Good(cfg, tx) && tx.leaf.WaitFlowControl? && ReadFlow(f).Go?
    ensures Good(cfg, Continue(Logged(tx, Received(now, f)), now, ReadFlow(f).blockSize, ReadFlow(f).separationUs))
  {
    hide Heard, Permitted, Governing, InBlock, ConsecutiveCount, ReadFlow;
    ClearanceLogged(tx.log, Received(now, f));
  }

  lemma CountWaitKeeps(cfg: Config, tx: Tx, now: int)
    requires Good(cfg, tx) && tx.leaf.WaitFlowControl?
    ensures Good(cfg, CountWait(cfg, tx, now))
  {
    hide Heard, Permitted, Governing, InBlock, ConsecutiveCount;
  }

  lemma WaitRxKeeps(cfg: Config, tx: Tx, now: int, f: RxFrame)
    requires Good(cfg, tx) && tx.leaf.WaitFlowControl? && (f.dlc >= 3 ==> |f.data| >= 3)
    ensures Good(cfg, WaitRx(cfg, tx, now, f))
  {
    hide Good, ReadFlow, WaitRx, Continue, CountWait, Abort;
    if f.onChannel {
      WaitRxReads(cfg, tx, now, f);
      if ReadFlow(f).Go? {
        ContinueKeeps(cfg, tx, now, f);
      } else {
        var heard := Logged(tx, Received(now, f));
        PauseKeeps(cfg, tx, Received(now, f));
        CountWaitKeeps(cfg, heard, now);
        AbortKeeps(cfg, heard, ProtocolError);
        AbortKeeps(cfg, heard, Overflow);
      }
    } else {
      assert WaitRx(cfg, tx, now, f) == tx by { OffChannel(cfg, tx, now, f); }
    }
  }

  lemma OffChannel(cfg: Config, tx: Tx, now: int, f: RxFrame)
    requires !f.onChannel && (f.dlc >= 3 ==> |f.data| >= 3)
    ensures WaitRx(cfg, tx, now, f) == tx
  {
  }

  /** Logging a permitted consecutive frame. */
  lemma ConsecutiveLogged(log: seq<Event>, at: int, f: seq<Byte>)
    requires Permitted(log) && IsConsecutive(Sent(at, f)) && Governing(log).Some?
    requires var g := Governing(log).value; g.blockSize == 0 || InBlock(log) < g.blockSize
    requires f[0] % 16 == (ConsecutiveCount(log) + 1) % 16
    ensures var l := log + [Sent(at, f)];
      && Permitted(l) && Heard(l) == Hear(Heard(log), f)
      && Governing(l) == Governing(log) && InBlock(l) == InBlock(log) + 1
      && ConsecutiveCount(l) == ConsecutiveCount(log) + 1 && LastAt(l) == at
  {
    hide Hear;
    Grow(log, Sent(at, f));
  }

  /** A transfer whose consecutive frame is out and counted. */
  ghost predicate JustSent(tx: Tx) {
    var g := Governing(tx.log);
    && tx.leaf.SendConsecutive? && tx.busy && !tx.startPending && tx.result.InProgress? && Permitted(tx.log)
    && SINGLE_DATA < |tx.payload| <= MAX_PAYLOAD && FIRST_DATA <= tx.offset <= |tx.payload|
    && Heard(tx.log) == (if tx.offset == |tx.payload| then Delivered(tx.payload)
                         else Receiving(|tx.payload|, tx.payload[..tx.offset], tx.sequence))
    && tx.sequence == (ConsecutiveCount(tx.log) + 1) % 16
    && (tx.offset < |tx.payload| ==> tx.offset == FIRST_DATA + CONSECUTIVE_DATA * ConsecutiveCount(tx.log))
    && g.Some? && g.value.blockSize == tx.blockSize && g.value.separationUs == tx.separationUs
    && (tx.blockSize != 0 ==> tx.blockSent == InBlock(tx.log) <= tx.blockSize)
  }

  lemma AdvanceKeeps(cfg: Config, tx: Tx, now: int)
    requires JustSent(tx)
    ensures Good(cfg, Advance(cfg, tx, now))
  {
    hide Heard, Permitted, Governing, InBlock, ConsecutiveCount;
  }

  /** The history with one more consecutive frame, in terms of what the transfer counts. */
  lemma OneMoreFrame(cfg: Config, tx: Tx, now: int, n: nat, f: seq<Byte>)
    requires UnderWay(cfg, tx) && Permitted(tx.log) && tx.leaf.SendConsecutive? && tx.sequence < 16
    requires n == ChunkSize(tx) && f == ConsecutiveFrame(cfg, tx.sequence, tx.payload[tx.offset..tx.offset + n])
    ensures var l := tx.log + [Sent(now, f)];
      && Permitted(l) && Governing(l) == Governing(tx.log) && InBlock(l) == InBlock(tx.log) + 1
      && ConsecutiveCount(l) == ConsecutiveCount(tx.log) + 1
      && Heard(l) == (if tx.offset + n == |tx.payload| then Delivered(tx.payload)
                      else Receiving(|tx.payload|, tx.payload[..tx.offset + n], (tx.sequence + 1) % 16))
  {
    hide Hear, ConsecutiveFrame, Heard, Permitted, Governing, InBlock, ConsecutiveCount;
    HearConsecutive(cfg, tx.payload, tx.offset, tx.sequence, n);
    ConsecutiveLogged(tx.log, now, f);
  }

  lemma NextNumber(k: nat)
    ensures ((k + 1) % 16 + 1) % 16 == (k + 1 + 1) % 16
  {
  }

  lemma OpenIsUnderWay(cfg: Config, tx: Tx)
    requires Good(cfg, tx) && !tx.leaf.Idle?
    ensures UnderWay(cfg, tx) && !tx.startPending && Permitted(tx.log) && tx.sequence < 16
  {
  }

  lemma SendingIsJustSent(cfg: Config, tx: Tx, now: int)
    requires Good(cfg, tx) && tx.leaf.SendConsecutive?
    ensures tx.offset < |tx.payload| && tx.sequence < 16
    ensures var n := ChunkSize(tx);
      var f := ConsecutiveFrame(cfg, tx.sequence, tx.payload[tx.offset..tx.offset + n]);
      JustSent(Counted(Transmit(tx, now, f), n))
  {
    hide Good, Hear, ConsecutiveFrame, Heard, Permitted, Governing, InBlock, ConsecutiveCount;
    OpenIsUnderWay(cfg, tx);
    var n := ChunkSize(tx);
    var f := ConsecutiveFrame(cfg, tx.sequence, tx.payload[tx.offset..tx.offset + n]);
    OneMoreFrame(cfg, tx, now, n, f);
    NextNumber(ConsecutiveCount(tx.log));
  }

  lemma SendTickKeeps(cfg: Config, tx: Tx, now: int, sendOk: bool)
    requires Good(cfg, tx) && tx.leaf.SendConsecutive?
    ensures tx.offset <= |tx.payload| && tx.sequence < 16 && Good(cfg, SendTick(cfg, tx, now, sendOk))
  {
    hide Good, Advance, Counted, ConsecutiveFrame, JustSent;
    SendingIsJustSent(cfg, tx, now);
    var n := ChunkSize(tx);
    var f := ConsecutiveFrame(cfg, tx.sequence, tx.payload[tx.offset..tx.offset + n]);
    AdvanceKeeps(cfg, Counted(Transmit(tx, now, f), n), now);
    PauseKeeps(cfg, tx, Refused(now));
    AbortKeeps(cfg, Logged(tx, Refused(now)), SendError);
  }

  lemma StepKeepsGood(cfg: Config, tx: Tx, i: Input)
    requires Good(cfg, tx) && InputOk(i)
    ensures Good(cfg, Step(cfg, tx, i))
  {
    hide Hear, IdleStart, WaitRx, SendTick, WaitTick;
    match i
    case StartRequest(_) =>
    case DeadlineWritten(_) =>
    case DeadlineLost =>
    case Tick(now, sendOk) =>
      if tx.startPending {
        StartKeeps(cfg, tx, now, sendOk);
      } else if tx.leaf.WaitFlowControl? {
        WaitTickKeeps(cfg, tx, now);
      } else if tx.leaf.SendConsecutive? {
        SendTickKeeps(cfg, tx, now, sendOk);
      }
    case Frame(now, f) =>
      if tx.leaf.WaitFlowControl? {
        WaitRxKeeps(cfg, tx, now, f);
      }
  }

  // ---------------------------------------------------------------- whole runs

  function Run(cfg: Config, tx: Tx, ins: seq<Input>): (r: Tx)
    requires Good(cfg, tx) && forall i :: i in ins ==> InputOk(i)
    ensures Good(cfg, r)
    decreases |ins|
  {
    if ins == [] then tx else
      StepKeepsGood(cfg, tx, ins[0]);
      Run(cfg, Step(cfg, tx, ins[0]), ins[1..])
  }

  lemma InitialIsGood(cfg: Config)
    ensures Good(cfg, INITIAL)
  {
  }

  /** For every sequence of requests, late deadlines, worker passes, bus failures and received frames,
      the frames sent so far make the reference receiver hold a prefix of the payload, and the whole
      payload exactly when the transfer reports success; every consecutive frame was permitted. */
  lemma TransfersAreCorrect(cfg: Config, ins: seq<Input>)
    requires forall i :: i in ins ==> InputOk(i)
    ensures Good(cfg, INITIAL)
    ensures var tx := Run(cfg, INITIAL, ins);
      && Heard(tx.log) != Broken
      && DataOf(Heard(tx.log)) <= tx.payload
      && (tx.result.Success? <==> Heard(tx.log) == Delivered(tx.payload))
      && Permitted(tx.log)
  {
    var tx := Run(cfg, INITIAL, ins);
    if tx.startPending {
      assert Heard([]) == Listening;
    }
  }

  // ---------------------------------------------------------------- what permission means

  lemma {:induction false} PermittedPrefix(log: seq<Event>, i: nat)
    requires Permitted(log) && i <= |log|
    ensures Permitted(log[..i])
    decreases |log|
  {
    if i < |log| {
      PermittedPrefix(log[..|log| - 1], i);
      assert log[..|log| - 1][..i] == log[..i];
    } else {
      assert log[..i] == log;
    }
  }

  /** A block never holds more consecutive frames than a nonzero block size allows. */
  lemma BlockBound(log: seq<Event>, i: nat)
    requires Permitted(log) && i < |log| && IsConsecutive(log[i])
    ensures Governing(log[..i + 1]).Some?
    ensures var b := Governing(log[..i + 1]).value.blockSize; b == 0 || InBlock(log[..i + 1]) <= b
  {
    PermittedPrefix(log, i + 1);
    assert log[..i + 1][..i] == log[..i] && log[..i + 1][i] == log[i];
  }

  /** The k-th consecutive frame of a transfer, counting from one, carries k modulo sixteen. */
  lemma SequenceNumbers(log: seq<Event>, i: nat)
    requires Permitted(log) && i < |log| && IsConsecutive(log[i])
    ensures log[i].frame[0] % 16 == ConsecutiveCount(log[..i + 1]) % 16
  {
    PermittedPrefix(log, i + 1);
    assert log[..i + 1][..i] == log[..i] && log[..i + 1][i] == log[i];
  }

  // ---------------------------------------------------------------- bounded progress

  /** A due worker pass, or a frame on the flow-control channel while waiting for one. */
  predicate Effective(tx: Tx, i: Input) {
    match i
    case Tick(now, _) => tx.deadline <= now
    case Frame(_, f) => f.onChannel && tx.leaf.WaitFlowControl?
    case _ => false
  }

  /** Bytes remaining, then the phase, then the wait frames still tolerated. */
  function Measure(cfg: Config, tx: Tx): nat
    requires UnderWay(cfg, tx)
  {
    var remaining := |tx.payload| - tx.offset;
    remaining * (cfg.maxWaitFrames + 3)
      + (if tx.leaf.WaitFlowControl? then 2 + cfg.maxWaitFrames - tx.waitFrames else 1)
  }

  lemma {:induction false} ScaledOrder(a: nat, b: nat, k: nat)
    requires a <= b
    ensures a * k <= b * k
    decreases b - a
  {
    if a < b {
      ScaledOrder(a, b - 1, k);
      assert b * k == (b - 1) * k + k;
    }
  }

  lemma FewerBytes(a: nat, b: nat, k: nat)
    requires a < b
    ensures a * k + k <= b * k
  {
    ScaledOrder(a + 1, b, k);
    assert (a + 1) * k == a * k + k;
  }

  /** A consecutive frame leaves fewer bytes. */
  lemma SendProgresses(cfg: Config, tx: Tx, now: int)
    requires UnderWay(cfg, tx) && tx.leaf.SendConsecutive? && tx.deadline <= now
    requires UnderWay(cfg, SendTick(cfg, tx, now, true))
    ensures Measure(cfg, SendTick(cfg, tx, now, true)) < Measure(cfg, tx)
  {
    hide Heard, Governing, InBlock, ConsecutiveCount, ConsecutiveFrame;
    var r := SendTick(cfg, tx, now, true);
    FewerBytes(|tx.payload| - r.offset, |tx.payload| - tx.offset, cfg.maxWaitFrames + 3);
  }

  /** A flow-control frame moves on to sending or uses up one tolerated wait frame. */
  lemma WaitProgresses(cfg: Config, tx: Tx, now: int, f: RxFrame)
    requires UnderWay(cfg, tx) && tx.leaf.WaitFlowControl? && (f.dlc >= 3 ==> |f.data| >= 3)
    requires cfg.maxWaitFrames < 255 && f.onChannel
    requires !WaitRx(cfg, tx, now, f).leaf.Idle? && UnderWay(cfg, WaitRx(cfg, tx, now, f))
    ensures Measure(cfg, WaitRx(cfg, tx, now, f)) < Measure(cfg, tx)
  {
    hide Heard, Governing, InBlock, ConsecutiveCount;
  }

  /** Every effective step ends the transfer or lowers the measure; no other step raises it. */
  lemma StepProgresses(cfg: Config, tx: Tx, i: Input)
    requires Good(cfg, tx) && !tx.leaf.Idle? && InputOk(i)
    requires cfg.maxWaitFrames < 255
    ensures var r := Step(cfg, tx, i);
      r.leaf.Idle?
      || (UnderWay(cfg, r) && Measure(cfg, r) + (if Effective(tx, i) then 1 else 0) <= Measure(cfg, tx))
  {
    hide Measure, Heard, Permitted, InForce, SendTick, WaitRx;
    StepKeepsGood(cfg, tx, i);
    var r := Step(cfg, tx, i);
    if !r.leaf.Idle? && Effective(tx, i) {
      if i.Frame? {
        WaitProgresses(cfg, tx, i.now, i.f);
      } else if tx.leaf.SendConsecutive? {
        FailedSendEnds(cfg, tx, i.now, i.sendOk);
        SendProgresses(cfg, tx, i.now);
      }
    } else if !r.leaf.Idle? {
      OtherStepsOnlyWriteDeadlines(cfg, tx, i);
      SameMeasure(cfg, tx, r);
    }
  }

  lemma FailedSendEnds(cfg: Config, tx: Tx, now: int, sendOk: bool)
    requires UnderWay(cfg, tx) && tx.leaf.SendConsecutive? && tx.deadline <= now
    requires !SendTick(cfg, tx, now, sendOk).leaf.Idle?
    ensures sendOk
  {
  }

  lemma OtherStepsOnlyWriteDeadlines(cfg: Config, tx: Tx, i: Input)
    requires Good(cfg, tx) && !tx.leaf.Idle? && InputOk(i) && !Effective(tx, i)
    ensures var r := Step(cfg, tx, i); r == tx.(deadline := r.deadline, owed := r.owed)
  {
  }

  lemma SameMeasure(cfg: Config, tx: Tx, r: Tx)
    requires UnderWay(cfg, tx) && r == tx.(deadline := r.deadline, owed := r.owed)
    ensures UnderWay(cfg, r) && Measure(cfg, r) == Measure(cfg, tx)
  {
    hide Heard, Governing, InBlock, ConsecutiveCount;
  }

  /** How many effective steps a run makes before the transfer ends. */
  function EffectiveSteps(cfg: Config, tx: Tx, ins: seq<Input>): nat
    requires Good(cfg, tx) && forall i :: i in ins ==> InputOk(i)
    decreases |ins|
  {
    if ins == [] || tx.leaf.Idle? then 0 else
      StepKeepsGood(cfg, tx, ins[0]);
      (if Effective(tx, ins[0]) then 1 else 0) + EffectiveSteps(cfg, Step(cfg, tx, ins[0]), ins[1..])
  }

  /** With a wait limit below 255 a transfer ends after a bounded number of effective steps. */
  lemma {:induction false} TransferIsBounded(cfg: Config, tx: Tx, ins: seq<Input>)
    requires Good(cfg, tx) && !tx.leaf.Idle? && (forall i :: i in ins ==> InputOk(i))
    requires cfg.maxWaitFrames < 255
    ensures EffectiveSteps(cfg, tx, ins) <= Measure(cfg, tx)
    decreases |ins|
  {
    hide Step, Measure, Heard, Permitted, InForce;
    MeasureIsPositive(cfg, tx);
    if ins != [] {
      var next := Step(cfg, tx, ins[0]);
      StepKeepsGood(cfg, tx, ins[0]);
      StepProgresses(cfg, tx, ins[0]);
      if !next.leaf.Idle? {
        TransferIsBounded(cfg, next, ins[1..]);
      } else {
        assert EffectiveSteps(cfg, next, ins[1..]) == 0;
      }
    }
  }

  lemma MeasureIsPositive(cfg: Config, tx: Tx)
    requires UnderWay(cfg, tx)
    ensures 1 <= Measure(cfg, tx)
  {
    hide Heard, Governing, InBlock, ConsecutiveCount, InForce;
    ScaledOrder(0, |tx.payload| - tx.offset, cfg.maxWaitFrames + 3);
  }

  predicate IsWait(f: RxFrame) {
    f.onChannel && f.dlc >= 3 && |f.data| >= 3 && f.data[0] == 0x31
  }

  /** On an advancing clock the receiver asks to wait, and the worker ticks only before the deadline
      that the wait frame before has set. */
  predicate KeptWaiting(cfg: Config, deadline: int, clock: int, ins: seq<Input>)
    decreases |ins|
  {
    ins == [] ||
    match ins[0]
    case Tick(now, _) => clock <= now < deadline && KeptWaiting(cfg, deadline, now, ins[1..])
    case Frame(now, f) => clock <= now && IsWait(f) && KeptWaiting(cfg, now + cfg.timeoutUs, now, ins[1..])
    case _ => false
  }

  function CountFrames(ins: seq<Input>): nat {
    if ins == [] then 0 else (if ins[0].Frame? then 1 else 0) + CountFrames(ins[1..])
  }

  lemma {:induction false} KeptWaitingIsOk(cfg: Config, deadline: int, clock: int, ins: seq<Input>)
    requires KeptWaiting(cfg, deadline, clock, ins)
    ensures forall i :: i in ins ==> InputOk(i)
    decreases |ins|
  {
    if ins != [] {
      match ins[0]
      case Tick(now, _) => KeptWaitingIsOk(cfg, deadline, now, ins[1..]);
      case Frame(now, f) => KeptWaitingIsOk(cfg, now + cfg.timeoutUs, now, ins[1..]);
      assert ins == [ins[0]] + ins[1..];
    }
  }

  /** The limit 255 is exactly the exception: its eight-bit counter wraps before exceeding it, so
      a receiver can then keep a transfer waiting for as many wait frames as it likes. */
  lemma {:induction false} LimitOf255NeverTriggers(cfg: Config, tx: Tx, clock: int, ins: seq<Input>)
    requires Good(cfg, tx) && tx.leaf.WaitFlowControl? && cfg.maxWaitFrames == 255
    requires KeptWaiting(cfg, tx.deadline, clock, ins)
    ensures forall i :: i in ins ==> InputOk(i)
    ensures EffectiveSteps(cfg, tx, ins) == CountFrames(ins)
    ensures Run(cfg, tx, ins).leaf.WaitFlowControl?
    decreases |ins|
  {
    hide Good, Step;
    KeptWaitingIsOk(cfg, tx.deadline, clock, ins);
    if ins != [] {
      StepKeepsGood(cfg, tx, ins[0]);
      OneMoreWait(cfg, tx, clock, ins[0]);
      LimitOf255NeverTriggers(cfg, Step(cfg, tx, ins[0]), ins[0].now, ins[1..]);
    }
  }

  lemma OneMoreWait(cfg: Config, tx: Tx, clock: int, i: Input)
    requires Good(cfg, tx) && tx.leaf.WaitFlowControl? && cfg.maxWaitFrames == 255
    requires (i.Tick? && i.now < tx.deadline) || (i.Frame? && IsWait(i.f))
    ensures InputOk(i) && WellTyped(tx)
    ensures var r := Step(cfg, tx, i);
      && r.leaf.WaitFlowControl? && (Effective(tx, i) <==> i.Frame?)
      && r.deadline == if i.Frame? then i.now + cfg.timeoutUs else tx.deadline
  {
    hide Heard, Permitted, Governing, InBlock, ConsecutiveCount;
  }

  /** A wait frame every `period`, from `at` on. */
  function WaitFrames(at: int, period: nat, n: nat): seq<Input>
    decreases n
  {
    if n == 0 then [] else [Frame(at, RxFrame(true, 3, [0x31, 0, 0]))] + WaitFrames(at + period, period, n - 1)
  }

  /** There are such receivers for every number of wait frames. */
  lemma {:induction false} AnyNumberOfWaits(cfg: Config, deadline: int, at: int, period: nat, n: nat)
    ensures KeptWaiting(cfg, deadline, at, WaitFrames(at, period, n)) && CountFrames(WaitFrames(at, period, n)) == n
    decreases n
  {
    if n > 0 {
      var ins := WaitFrames(at, period, n);
      assert ins[1..] == WaitFrames(at + period, period, n - 1);
      AnyNumberOfWaits(cfg, at + cfg.timeoutUs, at + period, period, n - 1);
      EarlierClock(cfg, at + cfg.timeoutUs, at, at + period, ins[1..]);
    }
  }

  lemma EarlierClock(cfg: Config, deadline: int, before: int, clock: int, ins: seq<Input>)
    requires KeptWaiting(cfg, deadline, clock, ins) && before <= clock
    ensures KeptWaiting(cfg, deadline, before, ins)
  {
  }
}
