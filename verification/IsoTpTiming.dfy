/** When the transmitter sends and gives up. Its handlers pace a transfer by one deadline, and so does
    the request that starts it: isotp_tx_start publishes the start first and writes its own deadline
    afterwards. The timing the flow control asks for holds exactly when no start is taken in
    between. */
module IsoTpTiming {
  import opened Wrappers
  import opened IsoTp
  import opened IsoTpLaws

  // ---------------------------------------------------------------- the handlers' own deadline

  /** When the leaf has something to do: to give up waiting, or to send the next frame. */
  ghost predicate Own(cfg: Config, tx: Tx) {
    match tx.leaf
    case Idle => tx.deadline == NO_DEADLINE
    case WaitFlowControl => tx.deadline == LastAt(tx.log) + cfg.timeoutUs
    case SendConsecutive => Governing(tx.log).Some? && tx.deadline == AllowedAt(tx.log)
  }

  /** Once the start has been taken, no write is owed and the deadline is the handlers' own. */
  ghost predicate Timely(cfg: Config, tx: Tx) {
    && Good(cfg, tx) && OnTime(cfg, tx.log)
    && (!tx.startPending ==> !tx.owed && Own(cfg, tx))
  }

  /** No start is taken while its requester has yet to write the deadline. */
  predicate Prompt(tx: Tx, i: Input) {
    i.Tick? && tx.startPending ==> !tx.owed
  }

  lemma PauseOnTime(cfg: Config, log: seq<Event>, e: Event)
    requires OnTime(cfg, log) && IsPause(e) && (e.Expired? ==> LastAt(log) + cfg.timeoutUs <= e.at)
    ensures OnTime(cfg, log + [e])
  {
    hide ReadFlow;
    Grow(log, e);
  }

  lemma ClearanceOnTime(cfg: Config, log: seq<Event>, e: Event)
    requires OnTime(cfg, log) && IsClearance(e)
    ensures OnTime(cfg, log + [e]) && Governing(log + [e]).Some? && AllowedAt(log + [e]) == e.at
  {
    hide ReadFlow;
    Grow(log, e);
  }

  lemma ConsecutiveOnTime(cfg: Config, log: seq<Event>, at: int, f: seq<Byte>)
    requires Permitted(log) && OnTime(cfg, log) && IsConsecutive(Sent(at, f)) && Governing(log).Some?
    requires var g := Governing(log).value; g.blockSize == 0 || InBlock(log) < g.blockSize
    requires f[0] % 16 == (ConsecutiveCount(log) + 1) % 16
    requires AllowedAt(log) <= at
    ensures var l := log + [Sent(at, f)];
      OnTime(cfg, l) && Governing(l) == Governing(log) && AllowedAt(l) == at + Governing(log).value.separationUs
  {
    ConsecutiveLogged(log, at, f);
    Grow(log, Sent(at, f));
  }

  lemma FirstFrameOnTime(cfg: Config, now: int, f: seq<Byte>)
    requires f != [] && f[0] / 16 != 2
    ensures OnTime(cfg, [Sent(now, f)]) && LastAt([Sent(now, f)]) == now
  {
    Grow([], Sent(now, f));
    assert OnTime(cfg, []);
  }

  lemma PendingIsFresh(cfg: Config, tx: Tx)
    requires Good(cfg, tx) && tx.startPending
    ensures tx.log == [] && SizeOk(tx) && tx.leaf.Idle?
  {
  }

  lemma StartIsTimely(cfg: Config, tx: Tx, now: int, sendOk: bool)
    requires Timely(cfg, tx) && tx.startPending && !tx.owed
    ensures Timely(cfg, IdleStart(cfg, tx.(startPending := false), now, sendOk))
  {
    hide Good, OnTime, LastAt, Hear, SingleFrame, FirstFrame, Governing, AllowedAt;
    PendingIsFresh(cfg, tx);
    StartKeeps(cfg, tx, now, sendOk);
    PauseOnTime(cfg, [], Refused(now));
    assert [] + [Refused(now)] == [Refused(now)];
    if |tx.payload| <= SINGLE_DATA {
      HearSingle(cfg, tx.payload);
      FirstFrameOnTime(cfg, now, SingleFrame(cfg, tx.payload));
      assert [] + [Sent(now, SingleFrame(cfg, tx.payload))] == [Sent(now, SingleFrame(cfg, tx.payload))];
    } else {
      HearFirst(tx.payload);
      FirstFrameOnTime(cfg, now, FirstFrame(tx.payload));
      assert [] + [Sent(now, FirstFrame(tx.payload))] == [Sent(now, FirstFrame(tx.payload))];
    }
  }

  lemma WaitTickIsTimely(cfg: Config, tx: Tx, now: int)
    requires Timely(cfg, tx) && tx.leaf.WaitFlowControl?
    ensures Timely(cfg, WaitTick(tx, now))
  {
    hide Good, OnTime, LastAt;
    WaitTickKeeps(cfg, tx, now);
    OpenIsUnderWay(cfg, tx);
    if tx.deadline <= now {
      PauseOnTime(cfg, tx.log, Expired(now));
    }
  }

  lemma WaitRxIsTimely(cfg: Config, tx: Tx, now: int, f: RxFrame)
    requires Timely(cfg, tx) && tx.leaf.WaitFlowControl? && (f.dlc >= 3 ==> |f.data| >= 3)
    ensures Timely(cfg, WaitRx(cfg, tx, now, f))
  {
    hide Good, OnTime, ReadFlow, WaitRx, Governing, AllowedAt;
    WaitRxKeeps(cfg, tx, now, f);
    OpenIsUnderWay(cfg, tx);
    if f.onChannel {
      WaitRxReads(cfg, tx, now, f);
      if ReadFlow(f).Go? {
        ClearanceOnTime(cfg, tx.log, Received(now, f));
      } else {
        PauseOnTime(cfg, tx.log, Received(now, f));
      }
    } else {
      OffChannel(cfg, tx, now, f);
    }
  }

  lemma SendTickIsTimely(cfg: Config, tx: Tx, now: int, sendOk: bool)
    requires Timely(cfg, tx) && tx.leaf.SendConsecutive?
    ensures Timely(cfg, SendTick(cfg, tx, now, sendOk))
  {
    hide Good, OnTime, ConsecutiveFrame, Governing, InBlock, Permitted, ConsecutiveCount, Heard, AllowedAt;
    SendTickKeeps(cfg, tx, now, sendOk);
    OpenIsUnderWay(cfg, tx);
    PauseOnTime(cfg, tx.log, Refused(now));
    PauseLogged(tx.log, Refused(now));
    if tx.deadline <= now && sendOk {
      var n := ChunkSize(tx);
      var f := ConsecutiveFrame(cfg, tx.sequence, tx.payload[tx.offset..tx.offset + n]);
      HearConsecutive(cfg, tx.payload, tx.offset, tx.sequence, n);
      ConsecutiveOnTime(cfg, tx.log, now, f);
    }
  }

  lemma StepKeepsTimely(cfg: Config, tx: Tx, i: Input)
    requires Timely(cfg, tx) && InputOk(i) && Prompt(tx, i)
    ensures Timely(cfg, Step(cfg, tx, i))
  {
    assert OnTime(cfg, []);
    hide Good, OnTime, IdleStart, WaitRx, SendTick, WaitTick, Governing, AllowedAt;
    assert WellTyped(tx) by { GoodIsTyped(cfg, tx); }
    StepKeepsGood(cfg, tx, i);
    PendingIsIdle(cfg, tx);
    match i
    case StartRequest(_) =>
    case DeadlineWritten(_) =>
    case DeadlineLost =>
    case Tick(now, sendOk) =>
      if tx.startPending {
        StartIsTimely(cfg, tx, now, sendOk);
      } else if tx.leaf.WaitFlowControl? {
        WaitTickIsTimely(cfg, tx, now);
      } else if tx.leaf.SendConsecutive? {
        SendTickIsTimely(cfg, tx, now, sendOk);
      }
    case Frame(now, f) =>
      if tx.leaf.WaitFlowControl? {
        WaitRxIsTimely(cfg, tx, now, f);
      }
  }

  lemma GoodIsTyped(cfg: Config, tx: Tx)
    requires Good(cfg, tx)
    ensures WellTyped(tx)
  {
  }

  lemma PendingIsIdle(cfg: Config, tx: Tx)
    requires Good(cfg, tx)
    ensures tx.startPending ==> tx.leaf.Idle? && tx.busy
  {
  }

  // ---------------------------------------------------------------- whole runs

  ghost predicate AllOk(ins: seq<Input>) {
    forall i :: i in ins ==> InputOk(i)
  }

  /** No input of the run takes a start too early. */
  ghost predicate PromptRun(cfg: Config, tx: Tx, ins: seq<Input>)
    requires Good(cfg, tx) && AllOk(ins)
    decreases |ins|
  {
    ins == [] ||
    (StepKeepsGood(cfg, tx, ins[0]);
     Prompt(tx, ins[0]) && PromptRun(cfg, Step(cfg, tx, ins[0]), ins[1..]))
  }

  lemma {:induction false} RunKeepsTimely(cfg: Config, tx: Tx, ins: seq<Input>)
    requires Timely(cfg, tx) && AllOk(ins) && PromptRun(cfg, tx, ins)
    ensures Timely(cfg, Run(cfg, tx, ins))
    decreases |ins|
  {
    hide Good, OnTime, Own, Step, Prompt;
    GoodIsTyped(cfg, tx);
    if ins != [] {
      StepKeepsTimely(cfg, tx, ins[0]);
      RunKeepsTimely(cfg, Step(cfg, tx, ins[0]), ins[1..]);
    }
  }

  /** When every requester writes its deadline before the worker takes its start, the frames of
      every run keep the separation times they were told, waiting is given up only after the whole
      timeout, and the idle machine has no deadline. */
  lemma TimingIsObeyed(cfg: Config, ins: seq<Input>)
    requires AllOk(ins)
    ensures Good(cfg, INITIAL)
    ensures PromptRun(cfg, INITIAL, ins) ==>
      var tx := Run(cfg, INITIAL, ins);
      OnTime(cfg, tx.log) && (tx.leaf.Idle? && !tx.startPending ==> tx.deadline == NO_DEADLINE)
  {
    if PromptRun(cfg, INITIAL, ins) {
      RunKeepsTimely(cfg, INITIAL, ins);
    }
  }

  // ---------------------------------------------------------------- what being on time means

  lemma {:induction false} OnTimePrefix(cfg: Config, log: seq<Event>, i: nat)
    requires OnTime(cfg, log) && i <= |log|
    ensures OnTime(cfg, log[..i])
    decreases |log|
  {
    if i < |log| {
      OnTimePrefix(cfg, log[..|log| - 1], i);
      assert log[..|log| - 1][..i] == log[..i];
    } else {
      assert log[..i] == log;
    }
  }

  /** Only consecutive frames between two points of a history: no new permission. */
  ghost predicate SameBlock(log: seq<Event>, i: nat, j: nat) {
    i <= j < |log| && forall k :: i <= k <= j ==> IsConsecutive(log[k])
  }

  /** Two consecutive frames of one block, `d` apart in it, are at least `d` separation times
      apart on the clock. */
  lemma {:induction false} Spacing(cfg: Config, log: seq<Event>, i: nat, j: nat)
    requires Permitted(log) && OnTime(cfg, log) && SameBlock(log, i, j)
    ensures Governing(log[..i]).Some?
    ensures Governing(log[..j]) == Governing(log[..i])
    ensures InBlock(log[..j]) == InBlock(log[..i]) + (j - i)
    ensures log[i].at + (j - i) * Governing(log[..i]).value.separationUs <= log[j].at
    decreases j
  {
    PermittedPrefix(log, j + 1);
    OnTimePrefix(cfg, log, j + 1);
    assert log[..j + 1][..j] == log[..j] && log[..j + 1][j] == log[j];
    if i < j {
      Spacing(cfg, log, i, j - 1);
      assert log[..j][..j - 1] == log[..j - 1] && log[..j][j - 1] == log[j - 1];
      var s := Governing(log[..i]).value.separationUs;
      assert (j - i) * s == (j - 1 - i) * s + s;
    }
  }

  // ---------------------------------------------------------------- a start taken too early

  /** The inputs' clock readings never run backwards from `clock`. A requester writes a reading that
      may be older. */
  predicate Clocked(clock: int, ins: seq<Input>)
    decreases |ins|
  {
    ins == [] ||
    match ins[0]
    case Tick(now, _) => clock <= now && Clocked(now, ins[1..])
    case Frame(now, _) => clock <= now && Clocked(now, ins[1..])
    case DeadlineWritten(at) => Clocked(if clock < at then at else clock, ins[1..])
    case _ => Clocked(clock, ins[1..])
  }

  /** A run that may follow at `clock`. */
  ghost predicate MayFollow(cfg: Config, tx: Tx, clock: int, ins: seq<Input>)
    requires Good(cfg, tx)
  {
    AllOk(ins) && Clocked(clock, ins) && PromptRun(cfg, tx, ins)
  }

  lemma RunFirst(cfg: Config, tx: Tx, clock: int, i: Input, rest: seq<Input>)
    requires Good(cfg, tx) && InputOk(i) && Prompt(tx, i)
    requires i.Tick? || i.Frame? ==> i.now == clock
    requires i.DeadlineWritten? ==> i.at <= clock
    ensures Good(cfg, Step(cfg, tx, i))
    ensures MayFollow(cfg, Step(cfg, tx, i), clock, rest) ==>
              MayFollow(cfg, tx, clock, [i] + rest) && Run(cfg, tx, [i] + rest) == Run(cfg, Step(cfg, tx, i), rest)
  {
    hide Good, Step, Prompt;
    StepKeepsGood(cfg, tx, i);
    assert ([i] + rest)[1..] == rest && ([i] + rest)[0] == i;
  }

  /** The machine just after a start of several frames was taken with its deadline still owed. */
  ghost predicate TakenEarly(cfg: Config, tx: Tx, now: int) {
    && Good(cfg, tx) && tx.owed && tx.leaf.WaitFlowControl?
    && tx.offset == FIRST_DATA && |tx.log| == 1 && tx.log[0].Sent? && tx.log[0].at == now
    && !IsConsecutive(tx.log[0])
  }

  /** The requester's write makes the very next tick give up, however long the timeout. */
  lemma SpuriousTimeout(cfg: Config, tx: Tx, now: int) returns (ins: seq<Input>)
    requires TakenEarly(cfg, tx, now) && 0 < cfg.timeoutUs
    ensures MayFollow(cfg, tx, now, ins)
    ensures var r := Run(cfg, tx, ins);
      r.result == Timeout && !OnTime(cfg, r.log) && r.log == tx.log + [Expired(now)]
  {
    hide Good;
    ins := [DeadlineWritten(now)] + ([Tick(now, true)] + []);
    OpenIsUnderWay(cfg, tx);
    var written := Step(cfg, tx, DeadlineWritten(now));
    RunFirst(cfg, tx, now, DeadlineWritten(now), [Tick(now, true)] + []);
    RunFirst(cfg, written, now, Tick(now, true), []);
    Grow(tx.log, Expired(now));
  }

  /** It also sends a second consecutive frame at once, whatever separation the receiver asked for. */
  lemma EarlyFrame(cfg: Config, tx: Tx, now: int) returns (ins: seq<Input>)
    requires TakenEarly(cfg, tx, now) && FIRST_DATA + CONSECUTIVE_DATA < |tx.payload|
    ensures MayFollow(cfg, tx, now, ins)
    ensures var r := Run(cfg, tx, ins);
      && !OnTime(cfg, r.log) && |r.log| == |tx.log| + 3
      && IsConsecutive(r.log[|r.log| - 1]) && IsConsecutive(r.log[|r.log| - 2])
      && r.log[|r.log| - 1].at == r.log[|r.log| - 2].at == now && Governing(r.log) == Some(Clearance(now, 0, 127_000))
  {
    hide Good;
    var go := Frame(now, RxFrame(true, 3, [0x30, 0, 0x7F]));
    var tick, late := Tick(now, true), DeadlineWritten(now);
    ins := [go] + ([tick] + ([late] + ([tick] + [])));
    OpenIsUnderWay(cfg, tx);
    RunFirst(cfg, tx, now, go, [tick] + ([late] + ([tick] + [])));
    var a := Step(cfg, tx, go);
    assert ReadFlow(go.f) == Go(0, 127_000) by { SeparationIs(0x7F); }
    WaitRxReads(cfg, tx, now, go.f);
    assert a == Continue(Logged(tx, Received(now, go.f)), now, 0, 127_000);
    ClearanceLogged(tx.log, Received(now, go.f));
    FirstOfTwo(cfg, a, now);
    RunFirst(cfg, a, now, tick, [late] + ([tick] + []));
    var b := Step(cfg, a, tick);
    RunFirst(cfg, b, now, late, [tick] + []);
    var c := Step(cfg, b, late);
    SecondAtOnce(cfg, c, now);
    RunFirst(cfg, c, now, tick, []);
    assert Run(cfg, tx, ins) == Step(cfg, c, tick);
  }

  lemma FirstOfTwo(cfg: Config, a: Tx, now: int)
    requires Good(cfg, a) && a.leaf.SendConsecutive? && a.deadline == now && a.blockSize == 0 && !a.startPending
    requires a.offset + CONSECUTIVE_DATA < |a.payload|
    ensures var b := Step(cfg, a, Tick(now, true));
      && b.leaf.SendConsecutive? && b.owed == a.owed && b.blockSize == 0 && b.offset < |b.payload| && !b.startPending
      && |b.log| == |a.log| + 1 && b.log[..|a.log|] == a.log
      && b.log[|a.log|].at == now && IsConsecutive(b.log[|a.log|])
      && Governing(b.log) == Governing(a.log) && InBlock(b.log) == InBlock(a.log) + 1
  {
    hide Good, ConsecutiveFrame, Governing, InBlock;
    assert WellTyped(a) by { GoodIsTyped(cfg, a); }
    SendsOne(cfg, a, now);
  }

  /** A due tick sends one consecutive frame under the permission in force. */
  lemma SendsOne(cfg: Config, a: Tx, now: int)
    requires Good(cfg, a) && a.leaf.SendConsecutive? && a.deadline <= now && !a.startPending
    ensures WellTyped(a)
    ensures var log := Step(cfg, a, Tick(now, true)).log;
      && |log| == |a.log| + 1 && log[..|a.log|] == a.log
      && log[|a.log|].at == now && IsConsecutive(log[|a.log|])
      && Governing(log) == Governing(a.log) && InBlock(log) == InBlock(a.log) + 1
      && (OnTime(cfg, log) ==> Governing(a.log).Some? && AllowedAt(a.log) <= now)
  {
    hide ConsecutiveFrame, Heard, Permitted, ConsecutiveCount;
    var n := ChunkSize(a);
    var f := ConsecutiveFrame(cfg, a.sequence, a.payload[a.offset..a.offset + n]);
    HearConsecutive(cfg, a.payload, a.offset, a.sequence, n);
    Grow(a.log, Sent(now, f));
    assert Step(cfg, a, Tick(now, true)).log == a.log + [Sent(now, f)];
  }

  lemma SecondAtOnce(cfg: Config, c: Tx, now: int)
    requires Good(cfg, c) && c.leaf.SendConsecutive? && c.deadline == now && !c.startPending
    requires c.log != [] && LastAt(c.log) == now && 0 < InBlock(c.log)
    requires Governing(c.log).Some? && 0 < Governing(c.log).value.separationUs
    ensures WellTyped(c)
    ensures var log := Step(cfg, c, Tick(now, true)).log;
      && !OnTime(cfg, log) && |log| == |c.log| + 1 && log[..|c.log|] == c.log
      && log[|c.log|].at == now && IsConsecutive(log[|c.log|]) && Governing(log) == Governing(c.log)
  {
    hide Good, Step, OnTime;
    SendsOne(cfg, c, now);
  }

  // ---------------------------------------------------------------- what exactly it takes

  /** With no time allowed to wait, and a payload of at most one consecutive frame, there is no timing
      left to break. */
  ghost predicate Short(cfg: Config, tx: Tx, clock: int) {
    && Good(cfg, tx) && OnTime(cfg, tx.log) && !tx.startPending
    && cfg.timeoutUs == 0 && |tx.payload| <= FIRST_DATA + CONSECUTIVE_DATA
    && (tx.log != [] ==> LastAt(tx.log) <= clock)
    && (Governing(tx.log).Some? ==> Governing(tx.log).value.at <= clock)
  }

  lemma {:induction false} BlockWithinTransfer(log: seq<Event>)
    ensures InBlock(log) <= ConsecutiveCount(log)
    decreases |log|
  {
    if log != [] {
      BlockWithinTransfer(log[..|log| - 1]);
    }
  }

  lemma HasSent(cfg: Config, tx: Tx)
    requires UnderWay(cfg, tx)
    ensures tx.log != []
  {
    assert Heard([]) == Listening;
  }

  lemma ShortWait(cfg: Config, tx: Tx, clock: int, now: int)
    requires Short(cfg, tx, clock) && clock <= now && tx.leaf.WaitFlowControl?
    ensures Short(cfg, WaitTick(tx, now), now)
  {
    hide Good, OnTime, Governing, InBlock;
    WaitTickKeeps(cfg, tx, now);
    OpenIsUnderWay(cfg, tx);
    HasSent(cfg, tx);
    PauseOnTime(cfg, tx.log, Expired(now));
    PauseLogged(tx.log, Expired(now));
  }

  /** The only consecutive frame there is opens its block. */
  lemma ShortSend(cfg: Config, tx: Tx, clock: int, now: int, sendOk: bool)
    requires Short(cfg, tx, clock) && clock <= now && tx.leaf.SendConsecutive?
    ensures WellTyped(tx) && Short(cfg, SendTick(cfg, tx, now, sendOk), now)
  {
    hide Good, OnTime, ConsecutiveFrame, Heard, Permitted, ConsecutiveCount, InBlock, Governing;
    GoodIsTyped(cfg, tx);
    SendTickKeeps(cfg, tx, now, sendOk);
    OpenIsUnderWay(cfg, tx);
    BlockWithinTransfer(tx.log);
    PauseOnTime(cfg, tx.log, Refused(now));
    PauseLogged(tx.log, Refused(now));
    if tx.deadline <= now && sendOk {
      var n := ChunkSize(tx);
      var f := ConsecutiveFrame(cfg, tx.sequence, tx.payload[tx.offset..tx.offset + n]);
      HearConsecutive(cfg, tx.payload, tx.offset, tx.sequence, n);
      ConsecutiveOnTime(cfg, tx.log, now, f);
    }
  }

  lemma ShortTick(cfg: Config, tx: Tx, clock: int, now: int, sendOk: bool)
    requires Short(cfg, tx, clock) && clock <= now
    ensures WellTyped(tx) && Short(cfg, Step(cfg, tx, Tick(now, sendOk)), now)
  {
    hide Good, OnTime, WaitTick, SendTick;
    GoodIsTyped(cfg, tx);
    match tx.leaf
    case Idle =>
    case WaitFlowControl => ShortWait(cfg, tx, clock, now);
    case SendConsecutive => ShortSend(cfg, tx, clock, now, sendOk);
  }

  lemma ShortFrame(cfg: Config, tx: Tx, clock: int, now: int, f: RxFrame)
    requires Short(cfg, tx, clock) && clock <= now && (f.dlc >= 3 ==> |f.data| >= 3)
    ensures WellTyped(tx) && Short(cfg, Step(cfg, tx, Frame(now, f)), now)
  {
    hide Good, OnTime, DecodeSeparationUs, Governing, InBlock;
    GoodIsTyped(cfg, tx);
    StepKeepsGood(cfg, tx, Frame(now, f));
    if tx.leaf.WaitFlowControl? {
      OpenIsUnderWay(cfg, tx);
      var e := Received(now, f);
      if f.onChannel {
        WaitRxReads(cfg, tx, now, f);
        if ReadFlow(f).Go? {
          ClearanceOnTime(cfg, tx.log, e);
          ClearanceLogged(tx.log, e);
        } else {
          PauseOnTime(cfg, tx.log, e);
          PauseLogged(tx.log, e);
        }
      } else {
        OffChannel(cfg, tx, now, f);
      }
    }
  }

  /** A run that keeps every timing from here on. */
  ghost predicate Bound(cfg: Config, tx: Tx, clock: int) {
    Timely(cfg, tx) || Short(cfg, tx, clock)
  }

  lemma ShortRequest(cfg: Config, tx: Tx, clock: int, payload: seq<Byte>)
    requires Short(cfg, tx, clock)
    ensures Bound(cfg, Request(tx, payload), clock)
  {
    StepKeepsGood(cfg, tx, StartRequest(payload));
    assert OnTime(cfg, []);
  }

  function After(clock: int, i: Input): int {
    match i
    case Tick(now, _) => now
    case Frame(now, _) => now
    case DeadlineWritten(at) => if clock < at then at else clock
    case _ => clock
  }

  lemma StepKeepsBound(cfg: Config, tx: Tx, clock: int, i: Input)
    requires Bound(cfg, tx, clock) && InputOk(i) && Prompt(tx, i)
    requires i.Tick? || i.Frame? ==> clock <= i.now
    ensures WellTyped(tx) && Bound(cfg, Step(cfg, tx, i), After(clock, i))
  {
    hide Good, OnTime, Work, Receive, Request, Governing, Own;
    GoodIsTyped(cfg, tx);
    if Timely(cfg, tx) {
      StepKeepsTimely(cfg, tx, i);
    } else {
      match i
      case StartRequest(payload) => ShortRequest(cfg, tx, clock, payload);
      case DeadlineWritten(_) => StepKeepsGood(cfg, tx, i);
      case DeadlineLost => StepKeepsGood(cfg, tx, i);
      case Tick(now, sendOk) => ShortTick(cfg, tx, clock, now, sendOk);
      case Frame(now, f) => ShortFrame(cfg, tx, clock, now, f);
    }
  }

  lemma {:induction false} RunKeepsBound(cfg: Config, tx: Tx, clock: int, ins: seq<Input>)
    requires Bound(cfg, tx, clock) && MayFollow(cfg, tx, clock, ins)
    ensures OnTime(cfg, Run(cfg, tx, ins).log)
    decreases |ins|
  {
    hide Good, OnTime, Step, Prompt, Timely, Short;
    if ins == [] {
      BoundIsOnTime(cfg, tx, clock);
    } else {
      BoundIsOnTime(cfg, tx, clock);
      StepKeepsBound(cfg, tx, clock, ins[0]);
      RunKeepsBound(cfg, Step(cfg, tx, ins[0]), After(clock, ins[0]), ins[1..]);
    }
  }

  lemma BoundIsOnTime(cfg: Config, tx: Tx, clock: int)
    requires Bound(cfg, tx, clock)
    ensures OnTime(cfg, tx.log) && WellTyped(tx)
  {
  }

  /** Whatever happened before, a pending start is a fresh one. */
  lemma PendingIsTimely(cfg: Config, tx: Tx)
    requires Good(cfg, tx) && tx.startPending
    ensures Timely(cfg, tx) && WellTyped(tx)
  {
  }

  /** The machine right after the worker took a start of several frames. */
  lemma TakingTheStart(cfg: Config, tx: Tx, now: int)
    requires Good(cfg, tx) && tx.startPending && SINGLE_DATA < |tx.payload|
    ensures WellTyped(tx)
    ensures var r := Step(cfg, tx, Tick(now, true));
      && Good(cfg, r) && r.owed == tx.owed && r.payload == tx.payload
      && (if tx.owed then TakenEarly(cfg, r, now) else Timely(cfg, r))
      && (cfg.timeoutUs == 0 && |r.payload| <= FIRST_DATA + CONSECUTIVE_DATA ==> Short(cfg, r, now))
  {
    PendingIsTimely(cfg, tx);
    hide Heard, Permitted, Hear;
    StepKeepsGood(cfg, tx, Tick(now, true));
    HearFirst(tx.payload);
    var r := Step(cfg, tx, Tick(now, true));
    assert r.log == [Sent(now, FirstFrame(tx.payload))];
    Grow([], Sent(now, FirstFrame(tx.payload)));
    assert OnTime(cfg, r.log) && Governing(r.log).None?;
    if !tx.owed {
      StepKeepsTimely(cfg, tx, Tick(now, true));
    }
  }

  ghost predicate AlwaysOnTime(cfg: Config, tx: Tx, clock: int)
    requires Good(cfg, tx)
  {
    forall ins :: MayFollow(cfg, tx, clock, ins) ==> OnTime(cfg, Run(cfg, tx, ins).log)
  }

  /** A start of several frames has just been taken. Every way on keeps the timing, if and only if
      its deadline was written before; except that a transfer of at most one consecutive frame,
      by a client that allows no time to wait, has no timing to keep. */
  lemma TimingHoldsIffWritten(cfg: Config, tx: Tx, now: int)
    requires Good(cfg, tx) && tx.startPending && SINGLE_DATA < |tx.payload|
    ensures WellTyped(tx) && Good(cfg, Step(cfg, tx, Tick(now, true)))
    ensures AlwaysOnTime(cfg, Step(cfg, tx, Tick(now, true)), now)
       <==> !tx.owed || (cfg.timeoutUs == 0 && |tx.payload| <= FIRST_DATA + CONSECUTIVE_DATA)
  {
    hide Good, OnTime, Timely, Short, Step, TakenEarly;
    TakingTheStart(cfg, tx, now);
    var r := Step(cfg, tx, Tick(now, true));
    if tx.owed && 0 < cfg.timeoutUs {
      var _ := SpuriousTimeout(cfg, r, now);
    } else if tx.owed && FIRST_DATA + CONSECUTIVE_DATA < |tx.payload| {
      var _ := EarlyFrame(cfg, r, now);
    } else {
      forall ins | MayFollow(cfg, r, now, ins)
        ensures OnTime(cfg, Run(cfg, r, ins).log)
      {
        RunKeepsBound(cfg, r, now, ins);
      }
    }
  }

  /** The promise of the header: no deadline while idle. */
  ghost predicate AtRest(tx: Tx) {
    tx.leaf.Idle? && !tx.startPending ==> tx.deadline == NO_DEADLINE
  }

  ghost predicate AlwaysAtRest(cfg: Config, tx: Tx, clock: int)
    requires Good(cfg, tx)
  {
    forall ins :: MayFollow(cfg, tx, clock, ins) ==> AtRest(Run(cfg, tx, ins))
  }

  /** The write that comes after the transfer ended leaves the idle machine with a deadline. */
  lemma LeftWithADeadline(cfg: Config, tx: Tx, now: int) returns (ins: seq<Input>)
    requires Good(cfg, tx) && tx.owed && !tx.startPending && (tx.leaf.Idle? || tx.leaf.WaitFlowControl?)
    ensures MayFollow(cfg, tx, now, ins)
    ensures var r := Run(cfg, tx, ins); !AtRest(r) && r.deadline <= now && !r.owed
  {
    hide Good, Abort;
    var late := DeadlineWritten(if now < NO_DEADLINE then now else 0);
    if tx.leaf.Idle? {
      ins := [late] + [];
      RunFirst(cfg, tx, now, late, []);
    } else {
      var stop := Frame(now, RxFrame(true, 3, [0x32, 0, 0]));
      ins := [stop] + ([late] + []);
      OpenIsUnderWay(cfg, tx);
      RunFirst(cfg, tx, now, stop, [late] + []);
      EndsIdle(Logged(tx, Received(now, stop.f)), Overflow);
      RunFirst(cfg, Step(cfg, tx, stop), now, late, []);
    }
  }

  /** It stays due until the next request, so the worker that sleeps until then never sleeps. */
  lemma {:induction false} StaysDue(cfg: Config, tx: Tx, ins: seq<Input>)
    requires Good(cfg, tx) && tx.leaf.Idle? && !tx.startPending && !tx.owed && AllOk(ins)
    requires forall i :: i in ins ==> !i.StartRequest?
    ensures Run(cfg, tx, ins) == tx
    decreases |ins|
  {
    GoodIsTyped(cfg, tx);
    hide Good;
    if ins != [] {
      StepKeepsGood(cfg, tx, ins[0]);
      assert Settled(tx) by { IdleIsSettled(cfg, tx); }
      StaysDue(cfg, Step(cfg, tx, ins[0]), ins[1..]);
    }
  }

  lemma IdleIsSettled(cfg: Config, tx: Tx)
    requires Good(cfg, tx) && tx.leaf.Idle? && !tx.startPending
    ensures Settled(tx)
  {
  }

  lemma EndsIdle(tx: Tx, r: Result)
    ensures var e := Abort(tx, r); e.leaf.Idle? && e.owed == tx.owed && e.startPending == tx.startPending
  {
  }

  /** A start of any length has just been taken. The idle machine never again has a deadline, if and
      only if that of the start was written before. */
  lemma NoDeadlineIffWritten(cfg: Config, tx: Tx, now: int, sendOk: bool)
    requires Good(cfg, tx) && tx.startPending
    ensures WellTyped(tx) && Good(cfg, Step(cfg, tx, Tick(now, sendOk)))
    ensures AlwaysAtRest(cfg, Step(cfg, tx, Tick(now, sendOk)), now) <==> !tx.owed
  {
    PendingIsTimely(cfg, tx);
    StepKeepsGood(cfg, tx, Tick(now, sendOk));
    var r := Step(cfg, tx, Tick(now, sendOk));
    assert r.owed == tx.owed && !r.startPending && (r.leaf.Idle? || r.leaf.WaitFlowControl?);
    if tx.owed {
      var _ := LeftWithADeadline(cfg, r, now);
    } else {
      StepKeepsTimely(cfg, tx, Tick(now, sendOk));
      hide Good, Step;
      forall ins | MayFollow(cfg, r, now, ins)
        ensures AtRest(Run(cfg, r, ins))
      {
        RunKeepsTimely(cfg, r, ins);
      }
    }
  }
}
