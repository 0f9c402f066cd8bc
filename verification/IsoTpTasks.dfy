/** The transmitter as its tasks run it: the steps of module IsoTpHandover, with the memory they work
    on. Requesters copy a payload byte by byte, handlers read it, build frames and count, and publish
    what they did in several stores. Every interleaving of these steps is a run of module IsoTp, so
    what is proved of runs there holds of every interleaving. */
module IsoTpTasks {
  import opened Wrappers
  import opened Schedules
  import H = IsoTpHandover
  import L = IsoTpLaws
  import T = IsoTp
  import V = IsoTpVerdict

  /** The record shared by the tasks: control and deadline in `s`, the rest in `mem`. `want` is the
      payload of the requester holding the lock; `out` what the running handler has computed and not
      yet published in full. History: the inputs of the run that this is, and where it has come to. */
  datatype Real = Real(
    cfg: T.Config, s: H.System, mem: T.Tx, want: seq<T.Byte>, out: Option<T.Tx>,
    spec: T.Tx, ins: seq<T.Input>)

  function Start(cfg: T.Config): Real {
    Real(cfg, H.INITIAL, T.INITIAL, [], None, T.INITIAL, [])
  }

  datatype Act =
    | Ask(payload: seq<T.Byte>)
    | Copy(torn: seq<T.Byte>)
    | Work(sendOk: bool)
    | Hear(f: T.RxFrame)
    | Control(a: H.Action)

  /** The record as a handler finds it. */
  function View(c: Real): T.Tx {
    c.mem.(leaf := c.s.leaf, busy := c.s.busy, startPending := c.s.startPending,
           owed := H.Owes(c.s), deadline := c.s.deadline)
  }

  predicate Running(c: Real, kind: H.Kind, stage: H.Stage) {
    c.s.running.Some? && c.s.running.value.kind == kind && c.s.running.value.stage == stage
  }

  predicate AtStage(c: Real, stage: H.Stage) {
    c.s.running.Some? && c.s.running.value.stage == stage
  }

  /** The running handler will still write the deadline, whatever is written until then. */
  predicate WillWrite(c: Real) {
    (c.out.Some? && (AtStage(c, H.Going) || AtStage(c, H.Finished))) || Running(c, H.TickDispatch, H.Going)
  }

  ghost predicate Fit(tx: T.Tx) {
    tx.offset <= |tx.payload| && tx.sequence < 16 && T.SizeOk(tx)
  }

  // ---------------------------------------------------------------- the steps

  ghost function Linearize(c: Real, i: T.Input): Real
    requires T.WellTyped(c.spec) && T.InputOk(i)
  {
    c.(spec := T.Step(c.cfg, c.spec, i), ins := c.ins + [i])
  }

  /** A handler has computed `r`; only its result and its control fields are not published yet. */
  function Compute(c: Real, r: T.Tx): Real {
    c.(mem := r.(result := c.mem.result), out := Some(r))
  }

  /** What the worker's handler makes of the record; a tick has found itself due before. */
  ghost function Handled(c: Real, now: int, sendOk: bool): T.Tx
    requires Fit(View(c))
  {
    var tx := View(c);
    match c.s.leaf
    case Idle => T.IdleStart(c.cfg, tx, now, sendOk)
    case WaitFlowControl => T.WaitTick(tx.(deadline := now), now)
    case SendConsecutive => T.SendTick(c.cfg, tx.(deadline := now), now, sendOk)
  }

  ghost function DoWork(c: Real, sendOk: bool): Option<Real> {
    if && c.s.running.Some? && !c.s.running.value.kind.RxDispatch? && AtStage(c, H.Going) && c.out.None?
       && (c.s.leaf.Idle? <==> c.s.running.value.kind.StartEvent?)
       && Fit(View(c)) && T.WellTyped(c.spec)
    then
      var now := c.s.running.value.now;
      Some(Compute(Linearize(c, T.Tick(now, sendOk)), Handled(c, now, sendOk)))
    else None
  }

  ghost function DoHear(c: Real, f: T.RxFrame): Option<Real> {
    if && Running(c, H.RxDispatch, H.Going) && c.out.None? && c.s.leaf.WaitFlowControl?
       && f.onChannel && (f.dlc >= 3 ==> |f.data| >= 3) && T.WellTyped(c.spec)
    then
      var now := c.s.running.value.now;
      Some(Compute(Linearize(c, T.Frame(now, f)), T.WaitRx(c.cfg, View(c), now, f)))
    else None
  }

  ghost function DoWrite(c: Real, s: H.System, at: int): Option<Real> {
    if !T.WellTyped(c.spec) then None
    else Some(Linearize(c, if WillWrite(c) then T.DeadlineLost else T.DeadlineWritten(at)).(s := s))
  }

  /** A control step, with what it does to the memory; `s` is where control comes to. */
  ghost function DoControl(c: Real, a: H.Action, s: H.System): Option<Real> {
    match a
    case Request => None
    case BeginCopy => None
    case EndCopy => Some(c.(s := s, mem := c.mem.(payload := c.want, offset := 0)))
    case SetBusy => Some(c.(s := s, mem := c.mem.(result := T.InProgress)))
    case SetPending =>
      if !T.WellTyped(c.spec) then None
      else Some(Linearize(c, T.StartRequest(c.want)).(s := s, mem := c.mem.(log := [])))
    case WriteDeadline => if c.s.requester.TimeRead? then DoWrite(c, s, c.s.requester.at) else None
    case Arm(us) =>
      if c.out.Some? && c.out.value.busy && c.s.running.Some? && c.out.value.deadline == c.s.running.value.now + us
      then Some(c.(s := s)) else None
    case Finish =>
      if c.out.Some? && !c.out.value.busy
      then Some(c.(s := s, mem := c.mem.(result := c.out.value.result))) else None
    case Move(to) => if c.out.Some? && c.out.value.leaf == to then Some(c.(s := s, out := None)) else None
    case Return =>
      if AtStage(c, H.Going) && (c.out.Some? || c.s.leaf.WaitFlowControl?) then None
      else if AtStage(c, H.Armed) && (c.out.None? || c.out.value.leaf != c.s.leaf) then None
      else Some(c.(s := s, out := None))
    case _ => Some(c.(s := s))
  }

  ghost function Do(c: Real, act: Act): Option<Real> {
    match act
    case Ask(payload) =>
      var s := H.Do(c.s, H.Request);
      if payload == [] || T.MAX_PAYLOAD < |payload| || s.None? then None
      else Some(c.(s := s.value, want := if s.value == c.s then c.want else payload))
    case Copy(torn) =>
      var s := H.Do(c.s, H.BeginCopy);
      if s.None? then None else Some(c.(s := s.value, mem := c.mem.(payload := torn)))
    case Work(sendOk) => DoWork(c, sendOk)
    case Hear(f) => DoHear(c, f)
    case Control(a) =>
      var s := H.Do(c.s, a);
      if s.None? then None else DoControl(c, a, s.value)
  }

  // ---------------------------------------------------------------- agreement with the run

  /** What a handler has computed is something that a handler of its kind may publish. */
  predicate GoesOn(d: H.Dispatch, leaf: H.Leaf, r: T.Tx) {
    if r.busy then
      && d.now <= r.deadline && H.MayArm(d.kind, leaf)
      && (H.MayMove(d.kind, leaf, r.leaf) || (r.leaf == leaf && !d.kind.StartEvent?))
    else H.MayFinish(d.kind, leaf)
  }

  /** What a handler has computed fits how far it has published it. */
  predicate OutOk(c: Real) {
    match c.out
    case None => !AtStage(c, H.Armed) && !AtStage(c, H.Finished) && !AtStage(c, H.Quieted)
    case Some(r) =>
      && c.s.running.Some?
      && (if r.busy then AtStage(c, H.Going) || AtStage(c, H.Armed)
          else AtStage(c, H.Going) || AtStage(c, H.Finished) || AtStage(c, H.Quieted))
      && (r.leaf.Idle? <==> !r.busy)
      && (!r.busy ==> r.deadline == T.NO_DEADLINE)
      && (r.busy && AtStage(c, H.Going) ==> r.result == c.mem.result)
      && (AtStage(c, H.Going) && c.s.leaf.Idle? ==> c.s.running.value.kind.StartEvent?)
      && (AtStage(c, H.Going) || AtStage(c, H.Armed) ==> GoesOn(c.s.running.value, c.s.leaf, r))
  }

  predicate Copying(c: Real) {
    c.s.requester.Copying? || c.s.requester.Copied? || c.s.requester.BusySet?
  }

  predicate Wanted(c: Real) {
    Copying(c) || c.s.requester.Checked? ==> c.want != [] && |c.want| <= T.MAX_PAYLOAD
  }

  /** The fields of control. */
  predicate ControlAgrees(c: Real) {
    var s, x := c.s, c.spec;
    && x.leaf == (if c.out.Some? then c.out.value.leaf else s.leaf)
    && x.busy == (if s.requester.BusySet? then false
                  else if c.out.Some? && AtStage(c, H.Going) then c.out.value.busy else s.busy)
    && x.startPending == (s.startPending || s.worker.TookStart?
                          || (Running(c, H.StartEvent, H.Going) && c.out.None?))
    && x.owed == H.Owes(s)
  }

  predicate DeadlineAgrees(c: Real) {
    if c.out.Some? && (AtStage(c, H.Going) || AtStage(c, H.Finished))
    then c.spec.deadline == c.out.value.deadline
    else if Running(c, H.TickDispatch, H.Going) then c.spec.deadline <= c.s.running.value.now
    else c.spec.deadline == c.s.deadline
  }

  /** The fields that only handlers and requesters write. */
  predicate MemoryAgrees(c: Real) {
    var m, x := c.mem, c.spec;
    && m.separationUs == x.separationUs && m.blockSize == x.blockSize && m.blockSent == x.blockSent
    && m.sequence == x.sequence && m.waitFrames == x.waitFrames && m.log == x.log
    && (!Copying(c) ==> m.payload == x.payload && m.offset == x.offset)
    && (Copying(c) && !c.s.requester.Copying? ==> m.payload == c.want && m.offset == 0)
    && (if c.s.requester.BusySet? then m.result == T.InProgress
        else if c.out.Some? && AtStage(c, H.Going) then x.result == c.out.value.result
        else m.result == x.result)
  }

  ghost predicate Agrees(c: Real) {
    && H.Inv(c.s) && L.Good(c.cfg, c.spec)
    && OutOk(c) && Wanted(c) && ControlAgrees(c) && DeadlineAgrees(c) && MemoryAgrees(c)
  }

  /** The parts that the steps of requesters and tasks can be checked on. */
  predicate Parts(c: Real) {
    OutOk(c) && Wanted(c) && ControlAgrees(c) && DeadlineAgrees(c) && MemoryAgrees(c)
  }

  lemma ControlIsHandover(c: Real, act: Act)
    requires Do(c, act).Some? && H.Inv(c.s)
    ensures H.Inv(Do(c, act).value.s)
  {
    hide H.Inv, H.Do, View, Handled, T.WellTyped, Fit, WillWrite, AtStage, Running, Linearize, Compute;
    match act
    case Ask(_) => H.StepKeepsInv(c.s, H.Request);
    case Copy(_) => H.StepKeepsInv(c.s, H.BeginCopy);
    case Control(a) => H.StepKeepsInv(c.s, a);
    case _ => HandlersKeepControl(c, act);
  }

  lemma HandlersKeepControl(c: Real, act: Act)
    requires Do(c, act).Some? && (act.Work? || act.Hear?)
    ensures Do(c, act).value.s == c.s
  {
    hide T.Step, Handled, T.WaitRx, T.WellTyped;
  }

  // ---------------------------------------------------------------- every step keeps it

  /** A transfer is open, its handlers not past clearing busy. */
  predicate Open(s: H.System) {
    H.Starting(s) || (!s.leaf.Idle? && !H.AfterFinish(s))
  }

  /** Where the one token is, the other places are empty. */
  lemma TokenFacts(s: H.System)
    requires H.Inv(s)
    ensures Open(s) ==> s.busy && !s.startPending && !s.requester.BusySet? && !s.worker.TookStart?
    ensures s.requester.BusySet? ==> s.busy && !s.startPending && !s.worker.TookStart? && !Open(s)
    ensures !s.busy ==> !s.startPending && !s.worker.TookStart? && !Open(s)
    ensures s.busy ==> !s.requester.Checked? && !s.requester.Copying? && !s.requester.Copied?
    ensures s.startPending ==> !s.worker.TookStart?
  {
  }

  lemma RunFacts(s: H.System)
    requires H.Inv(s) && s.running.Some?
    ensures var d := s.running.value;
      && (d.kind.StartEvent? ==> s.leaf.Idle? && !d.stage.Begun? && !d.stage.Done?)
      && (d.kind.RxDispatch? ==> !d.stage.Begun? && !d.stage.Done?)
      && (d.kind.TickDispatch? && d.stage.Going? ==> !s.leaf.Idle?)
      && (d.stage.Armed? ==> H.MayArm(d.kind, s.leaf))
      && (s.worker.TookStart? ==> d.kind.RxDispatch?)
  {
  }

  lemma AskingAgrees(c: Real, act: Act)
    requires H.Inv(c.s) && Parts(c) && Do(c, act).Some? && (act.Ask? || act.Copy?)
    ensures Parts(Do(c, act).value)
  {
    TokenFacts(c.s);
    hide H.Inv, Open;
  }

  lemma CopyingAgrees(c: Real, a: H.Action)
    requires H.Inv(c.s) && Parts(c) && Do(c, Control(a)).Some? && (a.EndCopy? || a.SetBusy?)
    ensures Parts(Do(c, Control(a)).value)
  {
    TokenFacts(c.s);
    if c.s.running.Some? {
      RunFacts(c.s);
    }
    hide H.Inv;
  }

  lemma PublishingAgrees(c: Real)
    requires H.Inv(c.s) && Parts(c) && Do(c, Control(H.SetPending)).Some?
    ensures Parts(Do(c, Control(H.SetPending)).value)
  {
    TokenFacts(c.s);
    if c.s.running.Some? {
      RunFacts(c.s);
    }
    hide H.Inv;
  }

  lemma WritingAgrees(c: Real)
    requires H.Inv(c.s) && Parts(c) && Do(c, Control(H.WriteDeadline)).Some?
    ensures Parts(Do(c, Control(H.WriteDeadline)).value)
  {
    hide H.Inv, Open, H.Tokens;
    var d := Do(c, Control(H.WriteDeadline)).value;
    assert d.s == c.s.(requester := H.Written, deadline := c.s.requester.at);
    assert d.spec == c.spec.(owed := false, deadline := d.spec.deadline);
    assert OutOk(d) && Wanted(d);
    assert ControlAgrees(d);
    assert DeadlineAgrees(d);
    assert MemoryAgrees(d);
  }

  lemma LeavingAgrees(c: Real, a: H.Action)
    requires Parts(c) && Do(c, Control(a)).Some? && (a.ReadClock? || a.Unlock? || a.Notify?)
    ensures Parts(Do(c, Control(a)).value)
  {
    hide T.Step, View, Handled, Linearize, Compute;
  }

  /** Steps that touch nothing the parts speak about. */
  lemma ElsewhereAgrees(c: Real, d: Real)
    requires Parts(c) && d == c.(s := c.s.(notified := d.s.notified, worker := d.s.worker, rx := d.s.rx,
                                           clock := d.s.clock, notifiers := d.s.notifiers))
    requires d.s.worker.TookStart? <==> c.s.worker.TookStart?
    ensures Parts(d)
  {
  }

  lemma TaskAgrees(c: Real, a: H.Action)
    requires H.Inv(c.s) && Parts(c) && Do(c, Control(a)).Some?
    requires a.Wake? || a.RxCheck? || a.Pass?
    ensures Parts(Do(c, Control(a)).value)
  {
    hide H.Inv, Open, Parts;
    ElsewhereAgrees(c, Do(c, Control(a)).value);
  }

  lemma PollingAgrees(c: Real)
    requires H.Inv(c.s) && Parts(c) && Do(c, Control(H.Poll)).Some?
    ensures Parts(Do(c, Control(H.Poll)).value)
  {
    assert c.s.worker.Awake?;
    hide H.Inv, Open, Parts, H.Do;
    PollIs(c.s);
    if c.s.startPending {
      TokenFacts(c.s);
      TakenAgrees(c, Do(c, Control(H.Poll)).value);
    } else {
      ElsewhereAgrees(c, Do(c, Control(H.Poll)).value);
    }
  }

  lemma PollIs(s: H.System)
    requires s.worker.Awake?
    ensures H.Do(s, H.Poll)
         == Some(if s.startPending
                 then s.(worker := H.TookStart, startPending := false, early := H.Owes(s), hasty := false)
                 else s.(worker := H.TookNothing))
  {
  }

  lemma TakenAgrees(c: Real, d: Real)
    requires Parts(c) && c.s.startPending
    requires d == c.(s := c.s.(worker := H.TookStart, startPending := false, early := d.s.early, hasty := false))
    ensures Parts(d)
  {
  }

  lemma EnterIs(s: H.System)
    requires s.running.None? && (s.worker.TookStart? || s.worker.TookNothing?)
    ensures var r := H.Do(s, H.Enter);
      r.Some? && r.value == s.(worker := H.Dispatching, running := r.value.running, started := r.value.started,
                               startedOnIdle := r.value.startedOnIdle)
      && r.value.running == Some(if s.worker.TookStart? then H.Dispatch(H.StartEvent, s.clock, H.Going)
                                 else H.Dispatch(H.TickDispatch, s.clock, H.Begun))
  {
  }

  lemma EnteringAgrees(c: Real)
    requires H.Inv(c.s) && Parts(c) && Do(c, Control(H.Enter)).Some?
    ensures Parts(Do(c, Control(H.Enter)).value)
  {
    assert c.s.running.None? && (c.s.worker.TookStart? || c.s.worker.TookNothing?);
    EnterIs(c.s);
    hide H.Inv, Open, H.Do;
  }

  lemma ReceivingAgrees(c: Real)
    requires H.Inv(c.s) && Parts(c) && Do(c, Control(H.RxEnter)).Some?
    ensures Parts(Do(c, Control(H.RxEnter)).value)
  {
    hide H.Inv, Open;
  }

  lemma LookingAgrees(c: Real)
    requires H.Inv(c.s) && Parts(c) && Do(c, Control(H.Look)).Some?
    ensures Parts(Do(c, Control(H.Look)).value)
  {
    RunFacts(c.s);
    hide H.Inv, Open;
  }

  lemma ArmingAgrees(c: Real, us: nat)
    requires H.Inv(c.s) && Parts(c) && Do(c, Control(H.Arm(us))).Some?
    ensures Parts(Do(c, Control(H.Arm(us))).value)
  {
    TokenFacts(c.s);
    RunFacts(c.s);
    hide H.Inv;
  }

  lemma FinishingAgrees(c: Real)
    requires H.Inv(c.s) && Parts(c) && Do(c, Control(H.Finish)).Some?
    ensures Parts(Do(c, Control(H.Finish)).value)
  {
    TokenFacts(c.s);
    RunFacts(c.s);
    hide H.Inv;
  }

  lemma QuietingAgrees(c: Real)
    requires H.Inv(c.s) && Parts(c) && Do(c, Control(H.Quiet)).Some?
    ensures Parts(Do(c, Control(H.Quiet)).value)
  {
    hide H.Inv, Open;
  }

  lemma ReturningAgrees(c: Real)
    requires H.Inv(c.s) && Parts(c) && Do(c, Control(H.Return)).Some?
    ensures Parts(Do(c, Control(H.Return)).value)
  {
    RunFacts(c.s);
    ReturnIs(c.s);
    hide H.Inv, H.Do, Open;
  }

  lemma ReturnIs(s: H.System)
    requires H.Do(s, H.Return).Some?
    ensures s.running.Some?
    ensures var r, d := H.Do(s, H.Return).value, s.running.value;
      && r == s.(running := None, leaf := r.leaf, worker := r.worker, rx := r.rx)
      && r.leaf == (if d.stage.Quieted? then T.Idle else s.leaf)
      && (d.kind.RxDispatch? ==> r.worker == s.worker) && (!d.kind.RxDispatch? ==> r.worker.Parked?)
      && (d.stage.Quieted? || H.MayReturn(d, s.leaf))
  {
  }

  lemma MovingAgrees(c: Real, to: H.Leaf)
    requires H.Inv(c.s) && Parts(c) && Do(c, Control(H.Move(to))).Some?
    ensures Parts(Do(c, Control(H.Move(to))).value)
  {
    TokenFacts(c.s);
    RunFacts(c.s);
    hide H.Inv;
  }

  // ---------------------------------------------------------------- the handlers

  /** The worker's handler finds the record as the run has it, but for a deadline written since. */
  lemma WorkSeesTheRun(c: Real, sendOk: bool)
    requires H.Inv(c.s) && Parts(c) && DoWork(c, sendOk).Some?
    ensures var x := c.spec;
      if c.s.leaf.Idle? then x.startPending && View(c) == x.(startPending := false)
      else !x.startPending && x.deadline <= c.s.running.value.now && View(c).(deadline := x.deadline) == x
  {
    TokenFacts(c.s);
    RunFacts(c.s);
    hide H.Inv, Handled;
  }

  lemma DueIsDue(cfg: T.Config, tx: T.Tx, at: int, now: int, sendOk: bool)
    requires tx.deadline <= now && at <= now && tx.offset <= |tx.payload| && tx.sequence < 16
    ensures T.WaitTick(tx.(deadline := at), now) == T.WaitTick(tx, now)
    ensures T.SendTick(cfg, tx.(deadline := at), now, sendOk) == T.SendTick(cfg, tx, now, sendOk)
  {
    hide T.ConsecutiveFrame;
  }

  /** So what it computes is the step of the run. */
  lemma WorkIsTheStep(c: Real, sendOk: bool)
    requires H.Inv(c.s) && Parts(c) && DoWork(c, sendOk).Some?
    ensures var now := c.s.running.value.now;
      Fit(View(c)) && T.WellTyped(c.spec) && Handled(c, now, sendOk) == T.Step(c.cfg, c.spec, T.Tick(now, sendOk))
  {
    WorkSeesTheRun(c, sendOk);
    hide H.Inv, Parts, T.SendTick, T.WaitTick, T.IdleStart;
    var now := c.s.running.value.now;
    assert Fit(View(c));
    if !c.s.leaf.Idle? {
      assert c.spec.leaf == c.s.leaf;
      DueIsDue(c.cfg, View(c).(deadline := now), c.spec.deadline, now, sendOk);
    }
  }

  /** What a handler may come to, so that it can be published. */
  predicate Outcome(c: Real, r: T.Tx) {
    && (r.leaf.Idle? <==> !r.busy) && (!r.busy ==> r.deadline == T.NO_DEADLINE)
    && (r.busy ==> r.result == c.mem.result)
    && !r.startPending && r.owed == H.Owes(c.s)
    && c.s.running.Some? && GoesOn(c.s.running.value, c.s.leaf, r)
  }

  lemma ComputedAgrees(c: Real, i: T.Input, r: T.Tx)
    requires Parts(c) && c.out.None? && AtStage(c, H.Going) && Open(c.s)
    requires !c.s.startPending && !c.s.worker.TookStart? && !Copying(c)
    requires c.s.running.value.kind.RxDispatch? ==> !c.s.leaf.Idle?
    requires c.s.running.value.kind.TickDispatch? ==> !c.s.leaf.Idle?
    requires T.WellTyped(c.spec) && T.InputOk(i) && r == T.Step(c.cfg, c.spec, i) && Outcome(c, r)
    ensures Parts(Compute(Linearize(c, i), r))
  {
    hide T.Step, T.WellTyped, Open;
  }

  /** The worker ends a transfer or keeps it open, as far as the run's invariant and the handlers tell. */
  lemma WorkOutcome(c: Real, sendOk: bool)
    requires Agrees(c) && DoWork(c, sendOk).Some?
    ensures T.WellTyped(c.spec) && Outcome(c, T.Step(c.cfg, c.spec, T.Tick(c.s.running.value.now, sendOk)))
  {
    WorkSeesTheRun(c, sendOk);
    var now := c.s.running.value.now;
    L.StepKeepsGood(c.cfg, c.spec, T.Tick(now, sendOk));
    OpenInProgress(c.cfg, c.spec);
    var r := T.Step(c.cfg, c.spec, T.Tick(now, sendOk));
    EndsQuiet(c.cfg, c.spec, now, sendOk);
    TokenFacts(c.s);
    RunFacts(c.s);
    hide H.Inv, T.Step, L.Good, Handled, T.WellTyped;
    assert c.mem.result == c.spec.result;
    OpenInProgress(c.cfg, r);
  }

  lemma OpenInProgress(cfg: T.Config, x: T.Tx)
    requires L.Good(cfg, x)
    ensures x.startPending || !x.leaf.Idle? ==> x.result == T.InProgress && x.busy
    ensures !x.startPending && x.leaf.Idle? ==> !x.busy
  {
  }

  lemma EndsQuiet(cfg: T.Config, x: T.Tx, now: int, sendOk: bool)
    requires T.WellTyped(x) && (if x.leaf.Idle? then x.startPending else !x.startPending && x.deadline <= now)
    ensures var r := T.Step(cfg, x, T.Tick(now, sendOk));
      && (r.leaf.Idle? ==> r.deadline == T.NO_DEADLINE) && !r.startPending && r.owed == x.owed
      && (!r.leaf.Idle? ==> now <= r.deadline && !x.leaf.WaitFlowControl? && (x.leaf.Idle? ==> r.leaf.WaitFlowControl?))
  {
    hide T.ConsecutiveFrame, T.FirstFrame, T.SingleFrame;
  }

  lemma WorkAgrees(c: Real, sendOk: bool)
    requires Agrees(c) && DoWork(c, sendOk).Some?
    ensures Parts(DoWork(c, sendOk).value)
  {
    WorkIsTheStep(c, sendOk);
    WorkOutcome(c, sendOk);
    TokenFacts(c.s);
    RunFacts(c.s);
    var now := c.s.running.value.now;
    hide H.Inv, L.Good, T.Step, Handled, T.WellTyped, Outcome, Parts;
    ComputedAgrees(c, T.Tick(now, sendOk), T.Step(c.cfg, c.spec, T.Tick(now, sendOk)));
  }

  lemma HearSeesTheRun(c: Real, f: T.RxFrame)
    requires H.Inv(c.s) && Parts(c) && DoHear(c, f).Some?
    ensures View(c) == c.spec && c.spec.busy && !c.spec.startPending
  {
    TokenFacts(c.s);
    RunFacts(c.s);
    hide H.Inv, T.WaitRx;
  }

  lemma HearOutcome(cfg: T.Config, x: T.Tx, now: int, f: T.RxFrame)
    requires L.Good(cfg, x) && x.leaf.WaitFlowControl? && f.onChannel && (f.dlc >= 3 ==> |f.data| >= 3)
    ensures T.WellTyped(x)
    ensures var r := T.Step(cfg, x, T.Frame(now, f));
      && r == T.WaitRx(cfg, x, now, f)
      && (r.leaf.Idle? <==> !r.busy) && (!r.busy ==> r.deadline == T.NO_DEADLINE) && (r.busy ==> r.result == x.result)
      && !r.startPending && r.owed == x.owed && (r.busy ==> now <= r.deadline)
  {
    hide T.DecodeSeparationUs, T.Heard, T.Permitted, T.Governing, T.InBlock, T.ConsecutiveCount;
  }

  lemma HearAgrees(c: Real, f: T.RxFrame)
    requires Agrees(c) && DoHear(c, f).Some?
    ensures Parts(DoHear(c, f).value)
  {
    HearSeesTheRun(c, f);
    var now := c.s.running.value.now;
    HearOutcome(c.cfg, c.spec, now, f);
    TokenFacts(c.s);
    hide H.Inv, L.Good, T.Step, T.WaitRx, T.WellTyped, Open;
    ComputedAgrees(c, T.Frame(now, f), T.Step(c.cfg, c.spec, T.Frame(now, f)));
  }

  // ---------------------------------------------------------------- every step

  lemma ControlAgreesOn(c: Real, a: H.Action)
    requires H.Inv(c.s) && Parts(c) && Do(c, Control(a)).Some?
    ensures Parts(Do(c, Control(a)).value)
  {
    assert !a.Request? && !a.BeginCopy?;
    hide *;
    match a
    case EndCopy => CopyingAgrees(c, a);
    case SetBusy => CopyingAgrees(c, a);
    case SetPending => PublishingAgrees(c);
    case WriteDeadline => WritingAgrees(c);
    case ReadClock => LeavingAgrees(c, a);
    case Unlock => LeavingAgrees(c, a);
    case Notify => LeavingAgrees(c, a);
    case Wake => TaskAgrees(c, a);
    case RxCheck => TaskAgrees(c, a);
    case Pass(_) => TaskAgrees(c, a);
    case Poll => PollingAgrees(c);
    case Enter => EnteringAgrees(c);
    case RxEnter => ReceivingAgrees(c);
    case Look => LookingAgrees(c);
    case Arm(us) => ArmingAgrees(c, us);
    case Finish => FinishingAgrees(c);
    case Quiet => QuietingAgrees(c);
    case Return => ReturningAgrees(c);
    case Move(to) => MovingAgrees(c, to);
    case _ =>
  }

  /** The run stays where it is, or makes one step. */
  ghost predicate Follows(c: Real, d: Real) {
    && d.cfg == c.cfg
    && if d.ins == c.ins then d.spec == c.spec else
         && d.ins != [] && d.ins == c.ins + [d.ins[|d.ins| - 1]]
         && (var i := d.ins[|d.ins| - 1];
             T.InputOk(i) && T.WellTyped(c.spec) && d.spec == T.Step(c.cfg, c.spec, i))
  }

  lemma ControlFollows(c: Real, a: H.Action)
    requires Do(c, Control(a)).Some?
    ensures Follows(c, Do(c, Control(a)).value)
  {
    hide T.Step, T.WellTyped, H.Do, View, Handled, WillWrite, AtStage;
  }

  lemma HandlerFollows(c: Real, act: Act)
    requires Do(c, act).Some? && (act.Work? || act.Hear?)
    ensures Follows(c, Do(c, act).value)
  {
    hide T.Step, T.WellTyped, View, Handled, T.WaitRx, Fit;
  }

  lemma AskingFollows(c: Real, act: Act)
    requires Do(c, act).Some? && (act.Ask? || act.Copy?)
    ensures Follows(c, Do(c, act).value)
  {
    hide T.Step, T.WellTyped, View, Handled, T.WaitRx, Fit, H.Do;
  }

  lemma FollowingIsGood(c: Real, d: Real)
    requires L.Good(c.cfg, c.spec) && Follows(c, d)
    ensures L.Good(d.cfg, d.spec)
  {
    hide L.Good, T.Step;
    if d.ins != c.ins {
      L.StepKeepsGood(c.cfg, c.spec, d.ins[|d.ins| - 1]);
    }
  }

  lemma PartsMakeAgreement(c: Real)
    ensures Agrees(c) <==> H.Inv(c.s) && L.Good(c.cfg, c.spec) && Parts(c)
  {
    hide H.Inv, L.Good;
  }

  lemma IsHandler(c: Real, act: Act)
    ensures act.Work? ==> Do(c, act) == DoWork(c, act.sendOk)
    ensures act.Hear? ==> Do(c, act) == DoHear(c, act.f)
  {
    hide DoWork, DoHear, DoControl, H.Do;
  }

  lemma StepAgrees(c: Real, act: Act)
    requires Agrees(c) && Do(c, act).Some?
    ensures Agrees(Do(c, act).value) && Follows(c, Do(c, act).value)
  {
    hide *;
    var d := Do(c, act).value;
    PartsMakeAgreement(c);
    PartsMakeAgreement(d);
    ControlIsHandover(c, act);
    IsHandler(c, act);
    match act {
      case Ask(_) => AskingAgrees(c, act); AskingFollows(c, act);
      case Copy(_) => AskingAgrees(c, act); AskingFollows(c, act);
      case Work(sendOk) => WorkAgrees(c, sendOk); HandlerFollows(c, act);
      case Hear(f) => HearAgrees(c, f); HandlerFollows(c, act);
      case Control(a) => ControlAgreesOn(c, a); ControlFollows(c, a);
    }
    FollowingIsGood(c, d);
  }

  lemma GoodIsTyped(cfg: T.Config, x: T.Tx)
    requires L.Good(cfg, x)
    ensures T.WellTyped(x)
  {
  }

  /** A handler at work can compute, and publish what it has computed. */
  lemma GoingGoesOn(c: Real, sendOk: bool, f: T.RxFrame)
    requires Agrees(c) && AtStage(c, H.Going) && f.onChannel && (f.dlc >= 3 ==> |f.data| >= 3)
    ensures var d := c.s.running.value;
      if c.out.None? then
        if d.kind.RxDispatch? then Do(c, if c.s.leaf.WaitFlowControl? then Hear(f) else Control(H.Return)).Some?
        else Do(c, Work(sendOk)).Some?
      else if c.out.value.busy then
        d.now <= c.out.value.deadline && Do(c, Control(H.Arm(c.out.value.deadline - d.now))).Some?
      else Do(c, Control(H.Finish)).Some?
  {
    RunFacts(c.s);
    GoodIsTyped(c.cfg, c.spec);
    if Open(c.s) && c.out.None? {
      SizesAreOk(c);
    }
    hide H.Inv, L.Good, T.WellTyped, Fit, Handled, T.Step, T.WaitRx;
  }

  /** Before and after that it can go on, too: no handler gets stuck on the way. */
  lemma HandlersGoOn(c: Real)
    requires Agrees(c) && c.s.running.Some? && !AtStage(c, H.Going)
    ensures match c.s.running.value.stage
      case Begun => Do(c, Control(if c.s.leaf.Idle? then H.Return else H.Look)).Some?
      case Armed => Do(c, Control(if c.out.value.leaf == c.s.leaf then H.Return else H.Move(c.out.value.leaf))).Some?
      case Finished => Do(c, Control(H.Quiet)).Some?
      case _ => Do(c, Control(H.Return)).Some?
  {
    RunFacts(c.s);
    hide H.Inv, L.Good, View, T.Step, Linearize, Compute;
  }

  /** The buffer holds a payload whenever a handler of the worker is at work. */
  lemma SizesAreOk(c: Real)
    requires Agrees(c) && Open(c.s) && AtStage(c, H.Going) && c.out.None?
    ensures Fit(View(c))
  {
    TokenFacts(c.s);
    RunFacts(c.s);
    OpenIsSized(c.cfg, c.spec);
    hide H.Inv, L.Good;
  }

  lemma OpenIsSized(cfg: T.Config, x: T.Tx)
    requires L.Good(cfg, x) && (x.startPending || !x.leaf.Idle?)
    ensures Fit(x)
  {
  }

  // ---------------------------------------------------------------- whole schedules

  /** The record as a run of module IsoTp has it. */
  ghost predicate IsRun(cfg: T.Config, c: Real) {
    && Agrees(c) && c.cfg == cfg && L.Good(cfg, T.INITIAL)
    && (forall i :: i in c.ins ==> T.InputOk(i)) && c.spec == L.Run(cfg, T.INITIAL, c.ins)
  }

  lemma {:induction false} RunLast(cfg: T.Config, x: T.Tx, ins: seq<T.Input>, i: T.Input)
    requires L.Good(cfg, x) && T.InputOk(i) && forall j :: j in ins ==> T.InputOk(j)
    ensures T.WellTyped(L.Run(cfg, x, ins))
    ensures L.Run(cfg, x, ins + [i]) == T.Step(cfg, L.Run(cfg, x, ins), i)
    decreases |ins|
  {
    GoodIsTyped(cfg, L.Run(cfg, x, ins));
    hide L.Good, T.Step;
    if ins == [] {
      assert ins + [i] == [i] && [i][1..] == [];
      GoodIsTyped(cfg, x);
      L.StepKeepsGood(cfg, x, i);
    } else {
      assert (ins + [i])[0] == ins[0] && (ins + [i])[1..] == ins[1..] + [i];
      GoodIsTyped(cfg, x);
      L.StepKeepsGood(cfg, x, ins[0]);
      RunLast(cfg, T.Step(cfg, x, ins[0]), ins[1..], i);
    }
  }

  lemma StepIsRun(cfg: T.Config, c: Real, act: Act)
    requires IsRun(cfg, c) && Do(c, act).Some?
    ensures IsRun(cfg, Do(c, act).value)
  {
    hide Do, Agrees, L.Good, T.Step, L.Run;
    StepAgrees(c, act);
    var d := Do(c, act).value;
    if d.ins != c.ins {
      RunLast(cfg, T.INITIAL, c.ins, d.ins[|d.ins| - 1]);
    }
  }

  lemma StartIsRun(cfg: T.Config)
    ensures IsRun(cfg, Start(cfg))
  {
    hide H.Both, H.Inv, L.Good, L.Run, Agrees, Parts;
    L.InitialIsGood(cfg);
    StartControl();
    StartParts(cfg);
    PartsMakeAgreement(Start(cfg));
    RunNothing(cfg, T.INITIAL);
  }

  lemma RunNothing(cfg: T.Config, x: T.Tx)
    requires L.Good(cfg, x)
    ensures L.Run(cfg, x, []) == x
  {
    hide L.Good;
  }

  lemma StartControl()
    ensures H.Inv(H.INITIAL)
  {
  }

  lemma StartParts(cfg: T.Config)
    ensures Parts(Start(cfg))
  {
  }

  /** Every schedule of requesters, worker, receive task and clock is a run of module IsoTp, in the
      order in which starts are published and handlers compute. */
  lemma EveryScheduleIsARun(cfg: T.Config, schedule: seq<Act>)
    ensures IsRun(cfg, Run(Do, Start(cfg), schedule))
  {
    hide Do, IsRun;
    StartIsRun(cfg);
    var inv := c => IsRun(cfg, c);
    forall c, act | inv(c) && Do(c, act).Some?
      ensures inv(Do(c, act).value)
    {
      StepIsRun(cfg, c, act);
    }
    RunKeeps(Do, inv, Start(cfg), schedule);
  }

  /** No handler has yet to publish, no requester is at work. */
  predicate Quiet(c: Real) {
    c.s.running.None? && !Copying(c)
  }

  lemma QuietViewIsSpec(c: Real)
    requires Agrees(c) && Quiet(c)
    ensures View(c) == c.spec.(startPending := c.s.startPending)
    ensures c.spec.startPending == (c.s.startPending || c.s.worker.TookStart?)
  {
    hide H.Inv, L.Good;
  }

  /** So under every interleaving, torn copies and late deadlines included: the frames sent are the
      first of the segmentation of the payload last published, the reference receiver holds a prefix of
      it, every frame was permitted, and between dispatches the result is what the frames show. */
  lemma CorrectUnderEveryInterleaving(cfg: T.Config, schedule: seq<Act>)
    ensures var c := Run(Do, Start(cfg), schedule);
      && IsRun(cfg, c) && c.mem.log == c.spec.log
      && T.Permitted(c.mem.log) && T.Heard(c.mem.log) != T.Broken && T.DataOf(T.Heard(c.mem.log)) <= c.spec.payload
      && (!Copying(c) ==> c.mem.payload == c.spec.payload)
      && V.Segments(cfg, c.spec.payload, V.Frames(c.mem.log))
      && (Quiet(c) ==> (c.mem.result.Success? <==> T.Heard(c.mem.log) == T.Delivered(c.mem.payload)))
      && (Quiet(c) && c.mem.result != T.NoResult ==>
            c.mem.result == V.ResultOf(cfg, c.mem.payload, c.mem.log))
  {
    EveryScheduleIsARun(cfg, schedule);
    hide Do, Run, T.Heard, T.Permitted, H.Inv, L.Good, V.ResultOf, V.Frames, V.WireFrame;
    var c := Run(Do, Start(cfg), schedule);
    L.TransfersAreCorrect(cfg, c.ins);
    V.ResultFollowsFromFrames(cfg, c.ins);
    V.FramesOnTheWire(cfg, c.ins);
    if Quiet(c) {
      QuietViewIsSpec(c);
    }
  }
}
