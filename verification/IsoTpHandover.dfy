/** The handover of a transfer between the FreeRTOS tasks of main/isotp_tx.c: requesters, the worker and
    the receive task, interleaved at the granularity of their atomic accesses and of the request
    lock, the deadline lock and the machine lock. What the handlers do is reduced to how they move the
    machine and set the deadline. */
module IsoTpHandover {
  import opened Wrappers
  import opened Schedules
  import Transfer = IsoTp

  type Leaf = Transfer.Leaf
  const NO_DEADLINE := Transfer.NO_DEADLINE

  /** How far the requester holding the request lock has come. It publishes the start first and
      writes the deadline, a reading of the clock, afterwards. */
  datatype Requester =
    | Unlocked | Checked | Copying | Copied | BusySet | PendingSet | TimeRead(at: int) | Written

  datatype Kind = StartEvent | TickDispatch | RxDispatch

  /** How far the handler has come: about to read the deadline, at work, done with nothing to do,
      its next deadline set, or past clearing busy and then past clearing the deadline. */
  datatype Stage = Begun | Going | Done | Armed | Finished | Quieted

  /** The dispatch holding the machine lock, stamped with the clock. */
  datatype Dispatch = Dispatch(kind: Kind, now: int, stage: Stage)

  datatype Worker = Parked | Awake | TookStart | TookNothing | Dispatching
  datatype RxTask = Outside | SawBusy | Delivering

  /** History: transfers accepted and started; the deadline the handlers set last; whether the last
      start was taken with its deadline still to be written; whether a tick since then found its
      leaf due before the handlers' own deadline. */
  datatype System = System(
    requester: Requester, notifiers: nat, notified: bool,
    worker: Worker, rx: RxTask,
    busy: bool, startPending: bool, clock: int, deadline: int,
    leaf: Leaf, running: Option<Dispatch>,
    accepted: nat, started: nat, startedOnIdle: nat, own: int, early: bool, hasty: bool)

  const INITIAL := System(
    Unlocked, 0, false, Parked, Outside, false, false, 0, NO_DEADLINE, Transfer.Idle, None,
    0, 0, 0, NO_DEADLINE, false, false)

  datatype Action =
    | Request | BeginCopy | EndCopy | SetBusy | SetPending | ReadClock | WriteDeadline | Unlock | Notify
    | Wake | Poll | Enter
    | RxCheck | RxEnter
    | Look | Arm(us: nat) | Finish | Quiet | Return | Move(to: Leaf)
    | Pass(us: nat)

  /** The requester has published a start and not yet written its deadline. */
  predicate Owes(s: System) {
    s.requester.PendingSet? || s.requester.TimeRead?
  }

  /** The handler now running may call `finish`, set a deadline, or request a transition to `to`. */
  predicate MayFinish(kind: Kind, leaf: Leaf) {
    match kind
    case StartEvent => leaf.Idle?
    case TickDispatch => !leaf.Idle?
    case RxDispatch => leaf.WaitFlowControl?
  }

  predicate MayArm(kind: Kind, leaf: Leaf) {
    match kind
    case StartEvent => leaf.Idle?
    case TickDispatch => leaf.SendConsecutive?
    case RxDispatch => leaf.WaitFlowControl?
  }

  predicate MayMove(kind: Kind, leaf: Leaf, to: Leaf) {
    match kind
    case StartEvent => leaf.Idle? && to.WaitFlowControl?
    case TickDispatch => leaf.SendConsecutive? && to.WaitFlowControl?
    case RxDispatch => leaf.WaitFlowControl? && to.SendConsecutive?
  }

  /** The handler may be over without having changed anything, or with only its deadline set. */
  predicate MayReturn(d: Dispatch, leaf: Leaf) {
    match d.stage
    case Begun => leaf.Idle?
    case Going => d.kind.RxDispatch? || (d.kind.StartEvent? && !leaf.Idle?)
    case Armed => !d.kind.StartEvent?
    case Finished => false
    case _ => true
  }

  predicate AfterFinish(s: System) {
    s.running.Some? && (s.running.value.stage.Finished? || s.running.value.stage.Quieted?)
  }

  /** The handler now running may read the payload buffer. */
  predicate MayRead(s: System) {
    s.running.Some? && !AfterFinish(s)
    && match s.running.value.kind
       case StartEvent => s.leaf.Idle?
       case TickDispatch => s.leaf.SendConsecutive?
       case RxDispatch => false
  }

  /** The end of a dispatch: the lock is free and its task goes on. */
  function Release(s: System, leaf: Leaf): System
    requires s.running.Some?
  {
    if s.running.value.kind.RxDispatch? then s.(running := None, leaf := leaf, rx := Outside)
    else s.(running := None, leaf := leaf, worker := Parked)
  }

  function At(s: System, stage: Stage): System
    requires s.running.Some?
  {
    s.(running := Some(s.running.value.(stage := stage)))
  }

  /** The steps of requesters. */
  function DoRequest(s: System, a: Action): Option<System> {
    match a
    case Request =>
      if s.requester.Unlocked? then Some(if s.busy then s else s.(requester := Checked)) else None
    case BeginCopy => if s.requester.Checked? then Some(s.(requester := Copying)) else None
    case EndCopy => if s.requester.Copying? then Some(s.(requester := Copied)) else None
    case SetBusy => if s.requester.Copied? then Some(s.(requester := BusySet, busy := true)) else None
    case SetPending =>
      if s.requester.BusySet?
      then Some(s.(requester := PendingSet, startPending := true, accepted := s.accepted + 1)) else None
    case ReadClock => if s.requester.PendingSet? then Some(s.(requester := TimeRead(s.clock))) else None
    case WriteDeadline =>
      if s.requester.TimeRead? then Some(s.(requester := Written, deadline := s.requester.at)) else None
    case Unlock =>
      if s.requester.Written? then Some(s.(requester := Unlocked, notifiers := s.notifiers + 1)) else None
    case Notify => if s.notifiers > 0 then Some(s.(notifiers := s.notifiers - 1, notified := true)) else None
    case _ => None
  }

  /** The steps of the worker and the receive task towards a dispatch. */
  function DoTask(s: System, a: Action): Option<System> {
    match a
    case Wake => if s.worker.Parked? then Some(s.(worker := Awake, notified := false)) else None
    case Poll =>
      if !s.worker.Awake? then None
      else if s.startPending then
        Some(s.(worker := TookStart, startPending := false, early := Owes(s), hasty := false))
      else Some(s.(worker := TookNothing))
    case Enter =>
      if s.running.Some? then None
      else if s.worker.TookStart? then
        Some(s.(worker := Dispatching, running := Some(Dispatch(StartEvent, s.clock, Going)), started := s.started + 1,
                startedOnIdle := s.startedOnIdle + (if s.leaf.Idle? then 1 else 0)))
      else if s.worker.TookNothing? then
        Some(s.(worker := Dispatching, running := Some(Dispatch(TickDispatch, s.clock, Begun))))
      else None
    case RxCheck => if s.rx.Outside? then Some(if s.busy then s.(rx := SawBusy) else s) else None
    case RxEnter =>
      if s.rx.SawBusy? && s.running.None?
      then Some(s.(rx := Delivering, running := Some(Dispatch(RxDispatch, s.clock, Going)))) else None
    case Pass(us) => Some(s.(clock := s.clock + us))
    case _ => None
  }

  /** The steps of a handler. */
  function DoHandler(s: System, a: Action): Option<System> {
    if s.running.None? then None else
      var d := s.running.value;
      match a
      case Look =>
        if !d.stage.Begun? || s.leaf.Idle? then None
        else if s.deadline <= d.now then Some(At(s, Going).(hasty := s.hasty || d.now < s.own))
        else Some(At(s, Done))
      case Arm(us) =>
        if d.stage.Going? && MayArm(d.kind, s.leaf)
        then Some(At(s, Armed).(deadline := d.now + us, own := d.now + us)) else None
      case Finish =>
        if d.stage.Going? && MayFinish(d.kind, s.leaf) then Some(At(s, Finished).(busy := false)) else None
      case Quiet =>
        if d.stage.Finished? then Some(At(s, Quieted).(deadline := NO_DEADLINE, own := NO_DEADLINE)) else None
      case Return =>
        if d.stage.Quieted? then Some(Release(s, Transfer.Idle))
        else if MayReturn(d, s.leaf) then Some(Release(s, s.leaf))
        else None
      case Move(to) =>
        if d.stage.Armed? && MayMove(d.kind, s.leaf, to) then Some(Release(s, to)) else None
      case _ => None
  }

  /** One step of one task; none when it cannot be taken. */
  function Do(s: System, a: Action): Option<System> {
    match a
    case Look => DoHandler(s, a)
    case Arm(_) => DoHandler(s, a)
    case Finish => DoHandler(s, a)
    case Quiet => DoHandler(s, a)
    case Return => DoHandler(s, a)
    case Move(_) => DoHandler(s, a)
    case Wake => DoTask(s, a)
    case Poll => DoTask(s, a)
    case Enter => DoTask(s, a)
    case RxCheck => DoTask(s, a)
    case RxEnter => DoTask(s, a)
    case Pass(_) => DoTask(s, a)
    case _ => DoRequest(s, a)
  }

  // ---------------------------------------------------------------- the handover

  function One(b: bool): nat {
    if b then 1 else 0
  }

  /** The places an accepted transfer can be in before it finishes. */
  function Tokens(s: System): nat {
    One(s.requester.BusySet?) + One(s.startPending) + One(s.worker.TookStart?)
    + One(Starting(s)) + One(!s.leaf.Idle? && !AfterFinish(s))
  }

  /** The start event is being handled and neither finished nor moved on. */
  predicate Starting(s: System) {
    s.running.Some? && s.running.value.kind.StartEvent? && s.leaf.Idle? && !AfterFinish(s)
  }

  ghost predicate Inv(s: System) {
    && Tokens(s) == One(s.busy)
    && (s.requester.Checked? || s.requester.Copying? || s.requester.Copied? ==> !s.busy)
    && (s.worker.Dispatching? <==> s.running.Some? && !s.running.value.kind.RxDispatch?)
    && (s.rx.Delivering? <==> s.running.Some? && s.running.value.kind.RxDispatch?)
    && (s.running.Some? ==> StageOk(s.running.value, s.leaf))
    && s.accepted == s.started + One(s.startPending) + One(s.worker.TookStart?)
    && s.startedOnIdle == s.started
    && (s.startPending && !s.worker.Awake? ==>
          Owes(s) || s.requester.Written? || s.notifiers > 0 || s.notified)
  }

  predicate StageOk(d: Dispatch, leaf: Leaf) {
    && (d.kind.StartEvent? ==> leaf.Idle?)
    && (d.stage.Begun? || d.stage.Done? ==> d.kind.TickDispatch?)
    && (d.stage.Armed? ==> MayArm(d.kind, leaf))
    && (d.stage.Going? && d.kind.TickDispatch? ==> !leaf.Idle?)
    && (d.stage.Finished? || d.stage.Quieted? ==> MayFinish(d.kind, leaf))
  }

  lemma RequesterKeepsInv(s: System, a: Action)
    requires Inv(s) && DoRequest(s, a).Some?
    ensures Inv(DoRequest(s, a).value)
  {
  }

  lemma TaskKeepsInv(s: System, a: Action)
    requires Inv(s) && DoTask(s, a).Some?
    ensures Inv(DoTask(s, a).value)
  {
  }

  lemma SettingKeepsInv(s: System, a: Action)
    requires Inv(s) && DoHandler(s, a).Some? && (a.Look? || a.Arm?)
    ensures Inv(DoHandler(s, a).value)
  {
  }

  lemma FinishKeepsInv(s: System, a: Action)
    requires Inv(s) && DoHandler(s, a).Some? && (a.Finish? || a.Quiet?)
    ensures Inv(DoHandler(s, a).value)
  {
  }

  lemma ReleaseKeepsInv(s: System, leaf: Leaf)
    requires Inv(s) && s.running.Some?
    requires if AfterFinish(s) then leaf.Idle? else !Starting(s) && leaf.Idle? == s.leaf.Idle?
    ensures Inv(Release(s, leaf))
  {
  }

  lemma MoveKeepsInv(s: System, leaf: Leaf)
    requires Inv(s) && s.running.Some? && !AfterFinish(s) && Starting(s) && !leaf.Idle?
    ensures Inv(Release(s, leaf))
  {
  }

  lemma HandlerKeepsInv(s: System, a: Action)
    requires Inv(s) && DoHandler(s, a).Some?
    ensures Inv(DoHandler(s, a).value)
  {
    match a
    case Return =>
      assert StageOk(s.running.value, s.leaf);
      hide Inv, Release;
      ReleaseKeepsInv(s, if AfterFinish(s) then Transfer.Idle else s.leaf);
    case Move(to) =>
      hide Inv, Release;
      if Starting(s) {
        MoveKeepsInv(s, to);
      } else {
        ReleaseKeepsInv(s, to);
      }
    case _ =>
      hide Inv, DoHandler;
      OnlyHandlersSteps(s, a);
      if a.Look? || a.Arm? {
        SettingKeepsInv(s, a);
      } else {
        FinishKeepsInv(s, a);
      }
  }

  lemma StepKeepsInv(s: System, a: Action)
    requires Inv(s) && Do(s, a).Some?
    ensures Inv(Do(s, a).value)
  {
    hide Inv, DoRequest, DoTask, DoHandler;
    if DoRequest(s, a).Some? {
      RequesterKeepsInv(s, a);
    }
    if DoTask(s, a).Some? {
      TaskKeepsInv(s, a);
    }
    if DoHandler(s, a).Some? {
      HandlerKeepsInv(s, a);
    }
  }

  /** The promises a caller relies on. */
  ghost predicate Safe(s: System) {
    && s.accepted == s.started + (if s.startPending || s.worker.TookStart? then 1 else 0)
    && s.startedOnIdle == s.started
    && (s.requester.Copying? ==> !MayRead(s) && !s.busy && !s.startPending && (s.leaf.Idle? || AfterFinish(s)))
    && (s.startPending && s.worker.Parked? ==>
          s.notified || s.notifiers > 0 || Owes(s) || s.requester.Written?)
  }

  lemma InvIsSafe(s: System)
    requires Inv(s)
    ensures Safe(s)
  {
    assert s.startPending && s.worker.TookStart? ==> Tokens(s) >= 2;
  }

  // ---------------------------------------------------------------- whose deadline it is

  /** The handlers have set a deadline in this transfer and not ended it. */
  predicate Attended(s: System) {
    !AfterFinish(s) && (!s.leaf.Idle? || (Starting(s) && s.running.value.stage.Armed?))
  }

  /** The start has been taken, and its transfer has not finished. */
  predicate InFlight(s: System) {
    s.worker.TookStart? || Starting(s) || (!s.leaf.Idle? && !AfterFinish(s))
  }

  ghost predicate Deadlines(s: System) {
    && (s.requester.TimeRead? ==> s.requester.at <= s.clock)
    && (s.running.Some? ==> s.running.value.now <= s.clock)
    && (Attended(s) && !s.early ==> s.deadline == s.own)
    && (InFlight(s) && !s.early ==> !Owes(s))
    && (!s.busy && !s.early ==> !Owes(s))
    && (!s.busy && !s.early && !(s.running.Some? && s.running.value.stage.Finished?) ==> s.deadline == NO_DEADLINE)
    && (s.hasty ==> s.early) && (s.worker.TookStart? ==> !s.hasty)
  }

  ghost predicate Both(s: System) {
    Inv(s) && Deadlines(s)
  }

  lemma PublishingKeepsDeadlines(s: System, a: Action)
    requires Inv(s) && Deadlines(s) && DoRequest(s, a).Some? && (a.SetBusy? || a.SetPending?)
    ensures Deadlines(DoRequest(s, a).value)
  {
  }

  lemma WritingKeepsDeadlines(s: System, a: Action)
    requires Inv(s) && Deadlines(s) && DoRequest(s, a).Some? && (a.ReadClock? || a.WriteDeadline?)
    ensures Deadlines(DoRequest(s, a).value)
  {
  }

  lemma CopyingKeepsDeadlines(s: System, a: Action)
    requires Deadlines(s) && DoRequest(s, a).Some?
    requires !a.SetBusy? && !a.SetPending? && !a.ReadClock? && !a.WriteDeadline?
    ensures Deadlines(DoRequest(s, a).value)
  {
  }

  lemma RequesterKeepsDeadlines(s: System, a: Action)
    requires Inv(s) && Deadlines(s) && DoRequest(s, a).Some?
    ensures Deadlines(DoRequest(s, a).value)
  {
    hide *;
    if a.SetBusy? || a.SetPending? {
      PublishingKeepsDeadlines(s, a);
    } else if a.ReadClock? || a.WriteDeadline? {
      WritingKeepsDeadlines(s, a);
    } else {
      CopyingKeepsDeadlines(s, a);
    }
  }

  lemma TakingKeepsDeadlines(s: System, a: Action)
    requires Inv(s) && Deadlines(s) && DoTask(s, a).Some? && (a.Poll? || a.Enter?)
    ensures Deadlines(DoTask(s, a).value)
  {
  }

  lemma TaskKeepsDeadlines(s: System, a: Action)
    requires Inv(s) && Deadlines(s) && DoTask(s, a).Some?
    ensures Deadlines(DoTask(s, a).value)
  {
    if a.Poll? || a.Enter? {
      hide *;
      TakingKeepsDeadlines(s, a);
    }
  }

  lemma SettingKeepsDeadlines(s: System, a: Action)
    requires Inv(s) && Deadlines(s) && DoHandler(s, a).Some? && (a.Look? || a.Arm?)
    ensures Deadlines(DoHandler(s, a).value)
  {
  }

  lemma FinishKeepsDeadlines(s: System, a: Action)
    requires Inv(s) && Deadlines(s) && DoHandler(s, a).Some? && (a.Finish? || a.Quiet?)
    ensures Deadlines(DoHandler(s, a).value)
  {
  }

  lemma EndKeepsDeadlines(s: System, a: Action)
    requires Inv(s) && Deadlines(s) && DoHandler(s, a).Some? && (a.Return? || a.Move?)
    ensures Deadlines(DoHandler(s, a).value)
  {
  }

  lemma OnlyHandlersSteps(s: System, a: Action)
    requires DoHandler(s, a).Some?
    ensures a.Look? || a.Arm? || a.Finish? || a.Quiet? || a.Return? || a.Move?
  {
  }

  lemma HandlerKeepsDeadlines(s: System, a: Action)
    requires Inv(s) && Deadlines(s) && DoHandler(s, a).Some?
    ensures Deadlines(DoHandler(s, a).value)
  {
    hide *;
    OnlyHandlersSteps(s, a);
    if a.Look? || a.Arm? {
      SettingKeepsDeadlines(s, a);
    } else if a.Finish? || a.Quiet? {
      FinishKeepsDeadlines(s, a);
    } else {
      EndKeepsDeadlines(s, a);
    }
  }

  lemma StepKeepsBoth(s: System, a: Action)
    requires Both(s) && Do(s, a).Some?
    ensures Both(Do(s, a).value)
  {
    hide Inv, Deadlines, DoRequest, DoTask, DoHandler;
    StepKeepsInv(s, a);
    if DoRequest(s, a).Some? {
      RequesterKeepsDeadlines(s, a);
    }
    if DoTask(s, a).Some? {
      TaskKeepsDeadlines(s, a);
    }
    if DoHandler(s, a).Some? {
      HandlerKeepsDeadlines(s, a);
    }
  }

  lemma RunKeepsBoth(s: System, schedule: seq<Action>)
    requires Both(s)
    ensures Both(Run(Do, s, schedule))
  {
    hide Do, Both;
    forall t, a | Both(t) && Do(t, a).Some?
      ensures Both(Do(t, a).value)
    {
      StepKeepsBoth(t, a);
    }
    RunKeeps(Do, Both, s, schedule);
  }

  lemma InitialIsBoth()
    ensures Both(INITIAL)
  {
  }

  lemma EveryRunKeepsBoth(schedule: seq<Action>)
    ensures Both(Run(Do, INITIAL, schedule))
  {
    hide Do, Both, Run;
    InitialIsBoth();
    RunKeepsBoth(INITIAL, schedule);
  }

  lemma BothAreSafe(s: System)
    requires Both(s)
    ensures Safe(s) && OwnDeadlines(s)
  {
    InvIsSafe(s);
  }

  /** Under every interleaving: each accepted start has been dispatched exactly once or is still
      on its way, every start was dispatched with the machine idle, the buffer is never written
      while a transfer is open or a handler may read it, and a parked worker is always about to
      be woken for a pending start. */
  lemma HandoverIsSafe(schedule: seq<Action>)
    ensures Safe(Run(Do, INITIAL, schedule))
  {
    hide Do, Both, Safe, OwnDeadlines, Run;
    EveryRunKeepsBoth(schedule);
    BothAreSafe(Run(Do, INITIAL, schedule));
  }

  ghost predicate OwnDeadlines(s: System) {
    && (Attended(s) ==> s.early || s.deadline == s.own)
    && (s.hasty ==> s.early)
    && (!s.busy && !AfterFinish(s) ==> s.early || s.deadline == NO_DEADLINE)
  }

  /** Under every interleaving: unless the worker took the last start before its requester wrote the
      deadline, the deadline in an open transfer is the one the handlers set last, no tick acts
      before it, and there is none while nothing is requested. */
  lemma DeadlinesAreOwn(schedule: seq<Action>)
    ensures OwnDeadlines(Run(Do, INITIAL, schedule))
  {
    hide Do, Both, Safe, OwnDeadlines, Run;
    EveryRunKeepsBoth(schedule);
    BothAreSafe(Run(Do, INITIAL, schedule));
  }

  // ---------------------------------------------------------------- what exactly it takes

  /** Later in the transfer whose start the worker has just taken, a tick has acted before the
      handlers' own deadline. */
  ghost predicate ActsEarly(p: System, more: seq<Action>) {
    var t := Run(Do, p, more);
    t.started == p.started + 1 && t.hasty
  }

  /** Later in that transfer the deadline in force is not the handlers' own. */
  ghost predicate LosesDeadline(p: System, more: seq<Action>) {
    var t := Run(Do, p, more);
    t.started == p.started + 1 && Attended(t) && t.deadline != t.own
  }

  /** The first `n` transfers are started, and one more at most taken without its deadline owed. */
  ghost predicate Followed(n: nat, t: System) {
    && Both(t) && n <= t.started
    && (t.started == n ==> t.worker.TookStart? && !t.early)
    && (t.started == n + 1 && !t.worker.TookStart? ==> !t.early)
  }

  /** Only taking a start and dispatching it matter here. */
  predicate Counts(t: System, a: Action, u: System) {
    && (if a.Poll? && t.startPending then u.worker.TookStart? && t.worker.Awake? && u.started == t.started
        else if a.Enter? && t.worker.TookStart? then
          !u.worker.TookStart? && u.started == t.started + 1 && u.early == t.early
        else u.started == t.started && u.early == t.early && (u.worker.TookStart? ==> t.worker.TookStart?))
    && (t.worker.TookStart? && !a.Enter? && (t.running.Some? ==> t.running.value.kind.RxDispatch?) ==>
          u.worker.TookStart?)
  }

  lemma RequesterCounts(t: System, a: Action)
    requires DoRequest(t, a).Some?
    ensures Counts(t, a, DoRequest(t, a).value)
  {
  }

  lemma TaskCounts(t: System, a: Action)
    requires DoTask(t, a).Some?
    ensures Counts(t, a, DoTask(t, a).value)
  {
  }

  lemma HandlerCounts(t: System, a: Action)
    requires DoHandler(t, a).Some?
    ensures Counts(t, a, DoHandler(t, a).value)
  {
  }

  lemma StepCounts(t: System, a: Action)
    requires Do(t, a).Some?
    ensures Counts(t, a, Do(t, a).value)
  {
    hide Counts, DoRequest, DoTask, DoHandler;
    if DoRequest(t, a).Some? {
      RequesterCounts(t, a);
    }
    if DoTask(t, a).Some? {
      TaskCounts(t, a);
    }
    if DoHandler(t, a).Some? {
      HandlerCounts(t, a);
    }
  }

  lemma StepKeepsFollowed(n: nat, t: System, a: Action)
    requires Followed(n, t) && Do(t, a).Some?
    ensures Followed(n, Do(t, a).value)
  {
    assert t.worker.TookStart? && t.running.Some? ==> t.running.value.kind.RxDispatch?;
    hide Do, Both;
    StepKeepsBoth(t, a);
    StepCounts(t, a);
  }

  lemma NeverBites(p: System, more: seq<Action>)
    requires Both(p) && p.worker.TookStart? && !p.early
    ensures !ActsEarly(p, more) && !LosesDeadline(p, more)
  {
    hide Do, Both;
    var inv := t => Followed(p.started, t);
    forall t, a | inv(t) && Do(t, a).Some?
      ensures inv(Do(t, a).value)
    {
      StepKeepsFollowed(p.started, t, a);
    }
    RunKeeps(Do, inv, p, more);
    var t := Run(Do, p, more);
    if t.started == p.started + 1 {
      FollowedIsOwn(p.started, t);
    }
  }

  lemma FollowedIsOwn(n: nat, t: System)
    requires Followed(n, t) && t.started == n + 1
    ensures !t.hasty && (Attended(t) ==> t.deadline == t.own)
  {
    assert t.worker.TookStart? && Attended(t) ==> Tokens(t) >= 2;
  }

  /** The receive task may still hold the machine for the transfer before; it lets go. */
  lemma LetGo(p: System) returns (more: seq<Action>, q: System)
    requires Both(p) && p.worker.TookStart?
    ensures Run(Do, p, more) == q && Both(q)
    ensures q.running.None? && q.leaf.Idle? && q.worker.TookStart? && q.requester == p.requester
    ensures q.started == p.started
  {
    more := Start(Do, p);
    q := p;
    if p.running.Some? {
      assert Tokens(p) <= 1;
      if p.running.value.stage.Finished? {
        more := Then(Do, p, more, q, Quiet);
        q := Do(q, Quiet).value;
      }
      more := Then(Do, p, more, q, Return);
      q := Do(q, Return).value;
    }
    assert Tokens(p) <= 1;
    hide Do, Both;
    RunKeepsBoth(p, more);
  }

  /** The worker opens the transfer with a deadline a tick away; then the requester's reading
      replaces it. */
  lemma Overwritten(q: System) returns (more: seq<Action>, t: System)
    requires Both(q) && Owes(q) && q.running.None? && q.leaf.Idle? && q.worker.TookStart?
    ensures Run(Do, q, more) == t && Both(t)
    ensures t.started == q.started + 1 && t.leaf.WaitFlowControl? && t.running.None? && t.worker.Parked?
    ensures t.requester.Written? && t.deadline <= t.clock < t.own
  {
    more := Start(Do, q);
    hide Run;
    t := q;
    more := Then(Do, q, more, t, Enter);
    t := Do(t, Enter).value;
    more := Then(Do, q, more, t, Arm(1));
    t := Do(t, Arm(1)).value;
    more := Then(Do, q, more, t, Move(Transfer.WaitFlowControl));
    t := Do(t, Move(Transfer.WaitFlowControl)).value;
    if t.requester.PendingSet? {
      more := Then(Do, q, more, t, ReadClock);
      t := Do(t, ReadClock).value;
    }
    more := Then(Do, q, more, t, WriteDeadline);
    t := Do(t, WriteDeadline).value;
    hide Do, Both;
    RunKeepsBoth(q, more);
  }

  lemma NothingMorePending(t: System)
    requires Both(t) && !t.leaf.Idle? && t.running.None?
    ensures !t.startPending
  {
    assert Tokens(t) <= 1;
  }

  /** The requester's notification wakes the worker. */
  lemma Woken(t: System) returns (more: seq<Action>, u: System)
    requires t.requester.Written? && t.worker.Parked?
    ensures Run(Do, t, more) == u
    ensures u == t.(requester := Unlocked, worker := Awake, notified := false)
  {
    more := Start(Do, t);
    hide Run;
    u := t;
    more := Then(Do, t, more, u, Unlock);
    u := Do(u, Unlock).value;
    more := Then(Do, t, more, u, Notify);
    u := Do(u, Notify).value;
    more := Then(Do, t, more, u, Wake);
    u := Do(u, Wake).value;
  }

  /** It finds its leaf due. */
  lemma FindsItDue(t: System) returns (more: seq<Action>, u: System)
    requires t.worker.Awake? && !t.startPending && !t.leaf.Idle? && t.running.None?
    requires t.deadline <= t.clock < t.own
    ensures Run(Do, t, more) == u && u.started == t.started && u.hasty
  {
    more := Start(Do, t);
    hide Run;
    u := t;
    more := Then(Do, t, more, u, Poll);
    u := Do(u, Poll).value;
    more := Then(Do, t, more, u, Enter);
    u := Do(u, Enter).value;
    more := Then(Do, t, more, u, Look);
    u := Do(u, Look).value;
  }

  lemma LateWriteBites(p: System) returns (lost: seq<Action>, early: seq<Action>)
    requires Both(p) && p.worker.TookStart? && Owes(p)
    ensures LosesDeadline(p, lost) && ActsEarly(p, early)
  {
    hide Do, Both;
    var first, q := LetGo(p);
    var second, t := Overwritten(q);
    NothingMorePending(t);
    var third, u := Woken(t);
    var fourth, v := FindsItDue(u);
    lost := first + second;
    RunAppend(Do, p, first, second);
    early := lost + third + fourth;
    RunAppend(Do, p, lost, third);
    RunAppend(Do, p, lost + third, fourth);
  }

  /** The worker is about to take a start, in any state a run can be in. The deadline in force in that
      transfer is always the handlers' own, and no tick of it acts before that, if and only if the
      requester has written its deadline by then. */
  lemma DeadlineIsOwnIffWritten(schedule: seq<Action>)
    requires var s := Run(Do, INITIAL, schedule); s.worker.Awake? && s.startPending
    ensures var s := Run(Do, INITIAL, schedule);
      && Do(s, Poll).Some?
      && (!Owes(s) <==> forall more :: !LosesDeadline(Do(s, Poll).value, more))
      && (!Owes(s) <==> forall more :: !ActsEarly(Do(s, Poll).value, more))
  {
    hide Run, Both, ActsEarly, LosesDeadline;
    EveryRunKeepsBoth(schedule);
    var s := Run(Do, INITIAL, schedule);
    var p := Do(s, Poll).value;
    StepKeepsBoth(s, Poll);
    hide Do;
    if Owes(s) {
      var lost, early := LateWriteBites(p);
    } else {
      forall more
        ensures !LosesDeadline(p, more) && !ActsEarly(p, more)
      {
        NeverBites(p, more);
      }
    }
  }

  /** Such a start can be taken: the worker need only wake between the two stores. */
  lemma LateWriteIsReachable() returns (schedule: seq<Action>)
    ensures var s := Run(Do, INITIAL, schedule); s.worker.Awake? && s.startPending && Owes(s)
  {
    var s := INITIAL;
    schedule := Start(Do, INITIAL);
    schedule := Then(Do, INITIAL, schedule, s, Request);
    s := Do(s, Request).value;
    schedule := Then(Do, INITIAL, schedule, s, BeginCopy);
    s := Do(s, BeginCopy).value;
    schedule := Then(Do, INITIAL, schedule, s, EndCopy);
    s := Do(s, EndCopy).value;
    schedule := Then(Do, INITIAL, schedule, s, SetBusy);
    s := Do(s, SetBusy).value;
    schedule := Then(Do, INITIAL, schedule, s, SetPending);
    s := Do(s, SetPending).value;
    schedule := Then(Do, INITIAL, schedule, s, Wake);
    s := Do(s, Wake).value;
  }

  // ---------------------------------------------------------------- agreement with the handlers

  /** Between dispatches, what the steps here know of a transfer on values. */
  predicate Mirrors(s: System, tx: Transfer.Tx) {
    && s.running.None? && s.leaf == tx.leaf && s.busy == tx.busy && s.startPending == tx.startPending
    && s.deadline == tx.deadline && Owes(s) == tx.owed
  }

  /** The end of a handler that calls `finish`. */
  lemma FinishSteps(s: System) returns (steps: seq<Action>, t: System)
    requires s.running.Some? && s.running.value.stage.Going? && MayFinish(s.running.value.kind, s.leaf)
    ensures Run(Do, s, steps) == t
    ensures t == Release(s.(busy := false, deadline := NO_DEADLINE, own := NO_DEADLINE), Transfer.Idle)
  {
    steps := Start(Do, s);
    hide Run;
    t := s;
    steps := Then(Do, s, steps, t, Finish);
    t := Do(t, Finish).value;
    steps := Then(Do, s, steps, t, Quiet);
    t := Do(t, Quiet).value;
    steps := Then(Do, s, steps, t, Return);
    t := Do(t, Return).value;
  }

  /** The end of a handler that sets a deadline and moves on or stays. */
  lemma ArmSteps(s: System, us: nat, to: Leaf) returns (steps: seq<Action>, t: System)
    requires s.running.Some? && s.running.value.stage.Going? && MayArm(s.running.value.kind, s.leaf)
    requires MayMove(s.running.value.kind, s.leaf, to) || (to == s.leaf && !s.running.value.kind.StartEvent?)
    ensures Run(Do, s, steps) == t
    ensures var at := s.running.value.now + us; t == Release(s.(deadline := at, own := at), to)
  {
    steps := Start(Do, s);
    hide Run;
    t := s;
    steps := Then(Do, s, steps, t, Arm(us));
    t := Do(t, Arm(us)).value;
    LastArmStep(t, to);
    var last := if to == s.leaf then Return else Move(to);
    hide Do;
    steps := Then(Do, s, steps, t, last);
    t := Do(t, last).value;
  }

  lemma LastArmStep(s: System, to: Leaf)
    requires s.running.Some? && s.running.value.stage.Armed?
    requires MayMove(s.running.value.kind, s.leaf, to) || (to == s.leaf && !s.running.value.kind.StartEvent?)
    ensures Do(s, if to == s.leaf then Return else Move(to)) == Some(Release(s, to))
  {
  }

  /** The worker polls and gets the machine. */
  lemma EnterSteps(s: System) returns (steps: seq<Action>, t: System)
    requires s.worker.Awake? && s.running.None?
    ensures Run(Do, s, steps) == t
    ensures t == s.(worker := Dispatching, startPending := false, running := t.running, started := t.started,
                    startedOnIdle := t.startedOnIdle, early := t.early, hasty := t.hasty)
    ensures t.running == Some(if s.startPending then Dispatch(StartEvent, s.clock, Going)
                              else Dispatch(TickDispatch, s.clock, Begun))
  {
    steps := Start(Do, s);
    hide Run;
    t := s;
    steps := Then(Do, s, steps, t, Poll);
    t := Do(t, Poll).value;
    steps := Then(Do, s, steps, t, Enter);
    t := Do(t, Enter).value;
  }

  lemma StartSteps(cfg: Transfer.Config, tx: Transfer.Tx, s: System, sendOk: bool)
    returns (steps: seq<Action>, t: System)
    requires s.running == Some(Dispatch(StartEvent, s.clock, Going)) && tx.leaf.Idle? && Transfer.SizeOk(tx)
    requires Mirrors(s.(running := None), tx)
    ensures Run(Do, s, steps) == t
    ensures Mirrors(t, Transfer.IdleStart(cfg, tx, s.clock, sendOk)) && t.worker.Parked?
  {
    hide Run, Do, Transfer.FirstFrame, Transfer.SingleFrame;
    if |tx.payload| <= Transfer.SINGLE_DATA || !sendOk {
      steps, t := FinishSteps(s);
    } else {
      steps, t := ArmSteps(s, cfg.timeoutUs, Transfer.WaitFlowControl);
    }
  }

  /** A tick of a leaf that has one. */
  lemma TickSteps(cfg: Transfer.Config, tx: Transfer.Tx, s: System, sendOk: bool)
    returns (steps: seq<Action>, t: System)
    requires s.running == Some(Dispatch(TickDispatch, s.clock, Begun)) && !tx.leaf.Idle? && !tx.startPending
    requires Mirrors(s.(running := None), tx) && Transfer.WellTyped(tx)
    ensures Run(Do, s, steps) == t
    ensures Mirrors(t, Transfer.Work(cfg, tx, s.clock, sendOk)) && t.worker.Parked?
  {
    steps := Start(Do, s);
    hide Run, Transfer.ConsecutiveFrame;
    steps := Then(Do, s, steps, s, Look);
    t := Do(s, Look).value;
    if s.clock < tx.deadline {
      steps := Then(Do, s, steps, t, Return);
      t := Do(t, Return).value;
    } else {
      var more, r := TickEnds(cfg, tx, t, sendOk);
      RunAppend(Do, s, steps, more);
      steps, t := steps + more, r;
    }
  }

  /** What a handler on values comes to: `finish`, or a deadline set. */
  predicate Ends(tx: Transfer.Tx, r: Transfer.Tx) {
    && r.leaf.Idle? && !r.busy && r.deadline == NO_DEADLINE
    && r.startPending == tx.startPending && r.owed == tx.owed
  }

  predicate Arms(tx: Transfer.Tx, r: Transfer.Tx, at: int, to: Leaf) {
    && r.leaf == to && r.busy == tx.busy && r.deadline == at
    && r.startPending == tx.startPending && r.owed == tx.owed
  }

  lemma TickOutcome(cfg: Transfer.Config, tx: Transfer.Tx, now: int, sendOk: bool)
    requires Transfer.WellTyped(tx) && !tx.leaf.Idle? && !tx.startPending && tx.deadline <= now
    ensures var r := Transfer.Work(cfg, tx, now, sendOk);
      || Ends(tx, r)
      || (tx.leaf.SendConsecutive? && Arms(tx, r, now + cfg.timeoutUs, Transfer.WaitFlowControl))
      || (tx.leaf.SendConsecutive? && Arms(tx, r, now + tx.separationUs, Transfer.SendConsecutive))
  {
    hide Transfer.ConsecutiveFrame;
  }

  lemma FrameOutcome(cfg: Transfer.Config, tx: Transfer.Tx, now: int, f: Transfer.RxFrame)
    requires tx.busy && (f.dlc >= 3 ==> |f.data| >= 3)
    ensures var r := Transfer.Receive(cfg, tx, now, f);
      || r == tx
      || (tx.leaf.WaitFlowControl? && Ends(tx, r))
      || (tx.leaf.WaitFlowControl? && Arms(tx, r, now, Transfer.SendConsecutive))
      || (tx.leaf.WaitFlowControl? && Arms(tx, r, now + cfg.timeoutUs, Transfer.WaitFlowControl))
  {
    hide Transfer.DecodeSeparationUs;
  }

  lemma TickEnds(cfg: Transfer.Config, tx: Transfer.Tx, s: System, sendOk: bool)
    returns (steps: seq<Action>, t: System)
    requires s.running == Some(Dispatch(TickDispatch, s.clock, Going)) && !tx.leaf.Idle? && !tx.startPending
    requires Mirrors(s.(running := None), tx) && Transfer.WellTyped(tx) && tx.deadline <= s.clock
    ensures Run(Do, s, steps) == t
    ensures Mirrors(t, Transfer.Work(cfg, tx, s.clock, sendOk)) && t.worker.Parked?
  {
    hide Run, Do, Transfer.Work;
    TickOutcome(cfg, tx, s.clock, sendOk);
    var r := Transfer.Work(cfg, tx, s.clock, sendOk);
    if Ends(tx, r) {
      steps, t := FinishSteps(s);
    } else if r.leaf.WaitFlowControl? {
      steps, t := ArmSteps(s, cfg.timeoutUs, Transfer.WaitFlowControl);
    } else {
      steps, t := ArmSteps(s, tx.separationUs, Transfer.SendConsecutive);
    }
  }

  /** A pass of the worker on values is a sequence of its steps here. */
  lemma WorkIsSteps(cfg: Transfer.Config, tx: Transfer.Tx, s: System, sendOk: bool)
    returns (steps: seq<Action>, t: System)
    requires Mirrors(s, tx) && s.worker.Awake? && Transfer.WellTyped(tx)
    ensures Run(Do, s, steps) == t
    ensures Mirrors(t, Transfer.Work(cfg, tx, s.clock, sendOk)) && t.worker.Parked?
  {
    hide Run, Transfer.IdleStart, Transfer.SendTick;
    steps, t := EnterSteps(s);
    var more, r;
    if tx.startPending && tx.leaf.Idle? {
      more, r := StartSteps(cfg, tx.(startPending := false), t, sendOk);
    } else if !tx.startPending && !tx.leaf.Idle? {
      more, r := TickSteps(cfg, tx, t, sendOk);
    } else {
      more := Start(Do, t);
      more := Then(Do, t, more, t, Return);
      r := Do(t, Return).value;
    }
    RunAppend(Do, s, steps, more);
    steps, t := steps + more, r;
  }

  /** So is the delivery of a frame. */
  lemma ReceiveIsSteps(cfg: Transfer.Config, tx: Transfer.Tx, s: System, f: Transfer.RxFrame)
    returns (steps: seq<Action>, t: System)
    requires Mirrors(s, tx) && s.rx.Outside? && (f.dlc >= 3 ==> |f.data| >= 3)
    ensures Run(Do, s, steps) == t
    ensures Mirrors(t, Transfer.Receive(cfg, tx, s.clock, f)) && t.rx.Outside?
  {
    steps := Start(Do, s);
    hide Run, Transfer.DecodeSeparationUs;
    steps := Then(Do, s, steps, s, RxCheck);
    t := Do(s, RxCheck).value;
    if tx.busy {
      steps := Then(Do, s, steps, t, RxEnter);
      t := Do(t, RxEnter).value;
      var more, r := DeliverySteps(cfg, tx, t, f);
      RunAppend(Do, s, steps, more);
      steps, t := steps + more, r;
    }
  }

  lemma DeliverySteps(cfg: Transfer.Config, tx: Transfer.Tx, s: System, f: Transfer.RxFrame)
    returns (steps: seq<Action>, t: System)
    requires s.running == Some(Dispatch(RxDispatch, s.clock, Going)) && tx.busy
    requires Mirrors(s.(running := None), tx) && (f.dlc >= 3 ==> |f.data| >= 3)
    ensures Run(Do, s, steps) == t
    ensures Mirrors(t, Transfer.Receive(cfg, tx, s.clock, f)) && t.rx.Outside?
  {
    steps := Start(Do, s);
    hide Run, Transfer.Receive;
    FrameOutcome(cfg, tx, s.clock, f);
    var r := Transfer.Receive(cfg, tx, s.clock, f);
    if r == tx {
      steps := Then(Do, s, steps, s, Return);
      t := Do(s, Return).value;
    } else if Ends(tx, r) {
      hide Do;
      steps, t := FinishSteps(s);
    } else {
      hide Do;
      steps, t := ArmSteps(s, if r.leaf.SendConsecutive? then 0 else cfg.timeoutUs, r.leaf);
    }
  }

  /** What was logged since is no frame. */
  ghost predicate NoFrameSince(before: seq<Transfer.Event>, after: seq<Transfer.Event>) {
    before <= after && forall i :: |before| <= i < |after| ==> !after[i].Sent?
  }

  /** Only handlers that may read the payload let a frame out. */
  lemma OnlyReadersSend(cfg: Transfer.Config, tx: Transfer.Tx, now: int, sendOk: bool, f: Transfer.RxFrame)
    requires Transfer.WellTyped(tx) && (f.dlc >= 3 ==> |f.data| >= 3)
    ensures tx.leaf.WaitFlowControl? ==> NoFrameSince(tx.log, Transfer.Work(cfg, tx, now, sendOk).log)
    ensures NoFrameSince(tx.log, Transfer.Receive(cfg, tx, now, f).log)
  {
    hide Transfer.IdleStart, Transfer.SendTick, Transfer.DecodeSeparationUs;
  }
}
