/** The battery preconditioning machine of main/precondition.c on values: eleven states under the
    engine of module Hsm, the handlers of each, and the frames it sends and filters. The mode is
    fixed for a run. */
module Precondition {
  import opened Wrappers

  const DEBOUNCE_US := 1_000_000
  const START_PHASE1_TICKS := 3
  const START_TICKS := 6
  const STOP_PHASE1_TICKS := 3
  const STOP_TICKS := 6
  const RETRY_US := 10_000_000
  const MAX_RETRIES := 4
  const STARTED_TIMEOUT_US := 70_000_000
  const CAR_START_DELAY_US := 8_000_000
  const NUDGE_INTERVAL_US := 300_000_000
  const CUTOFF_C := 21

  // ---------------------------------------------------------------- the chart

  datatype St =
    | Idle
    | Requested | CarStartDelay | StartBurst | WaitStarting | WaitStarted | Active | Managed
    | Stopping | StopBurst | WaitStopped

  function Parent(s: St): Option<St> {
    match s
    case Idle => None
    case Requested => None
    case Stopping => None
    case StopBurst => Some(Stopping)
    case WaitStopped => Some(Stopping)
    case _ => Some(Requested)
  }

  function DefaultChild(s: St): Option<St> {
    match s
    case Requested => Some(StartBurst)
    case Stopping => Some(StopBurst)
    case _ => None
  }

  predicate UnderRequested(s: St) {
    Parent(s) == Some(Requested)
  }

  predicate UnderStopping(s: St) {
    Parent(s) == Some(Stopping)
  }

  /** A transition between children of one composite leaves the composite active. */
  predicate Sibling(leaf: St, target: St) {
    Parent(leaf).Some? && Parent(target) == Parent(leaf)
  }

  /** The states a transition leaves, innermost first. */
  function ExitList(leaf: St, target: St): seq<St> {
    if Parent(leaf).None? || Sibling(leaf, target) then [leaf] else [leaf, Parent(leaf).value]
  }

  /** The states it enters, outermost first, default children included. */
  function EnterList(leaf: St, target: St): seq<St> {
    (if Parent(target).Some? && !Sibling(leaf, target) then [Parent(target).value] else [])
    + [target]
    + (if DefaultChild(target).Some? then [DefaultChild(target).value] else [])
  }

  function Landing(target: St): St {
    if DefaultChild(target).Some? then DefaultChild(target).value else target
  }

  // ---------------------------------------------------------------- state

  datatype Mode = Once | Continuous | Persistent
  datatype Status = Unknown | Off | Starting | Started

  /** Why the current attempt was launched. */
  datatype Attempt = Manual | CarStart | Periodic | BmuRestart

  /** The two payload bytes that tell the three command messages apart. */
  datatype Msg = Msg(b3: nat, b4: nat)

  /** Contexts the engine clears on entry. `bursts` counts entries of the burst state. */
  datatype RequestCtx = RequestCtx(kind: Attempt, lastAttempt: int, retries: nat, bursts: nat)
  datatype StopCtx = StopCtx(lastAttempt: int, retries: nat, bursts: nat)
  datatype IdleCtx = IdleCtx(disabledByCarOff: bool, readyAt: int)

  datatype Launch = Launch(kind: Attempt, at: int)

  /** A burst begun, with the state that gave up waiting when it is a retry. */
  datatype Burst = Burst(retryFrom: Option<St>, at: int)

  /** History: messages sent since the leaf was entered, bursts that ran to their own end, under
      which kinds of attempt start messages went out, the attempts launched and the bursts begun,
      the longest transition chain so far, and how often idle resumed a restored session. */
  datatype History = History(
    sent: seq<Msg>, completed: seq<seq<Msg>>, startKinds: set<Attempt>, launches: seq<Launch>,
    begun: seq<Burst>, longest: nat, restores: nat)

  datatype P = P(
    mode: Mode, leaf: St, pending: Option<St>, pendingArg: nat, entryArg: nat, now: int,
    outerSince: int, innerSince: int, leafTicks: nat,
    latch: bool, idle: IdleCtx, request: RequestCtx, nudgeBase: int, stop: StopCtx,
    status: Status, carReady: bool, batteryWarm: bool, history: History)

  predicate Repeating(p: P) {
    p.mode != Once
  }

  function ArgOf(k: Attempt): nat {
    match k
    case Manual => 0
    case CarStart => 1
    case Periodic => 2
    case BmuRestart => 3
  }

  function KindOf(arg: nat): Attempt {
    if arg == 0 then Manual else if arg == 1 then CarStart else if arg == 2 then Periodic else BmuRestart
  }

  function Go(p: P, target: St): P {
    GoWith(p, target, 0)
  }

  function GoWith(p: P, target: St, arg: nat): P {
    p.(pending := Some(target), pendingArg := arg)
  }

  // ---------------------------------------------------------------- messages

  function StartMsg(tick: nat): Msg {
    if tick < START_PHASE1_TICKS then Msg(0x40, 0x03) else Msg(0xE0, 0x07)
  }

  function StopMsg(tick: nat): Msg {
    if tick < STOP_PHASE1_TICKS then Msg(0, 0) else Msg(0xE0, 0x07)
  }

  const START_SEQUENCE: seq<Msg> :=
    [Msg(0x40, 0x03), Msg(0x40, 0x03), Msg(0x40, 0x03), Msg(0xE0, 0x07), Msg(0xE0, 0x07), Msg(0xE0, 0x07)]
  const STOP_SEQUENCE: seq<Msg> :=
    [Msg(0, 0), Msg(0, 0), Msg(0, 0), Msg(0xE0, 0x07), Msg(0xE0, 0x07), Msg(0xE0, 0x07)]

  function SendMsg(p: P, m: Msg): P {
    p.(history := p.history.(sent := p.history.sent + [m]))
  }

  /** A start message went out under the current kind of attempt. */
  function NoteKind(p: P): P {
    p.(history := p.history.(startKinds := p.history.startKinds + {p.request.kind}))
  }

  /** A burst that has reached its own end is remembered. */
  function Complete(p: P): P {
    p.(history := p.history.(completed := p.history.completed + [p.history.sent]))
  }

  // ---------------------------------------------------------------- shared helpers

  /** `stop_start_if_blocked`: a warm battery ends any start attempt. */
  function AbortStart(p: P): P {
    if p.mode == Once then GoWith(p, Stopping, MAX_RETRIES) else Go(p, Managed)
  }

  /** `start_timeout`. */
  function StartTimeout(p: P): P {
    if p.request.kind == Periodic || p.request.kind == BmuRestart then Go(p, Managed)
    else if p.request.retries < MAX_RETRIES then
      Go(p.(request := p.request.(retries := p.request.retries + 1)), StartBurst)
    else if p.latch then Go(p, Managed)
    else GoWith(p, Stopping, MAX_RETRIES)
  }

  // ---------------------------------------------------------------- enter and exit handlers

  function EnterIdle(p: P): P {
    var q := p.(idle := IdleCtx(p.entryArg != 0 && p.mode == Continuous, 0));
    if Repeating(p) && p.latch
    then Go(q, Managed).(history := q.history.(restores := q.history.restores + 1)) else q
  }

  function EnterRequested(p: P): P {
    var kind := KindOf(p.entryArg);
    var q := p.(request := RequestCtx(kind, 0, 0, 0), latch := if Repeating(p) then true else p.latch,
                history := p.history.(launches := p.history.launches + [Launch(kind, p.now)]));
    if kind == BmuRestart then
      Go(q.(request := q.request.(lastAttempt := p.now)), if p.status == Started then Active else WaitStarted)
    else q
  }

  /** The leaf is still that of the state left: a burst after others is a retry from there. */
  function Begin(p: P, bursts: nat): P {
    p.(history := p.history.(begun := p.history.begun + [Burst(if bursts > 0 then Some(p.leaf) else None, p.now)]))
  }

  function EnterStartBurst(p: P): P {
    var q := Begin(p, p.request.bursts)
             .(request := p.request.(lastAttempt := p.now, bursts := p.request.bursts + 1));
    if p.batteryWarm then AbortStart(q) else q
  }

  function EnterStopBurst(p: P): P {
    Begin(p, p.stop.bursts).(stop := p.stop.(lastAttempt := p.now, bursts := p.stop.bursts + 1))
  }

  /** Enter one state: stamp its entry time, clear its context, run its handler. */
  function Enter(p: P, s: St): P {
    var q := (if Parent(s).None? then p.(outerSince := p.now) else p.(innerSince := p.now))
             .(history := p.history.(sent := []));
    match s
    case Idle => EnterIdle(q)
    case Requested => EnterRequested(q)
    case StartBurst => EnterStartBurst(q)
    case Managed => q.(nudgeBase := q.now)
    case Stopping => q.(stop := StopCtx(0, q.entryArg % 256, 0))
    case StopBurst => EnterStopBurst(q)
    case _ => q
  }

  function Exit(p: P, s: St): P {
    if s == Requested && Repeating(p) then p.(latch := false) else p
  }

  function ExitAll(p: P, ss: seq<St>): P
    decreases |ss|
  {
    if ss == [] then p else ExitAll(Exit(p, ss[0]), ss[1..])
  }

  function EnterAll(p: P, ss: seq<St>): P
    decreases |ss|
  {
    if ss == [] then p else EnterAll(Enter(p, ss[0]), ss[1..])
  }

  function Transition(p: P, target: St): P {
    EnterAll(ExitAll(p, ExitList(p.leaf, target)), EnterList(p.leaf, target)).(
      leaf := Landing(target), leafTicks := 0)
  }

  function TakePending(p: P): P
    requires p.pending.Some?
  {
    Transition(p.(pending := None, entryArg := p.pendingArg, pendingArg := 0), p.pending.value)
  }

  /** The engine's chain, at most `n` transitions long, counting them. */
  function Chain(p: P, n: nat): (P, nat)
    decreases n
  {
    if p.pending.None? || n == 0 then (p, 0) else
      var (q, k) := Chain(TakePending(p), n - 1);
      (q, k + 1)
  }

  function Settle(p: P): P {
    var (q, k) := Chain(p, 8);
    q.(pending := None, history := q.history.(longest := if q.history.longest < k then k else q.history.longest))
  }

  // ---------------------------------------------------------------- events

  datatype Ev = Toggle | StatusOff | StatusStarting | StatusStarted | CarReady | CarNotReady

  function TimeInRequested(p: P): int {
    if UnderRequested(p.leaf) then p.now - p.outerSince else 0
  }

  /** The event handler of a leaf, and whether it claims the event. */
  function LeafEvent(p: P, ev: Ev): (P, bool) {
    match p.leaf
    case Idle => IdleEvent(p, ev)
    case WaitStarting => (match ev
      case StatusStarting => (Go(p, WaitStarted), true)
      case StatusStarted => (Go(p, Active), true)
      case StatusOff => (p, true)
      case _ => (p, false))
    case WaitStarted => (match ev
      case StatusStarted => (Go(p, Active), true)
      case StatusStarting => (p, true)
      case StatusOff => (p, true)
      case _ => (p, false))
    case Active => ActiveEvent(p, ev)
    case Managed => ManagedEvent(p, ev)
    case StopBurst => (p, ev.StatusOff?)
    case WaitStopped => if ev.StatusOff? then (Go(p, Idle), true) else (p, false)
    case _ => (p, false)
  }

  function IdleEvent(p: P, ev: Ev): (P, bool) {
    match ev
    case Toggle => (Go(p, Requested), true)
    case CarReady =>
      (if p.idle.disabledByCarOff then p.(idle := p.idle.(readyAt := p.now)) else p, true)
    case _ => (p, false)
  }

  function ActiveEvent(p: P, ev: Ev): (P, bool) {
    match ev
    case StatusStarted => (p, true)
    case StatusStarting =>
      (if Repeating(p) then GoWith(p, Requested, ArgOf(BmuRestart))
       else Go(p.(request := p.request.(lastAttempt := p.now)), WaitStarted), true)
    case StatusOff => (if p.latch then Go(p, Managed) else Go(p, Stopping), true)
    case _ => (p, false)
  }

  function ManagedEvent(p: P, ev: Ev): (P, bool) {
    match ev
    case StatusOff => (p, true)
    case StatusStarting => (GoWith(p, Requested, ArgOf(BmuRestart)), true)
    case StatusStarted => (GoWith(p, Requested, ArgOf(BmuRestart)), true)
    case CarReady => (if p.mode == Persistent then Go(p, CarStartDelay) else p, true)
    case _ => (p, false)
  }

  function RequestedEvent(p: P, ev: Ev): P {
    match ev
    case Toggle => if TimeInRequested(p) > DEBOUNCE_US then Go(p, Stopping) else p
    case CarNotReady => if p.mode == Persistent && p.latch then Go(p, Managed) else GoWith(p, Idle, 1)
    case _ => p
  }

  function StoppingEvent(p: P, ev: Ev): P {
    match ev
    case Toggle => Go(p, Requested)
    case CarNotReady => Go(p, Idle)
    case _ => p
  }

  function OuterEvent(p: P, ev: Ev): P {
    if UnderRequested(p.leaf) then RequestedEvent(p, ev)
    else if UnderStopping(p.leaf) then StoppingEvent(p, ev)
    else p
  }

  /** Offer the event to the leaf, then to its parent unless it was claimed or the leaf moved. */
  function Offer(p: P, ev: Ev): P {
    var (q, handled) := LeafEvent(p, ev);
    if q.pending.Some? || handled then q else OuterEvent(q, ev)
  }

  function Dispatch(p: P, at: int, ev: Ev): P {
    Settle(Offer(p.(now := at), ev))
  }

  // ---------------------------------------------------------------- ticks

  function StartBurstTick(p: P): P {
    if p.batteryWarm then AbortStart(p) else
      var t := p.leafTicks;
      var q := NoteKind(SendMsg(p, StartMsg(t)));
      if START_TICKS <= t + 1 then
        Go(Complete(q), match p.status case Started => Active case Starting => WaitStarted case _ => WaitStarting)
      else q
  }

  function WaitStartingTick(p: P): P {
    if p.batteryWarm then AbortStart(p)
    else if p.status == Unknown then
      if p.now - p.request.lastAttempt > STARTED_TIMEOUT_US then Go(p, Active) else p
    else if p.now - p.request.lastAttempt > RETRY_US then StartTimeout(p)
    else p
  }

  function WaitStartedTick(p: P): P {
    if p.batteryWarm then AbortStart(p)
    else if p.now - p.request.lastAttempt > STARTED_TIMEOUT_US then StartTimeout(p)
    else p
  }

  function StopBurstTick(p: P): P {
    var q := SendMsg(p, StopMsg(p.leafTicks));
    if STOP_TICKS <= p.leafTicks + 1 then
      Go(Complete(q), if p.status == Unknown then Idle else WaitStopped)
    else q
  }

  function WaitStoppedTick(p: P): P {
    if p.now - p.stop.lastAttempt > RETRY_US then
      if p.stop.retries < MAX_RETRIES then Go(p.(stop := p.stop.(retries := p.stop.retries + 1)), StopBurst)
      else Go(p, Idle)
    else p
  }

  function LeafTick(p: P): P {
    match p.leaf
    case Idle =>
      if p.idle.disabledByCarOff && p.carReady && p.now - p.idle.readyAt >= CAR_START_DELAY_US
      then p.(idle := p.idle.(disabledByCarOff := false)) else p
    case CarStartDelay =>
      if p.now - p.innerSince >= CAR_START_DELAY_US then GoWith(p, Requested, ArgOf(CarStart)) else p
    case StartBurst => StartBurstTick(p)
    case WaitStarting => WaitStartingTick(p)
    case WaitStarted => WaitStartedTick(p)
    case Managed =>
      if p.carReady && p.now - p.nudgeBase > NUDGE_INTERVAL_US
      then GoWith(p, Requested, ArgOf(Periodic)) else p
    case StopBurst => StopBurstTick(p)
    case WaitStopped => WaitStoppedTick(p)
    case _ => p
  }

  /** The leaf's tick; completed ticks are counted when it stays. */
  function Walk(p: P): P {
    var q := LeafTick(p);
    if q.pending.Some? then Settle(q) else q.(leafTicks := q.leafTicks + 1)
  }

  // ---------------------------------------------------------------- frames

  /** A frame from a bus, as far as this machine looks at it. */
  datatype Frame = Frame(id: nat, carBus: bool, dlc: nat, data: seq<nat>)

  predicate IsStatusFrame(id: nat) {
    id == 0x2AD || id == 0x0A82AA03
  }

  /** Only the low five bits of the status byte count. */
  function DecodeStatus(b: nat): Option<Status> {
    match b % 32
    case 0x01 => Some(Off)
    case 0x05 => Some(Starting)
    case 0x15 => Some(Started)
    case _ => None
  }

  function StatusEvent(s: Status): Ev
    requires s != Unknown
  {
    match s
    case Off => StatusOff
    case Starting => StatusStarting
    case Started => StatusStarted
  }

  function SignedByte(b: nat): int {
    if b % 256 < 128 then b % 256 else b % 256 - 256
  }

  /** What a frame tells about the car, and the event it is turned into. */
  function Heard(p: P, at: int, f: Frame): (P, Option<Ev>)
    requires |f.data| == 8
  {
    var q := p.(now := at);
    if f.id == 0x038 && f.carBus && f.dlc >= 1 then
      var ready := f.data[0] % 16 == 4;
      if ready == p.carReady then (q, None)
      else (q.(carReady := ready), Some(if ready then CarReady else CarNotReady))
    else if IsStatusFrame(f.id) && f.carBus then
      match DecodeStatus(f.data[1])
      case None => (q, None)
      case Some(s) => (q.(status := s), Some(StatusEvent(s)))
    else if f.id == 0x152 && f.carBus && f.dlc >= 2 then
      (q.(batteryWarm := SignedByte(f.data[0]) >= CUTOFF_C), None)
    else (q, None)
  }

  /** The global receive hook; the event it sends is dispatched at the later reading `at2`. */
  function Receive(p: P, at: int, at2: int, f: Frame): P
    requires |f.data| == 8
  {
    var (q, ev) := Heard(p, at, f);
    if ev.None? then q else Dispatch(q, at2, ev.value)
  }

  // ---------------------------------------------------------------- whole runs

  /** Dispatches from outside: a tick, whose hook may first deliver a toggle from the web, a frame,
      or a toggle from another task. */
  datatype Input =
    | Tick(at: int, toggledAt: Option<int>)
    | Rx(at: int, at2: int, f: Frame)
    | Button(at: int)

  predicate InputOk(i: Input) {
    i.Rx? ==> |i.f.data| == 8
  }

  function Step(p: P, i: Input): P
    requires InputOk(i)
  {
    match i
    case Tick(at, toggledAt) =>
      var q := p.(now := at);
      Walk(match toggledAt case None => q case Some(at2) => Dispatch(q, at2, Toggle))
    case Rx(at, at2, f) => Receive(p, at, at2, f)
    case Button(at) => Dispatch(p, at, Toggle)
  }

  function Blank(mode: Mode, restored: bool, at: int): P {
    P(mode, Idle, None, 0, 0, at, 0, 0, 0, mode == Persistent && restored,
      IdleCtx(false, 0), RequestCtx(Manual, 0, 0, 0), 0, StopCtx(0, 0, 0),
      Unknown, false, false, History([], [], {}, [], [], 0, 0))
  }

  /** After `precondition_init`: idle is entered, and a persistent session restored from flash is
      resumed. */
  function Init(mode: Mode, restored: bool, at: int): P {
    Settle(Enter(Blank(mode, restored, at), Idle))
  }

  function Run(p: P, ins: seq<Input>): P
    requires forall i :: i in ins ==> InputOk(i)
    decreases |ins|
  {
    if ins == [] then p else Run(Step(p, ins[0]), ins[1..])
  }

  // ---------------------------------------------------------------- frame interception

  datatype Fwd = Block | Modified(data: seq<nat>) | Passthrough

  /** The cluster's countdown while a start is in flight. */
  function StartingFilter(p: P, id: nat, data: seq<nat>): Fwd
    requires |data| == 8
  {
    if ShowsCountdown(p) && id == 0x4E8 then Modified(StartDisplay(p, data))
    else if ShowsCountdown(p) && id == 0x4CC then Modified(data[0 := 0x02])
    else Passthrough
  }

  /** The cluster's countdown while a stop is in flight. */
  function StoppingFilter(p: P, id: nat, data: seq<nat>): Fwd
    requires |data| == 8
  {
    if ShowsStop(p) && id == 0x4E8 then Modified(StopDisplay(p, data))
    else if ShowsStop(p) && id == 0x4CC then Modified(data[0 := 0x02])
    else Passthrough
  }

  /** What keeps the head unit from cancelling a session. */
  function RequestedFilter(id: nat, data: seq<nat>): Fwd
    requires |data| == 8
  {
    if id == 0x0C7 then Block
    else if id == 0x4ED then Modified(data[5 := 0x10][6 := 0xA0][7 := 0x00])
    else Passthrough
  }

  /** What the filter of a state decides; a frame for any bus but the car's passes them all. */
  function FilterOf(p: P, s: St, id: nat, data: seq<nat>, toCar: bool): Fwd
    requires |data| == 8
  {
    if !toCar then Passthrough else
      match s
      case StartBurst => StartingFilter(p, id, data)
      case WaitStarting => StartingFilter(p, id, data)
      case WaitStarted => StartingFilter(p, id, data)
      case StopBurst => StoppingFilter(p, id, data)
      case WaitStopped => StoppingFilter(p, id, data)
      case Requested => RequestedFilter(id, data)
      case _ => Passthrough
  }

  /** What happens to a frame about to be forwarded: the leaf's filter comes first, then that of
      the composite. */
  function Forward(p: P, id: nat, data: seq<nat>, toCar: bool): Fwd
    requires |data| == 8
  {
    var own := FilterOf(p, p.leaf, id, data, toCar);
    if own != Passthrough || !UnderRequested(p.leaf) then own else FilterOf(p, Requested, id, data, toCar)
  }

  predicate ShowsCountdown(p: P) {
    && p.request.kind != Periodic && p.request.kind != BmuRestart
    && p.status != Started
  }

  predicate ShowsStop(p: P) {
    p.status != Unknown && p.stop.retries < MAX_RETRIES
  }

  /** Distance, unit and flag written into the cluster frame. */
  function Display(data: seq<nat>, distance: nat, tenths: nat, unit: nat, flag: nat): seq<nat>
    requires |data| == 8
  {
    data[0 := tenths % 16 * 16 + unit % 16][4 := distance % 256][5 := distance / 256 % 256][
      6 := data[6] / 16 % 16 * 16 + flag % 16]
  }

  function SecondsLeft(limit: nat, elapsed: int): nat {
    if elapsed >= limit then 0 else ((limit - elapsed) / 1_000_000)
  }

  function StartDisplay(p: P, data: seq<nat>): seq<nat>
    requires |data| == 8
  {
    var known := p.status != Unknown;
    Display(data, SecondsLeft(STARTED_TIMEOUT_US, p.now - p.request.lastAttempt),
            if known then p.request.retries % 10 else 0,
            if known then (if p.request.retries == 0 then 4 else 1) else 0,
            if known then (if p.status == Starting then 0 else 1) else 4)
  }

  function StopDisplay(p: P, data: seq<nat>): seq<nat>
    requires |data| == 8
  {
    Display(data, SecondsLeft(RETRY_US, p.now - p.stop.lastAttempt), p.stop.retries % 10,
            if p.stop.retries == 0 then 3 else 2, 15)
  }
}
