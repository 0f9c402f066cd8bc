/** The handlers in the form of main/precondition.c: static structs that they update in place, and
    requests that they leave for the engine. Each callback answers with what it asked of the engine:
    the very entry of the tape on which module PreconditionEngine runs the engine. */
module PreconditionHandlers {
  import opened Wrappers
  import opened Precondition
  import PreconditionChart
  import PreconditionEngine
  import Hsm

  class Machine {
    const mode: Mode
    // the engine's record
    var current: St
    var pending: Option<St>
    var pendingArg: nat
    var entryArg: nat
    var now: int
    var outerSince: int
    var innerSince: int
    var leafTicks: nat
    // the static structs of the machine
    var latch: bool
    var idle: IdleCtx
    var requested: RequestCtx
    var nudgeBase: int
    var stopping: StopCtx
    var status: Status
    var carReady: bool
    var batteryWarm: bool
    ghost var history: History

    ghost function Value(): P
      reads this
    {
      P(mode, current, pending, pendingArg, entryArg, now, outerSince, innerSince, leafTicks,
        latch, idle, requested, nudgeBase, stopping, status, carReady, batteryWarm, history)
    }

    /** The structs before the engine enters idle, with the session that the settings restored. */
    constructor (mode: Mode, restored: bool, at: int)
      ensures this.mode == mode && Value() == Blank(mode, restored, at)
    {
      this.mode := mode;
      current, pending, pendingArg, entryArg := Idle, None, 0, 0;
      now, outerSince, innerSince, leafTicks := at, 0, 0, 0;
      latch := mode == Persistent && restored;
      idle, requested, nudgeBase, stopping := IdleCtx(false, 0), RequestCtx(Manual, 0, 0, 0), 0, StopCtx(0, 0, 0);
      status, carReady, batteryWarm := Unknown, false, false;
      history := History([], [], {}, [], [], 0, 0);
    }

    // -------------------------------------------------------------- requests

    method RequestTransition(target: St, arg: nat)
      modifies this`pending, this`pendingArg
      ensures Value() == GoWith(old(Value()), target, arg)
    {
      pending := Some(target);
      pendingArg := arg;
    }

    /** `stop_start_if_blocked`. */
    method StopStartIfBlocked() returns (blocked: bool)
      modifies this`pending, this`pendingArg
      ensures blocked == batteryWarm
      ensures Value() == if batteryWarm then AbortStart(old(Value())) else old(Value())
    {
      if !batteryWarm {
        return false;
      }
      if mode == Once {
        RequestTransition(Stopping, MAX_RETRIES);
      } else {
        RequestTransition(Managed, 0);
      }
      blocked := true;
    }

    /** `start_timeout`. */
    method HandleStartTimeout()
      modifies this`pending, this`pendingArg, this`requested
      ensures Value() == StartTimeout(old(Value()))
    {
      if requested.kind == Periodic || requested.kind == BmuRestart {
        RequestTransition(Managed, 0);
      } else if requested.retries < MAX_RETRIES {
        requested := requested.(retries := requested.retries + 1);
        RequestTransition(StartBurst, 0);
      } else if latch {
        RequestTransition(Managed, 0);
      } else {
        RequestTransition(Stopping, MAX_RETRIES);
      }
    }

    // -------------------------------------------------------------- enter and exit handlers

    method IdleEnter()
      modifies this`idle, this`pending, this`pendingArg, this`history
      ensures Value() == EnterIdle(old(Value()))
    {
      idle := IdleCtx(entryArg != 0 && mode == Continuous, 0);
      if mode != Once && latch {
        RequestTransition(Managed, 0);
        history := history.(restores := history.restores + 1);
      }
    }

    method RequestedEnter()
      modifies this`requested, this`latch, this`pending, this`pendingArg, this`history
      ensures Value() == EnterRequested(old(Value()))
    {
      requested := RequestCtx(KindOf(entryArg), 0, 0, 0);
      history := history.(launches := history.launches + [Launch(requested.kind, now)]);
      if mode != Once {
        latch := true;
      }
      if requested.kind == BmuRestart {
        requested := requested.(lastAttempt := now);
        RequestTransition(if status == Started then Active else WaitStarted, 0);
      }
    }

    ghost method NoteBurst(bursts: nat)
      modifies this`history
      ensures Value() == Begin(old(Value()), bursts)
    {
      history := history.(begun := history.begun + [Burst(if bursts > 0 then Some(current) else None, now)]);
    }

    method StartBurstEnter()
      modifies this`requested, this`pending, this`pendingArg, this`history
      ensures Value() == EnterStartBurst(old(Value()))
    {
      NoteBurst(requested.bursts);
      requested := requested.(lastAttempt := now, bursts := requested.bursts + 1);
      var _ := StopStartIfBlocked();
    }

    method StopBurstEnter()
      modifies this`stopping, this`history
      ensures Value() == EnterStopBurst(old(Value()))
    {
      NoteBurst(stopping.bursts);
      stopping := stopping.(lastAttempt := now, bursts := stopping.bursts + 1);
    }

    /** `enter_state`: clear the context, stamp the entry, run the handler. */
    method EnterState(s: St)
      modifies this
      ensures Value() == Enter(old(Value()), s)
    {
      hide EnterIdle, EnterRequested, EnterStartBurst, EnterStopBurst;
      if Parent(s) == None {
        outerSince := now;
      } else {
        innerSince := now;
      }
      history := history.(sent := []);
      match s {
        case Idle => IdleEnter();
        case Requested => RequestedEnter();
        case StartBurst => StartBurstEnter();
        case Managed => nudgeBase := now;
        case Stopping => stopping := StopCtx(0, entryArg % 256, 0);
        case StopBurst => StopBurstEnter();
        case _ =>
      }
    }

    method ExitState(s: St)
      modifies this`latch
      ensures Value() == Exit(old(Value()), s)
    {
      if s == Requested && mode != Once {
        latch := false;
      }
    }

    // -------------------------------------------------------------- events

    /** The event handler of the leaf. */
    method LeafHandler(ev: Ev) returns (handled: bool)
      modifies this`pending, this`pendingArg, this`idle, this`requested
      ensures (Value(), handled) == LeafEvent(old(Value()), ev)
    {
      handled := false;
      match current {
        case Idle =>
          if ev == Toggle {
            RequestTransition(Requested, 0);
            handled := true;
          } else if ev == CarReady {
            if idle.disabledByCarOff {
              idle := idle.(readyAt := now);
            }
            handled := true;
          }
        case WaitStarting =>
          if ev == StatusStarting {
            RequestTransition(WaitStarted, 0);
          } else if ev == StatusStarted {
            RequestTransition(Active, 0);
          }
          handled := ev == StatusStarting || ev == StatusStarted || ev == StatusOff;
        case WaitStarted =>
          if ev == StatusStarted {
            RequestTransition(Active, 0);
          }
          handled := ev == StatusStarting || ev == StatusStarted || ev == StatusOff;
        case Active => handled := ActiveHandler(ev);
        case Managed => handled := ManagedHandler(ev);
        case StopBurst => handled := ev == StatusOff;
        case WaitStopped =>
          if ev == StatusOff {
            RequestTransition(Idle, 0);
            handled := true;
          }
        case _ =>
      }
    }

    method ActiveHandler(ev: Ev) returns (handled: bool)
      modifies this`pending, this`pendingArg, this`requested
      ensures (Value(), handled) == ActiveEvent(old(Value()), ev)
    {
      match ev {
        case StatusStarted =>
        case StatusStarting =>
          if mode != Once {
            RequestTransition(Requested, ArgOf(BmuRestart));
          } else {
            requested := requested.(lastAttempt := now);
            RequestTransition(WaitStarted, 0);
          }
        case StatusOff => RequestTransition(if latch then Managed else Stopping, 0);
        case _ => return false;
      }
      handled := true;
    }

    method ManagedHandler(ev: Ev) returns (handled: bool)
      modifies this`pending, this`pendingArg
      ensures (Value(), handled) == ManagedEvent(old(Value()), ev)
    {
      match ev {
        case StatusOff =>
        case StatusStarting => RequestTransition(Requested, ArgOf(BmuRestart));
        case StatusStarted => RequestTransition(Requested, ArgOf(BmuRestart));
        case CarReady =>
          if mode == Persistent {
            RequestTransition(CarStartDelay, 0);
          }
        case _ => return false;
      }
      handled := true;
    }

    /** The event handler of the composite around the leaf. */
    method OuterHandler(ev: Ev)
      modifies this`pending, this`pendingArg
      ensures Value() == OuterEvent(old(Value()), ev)
    {
      if Parent(current) == Some(Requested) {
        if ev == Toggle {
          if now - outerSince > DEBOUNCE_US {
            RequestTransition(Stopping, 0);
          }
        } else if ev == CarNotReady {
          if mode == Persistent && latch {
            RequestTransition(Managed, 0);
          } else {
            RequestTransition(Idle, 1);
          }
        }
      } else if Parent(current) == Some(Stopping) {
        if ev == Toggle {
          RequestTransition(Requested, 0);
        } else if ev == CarNotReady {
          RequestTransition(Idle, 0);
        }
      }
    }

    // -------------------------------------------------------------- ticks

    method SendMessage(m: Msg)
      modifies this`history
      ensures Value() == SendMsg(old(Value()), m)
    {
      history := history.(sent := history.sent + [m]);
    }

    method StartBurstHandler()
      modifies this`pending, this`pendingArg, this`history
      ensures Value() == StartBurstTick(old(Value()))
    {
      var blocked := StopStartIfBlocked();
      if blocked {
        return;
      }
      SendMessage(StartMsg(leafTicks));
      history := history.(startKinds := history.startKinds + {requested.kind});
      if leafTicks + 1 >= START_TICKS {
        history := history.(completed := history.completed + [history.sent]);
        match status {
          case Started => RequestTransition(Active, 0);
          case Starting => RequestTransition(WaitStarted, 0);
          case _ => RequestTransition(WaitStarting, 0);
        }
      }
    }

    method WaitStartingHandler()
      modifies this`pending, this`pendingArg, this`requested
      ensures Value() == WaitStartingTick(old(Value()))
    {
      var blocked := StopStartIfBlocked();
      if blocked {
        return;
      }
      var elapsed := now - requested.lastAttempt;
      if status == Unknown {
        if elapsed > STARTED_TIMEOUT_US {
          RequestTransition(Active, 0);
        }
        return;
      }
      if elapsed > RETRY_US {
        HandleStartTimeout();
      }
    }

    method WaitStartedHandler()
      modifies this`pending, this`pendingArg, this`requested
      ensures Value() == WaitStartedTick(old(Value()))
    {
      var blocked := StopStartIfBlocked();
      if !blocked && now - requested.lastAttempt > STARTED_TIMEOUT_US {
        HandleStartTimeout();
      }
    }

    method StopBurstHandler()
      modifies this`pending, this`pendingArg, this`history
      ensures Value() == StopBurstTick(old(Value()))
    {
      SendMessage(StopMsg(leafTicks));
      if leafTicks + 1 >= STOP_TICKS {
        history := history.(completed := history.completed + [history.sent]);
        RequestTransition(if status == Unknown then Idle else WaitStopped, 0);
      }
    }

    method WaitStoppedHandler()
      modifies this`pending, this`pendingArg, this`stopping
      ensures Value() == WaitStoppedTick(old(Value()))
    {
      if now - stopping.lastAttempt > RETRY_US {
        if stopping.retries < MAX_RETRIES {
          stopping := stopping.(retries := stopping.retries + 1);
          RequestTransition(StopBurst, 0);
        } else {
          RequestTransition(Idle, 0);
        }
      }
    }

    /** The tick handler of the leaf; no composite has one. */
    method TickHandler()
      modifies this`pending, this`pendingArg, this`history, this`idle, this`requested, this`stopping
      ensures Value() == LeafTick(old(Value()))
    {
      hide StartBurstTick, WaitStartingTick, WaitStartedTick, StopBurstTick, WaitStoppedTick;
      match current {
        case Idle =>
          if idle.disabledByCarOff && carReady && now - idle.readyAt >= CAR_START_DELAY_US {
            idle := idle.(disabledByCarOff := false);
          }
        case CarStartDelay =>
          if now - innerSince >= CAR_START_DELAY_US {
            RequestTransition(Requested, ArgOf(CarStart));
          }
        case StartBurst => StartBurstHandler();
        case WaitStarting => WaitStartingHandler();
        case WaitStarted => WaitStartedHandler();
        case Managed =>
          if carReady && now - nudgeBase > NUDGE_INTERVAL_US {
            RequestTransition(Requested, ArgOf(Periodic));
          }
        case StopBurst => StopBurstHandler();
        case WaitStopped => WaitStoppedHandler();
        case _ =>
      }
    }

    // -------------------------------------------------------------- frames

    /** `precondition_global_rx`: what it learns, and the event it sends. */
    method Hear(at: int, f: Frame) returns (ev: Option<Ev>)
      requires |f.data| == 8
      modifies this`now, this`carReady, this`status, this`batteryWarm
      ensures (Value(), ev) == Heard(old(Value()), at, f)
    {
      now := at;
      ev := None;
      if f.id == 0x038 && f.carBus && f.dlc >= 1 {
        var ready := f.data[0] % 16 == 4;
        if ready != carReady {
          carReady := ready;
          ev := Some(if ready then CarReady else CarNotReady);
        }
      }
      if IsStatusFrame(f.id) && f.carBus {
        var decoded := DecodeStatus(f.data[1]);
        if decoded.Some? {
          status := decoded.value;
          ev := Some(StatusEvent(decoded.value));
        }
      }
      if f.id == 0x152 && f.carBus && f.dlc >= 2 {
        batteryWarm := SignedByte(f.data[0]) >= CUTOFF_C;
      }
    }

    // -------------------------------------------------------------- callbacks

    /** What has been asked of the engine since `was` and `arg` were its pending request. */
    function Asked(was: Option<St>, arg: nat): seq<Hsm.Action>
      reads this`pending, this`pendingArg
    {
      if pending.Some? && (pending != was || pendingArg != arg)
      then [Hsm.Request(PreconditionChart.Node(pending.value), pendingArg)] else []
    }

    method OnEnter(s: St) returns (b: Hsm.Behaviour)
      modifies this
      ensures Value() == Enter(old(Value()), s)
      ensures b == PreconditionEngine.EnterBehaviour(old(Value()), s)
    {
      hide Enter, PreconditionChart.Node;
      var was, arg := pending, pendingArg;
      EnterState(s);
      b := Hsm.Behaviour(Asked(was, arg), false);
    }

    method OnExit(s: St) returns (b: Hsm.Behaviour)
      modifies this`latch
      ensures Value() == Exit(old(Value()), s) && b == PreconditionEngine.QUIET
    {
      ExitState(s);
      b := PreconditionEngine.QUIET;
    }

    /** The event callback of the leaf, and that of the composite around it. */
    method OnEvent(leaf: bool, ev: Ev) returns (b: Hsm.Behaviour)
      modifies this`pending, this`pendingArg, this`idle, this`requested
      ensures leaf ==> (Value(), b.handled) == LeafEvent(old(Value()), ev)
      ensures !leaf ==> Value() == OuterEvent(old(Value()), ev) && !b.handled
      ensures b.actions == PreconditionEngine.AskedFor(old(Value()), Value())
    {
      hide LeafEvent, OuterEvent, PreconditionChart.Node;
      var was, arg, handled := pending, pendingArg, false;
      if leaf {
        handled := LeafHandler(ev);
      } else {
        OuterHandler(ev);
      }
      b := Hsm.Behaviour(Asked(was, arg), handled);
    }

    method OnTick() returns (b: Hsm.Behaviour)
      modifies this`pending, this`pendingArg, this`history, this`idle, this`requested, this`stopping
      ensures Value() == LeafTick(old(Value()))
      ensures b == Hsm.Behaviour(PreconditionEngine.AskedFor(old(Value()), Value()), false)
    {
      hide LeafTick, PreconditionChart.Node;
      var was, arg := pending, pendingArg;
      TickHandler();
      b := Hsm.Behaviour(Asked(was, arg), false);
    }

    /** The receive hook: what it learns, and the event it sends at the reading `at2`. */
    method OnRx(at: int, at2: int, f: Frame) returns (b: Hsm.Behaviour, ev: Option<Ev>)
      requires |f.data| == 8
      modifies this`now, this`carReady, this`status, this`batteryWarm
      ensures (Value(), ev) == Heard(old(Value()), at, f)
      ensures b == Hsm.Behaviour(if ev.Some? then [Hsm.Send(at2)] else [], false)
    {
      hide Heard;
      ev := Hear(at, f);
      b := Hsm.Behaviour(if ev.Some? then [Hsm.Send(at2)] else [], false);
    }

    // -------------------------------------------------------------- filters

    /** `precondition_fwd_hook`: the frame's bytes are changed in place. */
    method Filter(at: int, id: nat, data: array<nat>, toCar: bool) returns (r: Verdict)
      requires data.Length == 8
      modifies this`now, data
      ensures Value() == old(Value()).(now := at)
      ensures Answers(r, data[..], Forward(Value(), id, old(data[..]), toCar), old(data[..]))
    {
      hide Forward;
      now := at;
      r := AskFilters(id, data, toCar);
    }

    /** The leaf's display filter, then that of the composite. */
    method AskFilters(id: nat, data: array<nat>, toCar: bool) returns (r: Verdict)
      requires data.Length == 8
      modifies data
      ensures Answers(r, data[..], Forward(Value(), id, old(data[..]), toCar), old(data[..]))
    {
      hide FilterOf;
      r := AskFilter(current, id, data, toCar);
      if r == Passed && Parent(current) == Some(Requested) {
        r := AskFilter(Requested, id, data, toCar);
      }
    }

    /** The filter of one state, if it has one. */
    method AskFilter(s: St, id: nat, data: array<nat>, toCar: bool) returns (r: Verdict)
      requires data.Length == 8
      modifies data
      ensures Answers(r, data[..], FilterOf(Value(), s, id, old(data[..]), toCar), old(data[..]))
    {
      hide Precondition.StartingFilter, Precondition.StoppingFilter, Precondition.RequestedFilter;
      r := Passed;
      if !toCar {
        return;
      }
      if s == StartBurst || s == WaitStarting || s == WaitStarted {
        r := StartingFilter(id, data);
      } else if s == StopBurst || s == WaitStopped {
        r := StoppingFilter(id, data);
      } else if s == Requested {
        r := RequestedFilter(id, data);
      }
    }

    method RequestedFilter(id: nat, data: array<nat>) returns (r: Verdict)
      requires data.Length == 8
      modifies data
      ensures Answers(r, data[..], Precondition.RequestedFilter(id, old(data[..])), old(data[..]))
    {
      r := Passed;
      if id == 0x0C7 {
        r := Blocked;
      } else if id == 0x4ED {
        data[5], data[6], data[7] := 0x10, 0xA0, 0x00;
        r := Changed;
      }
    }

    method StartingFilter(id: nat, data: array<nat>) returns (r: Verdict)
      requires data.Length == 8
      modifies data
      ensures Answers(r, data[..], Precondition.StartingFilter(Value(), id, old(data[..])), old(data[..]))
    {
      hide SecondsLeft;
      r := Passed;
      if requested.kind == Periodic || requested.kind == BmuRestart || status == Started {
        return;
      }
      if id == 0x4E8 {
        var known := status != Unknown;
        SetDistance(data, SecondsLeft(STARTED_TIMEOUT_US, now - requested.lastAttempt),
                    if known then requested.retries % 10 else 0,
                    if known then (if requested.retries == 0 then 4 else 1) else 0,
                    if known then (if status == Starting then 0 else 1) else 4);
        r := Changed;
      } else if id == 0x4CC {
        data[0] := 0x02;
        r := Changed;
      }
    }

    method StoppingFilter(id: nat, data: array<nat>) returns (r: Verdict)
      requires data.Length == 8
      modifies data
      ensures Answers(r, data[..], Precondition.StoppingFilter(Value(), id, old(data[..])), old(data[..]))
    {
      hide SecondsLeft;
      r := Passed;
      if status == Unknown || stopping.retries >= MAX_RETRIES {
        return;
      }
      if id == 0x4E8 {
        SetDistance(data, SecondsLeft(RETRY_US, now - stopping.lastAttempt), stopping.retries % 10,
                    if stopping.retries == 0 then 3 else 2, 15);
        r := Changed;
      } else if id == 0x4CC {
        data[0] := 0x02;
        r := Changed;
      }
    }
  }

  datatype Verdict = Blocked | Changed | Passed

  /** A verdict with the bytes it leaves, against the filter on values. */
  predicate Answers(r: Verdict, now: seq<nat>, f: Fwd, was: seq<nat>) {
    match f
    case Block => r == Blocked && now == was
    case Passthrough => r == Passed && now == was
    case Modified(d) => r == Changed && now == d
  }

  /** `set_0x4e8_distance_flag`. */
  method SetDistance(data: array<nat>, distance: nat, tenths: nat, unit: nat, flag: nat)
    requires data.Length == 8
    modifies data
    ensures data[..] == Display(old(data[..]), distance, tenths, unit, flag)
  {
    data[0] := tenths % 16 * 16 + unit % 16;
    data[4] := distance % 256;
    data[5] := distance / 256 % 256;
    data[6] := data[6] / 16 % 16 * 16 + flag % 16;
  }
}
