/** The TCP session takeover of main/comm_server.c: the receive, transmit and server tasks around
    one shared socket, two event bits and a mutex, interleaved step by step. Descriptors are never
    reused here, so an access to a closed one would show. */
module TcpServer {
  import opened Wrappers
  import Schedules

  type Fd = nat

  /** The receive task. `ToWait` is just before its wait for PORT_OPEN, `Blocked` inside it. */
  datatype Rx = ToWait | Blocked | Looping | InRecv(fd: Fd) | Queueing | Ended | OpenCleared | ShutDown

  /** The transmit task; from `Ready` on it holds the mutex. */
  datatype Tx = Draining | Checked | Ready | InSend(fd: Fd) | Failed | FailedCleared | Sent

  /** The server task, with the newly accepted descriptor; from `Holding` to `Adopted` it holds
      the mutex. */
  datatype Server =
    | Accepting | Accepted(fd: Fd) | TakingOver(fd: Fd) | Waiting(fd: Fd) | Released(fd: Fd)
    | Holding(fd: Fd) | OldClosed(fd: Fd) | Adopted | Unlocked | ClosedCleared

  datatype System = System(
    rx: Rx, tx: Tx, server: Server,
    sock: Option<Fd>, portOpen: bool, portClosed: bool,
    live: set<Fd>, next: Fd)

  const INITIAL := System(ToWait, Draining, Accepting, None, false, false, {}, 0)

  datatype Action =
    | RxWait | RxRecv | RxData | RxQueued | RxEnd | RxClearOpen | RxShutdown | RxSetClosed
    | TxDequeue | TxTake | TxSend | TxWritten(all: bool) | TxError | TxClearOpen | TxShutdown | TxGive
    | Accept | Peek(hello: bool) | ShutdownOld | SeeClosed | GiveUp | TakeMutex | CloseOld | Adopt
    | GiveMutex | ClearClosed | SetOpen

  predicate RxParked(s: System) {
    s.rx.ToWait? || s.rx.Blocked?
  }

  predicate MutexFree(s: System) {
    !(s.tx.Ready? || s.tx.InSend? || s.tx.Failed? || s.tx.FailedCleared? || s.tx.Sent?)
    && !(s.server.Holding? || s.server.OldClosed? || s.server.Adopted?)
  }

  /** One step of one task; none when it cannot be taken. */
  function Do(s: System, a: Action): Option<System> {
    match a
    // the receive task
    case RxWait => if s.rx.ToWait? then Some(s.(rx := if s.portOpen then Looping else Blocked)) else None
    case RxRecv => if s.rx.Looping? && s.sock.Some? then Some(s.(rx := InRecv(s.sock.value))) else None
    case RxData => if s.rx.InRecv? then Some(s.(rx := Queueing)) else None
    case RxQueued => if s.rx.Queueing? then Some(s.(rx := Looping)) else None
    case RxEnd => if s.rx.InRecv? then Some(s.(rx := Ended)) else None
    case RxClearOpen => if s.rx.Ended? then Some(s.(rx := OpenCleared, portOpen := false)) else None
    case RxShutdown => if s.rx.OpenCleared? then Some(s.(rx := ShutDown)) else None
    case RxSetClosed => if s.rx.ShutDown? then Some(s.(rx := ToWait, portClosed := true)) else None
    // the transmit task
    case TxDequeue => if s.tx.Draining? then Some(if s.portOpen then s.(tx := Checked) else s) else None
    case TxTake => if s.tx.Checked? && MutexFree(s) then Some(s.(tx := Ready)) else None
    case TxSend => if s.tx.Ready? && s.sock.Some? then Some(s.(tx := InSend(s.sock.value))) else None
    case TxWritten(all) => if s.tx.InSend? then Some(s.(tx := if all then Sent else Ready)) else None
    case TxError => if s.tx.InSend? then Some(s.(tx := Failed)) else None
    case TxClearOpen => if s.tx.Failed? then Some(s.(tx := FailedCleared, portOpen := false)) else None
    case TxShutdown => if s.tx.FailedCleared? then Some(s.(tx := Sent)) else None
    case TxGive => if s.tx.Sent? then Some(s.(tx := Draining)) else None
    // the server task
    case Accept =>
      if s.server.Accepting?
      then Some(s.(server := Accepted(s.next), live := s.live + {s.next}, next := s.next + 1)) else None
    case Peek(hello) =>
      if !s.server.Accepted? then None
      else if s.sock.Some? && s.portOpen && !hello then
        Some(s.(server := Accepting, live := s.live - {s.server.fd}))
      else if s.sock.Some? then Some(s.(server := TakingOver(s.server.fd)))
      else Some(s.(server := Unlocked, sock := Some(s.server.fd)))
    case ShutdownOld => if s.server.TakingOver? then Some(s.(server := Waiting(s.server.fd))) else None
    case SeeClosed =>
      if s.server.Waiting? && s.portClosed then Some(s.(server := Released(s.server.fd))) else None
    case GiveUp =>
      if s.server.Waiting? then Some(s.(server := Accepting, live := s.live - {s.server.fd})) else None
    case TakeMutex =>
      if s.server.Released? && MutexFree(s) then Some(s.(server := Holding(s.server.fd))) else None
    case CloseOld =>
      if s.server.Holding? && s.sock.Some?
      then Some(s.(server := OldClosed(s.server.fd), live := s.live - {s.sock.value})) else None
    case Adopt =>
      if s.server.OldClosed? then Some(s.(server := Adopted, sock := Some(s.server.fd))) else None
    case GiveMutex => if s.server.Adopted? then Some(s.(server := Unlocked)) else None
    case ClearClosed => if s.server.Unlocked? then Some(s.(server := ClosedCleared, portClosed := false)) else None
    case SetOpen =>
      if s.server.ClosedCleared?
      then Some(s.(server := Accepting, portOpen := true, rx := if s.rx.Blocked? then Looping else s.rx)) else None
  }

  // ---------------------------------------------------------------- the invariant

  /** From the moment the server has seen PORT_CLOSED until it raises PORT_OPEN again. */
  predicate Replacing(s: System) {
    s.server.Released? || s.server.Holding? || s.server.OldClosed? || s.server.Adopted?
    || s.server.Unlocked? || s.server.ClosedCleared?
  }

  predicate TxHolds(s: System) {
    s.tx.Ready? || s.tx.InSend? || s.tx.Failed? || s.tx.FailedCleared? || s.tx.Sent?
  }

  predicate NewFd(s: System) {
    s.server.Accepted? || s.server.TakingOver? || s.server.Waiting? || s.server.Released?
    || s.server.Holding? || s.server.OldClosed?
  }

  ghost predicate Inv(s: System) {
    // PORT_CLOSED proves that nobody is in recv
    && (s.portClosed ==> !s.portOpen && RxParked(s))
    && (Replacing(s) ==> !s.portOpen && RxParked(s))
    // the mutex
    && !(TxHolds(s) && (s.server.Holding? || s.server.OldClosed? || s.server.Adopted?))
    // before the first client
    && (s.sock.None? ==> RxParked(s) && s.tx.Draining? && !s.portOpen && !s.portClosed
                         && (s.server.Accepting? || s.server.Accepted?))
    && (s.rx.Blocked? || s.rx.OpenCleared? || s.rx.ShutDown? ==> !s.portOpen)
    && (s.server.ClosedCleared? ==> !s.portClosed)
    // descriptors
    && (forall fd :: fd in s.live ==> fd < s.next)
    && (s.sock.Some? ==> (s.sock.value in s.live <==> !s.server.OldClosed?))
    && (NewFd(s) ==> s.server.fd in s.live && s.sock != Some(s.server.fd))
    // nobody uses a descriptor other than the current one
    && (s.rx.InRecv? ==> s.sock == Some(s.rx.fd))
    && (s.tx.InSend? ==> s.sock == Some(s.tx.fd))
  }

  lemma RxKeepsInv(s: System, a: Action)
    requires Inv(s) && Do(s, a).Some?
    requires a.RxWait? || a.RxRecv? || a.RxData? || a.RxQueued? || a.RxEnd? || a.RxClearOpen?
          || a.RxShutdown? || a.RxSetClosed?
    ensures Inv(Do(s, a).value)
  {
  }

  lemma TxKeepsInv(s: System, a: Action)
    requires Inv(s) && Do(s, a).Some?
    requires a.TxDequeue? || a.TxTake? || a.TxSend? || a.TxWritten? || a.TxError? || a.TxClearOpen?
          || a.TxShutdown? || a.TxGive?
    ensures Inv(Do(s, a).value)
  {
  }

  /** The server up to the decision to take over. */
  lemma AcceptKeepsInv(s: System, a: Action)
    requires Inv(s) && Do(s, a).Some?
    requires a.Accept? || a.Peek? || a.ShutdownOld? || a.SeeClosed? || a.GiveUp?
    ensures Inv(Do(s, a).value)
  {
  }

  /** The server replacing the socket. */
  lemma ReplaceKeepsInv(s: System, a: Action)
    requires Inv(s) && Do(s, a).Some?
    requires a.TakeMutex? || a.CloseOld? || a.Adopt? || a.GiveMutex? || a.ClearClosed? || a.SetOpen?
    ensures Inv(Do(s, a).value)
  {
  }

  lemma StepKeepsInv(s: System, a: Action)
    requires Inv(s) && Do(s, a).Some?
    ensures Inv(Do(s, a).value)
  {
    hide Inv, Do;
    match a
    case RxWait => RxKeepsInv(s, a);
    case RxRecv => RxKeepsInv(s, a);
    case RxData => RxKeepsInv(s, a);
    case RxQueued => RxKeepsInv(s, a);
    case RxEnd => RxKeepsInv(s, a);
    case RxClearOpen => RxKeepsInv(s, a);
    case RxShutdown => RxKeepsInv(s, a);
    case RxSetClosed => RxKeepsInv(s, a);
    case TxDequeue => TxKeepsInv(s, a);
    case TxTake => TxKeepsInv(s, a);
    case TxSend => TxKeepsInv(s, a);
    case TxWritten(_) => TxKeepsInv(s, a);
    case TxError => TxKeepsInv(s, a);
    case TxClearOpen => TxKeepsInv(s, a);
    case TxShutdown => TxKeepsInv(s, a);
    case TxGive => TxKeepsInv(s, a);
    case Accept => AcceptKeepsInv(s, a);
    case Peek(_) => AcceptKeepsInv(s, a);
    case ShutdownOld => AcceptKeepsInv(s, a);
    case SeeClosed => AcceptKeepsInv(s, a);
    case GiveUp => AcceptKeepsInv(s, a);
    case _ => ReplaceKeepsInv(s, a);
  }

  // ---------------------------------------------------------------- whole runs

  function Run(s: System, schedule: seq<Action>): System {
    Schedules.Run(Do, s, schedule)
  }

  lemma RunKeepsInv(s: System, schedule: seq<Action>)
    requires Inv(s)
    ensures Inv(Run(s, schedule))
  {
    hide Inv, Do;
    forall t, a | Inv(t) && Do(t, a).Some?
      ensures Inv(Do(t, a).value)
    {
      StepKeepsInv(t, a);
    }
    Schedules.RunKeeps(Do, t => Inv(t), s, schedule);
  }

  /** Every descriptor a task is using or about to shut down is open. */
  ghost predicate OnlyLiveUse(s: System) {
    && (s.rx.InRecv? ==> s.rx.fd in s.live)
    && (s.tx.InSend? ==> s.tx.fd in s.live)
    && ((s.rx.Looping? || s.rx.OpenCleared? || s.tx.Ready? || s.tx.FailedCleared? || s.server.TakingOver?)
        ==> s.sock.Some? && s.sock.value in s.live)
  }

  /** The old descriptor can be closed now only with nobody in recv or send. */
  ghost predicate ClosesSafely(s: System) {
    Do(s, CloseOld).Some? ==> RxParked(s) && !s.tx.InSend? && !s.portOpen
  }

  lemma InvIsSafe(s: System)
    requires Inv(s)
    ensures OnlyLiveUse(s) && ClosesSafely(s)
  {
  }

  /** Under every interleaving: no task ever uses a closed descriptor, the old one is closed only
      when the receive task is parked outside recv and the transmit task outside send, and
      PORT_CLOSED is proof of the former. */
  lemma TakeoverIsSafe(schedule: seq<Action>)
    ensures var s := Run(INITIAL, schedule);
      OnlyLiveUse(s) && ClosesSafely(s) && (s.portClosed ==> !s.portOpen && RxParked(s))
  {
    hide Do, OnlyLiveUse, ClosesSafely;
    assert Inv(INITIAL);
    RunKeepsInv(INITIAL, schedule);
    InvIsSafe(Run(INITIAL, schedule));
  }

  /** The shared socket never changes while a receive session is open. */
  lemma SocketIsStable(schedule: seq<Action>, a: Action)
    ensures var s := Run(INITIAL, schedule);
      !RxParked(s) && Do(s, a).Some? ==> Do(s, a).value.sock == s.sock
  {
    assert Inv(INITIAL);
    RunKeepsInv(INITIAL, schedule);
  }

  // ---------------------------------------------------------------- when a takeover cannot end

  /** The receive task is parked without having announced it: PORT_CLOSED will not come. */
  predicate Stuck(s: System) {
    s.sock.Some? && RxParked(s) && !s.portOpen && !s.portClosed && !Replacing(s)
  }

  lemma StepStaysStuck(s: System, a: Action)
    requires Stuck(s) && Do(s, a).Some?
    ensures Stuck(Do(s, a).value) && Do(s, a).value.sock == s.sock
  {
  }

  /** Once stuck, always stuck: no later client is ever adopted. */
  lemma StuckForever(s: System, schedule: seq<Action>)
    requires Stuck(s)
    ensures Stuck(Run(s, schedule)) && Run(s, schedule).sock == s.sock
  {
    hide Do, Stuck;
    forall t, a | Stuck(t) && t.sock == s.sock && Do(t, a).Some?
      ensures Stuck(Do(t, a).value) && Do(t, a).value.sock == s.sock
    {
      StepStaysStuck(t, a);
    }
    Schedules.RunKeeps(Do, t => Stuck(t) && t.sock == s.sock, s, schedule);
  }

  /** Exactly one step leads into that state: the transmit task reports a send error, withdrawing
      PORT_OPEN, after the server raised it and before the receive task looked. */
  lemma OnlyWayToStuck(schedule: seq<Action>, a: Action)
    ensures var s := Run(INITIAL, schedule);
      Do(s, a).Some? && !Stuck(s) ==>
        (Stuck(Do(s, a).value) <==> a.TxClearOpen? && s.portOpen && s.rx.ToWait?)
  {
    assert Inv(INITIAL);
    RunKeepsInv(INITIAL, schedule);
    var s := Run(INITIAL, schedule);
    if Do(s, a).Some? && !Stuck(s) {
      StuckIff(s, a);
    }
  }

  lemma StuckIff(s: System, a: Action)
    requires Inv(s) && Do(s, a).Some? && !Stuck(s)
    ensures Stuck(Do(s, a).value) <==> a.TxClearOpen? && s.portOpen && s.rx.ToWait?
  {
  }

  lemma Then(schedule: seq<Action>, s: System, a: Action) returns (longer: seq<Action>, t: System)
    requires Run(INITIAL, schedule) == s && Do(s, a).Some?
    ensures Run(INITIAL, longer) == t == Do(s, a).value
  {
    longer := Schedules.Then(Do, INITIAL, schedule, s, a);
    t := Do(s, a).value;
  }

  lemma Start() returns (schedule: seq<Action>)
    ensures Run(INITIAL, schedule) == INITIAL
  {
    schedule := Schedules.Start(Do, INITIAL);
  }

  /** Such a state is reachable: the very first client's session can end up there. */
  lemma StuckIsReachable() returns (schedule: seq<Action>)
    ensures Stuck(Run(INITIAL, schedule))
  {
    hide Run;
    schedule := Start();
    var s := INITIAL;
    schedule, s := Then(schedule, s, Accept);
    schedule, s := Then(schedule, s, Peek(false));
    schedule, s := Then(schedule, s, ClearClosed);
    schedule, s := Then(schedule, s, SetOpen);
    schedule, s := Then(schedule, s, TxDequeue);
    schedule, s := Then(schedule, s, TxTake);
    schedule, s := Then(schedule, s, TxSend);
    schedule, s := Then(schedule, s, TxError);
    schedule, s := Then(schedule, s, TxClearOpen);
  }

  // ---------------------------------------------------------------- when it can

  lemma Next(base: System, schedule: seq<Action>, s: System, a: Action) returns (longer: seq<Action>, t: System)
    requires Run(base, schedule) == s && Inv(s) && Do(s, a).Some?
    ensures Run(base, longer) == t == Do(s, a).value && Inv(t)
  {
    hide Inv, Do;
    longer := Schedules.Then(Do, base, schedule, s, a);
    t := Do(s, a).value;
    StepKeepsInv(s, a);
  }

  /** The receive task has taken up a session that is open. */
  predicate Seen(s: System) {
    s.portOpen ==> !s.rx.ToWait?
  }

  lemma LookFirst(base: System, schedule: seq<Action>, s: System) returns (longer: seq<Action>, t: System)
    requires Run(base, schedule) == s && Inv(s) && !Stuck(s)
    ensures Run(base, longer) == t && Inv(t) && !Stuck(t) && Seen(t)
    ensures t.sock == s.sock && t.server == s.server && t.tx == s.tx
  {
    hide Run;
    longer, t := schedule, s;
    if s.rx.ToWait? && s.portOpen {
      longer, t := Next(base, schedule, s, RxWait);
    }
  }

  /** The transmit task can always come to the point where it does not hold the mutex. */
  lemma LetGoOfMutex(base: System, schedule: seq<Action>, s: System) returns (longer: seq<Action>, t: System)
    requires Run(base, schedule) == s && Inv(s) && !Stuck(s) && Seen(s)
    ensures Run(base, longer) == t && Inv(t) && !Stuck(t) && Seen(t) && !TxHolds(t)
    ensures t.sock == s.sock && t.server == s.server
  {
    hide Run;
    longer, t := schedule, s;
    if t.tx.Ready? {
      longer, t := Next(base, longer, t, TxSend);
    }
    if t.tx.InSend? {
      longer, t := Next(base, longer, t, TxWritten(true));
    }
    if t.tx.Failed? {
      longer, t := Next(base, longer, t, TxClearOpen);
    }
    if t.tx.FailedCleared? {
      longer, t := Next(base, longer, t, TxShutdown);
    }
    if t.tx.Sent? {
      longer, t := Next(base, longer, t, TxGive);
    }
  }

  /** A replacement under way can be finished. */
  lemma FinishReplacing(base: System, schedule: seq<Action>, s: System) returns (longer: seq<Action>, t: System)
    requires Run(base, schedule) == s && Inv(s) && !TxHolds(s)
    requires s.server.Adopted? || s.server.Unlocked? || s.server.ClosedCleared?
    requires s.sock.Some?
    ensures Run(base, longer) == t && Inv(t) && !TxHolds(t) && t.sock == s.sock && t.portOpen && t.server.Accepting?
  {
    hide Run;
    longer, t := schedule, s;
    if t.server.Adopted? {
      longer, t := Next(base, longer, t, GiveMutex);
    }
    if t.server.Unlocked? {
      longer, t := Next(base, longer, t, ClearClosed);
    }
    longer, t := Next(base, longer, t, SetOpen);
  }

  /** The receive task can always be brought to announce that it has left its session. */
  lemma AnnounceClosed(base: System, schedule: seq<Action>, s: System) returns (longer: seq<Action>, t: System)
    requires Run(base, schedule) == s && Inv(s) && !Stuck(s) && Seen(s) && !TxHolds(s) && s.server.Waiting?
    ensures Run(base, longer) == t && Inv(t) && !TxHolds(t) && t.sock == s.sock && t.server == s.server && t.portClosed
  {
    hide Run;
    longer, t := schedule, s;
    if !t.portClosed {
      if t.rx.Queueing? {
        longer, t := Next(base, longer, t, RxQueued);
      }
      if t.rx.Looping? {
        longer, t := Next(base, longer, t, RxRecv);
      }
      if t.rx.InRecv? {
        longer, t := Next(base, longer, t, RxEnd);
      }
      longer, t := CloseSession(base, longer, t);
    }
  }

  lemma CloseSession(base: System, schedule: seq<Action>, s: System) returns (longer: seq<Action>, t: System)
    requires Run(base, schedule) == s && Inv(s) && !TxHolds(s) && (s.rx.Ended? || s.rx.OpenCleared? || s.rx.ShutDown?)
    ensures Run(base, longer) == t && Inv(t) && !TxHolds(t) && t.sock == s.sock && t.server == s.server && t.portClosed
  {
    hide Run;
    longer, t := schedule, s;
    if t.rx.Ended? {
      longer, t := Next(base, longer, t, RxClearOpen);
    }
    if t.rx.OpenCleared? {
      longer, t := Next(base, longer, t, RxShutdown);
    }
    longer, t := Next(base, longer, t, RxSetClosed);
  }

  /** From the moment the server may see the session closed, it can close the old socket. */
  lemma CloseTheOld(base: System, schedule: seq<Action>, s: System) returns (longer: seq<Action>, t: System)
    requires Run(base, schedule) == s && Inv(s) && !TxHolds(s)
    requires (s.server.Waiting? && s.portClosed) || s.server.Released? || s.server.Holding?
    ensures Run(base, longer) == t && Inv(t) && !TxHolds(t) && t.sock == s.sock && t.server.OldClosed?
  {
    hide Run;
    longer, t := schedule, s;
    if t.server.Waiting? {
      longer, t := Next(base, longer, t, SeeClosed);
    }
    if t.server.Released? {
      longer, t := Next(base, longer, t, TakeMutex);
    }
    longer, t := Next(base, longer, t, CloseOld);
  }

  /** And then take the new one. */
  lemma Replace(base: System, schedule: seq<Action>, s: System) returns (longer: seq<Action>, t: System)
    requires Run(base, schedule) == s && Inv(s) && !TxHolds(s)
    requires (s.server.Waiting? && s.portClosed) || s.server.Released? || s.server.Holding? || s.server.OldClosed?
    ensures Run(base, longer) == t && Inv(t) && t.sock.Some? && t.sock != s.sock && t.portOpen && t.server.Accepting?
  {
    hide Run;
    longer, t := schedule, s;
    if !t.server.OldClosed? {
      longer, t := CloseTheOld(base, longer, t);
    }
    longer, t := Next(base, longer, t, Adopt);
    longer, t := FinishReplacing(base, longer, t);
  }

  /** A client at the door is adopted: the first one at once, a later one after a takeover. */
  lemma AdoptNext(base: System, schedule: seq<Action>, s: System) returns (longer: seq<Action>, t: System)
    requires Run(base, schedule) == s && Inv(s) && !Stuck(s) && Seen(s) && !TxHolds(s)
    requires s.server.Accepting? || s.server.Accepted? || s.server.TakingOver? || s.server.Waiting?
    ensures Run(base, longer) == t && Inv(t) && t.sock.Some? && t.sock != s.sock && t.portOpen && t.server.Accepting?
  {
    hide Run;
    longer, t := schedule, s;
    if t.server.Accepting? {
      longer, t := Next(base, longer, t, Accept);
    }
    if t.server.Accepted? {
      longer, t := Next(base, longer, t, Peek(true));
    }
    if t.server.Unlocked? {
      longer, t := FinishReplacing(base, longer, t);
    } else {
      if t.server.TakingOver? {
        longer, t := Next(base, longer, t, ShutdownOld);
      }
      longer, t := AnnounceClosed(base, longer, t);
      longer, t := Replace(base, longer, t);
    }
  }

  /** From a state that is not stuck, some way on adopts another client. */
  lemma CanAdopt(s: System) returns (schedule: seq<Action>)
    requires Inv(s) && !Stuck(s)
    ensures var t := Run(s, schedule); t.sock.Some? && t.sock != s.sock && t.portOpen && t.server.Accepting?
  {
    hide Run;
    schedule := Schedules.Start(Do, s);
    var t := s;
    assert Run(s, schedule) == s by { RunIs(s, schedule); }
    schedule, t := LookFirst(s, schedule, t);
    schedule, t := LetGoOfMutex(s, schedule, t);
    if t.server.Adopted? || t.server.Unlocked? || t.server.ClosedCleared? {
      schedule, t := FinishReplacing(s, schedule, t);
      schedule, t := LookFirst(s, schedule, t);
    }
    if t.server.Released? || t.server.Holding? || t.server.OldClosed? {
      schedule, t := Replace(s, schedule, t);
    } else {
      schedule, t := AdoptNext(s, schedule, t);
    }
  }

  lemma RunIs(s: System, schedule: seq<Action>)
    ensures Run(s, schedule) == Schedules.Run(Do, s, schedule)
  {
  }

  ghost predicate MayAdopt(s: System) {
    exists schedule :: Run(s, schedule).sock.Some? && Run(s, schedule).sock != s.sock
  }

  /** After every schedule: another client can still be adopted exactly when the system is not stuck. */
  lemma AdoptsUnlessStuck(schedule: seq<Action>)
    ensures MayAdopt(Run(INITIAL, schedule)) <==> !Stuck(Run(INITIAL, schedule))
  {
    hide Run, Stuck, Do;
    assert Inv(INITIAL);
    RunKeepsInv(INITIAL, schedule);
    var s := Run(INITIAL, schedule);
    if Stuck(s) {
      forall more
        ensures Run(s, more).sock == s.sock
      {
        StuckForever(s, more);
      }
    } else {
      var more := CanAdopt(s);
    }
  }
}
