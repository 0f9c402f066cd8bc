/** The hierarchical state machine engine of main/hsm.c. What the callbacks of a client do is an
    arbitrary tape: each callback invoked takes the next entry, so a statement about every tape is
    a statement about every client. */
module Hsm {
  import opened Wrappers

  const SM_MAX_DEPTH := 4
  const CHAIN_LIMIT := 8
  const WORD := 0x1_0000_0000

  // ---------------------------------------------------------------- state charts

  datatype Callback = OnTick | OnRx | OnEvent | OnFwd

  /** A state with its chain of parents; `handlers` tells which of its dispatch callbacks exist. */
  datatype State = State(name: string, parent: Option<State>, handlers: set<Callback>)

  /** The ancestors of a state and the state itself, outermost first. */
  function Path(s: State): (p: seq<State>)
    ensures p != [] && p[|p| - 1] == s
  {
    if s.parent.None? then [s] else Path(s.parent.value) + [s]
  }

  ghost predicate ProperAncestor(a: State, s: State) {
    s.parent.Some? && (a == s.parent.value || ProperAncestor(a, s.parent.value))
  }

  datatype Chart = Chart(states: set<State>, initial: map<State, State>)

  /** The contract of a chart: closed under parents, default children are direct children, and no
      state is nested deeper than four levels. */
  ghost predicate WellFormed(c: Chart) {
    && (forall s :: s in c.states ==> |Path(s)| <= SM_MAX_DEPTH)
    && (forall s :: s in c.states && s.parent.Some? ==> s.parent.value in c.states)
    && (forall s :: s in c.initial ==> c.initial[s] in c.states && c.initial[s].parent == Some(s))
  }

  predicate IsLeaf(c: Chart, s: State) {
    s !in c.initial
  }

  // ---------------------------------------------------------------- the machine

  /** What a callback does: request a transition, or send itself an event at some later reading
      of the clock. `handled` says that an event was claimed, or that a filter came to a decision. */
  datatype Action = Request(target: State, arg: int) | Send(at: int)
  datatype Behaviour = Behaviour(actions: seq<Action>, handled: bool)

  /** The history of a machine: entries and exits, dispatch callbacks, completed ticks. */
  datatype Entry = Entered(s: State, at: int) | Exited(s: State) | Called(s: State, callback: Callback) | Ticked

  datatype Machine = Machine(
    current: State, pending: Option<State>, pendingArg: int, entryArg: int, now: int,
    entered: seq<int>, leafTicks: nat, generation: nat, tape: seq<Behaviour>, log: seq<Entry>)

  function NextBehaviour(m: Machine): Behaviour {
    if m.tape == [] then Behaviour([], false) else m.tape[0]
  }

  function Wind(m: Machine): Machine {
    if m.tape == [] then m else m.(tape := m.tape[1..])
  }

  function Record(m: Machine, e: Entry): Machine {
    m.(log := m.log + [e])
  }

  function RequestTransition(m: Machine, target: State, arg: int): Machine {
    m.(pending := Some(target), pendingArg := arg)
  }

  /** The last transition request among some actions. */
  function Latest(acts: seq<Action>): (r: Option<Action>)
    ensures r.Some? ==> r.value.Request? && r.value in acts
    decreases |acts|
  {
    if acts == [] then None
    else if acts[|acts| - 1].Request? then Some(acts[|acts| - 1])
    else Latest(acts[..|acts| - 1])
  }

  /** Enter and exit handlers may request transitions, of which the latest wins, but start no
      dispatch. */
  function RunRequests(m: Machine, acts: seq<Action>): Machine {
    match Latest(acts)
    case None => m
    case Some(r) => RequestTransition(m, r.target, r.arg)
  }

  function EnterState(m: Machine, s: State, depth: nat): Machine
    requires depth < |m.entered|
  {
    RunRequests(Wind(Record(m.(entered := m.entered[depth := m.now]), Entered(s, m.now))),
                NextBehaviour(m).actions)
  }

  function ExitState(m: Machine, s: State): Machine {
    RunRequests(Wind(Record(m, Exited(s))), NextBehaviour(m).actions)
  }

  /** Exit the states of a path from the innermost up to depth `keep`. */
  function ExitDownTo(m: Machine, path: seq<State>, keep: nat): (r: Machine)
    ensures r.entered == m.entered && r.now == m.now && |r.tape| <= |m.tape| && r.generation == m.generation
    decreases |path|
  {
    if |path| <= keep then m else ExitDownTo(ExitState(m, path[|path| - 1]), path[..|path| - 1], keep)
  }

  /** Enter the states of a path from depth `i` inwards. */
  function EnterFrom(m: Machine, path: seq<State>, i: nat): (r: Machine)
    requires i <= |path| <= |m.entered|
    ensures |r.entered| == |m.entered| && r.now == m.now && |r.tape| <= |m.tape| && r.generation == m.generation
    decreases |path| - i
  {
    if i == |path| then m else EnterFrom(EnterState(m, path[i], i), path, i + 1)
  }

  /** Follow the default children from `leaf` at depth `depth` to a leaf. */
  function Descend(c: Chart, m: Machine, leaf: State, depth: nat): (r: (Machine, State))
    requires depth <= SM_MAX_DEPTH == |m.entered|
    ensures |r.0.entered| == |m.entered| && r.0.now == m.now && |r.0.tape| <= |m.tape|
    ensures r.0.generation == m.generation
    decreases SM_MAX_DEPTH - depth
  {
    if leaf in c.initial && depth < SM_MAX_DEPTH
    then Descend(c, EnterState(m, c.initial[leaf], depth), c.initial[leaf], depth + 1)
    else (m, leaf)
  }

  /** How many states two paths share from the root on. */
  function Common(a: seq<State>, b: seq<State>): (k: nat)
    ensures k <= |a| && k <= |b|
    ensures a[..k] == b[..k]
    ensures forall i :: 0 <= i < k ==> a[i] == b[i]
    ensures k < |a| && k < |b| ==> a[k] != b[k]
    decreases |a|
  {
    if a == [] || b == [] || a[0] != b[0] then 0 else
      var k := Common(a[1..], b[1..]);
      assert a[..k + 1] == [a[0]] + a[1..][..k] && b[..k + 1] == [b[0]] + b[1..][..k];
      assert forall i :: 0 < i <= k ==> a[i] == a[1..][i - 1] && b[i] == b[1..][i - 1];
      k + 1
  }

  /** The depth down to which a transition leaves states active: when one path contains the
      other, its last state is left and entered again. */
  function Keep(src: seq<State>, dst: seq<State>): nat {
    var k := Common(src, dst);
    if (k == |src| || k == |dst|) && k > 0 then k - 1 else k
  }

  /** What `ancestor_path` fills in: nothing at all for a state nested too deeply. */
  function BoundedPath(s: State): (p: seq<State>)
    ensures |p| <= SM_MAX_DEPTH
  {
    if SM_MAX_DEPTH < |Path(s)| then [] else Path(s)
  }

  function DoTransition(c: Chart, m: Machine, target: State): (r: Machine)
    requires |m.entered| == SM_MAX_DEPTH
    ensures |r.entered| == SM_MAX_DEPTH && |r.tape| <= |m.tape| && r.generation == m.generation + 1
  {
    var src, dst := BoundedPath(m.current), BoundedPath(target);
    var keep := Keep(src, dst);
    var inside := EnterFrom(ExitDownTo(m, src, keep), dst, keep);
    var (settled, leaf) := Descend(c, inside, target, |dst|);
    settled.(current := leaf, leafTicks := 0, generation := settled.generation + 1)
  }

  /** Apply pending transitions, including those their own handlers request, at most `n` times. */
  function ApplyChain(c: Chart, m: Machine, n: nat): (r: Machine)
    requires |m.entered| == SM_MAX_DEPTH
    ensures |r.entered| == SM_MAX_DEPTH && |r.tape| <= |m.tape|
    ensures m.generation <= r.generation <= m.generation + n
    decreases n
  {
    if m.pending.None? || n == 0 then m else
      var taken := m.(pending := None, entryArg := m.pendingArg, pendingArg := 0);
      ApplyChain(c, DoTransition(c, taken, m.pending.value), n - 1)
  }

  /** A transition still pending after eight is dropped. */
  function ApplyIfPending(c: Chart, m: Machine): (r: Machine)
    requires |m.entered| == SM_MAX_DEPTH
    ensures |r.entered| == SM_MAX_DEPTH && |r.tape| <= |m.tape| && m.generation <= r.generation
    ensures r.pending.None?
  {
    ApplyChain(c, m, CHAIN_LIMIT).(pending := None)
  }

  // ---------------------------------------------------------------- dispatch

  /** Run what a dispatch callback does; an event it sends is dispatched on the spot. */
  function RunActions(c: Chart, m: Machine, acts: seq<Action>): (r: Machine)
    requires |m.entered| == SM_MAX_DEPTH
    ensures |r.entered| == SM_MAX_DEPTH && |r.tape| <= |m.tape| && m.generation <= r.generation
    decreases |m.tape|, 2, |acts|
  {
    if acts == [] then m else
      var next := match acts[0]
                  case Request(target, arg) => RequestTransition(m, target, arg)
                  case Send(at) => SendEvent(c, m, at);
      RunActions(c, next, acts[1..])
  }

  /** Invoke one callback and apply the transitions it asks for. */
  function Invoke(c: Chart, m: Machine): (r: Machine)
    requires |m.entered| == SM_MAX_DEPTH
    ensures |r.entered| == SM_MAX_DEPTH && |r.tape| <= |m.tape| && m.generation <= r.generation
    ensures r.pending.None?
    decreases |m.tape|, 0
  {
    if m.tape == [] then ApplyIfPending(c, m)
    else ApplyIfPending(c, RunActions(c, Wind(m), m.tape[0].actions))
  }

  /** Offer an event to `s` and then to its ancestors until one handles it or a transition
      happens. */
  function EventWalk(c: Chart, m: Machine, gen: nat, s: Option<State>): (r: Machine)
    requires |m.entered| == SM_MAX_DEPTH
    ensures |r.entered| == SM_MAX_DEPTH && |r.tape| <= |m.tape| && m.generation <= r.generation
    decreases |m.tape|, 1, s
  {
    if s.None? then m
    else if OnEvent !in s.value.handlers then EventWalk(c, m, gen, s.value.parent)
    else
      var handled := NextBehaviour(m).handled;
      var done := Invoke(c, Record(m, Called(s.value, OnEvent)));
      if done.generation != gen || handled then done else EventWalk(c, done, gen, s.value.parent)
  }

  function SendEvent(c: Chart, m: Machine, at: int): (r: Machine)
    requires |m.entered| == SM_MAX_DEPTH
    ensures |r.entered| == SM_MAX_DEPTH && |r.tape| <= |m.tape| && m.generation <= r.generation
    decreases |m.tape|, 1
  {
    EventWalk(c, m.(now := at), m.generation, Some(m.current))
  }

  /** The per-state part of a tick, root to leaf; completed when no transition interrupts it. */
  function TickWalk(c: Chart, m: Machine, gen: nat, path: seq<State>): (r: Machine)
    requires |m.entered| == SM_MAX_DEPTH
    ensures |r.entered| == SM_MAX_DEPTH
    decreases |path|
  {
    if path == [] then Record(m, Ticked).(leafTicks := (m.leafTicks + 1) % WORD)
    else if OnTick !in path[0].handlers then TickWalk(c, m, gen, path[1..])
    else
      var done := Invoke(c, Record(m, Called(path[0], OnTick)));
      if done.generation != gen then done else TickWalk(c, done, gen, path[1..])
  }

  /** The per-state part of receiving a frame, leaf to root. */
  function RxWalk(c: Chart, m: Machine, gen: nat, s: Option<State>): (r: Machine)
    requires |m.entered| == SM_MAX_DEPTH
    ensures |r.entered| == SM_MAX_DEPTH
    decreases s
  {
    if s.None? then m
    else if OnRx !in s.value.handlers then RxWalk(c, m, gen, s.value.parent)
    else
      var done := Invoke(c, Record(m, Called(s.value, OnRx)));
      if done.generation != gen then done else RxWalk(c, done, gen, s.value.parent)
  }

  /** Filters of a frame about to be forwarded: the same rules as for enter handlers apply. */
  function Filter(m: Machine): (Machine, bool) {
    (RunRequests(Wind(m), NextBehaviour(m).actions), NextBehaviour(m).handled)
  }

  /** Ask `s` and then its ancestors until one decides; no transition is applied meanwhile. */
  function FwdWalk(m: Machine, s: Option<State>, decided: bool): (r: (Machine, bool))
    ensures |r.0.entered| == |m.entered|
    decreases s
  {
    if decided || s.None? then (m, decided)
    else if OnFwd !in s.value.handlers then FwdWalk(m, s.value.parent, false)
    else
      var (done, d) := Filter(Record(m, Called(s.value, OnFwd)));
      FwdWalk(done, s.value.parent, d)
  }

  /** The four dispatches with the clock reading they start at; `hook` tells whether the client
      has a global callback, which runs first. */
  datatype Dispatch = Tick(at: int, hook: bool) | Rx(at: int, hook: bool) | Event(at: int) | Fwd(at: int, hook: bool)

  function RunHook(c: Chart, m: Machine, hook: bool): (r: Machine)
    requires |m.entered| == SM_MAX_DEPTH
    ensures |r.entered| == SM_MAX_DEPTH
  {
    if hook then Invoke(c, m) else m
  }

  function Perform(c: Chart, m: Machine, d: Dispatch): (r: Machine)
    requires |m.entered| == SM_MAX_DEPTH
    ensures |r.entered| == SM_MAX_DEPTH
  {
    match d
    case Tick(at, hook) =>
      var ready := RunHook(c, m.(now := at), hook);
      TickWalk(c, ready, ready.generation, BoundedPath(ready.current))
    case Rx(at, hook) =>
      var ready := RunHook(c, m.(now := at), hook);
      RxWalk(c, ready, ready.generation, Some(ready.current))
    case Event(at) => SendEvent(c, m, at)
    case Fwd(at, hook) => ApplyIfPending(c, FwdAsked(m, at, hook).0)
  }

  /** The machine after all filters asked, and whether one decided. */
  function FwdAsked(m: Machine, at: int, hook: bool): (r: (Machine, bool))
    ensures |r.0.entered| == |m.entered|
  {
    var ready := m.(now := at);
    var (first, decided) := if hook then Filter(ready) else (ready, false);
    FwdWalk(first, Some(first.current), decided)
  }

  /** `sm_init`: enter the ancestors of the initial state, then its default children. */
  function Init(c: Chart, initial: State, at: int, tape: seq<Behaviour>): (r: Machine)
    ensures |r.entered| == SM_MAX_DEPTH
  {
    var blank := Machine(initial, None, 0, 0, at, [0, 0, 0, 0], 0, 0, tape, []);
    var path := BoundedPath(initial);
    var (settled, leaf) := Descend(c, EnterFrom(blank, path, 0), initial, |path|);
    ApplyIfPending(c, settled.(current := leaf))
  }

  function Run(c: Chart, m: Machine, ds: seq<Dispatch>): (r: Machine)
    requires |m.entered| == SM_MAX_DEPTH
    ensures |r.entered| == SM_MAX_DEPTH
    decreases |ds|
  {
    if ds == [] then m else Run(c, Perform(c, m, ds[0]), ds[1..])
  }

  // ---------------------------------------------------------------- reading a history

  /** The states open after a history, outermost first; none unless the history is well nested:
      every entry is of a child of the innermost open state, every exit of that state itself, and
      every callback is invoked on an open state. */
  function Play(log: seq<Entry>): Option<seq<State>>
    decreases |log|
  {
    if log == [] then Some([]) else
      var before := Play(log[..|log| - 1]);
      if before.None? then None else
        var stack := before.value;
        match log[|log| - 1]
        case Entered(s, _) =>
          if s.parent == (if stack == [] then None else Some(stack[|stack| - 1])) then Some(stack + [s]) else None
        case Exited(s) =>
          if stack != [] && stack[|stack| - 1] == s then Some(stack[..|stack| - 1]) else None
        case Called(s, _) => if s in stack then before else None
        case Ticked => before
  }

  /** When a state was last entered. */
  function LastEntry(log: seq<Entry>, s: State): Option<int>
    decreases |log|
  {
    if log == [] then None else
      match log[|log| - 1]
      case Entered(t, at) => if t == s then Some(at) else LastEntry(log[..|log| - 1], s)
      case _ => LastEntry(log[..|log| - 1], s)
  }

  /** How many ticks have completed since any state was last entered. */
  function TicksSinceEntry(log: seq<Entry>): nat
    decreases |log|
  {
    if log == [] then 0 else
      match log[|log| - 1]
      case Entered(_, _) => 0
      case Ticked => TicksSinceEntry(log[..|log| - 1]) + 1
      case _ => TicksSinceEntry(log[..|log| - 1])
  }

  // ---------------------------------------------------------------- invariants

  /** Every request still to be made names a state of the chart. */
  ghost predicate ActionsOk(c: Chart, acts: seq<Action>) {
    forall a :: a in acts && a.Request? ==> a.target in c.states
  }

  ghost predicate RequestsOk(c: Chart, m: Machine) {
    && (forall b :: b in m.tape ==> ActionsOk(c, b.actions))
    && (m.pending.Some? ==> m.pending.value in c.states)
  }

  /** The history is well nested, `open` is what it leaves open, and every open state has its
      entry time in the table. */
  ghost predicate Consistent(c: Chart, m: Machine, open: seq<State>) {
    && |m.entered| == SM_MAX_DEPTH
    && RequestsOk(c, m)
    && Play(m.log) == Some(open)
    && |open| <= SM_MAX_DEPTH
    && (open == [] || open == Path(open[|open| - 1]))
    && forall i :: 0 <= i < |open| ==> LastEntry(m.log, open[i]) == Some(m.entered[i])
  }

  /** What holds between any two callbacks. */
  ghost predicate Inv(c: Chart, m: Machine) {
    && m.current in c.states && IsLeaf(c, m.current)
    && Consistent(c, m, Path(m.current))
    && m.leafTicks == TicksSinceEntry(m.log) % WORD
  }
}
