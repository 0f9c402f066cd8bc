/** Who is asked, in which order, and whose answer counts: the callback order that main/hsm.h promises,
    read from the history of a dispatch. */
module HsmOrder {
  import opened Wrappers
  import opened Hsm
  import opened HsmLaws

  // ---------------------------------------------------------------- reading a history

  /** The states whose `callback` a history invokes, in order. */
  function Calls(log: seq<Entry>, callback: Callback): seq<State>
    decreases |log|
  {
    if log == [] then [] else
      Calls(log[..|log| - 1], callback)
      + (match log[|log| - 1] case Called(s, b) => if b == callback then [s] else [] case _ => [])
  }

  predicate IsCall(e: Entry, callback: Callback) {
    e.Called? && e.callback == callback
  }

  predicate IsMove(e: Entry) {
    e.Entered? || e.Exited?
  }

  /** Whether a history shows a transition from an index on. */
  ghost predicate Moved(log: seq<Entry>, from: nat) {
    exists i :: from <= i < |log| && IsMove(log[i])
  }

  /** From an index on, a history invokes `callback` on nobody after a transition. */
  ghost predicate MoveIsLast(log: seq<Entry>, from: nat, callback: Callback) {
    forall i, j :: from <= i < j < |log| && IsMove(log[i]) ==> !IsCall(log[j], callback)
  }

  /** From one history to a later one, `callback` is invoked on the first `k` states of `order`
      and no others; a transition ends the walk, and nothing else does. */
  ghost predicate AskedInTurn(before: seq<Entry>, after: seq<Entry>, callback: Callback, order: seq<State>, k: nat) {
    && before <= after
    && k <= |order|
    && Calls(after, callback) == Calls(before, callback) + order[..k]
    && MoveIsLast(after, |before|, callback)
    && (k < |order| ==> Moved(after, |before|))
  }

  function Reversed(path: seq<State>): seq<State> {
    if path == [] then [] else Reversed(path[1..]) + [path[0]]
  }

  /** The states among some that have the callback. */
  function With(states: seq<State>, callback: Callback): seq<State> {
    if states == [] then []
    else (if callback in states[0].handlers then [states[0]] else []) + With(states[1..], callback)
  }

  /** From a state outwards, and from the root inwards to it. */
  function LeafToRoot(s: State, callback: Callback): seq<State> {
    With(Reversed(Path(s)), callback)
  }

  function RootToLeaf(s: State, callback: Callback): seq<State> {
    With(Path(s), callback)
  }

  /** Whether the client's `i`-th behaviour from here on is a claim or a decision. */
  predicate Answers(m: Machine, i: nat) {
    i < |m.tape| && m.tape[i].handled
  }

  lemma CallsRecord(m: Machine, e: Entry, callback: Callback)
    ensures Calls(Record(m, e).log, callback)
         == Calls(m.log, callback) + (match e case Called(s, b) => if b == callback then [s] else [] case _ => [])
  {
    assert (m.log + [e])[..|m.log + [e]| - 1] == m.log;
  }

  lemma {:induction false} ReversedAppend(path: seq<State>, s: State)
    ensures Reversed(path + [s]) == [s] + Reversed(path)
    decreases |path|
  {
    if path == [] {
      assert path + [s] == [s];
    } else {
      assert (path + [s])[1..] == path[1..] + [s];
      ReversedAppend(path[1..], s);
    }
  }

  /** One step outwards. */
  lemma LeafToRootIs(s: State, callback: Callback)
    ensures LeafToRoot(s, callback)
         == (if callback in s.handlers then [s] else [])
            + (if s.parent.None? then [] else LeafToRoot(s.parent.value, callback))
  {
    hide Path;
    PathIs(s);
    if s.parent.None? {
      assert [s][1..] == [];
      assert Reversed([s]) == [s];
      WithFirst(s, [], callback);
    } else {
      ReversedAppend(Path(s.parent.value), s);
      WithFirst(s, Reversed(Path(s.parent.value)), callback);
    }
  }

  lemma PathIs(s: State)
    ensures Path(s) == if s.parent.None? then [s] else Path(s.parent.value) + [s]
  {
  }

  lemma WithFirst(s: State, rest: seq<State>, callback: Callback)
    ensures With([s] + rest, callback) == (if callback in s.handlers then [s] else []) + With(rest, callback)
  {
    assert ([s] + rest)[1..] == rest;
  }

  function Outwards(s: Option<State>, callback: Callback): seq<State> {
    if s.None? then [] else LeafToRoot(s.value, callback)
  }

  lemma OutwardsIs(s: Option<State>, callback: Callback)
    ensures Outwards(s, callback)
         == if s.None? then []
            else if callback in s.value.handlers then [s.value] + Outwards(s.value.parent, callback)
            else Outwards(s.value.parent, callback)
  {
    hide LeafToRoot;
    if s.Some? {
      LeafToRootIs(s.value, callback);
    }
  }

  // ---------------------------------------------------------------- filters

  /** Nobody answers among the client's next behaviours, from the `from`-th up to the `to`-th. */
  ghost predicate Passes(m: Machine, from: nat, to: nat) {
    forall i :: from <= i < to ==> !Answers(m, i)
  }

  lemma FilterIs(m: Machine)
    ensures var (r, d) := Filter(m);
      && r.log == m.log && d == Answers(m, 0) && r.current == m.current
      && r.tape == (if m.tape == [] then [] else m.tape[1..])
  {
  }

  /** After one behaviour the next ones count from there. */
  lemma AnswersShift(m: Machine, r: Machine, from: nat, to: nat)
    requires r.tape == if m.tape == [] then [] else m.tape[1..]
    ensures forall i: nat :: Answers(r, i) == Answers(m, i + 1)
    ensures Passes(r, from, to) <==> Passes(m, from + 1, to + 1)
  {
    assert forall i: nat :: Answers(r, i) == Answers(m, i + 1);
    if Passes(r, from, to) {
      forall i | from + 1 <= i < to + 1
        ensures !Answers(m, i)
      {
        assert !Answers(r, i - 1);
      }
    }
  }

  /** Filters are asked from a state outwards, up to and including the first that decides; the
      answer is whether one did. */
  lemma {:induction false} FwdAsksOutwards(m: Machine, s: Option<State>) returns (k: nat)
    ensures k <= |Outwards(s, OnFwd)|
    ensures Calls(FwdWalk(m, s, false).0.log, OnFwd) == Calls(m.log, OnFwd) + Outwards(s, OnFwd)[..k]
    ensures Passes(m, 0, if k == 0 then 0 else k - 1)
    ensures FwdWalk(m, s, false).1 <==> 0 < k && Answers(m, k - 1)
    ensures !FwdWalk(m, s, false).1 ==> k == |Outwards(s, OnFwd)|
    decreases s
  {
    hide Calls, LeafToRoot, Outwards, Filter, Answers;
    if s.None? {
      k := 0;
      OutwardsIs(s, OnFwd);
    } else {
      OutwardsIs(s, OnFwd);
      if OnFwd !in s.value.handlers {
        k := FwdAsksOutwards(m, s.value.parent);
      } else {
        var called := Record(m, Called(s.value, OnFwd));
        var (done, d) := Filter(called);
        CallsRecord(m, Called(s.value, OnFwd), OnFwd);
        FilterIs(called);
        AnswerOf(m, called);
        if d {
          k := 1;
          assert FwdWalk(m, s, false) == (done, true);
        } else {
          var more := FwdAsksOutwards(done, s.value.parent);
          k := more + 1;
          AnswersShift(m, done, 0, if more == 0 then 0 else more - 1);
        }
      }
    }
  }

  lemma AnswerOf(m: Machine, r: Machine)
    requires r.tape == m.tape
    ensures forall i: nat :: Answers(r, i) == Answers(m, i)
  {
  }

  /** A frame about to be forwarded: the global filter comes first and may decide alone; otherwise
      the filters of the active states are asked, innermost first, until one decides. */
  lemma FwdOrder(m: Machine, at: int, hook: bool) returns (k: nat)
    ensures var (r, decided) := FwdAsked(m, at, hook);
      var first := if hook then 1 else 0;
      var asked := LeafToRoot(m.current, OnFwd);
      && k <= |asked| && Calls(r.log, OnFwd) == Calls(m.log, OnFwd) + asked[..k]
      && (hook && Answers(m, 0) ==> k == 0 && decided)
      && (!(hook && Answers(m, 0)) ==>
            && Passes(m, 0, if k == 0 then first else first + k - 1)
            && (decided <==> 0 < k && Answers(m, first + k - 1))
            && (!decided ==> k == |asked|))
  {
    hide Calls, LeafToRoot, Answers, Filter;
    var ready := m.(now := at);
    FilterIs(ready);
    AnswerOf(m, ready);
    if hook && Answers(m, 0) {
      k := 0;
      assert FwdAsked(m, at, hook) == (Filter(ready).0, true);
    } else if hook {
      var start := Filter(ready).0;
      k := FwdAsksOutwards(start, Some(start.current));
      AnswersShift(m, start, 0, if k == 0 then 0 else k - 1);
    } else {
      k := FwdAsksOutwards(ready, Some(ready.current));
    }
  }

  // ---------------------------------------------------------------- what a callback adds to the history

  /** What running a callback adds to a history: entries and exits exactly when a transition
      happened, and callbacks of the events it sends. */
  ghost predicate Grows(m: Machine, r: Machine) {
    && m.log <= r.log
    && (forall i :: |m.log| <= i < |r.log| ==> IsMove(r.log[i]) || IsCall(r.log[i], OnEvent))
    && m.generation <= r.generation
    && (m.generation < r.generation <==> Moved(r.log, |m.log|))
  }

  ghost predicate AddsMoves(m: Machine, r: Machine) {
    m.log <= r.log && forall i :: |m.log| <= i < |r.log| ==> IsMove(r.log[i])
  }

  lemma MovesAlong(a: Machine, b: Machine, c: Machine)
    requires AddsMoves(a, b) && AddsMoves(b, c)
    ensures AddsMoves(a, c)
  {
    assert forall i :: |a.log| <= i < |b.log| ==> c.log[i] == b.log[i];
  }

  lemma MovesAlike(a: Machine, m: Machine, r: Machine, b: Machine)
    requires AddsMoves(m, r) && a.log == m.log && b.log == r.log
    ensures AddsMoves(a, b)
  {
  }

  lemma GrowsAlong(a: Machine, b: Machine, c: Machine)
    requires Grows(a, b) && Grows(b, c)
    ensures Grows(a, c)
  {
    forall i | |a.log| <= i < |c.log|
      ensures IsMove(c.log[i]) || IsCall(c.log[i], OnEvent)
    {
      if i < |b.log| {
        assert c.log[i] == b.log[i];
      }
    }
    if Moved(b.log, |a.log|) {
      var i :| |a.log| <= i < |b.log| && IsMove(b.log[i]);
      assert IsMove(c.log[i]);
    }
    if Moved(c.log, |a.log|) && !Moved(c.log, |b.log|) {
      var i :| |a.log| <= i < |c.log| && IsMove(c.log[i]);
      assert IsMove(b.log[i]);
    }
  }

  lemma GrowsStill(m: Machine, r: Machine)
    requires r.log == m.log && r.generation == m.generation
    ensures Grows(m, r) && AddsMoves(m, r)
  {
  }

  lemma GrowsAlike(a: Machine, m: Machine, r: Machine, b: Machine)
    requires Grows(m, r) && a.log == m.log && a.generation == m.generation
    requires b.log == r.log && b.generation == r.generation
    ensures Grows(a, b)
  {
  }

  lemma {:induction false} ExitsAreMoves(path: seq<State>, keep: nat)
    ensures forall e :: e in Exits(path, keep) ==> IsMove(e)
    decreases |path|
  {
    if keep < |path| {
      ExitsAreMoves(path[..|path| - 1], keep);
    }
  }

  lemma {:induction false} EntriesAreMoves(path: seq<State>, from: nat, at: int)
    requires from <= |path|
    ensures forall e :: e in Entries(path, from, at) ==> IsMove(e)
    ensures from < |path| ==> Entries(path, from, at) != []
    decreases |path| - from
  {
    if from < |path| {
      EntriesAreMoves(path, from + 1, at);
    }
  }

  lemma GrowsByMoves(m: Machine, r: Machine, added: seq<Entry>)
    requires r.log == m.log + added && added != [] && m.generation < r.generation
    requires forall e :: e in added ==> IsMove(e)
    ensures Grows(m, r) && AddsMoves(m, r)
  {
    forall i | |m.log| <= i < |r.log|
      ensures IsMove(r.log[i])
    {
      assert r.log[i] == added[i - |m.log|];
    }
    assert IsMove(r.log[|m.log|]);
  }

  lemma TransitionGrows(c: Chart, m: Machine, target: State)
    requires WellFormed(c) && target in c.states && m.current in c.states && |m.entered| == SM_MAX_DEPTH
    ensures Grows(m, DoTransition(c, m, target)) && AddsMoves(m, DoTransition(c, m, target))
  {
    hide *;
    TransitionOrder(c, m, target);
    var r := DoTransition(c, m, target);
    var keep := Keep(Path(m.current), Path(target));
    var exits, entries := Exits(Path(m.current), keep), Entries(Path(r.current), keep, m.now);
    ExitsAreMoves(Path(m.current), keep);
    EntriesAreMoves(Path(r.current), keep, m.now);
    GrowsByMoves(m, r, exits + entries);
  }

  lemma {:induction false} ChainGrows(c: Chart, m: Machine, n: nat)
    requires WellFormed(c) && Inv(c, m)
    ensures Grows(m, ApplyChain(c, m, n)) && AddsMoves(m, ApplyChain(c, m, n))
    decreases n
  {
    hide *;
    TableOf(c, m);
    ChainIs(c, m, n);
    if m.pending.Some? && n > 0 {
      var taken := m.(pending := None, entryArg := m.pendingArg, pendingArg := 0);
      var moved := DoTransition(c, taken, m.pending.value);
      TakingKeepsConsistent(c, m);
      TransitionKeepsInv(c, taken, m.pending.value);
      TransitionGrows(c, taken, m.pending.value);
      GrowsAlike(m, taken, moved, moved);
      MovesAlike(m, taken, moved, moved);
      ChainGrows(c, moved, n - 1);
      GrowsAlong(m, moved, ApplyChain(c, moved, n - 1));
      MovesAlong(m, moved, ApplyChain(c, moved, n - 1));
    } else {
      GrowsStill(m, m);
    }
  }

  lemma ApplyGrows(c: Chart, m: Machine)
    requires WellFormed(c) && Inv(c, m)
    ensures Grows(m, ApplyIfPending(c, m)) && AddsMoves(m, ApplyIfPending(c, m))
  {
    hide Inv, Grows, AddsMoves, ApplyChain;
    TableOf(c, m);
    ChainGrows(c, m, CHAIN_LIMIT);
    GrowsAlike(m, m, ApplyChain(c, m, CHAIN_LIMIT), ApplyIfPending(c, m));
    MovesAlike(m, m, ApplyChain(c, m, CHAIN_LIMIT), ApplyIfPending(c, m));
  }

  lemma {:induction false} ActionsGrow(c: Chart, m: Machine, acts: seq<Action>)
    requires WellFormed(c) && Inv(c, m) && ActionsOk(c, acts)
    ensures |m.entered| == SM_MAX_DEPTH && Grows(m, RunActions(c, m, acts))
    decreases |m.tape|, 2, |acts|
  {
    hide Inv, Grows, SendEvent;
    TableOf(c, m);
    if acts == [] {
      GrowsStill(m, m);
    } else {
      match acts[0]
      case Request(target, arg) =>
        var next := RequestTransition(m, target, arg);
        RequestKeepsInv(c, m, target, arg);
        ActionsGrow(c, next, acts[1..]);
        GrowsAlike(m, next, RunActions(c, next, acts[1..]), RunActions(c, m, acts));
      case Send(at) =>
        var next := SendEvent(c, m, at);
        EventKeepsInv(c, m, at);
        EventGrows(c, m, at);
        ActionsGrow(c, next, acts[1..]);
        GrowsAlong(m, next, RunActions(c, next, acts[1..]));
    }
  }

  lemma WindKeepsInv(c: Chart, m: Machine)
    requires Inv(c, m) && m.tape != []
    ensures Inv(c, Wind(m)) && ActionsOk(c, m.tape[0].actions)
  {
    NextIsOk(c, m);
  }

  lemma {:induction false} InvokeGrows(c: Chart, m: Machine)
    requires WellFormed(c) && Inv(c, m)
    ensures |m.entered| == SM_MAX_DEPTH && Grows(m, Invoke(c, m))
    decreases |m.tape|, 0
  {
    hide Inv, Grows, RunActions, ApplyIfPending;
    TableOf(c, m);
    if m.tape == [] {
      ApplyGrows(c, m);
    } else {
      WindKeepsInv(c, m);
      var acts := m.tape[0].actions;
      ActionsKeepInv(c, Wind(m), acts);
      ActionsGrow(c, Wind(m), acts);
      var run := RunActions(c, Wind(m), acts);
      GrowsAlike(m, Wind(m), run, run);
      ApplyGrows(c, run);
      GrowsAlong(m, run, ApplyIfPending(c, run));
    }
  }

  lemma GrowsByEventCall(m: Machine, s: State)
    ensures Grows(m, Record(m, Called(s, OnEvent)))
  {
  }

  lemma {:induction false} EventWalkGrows(c: Chart, m: Machine, gen: nat, s: Option<State>)
    requires WellFormed(c) && Inv(c, m) && m.generation == gen
    requires s.Some? ==> s.value in Path(m.current)
    ensures |m.entered| == SM_MAX_DEPTH && Grows(m, EventWalk(c, m, gen, s))
    decreases |m.tape|, 1, s
  {
    hide Inv, Grows, Invoke;
    TableOf(c, m);
    if s.None? {
      GrowsStill(m, m);
    } else {
      if s.value.parent.Some? {
        ParentInPath(m.current, s.value);
      }
      if OnEvent !in s.value.handlers {
        EventWalkGrows(c, m, gen, s.value.parent);
      } else {
        var called := Record(m, Called(s.value, OnEvent));
        var done := Invoke(c, called);
        GrowsByEventCall(m, s.value);
        CallKeepsInv(c, m, s.value, OnEvent);
        InvokeKeepsInv(c, called);
        InvokeGrows(c, called);
        GrowsAlong(m, called, done);
        if done.generation == gen && !NextBehaviour(m).handled {
          EventWalkGrows(c, done, gen, s.value.parent);
          GrowsAlong(m, done, EventWalk(c, done, gen, s.value.parent));
        }
      }
    }
  }

  lemma {:induction false} EventGrows(c: Chart, m: Machine, at: int)
    requires WellFormed(c) && Inv(c, m)
    ensures |m.entered| == SM_MAX_DEPTH && Grows(m, SendEvent(c, m, at))
    decreases |m.tape|, 1
  {
    hide Inv, Grows, EventWalk;
    TableOf(c, m);
    var stamped := m.(now := at);
    StampKeepsInv(c, m, at);
    LeafInPath(m.current);
    EventWalkGrows(c, stamped, m.generation, Some(m.current));
    GrowsAlike(m, stamped, SendEvent(c, m, at), SendEvent(c, m, at));
  }

  lemma LeafInPath(s: State)
    ensures s in Path(s)
  {
    assert Path(s)[|Path(s)| - 1] == s;
  }

  // ---------------------------------------------------------------- frames and ticks

  lemma {:induction false} CallsUnaffected(a: seq<Entry>, b: seq<Entry>, callback: Callback)
    requires a <= b && forall i :: |a| <= i < |b| ==> !IsCall(b[i], callback)
    ensures Calls(b, callback) == Calls(a, callback)
    decreases |b|
  {
    if |a| == |b| {
      assert a == b;
    } else {
      var shorter := b[..|b| - 1];
      assert a <= shorter;
      CallsUnaffected(a, shorter, callback);
      assert !IsCall(b[|b| - 1], callback);
    }
  }

  /** One state asked: its callback is in the history, and whether a transition came of it. */
  lemma OneAsked(c: Chart, m: Machine, s: State, callback: Callback)
    requires WellFormed(c) && Inv(c, m) && s in Path(m.current) && callback != OnEvent
    ensures |m.entered| == SM_MAX_DEPTH == |Record(m, Called(s, callback)).entered|
    ensures var done := Invoke(c, Record(m, Called(s, callback)));
      && Inv(c, done) && done.pending.None? && m.generation <= done.generation
      && (done.generation == m.generation ==> done.current == m.current)
      && m.log <= done.log && Calls(done.log, callback) == Calls(m.log, callback) + [s]
      && (m.generation < done.generation <==> Moved(done.log, |m.log|))
      && (forall i :: |m.log| < i < |done.log| ==> IsMove(done.log[i]) || IsCall(done.log[i], OnEvent))
      && |m.log| < |done.log| && done.log[|m.log|] == Called(s, callback)
  {
    hide Inv, Invoke, Calls, Path;
    TableOf(c, m);
    var called := Record(m, Called(s, callback));
    CallKeepsInv(c, m, s, callback);
    InvokeKeepsInv(c, called);
    InvokeGrows(c, called);
    CallsRecord(m, Called(s, callback), callback);
    var done := Invoke(c, called);
    CallsUnaffected(called.log, done.log, callback);
    assert done.log[|m.log|] == called.log[|m.log|];
    if Moved(done.log, |m.log|) {
      var i :| |m.log| <= i < |done.log| && IsMove(done.log[i]);
      assert i != |m.log|;
      assert Moved(done.log, |called.log|);
    }
  }

  lemma AskedNobody(log: seq<Entry>, callback: Callback)
    ensures AskedInTurn(log, log, callback, [], 0)
  {
  }

  lemma AskedLast(before: seq<Entry>, after: seq<Entry>, callback: Callback, s: State, rest: seq<State>)
    requires before <= after && Calls(after, callback) == Calls(before, callback) + [s]
    requires forall i :: |before| < i < |after| ==> !IsCall(after[i], callback)
    requires Moved(after, |before|)
    ensures AskedInTurn(before, after, callback, [s] + rest, 1)
  {
    hide Calls;
    assert ([s] + rest)[..1] == [s];
  }

  lemma MovedLater(a: seq<Entry>, b: seq<Entry>, c: seq<Entry>, callback: Callback)
    requires a <= b <= c && !Moved(b, |a|) && MoveIsLast(c, |b|, callback)
    ensures MoveIsLast(c, |a|, callback)
    ensures Moved(c, |b|) ==> Moved(c, |a|)
  {
    hide IsMove, IsCall;
    assert forall i :: |a| <= i < |b| ==> c[i] == b[i];
  }

  lemma AskedMore(a: seq<Entry>, b: seq<Entry>, c: seq<Entry>, callback: Callback, s: State, rest: seq<State>, k: nat)
    requires a <= b && Calls(b, callback) == Calls(a, callback) + [s] && !Moved(b, |a|)
    requires AskedInTurn(b, c, callback, rest, k)
    ensures AskedInTurn(a, c, callback, [s] + rest, k + 1)
  {
    hide Calls, Moved, MoveIsLast;
    MovedLater(a, b, c, callback);
    OneMore(Calls(a, callback), s, rest, k);
  }

  lemma OneMore(called: seq<State>, s: State, rest: seq<State>, k: nat)
    requires k <= |rest|
    ensures called + [s] + rest[..k] == called + ([s] + rest)[..k + 1]
  {
    assert ([s] + rest)[..k + 1] == [s] + rest[..k];
  }

  /** Received frames are offered from a state outwards, to every state that takes them, until a
      transition happens. */
  lemma {:induction false} RxAsksOutwards(c: Chart, m: Machine, s: Option<State>) returns (k: nat)
    requires WellFormed(c) && Inv(c, m) && (s.Some? ==> s.value in Path(m.current))
    ensures |m.entered| == SM_MAX_DEPTH
    ensures AskedInTurn(m.log, RxWalk(c, m, m.generation, s).log, OnRx, Outwards(s, OnRx), k)
    decreases s
  {
    hide *;
    TableOf(c, m);
    RxWalkIs(c, m, m.generation, s);
    if s.None? {
      k := 0;
      OutwardsIs(s, OnRx);
      AskedNobody(m.log, OnRx);
    } else {
      OutwardsIs(s, OnRx);
      if s.value.parent.Some? {
        ParentInPath(m.current, s.value);
      }
      if OnRx !in s.value.handlers {
        k := RxAsksOutwards(c, m, s.value.parent);
      } else {
        OneAsked(c, m, s.value, OnRx);
        var done := Invoke(c, Record(m, Called(s.value, OnRx)));
        if done.generation != m.generation {
          k := 1;
          NoCallsAfter(m.log, done.log, OnRx);
          AskedLast(m.log, done.log, OnRx, s.value, Outwards(s.value.parent, OnRx));
        } else {
          var more := RxAsksOutwards(c, done, s.value.parent);
          k := more + 1;
          AskedMore(m.log, done.log, RxWalk(c, m, m.generation, s).log, OnRx, s.value,
                    Outwards(s.value.parent, OnRx), more);
        }
      }
    }
  }

  lemma NoCallsAfter(a: seq<Entry>, b: seq<Entry>, callback: Callback)
    requires callback != OnEvent
    requires forall i :: |a| < i < |b| ==> IsMove(b[i]) || IsCall(b[i], OnEvent)
    ensures forall i :: |a| < i < |b| ==> !IsCall(b[i], callback)
  {
    forall i | |a| < i < |b|
      ensures !IsCall(b[i], callback)
    {
      assert IsMove(b[i]) || IsCall(b[i], OnEvent);
    }
  }

  lemma RxWalkIs(c: Chart, m: Machine, gen: nat, s: Option<State>)
    requires |m.entered| == SM_MAX_DEPTH
    ensures RxWalk(c, m, gen, s)
         == if s.None? then m
            else if OnRx !in s.value.handlers then RxWalk(c, m, gen, s.value.parent)
            else
              var done := Invoke(c, Record(m, Called(s.value, OnRx)));
              if done.generation != gen then done else RxWalk(c, done, gen, s.value.parent)
  {
    hide Invoke;
  }

  /** What the history shows of a received frame: the global callback comes first and may already
      change the state; then the states active by now are offered the frame, innermost first and
      each once, until a transition happens, and only a transition cuts this short. */
  lemma RxOrder(c: Chart, m: Machine, at: int, hook: bool) returns (k: nat)
    requires WellFormed(c) && Inv(c, m) && m.pending.None?
    ensures |m.entered| == SM_MAX_DEPTH
    ensures var ready := RunHook(c, m.(now := at), hook);
      && Calls(ready.log, OnRx) == Calls(m.log, OnRx) && (!hook ==> ready == m.(now := at))
      && AskedInTurn(ready.log, Perform(c, m, Dispatch.Rx(at, hook)).log, OnRx, LeafToRoot(ready.current, OnRx), k)
  {
    hide *;
    TableOf(c, m);
    HookRuns(c, m, at, hook, OnRx);
    var ready := RunHook(c, m.(now := at), hook);
    LeafInPath(ready.current);
    k := RxAsksOutwards(c, ready, Some(ready.current));
    RxIs(c, m, at, hook);
  }

  lemma RxIs(c: Chart, m: Machine, at: int, hook: bool)
    requires |m.entered| == SM_MAX_DEPTH
    ensures var ready := RunHook(c, m.(now := at), hook);
      && Perform(c, m, Dispatch.Rx(at, hook)) == RxWalk(c, ready, ready.generation, Some(ready.current))
      && Outwards(Some(ready.current), OnRx) == LeafToRoot(ready.current, OnRx)
  {
    hide RunHook, RxWalk, LeafToRoot;
  }

  lemma HookRuns(c: Chart, m: Machine, at: int, hook: bool, callback: Callback)
    requires WellFormed(c) && Inv(c, m) && m.pending.None? && callback != OnEvent
    ensures |m.entered| == SM_MAX_DEPTH
    ensures var ready := RunHook(c, m.(now := at), hook);
      && Inv(c, ready) && ready.pending.None? && Calls(ready.log, callback) == Calls(m.log, callback)
      && (!hook ==> ready == m.(now := at))
  {
    hide Inv, Invoke, Calls;
    TableOf(c, m);
    var stamped := m.(now := at);
    StampKeepsInv(c, m, at);
    if hook {
      InvokeKeepsInv(c, stamped);
      InvokeGrows(c, stamped);
      var ready := Invoke(c, stamped);
      forall i | |m.log| <= i < |ready.log|
        ensures !IsCall(ready.log[i], callback)
      {
        assert IsMove(ready.log[i]) || IsCall(ready.log[i], OnEvent);
      }
      CallsUnaffected(m.log, ready.log, callback);
    }
  }

  /** Ticks go to the states of a path in order until a transition happens; one that none
      interrupts is completed. */
  lemma {:induction false} TickAsksInwards(c: Chart, m: Machine, path: seq<State>) returns (k: nat)
    requires WellFormed(c) && Inv(c, m) && (forall s :: s in path ==> s in Path(m.current))
    ensures |m.entered| == SM_MAX_DEPTH
    ensures var r := TickWalk(c, m, m.generation, path);
      && AskedInTurn(m.log, r.log, OnTick, With(path, OnTick), k) && Completes(m.log, r.log)
    decreases |path|
  {
    hide *;
    TableOf(c, m);
    TickWalkIs(c, m, m.generation, path);
    WithIs(path, OnTick);
    var r := TickWalk(c, m, m.generation, path);
    if path == [] {
      k := 0;
      CompletedTick(m.log, r.log);
    } else if OnTick !in path[0].handlers {
      k := TickAsksInwards(c, m, path[1..]);
    } else {
      OneAsked(c, m, path[0], OnTick);
      var done := Invoke(c, Record(m, Called(path[0], OnTick)));
      if done.generation != m.generation {
        k := 1;
        NoCallsAfter(m.log, done.log, OnTick);
        AskedLast(m.log, done.log, OnTick, path[0], With(path[1..], OnTick));
        Interrupted(m.log, done.log, path[0]);
      } else {
        var more := TickAsksInwards(c, done, path[1..]);
        k := more + 1;
        AskedMore(m.log, done.log, r.log, OnTick, path[0], With(path[1..], OnTick), more);
        CompletesLater(m.log, done.log, r.log);
      }
    }
  }

  /** A tick is completed, and that last of all, exactly when no transition interrupts it. */
  ghost predicate Completes(before: seq<Entry>, after: seq<Entry>) {
    before < after && (after[|after| - 1] == Ticked <==> !Moved(after, |before|))
  }

  lemma CompletedTick(before: seq<Entry>, after: seq<Entry>)
    requires after == before + [Ticked]
    ensures AskedInTurn(before, after, OnTick, [], 0) && Completes(before, after)
  {
    assert after[..|after| - 1] == before;
  }

  lemma Interrupted(before: seq<Entry>, after: seq<Entry>, s: State)
    requires before <= after && |before| < |after| && after[|before|] == Called(s, OnTick) && Moved(after, |before|)
    requires forall i :: |before| < i < |after| ==> IsMove(after[i]) || IsCall(after[i], OnEvent)
    ensures Completes(before, after)
  {
    var last := after[|after| - 1];
    if |before| < |after| - 1 {
      assert IsMove(last) || IsCall(last, OnEvent);
    }
  }

  lemma CompletesLater(a: seq<Entry>, b: seq<Entry>, c: seq<Entry>)
    requires a <= b && !Moved(b, |a|) && Completes(b, c)
    ensures Completes(a, c)
  {
    assert forall i :: |a| <= i < |b| ==> c[i] == b[i];
  }

  lemma TickWalkIs(c: Chart, m: Machine, gen: nat, path: seq<State>)
    requires |m.entered| == SM_MAX_DEPTH
    ensures path == [] ==> TickWalk(c, m, gen, path).log == m.log + [Ticked]
    ensures path != [] ==>
              var done := Invoke(c, Record(m, Called(path[0], OnTick)));
              TickWalk(c, m, gen, path)
              == if OnTick !in path[0].handlers then TickWalk(c, m, gen, path[1..])
                 else if done.generation != gen then done
                 else TickWalk(c, done, gen, path[1..])
  {
    hide Invoke;
  }

  lemma WithIs(states: seq<State>, callback: Callback)
    ensures With(states, callback)
         == if states == [] then []
            else if callback in states[0].handlers then [states[0]] + With(states[1..], callback)
            else With(states[1..], callback)
  {
  }

  /** What the history shows of a tick: after the global callback, the states active by now are
      called from the root inwards, each once, until a transition happens; the tick is completed
      exactly when none does. */
  lemma TickOrder(c: Chart, m: Machine, at: int, hook: bool) returns (k: nat)
    requires WellFormed(c) && Inv(c, m) && m.pending.None?
    ensures |m.entered| == SM_MAX_DEPTH
    ensures var ready := RunHook(c, m.(now := at), hook);
      var r := Perform(c, m, Dispatch.Tick(at, hook));
      && Calls(ready.log, OnTick) == Calls(m.log, OnTick) && (!hook ==> ready == m.(now := at))
      && AskedInTurn(ready.log, r.log, OnTick, RootToLeaf(ready.current, OnTick), k)
      && Completes(ready.log, r.log)
  {
    hide *;
    TableOf(c, m);
    HookRuns(c, m, at, hook, OnTick);
    var ready := RunHook(c, m.(now := at), hook);
    TickIs(c, m, at, hook);
    k := TickAsksInwards(c, ready, Path(ready.current));
  }

  lemma TickIs(c: Chart, m: Machine, at: int, hook: bool)
    requires |m.entered| == SM_MAX_DEPTH && WellFormed(c) && Inv(c, RunHook(c, m.(now := at), hook))
    ensures var ready := RunHook(c, m.(now := at), hook);
      && Perform(c, m, Dispatch.Tick(at, hook)) == TickWalk(c, ready, ready.generation, Path(ready.current))
      && With(Path(ready.current), OnTick) == RootToLeaf(ready.current, OnTick)
  {
    hide RunHook, TickWalk, Consistent;
  }

  // ---------------------------------------------------------------- events

  /** Ask the states of a list in turn until one claims the event or a transition happens. */
  function AskUntil(c: Chart, m: Machine, states: seq<State>): Machine
    requires |m.entered| == SM_MAX_DEPTH
    decreases |states|
  {
    if states == [] then m else
      var done := Invoke(c, Record(m, Called(states[0], OnEvent)));
      if done.generation != m.generation || Answers(m, 0) then done else AskUntil(c, done, states[1..])
  }

  lemma {:induction false} WalkAsksList(c: Chart, m: Machine, s: Option<State>)
    requires |m.entered| == SM_MAX_DEPTH
    ensures EventWalk(c, m, m.generation, s) == AskUntil(c, m, Outwards(s, OnEvent))
    decreases s
  {
    hide Invoke, Outwards;
    OutwardsIs(s, OnEvent);
    if s.Some? {
      if OnEvent !in s.value.handlers {
        WalkAsksList(c, m, s.value.parent);
      } else {
        var done := Invoke(c, Record(m, Called(s.value, OnEvent)));
        assert Outwards(s, OnEvent)[1..] == Outwards(s.value.parent, OnEvent);
        if done.generation == m.generation {
          WalkAsksList(c, done, s.value.parent);
        }
      }
    }
  }

  /** An event bubbles from the active state to the root through exactly the states that take
      events, up to the first that claims it or changes the state, whatever the handlers send in
      between. */
  lemma EventOrder(c: Chart, m: Machine, at: int)
    requires |m.entered| == SM_MAX_DEPTH
    ensures SendEvent(c, m, at) == AskUntil(c, m.(now := at), LeafToRoot(m.current, OnEvent))
  {
    hide AskUntil, LeafToRoot, EventWalk;
    WalkAsksList(c, m.(now := at), Some(m.current));
  }

  ghost predicate NoSends(tape: seq<Behaviour>) {
    forall b :: b in tape ==> OnlyRequests(b.actions)
  }

  ghost predicate OnlyRequests(acts: seq<Action>) {
    forall a :: a in acts ==> a.Request?
  }

  lemma {:induction false} PlainActions(c: Chart, m: Machine, acts: seq<Action>)
    requires |m.entered| == SM_MAX_DEPTH && OnlyRequests(acts)
    ensures var r := RunActions(c, m, acts);
      && r == (if acts == [] then m
               else RequestTransition(m, acts[|acts| - 1].target, acts[|acts| - 1].arg))
    decreases |acts|
  {
    if acts != [] {
      assert acts[0] in acts;
      PlainActions(c, RequestTransition(m, acts[0].target, acts[0].arg), acts[1..]);
    }
  }

  lemma PlainInvoke(c: Chart, m: Machine)
    requires WellFormed(c) && Inv(c, m) && NoSends(m.tape)
    ensures |m.entered| == SM_MAX_DEPTH && AddsMoves(m, Invoke(c, m))
    ensures Invoke(c, m).generation == m.generation ==> Invoke(c, m).tape == Wind(m).tape
  {
    hide Inv, AddsMoves, ApplyIfPending, RunActions, OnlyRequests;
    TableOf(c, m);
    if m.tape == [] {
      ApplyGrows(c, m);
      ApplyKeepsInv(c, m);
    } else {
      WindKeepsInv(c, m);
      var acts := m.tape[0].actions;
      assert m.tape[0] in m.tape;
      PlainActions(c, Wind(m), acts);
      ActionsKeepInv(c, Wind(m), acts);
      var run := RunActions(c, Wind(m), acts);
      ApplyGrows(c, run);
      ApplyKeepsInv(c, run);
      MovesAlike(m, run, ApplyIfPending(c, run), ApplyIfPending(c, run));
    }
  }

  lemma {:induction false} EventAsksOutwards(c: Chart, m: Machine, s: Option<State>) returns (k: nat)
    requires WellFormed(c) && Inv(c, m) && NoSends(m.tape) && (s.Some? ==> s.value in Path(m.current))
    ensures |m.entered| == SM_MAX_DEPTH
    ensures AskedUntilClaimed(m, EventWalk(c, m, m.generation, s).log, Outwards(s, OnEvent), k)
    decreases s
  {
    hide *;
    TableOf(c, m);
    EventWalkIs(c, m, m.generation, s);
    OutwardsIs(s, OnEvent);
    if s.None? {
      k := 0;
      NobodyAsked(m);
    } else {
      if s.value.parent.Some? {
        ParentInPath(m.current, s.value);
      }
      if OnEvent !in s.value.handlers {
        k := EventAsksOutwards(c, m, s.value.parent);
      } else {
        OneOffered(c, m, s.value);
        var done := Invoke(c, Record(m, Called(s.value, OnEvent)));
        if done.generation != m.generation || Answers(m, 0) {
          k := 1;
          LastOffered(m, done.log, s.value, Outwards(s.value.parent, OnEvent));
        } else {
          var more := EventAsksOutwards(c, done, s.value.parent);
          k := more + 1;
          MoreOffered(m, done, EventWalk(c, m, m.generation, s).log, s.value, Outwards(s.value.parent, OnEvent), more);
        }
      }
    }
  }

  /** After `m`, an event is offered to the first `k` states of `order`; the last of them claims it
      or changes the state unless all were asked, and none before does. */
  ghost predicate AskedUntilClaimed(m: Machine, after: seq<Entry>, order: seq<State>, k: nat) {
    && m.log <= after
    && k <= |order|
    && Calls(after, OnEvent) == Calls(m.log, OnEvent) + order[..k]
    && MoveIsLast(after, |m.log|, OnEvent)
    && Passes(m, 0, if k == 0 then 0 else k - 1)
    && (k < |order| ==> Moved(after, |m.log|) || (0 < k && Answers(m, k - 1)))
  }

  lemma EventWalkIs(c: Chart, m: Machine, gen: nat, s: Option<State>)
    requires |m.entered| == SM_MAX_DEPTH
    ensures EventWalk(c, m, gen, s)
         == if s.None? then m
            else if OnEvent !in s.value.handlers then EventWalk(c, m, gen, s.value.parent)
            else
              var done := Invoke(c, Record(m, Called(s.value, OnEvent)));
              if done.generation != gen || Answers(m, 0) then done else EventWalk(c, done, gen, s.value.parent)
  {
    hide Invoke;
  }

  lemma NobodyAsked(m: Machine)
    ensures AskedUntilClaimed(m, m.log, [], 0)
  {
  }

  lemma OneOffered(c: Chart, m: Machine, s: State)
    requires WellFormed(c) && Inv(c, m) && NoSends(m.tape) && s in Path(m.current)
    ensures |m.entered| == SM_MAX_DEPTH == |Record(m, Called(s, OnEvent)).entered|
    ensures var done := Invoke(c, Record(m, Called(s, OnEvent)));
      && Inv(c, done) && (done.generation == m.generation ==> done.current == m.current)
      && m.log <= done.log && Calls(done.log, OnEvent) == Calls(m.log, OnEvent) + [s]
      && (done.generation != m.generation <==> Moved(done.log, |m.log|))
      && (forall i :: |m.log| < i < |done.log| ==> !IsCall(done.log[i], OnEvent))
      && (done.generation == m.generation ==> done.tape == Wind(m).tape && NoSends(done.tape))
  {
    hide Inv, Invoke, Calls, Path;
    TableOf(c, m);
    var called := Record(m, Called(s, OnEvent));
    CallKeepsInv(c, m, s, OnEvent);
    InvokeKeepsInv(c, called);
    InvokeGrows(c, called);
    PlainInvoke(c, called);
    CallsRecord(m, Called(s, OnEvent), OnEvent);
    var done := Invoke(c, called);
    forall i | |m.log| < i < |done.log|
      ensures !IsCall(done.log[i], OnEvent)
    {
      assert IsMove(done.log[i]);
    }
    CallsUnaffected(called.log, done.log, OnEvent);
    assert done.log[|m.log|] == called.log[|m.log|];
    if Moved(done.log, |m.log|) {
      var i :| |m.log| <= i < |done.log| && IsMove(done.log[i]);
      assert i != |m.log|;
      assert Moved(done.log, |called.log|);
    }
  }

  lemma LastOffered(m: Machine, after: seq<Entry>, s: State, rest: seq<State>)
    requires m.log <= after && Calls(after, OnEvent) == Calls(m.log, OnEvent) + [s]
    requires forall i :: |m.log| < i < |after| ==> !IsCall(after[i], OnEvent)
    requires Moved(after, |m.log|) || Answers(m, 0)
    ensures AskedUntilClaimed(m, after, [s] + rest, 1)
  {
    hide Calls;
    assert ([s] + rest)[..1] == [s];
  }

  lemma MoreOffered(m: Machine, r: Machine, after: seq<Entry>, s: State, rest: seq<State>, k: nat)
    requires m.log <= r.log && Calls(r.log, OnEvent) == Calls(m.log, OnEvent) + [s] && !Moved(r.log, |m.log|)
    requires r.tape == Wind(m).tape && !Answers(m, 0)
    requires AskedUntilClaimed(r, after, rest, k)
    ensures AskedUntilClaimed(m, after, [s] + rest, k + 1)
  {
    hide Calls, Moved, MoveIsLast, Answers, Passes;
    MovedLater(m.log, r.log, after, OnEvent);
    OneMore(Calls(m.log, OnEvent), s, rest, k);
    AnswersShift(m, r, 0, if k == 0 then 0 else k - 1);
    PassesOneMore(m, k);
  }

  lemma PassesOneMore(m: Machine, k: nat)
    requires !Answers(m, 0) && (0 < k ==> Passes(m, 1, k))
    ensures Passes(m, 0, k)
  {
  }

  /** What the history shows of an event whose handlers send no further ones. */
  lemma EventHistory(c: Chart, m: Machine, at: int) returns (k: nat)
    requires WellFormed(c) && Inv(c, m) && NoSends(m.tape)
    ensures |m.entered| == SM_MAX_DEPTH
    ensures AskedUntilClaimed(m, SendEvent(c, m, at).log, LeafToRoot(m.current, OnEvent), k)
  {
    hide Inv, EventWalk, LeafToRoot, AskedUntilClaimed;
    TableOf(c, m);
    StampKeepsInv(c, m, at);
    LeafInPath(m.current);
    var stamped := m.(now := at);
    k := EventAsksOutwards(c, stamped, Some(m.current));
    SameAsked(m, stamped, SendEvent(c, m, at).log, LeafToRoot(m.current, OnEvent), k);
  }

  lemma SameAsked(m: Machine, r: Machine, after: seq<Entry>, order: seq<State>, k: nat)
    requires r.log == m.log && r.tape == m.tape && AskedUntilClaimed(r, after, order, k)
    ensures AskedUntilClaimed(m, after, order, k)
  {
    AnswerOf(m, r);
  }

  // ---------------------------------------------------------------- requests

  /** Among several requests of one callback the last one stands, in every kind of callback. */
  lemma LatestWins(c: Chart, m: Machine, acts: seq<Action>, i: nat)
    requires |m.entered| == SM_MAX_DEPTH && i < |acts| && acts[i].Request?
    requires forall j :: i < j < |acts| ==> !acts[j].Request?
    ensures RunRequests(m, acts) == m.(pending := Some(acts[i].target), pendingArg := acts[i].arg)
    ensures OnlyRequests(acts) ==> i == |acts| - 1 && RunActions(c, m, acts) == RunRequests(m, acts)
  {
    LatestIs(acts, i);
    if OnlyRequests(acts) {
      PlainActions(c, m, acts);
    }
  }

  lemma {:induction false} LatestIs(acts: seq<Action>, i: nat)
    requires i < |acts| && acts[i].Request?
    requires forall j :: i < j < |acts| ==> !acts[j].Request?
    ensures Latest(acts) == Some(acts[i])
    decreases |acts|
  {
    if i < |acts| - 1 {
      LatestIs(acts[..|acts| - 1], i);
    }
  }

  /** What a callback does, it does in order, and an event it sends is dispatched before it goes on. */
  lemma {:induction false} ActionsInOrder(c: Chart, m: Machine, acts: seq<Action>, a: Action)
    requires |m.entered| == SM_MAX_DEPTH
    ensures var before := RunActions(c, m, acts);
      RunActions(c, m, acts + [a])
      == if a.Send? then SendEvent(c, before, a.at) else before.(pending := Some(a.target), pendingArg := a.arg)
    decreases |m.tape|, |acts|
  {
    hide SendEvent;
    if acts == [] {
      assert ([] + [a])[1..] == [];
    } else {
      assert (acts + [a])[1..] == acts[1..] + [a];
      var next := match acts[0]
                  case Request(target, arg) => RequestTransition(m, target, arg)
                  case Send(at) => SendEvent(c, m, at);
      ActionsInOrder(c, next, acts[1..], a);
    }
  }

  /** Handlers that request nothing leave a request in hand alone. */
  ghost predicate Undisturbed(m: Machine, r: Machine) {
    && |r.entered| == |m.entered| && PureFilters(r.tape)
    && r.pending == m.pending && r.pendingArg == m.pendingArg && r.entryArg == m.entryArg
  }

  lemma PureEnter(m: Machine, s: State, depth: nat)
    requires depth < |m.entered| && PureFilters(m.tape)
    ensures Undisturbed(m, EnterState(m, s, depth))
  {
    assert [] == Behaviour([], false).actions;
  }

  lemma PureExit(m: Machine, s: State)
    requires PureFilters(m.tape)
    ensures Undisturbed(m, ExitState(m, s))
  {
    assert [] == Behaviour([], false).actions;
  }

  lemma {:induction false} PureExits(m: Machine, path: seq<State>, keep: nat)
    requires PureFilters(m.tape)
    ensures Undisturbed(m, ExitDownTo(m, path, keep))
    decreases |path|
  {
    hide PureFilters, ExitState;
    if keep < |path| {
      PureExit(m, path[|path| - 1]);
      PureExits(ExitState(m, path[|path| - 1]), path[..|path| - 1], keep);
    }
  }

  lemma {:induction false} PureEntries(m: Machine, path: seq<State>, i: nat)
    requires i <= |path| <= |m.entered| && PureFilters(m.tape)
    ensures Undisturbed(m, EnterFrom(m, path, i))
    decreases |path| - i
  {
    hide PureFilters, EnterState;
    if i < |path| {
      PureEnter(m, path[i], i);
      PureEntries(EnterState(m, path[i], i), path, i + 1);
    }
  }

  lemma {:induction false} PureDescent(c: Chart, m: Machine, leaf: State, depth: nat)
    requires depth <= SM_MAX_DEPTH == |m.entered| && PureFilters(m.tape)
    ensures Undisturbed(m, Descend(c, m, leaf, depth).0)
    decreases SM_MAX_DEPTH - depth
  {
    hide PureFilters, EnterState;
    if leaf in c.initial && depth < SM_MAX_DEPTH {
      PureEnter(m, c.initial[leaf], depth);
      PureDescent(c, EnterState(m, c.initial[leaf], depth), c.initial[leaf], depth + 1);
    }
  }

  lemma PureTransition(c: Chart, m: Machine, target: State)
    requires |m.entered| == SM_MAX_DEPTH && PureFilters(m.tape)
    ensures Undisturbed(m, DoTransition(c, m, target))
  {
    hide PureFilters, Common, Path, Descend, EnterFrom, ExitDownTo;
    var src, dst := BoundedPath(m.current), BoundedPath(target);
    var keep := Keep(src, dst);
    PureExits(m, src, keep);
    var outside := ExitDownTo(m, src, keep);
    PureEntries(outside, dst, keep);
    PureDescent(c, EnterFrom(outside, dst, keep), target, |dst|);
  }

  /** A request is carried out: the machine ends in the default leaf of the target, whose entry
      finds the argument of the request, unless handlers on the way ask for more. */
  lemma RequestIsTaken(c: Chart, m: Machine, target: State, arg: int)
    requires WellFormed(c) && target in c.states && m.current in c.states && |m.entered| == SM_MAX_DEPTH
    requires PureFilters(m.tape)
    ensures var r := ApplyIfPending(c, RequestTransition(m, target, arg));
      && r.current == DefaultLeaf(c, target, |Path(target)|) && r.entryArg == arg
      && r.pending.None? && r.generation == m.generation + 1
  {
    hide *;
    var asked := RequestTransition(m, target, arg);
    TakenIs(c, m, target, arg);
    var taken := asked.(pending := None, entryArg := arg, pendingArg := 0);
    PureTransition(c, taken, target);
    TransitionOrder(c, taken, target);
    UndisturbedIs(taken, DoTransition(c, taken, target));
    var r := DoTransition(c, taken, target);
    ChainIs(c, r, 7);
  }

  lemma TakenIs(c: Chart, m: Machine, target: State, arg: int)
    requires |m.entered| == SM_MAX_DEPTH
    ensures var asked := RequestTransition(m, target, arg);
      var taken := asked.(pending := None, entryArg := arg, pendingArg := 0);
      && |asked.entered| == SM_MAX_DEPTH == |taken.entered| && taken.tape == m.tape
      && taken.current == m.current && taken.generation == m.generation
      && ApplyIfPending(c, asked) == ApplyChain(c, DoTransition(c, taken, target), 7).(pending := None)
  {
    hide DoTransition;
    ChainIs(c, RequestTransition(m, target, arg), 8);
  }

  lemma UndisturbedIs(m: Machine, r: Machine)
    requires Undisturbed(m, r)
    ensures r.pending == m.pending && r.entryArg == m.entryArg && |r.entered| == |m.entered|
  {
  }
}
