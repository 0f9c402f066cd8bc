/** The expression evaluator of main/expression_parser.c: one left-to-right pass over the tokens
    with an operand stack and an operator stack, both of fixed capacity, proved equal to
    evaluating the syntax tree. The arithmetic itself is a parameter. */
module Expression {
  import opened Wrappers

  const STACK_MAX := 100

  datatype Operator = BitOr | BitXor | BitAnd | ShiftLeft | ShiftRight | Add | Sub | Mul | Div

  datatype Token<V> = Number(value: V) | Op(op: Operator) | LParen | RParen

  /** What the operator stack holds: operators and opening parentheses. */
  datatype Pending = Oper(op: Operator) | Open

  /** The arithmetic the evaluator is run with: the zero an empty stack yields, the test that
      guards a division, and the nine operations. */
  datatype Arithmetic<!V> = Arithmetic(zero: V, isZero: V -> bool, compute: (Operator, V, V) -> V)

  function Precedence(op: Operator): (p: nat)
    ensures 1 <= p <= 5
  {
    match op
    case BitOr => 1
    case BitXor => 1
    case BitAnd => 2
    case ShiftLeft => 3
    case ShiftRight => 3
    case Add => 4
    case Sub => 4
    case Mul => 5
    case Div => 5
  }

  /** The precedence of a stack entry: a parenthesis has none. */
  function PendingPrecedence(p: Pending): nat {
    match p
    case Oper(op) => Precedence(op)
    case Open => 0
  }

  function Apply<V>(ar: Arithmetic<V>, op: Operator, a: V, b: V): Option<V> {
    if op == Div && ar.isZero(b) then None else Some(ar.compute(op, a, b))
  }

  // ---------------------------------------------------------------- syntax trees

  datatype Expr<V> = Lit(v: V) | Paren(inner: Expr<V>) | Bin(op: Operator, left: Expr<V>, right: Expr<V>)

  /** The precedence of the outermost operator; atoms bind tightest. */
  function Level<V>(e: Expr<V>): (p: nat)
    ensures 1 <= p <= 6
  {
    match e
    case Bin(op, _, _) => Precedence(op)
    case _ => 6
  }

  /** Trees that mean what their printed form says under the usual rules: every operator is left
      associative, and a looser one below a tighter one needs parentheses. */
  predicate WellFormed<V>(e: Expr<V>) {
    match e
    case Lit(_) => true
    case Paren(x) => WellFormed(x)
    case Bin(op, l, r) =>
      WellFormed(l) && WellFormed(r) && Precedence(op) <= Level(l) && Precedence(op) < Level(r)
  }

  function Print<V>(e: Expr<V>): seq<Token<V>> {
    match e
    case Lit(v) => [Number(v)]
    case Paren(x) => [LParen] + Print(x) + [RParen]
    case Bin(op, l, r) => Print(l) + [Op(op)] + Print(r)
  }

  /** The value of a tree, or none when some division in it has a zero divisor. */
  function Eval<V>(ar: Arithmetic<V>, e: Expr<V>): Option<V> {
    match e
    case Lit(v) => Some(v)
    case Paren(x) => Eval(ar, x)
    case Bin(op, l, r) =>
      var a, b := Eval(ar, l), Eval(ar, r);
      if a.None? || b.None? then None else Apply(ar, op, a.value, b.value)
  }

  function Nesting<V>(e: Expr<V>): nat {
    match e
    case Lit(_) => 0
    case Paren(x) => 1 + Nesting(x)
    case Bin(_, l, r) => if Nesting(l) < Nesting(r) then Nesting(r) else Nesting(l)
  }

  function Max(a: nat, b: nat): nat {
    if a < b then b else a
  }

  /** The most entries reading the printed tree ever adds to the operator stack. */
  function OpsNeed<V>(e: Expr<V>): nat {
    match e
    case Lit(_) => 0
    case Paren(x) => 1 + OpsNeed(x)
    case Bin(_, l, r) => Max(OpsNeed(l), 1 + OpsNeed(r))
  }

  /** The same for the operand stack. */
  function ValsNeed<V>(e: Expr<V>): (n: nat)
    ensures 1 <= n
  {
    match e
    case Lit(_) => 1
    case Paren(x) => ValsNeed(x)
    case Bin(_, l, r) => Max(ValsNeed(l), 1 + ValsNeed(r))
  }

  /** Nesting alone bounds both stacks, because precedences strictly increase between
      parentheses: at most 6d+5 operators and 5(d+1)+1 operands for d levels. */
  lemma {:induction false} NeedFromNesting<V>(e: Expr<V>)
    requires WellFormed(e)
    ensures OpsNeed(e) <= 6 * Nesting(e) + 6 - Level(e)
    ensures ValsNeed(e) <= 5 * Nesting(e) + 7 - Level(e)
  {
    match e
    case Lit(_) =>
    case Paren(x) => NeedFromNesting(x);
    case Bin(_, l, r) =>
      NeedFromNesting(l);
      NeedFromNesting(r);
  }

  /** Operands never outgrow operators: beyond one parenthesis-free run they need no more room. */
  lemma {:induction false} ValsFromOps<V>(e: Expr<V>)
    requires WellFormed(e)
    ensures ValsNeed(e) <= 1 + OpsNeed(e)
    ensures ValsNeed(e) <= 7 - Level(e) || ValsNeed(e) <= OpsNeed(e)
  {
    match e
    case Lit(_) =>
    case Paren(x) => ValsFromOps(x);
    case Bin(_, l, r) =>
      ValsFromOps(l);
      ValsFromOps(r);
  }

  // ---------------------------------------------------------------- the two-stack machine

  /** Top of stack last. */
  datatype Stacks<V> = Stacks(vals: seq<V>, ops: seq<Pending>)

  /** A push onto a full stack is dropped. */
  function Push<T>(s: seq<T>, x: T): seq<T> {
    if |s| == STACK_MAX then s else s + [x]
  }

  /** What popping yields; an empty stack yields the default and stays empty. */
  function Top<T>(s: seq<T>, default: T): T {
    if s == [] then default else s[|s| - 1]
  }

  function Pop<T>(s: seq<T>): seq<T> {
    if s == [] then s else s[..|s| - 1]
  }

  /** Take one operator and two operands and push the result; none when there is no operand or
      the division is by zero. */
  function Reduce<V>(ar: Arithmetic<V>, st: Stacks<V>): Option<Stacks<V>>
    requires st.ops != [] && Top(st.ops, Open).Oper?
  {
    if st.vals == [] then None else
      var rest := Pop(st.vals);
      var r := Apply(ar, Top(st.ops, Open).op, Top(rest, ar.zero), Top(st.vals, ar.zero));
      if r.None? then None else Some(Stacks(Push(Pop(rest), r.value), Pop(st.ops)))
  }

  /** Reduce while the operator on top binds at least as tightly as `p`. */
  function ReduceWhile<V>(ar: Arithmetic<V>, p: nat, st: Stacks<V>): Option<Stacks<V>>
    requires p > 0
    decreases |st.ops|
  {
    if st.ops == [] || PendingPrecedence(Top(st.ops, Open)) < p then Some(st) else
      var next := Reduce(ar, st);
      if next.None? then None else ReduceWhile(ar, p, next.value)
  }

  function StepToken<V>(ar: Arithmetic<V>, t: Token<V>, st: Stacks<V>): Option<Stacks<V>> {
    match t
    case Number(v) => Some(st.(vals := Push(st.vals, v)))
    case LParen => Some(st.(ops := Push(st.ops, Open)))
    case RParen =>
      var done := ReduceWhile(ar, 1, st);
      if done.None? || done.value.ops == [] then None
      else Some(done.value.(ops := Pop(done.value.ops)))
    case Op(op) =>
      var done := ReduceWhile(ar, Precedence(op), st);
      if done.None? then None else Some(done.value.(ops := Push(done.value.ops, Oper(op))))
  }

  function RunTokens<V>(ar: Arithmetic<V>, ts: seq<Token<V>>, st: Stacks<V>): Option<Stacks<V>>
    decreases |ts|
  {
    if ts == [] then Some(st) else
      var next := StepToken(ar, ts[0], st);
      if next.None? then None else RunTokens(ar, ts[1..], next.value)
  }

  /** Reduce everything that is left; an unclosed parenthesis is popped like an operator that
      computes zero. */
  function Drain<V>(ar: Arithmetic<V>, st: Stacks<V>): Option<Stacks<V>>
    decreases |st.ops|
  {
    if st.ops == [] then Some(st)
    else if st.vals == [] then None
    else if Top(st.ops, Open).Oper? then
      var next := Reduce(ar, st);
      if next.None? then None else Drain(ar, next.value)
    else Drain(ar, Stacks(Push(Pop(Pop(st.vals)), ar.zero), Pop(st.ops)))
  }

  /** The verdict of the whole evaluation: the value, or none for a false return. */
  function Evaluate<V>(ar: Arithmetic<V>, ts: seq<Token<V>>): Option<V> {
    var st := RunTokens(ar, ts, Stacks([], []));
    if st.None? then None else
      var end := Drain(ar, st.value);
      if end.None? || |end.value.vals| != 1 then None else Some(end.value.vals[0])
  }

  // ---------------------------------------------------------------- what is pending after a tree

  /** Operands and operators that reading a printed tree leaves on the stacks: its right spine. */
  datatype Spine<V> = Spine(vals: seq<V>, ops: seq<Pending>)

  /** Left operands on the right spine are already evaluated; none if one of them cannot be, in
      which case reading the tree stops. */
  function SpineOf<V>(ar: Arithmetic<V>, e: Expr<V>): Option<Spine<V>> {
    match e
    case Lit(v) => Some(Spine([v], []))
    case Paren(x) => var v := Eval(ar, x); if v.None? then None else Some(Spine([v.value], []))
    case Bin(op, l, r) =>
      var a, s := Eval(ar, l), SpineOf(ar, r);
      if a.None? || s.None? then None
      else Some(Spine([a.value] + s.value.vals, [Oper(op)] + s.value.ops))
  }

  /** A spine has one operand more than operators, and its precedences strictly increase: this
      is what bounds both stacks. */
  lemma {:induction false} SpineShape<V>(ar: Arithmetic<V>, e: Expr<V>)
    requires WellFormed(e) && SpineOf(ar, e).Some?
    ensures var s := SpineOf(ar, e).value;
      && |s.vals| == |s.ops| + 1
      && |s.ops| <= OpsNeed(e) && |s.vals| <= ValsNeed(e)
      && forall i :: 0 <= i < |s.ops| ==> s.ops[i].Oper? && Level(e) <= PendingPrecedence(s.ops[i])
  {
    if e.Bin? {
      SpineShape(ar, e.right);
    }
  }

  /** Nothing below the spine is touched: the entry under it binds more loosely. */
  predicate Below(ops: seq<Pending>, p: nat) {
    ops == [] || PendingPrecedence(Top(ops, Open)) < p
  }

  function Pile<V>(st: Stacks<V>, s: Spine<V>): Stacks<V> {
    Stacks(st.vals + s.vals, st.ops + s.ops)
  }

  /** Room for everything reading `e` can push. */
  predicate Room<V>(st: Stacks<V>, e: Expr<V>) {
    && |st.ops| + OpsNeed(e) <= STACK_MAX
    && |st.vals| + ValsNeed(e) <= STACK_MAX
  }

  /** Reducing the spine of `e` yields the value of `e`, or fails when it has none. */
  lemma {:induction false} ReduceSpine<V>(ar: Arithmetic<V>, e: Expr<V>, st: Stacks<V>, p: nat)
    requires WellFormed(e) && SpineOf(ar, e).Some? && Room(st, e)
    requires 0 < p <= Level(e) && Below(st.ops, p)
    ensures ReduceWhile(ar, p, Pile(st, SpineOf(ar, e).value))
         == var v := Eval(ar, e); if v.None? then None else Some(Stacks(st.vals + [v.value], st.ops))
    decreases e, 1
  {
    SpineShape(ar, e);
    var s := SpineOf(ar, e).value;
    if !e.Bin? {
      assert st.ops + [] == st.ops;
    } else {
      ReduceSpineBin(ar, e, st, p);
    }
  }

  /** The inductive case: the right operand reduces first, then the operator itself. */
  lemma {:induction false} ReduceSpineBin<V>(ar: Arithmetic<V>, e: Expr<V>, st: Stacks<V>, p: nat)
    requires e.Bin? && WellFormed(e) && SpineOf(ar, e).Some? && Room(st, e)
    requires 0 < p <= Level(e) && Below(st.ops, p)
    ensures ReduceWhile(ar, p, Pile(st, SpineOf(ar, e).value))
         == var v := Eval(ar, e); if v.None? then None else Some(Stacks(st.vals + [v.value], st.ops))
    decreases e, 0
  {
    var a := Eval(ar, e.left).value;
    var s := SpineOf(ar, e.right).value;
    var mid := Stacks(st.vals + [a], st.ops + [Oper(e.op)]);
    assert Pile(st, SpineOf(ar, e).value) == Pile(mid, s);
    var q := Precedence(e.op) + 1;
    SpineShape(ar, e.right);
    ReduceSpine(ar, e.right, mid, q);
    ReduceInTwoStages(ar, p, q, Pile(mid, s));
    hide Increasing, Opens, OpsNeed, ValsNeed, Print, WellFormed;
    var v := Eval(ar, e.right);
    if v.Some? {
      var top := Stacks(mid.vals + [v.value], mid.ops);
      assert Pop(top.vals) == mid.vals && Pop(mid.vals) == st.vals && Pop(mid.ops) == st.ops;
      var r := Apply(ar, e.op, a, v.value);
      assert Reduce(ar, top) == if r.None? then None else Some(Stacks(st.vals + [r.value], st.ops));
    }
  }

  /** Reducing down to a looser precedence may stop at a tighter one on the way. */
  lemma {:induction false} ReduceInTwoStages<V>(ar: Arithmetic<V>, p: nat, q: nat, st: Stacks<V>)
    requires 0 < p <= q
    ensures ReduceWhile(ar, p, st)
         == var mid := ReduceWhile(ar, q, st); if mid.None? then None else ReduceWhile(ar, p, mid.value)
    decreases |st.ops|
  {
    if st.ops != [] && q <= PendingPrecedence(Top(st.ops, Open)) {
      var next := Reduce(ar, st);
      if next.Some? {
        ReduceInTwoStages(ar, p, q, next.value);
      }
    }
  }

  lemma {:induction false} RunAppend<V>(ar: Arithmetic<V>, a: seq<Token<V>>, b: seq<Token<V>>, st: Stacks<V>)
    ensures RunTokens(ar, a + b, st)
         == var mid := RunTokens(ar, a, st); if mid.None? then None else RunTokens(ar, b, mid.value)
    decreases |a|
  {
    if a == [] {
      assert a + b == b;
    } else {
      assert (a + b)[0] == a[0] && (a + b)[1..] == a[1..] + b;
      var next := StepToken(ar, a[0], st);
      if next.Some? {
        RunAppend(ar, a[1..], b, next.value);
      }
    }
  }

  lemma RunOne<V>(ar: Arithmetic<V>, t: Token<V>, st: Stacks<V>)
    ensures RunTokens(ar, [t], st) == StepToken(ar, t, st)
  {
    var next := StepToken(ar, t, st);
    assert [t][1..] == [];
    if next.Some? {
      assert RunTokens(ar, [], next.value) == next;
    }
  }

  /** Reading a printed tree over stacks whose top binds more loosely piles exactly its spine
      onto them, or stops because some division inside it is by zero. */
  lemma {:induction false} RunTree<V>(ar: Arithmetic<V>, e: Expr<V>, st: Stacks<V>)
    requires WellFormed(e) && Room(st, e) && Below(st.ops, Level(e))
    ensures RunTokens(ar, Print(e), st)
         == var s := SpineOf(ar, e); if s.None? then None else Some(Pile(st, s.value))
    ensures SpineOf(ar, e).None? ==> Eval(ar, e).None?
    decreases e, 1
  {
    match e
    case Lit(v) =>
      RunOne(ar, Number(v), st);
      assert st.ops + [] == st.ops;
    case Paren(_) => RunParen(ar, e, st);
    case Bin(_, _, _) => RunBin(ar, e, st);
  }

  lemma {:induction false} RunParen<V>(ar: Arithmetic<V>, e: Expr<V>, st: Stacks<V>)
    requires e.Paren? && WellFormed(e) && Room(st, e)
    ensures RunTokens(ar, Print(e), st)
         == var s := SpineOf(ar, e); if s.None? then None else Some(Pile(st, s.value))
    decreases e, 0
  {
    var x, inside := e.inner, Stacks(st.vals, st.ops + [Open]);
    assert Print(e) == [LParen] + (Print(x) + [RParen]);
    RunAppend(ar, [LParen], Print(x) + [RParen], st);
    RunOne(ar, LParen, st);
    RunAppend(ar, Print(x), [RParen], inside);
    RunTree(ar, x, inside);
    var s := SpineOf(ar, x);
    if s.Some? {
      RunOne(ar, RParen, Pile(inside, s.value));
      ReduceSpine(ar, x, inside, 1);
      assert Pop(inside.ops) == st.ops;
    }
    assert st.ops + [] == st.ops;
  }

  /** Reading an operator after its left operand evaluates that operand. */
  lemma {:induction false} RunOperator<V>(ar: Arithmetic<V>, op: Operator, l: Expr<V>, st: Stacks<V>)
    requires WellFormed(l) && Room(st, l) && SpineOf(ar, l).Some?
    requires Precedence(op) <= Level(l) && Below(st.ops, Precedence(op)) && |st.ops| < STACK_MAX
    ensures RunTokens(ar, [Op(op)], Pile(st, SpineOf(ar, l).value))
         == var a := Eval(ar, l);
            if a.None? then None else Some(Stacks(st.vals + [a.value], st.ops + [Oper(op)]))
  {
    RunOne(ar, Op(op), Pile(st, SpineOf(ar, l).value));
    ReduceSpine(ar, l, st, Precedence(op));
  }

  lemma {:induction false} RunBin<V>(ar: Arithmetic<V>, e: Expr<V>, st: Stacks<V>)
    requires e.Bin? && WellFormed(e) && Room(st, e) && Below(st.ops, Level(e))
    ensures RunTokens(ar, Print(e), st)
         == var s := SpineOf(ar, e); if s.None? then None else Some(Pile(st, s.value))
    ensures SpineOf(ar, e).None? ==> Eval(ar, e).None?
    decreases e, 0
  {
    hide StepToken, ReduceWhile, RunTokens;
    var l, r := e.left, e.right;
    var o: seq<Token<V>> := [Op(e.op)];
    assert Print(e) == Print(l) + (o + Print(r));
    RunAppend(ar, Print(l), o + Print(r), st);
    RunTree(ar, l, st);
    var sl, a := SpineOf(ar, l), Eval(ar, l);
    if sl.Some? {
      RunAppend(ar, o, Print(r), Pile(st, sl.value));
      RunOperator(ar, e.op, l, st);
      if a.Some? {
        var mid := Stacks(st.vals + [a.value], st.ops + [Oper(e.op)]);
        RunTree(ar, r, mid);
        var sr := SpineOf(ar, r);
        if sr.Some? {
          assert Pile(mid, sr.value) == Pile(st, SpineOf(ar, e).value);
        }
      }
    }
  }

  // ---------------------------------------------------------------- when a stack overflows

  function Opens(ops: seq<Pending>): nat {
    if ops == [] then 0 else Opens(ops[..|ops| - 1]) + (if Top(ops, Open).Open? then 1 else 0)
  }

  /** Operands on the stack that no pending operator is waiting for. */
  function Surplus<V>(st: Stacks<V>): int {
    |st.vals| - (|st.ops| - Opens(st.ops))
  }

  /** What every machine state keeps: the capacities, and precedences that strictly increase
      up to the next parenthesis. */
  ghost predicate Sound<V>(st: Stacks<V>) {
    && |st.ops| <= STACK_MAX && |st.vals| <= STACK_MAX
    && Increasing(st.ops)
  }

  ghost predicate Increasing(ops: seq<Pending>) {
    forall i :: 0 < i < |ops| && ops[i].Oper? ==> PendingPrecedence(ops[i - 1]) < PendingPrecedence(ops[i])
  }

  lemma {:induction false} IncreasingBound(ops: seq<Pending>)
    requires Increasing(ops)
    ensures Opens(ops) <= |ops|
    ensures |ops| <= 6 * Opens(ops) + PendingPrecedence(Top(ops, Open))
    decreases |ops|
  {
    if ops != [] {
      var rest := ops[..|ops| - 1];
      IncreasingBound(rest);
      if rest != [] {
        assert Top(rest, Open) == ops[|ops| - 2];
      }
    }
  }

  lemma OpensPush(ops: seq<Pending>, p: Pending)
    ensures Opens(ops + [p]) == Opens(ops) + (if p.Open? then 1 else 0)
  {
    assert (ops + [p])[..|ops|] == ops;
  }

  /** Reducing never lowers the surplus and touches no parenthesis. */
  lemma {:induction false} ReduceKeeps<V>(ar: Arithmetic<V>, p: nat, st: Stacks<V>)
    requires p > 0 && Sound(st) && ReduceWhile(ar, p, st).Some?
    ensures var r := ReduceWhile(ar, p, st).value;
      Sound(r) && Opens(r.ops) == Opens(st.ops) && Surplus(st) <= Surplus(r) && Below(r.ops, p)
    decreases |st.ops|
  {
    if st.ops != [] && p <= PendingPrecedence(Top(st.ops, Open)) {
      ReduceKeeps(ar, p, Reduce(ar, st).value);
    }
  }

  lemma OpenKeeps(ops: seq<Pending>)
    requires |ops| <= STACK_MAX && Increasing(ops)
    ensures |Push(ops, Open)| <= STACK_MAX && Increasing(Push(ops, Open))
    ensures |Push(ops, Open)| - Opens(Push(ops, Open)) == |ops| - Opens(ops)
    ensures Opens(Push(ops, Open)) <= Opens(ops) + 1
  {
    OpensPush(ops, Open);
  }

  lemma PushKeeps(ops: seq<Pending>, op: Operator)
    requires |ops| <= STACK_MAX && Increasing(ops) && Below(ops, Precedence(op))
    ensures var r := Push(ops, Oper(op));
      && |r| <= STACK_MAX && Increasing(r) && Opens(r) == Opens(ops) && |r| <= |ops| + 1
  {
    OpensPush(ops, Oper(op));
  }

  lemma CloseKeeps(ops: seq<Pending>)
    requires ops != [] && Increasing(ops) && Below(ops, 1)
    ensures Increasing(Pop(ops)) && Opens(Pop(ops)) == Opens(ops) - 1
  {
  }

  /** One token: an operator costs at most one surplus operand, an opening parenthesis adds at
      most one entry, a closing one removes exactly one. */
  lemma StepKeeps<V>(ar: Arithmetic<V>, t: Token<V>, st: Stacks<V>)
    requires Sound(st) && StepToken(ar, t, st).Some?
    ensures var r := StepToken(ar, t, st).value;
      && Sound(r)
      && (t.Op? ==> Surplus(st) - 1 <= Surplus(r) && Opens(r.ops) == Opens(st.ops))
      && (t.LParen? ==> Surplus(r) == Surplus(st) && Opens(r.ops) <= Opens(st.ops) + 1)
      && (t.RParen? ==> Surplus(st) <= Surplus(r) && Opens(r.ops) == Opens(st.ops) - 1)
  {
    hide Increasing, Opens, Below, ReduceWhile;
    match t
    case Number(_) =>
    case LParen => OpenKeeps(st.ops);
    case RParen =>
      ReduceKeeps(ar, 1, st);
      CloseKeeps(ReduceWhile(ar, 1, st).value.ops);
    case Op(op) =>
      ReduceKeeps(ar, Precedence(op), st);
      PushKeeps(ReduceWhile(ar, Precedence(op), st).value.ops, op);
  }

  /** A dropped operand leaves far more operands than operators. */
  lemma NumberKeeps<V>(ar: Arithmetic<V>, v: V, st: Stacks<V>)
    requires Sound(st)
    ensures var r := StepToken(ar, Number(v), st).value;
      && Sound(r) && r.ops == st.ops
      && (Surplus(r) == Surplus(st) + 1 || 2 <= Surplus(r))
  {
    IncreasingBound(st.ops);
  }

  /** Reading any tree from any state: the surplus ends positive, a surplus already there is
      never lost again, and no parenthesis beyond the tree's own appears. */
  lemma {:induction false} RunKeeps<V>(ar: Arithmetic<V>, e: Expr<V>, st: Stacks<V>)
    requires Sound(st) && 0 <= Surplus(st) && RunTokens(ar, Print(e), st).Some?
    ensures var r := RunTokens(ar, Print(e), st).value;
      && Sound(r) && 1 <= Surplus(r) && Opens(r.ops) <= Opens(st.ops)
      && (1 <= Surplus(st) ==> 2 <= Surplus(r))
    decreases e
  {
    hide StepToken, Surplus, Opens, Increasing;
    match e
    case Lit(v) =>
      RunOne(ar, Number(v), st);
      NumberKeeps(ar, v, st);
    case Paren(x) =>
      assert Print(e) == [LParen] + (Print(x) + [RParen]);
      RunAppend(ar, [LParen], Print(x) + [RParen], st);
      RunOne(ar, LParen, st);
      StepKeeps(ar, LParen, st);
      var a := StepToken(ar, LParen, st).value;
      RunAppend(ar, Print(x), [RParen], a);
      RunKeeps(ar, x, a);
      var b := RunTokens(ar, Print(x), a).value;
      RunOne(ar, RParen, b);
      StepKeeps(ar, RParen, b);
    case Bin(op, l, r) =>
      var o: seq<Token<V>> := [Op(op)];
      assert Print(e) == Print(l) + (o + Print(r));
      RunAppend(ar, Print(l), o + Print(r), st);
      RunKeeps(ar, l, st);
      var a := RunTokens(ar, Print(l), st).value;
      RunAppend(ar, o, Print(r), a);
      RunOne(ar, Op(op), a);
      StepKeeps(ar, Op(op), a);
      RunKeeps(ar, r, StepToken(ar, Op(op), a).value);
  }

  /** What betrays an overflow: a parenthesis too few or an operand too many. */
  ghost predicate Betrayed<V>(st: Stacks<V>, end: Option<Stacks<V>>) {
    end.Some? ==> Opens(end.value.ops) < Opens(st.ops) || 2 <= Surplus(end.value)
  }

  /** A tree that does not fit above the operators already pending always leaves a trace. */
  lemma {:induction false} OverflowBetrays<V>(ar: Arithmetic<V>, e: Expr<V>, st: Stacks<V>)
    requires WellFormed(e) && Sound(st) && 0 <= Surplus(st) && Below(st.ops, Level(e))
    requires STACK_MAX < |st.ops| + OpsNeed(e)
    ensures Betrayed(st, RunTokens(ar, Print(e), st))
    decreases e, 1
  {
    if RunTokens(ar, Print(e), st).Some? {
      match e
      case Lit(_) =>
      case Paren(_) => OverflowInParen(ar, e, st);
      case Bin(_, _, _) => OverflowInBin(ar, e, st);
    }
  }

  lemma {:induction false} OverflowInParen<V>(ar: Arithmetic<V>, e: Expr<V>, st: Stacks<V>)
    requires e.Paren? && WellFormed(e) && Sound(st) && 0 <= Surplus(st)
    requires STACK_MAX < |st.ops| + OpsNeed(e)
    requires RunTokens(ar, Print(e), st).Some?
    ensures Betrayed(st, RunTokens(ar, Print(e), st))
    decreases e, 0
  {
    hide StepToken, Surplus, Opens, Increasing;
    var x := e.inner;
    var a := Stacks(st.vals, Push(st.ops, Open));
    assert Print(e) == [LParen] + (Print(x) + [RParen]);
    RunAppend(ar, [LParen], Print(x) + [RParen], st);
    RunOne(ar, LParen, st);
    StepIsPush(ar, st);
    StepKeeps(ar, LParen, st);
    RunAppend(ar, Print(x), [RParen], a);
    RunKeeps(ar, x, a);
    var b := RunTokens(ar, Print(x), a).value;
    RunOne(ar, RParen, b);
    StepKeeps(ar, RParen, b);
    if |st.ops| < STACK_MAX {
      OverflowBetrays(ar, x, a);
    }
  }

  lemma StepIsPush<V>(ar: Arithmetic<V>, st: Stacks<V>)
    ensures StepToken(ar, LParen, st) == Some(Stacks(st.vals, Push(st.ops, Open)))
  {
  }

  lemma {:induction false} OverflowInBin<V>(ar: Arithmetic<V>, e: Expr<V>, st: Stacks<V>)
    requires e.Bin? && WellFormed(e) && Sound(st) && 0 <= Surplus(st) && Below(st.ops, Level(e))
    requires STACK_MAX < |st.ops| + OpsNeed(e)
    requires RunTokens(ar, Print(e), st).Some?
    ensures Betrayed(st, RunTokens(ar, Print(e), st))
    decreases e, 0
  {
    hide StepToken, Surplus, Opens, Increasing;
    var l, r := e.left, e.right;
    var o: seq<Token<V>> := [Op(e.op)];
    assert Print(e) == Print(l) + (o + Print(r));
    RunAppend(ar, Print(l), o + Print(r), st);
    RunKeeps(ar, l, st);
    var a := RunTokens(ar, Print(l), st).value;
    RunAppend(ar, o, Print(r), a);
    RunOne(ar, Op(e.op), a);
    StepKeeps(ar, Op(e.op), a);
    var mid := StepToken(ar, Op(e.op), a).value;
    RunKeeps(ar, r, mid);
    if STACK_MAX < |st.ops| + OpsNeed(l) {
      OverflowBetrays(ar, l, st);
    } else if Surplus(st) == 0 {
      LeftOperandFits(l, st);
      OperatorLands(ar, e.op, l, st);
      if |st.ops| < STACK_MAX {
        OverflowBetrays(ar, r, mid);
      }
    }
  }

  /** With no surplus, room for the operators is room for the operands. */
  lemma LeftOperandFits<V>(l: Expr<V>, st: Stacks<V>)
    requires WellFormed(l) && Sound(st) && Surplus(st) == 0 && |st.ops| + OpsNeed(l) <= STACK_MAX
    ensures Room(st, l)
  {
    ValsFromOps(l);
    IncreasingBound(st.ops);
  }

  /** After a left operand that fits, its operator is pushed, or dropped leaving a surplus. */
  lemma OperatorLands<V>(ar: Arithmetic<V>, op: Operator, l: Expr<V>, st: Stacks<V>)
    requires WellFormed(l) && Sound(st) && Surplus(st) == 0 && Room(st, l)
    requires Precedence(op) <= Level(l) && Below(st.ops, Precedence(op))
    requires RunTokens(ar, Print(l), st).Some?
    requires StepToken(ar, Op(op), RunTokens(ar, Print(l), st).value).Some?
    ensures var mid := StepToken(ar, Op(op), RunTokens(ar, Print(l), st).value).value;
      if |st.ops| < STACK_MAX then mid.ops == st.ops + [Oper(op)] && Opens(mid.ops) == Opens(st.ops)
                                && Surplus(mid) == 0
      else Surplus(mid) == 1
  {
    hide RunTokens, ReduceWhile, Increasing, Opens, SpineOf, OpsNeed, ValsNeed, Eval, Print, WellFormed;
    RunTree(ar, l, st);
    ReduceSpine(ar, l, st, Precedence(op));
    OpensPush(st.ops, Oper(op));
  }

  // ---------------------------------------------------------------- main results

  /** The exact verdict on every well-formed expression: its value when the operator stack it
      needs fits in a hundred entries and no division in it is by zero, and a false return
      otherwise. */
  lemma Verdict<V>(ar: Arithmetic<V>, e: Expr<V>)
    requires WellFormed(e)
    ensures Evaluate(ar, Print(e)) == if OpsNeed(e) <= STACK_MAX then Eval(ar, e) else None
  {
    if OpsNeed(e) <= STACK_MAX {
      ValsFromOps(e);
      EvaluatesTree(ar, e);
    } else {
      var empty: Stacks<V> := Stacks([], []);
      var end := RunTokens(ar, Print(e), empty);
      if end.Some? {
        OverflowBetrays(ar, e, empty);
        RunKeeps(ar, e, empty);
        NoOpens(end.value.ops);
        DrainIsReduce(ar, end.value);
        if ReduceWhile(ar, 1, end.value).Some? {
          ReduceKeeps(ar, 1, end.value);
          NoOpens(ReduceWhile(ar, 1, end.value).value.ops);
        }
      }
    }
  }

  lemma {:induction false} NoOpens(ops: seq<Pending>)
    requires Opens(ops) == 0
    ensures forall i :: 0 <= i < |ops| ==> ops[i].Oper?
    decreases |ops|
  {
    if ops != [] {
      NoOpens(ops[..|ops| - 1]);
    }
  }

  /** Up to fifteen levels of parentheses always fit, whatever is inside them. */
  lemma VerdictUpToNestingFifteen<V>(ar: Arithmetic<V>, e: Expr<V>)
    requires WellFormed(e) && Nesting(e) <= 15
    ensures Evaluate(ar, Print(e)) == Eval(ar, e)
  {
    NeedFromNesting(e);
    Verdict(ar, e);
  }

  lemma EvaluatesTree<V>(ar: Arithmetic<V>, e: Expr<V>)
    requires WellFormed(e) && Room(Stacks([], []), e)
    ensures Evaluate(ar, Print(e)) == Eval(ar, e)
  {
    var empty: Stacks<V> := Stacks([], []);
    RunTree(ar, e, empty);
    var s := SpineOf(ar, e);
    if s.Some? {
      SpineShape(ar, e);
      assert Pile(empty, s.value) == Stacks(s.value.vals, s.value.ops);
      ReduceSpine(ar, e, empty, 1);
      DrainIsReduce(ar, Pile(empty, s.value));
    }
  }

  /** With no parenthesis pending, draining is reducing everything. */
  lemma {:induction false} DrainIsReduce<V>(ar: Arithmetic<V>, st: Stacks<V>)
    requires forall i :: 0 <= i < |st.ops| ==> st.ops[i].Oper?
    ensures Drain(ar, st) == ReduceWhile(ar, 1, st)
    decreases |st.ops|
  {
    if st.ops != [] && st.vals != [] {
      var next := Reduce(ar, st);
      if next.Some? {
        DrainIsReduce(ar, next.value);
      }
    }
  }
}
