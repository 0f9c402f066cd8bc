/** The evaluator in the form of main/expression_parser.c: two array-backed stacks and a loop. */
module ExpressionEvaluator {
  import opened Wrappers
  import opened Expression
  import Grammar = ExpressionGrammar

  class Stack<T(0)> {
    var top: int
    const items: array<T>

    ghost predicate Valid()
      reads this, items
    {
      items.Length == STACK_MAX && -1 <= top < STACK_MAX
    }

    ghost function Contents(): (s: seq<T>)
      requires Valid()
      reads this, items
      ensures |s| <= STACK_MAX
    {
      items[..top + 1]
    }

    constructor ()
      ensures Valid() && fresh(items) && Contents() == []
    {
      top := -1;
      items := new T[STACK_MAX];
    }

    function IsEmpty(): bool
      requires Valid()
      reads this, items
      ensures IsEmpty() <==> Contents() == []
    {
      top == -1
    }

    method Push(value: T) returns (ok: bool)
      requires Valid()
      modifies this`top, items
      ensures Valid()
      ensures Contents() == Expression.Push(old(Contents()), value)
      ensures ok <==> |old(Contents())| < STACK_MAX
    {
      if top == STACK_MAX - 1 {
        return false;
      }
      top := top + 1;
      items[top] := value;
      return true;
    }

    method Pop(default: T) returns (value: T)
      requires Valid()
      modifies this`top
      ensures Valid()
      ensures value == Top(old(Contents()), default)
      ensures Contents() == Expression.Pop(old(Contents()))
    {
      if top == -1 {
        return default;
      }
      value := items[top];
      top := top - 1;
    }

    function Peek(default: T): (value: T)
      requires Valid()
      reads this, items
      ensures value == Top(Contents(), default)
    {
      if top == -1 then default else items[top]
    }
  }

  class Evaluator<!V(0)> {
    const ar: Arithmetic<V>
    const operands: Stack<V>
    const operators: Stack<Pending>

    ghost predicate Valid()
      reads this, operands, operators, operands.items, operators.items
    {
      && operands.Valid() && operators.Valid()
      && operands as object != operators && operands.items as object != operators.items
    }

    ghost function Value(): Stacks<V>
      requires Valid()
      reads this, operands, operators, operands.items, operators.items
    {
      Stacks(operands.Contents(), operators.Contents())
    }

    constructor (ar: Arithmetic<V>)
      ensures Valid() && Value() == Stacks([], []) && this.ar == ar
      ensures fresh(operands) && fresh(operators) && fresh(operands.items) && fresh(operators.items)
    {
      this.ar := ar;
      operands := new Stack();
      operators := new Stack();
    }

    /** The block the source repeats three times: one operator applied to two operands. */
    method ReduceTop() returns (ok: bool)
      requires Valid() && !operators.IsEmpty() && operators.Peek(Open).Oper?
      modifies operands`top, operands.items, operators`top
      ensures Valid()
      ensures ok <==> old(Reduce(ar, Value())).Some?
      ensures ok ==> Some(Value()) == old(Reduce(ar, Value()))
    {
      var op := operators.Pop(Open);
      if operands.IsEmpty() {
        return false;
      }
      var operand2 := operands.Pop(ar.zero);
      var operand1 := operands.Pop(ar.zero);
      var result := Apply(ar, op.op, operand1, operand2);
      if result.None? {
        return false;
      }
      var _ := operands.Push(result.value);
      return true;
    }

    method ReduceDownTo(p: nat) returns (ok: bool)
      requires Valid() && p > 0
      modifies operands`top, operands.items, operators`top
      ensures Valid()
      ensures ok <==> old(ReduceWhile(ar, p, Value())).Some?
      ensures ok ==> Some(Value()) == old(ReduceWhile(ar, p, Value()))
    {
      ghost var goal := ReduceWhile(ar, p, Value());
      while !operators.IsEmpty() && p <= PendingPrecedence(operators.Peek(Open))
        invariant Valid() && ReduceWhile(ar, p, Value()) == goal
        decreases operators.top
      {
        ok := ReduceTop();
        if !ok {
          return;
        }
      }
      return true;
    }

    method Consume(t: Token<V>) returns (ok: bool)
      requires Valid()
      modifies operands`top, operands.items, operators`top, operators.items
      ensures Valid()
      ensures ok <==> old(StepToken(ar, t, Value())).Some?
      ensures ok ==> Some(Value()) == old(StepToken(ar, t, Value()))
    {
      match t
      case Number(v) =>
        var _ := operands.Push(v);
        return true;
      case LParen =>
        var _ := operators.Push(Open);
        return true;
      case RParen =>
        ok := ReduceDownTo(1);
        if !ok || operators.IsEmpty() {
          return false;
        }
        var _ := operators.Pop(Open);
        return true;
      case Op(op) =>
        ok := ReduceDownTo(Precedence(op));
        if !ok {
          return;
        }
        var _ := operators.Push(Oper(op));
        return true;
    }

    method DrainAll() returns (ok: bool)
      requires Valid()
      modifies operands`top, operands.items, operators`top
      ensures Valid()
      ensures ok <==> old(Drain(ar, Value())).Some?
      ensures ok ==> Some(Value()) == old(Drain(ar, Value()))
    {
      ghost var goal := Drain(ar, Value());
      while !operators.IsEmpty()
        invariant Valid() && Drain(ar, Value()) == goal
        decreases operators.top
      {
        if operands.IsEmpty() {
          return false;
        }
        if operators.Peek(Open).Oper? {
          ok := ReduceTop();
          if !ok {
            return;
          }
        } else {
          var _ := operators.Pop(Open);
          var _ := operands.Pop(ar.zero);
          var _ := operands.Pop(ar.zero);
          var _ := operands.Push(ar.zero);
        }
      }
      return true;
    }
  }

  /** `evaluate_expression` over the token stream: a value is stored exactly on a true return,
      and it is the verdict of the two-stack machine. */
  method EvaluateExpression<V(0)>(ar: Arithmetic<V>, tokens: seq<Token<V>>) returns (ok: bool, result: Option<V>)
    ensures result == Evaluate(ar, tokens)
    ensures ok <==> result.Some?
  {
    var m := new Evaluator(ar);
    var i := 0;
    while i < |tokens|
      invariant 0 <= i <= |tokens| && m.Valid() && m.ar == ar
      invariant fresh(m.operands) && fresh(m.operators)
      invariant fresh(m.operands.items) && fresh(m.operators.items)
      invariant RunTokens(ar, tokens[i..], m.Value()) == RunTokens(ar, tokens, Stacks([], []))
    {
      ghost var before := m.Value();
      assert tokens[i..][0] == tokens[i] && tokens[i..][1..] == tokens[i + 1..];
      var step := m.Consume(tokens[i]);
      if !step {
        return false, None;
      }
      i := i + 1;
    }
    assert tokens[i..] == [];
    var drained := m.DrainAll();
    if !drained || m.operands.top != 0 {
      return false, None;
    }
    return true, Some(m.operands.items[0]);
  }

  /** On a printed tree: true with the tree's value, or false exactly when the operator stack
      would overflow or some division is by zero. */
  method EvaluatePrinted<V(0)>(ar: Arithmetic<V>, e: Expr<V>) returns (ok: bool, result: Option<V>)
    requires WellFormed(e)
    ensures ok <==> OpsNeed(e) <= STACK_MAX && Eval(ar, e).Some?
    ensures ok ==> result == Eval(ar, e)
  {
    Verdict(ar, e);
    ok, result := EvaluateExpression(ar, Print(e));
  }

  /** On the text of a sentence: true with its value, or false exactly when more than a hundred
      operators and parentheses are pending at once or some division is by zero. */
  method EvaluateSentence<V(0)>(ar: Arithmetic<V>, s: Grammar.Union<V>) returns (ok: bool, result: Option<V>)
    ensures ok <==> Grammar.UnionPending(s) <= 100 && Grammar.UnionValue(ar, s).Some?
    ensures ok ==> result == Grammar.UnionValue(ar, s)
  {
    Grammar.SentenceVerdict(ar, s);
    ok, result := EvaluateExpression(ar, Grammar.UnionText(s));
  }
}
