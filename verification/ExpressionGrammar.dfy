/** The language of expressions by its grammar, one nonterminal for each level of binding and every
    operator associating to the left: or and xor bind loosest, then and, shifts, sums, products. The
    evaluator of module Expression computes the value of every sentence. */
module ExpressionGrammar {
  import opened Wrappers
  import opened Expression

  datatype Atom<V> = Literal(v: V) | Group(inner: Union<V>)
  datatype Product<V> = JustAtom(atom: Atom<V>) | Times(a: Product<V>, b: Atom<V>) | Over(a: Product<V>, b: Atom<V>)
  datatype Sum<V> = JustProduct(product: Product<V>) | Plus(a: Sum<V>, b: Product<V>) | Minus(a: Sum<V>, b: Product<V>)
  datatype Shifted<V> = JustSum(sum: Sum<V>) | Left(a: Shifted<V>, b: Sum<V>) | Right(a: Shifted<V>, b: Sum<V>)
  datatype Masked<V> = JustShifted(shifted: Shifted<V>) | And(a: Masked<V>, b: Shifted<V>)
  datatype Union<V> = JustMasked(masked: Masked<V>) | Or(a: Union<V>, b: Masked<V>) | Xor(a: Union<V>, b: Masked<V>)

  // ---------------------------------------------------------------- how sentences are written

  function AtomText<V>(s: Atom<V>): seq<Token<V>> {
    match s
    case Literal(v) => [Number(v)]
    case Group(u) => [LParen] + UnionText(u) + [RParen]
  }

  function ProductText<V>(s: Product<V>): seq<Token<V>> {
    match s
    case JustAtom(x) => AtomText(x)
    case Times(a, b) => ProductText(a) + [Op(Mul)] + AtomText(b)
    case Over(a, b) => ProductText(a) + [Op(Div)] + AtomText(b)
  }

  function SumText<V>(s: Sum<V>): seq<Token<V>> {
    match s
    case JustProduct(x) => ProductText(x)
    case Plus(a, b) => SumText(a) + [Op(Add)] + ProductText(b)
    case Minus(a, b) => SumText(a) + [Op(Sub)] + ProductText(b)
  }

  function ShiftedText<V>(s: Shifted<V>): seq<Token<V>> {
    match s
    case JustSum(x) => SumText(x)
    case Left(a, b) => ShiftedText(a) + [Op(ShiftLeft)] + SumText(b)
    case Right(a, b) => ShiftedText(a) + [Op(ShiftRight)] + SumText(b)
  }

  function MaskedText<V>(s: Masked<V>): seq<Token<V>> {
    match s
    case JustShifted(x) => ShiftedText(x)
    case And(a, b) => MaskedText(a) + [Op(BitAnd)] + ShiftedText(b)
  }

  function UnionText<V>(s: Union<V>): seq<Token<V>> {
    match s
    case JustMasked(x) => MaskedText(x)
    case Or(a, b) => UnionText(a) + [Op(BitOr)] + MaskedText(b)
    case Xor(a, b) => UnionText(a) + [Op(BitXor)] + MaskedText(b)
  }

  // ---------------------------------------------------------------- what they mean

  /** An operator needs both operands to have a value. */
  function Combine<V>(ar: Arithmetic<V>, op: Operator, a: Option<V>, b: Option<V>): Option<V> {
    if a.Some? && b.Some? then Some(ar.compute(op, a.value, b.value)) else None
  }

  function AtomValue<V>(ar: Arithmetic<V>, s: Atom<V>): Option<V> {
    match s
    case Literal(v) => Some(v)
    case Group(u) => UnionValue(ar, u)
  }

  /** A quotient also needs a divisor other than zero. */
  function ProductValue<V>(ar: Arithmetic<V>, s: Product<V>): Option<V> {
    match s
    case JustAtom(x) => AtomValue(ar, x)
    case Times(a, b) => Combine(ar, Mul, ProductValue(ar, a), AtomValue(ar, b))
    case Over(a, b) =>
      var divisor := AtomValue(ar, b);
      if divisor.Some? && ar.isZero(divisor.value) then None else Combine(ar, Div, ProductValue(ar, a), divisor)
  }

  function SumValue<V>(ar: Arithmetic<V>, s: Sum<V>): Option<V> {
    match s
    case JustProduct(x) => ProductValue(ar, x)
    case Plus(a, b) => Combine(ar, Add, SumValue(ar, a), ProductValue(ar, b))
    case Minus(a, b) => Combine(ar, Sub, SumValue(ar, a), ProductValue(ar, b))
  }

  function ShiftedValue<V>(ar: Arithmetic<V>, s: Shifted<V>): Option<V> {
    match s
    case JustSum(x) => SumValue(ar, x)
    case Left(a, b) => Combine(ar, ShiftLeft, ShiftedValue(ar, a), SumValue(ar, b))
    case Right(a, b) => Combine(ar, ShiftRight, ShiftedValue(ar, a), SumValue(ar, b))
  }

  function MaskedValue<V>(ar: Arithmetic<V>, s: Masked<V>): Option<V> {
    match s
    case JustShifted(x) => ShiftedValue(ar, x)
    case And(a, b) => Combine(ar, BitAnd, MaskedValue(ar, a), ShiftedValue(ar, b))
  }

  function UnionValue<V>(ar: Arithmetic<V>, s: Union<V>): Option<V> {
    match s
    case JustMasked(x) => MaskedValue(ar, x)
    case Or(a, b) => Combine(ar, BitOr, UnionValue(ar, a), MaskedValue(ar, b))
    case Xor(a, b) => Combine(ar, BitXor, UnionValue(ar, a), MaskedValue(ar, b))
  }

  // ---------------------------------------------------------------- how deep they pile up

  function Larger(a: nat, b: nat): nat {
    if a < b then b else a
  }

  /** The operators and parentheses pending at once while a sentence is read: those within a right
      operand on top of its operator, those within parentheses on top of the opening one. */
  function AtomPending<V>(s: Atom<V>): nat {
    match s
    case Literal(_) => 0
    case Group(u) => 1 + UnionPending(u)
  }

  function ProductPending<V>(s: Product<V>): nat {
    match s
    case JustAtom(x) => AtomPending(x)
    case Times(a, b) => Larger(ProductPending(a), 1 + AtomPending(b))
    case Over(a, b) => Larger(ProductPending(a), 1 + AtomPending(b))
  }

  function SumPending<V>(s: Sum<V>): nat {
    match s
    case JustProduct(x) => ProductPending(x)
    case Plus(a, b) => Larger(SumPending(a), 1 + ProductPending(b))
    case Minus(a, b) => Larger(SumPending(a), 1 + ProductPending(b))
  }

  function ShiftedPending<V>(s: Shifted<V>): nat {
    match s
    case JustSum(x) => SumPending(x)
    case Left(a, b) => Larger(ShiftedPending(a), 1 + SumPending(b))
    case Right(a, b) => Larger(ShiftedPending(a), 1 + SumPending(b))
  }

  function MaskedPending<V>(s: Masked<V>): nat {
    match s
    case JustShifted(x) => ShiftedPending(x)
    case And(a, b) => Larger(MaskedPending(a), 1 + ShiftedPending(b))
  }

  function UnionPending<V>(s: Union<V>): nat {
    match s
    case JustMasked(x) => MaskedPending(x)
    case Or(a, b) => Larger(UnionPending(a), 1 + MaskedPending(b))
    case Xor(a, b) => Larger(UnionPending(a), 1 + MaskedPending(b))
  }

  // ---------------------------------------------------------------- their trees

  function AtomTree<V>(s: Atom<V>): Expr<V> {
    match s
    case Literal(v) => Lit(v)
    case Group(u) => Paren(UnionTree(u))
  }

  function ProductTree<V>(s: Product<V>): Expr<V> {
    match s
    case JustAtom(x) => AtomTree(x)
    case Times(a, b) => Bin(Mul, ProductTree(a), AtomTree(b))
    case Over(a, b) => Bin(Div, ProductTree(a), AtomTree(b))
  }

  function SumTree<V>(s: Sum<V>): Expr<V> {
    match s
    case JustProduct(x) => ProductTree(x)
    case Plus(a, b) => Bin(Add, SumTree(a), ProductTree(b))
    case Minus(a, b) => Bin(Sub, SumTree(a), ProductTree(b))
  }

  function ShiftedTree<V>(s: Shifted<V>): Expr<V> {
    match s
    case JustSum(x) => SumTree(x)
    case Left(a, b) => Bin(ShiftLeft, ShiftedTree(a), SumTree(b))
    case Right(a, b) => Bin(ShiftRight, ShiftedTree(a), SumTree(b))
  }

  function MaskedTree<V>(s: Masked<V>): Expr<V> {
    match s
    case JustShifted(x) => ShiftedTree(x)
    case And(a, b) => Bin(BitAnd, MaskedTree(a), ShiftedTree(b))
  }

  function UnionTree<V>(s: Union<V>): Expr<V> {
    match s
    case JustMasked(x) => MaskedTree(x)
    case Or(a, b) => Bin(BitOr, UnionTree(a), MaskedTree(b))
    case Xor(a, b) => Bin(BitXor, UnionTree(a), MaskedTree(b))
  }

  /** A tree that says what a sentence of a level says. */
  ghost predicate Stands<V>(ar: Arithmetic<V>, e: Expr<V>, level: nat, text: seq<Token<V>>, value: Option<V>,
                            pending: nat)
  {
    WellFormed(e) && level <= Level(e) && Print(e) == text && Eval(ar, e) == value && OpsNeed(e) == pending
  }

  lemma {:induction false} AtomStands<V>(ar: Arithmetic<V>, s: Atom<V>)
    ensures Stands(ar, AtomTree(s), 6, AtomText(s), AtomValue(ar, s), AtomPending(s))
  {
    match s
    case Literal(_) =>
    case Group(u) => UnionStands(ar, u);
  }

  /** An operator of a level between an operand of that level and one of the next. */
  lemma OperatorStands<V>(ar: Arithmetic<V>, op: Operator, level: nat, a: Expr<V>, b: Expr<V>,
                          ta: seq<Token<V>>, tb: seq<Token<V>>, va: Option<V>, vb: Option<V>, na: nat, nb: nat)
    requires Stands(ar, a, level, ta, va, na) && Stands(ar, b, level + 1, tb, vb, nb) && Precedence(op) == level
    ensures Stands(ar, Bin(op, a, b), level, ta + [Op(op)] + tb,
                   if op == Div && vb.Some? && ar.isZero(vb.value) then None else Combine(ar, op, va, vb),
                   Larger(na, 1 + nb))
  {
  }

  lemma {:induction false} ProductStands<V>(ar: Arithmetic<V>, s: Product<V>)
    ensures Stands(ar, ProductTree(s), 5, ProductText(s), ProductValue(ar, s), ProductPending(s))
  {
    hide Stands, Combine;
    match s {
      case JustAtom(x) =>
        AtomStands(ar, x);
        Looser(ar, AtomTree(x), 6, AtomText(x), AtomValue(ar, x), AtomPending(x));
      case Times(a, b) =>
        ProductStands(ar, a);
        AtomStands(ar, b);
        OperatorStands(ar, Mul, 5, ProductTree(a), AtomTree(b), ProductText(a), AtomText(b),
                       ProductValue(ar, a), AtomValue(ar, b), ProductPending(a), AtomPending(b));
      case Over(a, b) =>
        ProductStands(ar, a);
        AtomStands(ar, b);
        OperatorStands(ar, Div, 5, ProductTree(a), AtomTree(b), ProductText(a), AtomText(b),
                       ProductValue(ar, a), AtomValue(ar, b), ProductPending(a), AtomPending(b));
    }
  }

  /** What stands for a level stands for the one below it. */
  lemma Looser<V>(ar: Arithmetic<V>, e: Expr<V>, level: nat, text: seq<Token<V>>, value: Option<V>, pending: nat)
    requires 0 < level && Stands(ar, e, level, text, value, pending)
    ensures Stands(ar, e, level - 1, text, value, pending)
  {
  }

  lemma {:induction false} SumStands<V>(ar: Arithmetic<V>, s: Sum<V>)
    ensures Stands(ar, SumTree(s), 4, SumText(s), SumValue(ar, s), SumPending(s))
  {
    hide Stands, Combine;
    match s {
      case JustProduct(x) =>
        ProductStands(ar, x);
        Looser(ar, ProductTree(x), 5, ProductText(x), ProductValue(ar, x), ProductPending(x));
      case Plus(a, b) =>
        SumStands(ar, a);
        ProductStands(ar, b);
        OperatorStands(ar, Add, 4, SumTree(a), ProductTree(b), SumText(a), ProductText(b),
                       SumValue(ar, a), ProductValue(ar, b), SumPending(a), ProductPending(b));
      case Minus(a, b) =>
        SumStands(ar, a);
        ProductStands(ar, b);
        OperatorStands(ar, Sub, 4, SumTree(a), ProductTree(b), SumText(a), ProductText(b),
                       SumValue(ar, a), ProductValue(ar, b), SumPending(a), ProductPending(b));
    }
  }

  lemma {:induction false} ShiftedStands<V>(ar: Arithmetic<V>, s: Shifted<V>)
    ensures Stands(ar, ShiftedTree(s), 3, ShiftedText(s), ShiftedValue(ar, s), ShiftedPending(s))
  {
    hide Stands, Combine;
    match s {
      case JustSum(x) =>
        SumStands(ar, x);
        Looser(ar, SumTree(x), 4, SumText(x), SumValue(ar, x), SumPending(x));
      case Left(a, b) =>
        ShiftedStands(ar, a);
        SumStands(ar, b);
        OperatorStands(ar, ShiftLeft, 3, ShiftedTree(a), SumTree(b), ShiftedText(a), SumText(b),
                       ShiftedValue(ar, a), SumValue(ar, b), ShiftedPending(a), SumPending(b));
      case Right(a, b) =>
        ShiftedStands(ar, a);
        SumStands(ar, b);
        OperatorStands(ar, ShiftRight, 3, ShiftedTree(a), SumTree(b), ShiftedText(a), SumText(b),
                       ShiftedValue(ar, a), SumValue(ar, b), ShiftedPending(a), SumPending(b));
    }
  }

  lemma {:induction false} MaskedStands<V>(ar: Arithmetic<V>, s: Masked<V>)
    ensures Stands(ar, MaskedTree(s), 2, MaskedText(s), MaskedValue(ar, s), MaskedPending(s))
  {
    hide Stands, Combine;
    match s {
      case JustShifted(x) =>
        ShiftedStands(ar, x);
        Looser(ar, ShiftedTree(x), 3, ShiftedText(x), ShiftedValue(ar, x), ShiftedPending(x));
      case And(a, b) =>
        MaskedStands(ar, a);
        ShiftedStands(ar, b);
        OperatorStands(ar, BitAnd, 2, MaskedTree(a), ShiftedTree(b), MaskedText(a), ShiftedText(b),
                       MaskedValue(ar, a), ShiftedValue(ar, b), MaskedPending(a), ShiftedPending(b));
    }
  }

  lemma {:induction false} UnionStands<V>(ar: Arithmetic<V>, s: Union<V>)
    ensures Stands(ar, UnionTree(s), 1, UnionText(s), UnionValue(ar, s), UnionPending(s))
  {
    hide Stands, Combine;
    match s {
      case JustMasked(x) =>
        MaskedStands(ar, x);
        Looser(ar, MaskedTree(x), 2, MaskedText(x), MaskedValue(ar, x), MaskedPending(x));
      case Or(a, b) =>
        UnionStands(ar, a);
        MaskedStands(ar, b);
        OperatorStands(ar, BitOr, 1, UnionTree(a), MaskedTree(b), UnionText(a), MaskedText(b),
                       UnionValue(ar, a), MaskedValue(ar, b), UnionPending(a), MaskedPending(b));
      case Xor(a, b) =>
        UnionStands(ar, a);
        MaskedStands(ar, b);
        OperatorStands(ar, BitXor, 1, UnionTree(a), MaskedTree(b), UnionText(a), MaskedText(b),
                       UnionValue(ar, a), MaskedValue(ar, b), UnionPending(a), MaskedPending(b));
    }
  }

  // ---------------------------------------------------------------- main results

  /** The evaluator on every sentence of the grammar: its value, unless it divides by zero or more
      than a hundred operators and parentheses are pending at once. */
  lemma SentenceVerdict<V>(ar: Arithmetic<V>, s: Union<V>)
    ensures Evaluate(ar, UnionText(s)) == if UnionPending(s) <= 100 then UnionValue(ar, s) else None
  {
    UnionStands(ar, s);
    hide UnionValue, UnionText, UnionPending, Evaluate, Eval, Print, WellFormed, OpsNeed;
    assert STACK_MAX == 100;
    Verdict(ar, UnionTree(s));
  }

  /** Up to fifteen levels of parentheses always fit. */
  lemma SentenceUpToNestingFifteen<V>(ar: Arithmetic<V>, s: Union<V>)
    requires Nesting(UnionTree(s)) <= 15
    ensures Evaluate(ar, UnionText(s)) == UnionValue(ar, s)
  {
    UnionStands(ar, s);
    hide UnionValue, UnionText, UnionPending, Evaluate, Eval, Print, WellFormed, OpsNeed;
    VerdictUpToNestingFifteen(ar, UnionTree(s));
  }

  // ---------------------------------------------------------------- nothing else is well formed

  function ToAtom<V>(e: Expr<V>): (s: Atom<V>)
    requires WellFormed(e) && 6 <= Level(e)
    ensures AtomTree(s) == e
    decreases e, 0
  {
    match e
    case Lit(v) => Literal(v)
    case Paren(x) => Group(ToUnion(x))
  }

  function ToProduct<V>(e: Expr<V>): (s: Product<V>)
    requires WellFormed(e) && 5 <= Level(e)
    ensures ProductTree(s) == e
    decreases e, 1
  {
    if e.Bin? && e.op == Mul then Times(ToProduct(e.left), ToAtom(e.right))
    else if e.Bin? && e.op == Div then Over(ToProduct(e.left), ToAtom(e.right))
    else JustAtom(ToAtom(e))
  }

  function ToSum<V>(e: Expr<V>): (s: Sum<V>)
    requires WellFormed(e) && 4 <= Level(e)
    ensures SumTree(s) == e
    decreases e, 2
  {
    if e.Bin? && e.op == Add then Plus(ToSum(e.left), ToProduct(e.right))
    else if e.Bin? && e.op == Sub then Minus(ToSum(e.left), ToProduct(e.right))
    else JustProduct(ToProduct(e))
  }

  function ToShifted<V>(e: Expr<V>): (s: Shifted<V>)
    requires WellFormed(e) && 3 <= Level(e)
    ensures ShiftedTree(s) == e
    decreases e, 3
  {
    if e.Bin? && e.op == ShiftLeft then Left(ToShifted(e.left), ToSum(e.right))
    else if e.Bin? && e.op == ShiftRight then Right(ToShifted(e.left), ToSum(e.right))
    else JustSum(ToSum(e))
  }

  function ToMasked<V>(e: Expr<V>): (s: Masked<V>)
    requires WellFormed(e) && 2 <= Level(e)
    ensures MaskedTree(s) == e
    decreases e, 4
  {
    if e.Bin? && e.op == BitAnd then And(ToMasked(e.left), ToShifted(e.right))
    else JustShifted(ToShifted(e))
  }

  /** Every well-formed tree is that of a sentence. */
  function ToUnion<V>(e: Expr<V>): (s: Union<V>)
    requires WellFormed(e)
    ensures UnionTree(s) == e
    decreases e, 5
  {
    if e.Bin? && e.op == BitOr then Or(ToUnion(e.left), ToMasked(e.right))
    else if e.Bin? && e.op == BitXor then Xor(ToUnion(e.left), ToMasked(e.right))
    else JustMasked(ToMasked(e))
  }
}
