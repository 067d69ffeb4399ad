/** What number the math tool returns (src/vcse/agent/tools.py): the law each operator of the evaluator
    satisfies, and agreement with integer fractions on trees without division. */
module MathTool {
  import opened Json
  import opened MathGuard

  // ---- The operators ----

  predicate Defined(n: Node, frac: FractionalPower) {
    Eval(n, frac).Some?
  }

  function ValueOf(n: Node, frac: FractionalPower): real
    requires Defined(n, frac)
  {
    Eval(n, frac).value
  }

  /** An operation has a value only when its operands have one. */
  lemma Strict(op: BinaryOp, l: Node, r: Node, uop: UnaryOp, frac: FractionalPower)
    ensures !Defined(l, frac) || !Defined(r, frac) ==> !Defined(Binary(op, l, r), frac)
    ensures !Defined(l, frac) ==> !Defined(Unary(uop, l), frac) && !Defined(Expression(l), frac)
    ensures !Defined(Binary(OtherBinary, l, r), frac) && !Defined(Unary(OtherUnary, l), frac)
    ensures !Defined(OtherConstant, frac) && !Defined(Unsupported, frac)
  {
  }

  lemma Applied(op: BinaryOp, l: Node, r: Node, frac: FractionalPower)
    requires Defined(l, frac) && Defined(r, frac)
    ensures Eval(Binary(op, l, r), frac) == Apply(op, ValueOf(l, frac), ValueOf(r, frac), frac)
  {
  }

  /** A literal is its own value, a sign negates or keeps, and an expression is its body. */
  lemma SignLaws(n: Node, literal: real, frac: FractionalPower)
    requires Defined(n, frac)
    ensures Defined(Num(literal), frac) && ValueOf(Num(literal), frac) == literal
    ensures Defined(Unary(USub, n), frac) && ValueOf(Unary(USub, n), frac) + ValueOf(n, frac) == 0.0
    ensures Defined(Unary(UAdd, n), frac) && ValueOf(Unary(UAdd, n), frac) == ValueOf(n, frac)
    ensures Defined(Expression(n), frac) && ValueOf(Expression(n), frac) == ValueOf(n, frac)
  {
  }

  /** A sum less its right operand is the left one, and a difference plus its right operand is too. */
  lemma SumLaws(l: Node, r: Node, frac: FractionalPower)
    requires Defined(l, frac) && Defined(r, frac)
    ensures Defined(Binary(Add, l, r), frac) && ValueOf(Binary(Add, l, r), frac) - ValueOf(r, frac) == ValueOf(l, frac)
    ensures Defined(Binary(Sub, l, r), frac) && ValueOf(Binary(Sub, l, r), frac) + ValueOf(r, frac) == ValueOf(l, frac)
  {
    hide Eval;
    Applied(Add, l, r, frac);
    Applied(Sub, l, r, frac);
  }

  lemma Product(l: Node, r: Node, frac: FractionalPower)
    requires Defined(l, frac) && Defined(r, frac)
    ensures Defined(Binary(Mult, l, r), frac)
    ensures ValueOf(Binary(Mult, l, r), frac) == ValueOf(l, frac) * ValueOf(r, frac)
  {
    hide Eval;
    Applied(Mult, l, r, frac);
  }

  /** A product is nothing for zero and its left operand for one; it distributes over sums on the right,
      commutes, and changes sign with an operand. */
  lemma ProductLaws(l: Node, r: Node, s: Node, frac: FractionalPower)
    requires Defined(l, frac) && Defined(r, frac) && Defined(s, frac)
    ensures Defined(Binary(Mult, l, r), frac) && Defined(Binary(Mult, l, s), frac) && Defined(Binary(Mult, r, l), frac)
    ensures Defined(Binary(Mult, l, Num(0.0)), frac) && ValueOf(Binary(Mult, l, Num(0.0)), frac) == 0.0
    ensures Defined(Binary(Mult, l, Num(1.0)), frac) && ValueOf(Binary(Mult, l, Num(1.0)), frac) == ValueOf(l, frac)
    ensures Defined(Binary(Mult, l, Binary(Add, r, s)), frac)
    ensures ValueOf(Binary(Mult, l, Binary(Add, r, s)), frac)
         == ValueOf(Binary(Mult, l, r), frac) + ValueOf(Binary(Mult, l, s), frac)
    ensures ValueOf(Binary(Mult, r, l), frac) == ValueOf(Binary(Mult, l, r), frac)
    ensures Defined(Binary(Mult, Unary(USub, l), r), frac)
    ensures ValueOf(Binary(Mult, Unary(USub, l), r), frac) == -ValueOf(Binary(Mult, l, r), frac)
  {
    hide Eval, ValueOf;
    SignLaws(l, 0.0, frac);
    SignLaws(l, 1.0, frac);
    SumLaws(r, s, frac);
    Product(l, r, frac);
    Product(l, s, frac);
    Product(r, l, frac);
    Product(l, Num(0.0), frac);
    Product(l, Num(1.0), frac);
    Product(l, Binary(Add, r, s), frac);
    Product(Unary(USub, l), r, frac);
    Distributes(ValueOf(l, frac), ValueOf(r, frac), ValueOf(s, frac));
    Commutes(ValueOf(l, frac), ValueOf(r, frac));
  }

  lemma Distributes(a: real, b: real, c: real)
    ensures a * (b + c) == a * b + a * c
    ensures a * (b - c) == a * b - a * c
  {
  }

  lemma Commutes(a: real, b: real)
    ensures a * b == b * a && -a * b == -(a * b)
  {
  }

  /** Nothing divides by zero. A quotient times its divisor is the dividend; floor quotient and remainder
      split the dividend. */
  lemma DivisionLaws(l: Node, r: Node, frac: FractionalPower)
    requires Defined(l, frac) && Defined(r, frac)
    ensures Defined(Binary(Div, l, r), frac) <==> ValueOf(r, frac) != 0.0
    ensures Defined(Binary(FloorDiv, l, r), frac) <==> ValueOf(r, frac) != 0.0
    ensures Defined(Binary(Mod, l, r), frac) <==> ValueOf(r, frac) != 0.0
    ensures ValueOf(r, frac) != 0.0 ==>
      && ValueOf(Binary(Div, l, r), frac) * ValueOf(r, frac) == ValueOf(l, frac)
      && Splits(ValueOf(l, frac), ValueOf(r, frac),
                ValueOf(Binary(FloorDiv, l, r), frac), ValueOf(Binary(Mod, l, r), frac))
  {
    hide Eval, Splits;
    Applied(Div, l, r, frac);
    Applied(FloorDiv, l, r, frac);
    Applied(Mod, l, r, frac);
    var a, b := ValueOf(l, frac), ValueOf(r, frac);
    if b != 0.0 {
      QuotientTimes(a, b);
      Commutes(a / b, b);
      FloorSplits(a, b, a / b, ValueOf(Binary(FloorDiv, l, r), frac), ValueOf(Binary(Mod, l, r), frac));
    }
  }

  /** The quotient is whole, and the remainder lies between zero and the divisor, on the divisor's side. */
  predicate Splits(a: real, b: real, q: real, m: real) {
    && IsInteger(q) && a == b * q + m
    && (b > 0.0 ==> 0.0 <= m < b)
    && (b < 0.0 ==> b < m <= 0.0)
  }

  lemma QuotientTimes(a: real, b: real)
    requires b != 0.0
    ensures (a / b) * b == a
  {
  }

  lemma FloorSplits(a: real, b: real, x: real, q: real, m: real)
    requires b != 0.0 && b * x == a && q == x.Floor as real && m == a - b * q
    ensures Splits(a, b, q, m)
  {
    var d := x - q;
    assert q.Floor == x.Floor && 0.0 <= d < 1.0;
    assert m == b * d by { Distributes(b, x, q); }
    RemainderSize(b, d);
  }

  lemma RemainderSize(b: real, d: real)
    requires 0.0 <= d < 1.0
    ensures b > 0.0 ==> 0.0 <= b * d < b
    ensures b < 0.0 ==> b < b * d <= 0.0
  {
    if b < 0.0 {
      Commutes(b, d);
      assert -b * d == -(b * d);
      Scaled(-b, d);
    } else if b > 0.0 {
      Scaled(b, d);
    }
  }

  lemma Scaled(b: real, d: real)
    requires b > 0.0 && 0.0 <= d < 1.0
    ensures 0.0 <= b * d < b
  {
  }

  /** Powers with a literal integer exponent: one for zero, one more factor for one more, the reciprocal for
      the opposite sign; with a fractional exponent, the given function, for a base that is not negative. */
  lemma PowerLaws(b: Node, n: nat, e: real, frac: FractionalPower)
    requires Defined(b, frac)
    ensures Defined(Raised(b, n), frac) && Defined(Raised(b, n + 1), frac) && Defined(Raised(b, 0), frac)
    ensures ValueOf(Raised(b, 0), frac) == 1.0
    ensures ValueOf(Raised(b, n + 1), frac) == ValueOf(b, frac) * ValueOf(Raised(b, n), frac)
    ensures n > 0 ==> (Defined(Raised(b, 0 - n), frac) <==> ValueOf(b, frac) != 0.0)
    ensures n > 0 && ValueOf(b, frac) != 0.0 ==> ValueOf(Raised(b, 0 - n), frac) * ValueOf(Raised(b, n), frac) == 1.0
    ensures !IsInteger(e) && ValueOf(b, frac) > 0.0 ==>
      Eval(Binary(Pow, b, Num(e)), frac) == Some(frac(ValueOf(b, frac), e))
    ensures !IsInteger(e) && ValueOf(b, frac) < 0.0 ==> !Defined(Binary(Pow, b, Num(e)), frac)
  {
    hide Eval, Power;
    var a := ValueOf(b, frac);
    IntegerRaised(b, n, frac);
    IntegerRaised(b, n + 1, frac);
    IntegerRaised(b, 0, frac);
    PowerStep(a, n);
    SignLaws(b, e, frac);
    Applied(Pow, b, Num(e), frac);
    if n > 0 {
      SignLaws(b, (0 - n) as real, frac);
      Applied(Pow, b, Num((0 - n) as real), frac);
      if a != 0.0 {
        NegativePower(a, n, frac);
        QuotientTimes(1.0, Power(a, n));
      }
    }
  }

  function Raised(b: Node, n: int): Node {
    Binary(Pow, b, Num(n as real))
  }

  lemma PowerStep(a: real, n: nat)
    ensures Power(a, 0) == 1.0 && Power(a, n + 1) == a * Power(a, n)
  {
  }

  lemma IntegerRaised(b: Node, n: nat, frac: FractionalPower)
    requires Defined(b, frac)
    ensures Eval(Raised(b, n), frac) == Some(Power(ValueOf(b, frac), n))
  {
    hide Power;
    IntegerPower(ValueOf(b, frac), n, frac);
  }

  lemma IntegerPower(a: real, n: nat, frac: FractionalPower)
    ensures MathPow(a, n as real, frac) == Some(Power(a, n))
  {
    hide Power;
    assert (n as real).Floor == n;
  }

  lemma NegativePower(a: real, n: nat, frac: FractionalPower)
    requires a != 0.0 && n > 0
    ensures Power(a, n) != 0.0
    ensures MathPow(a, (0 - n) as real, frac) == Some(1.0 / Power(a, n))
  {
    hide Power;
    PowerNonZero(a, n);
    var e: real := (0 - n) as real;
    assert e.Floor == 0 - n && IsInteger(e);
  }

  // ---- Integer fractions ----

  /** A fraction whose denominator is not zero. */
  datatype Fraction = Fraction(num: int, den: int)

  function IntPower(b: int, n: nat): int {
    if n == 0 then 1 else b * IntPower(b, n - 1)
  }

  function Plus(f: Fraction, g: Fraction): Fraction {
    Fraction(f.num * g.den + g.num * f.den, f.den * g.den)
  }

  function Minus(f: Fraction, g: Fraction): Fraction {
    Fraction(f.num * g.den - g.num * f.den, f.den * g.den)
  }

  function Times(f: Fraction, g: Fraction): Fraction {
    Fraction(f.num * g.num, f.den * g.den)
  }

  /** The number of a tree of integer literals without division, computed in integers only. */
  function Meaning(n: Node): Fraction {
    match n
    case Expression(body) => Meaning(body)
    case Num(value) => Fraction(value.Floor, 1)
    case Unary(op, operand) =>
      var f := Meaning(operand);
      if op.USub? then Fraction(-f.num, f.den) else f
    case Binary(op, left, right) =>
      var f, g := Meaning(left), Meaning(right);
      if op.Add? then Plus(f, g)
      else if op.Sub? then Minus(f, g)
      else if op.Mult? then Times(f, g)
      else if g.num >= 0 then Fraction(IntPower(f.num, g.num), 1)
      else Fraction(1, IntPower(f.num, -g.num))
    case _ => Fraction(0, 1)
  }

  /** The value times the denominator is the numerator. */
  predicate Equals(v: Option<real>, f: Fraction) {
    f.den != 0 && v.Some? && v.value * f.den as real == f.num as real
  }

  lemma {:induction false} PowerOfInt(b: int, n: nat)
    ensures Power(b as real, n) == IntPower(b, n) as real
  {
    if n > 0 {
      PowerOfInt(b, n - 1);
      ProductOfInts(b, IntPower(b, n - 1));
    }
  }

  lemma ProductOfInts(a: int, b: int)
    ensures (a * b) as real == a as real * b as real
  {
  }

  lemma {:induction false} ConstantMeaning(n: Node, m: real)
    requires IntegerTree(n, m) && ResolveConstant(n).Some?
    ensures IsInteger(ResolveConstant(n).value)
    ensures Meaning(n) == Fraction(ResolveConstant(n).value.Floor, 1)
  {
    if n.Unary? {
      ConstantMeaning(n.operand, m);
      var v := ResolveConstant(n.operand).value;
      assert (-v).Floor == -(v.Floor) by { assert v == v.Floor as real; }
    }
  }

  lemma {:induction false} PowerMeaning(left: Node, right: Node, m: real, frac: FractionalPower)
    requires IntegerTree(left, m) && IntegerTree(right, m) && PowerAllowed(left, right)
    ensures Equals(Eval(Binary(Pow, left, right), frac), Meaning(Binary(Pow, left, right)))
  {
    hide IntegerTree, Eval, MathPow, IntPower, Power, Equals;
    ConstantEval(left, frac);
    ConstantEval(right, frac);
    ConstantMeaning(left, m);
    ConstantMeaning(right, m);
    Applied(Pow, left, right, frac);
    var base, n := ResolveConstant(left).value.Floor, ResolveConstant(right).value.Floor;
    assert ResolveConstant(left).value == base as real && ResolveConstant(right).value == n as real;
    IntegerFraction(base, n, frac);
  }

  lemma IntegerFraction(base: int, n: int, frac: FractionalPower)
    requires base != 0 || n >= 0
    ensures Equals(MathPow(base as real, n as real, frac),
                   if n >= 0 then Fraction(IntPower(base, n), 1) else Fraction(1, IntPower(base, -n)))
  {
    hide IntPower, Power;
    if n >= 0 {
      PowerOfInt(base, n);
      IntegerPower(base as real, n, frac);
    } else {
      PowerOfInt(base, -n);
      NegativePower(base as real, -n, frac);
      QuotientTimes(1.0, Power(base as real, -n));
    }
  }

  lemma SumOfFractions(v: real, f: Fraction, w: real, g: Fraction)
    requires Equals(Some(v), f) && Equals(Some(w), g)
    ensures Equals(Some(v + w), Plus(f, g)) && Equals(Some(v - w), Minus(f, g))
  {
    var c, d := f.den as real, g.den as real;
    NotZero(f.den, g.den);
    ProductOfInts(f.den, g.den);
    ProductOfInts(f.num, g.den);
    ProductOfInts(g.num, f.den);
    assert v * (c * d) == f.num as real * d by { Regroup(v, c, d); }
    assert w * (c * d) == g.num as real * c by { Regroup(w, d, c); Commutes(c, d); }
    Distributes(c * d, v, w);
    Distributes(c * d, v, -w);
    Commutes(w, c * d);
    Commutes(v + w, c * d);
    Commutes(v - w, c * d);
    Commutes(v, c * d);
  }

  lemma Regroup(a: real, b: real, c: real)
    ensures a * (b * c) == (a * b) * c
  {
  }

  lemma NotZero(a: int, b: int)
    requires a != 0 && b != 0
    ensures a * b != 0
  {
  }

  lemma ProductOfFractions(v: real, f: Fraction, w: real, g: Fraction, p: real)
    requires Equals(Some(v), f) && Equals(Some(w), g) && p == v * w
    ensures Equals(Some(p), Times(f, g))
  {
    var c, d := f.den as real, g.den as real;
    NotZero(f.den, g.den);
    ProductOfInts(f.den, g.den);
    ProductOfInts(f.num, g.num);
    calc {
      (v * w) * (c * d);
      { Regroup(v * w, c, d); }
      ((v * w) * c) * d;
      { Regroup(v, w, c); Commutes(w, c); Regroup(v, c, w); }
      ((v * c) * w) * d;
      { Regroup(v * c, w, d); }
      (v * c) * (w * d);
    }
  }

  /** On accepted trees of integer literals without division, the evaluator computes the same number as
      integer fractions do. */
  lemma {:induction false} MeaningIs(n: Node, m: real, frac: FractionalPower)
    requires WellPowered(n) && IntegerTree(n, m)
    ensures Equals(Eval(n, frac), Meaning(n))
  {
    hide PowerAllowed, MathPow, Equals, Plus, Minus, Times;
    match n
    case Expression(body) => MeaningIs(body, m, frac);
    case Num(value) => LiteralMeaning(value);
    case Unary(op, operand) =>
      MeaningIs(operand, m, frac);
      HasValue(Eval(operand, frac), Meaning(operand));
      NegatedMeaning(Eval(operand, frac), Meaning(operand));
    case Binary(op, left, right) =>
      if op.Pow? {
        PowerMeaning(left, right, m, frac);
      } else {
        MeaningIs(left, m, frac);
        MeaningIs(right, m, frac);
        HasValue(Eval(left, frac), Meaning(left));
        HasValue(Eval(right, frac), Meaning(right));
        SumOfFractions(Eval(left, frac).value, Meaning(left), Eval(right, frac).value, Meaning(right));
        Applied(op, left, right, frac);
        if op.Mult? {
          ProductOfFractions(
            Eval(left, frac).value, Meaning(left), Eval(right, frac).value, Meaning(right), Eval(n, frac).value);
        }
      }
    case _ =>
  }

  lemma HasValue(v: Option<real>, f: Fraction)
    requires Equals(v, f)
    ensures v.Some? && Equals(Some(v.value), f)
  {
  }

  lemma LiteralMeaning(value: real)
    requires IsInteger(value)
    ensures Equals(Some(value), Fraction(value.Floor, 1))
  {
  }

  lemma NegatedMeaning(v: Option<real>, f: Fraction)
    requires Equals(v, f)
    ensures Equals(Some(-v.value), Fraction(-f.num, f.den)) && Equals(Some(v.value), f)
  {
    Commutes(v.value, f.den as real);
  }

  /** The math tool on a parsed tree: guard first, then evaluate. */
  method SolveMath(tree: Node, frac: FractionalPower) returns (result: Option<real>)
    ensures result.Some? <==> Acceptable(tree) && !Faulty(tree, frac)
    ensures result.Some? ==> result == Eval(tree, frac)
    ensures forall m: real | result.Some? && IntegerTree(tree, m) :: Equals(result, Meaning(tree))
  {
    hide Walked, Eval, Faulty, Acceptable, IntegerTree, Meaning;
    var guard := new Guard();
    var refused := guard.Walk(tree, 0);
    AcceptedIff(tree, StaticValue);
    if refused.Some? {
      return None;
    }
    assert WellPowered(tree) by { AcceptableParts(tree); }
    EvaluatesIff(tree, frac);
    result := Eval(tree, frac);
    forall m: real | IntegerTree(tree, m) ensures Equals(result, Meaning(tree)) {
      MeaningIs(tree, m, frac);
    }
  }

  lemma AcceptableParts(n: Node)
    requires Acceptable(n)
    ensures WellPowered(n)
  {
  }
}
