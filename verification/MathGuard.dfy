/** The math tool's guard and evaluator (src/vcse/agent/tools.py), from the syntax tree on, over
    exact reals: which trees the counting walk lets through, and what evaluation can then yield. */
module MathGuard {
  import opened Json

  const MAX_MATH_AST_NODES := 64
  const MAX_MATH_BINARY_OPS := 32
  const MAX_MATH_POWER_EXPONENT := 12
  const MAX_MATH_POWER_BASE_ABS := 1_000_000
  const MAX_MATH_POWER_NESTED_DEPTH := 2
  const MAX_STATIC_NODES := 16

  datatype UnaryOp = UAdd | USub | OtherUnary

  datatype BinaryOp = Add | Sub | Mult | Div | FloorDiv | Mod | Pow | OtherBinary

  datatype Node =
    | Expression(body: Node)
    | Num(value: real)
    | OtherConstant
    | Unary(uop: UnaryOp, operand: Node)
    | Binary(bop: BinaryOp, left: Node, right: Node)
    | Unsupported

  function Abs(x: real): (r: real)
    ensures r >= 0.0
  {
    if x < 0.0 then -x else x
  }

  predicate IsInteger(x: real) {
    x.Floor as real == x
  }

  /** `_resolve_numeric_constant`: a number under any number of signs. */
  function ResolveConstant(n: Node): Option<real> {
    match n
    case Num(value) => Some(value)
    case Unary(op, operand) =>
      var inner := ResolveConstant(operand);
      if op.OtherUnary? || inner.None? then None else Some(if op.USub? then -inner.value else inner.value)
    case _ => None
  }

  // ---- Arithmetic ----

  function FloorDivide(l: real, r: real): real
    requires r != 0.0
  {
    (l / r).Floor as real
  }

  function Power(b: real, n: nat): real {
    if n == 0 then 1.0 else b * Power(b, n - 1)
  }

  /** Real powers with a fractional exponent, on a base that is not negative: left uninterpreted. */
  type FractionalPower = (real, real) -> real

  /** `math.pow`; `None` is the error it raises. */
  function MathPow(l: real, r: real, frac: FractionalPower): Option<real> {
    if l == 0.0 && r < 0.0 then None
    else if IsInteger(r) then
      var n := r.Floor;
      if n >= 0 then Some(Power(l, n))
      else
        PowerNonZero(l, -n);
        Some(1.0 / Power(l, -n))
    else if l < 0.0 then None
    else Some(frac(l, r))
  }

  lemma {:induction false} PowerNonZero(b: real, n: nat)
    requires b != 0.0
    ensures Power(b, n) != 0.0
  {
    if n > 0 {
      PowerNonZero(b, n - 1);
    }
  }

  function Apply(op: BinaryOp, l: real, r: real, frac: FractionalPower): Option<real> {
    match op
    case Add => Some(l + r)
    case Sub => Some(l - r)
    case Mult => Some(l * r)
    case Div => if r == 0.0 then None else Some(l / r)
    case FloorDiv => if r == 0.0 then None else Some(FloorDivide(l, r))
    case Mod => if r == 0.0 then None else Some(l - r * FloorDivide(l, r))
    case Pow => MathPow(l, r, frac)
    case OtherBinary => None
  }

  /** `_eval_math_ast`; `None` is the error it raises. */
  function Eval(n: Node, frac: FractionalPower): Option<real> {
    match n
    case Expression(body) => Eval(body, frac)
    case Num(value) => Some(value)
    case Unary(op, operand) =>
      var inner := Eval(operand, frac);
      if op.OtherUnary? || inner.None? then None else Some(if op.USub? then -inner.value else inner.value)
    case Binary(op, left, right) =>
      var l, r := Eval(left, frac), Eval(right, frac);
      if l.Some? && r.Some? then Apply(op, l.value, r.value, frac) else None
    case _ => None
  }

  // ---- The static evaluation of a power's base ----

  /** `_eval_static_base`: the value and the nodes visited, or `None` when it raises. */
  function StaticBase(n: Node, visited: nat): Option<(real, nat)> {
    if visited + 1 > MAX_STATIC_NODES then None
    else if ResolveConstant(n).Some? then Some((ResolveConstant(n).value, visited + 1))
    else if n.Binary? && !n.bop.Pow? && !n.bop.OtherBinary? then
      match StaticBase(n.left, visited + 1)
      case None => None
      case Some(l) =>
        match StaticBase(n.right, l.1)
        case None => None
        case Some(r) =>
          var v := Apply(n.bop, l.0, r.0, (x, y) => 0.0);
          if v.Some? then Some((v.value, r.1)) else None
    else None
  }

  // ---- The walk ----

  predicate PowerAllowed(left: Node, right: Node) {
    var e, b := ResolveConstant(right), ResolveConstant(left);
    && e.Some? && Abs(e.value) <= MAX_MATH_POWER_EXPONENT as real
    && b.Some? && Abs(b.value) <= MAX_MATH_POWER_BASE_ABS as real
    && !(b.value == 0.0 && e.value < 0.0)
    && !(b.value < 0.0 && !IsInteger(e.value))
  }

  /** Why the walk raises. */
  datatype Refusal =
    | TooManyNodes
    | UnsupportedSyntax
    | NotNumeric
    | TooManyOperations
    | NestedTooDeep
    | ExponentNotConstant
    | ExponentTooLarge
    | BaseUnbounded
    | BaseTooLarge
    | BaseNotConstant
    | ZeroToNegative
    | NegativeToFraction

  /** A way to evaluate a base statically; `None` is any error it raises. */
  type StaticEvaluator = Node -> Option<real>

  function StaticValue(n: Node): Option<real> {
    var v := StaticBase(n, 0);
    if v.None? then None else Some(v.value.0)
  }

  /** The checks on a power, in order; a base that is no signed constant is evaluated first. */
  function PowerCheck(left: Node, right: Node, evaluator: StaticEvaluator): Option<Refusal> {
    var e, b := ResolveConstant(right), ResolveConstant(left);
    if e.None? then Some(ExponentNotConstant)
    else if Abs(e.value) > MAX_MATH_POWER_EXPONENT as real then Some(ExponentTooLarge)
    else if b.None? then
      var v := evaluator(left);
      if v.None? then Some(BaseUnbounded)
      else if Abs(v.value) > MAX_MATH_POWER_BASE_ABS as real then Some(BaseTooLarge)
      else Some(BaseNotConstant)
    else if Abs(b.value) > MAX_MATH_POWER_BASE_ABS as real then Some(BaseTooLarge)
    else if b.value == 0.0 && e.value < 0.0 then Some(ZeroToNegative)
    else if b.value < 0.0 && !IsInteger(e.value) then Some(NegativeToFraction)
    else None
  }

  /** Whatever the static evaluator says, only powers between allowed constants pass. */
  lemma PowerCheckIff(left: Node, right: Node, evaluator: StaticEvaluator)
    ensures PowerCheck(left, right, evaluator).None? <==> PowerAllowed(left, right)
    ensures PowerAllowed(left, right) <==>
      var e, b := ResolveConstant(right), ResolveConstant(left);
      e.Some? && b.Some? && -12.0 <= e.value <= 12.0 && -1_000_000.0 <= b.value <= 1_000_000.0
      && (b.value == 0.0 ==> e.value >= 0.0) && (b.value < 0.0 ==> IsInteger(e.value))
  {
  }

  /** The counters after a walk, or why it raised. */
  datatype Verdict = Passed(nodes: nat, binops: nat) | Refused(reason: Refusal)

  /** The walk over `n`, from the given depth and counters. */
  function Walked(n: Node, depth: nat, nodes: nat, binops: nat, evaluator: StaticEvaluator): Verdict
    decreases n
  {
    if nodes + 1 > MAX_MATH_AST_NODES then Refused(TooManyNodes)
    else
      match n
      case Unsupported => Refused(UnsupportedSyntax)
      case OtherConstant => Refused(NotNumeric)
      case Num(_) => Passed(nodes + 1, binops)
      case Expression(body) => Walked(body, depth, nodes + 1, binops, evaluator)
      case Unary(_, operand) => Walked(operand, depth, nodes + 1, binops, evaluator)
      case Binary(op, left, right) =>
        if binops + 1 > MAX_MATH_BINARY_OPS then Refused(TooManyOperations)
        else if op.Pow? && depth + 1 > MAX_MATH_POWER_NESTED_DEPTH then Refused(NestedTooDeep)
        else if op.Pow? && PowerCheck(left, right, evaluator).Some? then
          Refused(PowerCheck(left, right, evaluator).value)
        else
          var next := if op.Pow? then depth + 1 else depth;
          match Walked(left, next, nodes + 1, binops + 1, evaluator)
          case Refused(reason) => Refused(reason)
          case Passed(nodes', binops') => Walked(right, next, nodes', binops', evaluator)
  }

  /** The counters the nested walk shares. */
  class Guard {
    var nodeCount: nat
    var binopCount: nat

    constructor ()
      ensures nodeCount == 0 && binopCount == 0
    {
      nodeCount, binopCount := 0, 0;
    }

    /** `walk`; the result is `None` when it returns, or why it raises. */
    method Walk(n: Node, depth: nat) returns (refused: Option<Refusal>)
      modifies this
      ensures var verdict := Walked(n, depth, old(nodeCount), old(binopCount), StaticValue);
        if verdict.Refused? then refused == Some(verdict.reason)
        else refused == None && verdict == Passed(nodeCount, binopCount)
      decreases n
    {
      hide StaticBase, ResolveConstant;
      nodeCount := nodeCount + 1;
      if nodeCount > MAX_MATH_AST_NODES { return Some(TooManyNodes); }
      if n.Unsupported? { return Some(UnsupportedSyntax); }
      if n.OtherConstant? { return Some(NotNumeric); }
      if n.Num? { return None; }
      if n.Binary? {
        binopCount := binopCount + 1;
        if binopCount > MAX_MATH_BINARY_OPS { return Some(TooManyOperations); }
        var next := depth;
        if n.bop.Pow? {
          next := depth + 1;
          if next > MAX_MATH_POWER_NESTED_DEPTH { return Some(NestedTooDeep); }
          var exponent := ResolveConstant(n.right);
          if exponent.None? { return Some(ExponentNotConstant); }
          if Abs(exponent.value) > MAX_MATH_POWER_EXPONENT as real { return Some(ExponentTooLarge); }
          var base := ResolveConstant(n.left);
          if base.None? {
            base := StaticValue(n.left);
            if base.None? { return Some(BaseUnbounded); }
            if Abs(base.value) > MAX_MATH_POWER_BASE_ABS as real { return Some(BaseTooLarge); }
            return Some(BaseNotConstant);
          }
          if Abs(base.value) > MAX_MATH_POWER_BASE_ABS as real { return Some(BaseTooLarge); }
          if base.value == 0.0 && exponent.value < 0.0 { return Some(ZeroToNegative); }
          if base.value < 0.0 && !IsInteger(exponent.value) { return Some(NegativeToFraction); }
        }
        refused := Walk(n.left, next);
        if refused.Some? { return; }
        refused := Walk(n.right, next);
        return;
      }
      refused := Walk(if n.Unary? then n.operand else n.body, depth);
    }
  }

  // ---- Which trees pass ----

  function Size(n: Node): nat {
    match n
    case Expression(body) => 1 + Size(body)
    case Unary(_, operand) => 1 + Size(operand)
    case Binary(_, left, right) => 1 + Size(left) + Size(right)
    case _ => 1
  }

  function Binops(n: Node): nat {
    match n
    case Expression(body) => Binops(body)
    case Unary(_, operand) => Binops(operand)
    case Binary(_, left, right) => 1 + Binops(left) + Binops(right)
    case _ => 0
  }

  /** Supported syntax, numeric constants, and every power between bounded signed constants. */
  predicate WellPowered(n: Node) {
    match n
    case Expression(body) => WellPowered(body)
    case Num(_) => true
    case Unary(_, operand) => WellPowered(operand)
    case Binary(op, left, right) => (op.Pow? ==> PowerAllowed(left, right)) && WellPowered(left) && WellPowered(right)
    case _ => false
  }

  predicate Acceptable(n: Node) {
    Size(n) <= MAX_MATH_AST_NODES && Binops(n) <= MAX_MATH_BINARY_OPS && WellPowered(n)
  }

  /** Powers nested below one another. */
  function PowDepth(n: Node): nat {
    match n
    case Expression(body) => PowDepth(body)
    case Unary(_, operand) => PowDepth(operand)
    case Binary(op, left, right) =>
      var below := if PowDepth(left) > PowDepth(right) then PowDepth(left) else PowDepth(right);
      if op.Pow? then 1 + below else below
    case _ => 0
  }

  lemma {:induction false} ConstantShape(n: Node)
    requires ResolveConstant(n).Some?
    ensures WellPowered(n) && Binops(n) == 0 && PowDepth(n) == 0
  {
    if n.Unary? {
      ConstantShape(n.operand);
    }
  }

  /** No accepted tree has a power below a power, so the nesting limit never decides. */
  lemma {:induction false} NoNestedPowers(n: Node)
    requires WellPowered(n)
    ensures PowDepth(n) <= 1
  {
    hide PowerAllowed;
    match n
    case Expression(body) => NoNestedPowers(body);
    case Unary(_, operand) => NoNestedPowers(operand);
    case Binary(op, left, right) =>
      if op.Pow? {
        PowerConstants(left, right);
        ConstantShape(left);
        ConstantShape(right);
      } else {
        NoNestedPowers(left);
        NoNestedPowers(right);
      }
    case _ =>
  }

  lemma PowerConstants(left: Node, right: Node)
    requires PowerAllowed(left, right)
    ensures ResolveConstant(left).Some? && ResolveConstant(right).Some?
  {
  }

  /** A walk that returns has counted every node and operation, and met only allowed powers. */
  lemma {:induction false} WalkedSound(n: Node, depth: nat, nodes: nat, binops: nat, evaluator: StaticEvaluator)
    requires Walked(n, depth, nodes, binops, evaluator).Passed?
    ensures WellPowered(n)
    ensures Walked(n, depth, nodes, binops, evaluator) == Passed(nodes + Size(n), binops + Binops(n))
    ensures nodes + Size(n) <= MAX_MATH_AST_NODES
    ensures binops <= MAX_MATH_BINARY_OPS ==> binops + Binops(n) <= MAX_MATH_BINARY_OPS
  {
    hide PowerAllowed, PowerCheck;
    match n
    case Expression(body) => WalkedSound(body, depth, nodes + 1, binops, evaluator);
    case Unary(_, operand) => WalkedSound(operand, depth, nodes + 1, binops, evaluator);
    case Binary(op, left, right) =>
      var next := if op.Pow? then depth + 1 else depth;
      PowerCheckIff(left, right, evaluator);
      WalkedSound(left, next, nodes + 1, binops + 1, evaluator);
      var counts := Walked(left, next, nodes + 1, binops + 1, evaluator);
      WalkedSound(right, next, counts.nodes, counts.binops, evaluator);
    case _ =>
  }

  /** Nothing else stops a walk, as long as the depth leaves room for the powers below. */
  lemma {:induction false} WalkedComplete(n: Node, depth: nat, nodes: nat, binops: nat, evaluator: StaticEvaluator)
    requires WellPowered(n) && depth + PowDepth(n) <= MAX_MATH_POWER_NESTED_DEPTH
    requires nodes + Size(n) <= MAX_MATH_AST_NODES && binops + Binops(n) <= MAX_MATH_BINARY_OPS
    ensures Walked(n, depth, nodes, binops, evaluator) == Passed(nodes + Size(n), binops + Binops(n))
  {
    hide PowerAllowed, PowerCheck;
    match n
    case Expression(body) => WalkedComplete(body, depth, nodes + 1, binops, evaluator);
    case Unary(_, operand) => WalkedComplete(operand, depth, nodes + 1, binops, evaluator);
    case Binary(op, left, right) =>
      var next := if op.Pow? then depth + 1 else depth;
      PowerCheckIff(left, right, evaluator);
      WalkedComplete(left, next, nodes + 1, binops + 1, evaluator);
      WalkedComplete(right, next, nodes + 1 + Size(left), binops + 1 + Binops(left), evaluator);
    case _ =>
  }

  /** The counting walk with its early exits accepts exactly the trees of a plain predicate. */
  lemma {:induction false} AcceptedIff(n: Node, evaluator: StaticEvaluator)
    ensures Walked(n, 0, 0, 0, evaluator).Passed? <==> Acceptable(n)
    ensures Acceptable(n) <==> Size(n) <= 64 && Binops(n) <= 32 && WellPowered(n)
  {
    if Walked(n, 0, 0, 0, evaluator).Passed? {
      WalkedSound(n, 0, 0, 0, evaluator);
    }
    if Acceptable(n) {
      NoNestedPowers(n);
      WalkedComplete(n, 0, 0, 0, evaluator);
    }
  }

  predicate BlamesOpenBase(v: Verdict) {
    v.Refused? && (v.reason.BaseUnbounded? || v.reason.BaseTooLarge? || v.reason.BaseNotConstant?)
  }

  /** The static evaluator never decides whether a tree passes, nor what is counted: put any other in its
      place, and a verdict changes at most in which of three ways it blames the base of a power. */
  lemma {:induction false} EvaluatorIrrelevant(
      n: Node, depth: nat, nodes: nat, binops: nat, one: StaticEvaluator, other: StaticEvaluator)
    ensures var v, u := Walked(n, depth, nodes, binops, one), Walked(n, depth, nodes, binops, other);
      v == u || (BlamesOpenBase(v) && BlamesOpenBase(u))
  {
    hide ResolveConstant;
    if nodes + 1 <= MAX_MATH_AST_NODES {
      match n
      case Expression(body) => EvaluatorIrrelevant(body, depth, nodes + 1, binops, one, other);
      case Unary(_, operand) => EvaluatorIrrelevant(operand, depth, nodes + 1, binops, one, other);
      case Binary(op, left, right) =>
        var next := if op.Pow? then depth + 1 else depth;
        EvaluatorIrrelevant(left, next, nodes + 1, binops + 1, one, other);
        var counts := Walked(left, next, nodes + 1, binops + 1, one);
        if counts.Passed? {
          EvaluatorIrrelevant(right, next, counts.nodes, counts.binops, one, other);
        }
      case _ =>
    }
  }

  /** Some power, anywhere in the tree, has a base that is no signed constant. */
  predicate HasOpenBase(n: Node) {
    match n
    case Expression(body) => HasOpenBase(body)
    case Unary(_, operand) => HasOpenBase(operand)
    case Binary(op, left, right) => (op.Pow? && ResolveConstant(left).None?) || HasOpenBase(left) || HasOpenBase(right)
    case _ => false
  }

  lemma {:induction false} OpenBaseNotPowered(n: Node)
    ensures HasOpenBase(n) ==> !WellPowered(n)
  {
    match n
    case Expression(body) => OpenBaseNotPowered(body);
    case Unary(_, operand) => OpenBaseNotPowered(operand);
    case Binary(_, left, right) =>
      OpenBaseNotPowered(left);
      OpenBaseNotPowered(right);
    case _ =>
  }

  /** A tree with such a base anywhere is refused, whatever the base evaluates to. */
  lemma {:induction false} OpenBaseRefused(n: Node, evaluator: StaticEvaluator)
    ensures HasOpenBase(n) ==> Walked(n, 0, 0, 0, evaluator).Refused?
  {
    OpenBaseNotPowered(n);
    AcceptedIff(n, evaluator);
  }

  // ---- What evaluation yields ----

  predicate Zero(v: Option<real>) {
    v == Some(0.0)
  }

  /** Some evaluated operation divides by zero or is not supported. */
  predicate Faulty(n: Node, frac: FractionalPower) {
    match n
    case Expression(body) => Faulty(body, frac)
    case Unary(op, operand) => op.OtherUnary? || Faulty(operand, frac)
    case Binary(op, left, right) =>
      || Faulty(left, frac) || Faulty(right, frac) || op.OtherBinary?
      || ((op.Div? || op.FloorDiv? || op.Mod?) && Zero(Eval(right, frac)))
    case _ => false
  }

  lemma {:induction false} ConstantEval(n: Node, frac: FractionalPower)
    requires ResolveConstant(n).Some?
    ensures Eval(n, frac) == ResolveConstant(n)
    ensures !Faulty(n, frac)
  {
    if n.Unary? {
      ConstantEval(n.operand, frac);
    }
  }

  lemma {:induction false} PowerDefined(left: Node, right: Node, frac: FractionalPower)
    requires PowerAllowed(left, right)
    ensures Eval(Binary(Pow, left, right), frac).Some?
  {
    ConstantEval(left, frac);
    ConstantEval(right, frac);
  }

  /** Every power of the tree has a value, taken by itself. */
  predicate PowersHaveValues(n: Node, frac: FractionalPower) {
    match n
    case Expression(body) => PowersHaveValues(body, frac)
    case Unary(_, operand) => PowersHaveValues(operand, frac)
    case Binary(op, left, right) =>
      (op.Pow? ==> Eval(n, frac).Some?) && PowersHaveValues(left, frac) && PowersHaveValues(right, frac)
    case _ => true
  }

  /** In an accepted tree every power, anywhere, has a defined value. */
  lemma {:induction false} PowersDefined(n: Node, frac: FractionalPower)
    requires WellPowered(n)
    ensures PowersHaveValues(n, frac)
  {
    hide PowerAllowed, MathPow;
    match n
    case Expression(body) => PowersDefined(body, frac);
    case Unary(_, operand) => PowersDefined(operand, frac);
    case Binary(op, left, right) =>
      PowersDefined(left, frac);
      PowersDefined(right, frac);
      if op.Pow? {
        PowerDefined(left, right, frac);
      }
    case _ =>
  }

  /** An accepted tree evaluates without an error exactly when it neither divides by zero nor uses an
      operator the evaluator lacks: its powers never fail. */
  lemma {:induction false} EvaluatesIff(n: Node, frac: FractionalPower)
    requires WellPowered(n)
    ensures Eval(n, frac).Some? <==> !Faulty(n, frac)
  {
    hide PowerAllowed, MathPow;
    match n
    case Expression(body) => EvaluatesIff(body, frac);
    case Unary(_, operand) => EvaluatesIff(operand, frac);
    case Binary(op, left, right) =>
      EvaluatesIff(left, frac);
      EvaluatesIff(right, frac);
      if op.Pow? {
        PowerDefined(left, right, frac);
      }
    case _ =>
  }

  // ---- The size of the result ----

  /** Integer literals of magnitude at most `m`, and no division, modulo or unsupported operator. */
  predicate IntegerTree(n: Node, m: real) {
    match n
    case Expression(body) => IntegerTree(body, m)
    case Num(value) => IsInteger(value) && Abs(value) <= m
    case Unary(op, operand) => !op.OtherUnary? && IntegerTree(operand, m)
    case Binary(op, left, right) =>
      (op.Add? || op.Sub? || op.Mult? || op.Pow?) && IntegerTree(left, m) && IntegerTree(right, m)
    case _ => false
  }

  function PowerCap(): real {
    Power(MAX_MATH_POWER_BASE_ABS as real, MAX_MATH_POWER_EXPONENT)
  }

  function MaxReal(a: real, b: real): real {
    if a < b then b else a
  }

  /** Leaves and powers: the operands that sums and products combine. */
  function Units(n: Node): (u: nat)
    ensures u >= 1
  {
    match n
    case Expression(body) => Units(body)
    case Unary(_, operand) => Units(operand)
    case Binary(op, left, right) => if op.Pow? then 1 else Units(left) + Units(right)
    case _ => 1
  }

  lemma {:induction false} UnitsAtMost(n: Node)
    ensures Units(n) <= Binops(n) + 1
  {
    match n
    case Expression(body) => UnitsAtMost(body);
    case Unary(_, operand) => UnitsAtMost(operand);
    case Binary(_, left, right) =>
      UnitsAtMost(left);
      UnitsAtMost(right);
    case _ =>
  }

  lemma ProductMonotone(a: real, b: real, c: real, d: real)
    requires 0.0 <= a <= c && 0.0 <= b <= d
    ensures 0.0 <= a * b <= c * d
  {
    assert a * b <= c * b <= c * d;
  }

  lemma AbsProduct(a: real, b: real)
    ensures Abs(a * b) == Abs(a) * Abs(b)
  {
  }

  lemma {:induction false} PowerAbs(b: real, c: real, n: nat)
    requires Abs(b) <= c
    ensures Abs(Power(b, n)) <= Power(c, n)
  {
    if n > 0 {
      PowerAbs(b, c, n - 1);
      AbsProduct(b, Power(b, n - 1));
      ProductMonotone(Abs(b), Abs(Power(b, n - 1)), c, Power(c, n - 1));
    }
  }

  lemma {:induction false} PowerGrows(b: real, m: nat, n: nat)
    requires b >= 1.0 && m <= n
    ensures 1.0 <= Power(b, m) <= Power(b, n)
    decreases n
  {
    if m < n {
      PowerGrows(b, m, n - 1);
      ProductMonotone(1.0, Power(b, n - 1), b, Power(b, n - 1));
    } else if n > 0 {
      PowerGrows(b, m - 1, n - 1);
      ProductMonotone(1.0, 1.0, b, Power(b, n - 1));
    }
  }

  lemma {:induction false} PowerAdds(b: real, m: nat, n: nat)
    ensures Power(b, m + n) == Power(b, m) * Power(b, n)
  {
    if m > 0 {
      PowerAdds(b, m - 1, n);
      assert b * (Power(b, m - 1) * Power(b, n)) == (b * Power(b, m - 1)) * Power(b, n);
    }
  }

  lemma {:induction false} PowerAtLeastOne(b: real, n: nat)
    requires Abs(b) >= 1.0
    ensures Abs(Power(b, n)) >= 1.0
  {
    if n > 0 {
      PowerAtLeastOne(b, n - 1);
      AbsProduct(b, Power(b, n - 1));
      ProductMonotone(1.0, 1.0, Abs(b), Abs(Power(b, n - 1)));
    }
  }

  lemma NegatedInteger(v: real)
    requires IsInteger(v)
    ensures IsInteger(-v)
  {
    var k := v.Floor;
    assert -v == (-k) as real;
  }

  lemma {:induction false} ConstantInteger(n: Node, m: real)
    requires IntegerTree(n, m) && ResolveConstant(n).Some?
    ensures IsInteger(ResolveConstant(n).value)
  {
    hide IsInteger, Abs;
    if n.Unary? {
      ConstantInteger(n.operand, m);
      NegatedInteger(ResolveConstant(n.operand).value);
    }
  }

  lemma ReciprocalAtMostOne(x: real)
    requires Abs(x) >= 1.0
    ensures x != 0.0 && Abs(1.0 / x) <= 1.0
  {
  }

  lemma {:induction false} MathPowBounded(b: real, e: real, frac: FractionalPower)
    requires IsInteger(b) && IsInteger(e)
    requires Abs(b) <= MAX_MATH_POWER_BASE_ABS as real && Abs(e) <= MAX_MATH_POWER_EXPONENT as real
    requires !(b == 0.0 && e < 0.0)
    ensures MathPow(b, e, frac).Some? && Abs(MathPow(b, e, frac).value) <= PowerCap()
  {
    hide Power;
    var n := e.Floor;
    var base := MAX_MATH_POWER_BASE_ABS as real;
    PowerGrows(base, 0, MAX_MATH_POWER_EXPONENT);
    if n >= 0 {
      PowerAbs(b, base, n);
      PowerGrows(base, n, MAX_MATH_POWER_EXPONENT);
    } else {
      assert b != 0.0 && Abs(b) >= 1.0;
      PowerAtLeastOne(b, -n);
      PowerNonZero(b, -n);
      ReciprocalAtMostOne(Power(b, -n));
    }
  }

  lemma {:induction false} SumBounded(l: real, r: real, b: real, m: nat, n: nat)
    requires b >= 2.0 && m >= 1 && n >= 1 && Abs(l) <= Power(b, m) && Abs(r) <= Power(b, n)
    ensures Abs(l + r) <= Power(b, m + n) && Abs(l - r) <= Power(b, m + n) && Abs(l * r) <= Power(b, m + n)
  {
    hide Power;
    PowerAdds(b, m, n);
    var p, q := Power(b, m), Power(b, n);
    BaseAtMost(b, m);
    BaseAtMost(b, n);
    assert p + q <= p * q by { SumAtMostProduct(p, q); }
    AbsProduct(l, r);
    ProductMonotone(Abs(l), Abs(r), p, q);
  }

  lemma SumAtMostProduct(p: real, q: real)
    requires p >= 2.0 && q >= 2.0
    ensures p + q <= p * q
  {
    ProductMonotone(1.0, 1.0, p - 1.0, q - 1.0);
    assert (p - 1.0) * (q - 1.0) == p * q - p - q + 1.0;
  }

  lemma {:induction false} BaseAtMost(b: real, n: nat)
    requires b >= 2.0 && n >= 1
    ensures Power(b, n) >= b
  {
    PowerGrows(b, 1, n);
    assert Power(b, 1) == b * Power(b, 0) == b;
  }

  lemma {:induction false} PowerValue(left: Node, right: Node, m: real, frac: FractionalPower)
    requires PowerAllowed(left, right) && IntegerTree(left, m) && IntegerTree(right, m)
    ensures Eval(Binary(Pow, left, right), frac).Some?
    ensures Abs(Eval(Binary(Pow, left, right), frac).value) <= PowerCap()
  {
    hide Power, MathPow, IsInteger, IntegerTree, Abs;
    ConstantEval(left, frac);
    ConstantEval(right, frac);
    ConstantInteger(left, m);
    ConstantInteger(right, m);
    MathPowBounded(ResolveConstant(left).value, ResolveConstant(right).value, frac);
  }

  lemma AbsNegated(x: real)
    ensures Abs(-x) == Abs(x)
  {
  }

  lemma {:induction false} ApplyBounded(op: BinaryOp, l: real, r: real, b: real, m: nat, n: nat, frac: FractionalPower)
    requires op.Add? || op.Sub? || op.Mult?
    requires b >= 2.0 && m >= 1 && n >= 1 && Abs(l) <= Power(b, m) && Abs(r) <= Power(b, n)
    ensures Apply(op, l, r, frac).Some? && Abs(Apply(op, l, r, frac).value) <= Power(b, m + n)
  {
    hide Power, Abs;
    SumBounded(l, r, b, m, n);
  }

  lemma {:induction false} ValueBounded(n: Node, m: real, b: real, frac: FractionalPower)
    requires WellPowered(n) && IntegerTree(n, m) && b >= m && b >= PowerCap() && b >= 2.0
    ensures Eval(n, frac).Some? && Abs(Eval(n, frac).value) <= Power(b, Units(n))
  {
    hide Power, Apply, IsInteger, PowerAllowed, PowerCap, Abs;
    BaseAtMost(b, 1);
    match n
    case Expression(body) => ValueBounded(body, m, b, frac);
    case Num(value) =>
    case Unary(_, operand) =>
      ValueBounded(operand, m, b, frac);
      AbsNegated(Eval(operand, frac).value);
    case Binary(op, left, right) =>
      if op.Pow? {
        PowerValue(left, right, m, frac);
      } else {
        ValueBounded(left, m, b, frac);
        ValueBounded(right, m, b, frac);
        ApplyBounded(op, Eval(left, frac).value, Eval(right, frac).value, b, Units(left), Units(right), frac);
      }
    case _ =>
  }

  /** The limits bound the result: an accepted tree of integer literals of magnitude at most `m`,
      without division or modulo, evaluates to at most max(m, 10^72)^33 in magnitude. */
  lemma {:induction false} ResultBounded(n: Node, m: real, frac: FractionalPower)
    requires Acceptable(n) && IntegerTree(n, m)
    ensures Eval(n, frac).Some?
    ensures Abs(Eval(n, frac).value) <= Power(MaxReal(m, PowerCap()), MAX_MATH_BINARY_OPS + 1)
    ensures PowerCap() == Power(10.0, 72)
  {
    hide Power, WellPowered, IntegerTree, Eval;
    var b := MaxReal(m, PowerCap());
    BaseAtMost(MAX_MATH_POWER_BASE_ABS as real, MAX_MATH_POWER_EXPONENT);
    ValueBounded(n, m, b, frac);
    UnitsAtMost(n);
    PowerGrows(b, Units(n), MAX_MATH_BINARY_OPS + 1);
    PowerOfTen(MAX_MATH_POWER_EXPONENT);
  }

  lemma {:induction false} PowerOfTen(n: nat)
    ensures Power(1_000_000.0, n) == Power(10.0, 6 * n)
  {
    if n > 0 {
      PowerOfTen(n - 1);
      PowerAdds(10.0, 6, 6 * (n - 1));
      SixTens();
    }
  }

  lemma SixTens()
    ensures Power(10.0, 6) == 1_000_000.0
  {
    assert Power(10.0, 1) == 10.0;
    assert Power(10.0, 2) == 100.0;
    assert Power(10.0, 3) == 1_000.0;
    assert Power(10.0, 4) == 10_000.0;
    assert Power(10.0, 5) == 100_000.0;
  }
}
