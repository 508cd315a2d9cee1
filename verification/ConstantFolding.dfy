/** The constant folders of the elaborator and the checker. Arithmetic is on 64-bit integers; division and remainder
    are Euclidean, as are Dafny's. */
module ConstantFolding {
  import opened Wrappers
  import opened CtValues
  import opened ComptimeSyntax

  /** `Overflow` stands for an unchecked operation leaving the 64-bit range, which panics or wraps with the build. */
  datatype Error = NotComptime | NotBool | NotInt | BadArithmetic | BadRange | QuotaExceeded | Overflow

  type Folded = Result<CtValue, Error>

  type Scope = map<string, CtValue>

  // ----- integers -----

  predicate InI64(n: int) {
    I64_MIN <= n <= I64_MAX
  }

  function Power(a: int, n: nat): int {
    if n == 0 then 1 else a * Power(a, n - 1)
  }

  /** An operation whose overflow is tested. */
  function Checked(n: int): Folded {
    if InI64(n) then Ok(Int(n)) else Err(BadArithmetic)
  }

  /** An operation whose overflow is not. */
  function Unchecked(n: int): Result<I64, Error> {
    if InI64(n) then Ok(n) else Err(Overflow)
  }

  const U32_LIMIT: int := 0x1_0000_0000

  function AsBool(v: CtValue): Result<bool, Error> {
    if v.Bool? then Ok(v.b) else Err(NotBool)
  }

  function AsInt(v: CtValue): Result<I64, Error> {
    if v.Int? then Ok(v.i) else Err(NotInt)
  }

  function AsSequence(v: CtValue): Result<seq<CtValue>, Error> {
    if v.Tuple? || v.List? then Ok(v.items) else Err(BadRange)
  }

  // ----- the elaborator's evaluator -----

  function InfixInts(op: InfixOp, a: I64, b: I64): Folded {
    match op
    case Add => Checked(a + b)
    case Sub => Checked(a - b)
    case Mul => Checked(a * b)
    case FloorDiv => if b == 0 then Err(BadArithmetic) else Checked(a / b)
    case Mod => if b == 0 || !InI64(a / b) then Err(BadArithmetic) else Checked(a % b)
    case Pow => if b < 0 || b >= U32_LIMIT then Err(BadArithmetic) else Checked(Power(a, b))
    case Eq => Ok(Bool(a == b))
    case Ne => Ok(Bool(a != b))
    case Lt => Ok(Bool(a < b))
    case Gt => Ok(Bool(a > b))
    case Le => Ok(Bool(a <= b))
    case Ge => Ok(Bool(a >= b))
    case _ => Err(NotComptime)
  }

  function InfixStrings(op: InfixOp, a: string, b: string): Folded {
    match op
    case Add => Ok(Str(a + b))
    case Eq => Ok(Bool(a == b))
    case Ne => Ok(Bool(a != b))
    case _ => Err(NotComptime)
  }

  function InfixValues(op: InfixOp, l: CtValue, r: CtValue): Folded {
    if l.Str? && r.Str? then InfixStrings(op, l.str, r.str)
    else
      var a :- AsInt(l);
      var b :- AsInt(r);
      InfixInts(op, a, b)
  }

  /** `Elab::eval`, without compile-time function execution, types and reflection. */
  function Eval(e: Expr, scope: Scope): Folded
    decreases e, 0
  {
    match e
    case IntLit(i) => Ok(Int(i))
    case FloatLit(bits) => Ok(Float(bits))
    case BoolLit(b) => Ok(Bool(b))
    case StrLit(s) => Ok(Str(s))
    case Identifier(name) => if name in scope then Ok(scope[name]) else Err(NotComptime)
    case TupleLit(items) => var vs :- EvalAll(items, scope); Ok(Tuple(vs))
    case ListLit(items) => var vs :- EvalAll(items, scope); Ok(List(vs))
    case Neg(operand) =>
      var v :- Eval(operand, scope);
      var n :- AsInt(v);
      var m :- Unchecked(0 - n);
      Ok(Int(m))
    case Not(operand) =>
      var v :- Eval(operand, scope);
      var b :- AsBool(v);
      Ok(Bool(!b))
    case Infix(op, left, right) =>
      var l :- Eval(left, scope);
      if op.And? || op.Or? then
        var a :- AsBool(l);
        if a == op.Or? then Ok(Bool(a))
        else
          var r :- Eval(right, scope);
          var b :- AsBool(r);
          Ok(Bool(b))
      else
        var r :- Eval(right, scope);
        InfixValues(op, l, r)
    case Apply(operation, args) =>
      if operation.Index? && |args| == 2 then
        var base :- Eval(args[0], scope);
        var items :- AsSequence(base);
        var v :- Eval(args[1], scope);
        var i :- AsInt(v);
        if 0 <= i < |items| then Ok(items[i]) else Err(BadArithmetic)
      else if operation.Len? && |args| == 1 then
        var base :- Eval(args[0], scope);
        var items :- AsSequence(base);
        if |items| <= I64_MAX then Ok(Int(|items|)) else Err(Overflow)
      else Err(NotComptime)
  }

  function EvalAll(es: seq<Expr>, scope: Scope): Result<seq<CtValue>, Error>
    decreases es, 1
  {
    if es == [] then Ok([])
    else
      var v :- Eval(es[0], scope);
      var vs :- EvalAll(es[1..], scope);
      Ok([v] + vs)
  }

  // ----- dependent expressions kept in generic metadata -----

  datatype CtExpr =
    | Value(value: CtValue)
    | CtParam(name: string)
    | CtNeg(operand: CtExpr)
    | Binary(op: InfixOp, left: CtExpr, right: CtExpr)

  predicate Arithmetic(op: InfixOp) {
    op.Add? || op.Sub? || op.Mul? || op.FloorDiv? || op.Mod? || op.Pow?
  }

  function CtExprFromAst(e: Expr): Option<CtExpr> {
    match e
    case Identifier(name) => Some(CtParam(name))
    case Neg(operand) => (match CtExprFromAst(operand) case Some(c) => Some(CtNeg(c)) case None => None)
    case Infix(op, left, right) =>
      (match (CtExprFromAst(left), CtExprFromAst(right))
       case (Some(l), Some(r)) => if Arithmetic(op) then Some(Binary(op, l, r)) else None
       case _ => None)
    case _ => (match LiteralCtValue(e) case Some(v) => Some(Value(v)) case None => None)
  }

  /** `CtExpr::evaluate`. Addition and negation are unchecked, the rest is checked. */
  function Evaluate(c: CtExpr, parameters: Scope): Folded {
    match c
    case Value(v) => Ok(v)
    case CtParam(name) => if name in parameters then Ok(parameters[name]) else Err(NotComptime)
    case CtNeg(operand) =>
      var v :- Evaluate(operand, parameters);
      if v.Int? then
        var m :- Unchecked(0 - v.i);
        Ok(Int(m))
      else Err(NotComptime)
    case Binary(op, left, right) =>
      var l :- Evaluate(left, parameters);
      var r :- Evaluate(right, parameters);
      EvaluateBinary(op, l, r)
  }

  function EvaluateBinary(op: InfixOp, l: CtValue, r: CtValue): Folded {
    if op.Add? && l.Str? && r.Str? then Ok(Str(l.str + r.str))
    else if !l.Int? || !r.Int? then Err(NotComptime)
    else if op.Add? then
      var m :- Unchecked(l.i + r.i);
      Ok(Int(m))
    else InfixInts(op, l.i, r.i)
  }

  // ----- the checker's folders -----

  /** The operations of `eval_ct` and `eval_associated_ct`: nothing is checked, and an exponent is cut to 32 bits. */
  function UncheckedInfix(op: InfixOp, a: I64, b: I64): Result<I64, Error> {
    match op
    case Add => Unchecked(a + b)
    case Sub => Unchecked(a - b)
    case Mul => Unchecked(a * b)
    case FloorDiv => if b == 0 then Err(NotComptime) else Unchecked(a / b)
    case Mod => if b == 0 then Err(NotComptime) else if !InI64(a / b) then Err(Overflow) else Unchecked(a % b)
    case Pow => if b < 0 then Err(NotComptime) else Unchecked(Power(a, b % U32_LIMIT))
    case _ => Err(NotComptime)
  }

  /** `eval_ct`. */
  function EvalCt(e: Expr, comptimes: map<string, I64>): Result<I64, Error> {
    match e
    case IntLit(i) => Ok(i)
    case Identifier(name) => if name in comptimes then Ok(comptimes[name]) else Err(NotComptime)
    case Neg(operand) =>
      var n :- EvalCt(operand, comptimes);
      Unchecked(0 - n)
    case Infix(op, left, right) =>
      var a :- EvalCt(left, comptimes);
      var b :- EvalCt(right, comptimes);
      UncheckedInfix(op, a, b)
    case _ => Err(NotComptime)
  }

  /** `eval_associated_ct`, without types and `Self` members. */
  function EvalAssociatedCt(e: Expr, comptimes: map<string, I64>): Folded
    decreases e, 0
  {
    match e
    case IntLit(i) => Ok(Int(i))
    case FloatLit(bits) => Ok(Float(bits))
    case BoolLit(b) => Ok(Bool(b))
    case StrLit(s) => Ok(Str(s))
    case Identifier(name) => if name in comptimes then Ok(Int(comptimes[name])) else Err(NotComptime)
    case Neg(operand) =>
      var v :- EvalAssociatedCt(operand, comptimes);
      if !v.Int? then Err(NotComptime)
      else
        var m :- Unchecked(0 - v.i);
        Ok(Int(m))
    case Infix(op, left, right) =>
      var l :- EvalAssociatedCt(left, comptimes);
      var r :- EvalAssociatedCt(right, comptimes);
      if !l.Int? || !r.Int? then Err(NotComptime)
      else
        var m :- UncheckedInfix(op, l.i, r.i);
        Ok(Int(m))
    case TupleLit(items) => var vs :- EvalAssociatedAll(items, comptimes); Ok(Tuple(vs))
    case ListLit(items) => var vs :- EvalAssociatedAll(items, comptimes); Ok(List(vs))
    case _ => Err(NotComptime)
  }

  function EvalAssociatedAll(es: seq<Expr>, comptimes: map<string, I64>): Result<seq<CtValue>, Error>
    decreases es, 1
  {
    if es == [] then Ok([])
    else
      var v :- EvalAssociatedCt(es[0], comptimes);
      var vs :- EvalAssociatedAll(es[1..], comptimes);
      Ok([v] + vs)
  }

  // ----- agreement -----

  /** Integer literals, names, negation and the arithmetic operators. */
  predicate IntegerExpr(e: Expr) {
    match e
    case IntLit(_) => true
    case Identifier(_) => true
    case Neg(operand) => IntegerExpr(operand)
    case Infix(op, left, right) => Arithmetic(op) && IntegerExpr(left) && IntegerExpr(right)
    case _ => false
  }

  function AsScope(comptimes: map<string, I64>): Scope {
    map n | n in comptimes :: Int(comptimes[n])
  }

  /** No exponent reaches 2^32. */
  predicate SmallExponents(e: Expr, comptimes: map<string, I64>) {
    match e
    case Neg(operand) => SmallExponents(operand, comptimes)
    case Infix(op, left, right) =>
      && SmallExponents(left, comptimes) && SmallExponents(right, comptimes)
      && (op.Pow? ==> match EvalCt(right, comptimes) case Ok(b) => b < U32_LIMIT case Err(_) => true)
    case _ => true
  }

  lemma InfixAgrees(op: InfixOp, a: I64, b: I64)
    requires Arithmetic(op)
    ensures InfixInts(op, a, b).Ok? ==>
      InfixInts(op, a, b).value.Int? && UncheckedInfix(op, a, b) == Ok(InfixInts(op, a, b).value.i)
    ensures UncheckedInfix(op, a, b).Ok? && (op.Pow? ==> b < U32_LIMIT) ==> InfixInts(op, a, b).Ok?
    ensures EvaluateBinary(op, Int(a), Int(b)).Ok? <==> InfixInts(op, a, b).Ok?
    ensures InfixInts(op, a, b).Ok? ==> EvaluateBinary(op, Int(a), Int(b)) == InfixInts(op, a, b)
  {
    if op.Pow? && 0 <= b < U32_LIMIT {
      assert b % U32_LIMIT == b;
    }
  }

  /** Integer expressions only ever fold to integers. */
  lemma {:induction false} IntegersFoldToIntegers(e: Expr, comptimes: map<string, I64>)
    requires IntegerExpr(e)
    ensures var v := Eval(e, AsScope(comptimes)); v.Ok? ==> v.value.Int?
    ensures CtExprFromAst(e).Some?
    ensures var v := Evaluate(CtExprFromAst(e).value, AsScope(comptimes)); v.Ok? ==> v.value.Int?
  {
    match e
    case Neg(operand) => IntegersFoldToIntegers(operand, comptimes);
    case Infix(op, left, right) =>
      IntegersFoldToIntegers(left, comptimes);
      IntegersFoldToIntegers(right, comptimes);
      var l, r := Eval(left, AsScope(comptimes)), Eval(right, AsScope(comptimes));
      if l.Ok? && r.Ok? {
        InfixAgrees(op, l.value.i, r.value.i);
      }
      var cl, cr := Evaluate(CtExprFromAst(left).value, AsScope(comptimes)),
        Evaluate(CtExprFromAst(right).value, AsScope(comptimes));
      if cl.Ok? && cr.Ok? {
        InfixAgrees(op, cl.value.i, cr.value.i);
      }
    case _ =>
  }

  /** A dependent expression folds exactly when the elaborator folds its source, and to the same integer. */
  lemma {:induction false} DependentFolderAgrees(e: Expr, comptimes: map<string, I64>)
    requires IntegerExpr(e)
    ensures CtExprFromAst(e).Some?
    ensures var c := Evaluate(CtExprFromAst(e).value, AsScope(comptimes));
            var v := Eval(e, AsScope(comptimes));
            (c.Ok? <==> v.Ok?) && (v.Ok? ==> c == v)
  {
    IntegersFoldToIntegers(e, comptimes);
    match e
    case Neg(operand) =>
      DependentFolderAgrees(operand, comptimes);
      IntegersFoldToIntegers(operand, comptimes);
    case Infix(op, left, right) =>
      DependentFolderAgrees(left, comptimes);
      DependentFolderAgrees(right, comptimes);
      IntegersFoldToIntegers(left, comptimes);
      IntegersFoldToIntegers(right, comptimes);
      var l, r := Eval(left, AsScope(comptimes)), Eval(right, AsScope(comptimes));
      if l.Ok? && r.Ok? {
        InfixAgrees(op, l.value.i, r.value.i);
      }
    case _ =>
  }

  /** Whenever the elaborator folds an integer expression, the checker folds it to the same integer; an expression the
      checker folds is folded by the elaborator exactly if no exponent in it reaches 2^32. */
  lemma {:induction false} CheckerFolderAgrees(e: Expr, comptimes: map<string, I64>)
    requires IntegerExpr(e)
    ensures var v := Eval(e, AsScope(comptimes)); v.Ok? ==> v.value.Int? && EvalCt(e, comptimes) == Ok(v.value.i)
    ensures EvalCt(e, comptimes).Ok? ==> (Eval(e, AsScope(comptimes)).Ok? <==> SmallExponents(e, comptimes))
  {
    IntegersFoldToIntegers(e, comptimes);
    match e
    case Neg(operand) => CheckerFolderAgrees(operand, comptimes);
    case Infix(op, left, right) =>
      CheckerFolderAgrees(left, comptimes);
      CheckerFolderAgrees(right, comptimes);
      var l, r := Eval(left, AsScope(comptimes)), Eval(right, AsScope(comptimes));
      if l.Ok? && r.Ok? {
        InfixAgrees(op, l.value.i, r.value.i);
      }
    case _ =>
  }

  /** The checker's folder for associated members differs from its integer folder on no integer expression. */
  lemma {:induction false} AssociatedFolderAgrees(e: Expr, comptimes: map<string, I64>)
    requires IntegerExpr(e)
    ensures match EvalCt(e, comptimes)
            case Ok(n) => EvalAssociatedCt(e, comptimes) == Ok(Int(n))
            case Err(error) => EvalAssociatedCt(e, comptimes) == Err(error)
  {
    match e
    case Neg(operand) => AssociatedFolderAgrees(operand, comptimes);
    case Infix(op, left, right) =>
      AssociatedFolderAgrees(left, comptimes);
      AssociatedFolderAgrees(right, comptimes);
    case _ =>
  }

  /** With an exponent past 32 bits the elaborator refuses, while the checker's folder cuts the exponent and goes on:
      a multiple of 2^32 gives 1. */
  lemma HugeExponentDisagrees(a: I64, n: I64)
    requires n >= U32_LIMIT
    ensures var e := Infix(Pow, IntLit(a), IntLit(n));
      && Eval(e, map[]) == Err(BadArithmetic)
      && EvalCt(e, map[]) == Unchecked(Power(a, n % U32_LIMIT))
      && (n % U32_LIMIT == 0 ==> EvalCt(e, map[]) == Ok(1))
  {
    assert UncheckedInfix(Pow, a, n) == Unchecked(Power(a, n % U32_LIMIT));
    assert n % U32_LIMIT == 0 ==> Power(a, n % U32_LIMIT) == 1;
  }
}
