/** What the elaborator's evaluator computes, stated as a relation between an expression and its value that mentions
    neither the evaluator nor its errors: integers are unbounded ones that must fit at every step. */
module FoldingMeaning {
  import opened Wrappers
  import opened CtValues
  import opened ComptimeSyntax
  import opened ConstantFolding

  // ----- integers -----

  function Product(factors: seq<int>): int {
    if factors == [] then 1 else Product(factors[..|factors| - 1]) * factors[|factors| - 1]
  }

  /** Euclidean division: the remainder is never negative. */
  predicate Divided(a: int, b: int, quotient: int, remainder: int) {
    a == b * quotient + remainder && 0 <= remainder < (if b < 0 then -b else b)
  }

  ghost predicate Means(op: InfixOp, a: int, b: int, n: int) {
    match op
    case Add => n == a + b
    case Sub => n + b == a
    case Mul => n == a * b
    case FloorDiv => exists r :: Divided(a, b, n, r)
    case Mod => exists q :: InI64(q) && Divided(a, b, q, n)
    case Pow => 0 <= b < U32_LIMIT && n == Product(seq(b, _ => a))
    case _ => false
  }

  predicate Compares(op: InfixOp, a: int, b: int, holds: bool) {
    match op
    case Eq => holds <==> a == b
    case Ne => holds <==> a != b
    case Lt => holds <==> b - a > 0
    case Gt => holds <==> a - b > 0
    case Le => holds <==> b - a >= 0
    case Ge => holds <==> a - b >= 0
    case _ => false
  }

  lemma {:induction false} PowerIsProduct(a: int, n: nat)
    ensures Power(a, n) == Product(seq(n, _ => a))
    decreases n
  {
    if n > 0 {
      PowerIsProduct(a, n - 1);
      assert seq(n, _ => a)[..n - 1] == seq(n - 1, _ => a);
    }
  }

  lemma DivisionIsUnique(a: int, b: int, q: int, r: int)
    requires b != 0
    ensures Divided(a, b, q, r) <==> q == a / b && r == a % b
  {
    assert a == b * (a / b) + a % b;
    if Divided(a, b, q, r) {
      assert b * (q - a / b) == a % b - r;
      MultiplesAreApart(b, q - a / b);
    }
  }

  lemma MultiplesAreApart(b: int, d: int)
    ensures d == 0 || b * d >= (if b < 0 then -b else b) || b * d <= (if b < 0 then b else -b)
  {
    if d > 0 {
      assert b >= 0 ==> b * d >= b;
      assert b < 0 ==> b * d <= b;
    } else if d < 0 {
      assert b >= 0 ==> b * d <= -b;
      assert b < 0 ==> b * d >= -b;
    }
  }

  /** An operation on two integers gives exactly the number that is meant, whenever that fits into 64 bits. */
  lemma OperationExactly(op: InfixOp, a: I64, b: I64, n: I64)
    ensures InfixInts(op, a, b) == Ok(CtValue.Int(n)) <==> Means(op, a, b, n)
  {
    if b != 0 {
      forall q, r ensures Divided(a, b, q, r) <==> q == a / b && r == a % b { DivisionIsUnique(a, b, q, r); }
      assert Divided(a, b, a / b, a % b);
    }
    if op.Pow? && b >= 0 { PowerIsProduct(a, b); }
    if op.Mod? && b != 0 { RemainderFits(a, b); }
  }

  lemma RemainderFits(a: I64, b: I64)
    requires b != 0
    ensures InI64(a % b)
  {
  }

  lemma ComparisonExactly(op: InfixOp, a: I64, b: I64, holds: bool)
    ensures InfixInts(op, a, b) == Ok(CtValue.Bool(holds)) <==> Compares(op, a, b, holds)
  {
  }

  // ----- expressions -----

  /** Two strings or two integers combine to `v`. */
  ghost predicate Combines(op: InfixOp, a: CtValue, b: CtValue, v: CtValue) {
    if a.Str? && b.Str? then
      match op
      case Add => v.Str? && |v.str| == |a.str| + |b.str| && a.str <= v.str && v.str[|a.str|..] == b.str
      case Eq => v.Bool? && (v.b <==> a.str == b.str)
      case Ne => v.Bool? && (v.b <==> a.str != b.str)
      case _ => false
    else
      && a.Int? && b.Int?
      && if Arithmetic(op) then v.Int? && Means(op, a.i, b.i, v.i) else v.Bool? && Compares(op, a.i, b.i, v.b)
  }

  /** `v` is the tuple or the list of these items. */
  predicate Holding(v: CtValue, items: seq<CtValue>) {
    v == Tuple(items) || v == List(items)
  }

  /** The left operand alone decides, or it does not and the right one does: `False` decides an `and`, `True` an
      `or`. */
  predicate Connects(decided: bool, v: CtValue, stops: bool, goesOn: bool, folds: bool) {
    (v == CtValue.Bool(decided) && stops) || (v.Bool? && goesOn && folds)
  }

  ghost predicate FoldsTo(e: Expr, scope: Scope, v: CtValue)
    decreases e, 0
  {
    match e
    case IntLit(i) => v == CtValue.Int(i)
    case FloatLit(bits) => v == CtValue.Float(bits)
    case BoolLit(b) => v == CtValue.Bool(b)
    case StrLit(s) => v == CtValue.Str(s)
    case Identifier(name) => name in scope && v == scope[name]
    case TupleLit(items) => v.Tuple? && AllFoldTo(items, scope, v.items)
    case ListLit(items) => v.List? && AllFoldTo(items, scope, v.items)
    case Neg(operand) => v.Int? && exists n: I64 :: FoldsTo(operand, scope, CtValue.Int(n)) && n + v.i == 0
    case Not(operand) => v.Bool? && FoldsTo(operand, scope, CtValue.Bool(!v.b))
    case Infix(op, left, right) =>
      if op.And? || op.Or? then
        Connects(op.Or?, v, FoldsTo(left, scope, CtValue.Bool(op.Or?)), FoldsTo(left, scope, CtValue.Bool(!op.Or?)),
                 FoldsTo(right, scope, v))
      else exists a, b :: FoldsTo(left, scope, a) && FoldsTo(right, scope, b) && Combines(op, a, b, v)
    case Apply(operation, args) =>
      if operation.Index? then
        |args| == 2 && exists base, items, i: I64 ::
          FoldsTo(args[0], scope, base) && Holding(base, items) && FoldsTo(args[1], scope, CtValue.Int(i)) &&
          0 <= i < |items| && v == items[i]
      else if operation.Len? then
        |args| == 1 && exists base, items ::
          FoldsTo(args[0], scope, base) && Holding(base, items) && v.Int? && v.i == |items|
      else false
  }

  ghost predicate AllFoldTo(es: seq<Expr>, scope: Scope, vs: seq<CtValue>)
    decreases es, 1
  {
    |es| == |vs| && forall k :: 0 <= k < |es| ==> FoldsTo(es[k], scope, vs[k])
  }

  /** The value the evaluator answers with is the only one `e` folds to, if there is any. */
  ghost predicate Agreed(e: Expr, scope: Scope) {
    match Eval(e, scope)
    case Ok(w) => FoldsTo(e, scope, w) && forall v :: FoldsTo(e, scope, v) ==> v == w
    case Err(_) => forall v :: !FoldsTo(e, scope, v)
  }

  /** The evaluator answers with a value exactly if the expression folds to it. */
  lemma {:induction false} FoldsExactly(e: Expr, scope: Scope, v: CtValue)
    ensures Eval(e, scope) == Ok(v) <==> FoldsTo(e, scope, v)
    decreases e, 2
  {
    match e
    case TupleLit(items) => if v.Tuple? { AllFoldExactly(items, scope, v.items); }
    case ListLit(items) => if v.List? { AllFoldExactly(items, scope, v.items); }
    case Neg(operand) =>
      AgreedEverywhere(operand, scope);
      NegationAgrees(operand, scope, v);
    case Not(operand) =>
      AgreedEverywhere(operand, scope);
      NotAgrees(operand, scope, v);
    case Infix(_, _, _) => InfixFoldsExactly(e, scope, v);
    case Apply(_, _) => ApplyFoldsExactly(e, scope, v);
    case _ =>
  }

  lemma {:induction false} InfixFoldsExactly(e: Expr, scope: Scope, v: CtValue)
    requires e.Infix?
    ensures Eval(e, scope) == Ok(v) <==> FoldsTo(e, scope, v)
    decreases e, 1
  {
    if e.op.And? || e.op.Or? {
      FoldsExactly(e.left, scope, CtValue.Bool(e.op.Or?));
      FoldsExactly(e.left, scope, CtValue.Bool(!e.op.Or?));
      FoldsExactly(e.right, scope, v);
      ConnectiveAgrees(e.op, e.left, e.right, scope, v, FoldsTo(e.left, scope, CtValue.Bool(e.op.Or?)),
                       FoldsTo(e.left, scope, CtValue.Bool(!e.op.Or?)), FoldsTo(e.right, scope, v));
    } else {
      OperatorFoldsExactly(e, scope, v);
    }
  }

  lemma {:induction false} OperatorFoldsExactly(e: Expr, scope: Scope, v: CtValue)
    requires e.Infix? && !e.op.And? && !e.op.Or?
    ensures Eval(e, scope) == Ok(v) <==> FoldsTo(e, scope, v)
    decreases e, 0
  {
    AgreedEverywhere(e.left, scope);
    AgreedEverywhere(e.right, scope);
    OperatorAgrees(e.op, e.left, e.right, scope, v);
  }

  lemma {:induction false} ApplyFoldsExactly(e: Expr, scope: Scope, v: CtValue)
    requires e.Apply?
    ensures Eval(e, scope) == Ok(v) <==> FoldsTo(e, scope, v)
    decreases e, 0
  {
    if e.operation.Index? && |e.args| == 2 {
      AgreedEverywhere(e.args[0], scope);
      AgreedEverywhere(e.args[1], scope);
      IndexAgrees(e.args, scope, v);
    } else if e.operation.Len? && |e.args| == 1 {
      AgreedEverywhere(e.args[0], scope);
      LenAgrees(e.args, scope, v);
    }
  }

  lemma {:induction false} AgreedEverywhere(e: Expr, scope: Scope)
    ensures Agreed(e, scope)
    decreases e, 3
  {
    forall v ensures FoldsTo(e, scope, v) <==> Eval(e, scope) == Ok(v) { FoldsExactly(e, scope, v); }
  }

  lemma NegationAgrees(operand: Expr, scope: Scope, v: CtValue)
    requires Agreed(operand, scope)
    ensures Eval(Neg(operand), scope) == Ok(v) <==> FoldsTo(Neg(operand), scope, v)
  {
  }

  lemma NotAgrees(operand: Expr, scope: Scope, v: CtValue)
    requires Agreed(operand, scope)
    ensures Eval(Not(operand), scope) == Ok(v) <==> FoldsTo(Not(operand), scope, v)
  {
  }

  lemma {:induction false} AllFoldExactly(es: seq<Expr>, scope: Scope, vs: seq<CtValue>)
    ensures EvalAll(es, scope) == Ok(vs) <==> AllFoldTo(es, scope, vs)
    decreases es, 3
  {
    if es != [] && vs != [] {
      FoldsExactly(es[0], scope, vs[0]);
      AllFoldExactly(es[1..], scope, vs[1..]);
      assert vs == [vs[0]] + vs[1..];
      assert AllFoldTo(es, scope, vs) <==> FoldsTo(es[0], scope, vs[0]) && AllFoldTo(es[1..], scope, vs[1..]) by {
        assert forall k :: 1 <= k < |es| ==> es[k] == es[1..][k - 1];
        assert forall k :: 1 <= k < |vs| ==> vs[k] == vs[1..][k - 1];
      }
    }
  }

  /** What a connective makes of the answers for its operands. */
  function Connected(decided: bool, l: Folded, r: Folded): Folded {
    var v :- l;
    var a :- AsBool(v);
    if a == decided then Ok(CtValue.Bool(a))
    else
      var w :- r;
      var b :- AsBool(w);
      Ok(CtValue.Bool(b))
  }

  lemma ConnectedExactly(decided: bool, l: Folded, r: Folded, v: CtValue, stops: bool, goesOn: bool, folds: bool)
    requires stops <==> l == Ok(CtValue.Bool(decided))
    requires goesOn <==> l == Ok(CtValue.Bool(!decided))
    requires folds <==> r == Ok(v)
    ensures Connected(decided, l, r) == Ok(v) <==> Connects(decided, v, stops, goesOn, folds)
  {
  }

  lemma ConnectiveAgrees(op: InfixOp, left: Expr, right: Expr, scope: Scope, v: CtValue, stops: bool, goesOn: bool,
                         folds: bool)
    requires op.And? || op.Or?
    requires stops <==> Eval(left, scope) == Ok(CtValue.Bool(op.Or?))
    requires goesOn <==> Eval(left, scope) == Ok(CtValue.Bool(!op.Or?))
    requires folds <==> Eval(right, scope) == Ok(v)
    ensures Eval(Infix(op, left, right), scope) == Ok(v) <==> Connects(op.Or?, v, stops, goesOn, folds)
  {
    ConnectedExactly(op.Or?, Eval(left, scope), Eval(right, scope), v, stops, goesOn, folds);
  }

  lemma OperatorAgrees(op: InfixOp, left: Expr, right: Expr, scope: Scope, v: CtValue)
    requires Agreed(left, scope) && Agreed(right, scope) && !op.And? && !op.Or?
    ensures Eval(Infix(op, left, right), scope) == Ok(v) <==> FoldsTo(Infix(op, left, right), scope, v)
  {
    var l, r := Eval(left, scope), Eval(right, scope);
    if l.Ok? && r.Ok? {
      CombinesExactly(op, l.value, r.value, v);
    }
  }

  lemma CombinesExactly(op: InfixOp, a: CtValue, b: CtValue, v: CtValue)
    ensures InfixValues(op, a, b) == Ok(v) <==> Combines(op, a, b, v)
  {
    if a.Str? && b.Str? {
      if op.Add? && v.Str? && a.str <= v.str {
        assert v.str == a.str + v.str[|a.str|..];
      }
      if op.Add? && v == CtValue.Str(a.str + b.str) {
        assert v.str[|a.str|..] == b.str;
      }
    } else if a.Int? && b.Int? {
      if v.Int? { OperationExactly(op, a.i, b.i, v.i); }
      if v.Bool? { ComparisonExactly(op, a.i, b.i, v.b); }
    }
  }

  lemma IndexAgrees(args: seq<Expr>, scope: Scope, v: CtValue)
    requires |args| == 2 && Agreed(args[0], scope) && Agreed(args[1], scope)
    ensures Eval(Apply(Operation.Index, args), scope) == Ok(v) <==> FoldsTo(Apply(Operation.Index, args), scope, v)
  {
    var l, r := Eval(args[0], scope), Eval(args[1], scope);
    if Eval(Apply(Operation.Index, args), scope) == Ok(v) {
      var items := AsSequence(l.value).value;
      assert Holding(l.value, items) && r == Ok(CtValue.Int(r.value.i)) && v == items[r.value.i];
      assert FoldsTo(args[0], scope, l.value) && FoldsTo(args[1], scope, CtValue.Int(r.value.i));
    } else if FoldsTo(Apply(Operation.Index, args), scope, v) {
      IndexEvaluates(args, scope, v);
    }
  }

  lemma IndexEvaluates(args: seq<Expr>, scope: Scope, v: CtValue)
    requires |args| == 2 && Agreed(args[0], scope) && Agreed(args[1], scope)
    requires FoldsTo(Apply(Operation.Index, args), scope, v)
    ensures Eval(Apply(Operation.Index, args), scope) == Ok(v)
  {
    var base, items, i: I64 :|
      FoldsTo(args[0], scope, base) && Holding(base, items) && FoldsTo(args[1], scope, CtValue.Int(i)) &&
      0 <= i < |items| && v == items[i];
    assert Eval(args[0], scope) == Ok(base) && Eval(args[1], scope) == Ok(CtValue.Int(i));
  }

  lemma LenAgrees(args: seq<Expr>, scope: Scope, v: CtValue)
    requires |args| == 1 && Agreed(args[0], scope)
    ensures Eval(Apply(Operation.Len, args), scope) == Ok(v) <==> FoldsTo(Apply(Operation.Len, args), scope, v)
  {
    var l := Eval(args[0], scope);
    if l.Ok? && AsSequence(l.value).Ok? {
      assert Holding(l.value, AsSequence(l.value).value);
    }
  }
}
