/** Expressions of compile-time and run-time code, and the literal forms of compile-time values. */
module ComptimeSyntax {
  import opened Wrappers
  import opened CtValues

  datatype InfixOp = Add | Sub | Mul | Div | FloorDiv | Mod | Pow | Eq | Ne | Lt | Gt | Le | Ge | And | Or

  /** Operations evaluated operand by operand: indexing, `len`, `range`, method calls and function calls. */
  datatype Operation = Index | Len | Range | Method(name: string) | Function(name: string)

  datatype Expr =
    | IntLit(i: I64)
    | FloatLit(bits: U64)
    | BoolLit(b: bool)
    | StrLit(str: string)
    | TupleLit(items: seq<Expr>)
    | ListLit(items: seq<Expr>)
    | Identifier(name: string)
    | Neg(operand: Expr)
    | Not(operand: Expr)
    | Infix(op: InfixOp, left: Expr, right: Expr)
    | Apply(operation: Operation, args: seq<Expr>)

  // ----- literals -----

  /** The literal expression for a value, if it has a run-time form. */
  function Materialize(v: CtValue): Option<Expr>
    decreases v, 0
  {
    match v
    case Int(i) => Some(IntLit(i))
    case UInt(n) => if n <= I64_MAX then Some(IntLit(n)) else None
    case Float(bits) => Some(FloatLit(bits))
    case Bool(b) => Some(BoolLit(b))
    case Str(s) => Some(StrLit(s))
    case Tuple(items) => (match MaterializeAll(items) case Some(es) => Some(TupleLit(es)) case None => None)
    case List(items) => (match MaterializeAll(items) case Some(es) => Some(ListLit(es)) case None => None)
    case Type(_) => None
    case Reflected(_) => None
    case Param(_) => None
  }

  function MaterializeAll(vs: seq<CtValue>): Option<seq<Expr>>
    decreases vs, 1
  {
    if vs == [] then Some([])
    else
      match (Materialize(vs[0]), MaterializeAll(vs[1..]))
      case (Some(e), Some(es)) => Some([e] + es)
      case _ => None
  }

  /** The value written by a literal expression. */
  function LiteralCtValue(e: Expr): Option<CtValue>
    decreases e, 0
  {
    match e
    case IntLit(i) => Some(Int(i))
    case FloatLit(bits) => Some(Float(bits))
    case BoolLit(b) => Some(Bool(b))
    case StrLit(s) => Some(Str(s))
    case TupleLit(items) => (match LiteralCtValues(items) case Some(vs) => Some(Tuple(vs)) case None => None)
    case ListLit(items) => (match LiteralCtValues(items) case Some(vs) => Some(List(vs)) case None => None)
    case _ => None
  }

  function LiteralCtValues(es: seq<Expr>): Option<seq<CtValue>>
    decreases es, 1
  {
    if es == [] then Some([])
    else
      match (LiteralCtValue(es[0]), LiteralCtValues(es[1..]))
      case (Some(v), Some(vs)) => Some([v] + vs)
      case _ => None
  }

  /** The value a materialized value has at run time: unsigned integers become signed. */
  function Canonical(v: CtValue): CtValue
    decreases v, 0
  {
    match v
    case UInt(n) => if n <= I64_MAX then Int(n) else v
    case Tuple(items) => Tuple(CanonicalAll(items))
    case List(items) => List(CanonicalAll(items))
    case _ => v
  }

  function CanonicalAll(vs: seq<CtValue>): seq<CtValue>
    decreases vs, 1
  {
    if vs == [] then [] else [Canonical(vs[0])] + CanonicalAll(vs[1..])
  }

  predicate ContainsUInt(v: CtValue)
    decreases v, 0
  {
    match v
    case UInt(_) => true
    case Tuple(items) => AnyContainsUInt(items)
    case List(items) => AnyContainsUInt(items)
    case _ => false
  }

  predicate AnyContainsUInt(vs: seq<CtValue>)
    decreases vs, 1
  {
    vs != [] && (ContainsUInt(vs[0]) || AnyContainsUInt(vs[1..]))
  }

  lemma {:induction false} MaterializedIsCanonical(v: CtValue)
    requires Materialize(v).Some?
    ensures LiteralCtValue(Materialize(v).value) == Some(Canonical(v))
    ensures Canonical(v) == v <==> !ContainsUInt(v)
    decreases v, 0
  {
    match v
    case Tuple(items) => AllMaterializedAreCanonical(items);
    case List(items) => AllMaterializedAreCanonical(items);
    case _ =>
  }

  lemma {:induction false} AllMaterializedAreCanonical(vs: seq<CtValue>)
    requires MaterializeAll(vs).Some?
    ensures LiteralCtValues(MaterializeAll(vs).value) == Some(CanonicalAll(vs))
    ensures CanonicalAll(vs) == vs <==> !AnyContainsUInt(vs)
    decreases vs, 1
  {
    if vs != [] {
      MaterializedIsCanonical(vs[0]);
      AllMaterializedAreCanonical(vs[1..]);
      var es := MaterializeAll(vs).value;
      assert es == [Materialize(vs[0]).value] + MaterializeAll(vs[1..]).value;
      assert es[1..] == MaterializeAll(vs[1..]).value;
      assert vs == [vs[0]] + vs[1..];
      assert CanonicalAll(vs)[1..] == CanonicalAll(vs[1..]) && CanonicalAll(vs)[0] == Canonical(vs[0]);
    }
  }

  /** Writing a value as a literal and reading it back gives the same value exactly if no unsigned integer is in it. */
  lemma LiteralRoundTrip(v: CtValue)
    requires Materialize(v).Some?
    ensures LiteralCtValue(Materialize(v).value) == Some(v) <==> !ContainsUInt(v)
  {
    MaterializedIsCanonical(v);
  }
}
