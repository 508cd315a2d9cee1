/** What compile-time elaboration of a block computes, as functions. */
module ElaborationRules {
  import opened Wrappers
  import opened CtValues
  import opened ComptimeSyntax
  import opened ConstantFolding
  import SpecializationNames

  datatype Branch = Branch(cond: Expr, body: seq<Stmt>)

  datatype OptBlock = NoBlock | Block(body: seq<Stmt>)

  /** `context [as name]` in a `with` statement. */
  datatype WithItem = WithItem(context: Expr, name: Option<string>)

  /** `span` is the source offset of a `with` statement, from which its manager variables are named. */
  datatype Stmt =
    | Comptime(name: string, value: Expr)
    | ComptimeIf(branches: seq<Branch>, orelse: OptBlock)
    | ComptimeFor(name: string, iter: Expr, body: seq<Stmt>)
    | VarDecl(name: string, value: Expr)
    | Assign(name: string, value: Expr)
    | ExprStmt(value: Expr)
    | If(branches: seq<Branch>, orelse: OptBlock)
    | While(cond: Expr, body: seq<Stmt>, orelse: OptBlock)
    | For(name: string, iter: Expr, body: seq<Stmt>, orelse: OptBlock)
    | Try(body: seq<Stmt>, caught: Option<string>, handler: OptBlock, orelse: OptBlock, finalbody: OptBlock)
    | With(span: nat, items: seq<WithItem>, body: seq<Stmt>)
    | Return(value: Expr)
    | Raise(value: Expr)
    | Break
    | Continue
    | Pass

  // ----- substitution of loop variables -----

  /** Loop variables in scope, with the compile-time values of the current iterations. */
  type Loops = map<string, CtValue>

  function SubstExpr(e: Expr, loops: Loops): Expr
    decreases e, 0
  {
    match e
    case Identifier(name) =>
      if name in loops && Materialize(loops[name]).Some? then Materialize(loops[name]).value else e
    case TupleLit(items) => TupleLit(SubstExprs(items, loops))
    case ListLit(items) => ListLit(SubstExprs(items, loops))
    case Neg(operand) => Neg(SubstExpr(operand, loops))
    case Not(operand) => Not(SubstExpr(operand, loops))
    case Infix(op, left, right) => Infix(op, SubstExpr(left, loops), SubstExpr(right, loops))
    case Apply(operation, args) => Apply(operation, SubstExprs(args, loops))
    case _ => e
  }

  function SubstExprs(es: seq<Expr>, loops: Loops): (r: seq<Expr>)
    ensures |r| == |es|
    decreases es, 1
  {
    if es == [] then [] else [SubstExpr(es[0], loops)] + SubstExprs(es[1..], loops)
  }

  function SubstStmt(st: Stmt, loops: Loops): Stmt
    decreases st, 0
  {
    match st
    case Comptime(name, value) => Comptime(name, SubstExpr(value, loops))
    case ComptimeIf(branches, orelse) => ComptimeIf(SubstBranches(branches, loops), SubstOpt(orelse, loops))
    case ComptimeFor(name, iter, body) => ComptimeFor(name, SubstExpr(iter, loops), SubstBlock(body, loops))
    case VarDecl(name, value) => VarDecl(name, SubstExpr(value, loops))
    case Assign(name, value) => Assign(name, SubstExpr(value, loops))
    case ExprStmt(value) => ExprStmt(SubstExpr(value, loops))
    case If(branches, orelse) => If(SubstBranches(branches, loops), SubstOpt(orelse, loops))
    case While(cond, body, orelse) => While(SubstExpr(cond, loops), SubstBlock(body, loops), SubstOpt(orelse, loops))
    case For(name, iter, body, orelse) =>
      For(name, SubstExpr(iter, loops), SubstBlock(body, loops), SubstOpt(orelse, loops))
    case Try(body, caught, handler, orelse, finalbody) =>
      Try(SubstBlock(body, loops), caught, SubstOpt(handler, loops), SubstOpt(orelse, loops),
          SubstOpt(finalbody, loops))
    case With(span, items, body) => With(span, SubstItems(items, loops), SubstBlock(body, loops))
    case Return(value) => Return(SubstExpr(value, loops))
    case Raise(value) => Raise(SubstExpr(value, loops))
    case _ => st
  }

  function SubstBlock(body: seq<Stmt>, loops: Loops): (r: seq<Stmt>)
    ensures |r| == |body|
    decreases body, 1
  {
    if body == [] then [] else [SubstStmt(body[0], loops)] + SubstBlock(body[1..], loops)
  }

  function SubstOpt(o: OptBlock, loops: Loops): OptBlock
    decreases o, 2
  {
    match o
    case NoBlock => NoBlock
    case Block(body) => Block(SubstBlock(body, loops))
  }

  function SubstBranches(branches: seq<Branch>, loops: Loops): (r: seq<Branch>)
    ensures |r| == |branches|
    decreases branches, 1
  {
    if branches == [] then []
    else
      [Branch(SubstExpr(branches[0].cond, loops), SubstBlock(branches[0].body, loops))] +
      SubstBranches(branches[1..], loops)
  }

  function SubstItems(items: seq<WithItem>, loops: Loops): (r: seq<WithItem>)
    ensures |r| == |items|
  {
    if items == [] then []
    else [items[0].(context := SubstExpr(items[0].context, loops))] + SubstItems(items[1..], loops)
  }

  // ----- sizes -----

  function Size(st: Stmt): nat
    decreases st, 0
  {
    match st
    case ComptimeIf(branches, orelse) => 1 + BranchesSize(branches) + OptSize(orelse)
    case ComptimeFor(_, _, body) => 1 + BlockSize(body)
    case If(branches, orelse) => 1 + BranchesSize(branches) + OptSize(orelse)
    case While(_, body, orelse) => 1 + BlockSize(body) + OptSize(orelse)
    case For(_, _, body, orelse) => 1 + BlockSize(body) + OptSize(orelse)
    case Try(body, _, handler, orelse, finalbody) =>
      1 + BlockSize(body) + OptSize(handler) + OptSize(orelse) + OptSize(finalbody)
    case With(_, _, body) => 1 + BlockSize(body)
    case _ => 1
  }

  function BlockSize(body: seq<Stmt>): nat
    decreases body, 1
  {
    if body == [] then 0 else 1 + Size(body[0]) + BlockSize(body[1..])
  }

  function OptSize(o: OptBlock): nat
    decreases o, 2
  {
    match o case NoBlock => 0 case Block(body) => 1 + BlockSize(body)
  }

  function BranchesSize(branches: seq<Branch>): nat
    decreases branches, 1
  {
    if branches == [] then 0 else 1 + BlockSize(branches[0].body) + BranchesSize(branches[1..])
  }

  lemma {:induction false} SubstSize(st: Stmt, loops: Loops)
    ensures Size(SubstStmt(st, loops)) == Size(st)
    decreases st, 0, 1
  {
    match st
    case ComptimeIf(branches, orelse) => SubstBranchesSize(branches, loops); SubstOptSize(orelse, loops);
    case ComptimeFor(_, _, body) => SubstBlockSize(body, loops);
    case With(_, _, body) => SubstBlockSize(body, loops);
    case If(branches, orelse) => SubstBranchesSize(branches, loops); SubstOptSize(orelse, loops);
    case _ => if st.While? || st.For? || st.Try? { SubstRuntimeSize(st, loops); }
  }

  lemma {:induction false} SubstRuntimeSize(st: Stmt, loops: Loops)
    requires st.While? || st.For? || st.Try?
    ensures Size(SubstStmt(st, loops)) == Size(st)
    decreases st, 0, 0
  {
    SubstBlockSize(st.body, loops);
    SubstOptSize(st.orelse, loops);
    if st.Try? {
      SubstOptSize(st.handler, loops);
      SubstOptSize(st.finalbody, loops);
    }
  }

  lemma {:induction false} SubstBlockSize(body: seq<Stmt>, loops: Loops)
    ensures BlockSize(SubstBlock(body, loops)) == BlockSize(body)
    decreases body, 1
  {
    if body != [] {
      SubstSize(body[0], loops);
      SubstBlockSize(body[1..], loops);
      assert SubstBlock(body, loops)[1..] == SubstBlock(body[1..], loops);
    }
  }

  lemma {:induction false} SubstOptSize(o: OptBlock, loops: Loops)
    ensures OptSize(SubstOpt(o, loops)) == OptSize(o)
    decreases o, 2
  {
    if o.Block? { SubstBlockSize(o.body, loops); }
  }

  lemma {:induction false} SubstBranchesSize(branches: seq<Branch>, loops: Loops)
    ensures BranchesSize(SubstBranches(branches, loops)) == BranchesSize(branches)
    decreases branches, 1
  {
    if branches != [] {
      SubstBlockSize(branches[0].body, loops);
      SubstBranchesSize(branches[1..], loops);
      assert SubstBranches(branches, loops)[1..] == SubstBranches(branches[1..], loops);
    }
  }

  // ----- compile-time iteration -----

  predicate Before(i: int, stop: int, step: int) {
    (step > 0 && i < stop) || (step < 0 && i > stop)
  }

  /** `start, start + step, ...` strictly before `stop`; the counter is stepped without an overflow check. */
  function RangeFrom(i: I64, stop: I64, step: I64): Result<seq<CtValue>, Error>
    decreases if step > 0 then stop - i else i - stop
  {
    if !Before(i, stop, step) then Ok([])
    else
      var next :- Unchecked(i + step);
      var rest :- RangeFrom(next, stop, step);
      Ok([Int(i)] + rest)
  }

  function EvalIter(iter: Expr, scope: Scope): Result<seq<CtValue>, Error> {
    if iter.Apply? && iter.operation.Range? then
      var vals :- EvalInts(iter.args, scope);
      if |vals| == 1 then RangeFrom(0, vals[0], 1)
      else if |vals| == 2 then RangeFrom(vals[0], vals[1], 1)
      else if |vals| != 3 || vals[2] == 0 then Err(BadRange)
      else RangeFrom(vals[0], vals[1], vals[2])
    else
      var v :- Eval(iter, scope);
      AsSequence(v)
  }

  function EvalInts(es: seq<Expr>, scope: Scope): Result<seq<I64>, Error> {
    if es == [] then Ok([])
    else
      var v :- Eval(es[0], scope);
      var i :- AsInt(v);
      var rest :- EvalInts(es[1..], scope);
      Ok([i] + rest)
  }

  // ----- with -----

  function ManagerName(span: nat, index: nat): string {
    "$with" + SpecializationNames.Digits(span) + "_" + SpecializationNames.Digits(index)
  }

  function EnterStmt(manager: string, name: Option<string>): Stmt {
    var enter := Apply(Method("__enter__"), [Identifier(manager)]);
    match name case Some(n) => VarDecl(n, enter) case None => ExprStmt(enter)
  }

  function Leave(manager: string, rest: seq<Stmt>): Stmt {
    Try(rest, None, NoBlock, NoBlock, Block([ExprStmt(Apply(Method("__exit__"), [Identifier(manager)]))]))
  }

  /** The statements a `with` becomes: each manager is stored and entered, and exited in a `finally` around the rest. */
  function Desugar(span: nat, items: seq<WithItem>, index: nat, body: seq<Stmt>): seq<Stmt>
    requires index <= |items|
    decreases |items| - index
  {
    if index == |items| then body
    else
      var manager := ManagerName(span, index);
      [VarDecl(manager, items[index].context), EnterStmt(manager, items[index].name),
       Leave(manager, Desugar(span, items, index + 1, body))]
  }

  // ----- elaboration -----

  /** Statements produced, the compile-time environment afterwards and the fuel left. */
  datatype Elaborated<T> = Elaborated(out: T, env: Scope, fuel: nat)

  function ElabStmt(st: Stmt, env: Scope, fuel: nat): Result<Elaborated<seq<Stmt>>, Error>
    decreases Size(st), 1, 0
  {
    match st
    case Comptime(name, value) =>
      var v :- Eval(value, env);
      var out := match Materialize(v) case Some(e) => [Comptime(name, e)] case None => [];
      Ok(Elaborated(out, env[name := v], fuel))
    case ComptimeIf(branches, orelse) =>
      var taken :- Select(branches, orelse, env);
      SelectedSize(branches, orelse, env);
      ElabBlock(taken, env, fuel)
    case ComptimeFor(name, iter, body) =>
      var vs :- EvalIter(iter, env);
      ElabIterations(name, vs, body, env, fuel)
    case If(branches, orelse) =>
      var bs :- ElabBranches(branches, env, fuel);
      var o :- ElabOpt(orelse, bs.env, bs.fuel);
      Ok(Elaborated([If(bs.out, o.out)], o.env, o.fuel))
    case While(cond, body, orelse) =>
      var b :- ElabBlock(body, env, fuel);
      var o :- ElabOpt(orelse, b.env, b.fuel);
      Ok(Elaborated([While(cond, b.out, o.out)], o.env, o.fuel))
    case For(name, iter, body, orelse) =>
      var b :- ElabBlock(body, env, fuel);
      var o :- ElabOpt(orelse, b.env, b.fuel);
      Ok(Elaborated([For(name, iter, b.out, o.out)], o.env, o.fuel))
    case Try(body, caught, handler, orelse, finalbody) =>
      var b :- ElabBlock(body, env, fuel);
      var c :- ElabThree(handler, orelse, finalbody, b.env, b.fuel);
      Ok(Elaborated([Try(b.out, caught, c.out.0, c.out.1, c.out.2)], c.env, c.fuel))
    case With(span, items, body) =>
      var b :- ElabBlock(body, env, fuel);
      Ok(Elaborated(Desugar(span, items, 0, b.out), b.env, b.fuel))
    case _ => Ok(Elaborated([st], env, fuel))
  }

  function ElabBlock(body: seq<Stmt>, env: Scope, fuel: nat): Result<Elaborated<seq<Stmt>>, Error>
    decreases BlockSize(body), 0, 0
  {
    if body == [] then Ok(Elaborated([], env, fuel))
    else
      var first :- ElabStmt(body[0], env, fuel);
      var rest :- ElabBlock(body[1..], first.env, first.fuel);
      Ok(Elaborated(first.out + rest.out, rest.env, rest.fuel))
  }

  function ElabOpt(o: OptBlock, env: Scope, fuel: nat): Result<Elaborated<OptBlock>, Error>
    decreases OptSize(o), 1, 0
  {
    match o
    case NoBlock => Ok(Elaborated(NoBlock, env, fuel))
    case Block(body) =>
      var b :- ElabBlock(body, env, fuel);
      Ok(Elaborated(Block(b.out), b.env, b.fuel))
  }

  function ElabTwo(first: OptBlock, second: OptBlock, env: Scope, fuel: nat)
    : Result<Elaborated<(OptBlock, OptBlock)>, Error>
    decreases OptSize(first) + OptSize(second), 2, 0
  {
    var a :- ElabOpt(first, env, fuel);
    var b :- ElabOpt(second, a.env, a.fuel);
    Ok(Elaborated((a.out, b.out), b.env, b.fuel))
  }

  function ElabThree(first: OptBlock, second: OptBlock, third: OptBlock, env: Scope, fuel: nat)
    : Result<Elaborated<(OptBlock, OptBlock, OptBlock)>, Error>
    decreases OptSize(first) + OptSize(second) + OptSize(third), 3, 0
  {
    var a :- ElabOpt(first, env, fuel);
    var b :- ElabTwo(second, third, a.env, a.fuel);
    Ok(Elaborated((a.out, b.out.0, b.out.1), b.env, b.fuel))
  }

  lemma ThreeInTurn(first: OptBlock, second: OptBlock, third: OptBlock, env: Scope, fuel: nat)
    requires ElabThree(first, second, third, env, fuel).Ok?
    ensures ElabOpt(first, env, fuel).Ok?
    ensures var a := ElabOpt(first, env, fuel).value; ElabOpt(second, a.env, a.fuel).Ok?
    ensures var a := ElabOpt(first, env, fuel).value;
      var b := ElabOpt(second, a.env, a.fuel).value;
      var c := ElabOpt(third, b.env, b.fuel);
      c.Ok? && ElabThree(first, second, third, env, fuel).value.out == (a.out, b.out, c.value.out)
  {
    var a := ElabOpt(first, env, fuel).value;
    assert ElabTwo(second, third, a.env, a.fuel).Ok?;
  }

  function ElabBranches(branches: seq<Branch>, env: Scope, fuel: nat): Result<Elaborated<seq<Branch>>, Error>
    decreases BranchesSize(branches), 1, 0
  {
    if branches == [] then Ok(Elaborated([], env, fuel))
    else
      var b :- ElabBlock(branches[0].body, env, fuel);
      var rest :- ElabBranches(branches[1..], b.env, b.fuel);
      Ok(Elaborated([Branch(branches[0].cond, b.out)] + rest.out, rest.env, rest.fuel))
  }

  /** One copy of the body per value, with the value written in place of the loop variable; each copy costs fuel. */
  function ElabIterations(name: string, vs: seq<CtValue>, body: seq<Stmt>, env: Scope, fuel: nat)
    : Result<Elaborated<seq<Stmt>>, Error>
    decreases BlockSize(body), 1, |vs|
  {
    if vs == [] then Ok(Elaborated([], env, fuel))
    else if fuel == 0 then Err(QuotaExceeded)
    else
      SubstBlockSize(body, map[name := vs[0]]);
      var first :- ElabBlock(SubstBlock(body, map[name := vs[0]]), env, fuel - 1);
      var rest :- ElabIterations(name, vs[1..], body, first.env, first.fuel);
      Ok(Elaborated(first.out + rest.out, rest.env, rest.fuel))
  }

  /** The branch a `comptime if` keeps. */
  function Select(branches: seq<Branch>, orelse: OptBlock, env: Scope): Result<seq<Stmt>, Error> {
    if branches == [] then Ok(match orelse case NoBlock => [] case Block(body) => body)
    else
      var v :- Eval(branches[0].cond, env);
      var b :- AsBool(v);
      if b then Ok(branches[0].body) else Select(branches[1..], orelse, env)
  }

  lemma {:induction false} SelectedSize(branches: seq<Branch>, orelse: OptBlock, env: Scope)
    requires Select(branches, orelse, env).Ok?
    ensures BlockSize(Select(branches, orelse, env).value) <= BranchesSize(branches) + OptSize(orelse)
    decreases |branches|
  {
    if branches != [] && !AsBool(Eval(branches[0].cond, env).value).value {
      SelectedSize(branches[1..], orelse, env);
    }
  }
}
