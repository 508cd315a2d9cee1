/** A reference account of elaboration that neither substitutes nor unrolls: loop variables are looked up, and the
    iterations are counted. The elaborator's environment, errors and fuel are exactly those of this account. */
module ElaborationFuel {
  import opened Wrappers
  import opened CtValues
  import opened ComptimeSyntax
  import opened ConstantFolding
  import opened ElaborationRules
  import opened ElaborationChoice

  // ----- loop variables -----

  /** Loop variables hold the run-time form of their values. */
  ghost predicate Literal(loops: Loops) {
    forall n <- loops :: Materialize(loops[n]).Some? && Canonical(loops[n]) == loops[n]
  }

  /** Entering a `comptime for`. An enclosing loop's variable of the same name has already been written into the
      body, so it wins; a value without a run-time form is never written. */
  function Enter(loops: Loops, name: string, v: CtValue): Loops {
    if name in loops || Materialize(v).None? then loops else loops[name := Canonical(v)]
  }

  lemma {:induction false} CanonicalIsLiteral(v: CtValue)
    requires Materialize(v).Some?
    ensures Materialize(Canonical(v)) == Materialize(v)
    ensures Canonical(Canonical(v)) == Canonical(v)
    decreases v, 0
  {
    match v
    case Tuple(items) => CanonicalsAreLiteral(items);
    case List(items) => CanonicalsAreLiteral(items);
    case _ =>
  }

  lemma {:induction false} CanonicalsAreLiteral(vs: seq<CtValue>)
    requires MaterializeAll(vs).Some?
    ensures MaterializeAll(CanonicalAll(vs)) == MaterializeAll(vs)
    ensures CanonicalAll(CanonicalAll(vs)) == CanonicalAll(vs)
    decreases vs, 1
  {
    if vs != [] {
      CanonicalIsLiteral(vs[0]);
      CanonicalsAreLiteral(vs[1..]);
      var c := CanonicalAll(vs);
      assert c[0] == Canonical(vs[0]) && c[1..] == CanonicalAll(vs[1..]);
    }
  }

  lemma EnterIsLiteral(loops: Loops, name: string, v: CtValue)
    requires Literal(loops)
    ensures Literal(Enter(loops, name, v))
  {
    if Materialize(v).Some? { CanonicalIsLiteral(v); }
  }

  // ----- literals are closed -----

  lemma {:induction false} LiteralIsClosed(v: CtValue, loops: Loops, scope: Scope)
    requires Materialize(v).Some?
    ensures SubstExpr(Materialize(v).value, loops) == Materialize(v).value
    ensures Eval(Materialize(v).value, scope) == Ok(Canonical(v))
    ensures var e := Materialize(v).value; !(e.Apply? && e.operation.Range?)
    decreases v, 0
  {
    match v
    case Tuple(items) => LiteralsAreClosed(items, loops, scope);
    case List(items) => LiteralsAreClosed(items, loops, scope);
    case _ =>
  }

  lemma {:induction false} LiteralsAreClosed(vs: seq<CtValue>, loops: Loops, scope: Scope)
    requires MaterializeAll(vs).Some?
    ensures SubstExprs(MaterializeAll(vs).value, loops) == MaterializeAll(vs).value
    ensures EvalAll(MaterializeAll(vs).value, scope) == Ok(CanonicalAll(vs))
    decreases vs, 1
  {
    if vs != [] {
      LiteralIsClosed(vs[0], loops, scope);
      LiteralsAreClosed(vs[1..], loops, scope);
      var es := MaterializeAll(vs).value;
      assert es[0] == Materialize(vs[0]).value && es[1..] == MaterializeAll(vs[1..]).value;
    }
  }

  // ----- substituting once or twice -----

  lemma SubstIdentifierTwice(n: string, loops: Loops, name: string, v: CtValue)
    requires Literal(loops)
    ensures SubstExpr(SubstExpr(Identifier(n), loops), map[name := v])
      == SubstExpr(Identifier(n), Enter(loops, name, v))
  {
    if n in loops { LiteralIsClosed(loops[n], map[name := v], map[]); }
    if Materialize(v).Some? { CanonicalIsLiteral(v); }
  }

  lemma {:induction false} SubstExprTwice(e: Expr, loops: Loops, name: string, v: CtValue)
    requires Literal(loops)
    ensures SubstExpr(SubstExpr(e, loops), map[name := v]) == SubstExpr(e, Enter(loops, name, v))
    decreases e, 0
  {
    match e
    case Identifier(n) => SubstIdentifierTwice(n, loops, name, v);
    case TupleLit(items) => SubstExprsTwice(items, loops, name, v);
    case ListLit(items) => SubstExprsTwice(items, loops, name, v);
    case Neg(operand) => SubstExprTwice(operand, loops, name, v);
    case Not(operand) => SubstExprTwice(operand, loops, name, v);
    case Infix(_, left, right) => SubstExprTwice(left, loops, name, v); SubstExprTwice(right, loops, name, v);
    case Apply(_, args) => SubstExprsTwice(args, loops, name, v);
    case _ =>
  }

  lemma {:induction false} SubstExprsTwice(es: seq<Expr>, loops: Loops, name: string, v: CtValue)
    requires Literal(loops)
    ensures SubstExprs(SubstExprs(es, loops), map[name := v]) == SubstExprs(es, Enter(loops, name, v))
    decreases es, 1
  {
    if es != [] {
      SubstExprTwice(es[0], loops, name, v);
      SubstExprsTwice(es[1..], loops, name, v);
      assert SubstExprs(es, loops)[1..] == SubstExprs(es[1..], loops);
    }
  }

  lemma {:induction false} SubstTwice(st: Stmt, loops: Loops, name: string, v: CtValue)
    requires Literal(loops)
    ensures SubstStmt(SubstStmt(st, loops), map[name := v]) == SubstStmt(st, Enter(loops, name, v))
    decreases st, 0, 1
  {
    match st
    case Comptime(_, value) => SubstExprTwice(value, loops, name, v);
    case ComptimeIf(branches, orelse) =>
      SubstBranchesTwice(branches, loops, name, v);
      SubstOptTwice(orelse, loops, name, v);
    case ComptimeFor(_, iter, body) => SubstExprTwice(iter, loops, name, v); SubstBlockTwice(body, loops, name, v);
    case VarDecl(_, value) => SubstExprTwice(value, loops, name, v);
    case Assign(_, value) => SubstExprTwice(value, loops, name, v);
    case ExprStmt(value) => SubstExprTwice(value, loops, name, v);
    case If(branches, orelse) => SubstBranchesTwice(branches, loops, name, v); SubstOptTwice(orelse, loops, name, v);
    case With(_, items, body) => SubstItemsTwice(items, loops, name, v); SubstBlockTwice(body, loops, name, v);
    case Return(value) => SubstExprTwice(value, loops, name, v);
    case Raise(value) => SubstExprTwice(value, loops, name, v);
    case _ => if st.While? || st.For? || st.Try? { SubstRuntimeTwice(st, loops, name, v); }
  }

  lemma {:induction false} SubstRuntimeTwice(st: Stmt, loops: Loops, name: string, v: CtValue)
    requires Literal(loops) && (st.While? || st.For? || st.Try?)
    ensures SubstStmt(SubstStmt(st, loops), map[name := v]) == SubstStmt(st, Enter(loops, name, v))
    decreases st, 0, 0
  {
    SubstBlockTwice(st.body, loops, name, v);
    SubstOptTwice(st.orelse, loops, name, v);
    if st.Try? {
      SubstOptTwice(st.handler, loops, name, v);
      SubstOptTwice(st.finalbody, loops, name, v);
    } else {
      SubstExprTwice(if st.While? then st.cond else st.iter, loops, name, v);
    }
  }

  lemma {:induction false} SubstBlockTwice(body: seq<Stmt>, loops: Loops, name: string, v: CtValue)
    requires Literal(loops)
    ensures SubstBlock(SubstBlock(body, loops), map[name := v]) == SubstBlock(body, Enter(loops, name, v))
    decreases body, 1
  {
    if body != [] {
      SubstTwice(body[0], loops, name, v);
      SubstBlockTwice(body[1..], loops, name, v);
      assert SubstBlock(body, loops)[1..] == SubstBlock(body[1..], loops);
    }
  }

  lemma {:induction false} SubstOptTwice(o: OptBlock, loops: Loops, name: string, v: CtValue)
    requires Literal(loops)
    ensures SubstOpt(SubstOpt(o, loops), map[name := v]) == SubstOpt(o, Enter(loops, name, v))
    decreases o, 2
  {
    if o.Block? { SubstBlockTwice(o.body, loops, name, v); }
  }

  lemma {:induction false} SubstBranchesTwice(branches: seq<Branch>, loops: Loops, name: string, v: CtValue)
    requires Literal(loops)
    ensures SubstBranches(SubstBranches(branches, loops), map[name := v])
      == SubstBranches(branches, Enter(loops, name, v))
    decreases branches, 1
  {
    if branches != [] {
      SubstExprTwice(branches[0].cond, loops, name, v);
      SubstBlockTwice(branches[0].body, loops, name, v);
      SubstBranchesTwice(branches[1..], loops, name, v);
      assert SubstBranches(branches, loops)[1..] == SubstBranches(branches[1..], loops);
    }
  }

  lemma {:induction false} SubstItemsTwice(items: seq<WithItem>, loops: Loops, name: string, v: CtValue)
    requires Literal(loops)
    ensures SubstItems(SubstItems(items, loops), map[name := v]) == SubstItems(items, Enter(loops, name, v))
  {
    if items != [] {
      SubstExprTwice(items[0].context, loops, name, v);
      SubstItemsTwice(items[1..], loops, name, v);
      assert SubstItems(items, loops)[1..] == SubstItems(items[1..], loops);
    }
  }

  // ----- substitution is lookup -----

  lemma {:induction false} EvalSubst(e: Expr, loops: Loops, env: Scope)
    requires Literal(loops)
    ensures Eval(SubstExpr(e, loops), env) == Eval(e, env + loops)
    decreases e, 0
  {
    match e
    case Identifier(n) => if n in loops { LiteralIsClosed(loops[n], loops, env); }
    case TupleLit(items) => EvalAllSubst(items, loops, env);
    case ListLit(items) => EvalAllSubst(items, loops, env);
    case Neg(operand) => EvalSubst(operand, loops, env);
    case Not(operand) => EvalSubst(operand, loops, env);
    case Infix(op, left, right) =>
      EvalSubst(left, loops, env);
      EvalSubst(right, loops, env);
      InfixSubst(op, left, right, loops, env);
    case Apply(operation, args) =>
      if 1 <= |args| <= 2 {
        EvalSubst(args[0], loops, env);
        EvalSubst(args[|args| - 1], loops, env);
      }
      ApplySubst(operation, args, loops, env);
    case _ =>
  }

  lemma InfixSubst(op: InfixOp, left: Expr, right: Expr, loops: Loops, env: Scope)
    requires Eval(SubstExpr(left, loops), env) == Eval(left, env + loops)
    requires Eval(SubstExpr(right, loops), env) == Eval(right, env + loops)
    ensures Eval(SubstExpr(Infix(op, left, right), loops), env) == Eval(Infix(op, left, right), env + loops)
  {
  }

  lemma ApplySubst(operation: Operation, args: seq<Expr>, loops: Loops, env: Scope)
    requires 1 <= |args| <= 2 ==> Eval(SubstExpr(args[0], loops), env) == Eval(args[0], env + loops)
    requires 1 <= |args| <= 2 ==> Eval(SubstExpr(args[|args| - 1], loops), env) == Eval(args[|args| - 1], env + loops)
    ensures Eval(SubstExpr(Apply(operation, args), loops), env) == Eval(Apply(operation, args), env + loops)
  {
    if 1 <= |args| <= 2 {
      SubstExprsAt(args, loops, 0);
      SubstExprsAt(args, loops, |args| - 1);
    }
  }

  lemma {:induction false} SubstExprsAt(es: seq<Expr>, loops: Loops, k: nat)
    requires k < |es|
    ensures SubstExprs(es, loops)[k] == SubstExpr(es[k], loops)
  {
    if k > 0 { SubstExprsAt(es[1..], loops, k - 1); }
  }

  lemma {:induction false} EvalAllSubst(es: seq<Expr>, loops: Loops, env: Scope)
    requires Literal(loops)
    ensures EvalAll(SubstExprs(es, loops), env) == EvalAll(es, env + loops)
    decreases es, 1
  {
    if es != [] {
      EvalSubst(es[0], loops, env);
      EvalAllSubst(es[1..], loops, env);
      assert SubstExprs(es, loops)[1..] == SubstExprs(es[1..], loops);
    }
  }

  lemma {:induction false} EvalIntsSubst(es: seq<Expr>, loops: Loops, env: Scope)
    requires Literal(loops)
    ensures EvalInts(SubstExprs(es, loops), env) == EvalInts(es, env + loops)
  {
    if es != [] {
      EvalSubst(es[0], loops, env);
      EvalIntsSubst(es[1..], loops, env);
      assert SubstExprs(es, loops)[1..] == SubstExprs(es[1..], loops);
    }
  }

  lemma EvalIterSubst(iter: Expr, loops: Loops, env: Scope)
    requires Literal(loops)
    ensures EvalIter(SubstExpr(iter, loops), env) == EvalIter(iter, env + loops)
  {
    EvalSubst(iter, loops, env);
    if iter.Apply? { EvalIntsSubst(iter.args, loops, env); }
    if iter.Identifier? && iter.name in loops { LiteralIsClosed(loops[iter.name], loops, env); }
  }

  lemma {:induction false} SelectSubst(branches: seq<Branch>, orelse: OptBlock, loops: Loops, env: Scope)
    requires Literal(loops)
    ensures var s := Select(branches, orelse, env + loops);
      Select(SubstBranches(branches, loops), SubstOpt(orelse, loops), env)
        == if s.Ok? then Ok(SubstBlock(s.value, loops)) else s
  {
    if branches != [] {
      EvalSubst(branches[0].cond, loops, env);
      SelectSubst(branches[1..], orelse, loops, env);
      assert SubstBranches(branches, loops)[1..] == SubstBranches(branches[1..], loops);
    }
  }

  // ----- the reference account -----

  /** The compile-time environment afterwards and the iterations of `comptime for` loops, nested ones included. */
  datatype Account = Account(env: Scope, iterations: nat)

  function Then(first: Account, second: Account): Account {
    Account(second.env, first.iterations + second.iterations)
  }

  function AccountStmt(st: Stmt, loops: Loops, env: Scope): Result<Account, Error>
    decreases Size(st), 1, 0
  {
    match st
    case Comptime(name, value) =>
      var v :- Eval(value, env + loops);
      Ok(Account(env[name := v], 0))
    case ComptimeIf(branches, orelse) =>
      var taken :- Chosen(branches, orelse, env + loops);
      AccountBlock(taken, loops, env)
    case ComptimeFor(name, iter, body) =>
      var vs :- LoopValues(iter, env + loops);
      AccountIterations(name, vs, body, loops, env)
    case If(branches, orelse) =>
      var bs :- AccountBranches(branches, loops, env);
      var o :- AccountOpt(orelse, loops, bs.env);
      Ok(Then(bs, o))
    case While(cond, body, orelse) =>
      var b :- AccountBlock(body, loops, env);
      var o :- AccountOpt(orelse, loops, b.env);
      Ok(Then(b, o))
    case For(_, _, body, orelse) =>
      var b :- AccountBlock(body, loops, env);
      var o :- AccountOpt(orelse, loops, b.env);
      Ok(Then(b, o))
    case Try(body, _, handler, orelse, finalbody) =>
      var b :- AccountBlock(body, loops, env);
      var c :- AccountThree(handler, orelse, finalbody, loops, b.env);
      Ok(Then(b, c))
    case With(_, _, body) => AccountBlock(body, loops, env)
    case _ => Ok(Account(env, 0))
  }

  function AccountBlock(body: seq<Stmt>, loops: Loops, env: Scope): Result<Account, Error>
    decreases BlockSize(body), 0, 0
  {
    if body == [] then Ok(Account(env, 0))
    else
      var first :- AccountStmt(body[0], loops, env);
      var rest :- AccountBlock(body[1..], loops, first.env);
      Ok(Then(first, rest))
  }

  function AccountOpt(o: OptBlock, loops: Loops, env: Scope): Result<Account, Error>
    decreases OptSize(o), 1, 0
  {
    match o case NoBlock => Ok(Account(env, 0)) case Block(body) => AccountBlock(body, loops, env)
  }

  function AccountTwo(first: OptBlock, second: OptBlock, loops: Loops, env: Scope): Result<Account, Error>
    decreases OptSize(first) + OptSize(second), 2, 0
  {
    var a :- AccountOpt(first, loops, env);
    var b :- AccountOpt(second, loops, a.env);
    Ok(Then(a, b))
  }

  function AccountThree(first: OptBlock, second: OptBlock, third: OptBlock, loops: Loops, env: Scope)
    : Result<Account, Error>
    decreases OptSize(first) + OptSize(second) + OptSize(third), 3, 0
  {
    var a :- AccountOpt(first, loops, env);
    var b :- AccountTwo(second, third, loops, a.env);
    Ok(Then(a, b))
  }

  function AccountBranches(branches: seq<Branch>, loops: Loops, env: Scope): Result<Account, Error>
    decreases BranchesSize(branches), 1, 0
  {
    if branches == [] then Ok(Account(env, 0))
    else
      var b :- AccountBlock(branches[0].body, loops, env);
      var rest :- AccountBranches(branches[1..], loops, b.env);
      Ok(Then(b, rest))
  }

  function AccountIterations(name: string, vs: seq<CtValue>, body: seq<Stmt>, loops: Loops, env: Scope)
    : Result<Account, Error>
    decreases BlockSize(body), 1, |vs|
  {
    if vs == [] then Ok(Account(env, 0))
    else
      var first :- AccountBlock(body, Enter(loops, name, vs[0]), env);
      var rest :- AccountIterations(name, vs[1..], body, loops, first.env);
      Ok(Account(rest.env, 1 + first.iterations + rest.iterations))
  }

  // ----- elaboration is accounted for -----

  /** With enough fuel the elaborator succeeds, in the account's environment, having spent one unit per iteration;
      with less it exceeds its quota; and it fails whenever the account does. */
  ghost predicate Accounted<T>(a: Result<Account, Error>, e: Result<Elaborated<T>, Error>, fuel: nat) {
    if a.Err? then e.Err?
    else if a.value.iterations > fuel then e == Err(QuotaExceeded)
    else e.Ok? && e.value.env == a.value.env && e.value.fuel == fuel - a.value.iterations
  }

  lemma {:induction false} StmtIsAccounted(st: Stmt, loops: Loops, env: Scope, fuel: nat)
    requires Literal(loops)
    ensures Accounted(AccountStmt(st, loops, env), ElabStmt(SubstStmt(st, loops), env, fuel), fuel)
    decreases Size(st), 1, 0
  {
    match st
    case Comptime(name, value) => EvalSubst(value, loops, env);
    case ComptimeIf(branches, orelse) => SelectionIsAccounted(branches, orelse, loops, env, fuel);
    case ComptimeFor(name, iter, body) =>
      EvalIterSubst(iter, loops, env);
      IteratesLoopValues(iter, env + loops);
      var vs := LoopValues(iter, env + loops);
      if vs.Ok? { IterationsAreAccounted(name, vs.value, body, loops, env, fuel); }
    case If(branches, orelse) => IfIsAccounted(branches, orelse, loops, env, fuel);
    case While(cond, body, orelse) => WhileIsAccounted(cond, body, orelse, loops, env, fuel);
    case For(name, iter, body, orelse) => ForIsAccounted(name, iter, body, orelse, loops, env, fuel);
    case Try(body, caught, handler, orelse, finalbody) =>
      TryIsAccounted(body, caught, handler, orelse, finalbody, loops, env, fuel);
    case With(_, _, body) => BlockIsAccounted(body, loops, env, fuel);
    case _ =>
  }

  lemma {:induction false} SelectionIsAccounted(branches: seq<Branch>, orelse: OptBlock, loops: Loops, env: Scope,
                                                fuel: nat)
    requires Literal(loops)
    ensures Accounted(AccountStmt(ComptimeIf(branches, orelse), loops, env),
                      ElabStmt(SubstStmt(ComptimeIf(branches, orelse), loops), env, fuel), fuel)
    decreases Size(ComptimeIf(branches, orelse)), 0, 0
  {
    SelectSubst(branches, orelse, loops, env);
    SelectsChosen(branches, orelse, env + loops);
    var s := Chosen(branches, orelse, env + loops);
    if s.Ok? {
      BlockIsAccounted(s.value, loops, env, fuel);
    }
  }

  lemma {:induction false} IfIsAccounted(branches: seq<Branch>, orelse: OptBlock, loops: Loops, env: Scope, fuel: nat)
    requires Literal(loops)
    ensures Accounted(AccountStmt(If(branches, orelse), loops, env),
                      ElabStmt(SubstStmt(If(branches, orelse), loops), env, fuel), fuel)
    decreases Size(If(branches, orelse)), 0, 0
  {
    BranchesAreAccounted(branches, loops, env, fuel);
    var e := ElabBranches(SubstBranches(branches, loops), env, fuel);
    if e.Ok? { OptIsAccounted(orelse, loops, e.value.env, e.value.fuel); }
  }

  lemma {:induction false} WhileIsAccounted(cond: Expr, body: seq<Stmt>, orelse: OptBlock, loops: Loops, env: Scope,
                                            fuel: nat)
    requires Literal(loops)
    ensures Accounted(AccountStmt(While(cond, body, orelse), loops, env),
                      ElabStmt(SubstStmt(While(cond, body, orelse), loops), env, fuel), fuel)
    decreases Size(While(cond, body, orelse)), 0, 0
  {
    BlockIsAccounted(body, loops, env, fuel);
    var e := ElabBlock(SubstBlock(body, loops), env, fuel);
    if e.Ok? { OptIsAccounted(orelse, loops, e.value.env, e.value.fuel); }
  }

  lemma {:induction false} ForIsAccounted(name: string, iter: Expr, body: seq<Stmt>, orelse: OptBlock, loops: Loops,
                                          env: Scope, fuel: nat)
    requires Literal(loops)
    ensures Accounted(AccountStmt(For(name, iter, body, orelse), loops, env),
                      ElabStmt(SubstStmt(For(name, iter, body, orelse), loops), env, fuel), fuel)
    decreases Size(For(name, iter, body, orelse)), 0, 0
  {
    BlockIsAccounted(body, loops, env, fuel);
    var e := ElabBlock(SubstBlock(body, loops), env, fuel);
    if e.Ok? { OptIsAccounted(orelse, loops, e.value.env, e.value.fuel); }
  }

  lemma {:induction false} TryIsAccounted(body: seq<Stmt>, caught: Option<string>, handler: OptBlock, orelse: OptBlock,
                                          finalbody: OptBlock,
                                          loops: Loops, env: Scope, fuel: nat)
    requires Literal(loops)
    ensures var st := Try(body, caught, handler, orelse, finalbody);
      Accounted(AccountStmt(st, loops, env), ElabStmt(SubstStmt(st, loops), env, fuel), fuel)
    decreases Size(Try(body, caught, handler, orelse, finalbody)), 0, 0
  {
    BlockIsAccounted(body, loops, env, fuel);
    var b := ElabBlock(SubstBlock(body, loops), env, fuel);
    if b.Ok? { ThreeAreAccounted(handler, orelse, finalbody, loops, b.value.env, b.value.fuel); }
    TryPartsAreAccounted(body, caught, handler, orelse, finalbody, loops, env, fuel);
  }

  lemma TryPartsAreAccounted(body: seq<Stmt>, caught: Option<string>, handler: OptBlock, orelse: OptBlock,
                             finalbody: OptBlock,
                             loops: Loops, env: Scope, fuel: nat)
    requires var b := ElabBlock(SubstBlock(body, loops), env, fuel);
      && Accounted(AccountBlock(body, loops, env), b, fuel)
      && (b.Ok? ==>
            Accounted(AccountThree(handler, orelse, finalbody, loops, b.value.env),
                      ElabThree(SubstOpt(handler, loops), SubstOpt(orelse, loops), SubstOpt(finalbody, loops),
                                b.value.env, b.value.fuel),
                      b.value.fuel))
    ensures var st := Try(body, caught, handler, orelse, finalbody);
      Accounted(AccountStmt(st, loops, env), ElabStmt(SubstStmt(st, loops), env, fuel), fuel)
  {
  }

  lemma {:induction false} ThreeAreAccounted(first: OptBlock, second: OptBlock, third: OptBlock, loops: Loops,
                                             env: Scope, fuel: nat)
    requires Literal(loops)
    ensures Accounted(AccountThree(first, second, third, loops, env),
                      ElabThree(SubstOpt(first, loops), SubstOpt(second, loops), SubstOpt(third, loops), env, fuel),
                        fuel)
    decreases OptSize(first) + OptSize(second) + OptSize(third), 3, 0
  {
    OptIsAccounted(first, loops, env, fuel);
    var a := ElabOpt(SubstOpt(first, loops), env, fuel);
    if a.Ok? { TwoAreAccounted(second, third, loops, a.value.env, a.value.fuel); }
  }

  lemma {:induction false} TwoAreAccounted(first: OptBlock, second: OptBlock, loops: Loops, env: Scope, fuel: nat)
    requires Literal(loops)
    ensures Accounted(AccountTwo(first, second, loops, env),
                      ElabTwo(SubstOpt(first, loops), SubstOpt(second, loops), env, fuel), fuel)
    decreases OptSize(first) + OptSize(second), 2, 0
  {
    OptIsAccounted(first, loops, env, fuel);
    var a := ElabOpt(SubstOpt(first, loops), env, fuel);
    if a.Ok? { OptIsAccounted(second, loops, a.value.env, a.value.fuel); }
  }

  /** Elaborating a block spends exactly one unit of fuel for each iteration its loops unroll to. */
  lemma {:induction false} BlockIsAccounted(body: seq<Stmt>, loops: Loops, env: Scope, fuel: nat)
    requires Literal(loops)
    ensures Accounted(AccountBlock(body, loops, env), ElabBlock(SubstBlock(body, loops), env, fuel), fuel)
    decreases BlockSize(body), 0, 0
  {
    if body != [] {
      StmtIsAccounted(body[0], loops, env, fuel);
      assert SubstBlock(body, loops)[1..] == SubstBlock(body[1..], loops);
      var e := ElabStmt(SubstStmt(body[0], loops), env, fuel);
      if e.Ok? { BlockIsAccounted(body[1..], loops, e.value.env, e.value.fuel); }
    }
  }

  lemma {:induction false} OptIsAccounted(o: OptBlock, loops: Loops, env: Scope, fuel: nat)
    requires Literal(loops)
    ensures Accounted(AccountOpt(o, loops, env), ElabOpt(SubstOpt(o, loops), env, fuel), fuel)
    decreases OptSize(o), 1, 0
  {
    if o.Block? { BlockIsAccounted(o.body, loops, env, fuel); }
  }

  lemma {:induction false} BranchesAreAccounted(branches: seq<Branch>, loops: Loops, env: Scope, fuel: nat)
    requires Literal(loops)
    ensures Accounted(AccountBranches(branches, loops, env), ElabBranches(SubstBranches(branches, loops), env, fuel),
                      fuel)
    decreases BranchesSize(branches), 1, 0
  {
    if branches != [] {
      BlockIsAccounted(branches[0].body, loops, env, fuel);
      assert SubstBranches(branches, loops)[1..] == SubstBranches(branches[1..], loops);
      var e := ElabBlock(SubstBlock(branches[0].body, loops), env, fuel);
      if e.Ok? { BranchesAreAccounted(branches[1..], loops, e.value.env, e.value.fuel); }
    }
  }

  lemma {:induction false} IterationsAreAccounted(name: string, vs: seq<CtValue>, body: seq<Stmt>, loops: Loops,
                                                  env: Scope, fuel: nat)
    requires Literal(loops)
    ensures Accounted(AccountIterations(name, vs, body, loops, env),
                      ElabIterations(name, vs, SubstBlock(body, loops), env, fuel), fuel)
    decreases BlockSize(body), 1, |vs|
  {
    if vs != [] && fuel > 0 {
      SubstBlockTwice(body, loops, name, vs[0]);
      EnterIsLiteral(loops, name, vs[0]);
      BlockIsAccounted(body, Enter(loops, name, vs[0]), env, fuel - 1);
      var e := ElabBlock(SubstBlock(body, Enter(loops, name, vs[0])), env, fuel - 1);
      if e.Ok? { IterationsAreAccounted(name, vs[1..], body, loops, e.value.env, e.value.fuel); }
    }
  }

  // ----- the whole program -----

  /** The number of iterations a program's compile-time loops may unroll to. */
  const FUEL: nat := 100_000

  lemma {:induction false} SubstExprNothing(e: Expr)
    ensures SubstExpr(e, map[]) == e
    decreases e, 0
  {
    match e
    case TupleLit(items) => SubstExprsNothing(items);
    case ListLit(items) => SubstExprsNothing(items);
    case Neg(operand) => SubstExprNothing(operand);
    case Not(operand) => SubstExprNothing(operand);
    case Infix(_, left, right) => SubstExprNothing(left); SubstExprNothing(right);
    case Apply(_, args) => SubstExprsNothing(args);
    case _ =>
  }

  lemma {:induction false} SubstExprsNothing(es: seq<Expr>)
    ensures SubstExprs(es, map[]) == es
    decreases es, 1
  {
    if es != [] { SubstExprNothing(es[0]); SubstExprsNothing(es[1..]); }
  }

  lemma {:induction false} SubstNothing(st: Stmt)
    ensures SubstStmt(st, map[]) == st
    decreases st, 0
  {
    match st
    case Comptime(_, value) => SubstExprNothing(value);
    case ComptimeIf(branches, orelse) => SubstBranchesNothing(branches); SubstOptNothing(orelse);
    case ComptimeFor(_, iter, body) => SubstExprNothing(iter); SubstBlockNothing(body);
    case VarDecl(_, value) => SubstExprNothing(value);
    case Assign(_, value) => SubstExprNothing(value);
    case ExprStmt(value) => SubstExprNothing(value);
    case If(branches, orelse) => SubstBranchesNothing(branches); SubstOptNothing(orelse);
    case While(cond, body, orelse) => SubstExprNothing(cond); SubstBlockNothing(body); SubstOptNothing(orelse);
    case For(_, iter, body, orelse) => SubstExprNothing(iter); SubstBlockNothing(body); SubstOptNothing(orelse);
    case Try(body, _, handler, orelse, finalbody) =>
      SubstBlockNothing(body); SubstOptNothing(handler); SubstOptNothing(orelse); SubstOptNothing(finalbody);
    case With(_, items, body) => SubstItemsNothing(items); SubstBlockNothing(body);
    case Return(value) => SubstExprNothing(value);
    case Raise(value) => SubstExprNothing(value);
    case _ =>
  }

  lemma {:induction false} SubstBlockNothing(body: seq<Stmt>)
    ensures SubstBlock(body, map[]) == body
    decreases body, 1
  {
    if body != [] { SubstNothing(body[0]); SubstBlockNothing(body[1..]); }
  }

  lemma {:induction false} SubstOptNothing(o: OptBlock)
    ensures SubstOpt(o, map[]) == o
    decreases o, 2
  {
    if o.Block? { SubstBlockNothing(o.body); }
  }

  lemma {:induction false} SubstBranchesNothing(branches: seq<Branch>)
    ensures SubstBranches(branches, map[]) == branches
    decreases branches, 1
  {
    if branches != [] {
      SubstExprNothing(branches[0].cond);
      SubstBlockNothing(branches[0].body);
      SubstBranchesNothing(branches[1..]);
    }
  }

  lemma {:induction false} SubstItemsNothing(items: seq<WithItem>)
    ensures SubstItems(items, map[]) == items
  {
    if items != [] { SubstExprNothing(items[0].context); SubstItemsNothing(items[1..]); }
  }

  /** A block elaborates exactly if every compile-time construct in it can be resolved in place and its loops, nested
      ones included, come to at most the quota of iterations; that many units of fuel are then spent. */
  lemma ElaboratesWithinQuota(body: seq<Stmt>, env: Scope)
    ensures var account := AccountBlock(body, map[], env); var e := ElabBlock(body, env, FUEL);
      && (e.Ok? <==> account.Ok? && account.value.iterations <= FUEL)
      && (e.Ok? ==> e.value.env == account.value.env && FUEL - e.value.fuel == account.value.iterations)
  {
    BlockIsAccounted(body, map[], env, FUEL);
    SubstBlockNothing(body);
  }
}
