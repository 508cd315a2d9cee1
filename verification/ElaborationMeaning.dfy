/** Elaboration preserves meaning: running the statements it produces does what the source means. */
module ElaborationMeaning {
  import opened Wrappers
  import opened CtValues
  import opened ComptimeSyntax
  import opened ConstantFolding
  import opened ElaborationRules
  import opened ElaborationChoice
  import opened ElaborationFuel
  import opened ElaborationRuns
  import SpecializationNames

  // ----- source programs -----

  /** Names starting with `$` cannot be written in source programs. */
  predicate Hidden(name: string) {
    name != "" && name[0] == '$'
  }

  predicate PlainExpr(e: Expr)
    decreases e, 0
  {
    match e
    case Identifier(name) => !Hidden(name)
    case TupleLit(items) => PlainExprs(items)
    case ListLit(items) => PlainExprs(items)
    case Neg(operand) => PlainExpr(operand)
    case Not(operand) => PlainExpr(operand)
    case Infix(_, left, right) => PlainExpr(left) && PlainExpr(right)
    case Apply(_, args) => PlainExprs(args)
    case _ => true
  }

  predicate PlainExprs(es: seq<Expr>)
    decreases es, 1
  {
    es != [] ==> PlainExpr(es[0]) && PlainExprs(es[1..])
  }

  predicate PlainName(name: Option<string>) {
    name.Some? ==> !Hidden(name.value)
  }

  /** No hidden names, and `with` statements inside one another start at different offsets. */
  predicate Plain(st: Stmt)
    decreases st, 0
  {
    match st
    case Comptime(name, value) => !Hidden(name)
    case ComptimeIf(branches, orelse) => PlainBranches(branches) && PlainOpt(orelse)
    case ComptimeFor(name, iter, body) => !Hidden(name) && PlainBlock(body)
    case VarDecl(name, value) => !Hidden(name) && PlainExpr(value)
    case Assign(name, value) => !Hidden(name) && PlainExpr(value)
    case ExprStmt(value) => PlainExpr(value)
    case If(branches, orelse) => PlainBranches(branches) && PlainOpt(orelse)
    case While(cond, body, orelse) => PlainExpr(cond) && PlainBlock(body) && PlainOpt(orelse)
    case For(name, iter, body, orelse) => !Hidden(name) && PlainExpr(iter) && PlainBlock(body) && PlainOpt(orelse)
    case Try(body, caught, handler, orelse, finalbody) =>
      PlainName(caught) && PlainBlock(body) && PlainOpt(handler) && PlainOpt(orelse) && PlainOpt(finalbody)
    case With(span, items, body) => PlainItems(items) && PlainBlock(body) && !SpanInBlock(body, span)
    case Return(value) => PlainExpr(value)
    case Raise(value) => PlainExpr(value)
    case _ => true
  }

  predicate PlainBlock(body: seq<Stmt>)
    decreases body, 1
  {
    body != [] ==> Plain(body[0]) && PlainBlock(body[1..])
  }

  predicate PlainOpt(o: OptBlock)
    decreases o, 2
  {
    o.Block? ==> PlainBlock(o.body)
  }

  predicate PlainBranches(branches: seq<Branch>)
    decreases branches, 1
  {
    branches != [] ==> PlainExpr(branches[0].cond) && PlainBlock(branches[0].body) && PlainBranches(branches[1..])
  }

  predicate PlainItems(items: seq<WithItem>) {
    items != [] ==> PlainExpr(items[0].context) && PlainName(items[0].name) && PlainItems(items[1..])
  }

  predicate SpanIn(st: Stmt, span: nat)
    decreases st, 0
  {
    match st
    case ComptimeIf(branches, orelse) => SpanInBranches(branches, span) || SpanInOpt(orelse, span)
    case ComptimeFor(_, _, body) => SpanInBlock(body, span)
    case If(branches, orelse) => SpanInBranches(branches, span) || SpanInOpt(orelse, span)
    case While(_, body, orelse) => SpanInBlock(body, span) || SpanInOpt(orelse, span)
    case For(_, _, body, orelse) => SpanInBlock(body, span) || SpanInOpt(orelse, span)
    case Try(body, _, handler, orelse, finalbody) =>
      SpanInBlock(body, span) || SpanInOpt(handler, span) || SpanInOpt(orelse, span) || SpanInOpt(finalbody, span)
    case With(s, _, body) => s == span || SpanInBlock(body, span)
    case _ => false
  }

  predicate SpanInBlock(body: seq<Stmt>, span: nat)
    decreases body, 1
  {
    body != [] && (SpanIn(body[0], span) || SpanInBlock(body[1..], span))
  }

  predicate SpanInOpt(o: OptBlock, span: nat)
    decreases o, 2
  {
    o.Block? && SpanInBlock(o.body, span)
  }

  predicate SpanInBranches(branches: seq<Branch>, span: nat)
    decreases branches, 1
  {
    branches != [] && (SpanInBlock(branches[0].body, span) || SpanInBranches(branches[1..], span))
  }

  // ----- names written by elaborated code -----

  predicate Writes(st: Stmt, n: string)
    decreases st, 0
  {
    match st
    case Comptime(name, _) => name == n
    case VarDecl(name, _) => name == n
    case Assign(name, _) => name == n
    case If(branches, orelse) => BranchesWrite(branches, n) || OptWrites(orelse, n)
    case While(_, body, orelse) => BlockWrites(body, n) || OptWrites(orelse, n)
    case For(name, _, body, orelse) => name == n || BlockWrites(body, n) || OptWrites(orelse, n)
    case Try(body, caught, handler, orelse, finalbody) =>
      caught == Some(n) || BlockWrites(body, n) || OptWrites(handler, n) || OptWrites(orelse, n) ||
        OptWrites(finalbody, n)
    case _ => false
  }

  predicate BlockWrites(body: seq<Stmt>, n: string)
    decreases body, 1
  {
    body != [] && (Writes(body[0], n) || BlockWrites(body[1..], n))
  }

  predicate OptWrites(o: OptBlock, n: string)
    decreases o, 2
  {
    o.Block? && BlockWrites(o.body, n)
  }

  predicate BranchesWrite(branches: seq<Branch>, n: string)
    decreases branches, 1
  {
    branches != [] && (BlockWrites(branches[0].body, n) || BranchesWrite(branches[1..], n))
  }

  predicate SameAt(a: Scope, b: Scope, n: string) {
    (n in a <==> n in b) && (n in a ==> a[n] == b[n])
  }

  lemma {:induction false} ExecFrame(h: Host, st: Stmt, store: Scope, log: Log, k: nat, n: string)
    requires !Writes(st, n)
    ensures SameAt(store, Exec(h, st, store, log, k).store, n)
    decreases k, Size(st), 1, 0
  {
    match st
    case If(branches, orelse) => BranchesFrame(h, branches, orelse, store, log, k, n);
    case While(cond, body, orelse) => WhileFrame(h, cond, body, orelse, store, log, k, n);
    case For(name, iter, body, orelse) =>
      var r := RunIter(h, iter, store, log);
      if r.Done? { ForFrame(h, name, r.v, body, orelse, store, r.log, k, n); }
    case Try(body, caught, handler, orelse, finalbody) =>
      BlockFrame(h, body, store, log, k, n);
      var b := ExecBlock(h, body, store, log, k);
      if b.outcome.Raised? { OptFrame(h, handler, Caught(b, caught), b.log, k, n); }
      OptFrame(h, orelse, b.store, b.log, k, n);
      var c := ExecClauses(h, b, caught, handler, orelse, k);
      OptFrame(h, finalbody, c.store, c.log, k, n);
    case _ =>
  }

  lemma {:induction false} BlockFrame(h: Host, body: seq<Stmt>, store: Scope, log: Log, k: nat, n: string)
    requires !BlockWrites(body, n)
    ensures SameAt(store, ExecBlock(h, body, store, log, k).store, n)
    decreases k, BlockSize(body), 0, 0
  {
    if body != [] {
      ExecFrame(h, body[0], store, log, k, n);
      var r := Exec(h, body[0], store, log, k);
      if r.outcome.Normal? { BlockFrame(h, body[1..], r.store, r.log, k, n); }
    }
  }

  lemma {:induction false} OptFrame(h: Host, o: OptBlock, store: Scope, log: Log, k: nat, n: string)
    requires !OptWrites(o, n)
    ensures SameAt(store, ExecOpt(h, o, store, log, k).store, n)
    decreases k, OptSize(o), 0, 0
  {
    if o.Block? { BlockFrame(h, o.body, store, log, k, n); }
  }

  lemma {:induction false} BranchesFrame(h: Host, branches: seq<Branch>, orelse: OptBlock, store: Scope, log: Log,
                                         k: nat, n: string)
    requires !BranchesWrite(branches, n) && !OptWrites(orelse, n)
    ensures SameAt(store, ExecBranches(h, branches, orelse, store, log, k).store, n)
    decreases k, BranchesSize(branches) + OptSize(orelse), 1, 0
  {
    if branches == [] {
      OptFrame(h, orelse, store, log, k, n);
    } else {
      var r := RunExpr(h, branches[0].cond, store, log);
      if r.Done? {
        BlockFrame(h, branches[0].body, store, r.log, k, n);
        BranchesFrame(h, branches[1..], orelse, store, r.log, k, n);
      }
    }
  }

  lemma {:induction false} WhileFrame(h: Host, cond: Expr, body: seq<Stmt>, orelse: OptBlock, store: Scope, log: Log,
                                      k: nat, n: string)
    requires !BlockWrites(body, n) && !OptWrites(orelse, n)
    ensures SameAt(store, ExecWhile(h, cond, body, orelse, store, log, k).store, n)
    decreases k, BlockSize(body) + OptSize(orelse), 1, 0
  {
    var c := RunExpr(h, cond, store, log);
    if c.Done? {
      OptFrame(h, orelse, store, c.log, k, n);
      if k > 0 {
        BlockFrame(h, body, store, c.log, k - 1, n);
        var r := ExecBlock(h, body, store, c.log, k - 1);
        WhileFrame(h, cond, body, orelse, r.store, r.log, k - 1, n);
      }
    }
  }

  lemma {:induction false} ForFrame(h: Host, name: string, vs: seq<CtValue>, body: seq<Stmt>, orelse: OptBlock,
                                    store: Scope, log: Log, k: nat, n: string)
    requires name != n && !BlockWrites(body, n) && !OptWrites(orelse, n)
    ensures SameAt(store, ExecFor(h, name, vs, body, orelse, store, log, k).store, n)
    decreases k, BlockSize(body) + OptSize(orelse), 1, |vs|
  {
    if vs == [] {
      OptFrame(h, orelse, store, log, k, n);
    } else {
      BlockFrame(h, body, store[name := vs[0]], log, k, n);
      var r := ExecBlock(h, body, store[name := vs[0]], log, k);
      ForFrame(h, name, vs[1..], body, orelse, r.store, r.log, k, n);
    }
  }

  lemma {:induction false} AppendWrites(a: seq<Stmt>, b: seq<Stmt>, n: string)
    ensures BlockWrites(a + b, n) <==> BlockWrites(a, n) || BlockWrites(b, n)
  {
    if a == [] {
      assert a + b == b;
    } else {
      AppendWrites(a[1..], b, n);
      assert (a + b)[0] == a[0] && (a + b)[1..] == a[1..] + b;
    }
  }

  // ----- manager names -----

  lemma DigitsUnderscore(a: nat, b: nat, rest: string, tail: string)
    requires SpecializationNames.NumberThen(a, '_', rest) == SpecializationNames.NumberThen(b, '_', tail)
    ensures a == b && rest == tail
  {
    SpecializationNames.DecodeNumberOf(a, '_', rest, []);
    SpecializationNames.DecodeNumberOf(b, '_', tail, []);
    assert rest + [] == rest && tail + [] == tail;
  }

  lemma ManagerNameShape(span: nat, index: nat)
    ensures Hidden(ManagerName(span, index))
    ensures ManagerName(span, index) == "$with" + SpecializationNames.NumberThen(span, '_',
        SpecializationNames.Digits(index))
  {
    var d, i := SpecializationNames.Digits(span), SpecializationNames.Digits(index);
    assert ManagerName(span, index)[0] == '$';
    assert "$with" + d + "_" + i == "$with" + (d + (['_'] + i));
  }

  /** Managers of different `with` statements, or of different items of one, have different names. */
  lemma ManagerNamesDiffer(span: nat, index: nat, other: nat, second: nat)
    ensures ManagerName(span, index) == ManagerName(other, second) <==> span == other && index == second
  {
    if ManagerName(span, index) == ManagerName(other, second) {
      ManagerNameShape(span, index);
      ManagerNameShape(other, second);
      var a := SpecializationNames.NumberThen(span, '_', SpecializationNames.Digits(index));
      var b := SpecializationNames.NumberThen(other, '_', SpecializationNames.Digits(second));
      assert ManagerName(span, index)[5..] == a && ManagerName(other, second)[5..] == b;
      DigitsUnderscore(span, other, SpecializationNames.Digits(index), SpecializationNames.Digits(second));
      SpecializationNames.DigitsNumber(index);
      SpecializationNames.DigitsNumber(second);
    }
  }

  lemma {:induction false} DesugarWrites(span: nat, items: seq<WithItem>, index: nat, body: seq<Stmt>, other: nat,
                                         second: nat)
    requires index <= |items| && forall i :: 0 <= i < |items| ==> PlainName(items[i].name)
    requires !BlockWrites(body, ManagerName(other, second))
    requires other == span ==> second < index
    ensures !BlockWrites(Desugar(span, items, index, body), ManagerName(other, second))
    decreases |items| - index
  {
    if index < |items| {
      DesugarWrites(span, items, index + 1, body, other, second);
      ManagerNamesDiffer(span, index, other, second);
      ManagerNameShape(other, second);
      var manager, n := ManagerName(span, index), ManagerName(other, second);
      assert !Writes(EnterStmt(manager, items[index].name), n);
      LeaveWrites(manager, Desugar(span, items, index + 1, body), n);
      ThreeWrite(VarDecl(manager, items[index].context), EnterStmt(manager, items[index].name),
                 Leave(manager, Desugar(span, items, index + 1, body)), n);
    }
  }

  lemma LeaveWrites(manager: string, rest: seq<Stmt>, n: string)
    ensures Writes(Leave(manager, rest), n) <==> BlockWrites(rest, n)
  {
    var exit := [ExprStmt(Apply(Method("__exit__"), [Identifier(manager)]))];
    assert exit[1..] == [] && !Writes(exit[0], n) && !BlockWrites(exit, n);
  }

  lemma ThreeWrite(a: Stmt, b: Stmt, c: Stmt, n: string)
    ensures BlockWrites([a, b, c], n) <==> Writes(a, n) || Writes(b, n) || Writes(c, n)
  {
    assert [a, b, c][1..] == [b, c] && [b, c][1..] == [c] && [c][1..] == [];
    assert BlockWrites([c], n) <==> Writes(c, n);
    assert BlockWrites([b, c], n) <==> Writes(b, n) || Writes(c, n);
  }

  lemma {:induction false} PlainItemsNames(items: seq<WithItem>, loops: Loops)
    requires PlainItems(items)
    ensures forall i :: 0 <= i < |items| ==> PlainName(SubstItems(items, loops)[i].name)
  {
    if items != [] {
      PlainItemsNames(items[1..], loops);
      var s := SubstItems(items, loops);
      assert s[0].name == items[0].name && s[1..] == SubstItems(items[1..], loops);
      assert forall i :: 1 <= i < |items| ==> s[i] == s[1..][i - 1];
    }
  }

  // ----- elaborated code writes no manager but its own -----

  lemma {:induction false} StmtSpares(st: Stmt, loops: Loops, env: Scope, fuel: nat, span: nat, index: nat)
    requires Literal(loops) && Plain(st) && !SpanIn(st, span)
    requires ElabStmt(SubstStmt(st, loops), env, fuel).Ok?
    ensures !BlockWrites(ElabStmt(SubstStmt(st, loops), env, fuel).value.out, ManagerName(span, index))
    decreases Size(st), 2, 0
  {
    if st.ComptimeIf? || st.ComptimeFor? || st.With? {
      ResolvedSpares(st, loops, env, fuel, span, index);
    } else if st.If? || st.While? || st.For? || st.Try? {
      CompoundSpares(st, loops, env, fuel, span, index);
    } else {
      SimpleSpares(st, loops, env, fuel, span, index);
    }
  }

  lemma SimpleSpares(st: Stmt, loops: Loops, env: Scope, fuel: nat, span: nat, index: nat)
    requires Plain(st) && !(st.ComptimeIf? || st.ComptimeFor? || st.With? || st.If? || st.While? || st.For? || st.Try?)
    requires ElabStmt(SubstStmt(st, loops), env, fuel).Ok?
    ensures !BlockWrites(ElabStmt(SubstStmt(st, loops), env, fuel).value.out, ManagerName(span, index))
  {
    ManagerNameShape(span, index);
  }

  lemma {:induction false} IfSpares(branches: seq<Branch>, orelse: OptBlock, loops: Loops, env: Scope, fuel: nat,
                                    span: nat, index: nat)
    requires Literal(loops) && Plain(If(branches, orelse)) && !SpanIn(If(branches, orelse), span)
    requires ElabStmt(SubstStmt(If(branches, orelse), loops), env, fuel).Ok?
    ensures !BlockWrites(ElabStmt(SubstStmt(If(branches, orelse), loops), env, fuel).value.out,
                         ManagerName(span, index))
    decreases Size(If(branches, orelse)), 0, 0
  {
    BranchesSpare(branches, loops, env, fuel, span, index);
    var b := ElabBranches(SubstBranches(branches, loops), env, fuel).value;
    OptSpares(orelse, loops, b.env, b.fuel, span, index);
  }

  lemma {:induction false} CompoundSpares(st: Stmt, loops: Loops, env: Scope, fuel: nat, span: nat, index: nat)
    requires Literal(loops) && Plain(st) && !SpanIn(st, span) && (st.If? || st.While? || st.For? || st.Try?)
    requires ElabStmt(SubstStmt(st, loops), env, fuel).Ok?
    ensures !BlockWrites(ElabStmt(SubstStmt(st, loops), env, fuel).value.out, ManagerName(span, index))
    decreases Size(st), 1, 0
  {
    match st
    case If(branches, orelse) => IfSpares(branches, orelse, loops, env, fuel, span, index);
    case While(cond, body, orelse) => PartsSpare(body, orelse, loops, env, fuel, span, index);
    case For(name, iter, body, orelse) => PartsSpare(body, orelse, loops, env, fuel, span, index);
    case Try(body, caught, handler, orelse, finalbody) =>
      TrySpares(body, caught, handler, orelse, finalbody, loops, env, fuel, span, index);
  }

  lemma {:induction false} ResolvedSpares(st: Stmt, loops: Loops, env: Scope, fuel: nat, span: nat, index: nat)
    requires Literal(loops) && Plain(st) && !SpanIn(st, span) && (st.ComptimeIf? || st.ComptimeFor? || st.With?)
    requires ElabStmt(SubstStmt(st, loops), env, fuel).Ok?
    ensures !BlockWrites(ElabStmt(SubstStmt(st, loops), env, fuel).value.out, ManagerName(span, index))
    decreases Size(st), 1, 0
  {
    match st
    case ComptimeIf(branches, orelse) =>
      SelectSubst(branches, orelse, loops, env);
      SelectsChosen(branches, orelse, env + loops);
      SelectedPlain(branches, orelse, env + loops, span);
      BlockSpares(Chosen(branches, orelse, env + loops).value, loops, env, fuel, span, index);
    case ComptimeFor(name, iter, body) =>
      EvalIterSubst(iter, loops, env);
      IteratesLoopValues(iter, env + loops);
      IterationsSpare(name, LoopValues(iter, env + loops).value, body, loops, env, fuel, span, index);
    case With(own, items, body) =>
      BlockSpares(body, loops, env, fuel, span, index);
      PlainItemsNames(items, loops);
      DesugarWrites(own, SubstItems(items, loops), 0, ElabBlock(SubstBlock(body, loops), env, fuel).value.out, span,
                    index);
  }

  lemma {:induction false} PartsSpare(body: seq<Stmt>, orelse: OptBlock, loops: Loops, env: Scope, fuel: nat, span: nat,
                                      index: nat)
    requires Literal(loops) && PlainBlock(body) && PlainOpt(orelse) && !SpanInBlock(body, span) &&
      !SpanInOpt(orelse, span)
    requires ElabBlock(SubstBlock(body, loops), env, fuel).Ok?
    requires var b := ElabBlock(SubstBlock(body, loops), env, fuel).value;
      ElabOpt(SubstOpt(orelse, loops), b.env, b.fuel).Ok?
    ensures var b := ElabBlock(SubstBlock(body, loops), env, fuel).value;
      && !BlockWrites(b.out, ManagerName(span, index))
      && !OptWrites(ElabOpt(SubstOpt(orelse, loops), b.env, b.fuel).value.out, ManagerName(span, index))
    decreases BlockSize(body) + OptSize(orelse), 2, 0
  {
    BlockSpares(body, loops, env, fuel, span, index);
    var b := ElabBlock(SubstBlock(body, loops), env, fuel).value;
    OptSpares(orelse, loops, b.env, b.fuel, span, index);
  }

  lemma {:induction false} TrySpares(body: seq<Stmt>, caught: Option<string>, handler: OptBlock, orelse: OptBlock,
                                     finalbody: OptBlock,
                                     loops: Loops, env: Scope, fuel: nat, span: nat, index: nat)
    requires var st := Try(body, caught, handler, orelse, finalbody);
      Literal(loops) && Plain(st) && !SpanIn(st, span) && ElabStmt(SubstStmt(st, loops), env, fuel).Ok?
    ensures var st := Try(body, caught, handler, orelse, finalbody);
      !BlockWrites(ElabStmt(SubstStmt(st, loops), env, fuel).value.out, ManagerName(span, index))
    decreases Size(Try(body, caught, handler, orelse, finalbody)), 0, 0
  {
    ManagerNameShape(span, index);
    BlockSpares(body, loops, env, fuel, span, index);
    var b := ElabBlock(SubstBlock(body, loops), env, fuel).value;
    ThreeSpare(handler, orelse, finalbody, loops, b.env, b.fuel, span, index);
  }

  lemma {:induction false} ThreeSpare(first: OptBlock, second: OptBlock, third: OptBlock, loops: Loops, env: Scope,
                                      fuel: nat, span: nat, index: nat)
    requires Literal(loops) && PlainOpt(first) && PlainOpt(second) && PlainOpt(third)
    requires !SpanInOpt(first, span) && !SpanInOpt(second, span) && !SpanInOpt(third, span)
    requires ElabThree(SubstOpt(first, loops), SubstOpt(second, loops), SubstOpt(third, loops), env, fuel).Ok?
    ensures var out := ElabThree(SubstOpt(first, loops), SubstOpt(second, loops), SubstOpt(third, loops), env,
                                 fuel).value.out;
      var n := ManagerName(span, index);
      !OptWrites(out.0, n) && !OptWrites(out.1, n) && !OptWrites(out.2, n)
    decreases OptSize(first) + OptSize(second) + OptSize(third), 2, 0
  {
    ThreeInTurn(SubstOpt(first, loops), SubstOpt(second, loops), SubstOpt(third, loops), env, fuel);
    OptSpares(first, loops, env, fuel, span, index);
    var a := ElabOpt(SubstOpt(first, loops), env, fuel).value;
    OptSpares(second, loops, a.env, a.fuel, span, index);
    var b := ElabOpt(SubstOpt(second, loops), a.env, a.fuel).value;
    OptSpares(third, loops, b.env, b.fuel, span, index);
  }

  lemma {:induction false} BlockSpares(body: seq<Stmt>, loops: Loops, env: Scope, fuel: nat, span: nat, index: nat)
    requires Literal(loops) && PlainBlock(body) && !SpanInBlock(body, span)
    requires ElabBlock(SubstBlock(body, loops), env, fuel).Ok?
    ensures !BlockWrites(ElabBlock(SubstBlock(body, loops), env, fuel).value.out, ManagerName(span, index))
    decreases BlockSize(body), 0, 0
  {
    if body != [] {
      assert SubstBlock(body, loops)[1..] == SubstBlock(body[1..], loops);
      StmtSpares(body[0], loops, env, fuel, span, index);
      var a := ElabStmt(SubstStmt(body[0], loops), env, fuel).value;
      BlockSpares(body[1..], loops, a.env, a.fuel, span, index);
      AppendWrites(a.out, ElabBlock(SubstBlock(body[1..], loops), a.env, a.fuel).value.out, ManagerName(span, index));
    }
  }

  lemma {:induction false} OptSpares(o: OptBlock, loops: Loops, env: Scope, fuel: nat, span: nat, index: nat)
    requires Literal(loops) && PlainOpt(o) && !SpanInOpt(o, span)
    requires ElabOpt(SubstOpt(o, loops), env, fuel).Ok?
    ensures !OptWrites(ElabOpt(SubstOpt(o, loops), env, fuel).value.out, ManagerName(span, index))
    decreases OptSize(o), 1, 0
  {
    if o.Block? { BlockSpares(o.body, loops, env, fuel, span, index); }
  }

  lemma {:induction false} BranchesSpare(branches: seq<Branch>, loops: Loops, env: Scope, fuel: nat, span: nat,
                                         index: nat)
    requires Literal(loops) && PlainBranches(branches) && !SpanInBranches(branches, span)
    requires ElabBranches(SubstBranches(branches, loops), env, fuel).Ok?
    ensures !BranchesWrite(ElabBranches(SubstBranches(branches, loops), env, fuel).value.out, ManagerName(span, index))
    decreases BranchesSize(branches), 1, 0
  {
    if branches != [] {
      assert SubstBranches(branches, loops)[1..] == SubstBranches(branches[1..], loops);
      BlockSpares(branches[0].body, loops, env, fuel, span, index);
      var b := ElabBlock(SubstBlock(branches[0].body, loops), env, fuel).value;
      BranchesSpare(branches[1..], loops, b.env, b.fuel, span, index);
    }
  }

  lemma {:induction false} IterationsSpare(name: string, vs: seq<CtValue>, body: seq<Stmt>, loops: Loops, env: Scope,
                                           fuel: nat,
                                           span: nat, index: nat)
    requires Literal(loops) && PlainBlock(body) && !SpanInBlock(body, span)
    requires ElabIterations(name, vs, SubstBlock(body, loops), env, fuel).Ok?
    ensures !BlockWrites(ElabIterations(name, vs, SubstBlock(body, loops), env, fuel).value.out,
                         ManagerName(span, index))
    decreases BlockSize(body), 1, |vs|
  {
    if vs != [] {
      SubstBlockTwice(body, loops, name, vs[0]);
      EnterIsLiteral(loops, name, vs[0]);
      BlockSpares(body, Enter(loops, name, vs[0]), env, fuel - 1, span, index);
      var a := ElabBlock(SubstBlock(body, Enter(loops, name, vs[0])), env, fuel - 1).value;
      IterationsSpare(name, vs[1..], body, loops, a.env, a.fuel, span, index);
      AppendWrites(a.out, ElabIterations(name, vs[1..], SubstBlock(body, loops), a.env, a.fuel).value.out,
                   ManagerName(span, index));
    }
  }

  lemma {:induction false} SelectedPlain(branches: seq<Branch>, orelse: OptBlock, scope: Scope, span: nat)
    requires PlainBranches(branches) && PlainOpt(orelse)
    requires Chosen(branches, orelse, scope).Ok?
    ensures PlainBlock(Chosen(branches, orelse, scope).value)
    ensures !SpanInBranches(branches, span) && !SpanInOpt(orelse, span) ==>
      !SpanInBlock(Chosen(branches, orelse, scope).value, span)
  {
    SelectsChosen(branches, orelse, scope);
    if branches != [] && Fails(branches[0].cond, scope) {
      SelectsChosen(branches[1..], orelse, scope);
      SelectedPlain(branches[1..], orelse, scope, span);
    }
  }

  // ----- expressions -----

  /** The stores agree on the names a program can write. */
  ghost predicate Agree(full: Scope, visible: Scope) {
    forall n :: !Hidden(n) ==> SameAt(full, visible, n)
  }

  lemma {:induction false} RunLiteral(h: Host, v: CtValue, store: Scope, log: Log)
    requires Materialize(v).Some?
    ensures RunExpr(h, Materialize(v).value, store, log) == Done(Canonical(v), log)
    decreases v, 0
  {
    match v
    case Tuple(items) => RunLiterals(h, items, store, log);
    case List(items) => RunLiterals(h, items, store, log);
    case _ =>
  }

  lemma {:induction false} RunLiterals(h: Host, vs: seq<CtValue>, store: Scope, log: Log)
    requires MaterializeAll(vs).Some?
    ensures RunExprs(h, MaterializeAll(vs).value, store, log) == Done(CanonicalAll(vs), log)
    decreases vs, 1
  {
    if vs != [] {
      RunLiteral(h, vs[0], store, log);
      RunLiterals(h, vs[1..], store, log);
      var es := MaterializeAll(vs).value;
      assert es[0] == Materialize(vs[0]).value && es[1..] == MaterializeAll(vs[1..]).value;
    }
  }

  lemma {:induction false} ExprMeaning(h: Host, e: Expr, loops: Loops, full: Scope, visible: Scope, log: Log)
    requires Literal(loops) && PlainExpr(e) && Agree(full, visible)
    ensures RunExpr(h, SubstExpr(e, loops), full, log) == RunExpr(h, e, visible + loops, log)
    decreases e, 0
  {
    match e
    case Identifier(n) =>
      if n in loops { RunLiteral(h, loops[n], full, log); } else { assert SameAt(full, visible, n); }
    case TupleLit(items) => ExprsMeaning(h, items, loops, full, visible, log);
    case ListLit(items) => ExprsMeaning(h, items, loops, full, visible, log);
    case Neg(operand) => ExprMeaning(h, operand, loops, full, visible, log);
    case Not(operand) => ExprMeaning(h, operand, loops, full, visible, log);
    case Infix(_, left, right) =>
      ExprMeaning(h, left, loops, full, visible, log);
      ExprMeaning(h, right, loops, full, visible, RunExpr(h, left, visible + loops, log).log);
    case Apply(_, args) => ExprsMeaning(h, args, loops, full, visible, log);
    case _ =>
  }

  lemma {:induction false} ExprsMeaning(h: Host, es: seq<Expr>, loops: Loops, full: Scope, visible: Scope, log: Log)
    requires Literal(loops) && PlainExprs(es) && Agree(full, visible)
    ensures RunExprs(h, SubstExprs(es, loops), full, log) == RunExprs(h, es, visible + loops, log)
    decreases es, 1
  {
    if es != [] {
      ExprMeaning(h, es[0], loops, full, visible, log);
      ExprsMeaning(h, es[1..], loops, full, visible, RunExpr(h, es[0], visible + loops, log).log);
      assert SubstExprs(es, loops)[1..] == SubstExprs(es[1..], loops);
    }
  }

  // ----- statements -----

  /** Same outcome, same exchange with the host, same visible store. */
  ghost predicate SameRun(a: Run, b: Run) {
    a.outcome == b.outcome && a.log == b.log && Agree(a.store, b.store)
  }

  lemma {:induction false} ExecAppend(h: Host, a: seq<Stmt>, b: seq<Stmt>, store: Scope, log: Log, k: nat)
    ensures var r := ExecBlock(h, a, store, log, k);
      ExecBlock(h, a + b, store, log, k) == if r.outcome.Normal? then ExecBlock(h, b, r.store, r.log, k) else r
    decreases |a|
  {
    if a == [] {
      assert a + b == b;
    } else {
      assert (a + b)[0] == a[0] && (a + b)[1..] == a[1..] + b;
      var r := Exec(h, a[0], store, log, k);
      ExecAppend(h, a[1..], b, r.store, r.log, k);
    }
  }

  lemma ExecOne(h: Host, st: Stmt, store: Scope, log: Log, k: nat)
    ensures ExecBlock(h, [st], store, log, k) == Exec(h, st, store, log, k)
  {
    var r := Exec(h, st, store, log, k);
    assert [st][1..] == [];
    assert ExecBlock(h, [], r.store, r.log, k) == Run(Normal, r.store, r.log);
  }

  // ----- simulation, construct by construct -----

  ghost predicate SimStmt(h: Host, out: seq<Stmt>, st: Stmt, loops: Loops, env: Scope, k: nat) {
    forall full, visible, log | Agree(full, visible) ::
      SameRun(ExecBlock(h, out, full, log, k), Mean(h, st, loops, env, visible, log, k))
  }

  ghost predicate SimBlock(h: Host, out: seq<Stmt>, body: seq<Stmt>, loops: Loops, env: Scope, k: nat) {
    forall full, visible, log | Agree(full, visible) ::
      SameRun(ExecBlock(h, out, full, log, k), MeanBlock(h, body, loops, env, visible, log, k))
  }

  ghost predicate SimOpt(h: Host, out: OptBlock, o: OptBlock, loops: Loops, env: Scope, k: nat) {
    forall full, visible, log | Agree(full, visible) ::
      SameRun(ExecOpt(h, out, full, log, k), MeanOpt(h, o, loops, env, visible, log, k))
  }

  ghost predicate SimBranches(h: Host, bs: seq<Branch>, out: OptBlock, branches: seq<Branch>, orelse: OptBlock,
                              loops: Loops, env: Scope, k: nat) {
    forall full, visible, log | Agree(full, visible) ::
      SameRun(ExecBranches(h, bs, out, full, log, k), MeanBranches(h, branches, orelse, loops, env, visible, log, k))
  }

  ghost predicate SimIterations(h: Host, out: seq<Stmt>, name: string, vs: seq<CtValue>, body: seq<Stmt>, loops: Loops,
                                env: Scope, k: nat) {
    forall full, visible, log | Agree(full, visible) ::
      SameRun(ExecBlock(h, out, full, log, k), MeanIterations(h, name, vs, body, loops, env, visible, log, k))
  }

  lemma SequenceSimulates(h: Host, a: seq<Stmt>, b: seq<Stmt>, body: seq<Stmt>, loops: Loops, env: Scope, k: nat)
    requires body != [] && SimStmt(h, a, body[0], loops, env, k)
    requires SimBlock(h, b, body[1..], loops, EnvAfter(AccountStmt(body[0], loops, env), env), k)
    ensures SimBlock(h, a + b, body, loops, env, k)
  {
    forall full, visible, log | Agree(full, visible)
      ensures SameRun(ExecBlock(h, a + b, full, log, k), MeanBlock(h, body, loops, env, visible, log, k))
    {
      ExecAppend(h, a, b, full, log, k);
      assert SameRun(ExecBlock(h, a, full, log, k), Mean(h, body[0], loops, env, visible, log, k));
    }
  }

  lemma SimpleSimulates(h: Host, st: Stmt, value: Expr, loops: Loops, env: Scope, k: nat)
    requires Literal(loops) && PlainExpr(value)
    requires st.VarDecl? || st.Assign? || st.ExprStmt? || st.Return? || st.Raise?
    requires value == st.value
    ensures SimStmt(h, [SubstStmt(st, loops)], st, loops, env, k)
  {
    forall full, visible, log | Agree(full, visible)
      ensures SameRun(ExecBlock(h, [SubstStmt(st, loops)], full, log, k), Mean(h, st, loops, env, visible, log, k))
    {
      ExprMeaning(h, value, loops, full, visible, log);
      ExecOne(h, SubstStmt(st, loops), full, log, k);
    }
  }

  lemma ConstantSimulates(h: Host, name: string, value: Expr, loops: Loops, env: Scope, k: nat)
    requires Literal(loops) && Eval(value, env + loops).Ok?
    ensures var m := Materialize(Eval(value, env + loops).value);
      SimStmt(h, if m.Some? then [Comptime(name, m.value)] else [], Comptime(name, value), loops, env, k)
  {
    var v := Eval(value, env + loops).value;
    var m := Materialize(v);
    var out := if m.Some? then [Comptime(name, m.value)] else [];
    forall full, visible, log | Agree(full, visible)
      ensures SameRun(ExecBlock(h, out, full, log, k), Mean(h, Comptime(name, value), loops, env, visible, log, k))
    {
      if m.Some? {
        RunLiteral(h, v, full, log);
        ExecOne(h, Comptime(name, m.value), full, log, k);
      }
    }
  }

  lemma JumpSimulates(h: Host, st: Stmt, loops: Loops, env: Scope, k: nat)
    requires st.Break? || st.Continue? || st.Pass?
    ensures SimStmt(h, [st], st, loops, env, k)
  {
    forall full, visible, log | Agree(full, visible)
      ensures SameRun(ExecBlock(h, [st], full, log, k), Mean(h, st, loops, env, visible, log, k))
    {
      ExecOne(h, st, full, log, k);
    }
  }

  lemma SelectionSimulates(h: Host, out: seq<Stmt>, branches: seq<Branch>, orelse: OptBlock, loops: Loops, env: Scope,
                           k: nat)
    requires Chosen(branches, orelse, env + loops).Ok?
    requires SimBlock(h, out, Chosen(branches, orelse, env + loops).value, loops, env, k)
    ensures SimStmt(h, out, ComptimeIf(branches, orelse), loops, env, k)
  {
    var taken := Chosen(branches, orelse, env + loops).value;
    forall full, visible, log | Agree(full, visible)
      ensures SameRun(ExecBlock(h, out, full, log, k),
                      Mean(h, ComptimeIf(branches, orelse), loops, env, visible, log, k))
    {
      assert SameRun(ExecBlock(h, out, full, log, k), MeanBlock(h, taken, loops, env, visible, log, k));
    }
  }

  lemma UnrollingSimulates(h: Host, out: seq<Stmt>, name: string, iter: Expr, body: seq<Stmt>, loops: Loops, env: Scope,
                           k: nat)
    requires LoopValues(iter, env + loops).Ok?
    requires SimIterations(h, out, name, LoopValues(iter, env + loops).value, body, loops, env, k)
    ensures SimStmt(h, out, ComptimeFor(name, iter, body), loops, env, k)
  {
    var vs := LoopValues(iter, env + loops).value;
    forall full, visible, log | Agree(full, visible)
      ensures SameRun(ExecBlock(h, out, full, log, k),
                      Mean(h, ComptimeFor(name, iter, body), loops, env, visible, log, k))
    {
      assert SameRun(ExecBlock(h, out, full, log, k), MeanIterations(h, name, vs, body, loops, env, visible, log, k));
    }
  }

  lemma IterationSimulates(h: Host, a: seq<Stmt>, b: seq<Stmt>, name: string, vs: seq<CtValue>, body: seq<Stmt>,
                           loops: Loops, env: Scope, k: nat)
    requires vs != [] && SimBlock(h, a, body, Enter(loops, name, vs[0]), env, k)
    requires SimIterations(h, b, name, vs[1..], body, loops,
                           EnvAfter(AccountBlock(body, Enter(loops, name, vs[0]), env), env), k)
    ensures SimIterations(h, a + b, name, vs, body, loops, env, k)
  {
    forall full, visible, log | Agree(full, visible)
      ensures SameRun(ExecBlock(h, a + b, full, log, k), MeanIterations(h, name, vs, body, loops, env, visible, log, k))
    {
      ExecAppend(h, a, b, full, log, k);
      assert SameRun(ExecBlock(h, a, full, log, k),
                     MeanBlock(h, body, Enter(loops, name, vs[0]), env, visible, log, k));
    }
  }

  lemma IfSimulates(h: Host, bs: seq<Branch>, out: OptBlock, branches: seq<Branch>, orelse: OptBlock, loops: Loops,
                    env: Scope, k: nat)
    requires SimBranches(h, bs, out, branches, orelse, loops, env, k)
    ensures SimStmt(h, [If(bs, out)], If(branches, orelse), loops, env, k)
  {
    forall full, visible, log | Agree(full, visible)
      ensures SameRun(ExecBlock(h, [If(bs, out)], full, log, k),
                      Mean(h, If(branches, orelse), loops, env, visible, log, k))
    {
      ExecOne(h, If(bs, out), full, log, k);
      assert SameRun(ExecBranches(h, bs, out, full, log, k),
                     MeanBranches(h, branches, orelse, loops, env, visible, log, k));
    }
  }

  lemma LastBranchSimulates(h: Host, out: OptBlock, orelse: OptBlock, loops: Loops, env: Scope, k: nat)
    requires SimOpt(h, out, orelse, loops, env, k)
    ensures SimBranches(h, [], out, [], orelse, loops, env, k)
  {
    forall full, visible, log | Agree(full, visible)
      ensures SameRun(ExecBranches(h, [], out, full, log, k), MeanBranches(h, [], orelse, loops, env, visible, log, k))
    {
      assert SameRun(ExecOpt(h, out, full, log, k), MeanOpt(h, orelse, loops, env, visible, log, k));
    }
  }

  lemma BranchSimulates(h: Host, b: seq<Stmt>, bs: seq<Branch>, out: OptBlock, branches: seq<Branch>, orelse: OptBlock,
                        loops: Loops, env: Scope, k: nat)
    requires branches != [] && Literal(loops) && PlainExpr(branches[0].cond)
    requires SimBlock(h, b, branches[0].body, loops, env, k)
    requires SimBranches(h, bs, out, branches[1..], orelse, loops,
                         EnvAfter(AccountBlock(branches[0].body, loops, env), env), k)
    ensures SimBranches(h, [Branch(SubstExpr(branches[0].cond, loops), b)] + bs, out, branches, orelse, loops, env, k)
  {
    var first := Branch(SubstExpr(branches[0].cond, loops), b);
    assert ([first] + bs)[0] == first && ([first] + bs)[1..] == bs;
    var after := EnvAfter(AccountBlock(branches[0].body, loops, env), env);
    forall full, visible, log | Agree(full, visible)
      ensures SameRun(ExecBranches(h, [first] + bs, out, full, log, k),
                      MeanBranches(h, branches, orelse, loops, env, visible, log, k))
    {
      var l := RunExpr(h, branches[0].cond, visible + loops, log).log;
      assert SameRun(ExecBlock(h, b, full, l, k), MeanBlock(h, branches[0].body, loops, env, visible, l, k));
      assert SameRun(ExecBranches(h, bs, out, full, l, k),
                     MeanBranches(h, branches[1..], orelse, loops, after, visible, l, k));
      BranchStep(h, b, bs, out, branches, orelse, loops, env, full, visible, log, k);
    }
  }

  lemma BranchStep(h: Host, b: seq<Stmt>, bs: seq<Branch>, out: OptBlock, branches: seq<Branch>, orelse: OptBlock,
                   loops: Loops, env: Scope, full: Scope, visible: Scope, log: Log, k: nat)
    requires branches != [] && Literal(loops) && PlainExpr(branches[0].cond) && Agree(full, visible)
    requires var l := RunExpr(h, branches[0].cond, visible + loops, log).log;
      var after := EnvAfter(AccountBlock(branches[0].body, loops, env), env);
      && SameRun(ExecBlock(h, b, full, l, k), MeanBlock(h, branches[0].body, loops, env, visible, l, k))
      && SameRun(ExecBranches(h, bs, out, full, l, k),
                 MeanBranches(h, branches[1..], orelse, loops, after, visible, l, k))
    ensures SameRun(ExecBranches(h, [Branch(SubstExpr(branches[0].cond, loops), b)] + bs, out, full, log, k),
                    MeanBranches(h, branches, orelse, loops, env, visible, log, k))
  {
    var all := [Branch(SubstExpr(branches[0].cond, loops), b)] + bs;
    assert all[0].body == b && all[1..] == bs;
    ExprMeaning(h, branches[0].cond, loops, full, visible, log);
  }

  lemma {:induction false} RoundsSimulate(h: Host, cond: Expr, b: seq<Stmt>, out: OptBlock, body: seq<Stmt>,
                                          orelse: OptBlock,
                                          loops: Loops, env: Scope, full: Scope, visible: Scope, log: Log, k: nat)
    requires Literal(loops) && PlainExpr(cond) && Agree(full, visible)
    requires forall j: nat | j <= k :: SimBlock(h, b, body, loops, env, j)
    requires forall j: nat | j <= k :: SimOpt(h, out, orelse, loops, EnvAfter(AccountBlock(body, loops, env), env), j)
    ensures SameRun(ExecWhile(h, SubstExpr(cond, loops), b, out, full, log, k),
                    MeanWhile(h, cond, body, orelse, loops, env, visible, log, k))
    decreases k
  {
    ExprMeaning(h, cond, loops, full, visible, log);
    var c := RunExpr(h, cond, visible + loops, log);
    if c.Done? && c.v == CtValue.Bool(true) && k > 0 {
      assert SimBlock(h, b, body, loops, env, k - 1);
      var r, m := ExecBlock(h, b, full, c.log, k - 1), MeanBlock(h, body, loops, env, visible, c.log, k - 1);
      assert SameRun(r, m);
      RoundsSimulate(h, cond, b, out, body, orelse, loops, env, r.store, m.store, m.log, k - 1);
      NextRoundSimulates(h, cond, b, out, body, orelse, loops, env, full, visible, log, k);
    } else {
      assert SimOpt(h, out, orelse, loops, EnvAfter(AccountBlock(body, loops, env), env), k);
      LastRoundSimulates(h, cond, b, out, body, orelse, loops, env, full, visible, log, k);
    }
  }

  lemma NextRoundSimulates(h: Host, cond: Expr, b: seq<Stmt>, out: OptBlock, body: seq<Stmt>, orelse: OptBlock,
                           loops: Loops, env: Scope, full: Scope, visible: Scope, log: Log, k: nat)
    requires RunExpr(h, SubstExpr(cond, loops), full, log) == RunExpr(h, cond, visible + loops, log)
    requires var c := RunExpr(h, cond, visible + loops, log); c.Done? && c.v == CtValue.Bool(true) && k > 0
    requires var l := RunExpr(h, cond, visible + loops, log).log;
      var r, m := ExecBlock(h, b, full, l, k - 1), MeanBlock(h, body, loops, env, visible, l, k - 1);
      && SameRun(r, m)
      && SameRun(ExecWhile(h, SubstExpr(cond, loops), b, out, r.store, m.log, k - 1),
                 MeanWhile(h, cond, body, orelse, loops, env, m.store, m.log, k - 1))
    ensures SameRun(ExecWhile(h, SubstExpr(cond, loops), b, out, full, log, k),
                    MeanWhile(h, cond, body, orelse, loops, env, visible, log, k))
  {
    ExecRound(h, SubstExpr(cond, loops), b, out, full, log, k);
    MeanRound(h, cond, body, orelse, loops, env, visible, log, k);
  }

  lemma LastRoundSimulates(h: Host, cond: Expr, b: seq<Stmt>, out: OptBlock, body: seq<Stmt>, orelse: OptBlock,
                           loops: Loops, env: Scope, full: Scope, visible: Scope, log: Log, k: nat)
    requires RunExpr(h, SubstExpr(cond, loops), full, log) == RunExpr(h, cond, visible + loops, log) &&
      Agree(full, visible)
    requires var c := RunExpr(h, cond, visible + loops, log); !(c.Done? && c.v == CtValue.Bool(true) && k > 0)
    requires SimOpt(h, out, orelse, loops, EnvAfter(AccountBlock(body, loops, env), env), k)
    ensures SameRun(ExecWhile(h, SubstExpr(cond, loops), b, out, full, log, k),
                    MeanWhile(h, cond, body, orelse, loops, env, visible, log, k))
  {
  }

  function Looped(r: Run, again: Run): Run {
    if r.outcome.Normal? || r.outcome.Continued? then again else if r.outcome.Broke? then r.(outcome := Normal) else r
  }

  lemma ExecRound(h: Host, cond: Expr, body: seq<Stmt>, orelse: OptBlock, store: Scope, log: Log, k: nat)
    requires var c := RunExpr(h, cond, store, log); c.Done? && c.v == CtValue.Bool(true) && k > 0
    ensures var r := ExecBlock(h, body, store, RunExpr(h, cond, store, log).log, k - 1);
      ExecWhile(h, cond, body, orelse, store, log, k)
        == Looped(r, ExecWhile(h, cond, body, orelse, r.store, r.log, k - 1))
  {
  }

  lemma MeanRound(h: Host, cond: Expr, body: seq<Stmt>, orelse: OptBlock, loops: Loops, env: Scope, store: Scope,
                  log: Log, k: nat)
    requires var c := RunExpr(h, cond, store + loops, log); c.Done? && c.v == CtValue.Bool(true) && k > 0
    ensures var r := MeanBlock(h, body, loops, env, store, RunExpr(h, cond, store + loops, log).log, k - 1);
      MeanWhile(h, cond, body, orelse, loops, env, store, log, k)
        == Looped(r, MeanWhile(h, cond, body, orelse, loops, env, r.store, r.log, k - 1))
  {
  }

  lemma WhileSimulates(h: Host, cond: Expr, b: seq<Stmt>, out: OptBlock, body: seq<Stmt>, orelse: OptBlock,
                       loops: Loops, env: Scope, k: nat)
    requires Literal(loops) && PlainExpr(cond)
    requires forall j: nat | j <= k :: SimBlock(h, b, body, loops, env, j)
    requires forall j: nat | j <= k :: SimOpt(h, out, orelse, loops, EnvAfter(AccountBlock(body, loops, env), env), j)
    ensures SimStmt(h, [While(SubstExpr(cond, loops), b, out)], While(cond, body, orelse), loops, env, k)
  {
    var st := While(SubstExpr(cond, loops), b, out);
    forall full, visible, log | Agree(full, visible)
      ensures SameRun(ExecBlock(h, [st], full, log, k), Mean(h, While(cond, body, orelse), loops, env, visible, log, k))
    {
      ExecOne(h, st, full, log, k);
      RoundsSimulate(h, cond, b, out, body, orelse, loops, env, full, visible, log, k);
    }
  }

  lemma {:induction false} VisitsSimulate(h: Host, name: string, vs: seq<CtValue>, b: seq<Stmt>, out: OptBlock,
                                          body: seq<Stmt>, orelse: OptBlock,
                                          loops: Loops, env: Scope, full: Scope, visible: Scope, log: Log, k: nat)
    requires Agree(full, visible) && SimBlock(h, b, body, loops, env, k)
    requires SimOpt(h, out, orelse, loops, EnvAfter(AccountBlock(body, loops, env), env), k)
    ensures SameRun(ExecFor(h, name, vs, b, out, full, log, k),
                    MeanFor(h, name, vs, body, orelse, loops, env, visible, log, k))
    decreases |vs|
  {
    if vs != [] {
      var r, m := ExecBlock(h, b, full[name := vs[0]], log, k),
        MeanBlock(h, body, loops, env, visible[name := vs[0]], log, k);
      assert Agree(full[name := vs[0]], visible[name := vs[0]]);
      assert SameRun(r, m);
      VisitsSimulate(h, name, vs[1..], b, out, body, orelse, loops, env, r.store, m.store, m.log, k);
      ExecVisit(h, name, vs, b, out, full, log, k);
      MeanVisit(h, name, vs, body, orelse, loops, env, visible, log, k);
    } else {
      assert SameRun(ExecOpt(h, out, full, log, k),
                     MeanOpt(h, orelse, loops, EnvAfter(AccountBlock(body, loops, env), env), visible, log, k));
    }
  }

  lemma ExecVisit(h: Host, name: string, vs: seq<CtValue>, body: seq<Stmt>, orelse: OptBlock, store: Scope, log: Log,
                  k: nat)
    requires vs != []
    ensures var r := ExecBlock(h, body, store[name := vs[0]], log, k);
      ExecFor(h, name, vs, body, orelse, store, log, k)
        == Looped(r, ExecFor(h, name, vs[1..], body, orelse, r.store, r.log, k))
  {
  }

  lemma MeanVisit(h: Host, name: string, vs: seq<CtValue>, body: seq<Stmt>, orelse: OptBlock, loops: Loops, env: Scope,
                  store: Scope, log: Log, k: nat)
    requires vs != []
    ensures var r := MeanBlock(h, body, loops, env, store[name := vs[0]], log, k);
      MeanFor(h, name, vs, body, orelse, loops, env, store, log, k)
        == Looped(r, MeanFor(h, name, vs[1..], body, orelse, loops, env, r.store, r.log, k))
  {
  }

  lemma ForSimulates(h: Host, name: string, iter: Expr, b: seq<Stmt>, out: OptBlock, body: seq<Stmt>, orelse: OptBlock,
                     loops: Loops, env: Scope, k: nat)
    requires Literal(loops) && PlainExpr(iter) && SimBlock(h, b, body, loops, env, k)
    requires SimOpt(h, out, orelse, loops, EnvAfter(AccountBlock(body, loops, env), env), k)
    ensures SimStmt(h, [For(name, SubstExpr(iter, loops), b, out)], For(name, iter, body, orelse), loops, env, k)
  {
    var st := For(name, SubstExpr(iter, loops), b, out);
    forall full, visible, log | Agree(full, visible)
      ensures SameRun(ExecBlock(h, [st], full, log, k),
                      Mean(h, For(name, iter, body, orelse), loops, env, visible, log, k))
    {
      ExecOne(h, st, full, log, k);
      ExprMeaning(h, iter, loops, full, visible, log);
      var r := RunIter(h, iter, visible + loops, log);
      assert RunIter(h, SubstExpr(iter, loops), full, log) == r;
      if r.Done? { VisitsSimulate(h, name, r.v, b, out, body, orelse, loops, env, full, visible, r.log, k); }
    }
  }

  lemma ClausesSimulate(h: Host, caught: Option<string>, handlerOut: OptBlock, elseOut: OptBlock, handler: OptBlock,
                        orelse: OptBlock,
                        loops: Loops, env: Scope, elseEnv: Scope, r: Run, m: Run, k: nat)
    requires PlainName(caught) && SameRun(r, m) && (handlerOut.Block? <==> handler.Block?)
    requires SimOpt(h, handlerOut, handler, loops, env, k) && SimOpt(h, elseOut, orelse, loops, elseEnv, k)
    ensures SameRun(ExecClauses(h, r, caught, handlerOut, elseOut, k),
                    MeanClauses(h, m, caught, handler, orelse, loops, env, elseEnv, k))
  {
    if m.outcome.Raised? {
      CaughtAgrees(r, m, caught);
      assert SameRun(ExecOpt(h, handlerOut, Caught(r, caught), r.log, k),
                     MeanOpt(h, handler, loops, env, Caught(m, caught), m.log, k));
    } else {
      assert SameRun(ExecOpt(h, elseOut, r.store, r.log, k), MeanOpt(h, orelse, loops, elseEnv, m.store, m.log, k));
    }
  }

  lemma CaughtAgrees(r: Run, m: Run, caught: Option<string>)
    requires PlainName(caught) && SameRun(r, m) && m.outcome.Raised?
    ensures Agree(Caught(r, caught), Caught(m, caught))
  {
  }

  lemma FinallySimulates(h: Host, out: OptBlock, finalbody: OptBlock, loops: Loops, env: Scope, r: Run, m: Run, k: nat)
    requires SameRun(r, m) && SimOpt(h, out, finalbody, loops, env, k)
    ensures SameRun(Resumed(r, ExecOpt(h, out, r.store, r.log, k)),
                    Resumed(m, MeanOpt(h, finalbody, loops, env, m.store, m.log, k)))
  {
    assert SameRun(ExecOpt(h, out, r.store, r.log, k), MeanOpt(h, finalbody, loops, env, m.store, m.log, k));
  }

  lemma TrySimulates(h: Host, b: seq<Stmt>, caught: Option<string>, handlerOut: OptBlock, elseOut: OptBlock,
                     finalOut: OptBlock,
                     body: seq<Stmt>, handler: OptBlock, orelse: OptBlock, finalbody: OptBlock, loops: Loops,
                       env: Scope, k: nat)
    requires PlainName(caught) && (handlerOut.Block? <==> handler.Block?) && SimBlock(h, b, body, loops, env, k)
    requires var env1 := EnvAfter(AccountBlock(body, loops, env), env);
      var env2 := EnvAfter(AccountOpt(handler, loops, env1), env1);
      var env3 := EnvAfter(AccountOpt(orelse, loops, env2), env2);
      SimOpt(h, handlerOut, handler, loops, env1, k) && SimOpt(h, elseOut, orelse, loops, env2, k) &&
        SimOpt(h, finalOut, finalbody, loops, env3, k)
    ensures SimStmt(h, [Try(b, caught, handlerOut, elseOut, finalOut)], Try(body, caught, handler, orelse, finalbody),
                    loops, env, k)
  {
    var st := Try(b, caught, handlerOut, elseOut, finalOut);
    var env1 := EnvAfter(AccountBlock(body, loops, env), env);
    var env2 := EnvAfter(AccountOpt(handler, loops, env1), env1);
    var env3 := EnvAfter(AccountOpt(orelse, loops, env2), env2);
    forall full, visible, log | Agree(full, visible)
      ensures SameRun(ExecBlock(h, [st], full, log, k),
                      Mean(h, Try(body, caught, handler, orelse, finalbody), loops, env, visible, log, k))
    {
      ExecOne(h, st, full, log, k);
      assert SameRun(ExecBlock(h, b, full, log, k), MeanBlock(h, body, loops, env, visible, log, k));
      TryStep(h, b, caught, handlerOut, elseOut, finalOut, body, handler, orelse, finalbody, loops, env, full, visible,
              log, k);
    }
  }

  lemma TryStep(h: Host, b: seq<Stmt>, caught: Option<string>, handlerOut: OptBlock, elseOut: OptBlock,
                finalOut: OptBlock,
                body: seq<Stmt>, handler: OptBlock, orelse: OptBlock, finalbody: OptBlock, loops: Loops, env: Scope,
                full: Scope, visible: Scope, log: Log, k: nat)
    requires PlainName(caught) && (handlerOut.Block? <==> handler.Block?)
    requires var env1 := EnvAfter(AccountBlock(body, loops, env), env);
      var env2 := EnvAfter(AccountOpt(handler, loops, env1), env1);
      var env3 := EnvAfter(AccountOpt(orelse, loops, env2), env2);
      SimOpt(h, handlerOut, handler, loops, env1, k) && SimOpt(h, elseOut, orelse, loops, env2, k) &&
        SimOpt(h, finalOut, finalbody, loops, env3, k)
    requires SameRun(ExecBlock(h, b, full, log, k), MeanBlock(h, body, loops, env, visible, log, k))
    ensures SameRun(Exec(h, Try(b, caught, handlerOut, elseOut, finalOut), full, log, k),
                    Mean(h, Try(body, caught, handler, orelse, finalbody), loops, env, visible, log, k))
  {
    var env1 := EnvAfter(AccountBlock(body, loops, env), env);
    var env2 := EnvAfter(AccountOpt(handler, loops, env1), env1);
    var env3 := EnvAfter(AccountOpt(orelse, loops, env2), env2);
    var r, m := ExecBlock(h, b, full, log, k), MeanBlock(h, body, loops, env, visible, log, k);
    ClausesSimulate(h, caught, handlerOut, elseOut, handler, orelse, loops, env1, env2, r, m, k);
    FinallySimulates(h, finalOut, finalbody, loops, env3, ExecClauses(h, r, caught, handlerOut, elseOut, k),
                     MeanClauses(h, m, caught, handler, orelse, loops, env1, env2, k), k);
  }

  // ----- with -----

  lemma CallOnManager(h: Host, operation: Operation, n: string, store: Scope, log: Log)
    requires n in store
    ensures RunExpr(h, Apply(operation, [Identifier(n)]), store, log) == Ask(h, Perform(operation), [store[n]], log)
  {
    var args := [Identifier(n)];
    assert args[1..] == [];
    assert RunExprs(h, args[1..], store, log) == Done([], log);
    assert RunExprs(h, args, store, log) == Done([store[n]] + [], log);
    assert [store[n]] + [] == [store[n]];
  }

  /** The `try` a `with` item becomes releases the manager after whatever the rest of the statement did. */
  lemma ExitMeaning(h: Host, rest: seq<Stmt>, n: string, manager: CtValue, store: Scope, log: Log, m: Run, k: nat)
    requires var r := ExecBlock(h, rest, store, log, k); SameRun(r, m) && n in r.store && r.store[n] == manager
    ensures SameRun(Exec(h, Leave(n, rest), store, log, k), Released(h, manager, m))
  {
    var call := ExprStmt(Apply(Method("__exit__"), [Identifier(n)]));
    var r := ExecBlock(h, rest, store, log, k);
    var c := ExecClauses(h, r, None, NoBlock, NoBlock, k);
    assert ExecOpt(h, NoBlock, r.store, r.log, k) == Run(Normal, r.store, r.log);
    assert c == r;
    CallOnManager(h, Method("__exit__"), n, r.store, r.log);
    ExecOne(h, call, r.store, r.log, k);
  }

  lemma ExecThree(h: Host, a: Stmt, b: Stmt, c: Stmt, store: Scope, log: Log, k: nat)
    ensures var r := Exec(h, a, store, log, k);
      ExecBlock(h, [a, b, c], store, log, k) ==
        if !r.outcome.Normal? then r
        else
          var s := Exec(h, b, r.store, r.log, k);
          if !s.outcome.Normal? then s else Exec(h, c, s.store, s.log, k)
  {
    assert [a, b, c] == [a] + ([b] + [c]);
    var r := Exec(h, a, store, log, k);
    ExecAppend(h, [a], [b] + [c], store, log, k);
    ExecOne(h, a, store, log, k);
    ExecAppend(h, [b], [c], r.store, r.log, k);
    ExecOne(h, b, r.store, r.log, k);
    var s := Exec(h, b, r.store, r.log, k);
    ExecOne(h, c, s.store, s.log, k);
  }

  lemma {:induction false} SubstItemsAt(items: seq<WithItem>, loops: Loops, k: nat)
    requires k < |items|
    ensures SubstItems(items, loops)[k] == items[k].(context := SubstExpr(items[k].context, loops))
  {
    if k > 0 { SubstItemsAt(items[1..], loops, k - 1); }
  }

  lemma {:induction false} PlainItemAt(items: seq<WithItem>, k: nat)
    requires k < |items| && PlainItems(items)
    ensures PlainExpr(items[k].context) && PlainName(items[k].name)
  {
    if k > 0 { PlainItemAt(items[1..], k - 1); }
  }

  /** The manager is still held when the rest of the statement is over, and is then released. */
  lemma HeldManager(h: Host, rest: seq<Stmt>, n: string, manager: CtValue, store: Scope, log: Log, m: Run, k: nat)
    requires !BlockWrites(rest, n) && n in store && store[n] == manager
    requires SameRun(ExecBlock(h, rest, store, log, k), m)
    ensures SameRun(Exec(h, Leave(n, rest), store, log, k), Released(h, manager, m))
  {
    BlockFrame(h, rest, store, log, k, n);
    ExitMeaning(h, rest, n, manager, store, log, m, k);
  }

  ghost predicate SparesManagers(b: seq<Stmt>, span: nat) {
    forall index :: !BlockWrites(b, ManagerName(span, index))
  }

  ghost predicate SimItems(h: Host, out: seq<Stmt>, items: seq<WithItem>, body: seq<Stmt>, loops: Loops, env: Scope,
                           k: nat) {
    forall full, visible, log | Agree(full, visible) ::
      SameRun(ExecBlock(h, out, full, log, k), MeanWith(h, items, body, loops, env, visible, log, k))
  }

  /** What entering the first manager comes to: its value and that of `__enter__`, unless one of them is never had. */
  function Entered(h: Host, context: Expr, store: Scope, log: Log): Evaluated<(CtValue, CtValue)> {
    match RunExpr(h, context, store, log)
    case Threw(e, l) => Threw(e, l)
    case Lost(l) => Lost(l)
    case Done(manager, l) =>
      match Ask(h, Perform(Method("__enter__")), [manager], l)
      case Threw(e, m) => Threw(e, m)
      case Lost(m) => Lost(m)
      case Done(v, m) => Done((manager, v), m)
  }

  function Bound(store: Scope, name: Option<string>, v: CtValue): Scope {
    if name.Some? then store[name.value := v] else store
  }

  /** Storing and entering a manager, up to the `try` that follows. */
  lemma EnterMeaning(h: Host, item: WithItem, loops: Loops, n: string, leave: Stmt, full: Scope, visible: Scope,
                     log: Log, k: nat)
    requires Literal(loops) && PlainExpr(item.context) && Hidden(n) && Agree(full, visible)
    ensures var a := Entered(h, item.context, visible + loops, log);
      var r := ExecBlock(h, [VarDecl(n, SubstExpr(item.context, loops)), EnterStmt(n, item.name), leave], full, log, k);
      if a.Done? then r == Exec(h, leave, Bound(full[n := a.v.0], item.name, a.v.1), a.log, k)
      else r.outcome == (if a.Threw? then Raised(a.error) else Stuck) && r.log == a.log && Agree(r.store, visible)
  {
    ExprMeaning(h, item.context, loops, full, visible, log);
    ExecThree(h, VarDecl(n, SubstExpr(item.context, loops)), EnterStmt(n, item.name), leave, full, log, k);
    var c := RunExpr(h, item.context, visible + loops, log);
    if c.Done? { CallOnManager(h, Method("__enter__"), n, full[n := c.v], c.log); }
  }

  lemma MeanItem(h: Host, items: seq<WithItem>, body: seq<Stmt>, loops: Loops, env: Scope, store: Scope, log: Log,
                 k: nat)
    requires items != []
    ensures var a := Entered(h, items[0].context, store + loops, log);
      MeanWith(h, items, body, loops, env, store, log, k) ==
        if a.Threw? then Run(Raised(a.error), store, a.log)
        else if a.Lost? then Run(Stuck, store, a.log)
        else Released(h, a.v.0, MeanWith(h, items[1..], body, loops, env, Bound(store, items[0].name, a.v.1), a.log, k))
  {
  }

  lemma ItemSimulates(h: Host, n: string, rest: seq<Stmt>, items: seq<WithItem>, body: seq<Stmt>, loops: Loops,
                      env: Scope,
                      full: Scope, visible: Scope, log: Log, k: nat)
    requires items != [] && Literal(loops) && PlainExpr(items[0].context) && PlainName(items[0].name) &&
      Agree(full, visible)
    requires Hidden(n) && !BlockWrites(rest, n) && SimItems(h, rest, items[1..], body, loops, env, k)
    ensures SameRun(ExecBlock(h, [VarDecl(n, SubstExpr(items[0].context, loops)), EnterStmt(n, items[0].name),
                                  Leave(n, rest)], full, log, k),
                    MeanWith(h, items, body, loops, env, visible, log, k))
  {
    EnterMeaning(h, items[0], loops, n, Leave(n, rest), full, visible, log, k);
    MeanItem(h, items, body, loops, env, visible, log, k);
    var a := Entered(h, items[0].context, visible + loops, log);
    if a.Done? {
      AgreeBound(full, visible, n, a.v.0, items[0].name, a.v.1);
      RestSimulates(h, n, rest, a.v.0, items[1..], body, loops, env, Bound(full[n := a.v.0], items[0].name, a.v.1),
                    Bound(visible, items[0].name, a.v.1), a.log, k);
    }
  }

  lemma AgreeBound(full: Scope, visible: Scope, n: string, manager: CtValue, name: Option<string>, v: CtValue)
    requires Agree(full, visible) && Hidden(n) && PlainName(name)
    ensures Agree(Bound(full[n := manager], name, v), Bound(visible, name, v))
    ensures n in Bound(full[n := manager], name, v) && Bound(full[n := manager], name, v)[n] == manager
  {
  }

  lemma RestSimulates(h: Host, n: string, rest: seq<Stmt>, manager: CtValue, items: seq<WithItem>, body: seq<Stmt>,
                      loops: Loops, env: Scope,
                      full: Scope, visible: Scope, log: Log, k: nat)
    requires Agree(full, visible) && n in full && full[n] == manager
    requires !BlockWrites(rest, n) && SimItems(h, rest, items, body, loops, env, k)
    ensures SameRun(Exec(h, Leave(n, rest), full, log, k),
                    Released(h, manager, MeanWith(h, items, body, loops, env, visible, log, k)))
  {
    HeldManager(h, rest, n, manager, full, log, MeanWith(h, items, body, loops, env, visible, log, k), k);
  }

  lemma {:induction false} ItemsSimulate(h: Host, span: nat, items: seq<WithItem>, index: nat, b: seq<Stmt>,
                                         body: seq<Stmt>, loops: Loops, env: Scope, k: nat)
    requires index <= |items| && Literal(loops) && PlainItems(items)
    requires SimBlock(h, b, body, loops, env, k) && SparesManagers(b, span)
    ensures SimItems(h, Desugar(span, SubstItems(items, loops), index, b), items[index..], body, loops, env, k)
    decreases |items| - index
  {
    var out := Desugar(span, SubstItems(items, loops), index, b);
    if index < |items| {
      var n := ManagerName(span, index);
      var rest := Desugar(span, SubstItems(items, loops), index + 1, b);
      ItemsSimulate(h, span, items, index + 1, b, body, loops, env, k);
      SubstItemsAt(items, loops, index);
      PlainItemAt(items, index);
      ManagerNameShape(span, index);
      PlainItemsNames(items, loops);
      DesugarWrites(span, SubstItems(items, loops), index + 1, b, span, index);
      assert items[index..][0] == items[index] && items[index..][1..] == items[index + 1..];
      forall full, visible, log | Agree(full, visible)
        ensures SameRun(ExecBlock(h, out, full, log, k), MeanWith(h, items[index..], body, loops, env, visible, log, k))
      {
        ItemSimulates(h, n, rest, items[index..], body, loops, env, full, visible, log, k);
      }
    } else {
      NoItemsSimulate(h, b, body, loops, env, k);
      assert items[index..] == [];
    }
  }

  lemma NoItemsSimulate(h: Host, b: seq<Stmt>, body: seq<Stmt>, loops: Loops, env: Scope, k: nat)
    requires SimBlock(h, b, body, loops, env, k)
    ensures SimItems(h, b, [], body, loops, env, k)
  {
    forall full, visible, log | Agree(full, visible)
      ensures SameRun(ExecBlock(h, b, full, log, k), MeanWith(h, [], body, loops, env, visible, log, k))
    {
      assert MeanWith(h, [], body, loops, env, visible, log, k) == MeanBlock(h, body, loops, env, visible, log, k);
    }
  }

  lemma WithSimulates(h: Host, span: nat, items: seq<WithItem>, b: seq<Stmt>, body: seq<Stmt>, loops: Loops, env: Scope,
                      k: nat)
    requires Literal(loops) && PlainItems(items) && SimBlock(h, b, body, loops, env, k) && SparesManagers(b, span)
    ensures SimStmt(h, Desugar(span, SubstItems(items, loops), 0, b), With(span, items, body), loops, env, k)
  {
    assert items[0..] == items;
    ItemsSimulate(h, span, items, 0, b, body, loops, env, k);
    var out := Desugar(span, SubstItems(items, loops), 0, b);
    forall full, visible, log | Agree(full, visible)
      ensures SameRun(ExecBlock(h, out, full, log, k), Mean(h, With(span, items, body), loops, env, visible, log, k))
    {
      assert SameRun(ExecBlock(h, out, full, log, k), MeanWith(h, items, body, loops, env, visible, log, k));
    }
  }

  // ----- elaboration preserves meaning -----

  lemma {:induction false} StmtSimulates(h: Host, st: Stmt, loops: Loops, env: Scope, fuel: nat, k: nat)
    requires Literal(loops) && Plain(st)
    requires ElabStmt(SubstStmt(st, loops), env, fuel).Ok?
    ensures SimStmt(h, ElabStmt(SubstStmt(st, loops), env, fuel).value.out, st, loops, env, k)
    decreases Size(st), 3, 0
  {
    if st.If? || st.While? || st.For? {
      ControlSimulates(h, st, loops, env, fuel, k);
    } else if st.VarDecl? || st.Assign? || st.ExprStmt? || st.Return? || st.Raise? {
      assert ElabStmt(SubstStmt(st, loops), env, fuel).value.out == [SubstStmt(st, loops)];
      SimpleSimulates(h, st, st.value, loops, env, k);
    } else if st.Break? || st.Continue? || st.Pass? {
      JumpSimulates(h, st, loops, env, k);
    } else {
      ResolvedSimulates(h, st, loops, env, fuel, k);
    }
  }

  lemma {:induction false} ControlSimulates(h: Host, st: Stmt, loops: Loops, env: Scope, fuel: nat, k: nat)
    requires Literal(loops) && Plain(st) && (st.If? || st.While? || st.For?)
    requires ElabStmt(SubstStmt(st, loops), env, fuel).Ok?
    ensures SimStmt(h, ElabStmt(SubstStmt(st, loops), env, fuel).value.out, st, loops, env, k)
    decreases Size(st), 2, 0
  {
    match st
    case If(branches, orelse) =>
      var bs := ElabBranches(SubstBranches(branches, loops), env, fuel).value;
      BranchesSimulate(h, branches, orelse, loops, env, fuel, k);
      IfSimulates(h, bs.out, ElabOpt(SubstOpt(orelse, loops), bs.env, bs.fuel).value.out, branches, orelse, loops, env,
                  k);
    case While(_, _, _) => LoopSimulates(h, st, loops, env, fuel, k);
    case For(_, _, _, _) => LoopSimulates(h, st, loops, env, fuel, k);
  }

  lemma {:induction false} LoopSimulates(h: Host, st: Stmt, loops: Loops, env: Scope, fuel: nat, k: nat)
    requires Literal(loops) && Plain(st) && (st.While? || st.For?)
    requires ElabStmt(SubstStmt(st, loops), env, fuel).Ok?
    ensures SimStmt(h, ElabStmt(SubstStmt(st, loops), env, fuel).value.out, st, loops, env, k)
    decreases Size(st), 1, 0
  {
    match st
    case While(cond, body, orelse) =>
      var b := ElabBlock(SubstBlock(body, loops), env, fuel).value;
      forall j: nat | j <= k { PartsSimulate(h, body, orelse, loops, env, fuel, j); }
      WhileSimulates(h, cond, b.out, ElabOpt(SubstOpt(orelse, loops), b.env, b.fuel).value.out, body, orelse, loops,
                     env, k);
    case For(name, iter, body, orelse) =>
      var b := ElabBlock(SubstBlock(body, loops), env, fuel).value;
      PartsSimulate(h, body, orelse, loops, env, fuel, k);
      ForSimulates(h, name, iter, b.out, ElabOpt(SubstOpt(orelse, loops), b.env, b.fuel).value.out, body, orelse,
                   loops, env, k);
  }

  lemma {:induction false} PartsSimulate(h: Host, body: seq<Stmt>, orelse: OptBlock, loops: Loops, env: Scope,
                                         fuel: nat, k: nat)
    requires Literal(loops) && PlainBlock(body) && PlainOpt(orelse)
    requires ElabBlock(SubstBlock(body, loops), env, fuel).Ok?
    requires var b := ElabBlock(SubstBlock(body, loops), env, fuel).value;
      ElabOpt(SubstOpt(orelse, loops), b.env, b.fuel).Ok?
    ensures var b := ElabBlock(SubstBlock(body, loops), env, fuel).value;
      && SimBlock(h, b.out, body, loops, env, k)
      && SimOpt(h, ElabOpt(SubstOpt(orelse, loops), b.env, b.fuel).value.out, orelse, loops,
                EnvAfter(AccountBlock(body, loops, env), env), k)
    decreases BlockSize(body) + OptSize(orelse), 2, 0
  {
    var b := ElabBlock(SubstBlock(body, loops), env, fuel).value;
    BlockIsAccounted(body, loops, env, fuel);
    BlockSimulates(h, body, loops, env, fuel, k);
    OptSimulates(h, orelse, loops, b.env, b.fuel, k);
  }

  /** The statements that elaboration resolves, and `try`, into which it turns one of them. */
  lemma {:induction false} ResolvedSimulates(h: Host, st: Stmt, loops: Loops, env: Scope, fuel: nat, k: nat)
    requires Literal(loops) && Plain(st)
    requires st.Comptime? || st.ComptimeIf? || st.ComptimeFor? || st.With? || st.Try?
    requires ElabStmt(SubstStmt(st, loops), env, fuel).Ok?
    ensures SimStmt(h, ElabStmt(SubstStmt(st, loops), env, fuel).value.out, st, loops, env, k)
    decreases Size(st), 1, 0
  {
    match st
    case Comptime(name, value) =>
      EvalSubst(value, loops, env);
      ConstantSimulates(h, name, value, loops, env, k);
    case ComptimeIf(branches, orelse) =>
      SelectSubst(branches, orelse, loops, env);
      SelectsChosen(branches, orelse, env + loops);
      SelectedPlain(branches, orelse, env + loops, 0);
      BlockSimulates(h, Chosen(branches, orelse, env + loops).value, loops, env, fuel, k);
      SelectionSimulates(h, ElabStmt(SubstStmt(st, loops), env, fuel).value.out, branches, orelse, loops, env, k);
    case ComptimeFor(name, iter, body) =>
      EvalIterSubst(iter, loops, env);
      IteratesLoopValues(iter, env + loops);
      IterationsSimulate(h, name, LoopValues(iter, env + loops).value, body, loops, env, fuel, k);
      UnrollingSimulates(h, ElabStmt(SubstStmt(st, loops), env, fuel).value.out, name, iter, body, loops, env, k);
    case Try(body, caught, handler, orelse, finalbody) =>
      TrySourceSimulates(h, body, caught, handler, orelse, finalbody, loops, env, fuel, k);
    case With(span, items, body) =>
      BlockSimulates(h, body, loops, env, fuel, k);
      forall index { BlockSpares(body, loops, env, fuel, span, index); }
      WithSimulates(h, span, items, ElabBlock(SubstBlock(body, loops), env, fuel).value.out, body, loops, env, k);
  }

  lemma {:induction false} TrySourceSimulates(h: Host, body: seq<Stmt>, caught: Option<string>, handler: OptBlock,
                                              orelse: OptBlock, finalbody: OptBlock,
                                              loops: Loops, env: Scope, fuel: nat, k: nat)
    requires Literal(loops) && Plain(Try(body, caught, handler, orelse, finalbody))
    requires ElabStmt(SubstStmt(Try(body, caught, handler, orelse, finalbody), loops), env, fuel).Ok?
    ensures var st := Try(body, caught, handler, orelse, finalbody);
      SimStmt(h, ElabStmt(SubstStmt(st, loops), env, fuel).value.out, st, loops, env, k)
    decreases Size(Try(body, caught, handler, orelse, finalbody)), 0, 0
  {
    var b := ElabBlock(SubstBlock(body, loops), env, fuel).value;
    var out := ElabThree(SubstOpt(handler, loops), SubstOpt(orelse, loops), SubstOpt(finalbody, loops), b.env,
                         b.fuel).value.out;
    BlockIsAccounted(body, loops, env, fuel);
    BlockSimulates(h, body, loops, env, fuel, k);
    ThreeSimulate(h, handler, orelse, finalbody, loops, b.env, b.fuel, k);
    TrySimulates(h, b.out, caught, out.0, out.1, out.2, body, handler, orelse, finalbody, loops, env, k);
  }

  lemma {:induction false} ThreeSimulate(h: Host, first: OptBlock, second: OptBlock, third: OptBlock, loops: Loops,
                                         env: Scope, fuel: nat, k: nat)
    requires Literal(loops) && PlainOpt(first) && PlainOpt(second) && PlainOpt(third)
    requires ElabThree(SubstOpt(first, loops), SubstOpt(second, loops), SubstOpt(third, loops), env, fuel).Ok?
    ensures var out := ElabThree(SubstOpt(first, loops), SubstOpt(second, loops), SubstOpt(third, loops), env,
                                 fuel).value.out;
      var env2 := EnvAfter(AccountOpt(first, loops, env), env);
      var env3 := EnvAfter(AccountOpt(second, loops, env2), env2);
      && (out.0.Block? <==> first.Block?)
      && SimOpt(h, out.0, first, loops, env, k) && SimOpt(h, out.1, second, loops, env2, k) &&
        SimOpt(h, out.2, third, loops, env3, k)
    decreases OptSize(first) + OptSize(second) + OptSize(third), 2, 0
  {
    ThreeInTurn(SubstOpt(first, loops), SubstOpt(second, loops), SubstOpt(third, loops), env, fuel);
    OptIsAccounted(first, loops, env, fuel);
    OptSimulates(h, first, loops, env, fuel, k);
    var a := ElabOpt(SubstOpt(first, loops), env, fuel).value;
    OptIsAccounted(second, loops, a.env, a.fuel);
    OptSimulates(h, second, loops, a.env, a.fuel, k);
    var b := ElabOpt(SubstOpt(second, loops), a.env, a.fuel).value;
    OptSimulates(h, third, loops, b.env, b.fuel, k);
  }

  lemma {:induction false} BlockSimulates(h: Host, body: seq<Stmt>, loops: Loops, env: Scope, fuel: nat, k: nat)
    requires Literal(loops) && PlainBlock(body)
    requires ElabBlock(SubstBlock(body, loops), env, fuel).Ok?
    ensures SimBlock(h, ElabBlock(SubstBlock(body, loops), env, fuel).value.out, body, loops, env, k)
    decreases BlockSize(body), 0, 0
  {
    if body != [] {
      assert SubstBlock(body, loops)[1..] == SubstBlock(body[1..], loops);
      StmtIsAccounted(body[0], loops, env, fuel);
      StmtSimulates(h, body[0], loops, env, fuel, k);
      var a := ElabStmt(SubstStmt(body[0], loops), env, fuel).value;
      BlockSimulates(h, body[1..], loops, a.env, a.fuel, k);
      SequenceSimulates(h, a.out, ElabBlock(SubstBlock(body[1..], loops), a.env, a.fuel).value.out, body, loops, env,
                        k);
    }
  }

  lemma {:induction false} OptSimulates(h: Host, o: OptBlock, loops: Loops, env: Scope, fuel: nat, k: nat)
    requires Literal(loops) && PlainOpt(o)
    requires ElabOpt(SubstOpt(o, loops), env, fuel).Ok?
    ensures SimOpt(h, ElabOpt(SubstOpt(o, loops), env, fuel).value.out, o, loops, env, k)
    decreases OptSize(o), 1, 0
  {
    if o.Block? { BlockSimulates(h, o.body, loops, env, fuel, k); }
  }

  lemma {:induction false} BranchesSimulate(h: Host, branches: seq<Branch>, orelse: OptBlock, loops: Loops, env: Scope,
                                            fuel: nat, k: nat)
    requires Literal(loops) && PlainBranches(branches) && PlainOpt(orelse)
    requires ElabBranches(SubstBranches(branches, loops), env, fuel).Ok?
    requires var bs := ElabBranches(SubstBranches(branches, loops), env, fuel).value;
      ElabOpt(SubstOpt(orelse, loops), bs.env, bs.fuel).Ok?
    ensures var bs := ElabBranches(SubstBranches(branches, loops), env, fuel).value;
      SimBranches(h, bs.out, ElabOpt(SubstOpt(orelse, loops), bs.env, bs.fuel).value.out, branches, orelse, loops, env,
                  k)
    decreases BranchesSize(branches) + OptSize(orelse), 2, 0
  {
    var bs := ElabBranches(SubstBranches(branches, loops), env, fuel).value;
    var o := ElabOpt(SubstOpt(orelse, loops), bs.env, bs.fuel).value;
    if branches == [] {
      OptSimulates(h, orelse, loops, env, fuel, k);
      LastBranchSimulates(h, o.out, orelse, loops, env, k);
    } else {
      assert SubstBranches(branches, loops)[1..] == SubstBranches(branches[1..], loops);
      var b := ElabBlock(SubstBlock(branches[0].body, loops), env, fuel).value;
      BlockIsAccounted(branches[0].body, loops, env, fuel);
      BlockSimulates(h, branches[0].body, loops, env, fuel, k);
      BranchesSimulate(h, branches[1..], orelse, loops, b.env, b.fuel, k);
      var rest := ElabBranches(SubstBranches(branches[1..], loops), b.env, b.fuel).value;
      BranchSimulates(h, b.out, rest.out, o.out, branches, orelse, loops, env, k);
    }
  }

  lemma {:induction false} IterationsSimulate(h: Host, name: string, vs: seq<CtValue>, body: seq<Stmt>, loops: Loops,
                                              env: Scope, fuel: nat, k: nat)
    requires Literal(loops) && PlainBlock(body)
    requires ElabIterations(name, vs, SubstBlock(body, loops), env, fuel).Ok?
    ensures SimIterations(h, ElabIterations(name, vs, SubstBlock(body, loops), env, fuel).value.out, name, vs, body,
                          loops, env, k)
    decreases BlockSize(body), 2, |vs|
  {
    if vs != [] {
      var inner := Enter(loops, name, vs[0]);
      SubstBlockTwice(body, loops, name, vs[0]);
      EnterIsLiteral(loops, name, vs[0]);
      var a := ElabBlock(SubstBlock(body, inner), env, fuel - 1).value;
      CopySimulates(h, body, inner, env, fuel - 1, k);
      IterationsSimulate(h, name, vs[1..], body, loops, a.env, a.fuel, k);
      IterationSimulates(h, a.out, ElabIterations(name, vs[1..], SubstBlock(body, loops), a.env, a.fuel).value.out,
                         name, vs, body, loops, env, k);
    }
  }

  lemma {:induction false} CopySimulates(h: Host, body: seq<Stmt>, inner: Loops, env: Scope, fuel: nat, k: nat)
    requires Literal(inner) && PlainBlock(body) && ElabBlock(SubstBlock(body, inner), env, fuel).Ok?
    ensures var a := ElabBlock(SubstBlock(body, inner), env, fuel).value;
      SimBlock(h, a.out, body, inner, env, k) && a.env == EnvAfter(AccountBlock(body, inner, env), env)
    decreases BlockSize(body), 1, 0
  {
    BlockIsAccounted(body, inner, env, fuel);
    BlockSimulates(h, body, inner, env, fuel, k);
  }

  /** Running what a block elaborates to is running the block with its compile-time constructs resolved in place: the
      same outcome, the same exchange with the host and the same values of all names that can be written. */
  lemma ElaborationPreservesMeaning(h: Host, body: seq<Stmt>, env: Scope, fuel: nat, store: Scope, log: Log, k: nat)
    requires PlainBlock(body) && ElabBlock(body, env, fuel).Ok?
    ensures SameRun(ExecBlock(h, ElabBlock(body, env, fuel).value.out, store, log, k),
                    MeanBlock(h, body, map[], env, store, log, k))
  {
    SubstBlockNothing(body);
    BlockSimulates(h, body, map[], env, fuel, k);
    assert Agree(store, store);
  }
}
