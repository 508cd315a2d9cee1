/** What elaborated code looks like: no construct is left to resolve, and where it departs from lexical scoping. */
module ElaborationOutput {
  import opened Wrappers
  import opened CtValues
  import opened ComptimeSyntax
  import opened ConstantFolding
  import opened ElaborationRules
  import opened ElaborationFuel

  // ----- nothing is left to resolve -----

  predicate Runnable(st: Stmt)
    decreases st, 0
  {
    match st
    case ComptimeIf(_, _) => false
    case ComptimeFor(_, _, _) => false
    case With(_, _, _) => false
    case If(branches, orelse) => RunnableBranches(branches) && RunnableOpt(orelse)
    case While(_, body, orelse) => RunnableBlock(body) && RunnableOpt(orelse)
    case For(_, _, body, orelse) => RunnableBlock(body) && RunnableOpt(orelse)
    case Try(body, _, handler, orelse, finalbody) =>
      RunnableBlock(body) && RunnableOpt(handler) && RunnableOpt(orelse) && RunnableOpt(finalbody)
    case Comptime(_, value) => LiteralCtValue(value).Some?
    case _ => true
  }

  predicate RunnableBlock(body: seq<Stmt>)
    decreases body, 1
  {
    body != [] ==> Runnable(body[0]) && RunnableBlock(body[1..])
  }

  predicate RunnableOpt(o: OptBlock)
    decreases o, 2
  {
    o.Block? ==> RunnableBlock(o.body)
  }

  predicate RunnableBranches(branches: seq<Branch>)
    decreases branches, 1
  {
    branches != [] ==> RunnableBlock(branches[0].body) && RunnableBranches(branches[1..])
  }

  lemma {:induction false} RunnableAppend(a: seq<Stmt>, b: seq<Stmt>)
    ensures RunnableBlock(a + b) <==> RunnableBlock(a) && RunnableBlock(b)
  {
    if a == [] {
      assert a + b == b;
    } else {
      RunnableAppend(a[1..], b);
      assert (a + b)[0] == a[0] && (a + b)[1..] == a[1..] + b;
    }
  }

  lemma {:induction false} DesugarIsRunnable(span: nat, items: seq<WithItem>, index: nat, body: seq<Stmt>)
    requires index <= |items| && RunnableBlock(body)
    ensures RunnableBlock(Desugar(span, items, index, body))
    decreases |items| - index
  {
    if index < |items| {
      DesugarIsRunnable(span, items, index + 1, body);
      var d := Desugar(span, items, index, body);
      var exit := d[2].finalbody.body;
      assert Runnable(exit[0]) && exit[1..] == [] && RunnableBlock(exit);
      assert RunnableOpt(d[2].finalbody) && RunnableOpt(d[2].handler) && RunnableOpt(d[2].orelse) &&
        RunnableBlock(d[2].body);
      assert Runnable(d[0]) && Runnable(d[1]) && Runnable(d[2]);
      assert d[1..][0] == d[1] && d[1..][1..][0] == d[2] && d[1..][1..][1..] == [];
      assert RunnableBlock(d[1..][1..]);
      assert RunnableBlock(d[1..]);
    }
  }

  lemma {:induction false} StmtElaboratesToRunnable(st: Stmt, env: Scope, fuel: nat)
    requires ElabStmt(st, env, fuel).Ok?
    ensures RunnableBlock(ElabStmt(st, env, fuel).value.out)
    decreases Size(st), 1, 0
  {
    match st
    case Comptime(name, value) =>
      var v := Eval(value, env).value;
      if Materialize(v).Some? { MaterializedIsCanonical(v); }
    case ComptimeIf(branches, orelse) =>
      SelectedSize(branches, orelse, env);
      ElaboratesToRunnable(Select(branches, orelse, env).value, env, fuel);
    case ComptimeFor(name, iter, body) => IterationsAreRunnable(name, EvalIter(iter, env).value, body, env, fuel);
    case With(span, items, body) =>
      ElaboratesToRunnable(body, env, fuel);
      DesugarIsRunnable(span, items, 0, ElabBlock(body, env, fuel).value.out);
    case _ => if st.If? || st.While? || st.For? || st.Try? { CompoundElaboratesToRunnable(st, env, fuel); }
  }

  lemma {:induction false} CompoundElaboratesToRunnable(st: Stmt, env: Scope, fuel: nat)
    requires (st.If? || st.While? || st.For? || st.Try?) && ElabStmt(st, env, fuel).Ok?
    ensures RunnableBlock(ElabStmt(st, env, fuel).value.out)
    decreases Size(st), 0, 0
  {
    match st
    case If(branches, orelse) =>
      BranchesElaborateToRunnable(branches, env, fuel);
      var b := ElabBranches(branches, env, fuel).value;
      OptElaboratesToRunnable(orelse, b.env, b.fuel);
    case While(cond, body, orelse) =>
      ElaboratesToRunnable(body, env, fuel);
      var b := ElabBlock(body, env, fuel).value;
      OptElaboratesToRunnable(orelse, b.env, b.fuel);
    case For(name, iter, body, orelse) =>
      ElaboratesToRunnable(body, env, fuel);
      var b := ElabBlock(body, env, fuel).value;
      OptElaboratesToRunnable(orelse, b.env, b.fuel);
    case Try(body, caught, handler, orelse, finalbody) =>
      ElaboratesToRunnable(body, env, fuel);
      var b := ElabBlock(body, env, fuel).value;
      ThreeElaborateToRunnable(handler, orelse, finalbody, b.env, b.fuel);
  }

  lemma {:induction false} ThreeElaborateToRunnable(first: OptBlock, second: OptBlock, third: OptBlock, env: Scope,
                                                    fuel: nat)
    requires ElabThree(first, second, third, env, fuel).Ok?
    ensures var out := ElabThree(first, second, third, env, fuel).value.out;
      RunnableOpt(out.0) && RunnableOpt(out.1) && RunnableOpt(out.2)
    decreases OptSize(first) + OptSize(second) + OptSize(third), 2, 0
  {
    ThreeInTurn(first, second, third, env, fuel);
    OptElaboratesToRunnable(first, env, fuel);
    var a := ElabOpt(first, env, fuel).value;
    OptElaboratesToRunnable(second, a.env, a.fuel);
    var b := ElabOpt(second, a.env, a.fuel).value;
    OptElaboratesToRunnable(third, b.env, b.fuel);
  }

  /** Elaborated code contains no `comptime if`, `comptime for` or `with` at any depth, and its constants are
      literals. */
  lemma {:induction false} ElaboratesToRunnable(body: seq<Stmt>, env: Scope, fuel: nat)
    requires ElabBlock(body, env, fuel).Ok?
    ensures RunnableBlock(ElabBlock(body, env, fuel).value.out)
    decreases BlockSize(body), 0, 0
  {
    if body != [] {
      StmtElaboratesToRunnable(body[0], env, fuel);
      var a := ElabStmt(body[0], env, fuel).value;
      ElaboratesToRunnable(body[1..], a.env, a.fuel);
      RunnableAppend(a.out, ElabBlock(body[1..], a.env, a.fuel).value.out);
    }
  }

  lemma {:induction false} OptElaboratesToRunnable(o: OptBlock, env: Scope, fuel: nat)
    requires ElabOpt(o, env, fuel).Ok?
    ensures RunnableOpt(ElabOpt(o, env, fuel).value.out)
    decreases OptSize(o), 1, 0
  {
    if o.Block? { ElaboratesToRunnable(o.body, env, fuel); }
  }

  lemma {:induction false} BranchesElaborateToRunnable(branches: seq<Branch>, env: Scope, fuel: nat)
    requires ElabBranches(branches, env, fuel).Ok?
    ensures RunnableBranches(ElabBranches(branches, env, fuel).value.out)
    decreases BranchesSize(branches), 1, 0
  {
    if branches != [] {
      ElaboratesToRunnable(branches[0].body, env, fuel);
      var b := ElabBlock(branches[0].body, env, fuel).value;
      BranchesElaborateToRunnable(branches[1..], b.env, b.fuel);
    }
  }

  lemma {:induction false} IterationsAreRunnable(name: string, vs: seq<CtValue>, body: seq<Stmt>, env: Scope, fuel: nat)
    requires ElabIterations(name, vs, body, env, fuel).Ok?
    ensures RunnableBlock(ElabIterations(name, vs, body, env, fuel).value.out)
    decreases BlockSize(body), 1, |vs|
  {
    if vs != [] {
      SubstBlockSize(body, map[name := vs[0]]);
      ElaboratesToRunnable(SubstBlock(body, map[name := vs[0]]), env, fuel - 1);
      var a := ElabBlock(SubstBlock(body, map[name := vs[0]]), env, fuel - 1).value;
      IterationsAreRunnable(name, vs[1..], body, a.env, a.fuel);
      RunnableAppend(a.out, ElabIterations(name, vs[1..], body, a.env, a.fuel).value.out);
    }
  }

  // ----- where elaboration departs from lexical scoping -----

  /** Unrolling the body does the same whatever the values of the loop are, as long as there are as many. */
  ghost predicate IgnoresItsValues(name: string, body: seq<Stmt>) {
    forall vs: seq<CtValue>, us: seq<CtValue>, env: Scope, fuel: nat ::
      |vs| == |us| ==> ElabIterations(name, vs, body, env, fuel) == ElabIterations(name, us, body, env, fuel)
  }

  /** In an iteration of an enclosing loop over the same name for the value `v`, no loop body sees its own values. */
  ghost predicate Captures(name: string, v: CtValue) {
    forall body :: IgnoresItsValues(name, SubstBlock(body, map[name := v]))
  }

  lemma WrittenOnce(body: seq<Stmt>, name: string, v: CtValue)
    ensures SubstBlock(body, map[name := v]) == SubstBlock(body, Enter(map[], name, v))
  {
    SubstBlockNothing(body);
    SubstBlockTwice(body, map[], name, v);
  }

  /** What the copy for the inner value `w` is, inside the iteration of the enclosing loop for `v`. */
  lemma WrittenTwice(body: seq<Stmt>, name: string, v: CtValue, w: CtValue)
    ensures SubstBlock(SubstBlock(body, map[name := v]), map[name := w]) ==
      if Materialize(v).Some? then SubstBlock(body, map[name := v]) else SubstBlock(body, map[name := w])
  {
    WrittenOnce(body, name, v);
    EnterIsLiteral(map[], name, v);
    SubstBlockTwice(body, Enter(map[], name, v), name, w);
    SubstBlockNothing(body);
  }

  lemma {:induction false} WrittenOverIsIgnored(name: string, v: CtValue, body: seq<Stmt>, vs: seq<CtValue>,
                                                us: seq<CtValue>,
                                                env: Scope, fuel: nat)
    requires Materialize(v).Some? && |vs| == |us|
    ensures var copy := SubstBlock(body, map[name := v]);
      ElabIterations(name, vs, copy, env, fuel) == ElabIterations(name, us, copy, env, fuel)
    decreases |vs|
  {
    var copy := SubstBlock(body, map[name := v]);
    if vs != [] && fuel > 0 {
      WrittenTwice(body, name, v, vs[0]);
      WrittenTwice(body, name, v, us[0]);
      var first := ElabBlock(copy, env, fuel - 1);
      if first.Ok? { WrittenOverIsIgnored(name, v, body, vs[1..], us[1..], first.value.env, first.value.fuel); }
    }
  }

  lemma OwnValueIsWritten(name: string, n: I64)
    ensures var e := ElabIterations(name, [CtValue.Int(n)], [Assign("x", Identifier(name))], map[], 1);
      e.Ok? && e.value.out == [Assign("x", IntLit(n))]
  {
    var done := Assign("x", IntLit(n));
    assert SubstBlock([Assign("x", Identifier(name))], map[name := CtValue.Int(n)]) == [done];
    ElabOne(done, map[], 0);
    OneIteration(name, CtValue.Int(n), [Assign("x", Identifier(name))], map[], 1);
  }

  /** A loop that reuses an enclosing loop's variable sees nothing of its own values exactly if the value of the
      enclosing iteration has a run-time form: then it has been written over the name already. */
  lemma InnerLoopVariableIsCaptured(name: string, v: CtValue)
    ensures Captures(name, v) <==> Materialize(v).Some?
  {
    if Materialize(v).Some? {
      forall body, vs: seq<CtValue>, us: seq<CtValue>, env: Scope, fuel: nat | |vs| == |us|
        ensures ElabIterations(name, vs, SubstBlock(body, map[name := v]), env, fuel)
             == ElabIterations(name, us, SubstBlock(body, map[name := v]), env, fuel)
      {
        WrittenOverIsIgnored(name, v, body, vs, us, env, fuel);
      }
    } else {
      var body := [Assign("x", Identifier(name))];
      assert SubstBlock(body, map[name := v]) == body;
      OwnValueIsWritten(name, 1);
      OwnValueIsWritten(name, 2);
      assert ElabIterations(name, [CtValue.Int(1)], body, map[], 1) != ElabIterations(name, [CtValue.Int(2)], body,
          map[], 1);
      assert !IgnoresItsValues(name, SubstBlock(body, map[name := v]));
    }
  }

  /** Inside an iteration for a value without a run-time form, a loop over the same name unrolls as if it stood
      alone. */
  lemma UnwrittenLoopIsUnaffected(name: string, v: CtValue, iter: Expr, body: seq<Stmt>)
    requires Materialize(v).None?
    ensures SubstStmt(ComptimeFor(name, iter, body), map[name := v]) == ComptimeFor(name, iter, body)
  {
    var loop := ComptimeFor(name, iter, body);
    WrittenOnce([loop], name, v);
    SubstBlockNothing([loop]);
    assert SubstBlock([loop], map[name := v])[0] == SubstStmt(loop, map[name := v]);
  }

  /** For instance, both variables are called `i` and the inner loop writes the outer value. */
  lemma CapturedLoopWritesOuterValue()
    ensures var inner := ComptimeFor("i", ListLit([IntLit(2)]), [Assign("x", Identifier("i"))]);
      var e := ElabBlock([ComptimeFor("i", ListLit([IntLit(1)]), [inner])], map[], FUEL);
      e.Ok? && e.value.out == [Assign("x", IntLit(1))]
  {
    var assign := Assign("x", Identifier("i"));
    var inner := ComptimeFor("i", ListLit([IntLit(2)]), [assign]);
    var one := map["i" := CtValue.Int(1)];
    var done := Assign("x", IntLit(1));
    assert SubstBlock([assign], one) == [done];
    assert SubstExprs([IntLit(2)], one) == [IntLit(2)];
    var written := ComptimeFor("i", ListLit([IntLit(2)]), [done]);
    assert SubstBlock([inner], one) == [written];
    LoopOverOne(2, [done], [done], done, FUEL - 1);
    ElabOne(written, map[], FUEL - 1);
    LoopOverOne(1, [inner], [written], done, FUEL);
    ElabOne(ComptimeFor("i", ListLit([IntLit(1)]), [inner]), map[], FUEL);
  }

  lemma LoopOverOne(n: I64, body: seq<Stmt>, written: seq<Stmt>, done: Stmt, fuel: nat)
    requires 0 < fuel && SubstBlock(body, map["i" := CtValue.Int(n)]) == written
    requires var e := ElabBlock(written, map[], fuel - 1);
      (written == [done] && done.Assign?) || (e.Ok? && e.value.out == [done])
    ensures var e := ElabStmt(ComptimeFor("i", ListLit([IntLit(n)]), body), map[], fuel);
      e.Ok? && e.value.out == [done]
  {
    OneItem(n);
    if written == [done] && done.Assign? { ElabOne(done, map[], fuel - 1); }
    OneIteration("i", CtValue.Int(n), body, map[], fuel);
  }

  lemma OneItem(n: I64)
    ensures EvalIter(ListLit([IntLit(n)]), map[]) == Ok([CtValue.Int(n)])
  {
    assert [IntLit(n)][1..] == [];
    assert EvalAll([], map[]) == Ok([]) && Eval(IntLit(n), map[]) == Ok(CtValue.Int(n));
    assert EvalAll([IntLit(n)], map[]) == Ok([CtValue.Int(n)] + []);
    assert [CtValue.Int(n)] + [] == [CtValue.Int(n)];
    assert Eval(ListLit([IntLit(n)]), map[]) == Ok(CtValue.List([CtValue.Int(n)]));
  }

  lemma ElabOne(st: Stmt, env: Scope, fuel: nat)
    ensures var e := ElabStmt(st, env, fuel);
      e.Ok? ==> ElabBlock([st], env, fuel) == e
  {
    var e := ElabStmt(st, env, fuel);
    assert [st][1..] == [];
    if e.Ok? {
      assert ElabBlock([], e.value.env, e.value.fuel) == Ok(Elaborated([], e.value.env, e.value.fuel));
      assert e.value.out + [] == e.value.out;
    }
  }

  lemma OneIteration(name: string, v: CtValue, body: seq<Stmt>, env: Scope, fuel: nat)
    requires fuel > 0
    ensures var e := ElabBlock(SubstBlock(body, map[name := v]), env, fuel - 1);
      e.Ok? ==> ElabIterations(name, [v], body, env, fuel) == e
  {
    var e := ElabBlock(SubstBlock(body, map[name := v]), env, fuel - 1);
    assert [v][1..] == [];
    if e.Ok? {
      assert ElabIterations(name, [], body, e.value.env, e.value.fuel) == Ok(Elaborated([], e.value.env, e.value.fuel));
      assert e.value.out + [] == e.value.out;
    }
  }

  // ----- constants declared in arms -----

  /** A constant declared in an arm is known to the statements after the `if`, whether or not the arm is taken when the
      program runs. */
  lemma ConstantsOutliveTheirArm(cond: Expr, name: string, value: Expr, after: Stmt, env: Scope, fuel: nat)
    requires Eval(value, env).Ok?
    ensures var arm := If([Branch(cond, [Comptime(name, value)])], NoBlock);
            var e := ElabBlock([arm, after], env, fuel);
            var next := ElabStmt(after, env[name := Eval(value, env).value], fuel);
            && (e.Ok? <==> next.Ok?)
            && (e.Ok? ==> e.value.env == next.value.env && |e.value.out| > 0 && e.value.out[1..] == next.value.out)
  {
    var v := Eval(value, env).value;
    var constant, branches := Comptime(name, value), [Branch(cond, [Comptime(name, value)])];
    var arm := If(branches, NoBlock);
    ElabOne(constant, env, fuel);
    assert branches[1..] == [] && ElabBranches([], env[name := v], fuel) == Ok(Elaborated([], env[name := v], fuel));
    var b := ElabBranches(branches, env, fuel);
    assert b.Ok? && b.value.env == env[name := v] && b.value.fuel == fuel;
    var o := ElabOpt(NoBlock, env[name := v], fuel);
    assert o == Ok(Elaborated(NoBlock, env[name := v], fuel));
    var e := ElabStmt(arm, env, fuel);
    assert e == Ok(Elaborated([If(b.value.out, o.value.out)], o.value.env, o.value.fuel));
    assert e.Ok? && e.value.env == env[name := v] && e.value.fuel == fuel && |e.value.out| == 1;
    assert [arm, after][1..] == [after];
    ElabOne(after, env[name := v], fuel);
  }
}
