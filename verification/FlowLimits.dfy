/** Where the explicit-destruction pass falls short of its purpose, and exactly when. */
module FlowLimits {
  import opened Wrappers
  import opened LinearPaths
  import opened LinearValues
  import opened Obligations
  import opened FlowSyntax
  import opened FlowRules
  import opened FlowSoundness
  import Runs = FlowRuns

  // ----- overwriting a field -----

  /** Assigning a linear place silently drops a value that still owes a destructor if and only if an obligation is
      recorded at the place, above it or below it. */
  lemma FieldOverwriteExactly(types: Registry, v: Variable, slot: Runs.Slot, path: Path, stored: Value)
    requires VariableAgrees(types, v, slot) && slot.ty.Some?
    requires Linear(types, slot.ty.value, path) && At(slot.value, path).Some?
    requires Whole(stored) && Runs.Fits(types, TypeAtPath(types, slot.ty.value, path), stored)
    ensures Runs.Fill(types, slot.ty.value, slot.value, path, stored) == Err(Runs.OverwritesField) <==>
            exists o :: o in v.residue.obligations && Comparable(o, path)
  {
    var ty, place := slot.ty.value, At(slot.value, path).value;
    PlaceIsReachable(v, slot, path);
    if OwesAnything(types, TypeAtPath(types, ty, path).value, place) {
      var o := OwedAround(types, slot, path);
      assert o in v.residue.obligations;
    }
    if exists o :: o in v.residue.obligations && Comparable(o, path) {
      var o :| o in v.residue.obligations && Comparable(o, path);
      assert Owes(types, ty, slot.value, o);
      OwedInPlace(types, slot, path, o);
    }
  }

  /** The outermost whole value at or above a place is owed. */
  lemma {:induction false} OutermostIsOwed(types: Registry, ty: string, v: Value, path: Path, k: nat) returns (j: nat)
    requires k <= |path| && Linear(types, ty, path) && WholeAt(v, path[..k])
    ensures j <= k && Owes(types, ty, v, path[..j])
  {
    if i :| 0 <= i < k && WholeAt(v, path[..i]) {
      j := OutermostIsOwed(types, ty, v, path, i);
    } else {
      j := k;
      LinearPrefix(types, ty, path, k);
      assert forall i :: 0 <= i < k ==> path[..k][..i] == path[..i];
    }
  }

  lemma OwedAround(types: Registry, slot: Runs.Slot, path: Path) returns (o: Path)
    requires slot.ty.Some? && At(slot.value, path).Some? && Linear(types, slot.ty.value, path)
    requires OwesAnything(types, TypeAtPath(types, slot.ty.value, path).value, At(slot.value, path).value)
    ensures Owes(types, slot.ty.value, slot.value, o) && Comparable(o, path)
  {
    var ty, place := slot.ty.value, At(slot.value, path).value;
    var tail :| Owes(types, TypeAtPath(types, ty, path).value, place, tail);
    var q := path + tail;
    TypeAtPathAppend(types, ty, path, tail);
    AtAppend(slot.value, path, tail);
    assert q[..|q|] == q;
    var j := OutermostIsOwed(types, ty, slot.value, q, |q|);
    o := q[..j];
    assert j <= |path| ==> o == path[..j];
    assert j >= |path| ==> path <= o;
  }

  lemma OwedInPlace(types: Registry, slot: Runs.Slot, path: Path, o: Path)
    requires slot.ty.Some? && At(slot.value, path).Some? && Linear(types, slot.ty.value, path)
    requires Owes(types, slot.ty.value, slot.value, o) && Comparable(o, path)
    ensures OwesAnything(types, TypeAtPath(types, slot.ty.value, path).value, At(slot.value, path).value)
  {
    if path <= o {
      assert path + o[|path|..] == o;
      OwedInField(types, slot, path, o[|path|..]);
    } else {
      AtSplit(slot.value, o, path);
      WholeHasNoHole(At(slot.value, o).value, path[|o|..]);
      assert Owes(types, TypeAtPath(types, slot.ty.value, path).value, At(slot.value, path).value, []);
    }
  }

  /** The place is a linear one inside values that are there, and `stored` is of its type. */
  ghost predicate Storable(types: Registry, fs: Runs.Frames, p: Runs.Place, stored: Value) {
    && p.level < |fs| && p.name in fs[p.level]
    && var slot := fs[p.level][p.name];
      && slot.ty.Some? && Linear(types, slot.ty.value, p.path) && At(slot.value, p.path).Some?
      && Whole(stored) && Runs.Fits(types, TypeAtPath(types, slot.ty.value, p.path), stored)
  }

  lemma StoreIsAccepted(types: Registry, place: Expr, value: Expr, s: State, fs: Runs.Frames)
    requires Valid(s) && !Runs.HasTransfer(place) && !Runs.HasTransfer(value)
    ensures CheckStmt(types, SetPlace(place, value), s) == Accept(Some(ReinitializePlace(types, place, s)))
    ensures Runs.EvalExprs(types, [place, value], fs) == Runs.Normal(fs)
  {
    PlainExprIsInert(types, place, s, fs);
    PlainExprIsInert(types, value, s, fs);
    assert [place, value][1..] == [value] && [value][1..] == [];
    assert Runs.EvalExprs(types, [value], fs) == Runs.Normal(fs);
  }

  /** The pass does not look: it accepts any assignment to a place whose expressions transfer nothing, and the run drops
      a value that still owes a destructor if and only if an obligation is recorded at the place, above it or below
      it. */
  lemma FieldOverwriteIsAccepted(types: Registry, place: Expr, value: Expr, p: Runs.Place, stored: Value, s: State,
                                 fs: Runs.Frames)
    requires Agrees(types, s, fs) && !Runs.HasTransfer(place) && !Runs.HasTransfer(value)
    requires Runs.PlaceOf(place, fs) == Some(p) && Storable(types, fs, p, stored)
    ensures CheckStmt(types, SetPlace(place, value), s) == Accept(Some(ReinitializePlace(types, place, s)))
    ensures (Runs.ExecStmt(types, SetPlace(place, value), Runs.Leaf(stored), fs)
               == Runs.Outside(Runs.OverwritesField)) <==>
            exists o :: o in s.vars[s.scopes[p.level][p.name]].residue.obligations && Comparable(o, p.path)
  {
    StoreIsAccepted(types, place, value, s, fs);
    StoreOverwrites(types, place, p, stored, s, fs);
  }

  lemma StoreOverwrites(types: Registry, place: Expr, p: Runs.Place, stored: Value, s: State, fs: Runs.Frames)
    requires Agrees(types, s, fs) && Runs.PlaceOf(place, fs) == Some(p) && Storable(types, fs, p, stored)
    ensures Runs.WriteField(types, place, stored, fs) == Runs.Outside(Runs.OverwritesField) <==>
            exists o :: o in s.vars[s.scopes[p.level][p.name]].residue.obligations && Comparable(o, p.path)
  {
    assert VariableAgrees(types, s.vars[s.scopes[p.level][p.name]], fs[p.level][p.name]);
    FieldOverwriteExactly(types, s.vars[s.scopes[p.level][p.name]], fs[p.level][p.name], p.path, stored);
  }

  const PAIR: Registry := map["P" := TypeInfo("", map["close" := true], map["a" := "Q"]),
                              "Q" := TypeInfo("", map["close" := true], map[])]

  /** `p.a = q^` over an intact `p.a`, then `p^.close()`. */
  const OVERWRITES: Function := Function(
    [Param("p", Some("P"), Some(Var)), Param("q", Some("Q"), Some(Var))],
    [SetPlace(Member(Identifier("p"), "a"), Expr.Transfer(Identifier("q"))),
     ExprStmt(MethodCall(Expr.Transfer(Identifier("p")), "close", []))])

  /** A function that is accepted although its run drops the old value of `p.a`. */
  lemma AcceptedFunctionOverwritesField(cs: seq<Runs.Choice>)
    ensures CheckFunction(PAIR, OVERWRITES) == Accept(())
    ensures Runs.ExecFunction(PAIR, OVERWRITES, [PVALUE, QVALUE], [Runs.Leaf(QVALUE)] + cs)
      == Runs.Outside(Runs.OverwritesField)
  {
    OverwritingIsAccepted();
    OverwritingRuns(cs);
  }

  lemma OverwritingDeclares()
    ensures var pv, qv := NewVariable(PAIR, "p", Some("P"), true), NewVariable(PAIR, "q", Some("Q"), true);
      DeclareParams(PAIR, OVERWRITES.params, Push(DEFAULT)) == Accept(State([map["p" := 0, "q" := 1]], [pv, qv]))
  {
    var pv, qv := NewVariable(PAIR, "p", Some("P"), true), NewVariable(PAIR, "q", Some("Q"), true);
    var empty, one, both: map<string, nat> := map[], map["p" := 0], map["p" := 0, "q" := 1];
    var s1, s2 := State([one], [pv]), State([both], [pv, qv]);
    assert Push(DEFAULT) == State([empty], []);
    assert empty["p" := 0] == one && one["q" := 1] == both;
    assert [empty][0 := one] == [one] && [one][0 := both] == [both];
    assert [] + [pv] == [pv] && [pv] + [qv] == [pv, qv];
    assert Declare(Push(DEFAULT), pv) == Accept(s1);
    assert Declare(s1, qv) == Accept(s2);
    assert OVERWRITES.params[1..][1..] == [] && DeclareParams(PAIR, [], s2) == Accept(s2);
    assert DeclareParams(PAIR, OVERWRITES.params[1..], s1) == Accept(s2);
  }

  function Holding(p: Residue, q: Residue): State {
    State([map["p" := 0, "q" := 1]],
          [NewVariable(PAIR, "p", Some("P"), true).(residue := p),
           NewVariable(PAIR, "q", Some("Q"), true).(residue := q)])
  }

  const NOTHING: Residue := Residue({}, {[]})

  lemma FieldIsStored()
    ensures CheckStmt(PAIR, OVERWRITES.body[0], Holding(WHOLE, WHOLE)) == Accept(Some(Holding(WHOLE, NOTHING)))
  {
    var s0, s1 := Holding(WHOLE, WHOLE), Holding(WHOLE, NOTHING);
    var place := Member(Identifier("p"), "a");
    assert WHOLE.obligations - {[]} == {} && WHOLE.moved + {[]} == {[]};
    assert MoveOut(PAIR, "Q", WHOLE, []) == Ok(NOTHING);
    assert SetResidue(s0, 1, NOTHING) == s1 && SetResidue(s1, 0, WHOLE) == s1;
    assert Lookup(s0.scopes, "q") == Some(1) && Lookup(s1.scopes, "p") == Some(0);
    assert CheckExpr(PAIR, place, s0) == Accept(s0);
    assert CheckExpr(PAIR, Expr.Transfer(Identifier("q")), s0) == Accept(s1);
    assert ObligationPlace(place, s1) == Some((0, [] + ["a"]));
    assert Reinitialize(PAIR, "P", WHOLE, [] + ["a"]) == WHOLE;
    assert ReinitializePlace(PAIR, place, s1) == s1;
  }

  lemma WholeIsClosed()
    ensures CheckStmt(PAIR, OVERWRITES.body[1], Holding(WHOLE, NOTHING)) == Accept(Some(Holding(NOTHING, NOTHING)))
  {
    var s1, s2 := Holding(WHOLE, NOTHING), Holding(NOTHING, NOTHING);
    assert WHOLE.obligations - {[]} == {} && WHOLE.moved + {[]} == {[]};
    assert Destroy(PAIR, "P", WHOLE, []) == Ok(NOTHING);
    assert SetResidue(s1, 0, NOTHING) == s2 && Lookup(s1.scopes, "p") == Some(0);
    assert CheckExprs(PAIR, [], s1) == Accept(s1);
    assert DestroyedPlace(PAIR, Expr.Transfer(Identifier("p")), "close", s1) == Some((0, []));
  }

  lemma OverwritingIsAccepted()
    ensures CheckFunction(PAIR, OVERWRITES) == Accept(())
  {
    var s0, s1, s2 := Holding(WHOLE, WHOLE), Holding(WHOLE, NOTHING), Holding(NOTHING, NOTHING);
    OverwritingDeclares();
    FieldIsStored();
    WholeIsClosed();
    assert OVERWRITES.body[1..][1..] == [] && CheckBlock(PAIR, [], s2) == Accept(Some(s2));
    assert CheckBlock(PAIR, OVERWRITES.body[1..], s1) == Accept(Some(s2));
    assert CheckBlock(PAIR, OVERWRITES.body, s0) == Accept(Some(s2));
  }

  const PVALUE: Value := Present(map["a" := QVALUE])
  const QVALUE: Value := Present(map[])

  lemma OverwritingBinds()
    ensures Runs.BindParams(PAIR, OVERWRITES.params, [PVALUE, QVALUE], [map[]]) ==
            Runs.Normal([map["p" := Runs.Slot(Some("P"), PVALUE), "q" := Runs.Slot(Some("Q"), QVALUE)]])
  {
    var ps, qs := Runs.Slot(Some("P"), PVALUE), Runs.Slot(Some("Q"), QVALUE);
    var f0, f1: map<string, Runs.Slot>, f2: map<string, Runs.Slot> := map[], map["p" := ps], map["p" := ps, "q" := qs];
    assert f0["p" := ps] == f1 && f1["q" := qs] == f2;
    assert [f0][0 := f1] == [f1] && [f1][0 := f2] == [f2];
    assert OVERWRITES.params[1..][1..] == [] && [PVALUE, QVALUE][1..] == [QVALUE] && [QVALUE][1..] == [];
    assert WellTyped(PAIR, "Q", QVALUE) && WellTyped(PAIR, "P", PVALUE) && Whole(QVALUE) && Whole(PVALUE);
    assert Runs.Bind(PAIR, "p", Some("P"), PVALUE, [f0]) == Runs.Normal([f1]);
    assert Runs.Bind(PAIR, "q", Some("Q"), QVALUE, [f1]) == Runs.Normal([f2]);
    assert Runs.BindParams(PAIR, [], [], [f2]) == Runs.Normal([f2]);
    assert Runs.BindParams(PAIR, OVERWRITES.params[1..], [QVALUE], [f1]) == Runs.Normal([f2]);
  }

  lemma OverwritingEvaluates()
    ensures Runs.EvalExprs(PAIR, [Member(Identifier("p"), "a"), Expr.Transfer(Identifier("q"))],
                           [map["p" := Runs.Slot(Some("P"), PVALUE), "q" := Runs.Slot(Some("Q"), QVALUE)]])
         == Runs.Normal([map["p" := Runs.Slot(Some("P"), PVALUE), "q" := Runs.Slot(Some("Q"), Gone)]])
  {
    var ps, qs, none := Runs.Slot(Some("P"), PVALUE), Runs.Slot(Some("Q"), QVALUE), Runs.Slot(Some("Q"), Gone);
    var f2: map<string, Runs.Slot>, f3: map<string, Runs.Slot> := map["p" := ps, "q" := qs],
      map["p" := ps, "q" := none];
    assert f2["q" := none] == f3 && [f2][0 := f3] == [f3];
    assert WholeAt(QVALUE, []) && Replace(QVALUE, [], Gone) == Gone;
    assert Runs.SetSlot([f2], 0, "q", Gone) == [f3];
    var place, value := Member(Identifier("p"), "a"), Expr.Transfer(Identifier("q"));
    assert Runs.EvalExpr(PAIR, value, [f2]) == Runs.Normal([f3]);
    assert [place, value][1..] == [value] && [value][1..] == [];
    assert Runs.EvalExprs(PAIR, [value], [f2]) == Runs.Normal([f3]);
  }

  /** Filling a direct linear field that is intact overwrites it. */
  lemma IntactFieldIsOverwritten(types: Registry, ty: string, field: string, value: Value, stored: Value)
    requires ty in types && field in types[ty].fields && value.Present? && field in value.fields
    requires Whole(value.fields[field]) && Whole(stored) && WellTyped(types, types[ty].fields[field], stored)
    ensures Runs.Fill(types, ty, value, [field], stored) == Err(Runs.OverwritesField)
  {
    var path := [field];
    assert path[0] == field && path[1..] == [] && path[..0] == [];
    assert At(value, path) == At(value.fields[field], []) == Some(value.fields[field]);
    assert TypeAtPath(types, ty, path) == TypeAtPath(types, types[ty].fields[field], []);
    assert Owes(types, types[ty].fields[field], value.fields[field], []);
  }

  lemma OverwritingFills()
    ensures Runs.WriteField(PAIR, Member(Identifier("p"), "a"), QVALUE,
                            [map["p" := Runs.Slot(Some("P"), PVALUE), "q" := Runs.Slot(Some("Q"), Gone)]])
         == Runs.Outside(Runs.OverwritesField)
  {
    var f3: map<string, Runs.Slot> := map["p" := Runs.Slot(Some("P"), PVALUE), "q" := Runs.Slot(Some("Q"), Gone)];
    IntactFieldIsOverwritten(PAIR, "P", "a", PVALUE, QVALUE);
    assert [] + ["a"] == ["a"];
    assert Runs.PlaceOf(Member(Identifier("p"), "a"), [f3]) == Some(Runs.Place(0, "p", ["a"]));
  }

  lemma OverwritingRuns(cs: seq<Runs.Choice>)
    ensures Runs.ExecFunction(PAIR, OVERWRITES, [PVALUE, QVALUE], [Runs.Leaf(QVALUE)] + cs)
      == Runs.Outside(Runs.OverwritesField)
  {
    OverwritingBinds();
    OverwritingEvaluates();
    OverwritingFills();
    var f2: map<string, Runs.Slot> := map["p" := Runs.Slot(Some("P"), PVALUE), "q" := Runs.Slot(Some("Q"), QVALUE)];
    var all := [Runs.Leaf(QVALUE)] + cs;
    assert Runs.ExecStmt(PAIR, OVERWRITES.body[0], all[0], [f2]) == Runs.Outside(Runs.OverwritesField);
    assert Runs.ExecBlock(PAIR, OVERWRITES.body, all, [f2]) == Runs.Outside(Runs.OverwritesField);
  }

  // ----- the scope stack running empty -----

  /** A `return` or `raise` directly in the block. */
  predicate Stops(body: seq<Stmt>) {
    exists i :: 0 <= i < |body| && IsExit(body[i])
  }

  predicate IsExit(st: Stmt) {
    st.Return? || st.Raise?
  }

  /** An exhaustive `if` none of whose arms falls through. The pass continues past it with an empty scope stack. */
  predicate DeadIf(st: Stmt) {
    && st.If? && st.orelse.Else? && Stops(st.orelse.body)
    && forall i :: 0 <= i < |st.branches| ==> Stops(st.branches[i].body)
  }

  /** Walking `body` from a stack that is empty or not, the end is reached with an empty stack. */
  predicate EndsEmpty(body: seq<Stmt>, empty: bool)
    decreases |body|
  {
    if body == [] then empty
    else !IsExit(body[0]) && EndsEmpty(body[1..], empty || DeadIf(body[0]))
  }

  predicate CrashesBlock(body: seq<Stmt>, empty: bool)
    decreases body, 0
  {
    body != [] &&
    (CrashesStmt(body[0], empty) ||
     (!IsExit(body[0]) && CrashesBlock(body[1..], empty || DeadIf(body[0]))))
  }

  predicate CrashesScoped(body: seq<Stmt>)
    decreases body, 1
  {
    CrashesBlock(body, false) || EndsEmpty(body, false)
  }

  predicate CrashesOrElse(orelse: OrElse)
    decreases orelse, 0
  {
    orelse.Else? && CrashesScoped(orelse.body)
  }

  predicate CrashesArms(branches: seq<Branch>)
    decreases branches, 0
  {
    branches != [] && (CrashesScoped(branches[0].body) || CrashesArms(branches[1..]))
  }

  /** A declaration meets an empty stack, or a scope is left that is no longer there. */
  predicate CrashesStmt(st: Stmt, empty: bool)
    decreases st, 0
  {
    match st
    case VarDecl(_, _, _) => empty
    case If(branches, orelse) => CrashesArms(branches) || CrashesOrElse(orelse)
    case While(_, body, orelse) => CrashesScoped(body) || CrashesOrElse(orelse)
    case For(_, _, _, body, orelse) => CrashesScoped(body) || CrashesOrElse(orelse)
    case _ => false
  }

  lemma {:induction false} ExprNeverPanics(types: Registry, e: Expr, s: State)
    requires Valid(s)
    ensures !CheckExpr(types, e, s).Panic?
    decreases e, 1
  {
    match e
    case MethodCall(receiver, name, args) =>
      ExprsNeverPanic(types, args, s);
      if CheckExprs(types, args, s).Accept? { ExprNeverPanics(types, receiver, CheckExprs(types, args, s).value); }
    case Call(args) => ExprsNeverPanic(types, args, s);
    case Prefix(operand) => ExprNeverPanics(types, operand, s);
    case Infix(left, right) =>
      ExprNeverPanics(types, left, s);
      if CheckExpr(types, left, s).Accept? { ExprNeverPanics(types, right, CheckExpr(types, left, s).value); }
    case Member(receiver, _) => ExprNeverPanics(types, receiver, s);
    case Index(receiver, index) =>
      ExprNeverPanics(types, receiver, s);
      if CheckExpr(types, receiver, s).Accept? { ExprNeverPanics(types, index, CheckExpr(types, receiver, s).value); }
    case _ =>
  }

  lemma {:induction false} ExprsNeverPanic(types: Registry, es: seq<Expr>, s: State)
    requires Valid(s)
    ensures !CheckExprs(types, es, s).Panic?
    decreases es, 0
  {
    if es != [] {
      ExprNeverPanics(types, es[0], s);
      if CheckExpr(types, es[0], s).Accept? { ExprsNeverPanic(types, es[1..], CheckExpr(types, es[0], s).value); }
    }
  }

  /** The verdict panics only if the walk crashes, and a crash is never accepted. */
  ghost predicate Explains(r: Verdict<Option<State>>, crashes: bool, stops: bool, empty: bool) {
    && (r.Panic? ==> crashes)
    && (r.Accept? ==> !crashes && (r.value.None? <==> stops))
    && (r.Accept? && r.value.Some? ==> (r.value.value.scopes == [] <==> empty))
  }

  lemma {:induction false} StmtPanics(types: Registry, st: Stmt, s: State)
    requires Valid(s)
    ensures Explains(CheckStmt(types, st, s), CrashesStmt(st, s.scopes == []), IsExit(st), s.scopes == [] || DeadIf(st))
    decreases st, 2
  {
    match st
    case VarDecl(_, _, value) => ExprNeverPanics(types, value, s);
    case Assign(_, value) => ExprNeverPanics(types, value, s);
    case SetPlace(place, value) =>
      ExprNeverPanics(types, place, s);
      if CheckExpr(types, place, s).Accept? { ExprNeverPanics(types, value, CheckExpr(types, place, s).value); }
    case ExprStmt(value) => ExprNeverPanics(types, value, s);
    case Return(result) => if result.Some? { ExprNeverPanics(types, result.value, s); }
    case Raise(value) => ExprNeverPanics(types, value, s);
    case If(_, _) => IfPanics(types, st, s);
    case While(_, _, _) => WhilePanics(types, st, s);
    case For(_, _, _, _, _) => ForPanics(types, st, s);
    case Pass =>
  }

  lemma {:induction false} WhilePanics(types: Registry, st: Stmt, s: State)
    requires Valid(s) && st.While?
    ensures Explains(CheckWhile(types, st, s), CrashesStmt(st, s.scopes == []), false, s.scopes == [])
    decreases st, 0
  {
    ExprNeverPanics(types, st.cond, s);
    if CheckExpr(types, st.cond, s).Accept? {
      var s1 := CheckExpr(types, st.cond, s).value;
      ScopedPanics(types, st.body, s1);
      OrElsePanics(types, st.orelse, s1);
      assert CheckPass(types, st.body, s1).Panic? ==> CrashesScoped(st.body);
      assert CheckPass(types, st.body, s1).Accept? ==> !CrashesScoped(st.body);
    }
  }

  lemma {:induction false} ForPanics(types: Registry, st: Stmt, s: State)
    requires Valid(s) && st.For?
    ensures Explains(CheckFor(types, st, s), CrashesStmt(st, s.scopes == []), false, s.scopes == [])
    decreases st, 0
  {
    ExprNeverPanics(types, st.iter, s);
    if CheckExpr(types, st.iter, s).Accept? {
      var s1 := CheckExpr(types, st.iter, s).value;
      BlockPanics(types, st.body, Bind(types, st.name, st.ty, Push(s1)).value);
      StoppedIsNotEmpty(st.body, false);
      OrElsePanics(types, st.orelse, s1);
      assert CheckBoundPass(types, st.name, st.ty, st.body, s1).Panic? ==> CrashesScoped(st.body);
      assert CheckBoundPass(types, st.name, st.ty, st.body, s1).Accept? ==> !CrashesScoped(st.body);
    }
  }

  lemma {:induction false} OrElsePanics(types: Registry, orelse: OrElse, s: State)
    requires Valid(s)
    ensures Explains(CheckOrElse(types, orelse, s), CrashesOrElse(orelse), false, s.scopes == [])
    decreases orelse, 2
  {
    if orelse.Else? {
      ScopedPanics(types, orelse.body, s);
    }
  }

  lemma {:induction false} ArmsPanic(types: Registry, branches: seq<Branch>, base: State)
    requires Valid(base)
    ensures var r := CheckBranches(types, branches, base);
            && (r.Panic? ==> CrashesArms(branches))
            && (r.Accept? ==> !CrashesArms(branches) &&
                              (r.value == [] <==> forall i :: 0 <= i < |branches| ==> Stops(branches[i].body)))
    decreases branches, 0
  {
    if branches != [] {
      ExprNeverPanics(types, branches[0].cond, base);
      var entered := CheckExpr(types, branches[0].cond, base);
      if entered.Accept? {
        ScopedPanics(types, branches[0].body, entered.value);
        ArmsPanic(types, branches[1..], base);
        assert forall i :: 0 < i < |branches| ==> branches[i] == branches[1..][i - 1];
      }
    }
  }

  lemma {:induction false} IfPanics(types: Registry, st: Stmt, s: State)
    requires Valid(s) && st.If?
    ensures Explains(CheckStmt(types, st, s), CrashesStmt(st, s.scopes == []), false, s.scopes == [] || DeadIf(st))
    decreases st, 1
  {
    ExitsPanic(types, st, s);
    var exits := IfExits(types, st, s);
    assert CheckIf(types, st, s).Panic? ==> exits.Panic?;
    assert CheckIf(types, st, s).Accept? ==>
      CheckIf(types, st, s).value.scopes == if exits.value == [] then [] else s.scopes;
  }

  lemma {:induction false} ExitsPanic(types: Registry, st: Stmt, s: State)
    requires Valid(s) && st.If?
    ensures var exits := IfExits(types, st, s);
            && (exits.Panic? ==> CrashesStmt(st, s.scopes == []))
            && (exits.Accept? ==> !CrashesStmt(st, s.scopes == []) && (exits.value == [] <==> DeadIf(st)))
    decreases st, 0
  {
    ArmsPanic(types, st.branches, s);
    if st.orelse.Else? {
      ScopedPanics(types, st.orelse.body, s);
    }
  }

  lemma {:induction false} BlockPanics(types: Registry, body: seq<Stmt>, s: State)
    requires Valid(s)
    ensures Explains(CheckBlock(types, body, s), CrashesBlock(body, s.scopes == []), Stops(body),
                     EndsEmpty(body, s.scopes == []))
    decreases body, 0
  {
    if body != [] {
      StmtPanics(types, body[0], s);
      assert Stops(body) <==> IsExit(body[0]) || Stops(body[1..]) by {
        assert forall i :: 0 < i < |body| ==> body[i] == body[1..][i - 1];
      }
      var next := CheckStmt(types, body[0], s);
      if next.Accept? && next.value.Some? {
        BlockPanics(types, body[1..], next.value.value);
      }
    }
  }

  lemma {:induction false} ScopedPanics(types: Registry, body: seq<Stmt>, s: State)
    requires Valid(s)
    ensures Explains(CheckScoped(types, body, s), CrashesScoped(body), Stops(body), s.scopes == [])
    decreases body, 1
  {
    BlockPanics(types, body, Push(s));
    StoppedIsNotEmpty(body, false);
  }

  lemma {:induction false} StoppedIsNotEmpty(body: seq<Stmt>, empty: bool)
    ensures Stops(body) ==> !EndsEmpty(body, empty)
    decreases |body|
  {
    if body != [] && !IsExit(body[0]) {
      StoppedIsNotEmpty(body[1..], empty || DeadIf(body[0]));
      if Stops(body) {
        var i :| 0 <= i < |body| && IsExit(body[i]);
        assert body[1..][i - 1] == body[i];
      }
    }
  }

  lemma {:induction false} ParamsNeverPanic(types: Registry, params: seq<Param>, s: State)
    requires Valid(s) && s.scopes != []
    ensures var r := DeclareParams(types, params, s);
            r.Accept? && r.value.scopes != []
    decreases |params|
  {
    if params != [] {
      var p := params[0];
      var explicit := ExplicitName(types, p.ty);
      var live := explicit.Some? && (p.convention == Some(Var) || p.convention == Some(Deinit));
      ParamsNeverPanic(types, params[1..], Declare(s, NewVariable(types, p.name, explicit, live)).value);
    }
  }

  /** The pass panics on a function only if, after an exhaustive `if` none of whose arms falls through, it declares
      a variable or reaches the end of an inner block; and it accepts no such function. */
  lemma PanicsExactlyOnEmptyStack(types: Registry, f: Function)
    ensures CheckFunction(types, f).Panic? ==> CrashesBlock(f.body, false)
    ensures CheckFunction(types, f).Accept? ==> !CrashesBlock(f.body, false)
  {
    ParamsNeverPanic(types, f.params, Push(DEFAULT));
    BlockPanics(types, f.body, DeclareParams(types, f.params, Push(DEFAULT)).value);
  }

  const EXHAUSTIVE_RETURN: Stmt := If([Branch(Literal, [Return(None)])], Else([Return(None)]))

  /** A function without parameters or linear values that merely nests such an `if` makes the pass panic, if there are
      linear types at all: without any, functions are not walked. */
  lemma NestedExhaustiveReturnPanics(types: Registry)
    ensures CheckFunction(types, Function([], [If([Branch(Literal, [EXHAUSTIVE_RETURN])], NoElse)])) == Panic
  {
    var inner := EXHAUSTIVE_RETURN;
    var outer := If([Branch(Literal, [inner])], NoElse);
    var s := Push(Push(DEFAULT));
    assert CheckBlock(types, [Return(None)], Push(s)) == Accept(None);
    assert CheckScoped(types, [Return(None)], s) == Accept(None);
    assert CheckArm(types, inner.branches[0], s) == Accept(None);
    assert CheckBranches(types, [], s) == Accept([]) && inner.branches[1..] == [];
    assert CheckBranches(types, inner.branches, s).value == [];
    assert CheckIf(types, inner, s) == Accept(DEFAULT);
    assert CheckStmt(types, inner, s) == Accept(Some(DEFAULT));
    assert [inner][1..] == [] && CheckBlock(types, [], DEFAULT) == Accept(Some(DEFAULT));
    assert CheckBlock(types, [inner], s) == Accept(Some(DEFAULT));
    assert CheckArm(types, outer.branches[0], Push(DEFAULT)) == Panic;
    assert CheckBranches(types, outer.branches, Push(DEFAULT)) == Panic;
    assert CheckIf(types, outer, Push(DEFAULT)) == Panic;
    assert CheckBlock(types, [outer], Push(DEFAULT)) == Panic;
  }

  // ----- a loop whose `else` leaves -----

  /** What follows an accepted loop is checked as if its `else` had not been there when that `else` leaves. */
  lemma LeavingElseIsIgnored(types: Registry, cond: Expr, body: seq<Stmt>, orelse: seq<Stmt>, s: State)
    requires Valid(s) && Stops(orelse) && CheckStmt(types, While(cond, body, Else(orelse)), s).Accept?
    ensures CheckStmt(types, While(cond, body, Else(orelse)), s) == CheckStmt(types, While(cond, body, NoElse), s)
  {
    var s1 := CheckExpr(types, cond, s).value;
    ScopedPanics(types, orelse, s1);
    assert CheckOrElse(types, Else(orelse), s1) == Accept(Some(s1)) == CheckOrElse(types, NoElse, s1);
  }

  // ----- variables of different arms -----

  const ONE: Registry := map["T" := TypeInfo("", map["close" := true], map[])]

  const ORDINARY_ARM: seq<Stmt> := [VarDecl("y", None, Literal)]
  const LINEAR_ARM: seq<Stmt> := [VarDecl("x", Some("T"), Literal),
                                  ExprStmt(MethodCall(Expr.Transfer(Identifier("x")), "close", []))]

  /** One arm declares an ordinary variable, the other a linear one that it destroys. */
  function TwoArms(first: seq<Stmt>, second: seq<Stmt>): Function {
    Function([], [If([Branch(Literal, first)], Else(second))])
  }

  const CLOSED: Variable := Variable("x", Some("T"), Some(""), Residue({}, {[]}))
  const PLAIN: Variable := Variable("y", None, None, Residue({}, {}))

  lemma OrdinaryArmWalked()
    ensures CheckScoped(ONE, ORDINARY_ARM, Push(DEFAULT)) == Accept(Some(State([map[]], [PLAIN])))
  {
    var s := Push(Push(DEFAULT));
    var none: map<string, nat>, scope: map<string, nat> := map[], map["y" := 0];
    assert s == State([none, none], []);
    assert none["y" := 0] == scope && [none, none][1 := scope] == [none, scope];
    var s1 := State([none, scope], [PLAIN]);
    assert [] + [PLAIN] == [PLAIN] && NewVariable(ONE, "y", None, false) == PLAIN;
    assert Declare(s, PLAIN) == Accept(s1) && Bind(ONE, "y", None, s) == Accept(s1);
    assert CheckExpr(ONE, Literal, s) == Accept(s);
    assert CheckStmt(ONE, ORDINARY_ARM[0], s) == Accept(Some(s1));
    assert CheckBlock(ONE, ORDINARY_ARM[1..], s1) == Accept(Some(s1));
    assert CheckBlock(ONE, ORDINARY_ARM, s) == Accept(Some(s1));
    assert [none, scope][..1] == [none];
  }

  lemma LinearArmWalked()
    ensures CheckScoped(ONE, LINEAR_ARM, Push(DEFAULT)) == Accept(Some(State([map[]], [CLOSED])))
  {
    var s := Push(Push(DEFAULT));
    var none: map<string, nat>, scope: map<string, nat> := map[], map["x" := 0];
    var whole := Variable("x", Some("T"), Some(""), WHOLE);
    assert s == State([none, none], []);
    assert none["x" := 0] == scope && [none, none][1 := scope] == [none, scope];
    var s1, s2 := State([none, scope], [whole]), State([none, scope], [CLOSED]);
    assert [] + [whole] == [whole] && NewVariable(ONE, "x", Some("T"), true) == whole;
    assert Declare(s, whole) == Accept(s1) && Bind(ONE, "x", Some("T"), s) == Accept(s1);
    assert CheckExpr(ONE, Literal, s) == Accept(s);
    assert CheckStmt(ONE, LINEAR_ARM[0], s) == Accept(Some(s1));
    LinearArmCloses(none, scope, whole);
    assert LINEAR_ARM[1..] == [LINEAR_ARM[1]];
    assert CheckBlock(ONE, LINEAR_ARM[1..][1..], s2) == Accept(Some(s2));
    assert CheckBlock(ONE, LINEAR_ARM[1..], s1) == Accept(Some(s2));
    assert CheckBlock(ONE, LINEAR_ARM, s) == Accept(Some(s2));
    assert [none, scope][..1] == [none];
  }

  lemma LinearArmCloses(none: map<string, nat>, scope: map<string, nat>, whole: Variable)
    requires none == map[] && scope == map["x" := 0] && whole == Variable("x", Some("T"), Some(""), WHOLE)
    ensures Valid(State([none, scope], [whole]))
    ensures CheckStmt(ONE, LINEAR_ARM[1], State([none, scope], [whole])) == Accept(Some(State([none, scope], [CLOSED])))
  {
    var s, e := State([none, scope], [whole]), LINEAR_ARM[1].value;
    assert Lookup(s.scopes, "x") == Some(0);
    assert e.receiver == Expr.Transfer(Identifier("x")) && e.name == "close" && e.args == [];
    assert CheckExprs(ONE, [], s) == Accept(s);
    assert DestroyedPlace(ONE, e.receiver, e.name, s) == Some((0, []));
    OneIsClosed();
    assert [whole][0 := CLOSED] == [CLOSED];
  }

  lemma OneIsClosed()
    ensures Destroy(ONE, "T", WHOLE, []) == Ok(Residue({}, {[]}))
  {
    assert Expose(ONE, "T", WHOLE.obligations, [], 0) == Ok({[]});
    var all: set<Path> := {[]};
    assert all - {[]} == {} && {} + all == all;
  }

  /** Variables of different arms are compared when they happen to get the same number: with the linear arm last the
      function is rejected, with the same arms the other way round it is accepted. */
  lemma ArmLocalsAreCompared()
    ensures CheckFunction(ONE, TwoArms(ORDINARY_ARM, LINEAR_ARM)) == Reject(Inconsistent)
    ensures CheckFunction(ONE, TwoArms(LINEAR_ARM, ORDINARY_ARM)) == Accept(())
  {
    OrdinaryArmWalked();
    LinearArmWalked();
    ArmsJoined(ORDINARY_ARM, LINEAR_ARM, State([map[]], [PLAIN]), State([map[]], [CLOSED]));
    ArmsJoined(LINEAR_ARM, ORDINARY_ARM, State([map[]], [CLOSED]), State([map[]], [PLAIN]));
  }

  lemma ArmsJoined(first: seq<Stmt>, second: seq<Stmt>, a: State, b: State)
    requires CheckScoped(ONE, first, Push(DEFAULT)) == Accept(Some(a))
    requires CheckScoped(ONE, second, Push(DEFAULT)) == Accept(Some(b))
    requires |a.vars| == |b.vars| == 1 && a.vars[0].residue != b.vars[0].residue && !Abandons(b.vars[0])
    ensures CheckFunction(ONE, TwoArms(first, second))
         == if b.vars[0].message.Some? then Reject(Inconsistent) else Accept(())
  {
    var s, f := Push(DEFAULT), TwoArms(first, second);
    var branches := [Branch(Literal, first)];
    assert CheckArm(ONE, branches[0], s) == Accept(Some(a));
    assert branches[1..] == [] && CheckBranches(ONE, [], s) == Accept([]);
    assert [a] + [] == [a] && CheckBranches(ONE, branches, s) == Accept([a]);
    JoinOfTwo(a, b);
    var st := If(branches, Else(second));
    assert f.body[0] == st && [a] + [b] == [a, b];
    assert IfExits(ONE, st, s) == Accept([a, b]);
    var r := CheckStmt(ONE, st, s);
    assert CheckIf(ONE, st, s) == Join([a, b]);
    if b.vars[0].message.None? {
      assert r == Accept(Some(b));
      assert CheckBlock(ONE, f.body[1..], b) == Accept(Some(b));
    }
    assert CheckBlock(ONE, f.body, s) == r;
    assert DeclareParams(ONE, f.params, s) == Accept(s);
  }

  lemma JoinOfTwo(a: State, b: State)
    requires |a.vars| == |b.vars| == 1 && a.vars[0].residue != b.vars[0].residue
    ensures Join([a, b]) == if b.vars[0].message.Some? then Reject(Inconsistent) else Accept(b)
  {
    assert [a, b][0] == a && [a, b][1] == b;
    assert Consistent(b, a) <==> b.vars[0].message.None?;
  }
}
