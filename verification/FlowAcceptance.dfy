/** When the explicit-destruction pass accepts: a function in its fragment is accepted if and only if no run of it is
    broken and runs that meet again have lost the same parts of the same values. */
module FlowAcceptance {
  import opened Wrappers
  import opened LinearPaths
  import opened LinearValues
  import opened Obligations
  import opened FlowSyntax
  import opened FlowRules
  import opened FlowSoundness
  import Runs = FlowRuns
  import Limits = FlowLimits

  // ----- frames with the same holes -----

  ghost predicate SameHole(a: Runs.Slot, b: Runs.Slot) {
    a.ty == b.ty && (a.ty.Some? ==> forall p :: HoleAt(a.value, p) <==> HoleAt(b.value, p))
  }

  /** The same variables are in scope, and the same parts of their linear values are gone. */
  ghost predicate SameHoles(fs: Runs.Frames, gs: Runs.Frames) {
    && |fs| == |gs|
    && (forall i :: 0 <= i < |fs| ==> fs[i].Keys == gs[i].Keys)
    && forall i, n :: 0 <= i < |fs| && n in fs[i] ==> SameHole(fs[i][n], gs[i][n])
  }

  lemma SameHoleSameResidue(types: Registry, v: Variable, a: Runs.Slot, w: Variable, b: Runs.Slot)
    requires VariableAgrees(types, v, a) && VariableAgrees(types, w, b) && SameHole(a, b) && a.ty.Some?
    ensures v.residue == w.residue
  {
    assert v.residue.moved == w.residue.moved by {
      forall p ensures p in v.residue.moved <==> p in w.residue.moved {
        assert HoleAt(a.value, p) <==> HoleAt(b.value, p);
      }
    }
    assert v.residue.obligations == w.residue.obligations by {
      forall p ensures p in v.residue.obligations <==> p in w.residue.obligations {
        OwesIsOwed(types, a.ty.value, a.value, v.residue.moved, p);
        OwesIsOwed(types, b.ty.value, b.value, w.residue.moved, p);
      }
    }
  }

  lemma SameResidueSameHole(types: Registry, v: Variable, a: Runs.Slot, w: Variable, b: Runs.Slot)
    requires VariableAgrees(types, v, a) && VariableAgrees(types, w, b) && v.explicitType == w.explicitType
    requires v.message.Some? ==> v.residue == w.residue
    ensures SameHole(a, b)
  {
    if a.ty.Some? {
      forall p ensures HoleAt(a.value, p) <==> HoleAt(b.value, p) {
        assert p in v.residue.moved <==> HoleAt(a.value, p);
      }
    }
  }

  /** States that describe runs are consistent on the variables in scope exactly when the runs have the same holes. */
  lemma ConsistentIsSameHoles(types: Registry, s: State, fs: Runs.Frames, t: State, gs: Runs.Frames)
    requires Agrees(types, s, fs) && Agrees(types, t, gs) && s.scopes == t.scopes
    requires forall i :: 0 <= i < |s.vars| && Bound(s, i) ==> i < |t.vars| && SameDeclaration(s.vars[i], t.vars[i])
    requires forall i :: 0 <= i < |s.vars| && i < |t.vars| && !Bound(s, i) && s.vars[i].message.Some? ==>
               s.vars[i].residue == t.vars[i].residue
    ensures Consistent(s, t) <==> SameHoles(fs, gs)
  {
    if SameHoles(fs, gs) {
      forall i | 0 <= i < |s.vars| && i < |t.vars| && s.vars[i].message.Some?
        ensures s.vars[i].residue == t.vars[i].residue
      {
        if Bound(s, i) {
          var k, n :| 0 <= k < |s.scopes| && n in s.scopes[k] && s.scopes[k][n] == i;
          assert n in fs[k] && n in gs[k];
          assert VariableAgrees(types, s.vars[i], fs[k][n]) && VariableAgrees(types, t.vars[i], gs[k][n]);
          SameHoleSameResidue(types, s.vars[i], fs[k][n], t.vars[i], gs[k][n]);
        }
      }
    }
    if Consistent(s, t) {
      forall k | 0 <= k < |fs|
        ensures fs[k].Keys == gs[k].Keys
      {
        assert fs[k].Keys == s.scopes[k].Keys == gs[k].Keys;
      }
      forall k, n | 0 <= k < |fs| && n in fs[k]
        ensures SameHole(fs[k][n], gs[k][n])
      {
        var i := s.scopes[k][n];
        ScopedIsBound(s, k, n);
        assert n in gs[k];
        assert VariableAgrees(types, s.vars[i], fs[k][n]) && VariableAgrees(types, t.vars[i], gs[k][n]);
        SameResidueSameHole(types, s.vars[i], fs[k][n], t.vars[i], gs[k][n]);
      }
    }
  }

  // ----- what a step leaves alone -----

  /** A name in scope denotes variable `i`. */
  ghost predicate Bound(s: State, i: nat) {
    exists k, n :: 0 <= k < |s.scopes| && n in s.scopes[k] && s.scopes[k][n] == i
  }

  /** No variable out of scope owes anything. */
  ghost predicate Tidy(s: State) {
    forall i :: 0 <= i < |s.vars| && Abandons(s.vars[i]) ==> Bound(s, i)
  }

  /** Variables out of scope stay as they are; with `plain`, no linear variable is added. */
  ghost predicate Kept(s: State, t: State, plain: bool) {
    && |s.vars| <= |t.vars|
    && (forall i :: 0 <= i < |s.vars| && !Bound(s, i) ==> t.vars[i] == s.vars[i] && !Bound(t, i))
    && (Tidy(s) ==> Tidy(t))
    && (plain ==> forall i :: |s.vars| <= i < |t.vars| ==> t.vars[i].message.None?)
  }

  lemma KeptTransitive(s: State, t: State, u: State, a: bool, b: bool)
    requires Kept(s, t, a) && Kept(t, u, b) && KeepsVars(t, u)
    ensures Kept(s, u, a && b)
  {
  }

  lemma SetIsKept(s: State, id: nat, r: Residue)
    requires id < |s.vars| && Bound(s, id)
    ensures Kept(s, SetResidue(s, id, r), true)
  {
    var t := SetResidue(s, id, r);
    forall i ensures Bound(t, i) <==> Bound(s, i) {}
  }

  lemma ScopedIsBound(s: State, level: nat, name: string)
    requires level < |s.scopes| && name in s.scopes[level]
    ensures Bound(s, s.scopes[level][name])
  {
  }

  lemma DeclareIsKept(s: State, v: Variable)
    requires Valid(s) && s.scopes != [] && v.name !in s.scopes[|s.scopes| - 1]
    ensures Kept(s, Declare(s, v).value, v.message.None?)
  {
    var t, last := Declare(s, v).value, |s.scopes| - 1;
    forall i, n | 0 <= i < |s.scopes| && n in s.scopes[i]
      ensures n in t.scopes[i] && t.scopes[i][n] == s.scopes[i][n]
    {
    }
    assert v.name in t.scopes[last] && t.scopes[last][v.name] == |s.vars|;
    forall i, n | 0 <= i < |t.scopes| && n in t.scopes[i] && t.scopes[i][n] < |s.vars|
      ensures n in s.scopes[i] && t.scopes[i][n] == s.scopes[i][n]
    {
    }
  }

  lemma PushIsKept(s: State)
    ensures forall i: nat :: Bound(Push(s), i) <==> Bound(s, i)
    ensures Kept(s, Push(s), true)
  {
    var t := Push(s);
    forall k, n | 0 <= k < |s.scopes| && n in s.scopes[k] ensures n in t.scopes[k] &&
      t.scopes[k][n] == s.scopes[k][n] {}
    forall i: nat ensures Bound(t, i) <==> Bound(s, i) {
      if Bound(s, i) {
        var k, n :| 0 <= k < |s.scopes| && n in s.scopes[k] && s.scopes[k][n] == i;
        assert n in t.scopes[k];
      }
    }
  }

  lemma PopIsKept(s: State, t: State, plain: bool)
    requires Kept(Push(s), t, plain) && Grown(Push(s), t) && PopChecked(t).Accept?
    ensures Kept(s, PopChecked(t).value, plain) && PopChecked(t).value.scopes == s.scopes
  {
    PushIsKept(s);
    var u, last := PopChecked(t).value, |t.scopes| - 1;
    assert u.scopes == s.scopes;
    forall i: nat ensures Bound(u, i) <==> Bound(s, i) {}
    if Tidy(s) {
      forall i | 0 <= i < |u.vars| && Abandons(u.vars[i])
        ensures Bound(u, i)
      {
        var k, n :| 0 <= k < |t.scopes| && n in t.scopes[k] && t.scopes[k][n] == i;
        assert k != last;
        assert n in u.scopes[k];
      }
    }
  }

  // ----- runs -----

  /** Neither broken nor outside, except that the choices may not fit the statements. */
  ghost predicate Smooth(r: Runs.Outcome) {
    !r.Broken? && (r.Outside? ==> r.reason == Runs.NotARun)
  }

  ghost predicate SmoothStmt(types: Registry, st: Stmt, fs: Runs.Frames)
    requires |fs| > 0
  {
    forall c :: Smooth(Runs.ExecStmt(types, st, c, fs))
  }

  ghost predicate SmoothBlock(types: Registry, body: seq<Stmt>, fs: Runs.Frames)
    requires |fs| > 0
  {
    forall cs :: Smooth(Runs.ExecBlock(types, body, cs, fs))
  }

  ghost predicate SmoothScoped(types: Registry, body: seq<Stmt>, fs: Runs.Frames)
    requires |fs| > 0
  {
    forall cs :: Smooth(Runs.ExecScoped(types, body, cs, fs))
  }

  ghost predicate Runnable(types: Registry, st: Stmt, fs: Runs.Frames)
    requires |fs| > 0
  {
    exists c :: Runs.ExecStmt(types, st, c, fs).Normal?
  }

  ghost predicate RunnableBlock(types: Registry, body: seq<Stmt>, fs: Runs.Frames)
    requires |fs| > 0
  {
    exists cs :: Runs.ExecBlock(types, body, cs, fs).Normal?
  }

  ghost predicate RunnableScoped(types: Registry, body: seq<Stmt>, fs: Runs.Frames)
    requires |fs| > 0
  {
    exists cs :: Runs.ExecScoped(types, body, cs, fs).Normal?
  }

  /** Every linear type has a whole value. */
  ghost predicate Inhabited(types: Registry) {
    forall t :: t in types ==> exists v :: Whole(v) && WellTyped(types, t, v)
  }

  lemma SomeValue(types: Registry, ty: Option<string>) returns (v: Value)
    requires Inhabited(types) && (ty.Some? ==> ty.value in types)
    ensures Runs.Fits(types, ty, v)
  {
    if ty.Some? {
      v :| Whole(v) && WellTyped(types, ty.value, v);
    } else {
      v := Gone;
    }
  }

  // ----- runs that meet again -----

  /** Wherever runs meet again, after an `if` or a round of a loop, they have lost the same parts of the same values. */
  ghost predicate SteadyStmt(types: Registry, st: Stmt, fs: Runs.Frames)
    requires |fs| > 0
    decreases st, 0
  {
    match st
    case If(branches, orelse) =>
      && (forall c, d :: Runs.ExecStmt(types, st, c, fs).Normal? && Runs.ExecStmt(types, st, d, fs).Normal? ==>
            SameHoles(Runs.ExecStmt(types, st, c, fs).frames, Runs.ExecStmt(types, st, d, fs).frames))
      && (forall i :: 0 <= i < |branches| && Runs.EvalConditions(types, branches, i + 1, fs).Normal? ==>
            SteadyBlock(types, branches[i].body, fs + [map[]]))
      && (Runs.EvalConditions(types, branches, |branches|, fs).Normal? ==> SteadyOrElse(types, orelse, fs))
    case While(cond, body, orelse) =>
      Runs.EvalCondition(types, cond, fs).Normal? ==>
        && SteadyBlock(types, body, fs + [map[]])
        && (forall cs :: Runs.ExecScoped(types, body, cs, fs).Normal? ==>
              SameHoles(fs, Runs.ExecScoped(types, body, cs, fs).frames))
        && SteadyOrElse(types, orelse, fs)
    case For(name, ty, iter, body, orelse) =>
      var r := Runs.EvalExpr(types, iter, fs);
      r.Normal? ==>
        && (forall item :: Runs.Bind(types, name, ty, item, r.frames + [map[]]).Normal? ==>
              SteadyBlock(types, body, Runs.Bind(types, name, ty, item, r.frames + [map[]]).frames))
        && (forall round :: Runs.ExecBoundRound(types, name, ty, body, round, r.frames).Normal? ==>
              SameHoles(r.frames, Runs.ExecBoundRound(types, name, ty, body, round, r.frames).frames))
        && SteadyOrElse(types, orelse, r.frames)
    case _ => true
  }

  ghost predicate SteadyOrElse(types: Registry, orelse: OrElse, fs: Runs.Frames)
    requires |fs| > 0
    decreases orelse, 0
  {
    orelse.Else? ==> SteadyBlock(types, orelse.body, fs + [map[]])
  }

  ghost predicate SteadyBlock(types: Registry, body: seq<Stmt>, fs: Runs.Frames)
    requires |fs| > 0
    decreases body, 0
  {
    body != [] ==>
      && SteadyStmt(types, body[0], fs)
      && forall c :: Runs.ExecStmt(types, body[0], c, fs).Normal? ==>
           SteadyBlock(types, body[1..], Runs.ExecStmt(types, body[0], c, fs).frames)
  }

  // ----- the code the converse speaks about -----

  predicate DeclaresNoLinear(types: Registry, st: Stmt)
    decreases st, 0
  {
    match st
    case VarDecl(_, ty, _) => ExplicitName(types, ty).None?
    case If(branches, orelse) =>
      && (forall i :: 0 <= i < |branches| ==> BlockDeclaresNoLinear(types, branches[i].body))
      && (orelse.Else? ==> BlockDeclaresNoLinear(types, orelse.body))
    case While(_, body, orelse) =>
      BlockDeclaresNoLinear(types, body) && (orelse.Else? ==> BlockDeclaresNoLinear(types, orelse.body))
    case For(_, ty, _, body, orelse) =>
      && ExplicitName(types, ty).None? && BlockDeclaresNoLinear(types, body)
      && (orelse.Else? ==> BlockDeclaresNoLinear(types, orelse.body))
    case _ => true
  }

  predicate BlockDeclaresNoLinear(types: Registry, body: seq<Stmt>)
    decreases body, 0
  {
    forall i :: 0 <= i < |body| ==> DeclaresNoLinear(types, body[i])
  }

  /** The arms of an `if` declare no linear variables, the `else` of a loop falls through, and nothing follows an
      exhaustive `if` whose arms all leave. */
  predicate Plain(types: Registry, st: Stmt)
    decreases st, 0
  {
    match st
    case If(branches, orelse) =>
      && DeclaresNoLinear(types, st)
      && (forall i :: 0 <= i < |branches| ==> PlainBlock(types, branches[i].body))
      && (orelse.Else? ==> PlainBlock(types, orelse.body))
    case While(_, body, orelse) => PlainBlock(types, body) && PlainElse(types, orelse)
    case For(_, _, _, body, orelse) => PlainBlock(types, body) && PlainElse(types, orelse)
    case _ => true
  }

  predicate PlainElse(types: Registry, orelse: OrElse)
    decreases orelse, 0
  {
    orelse.Else? ==> PlainBlock(types, orelse.body) && !Limits.Stops(orelse.body)
  }

  predicate PlainBlock(types: Registry, body: seq<Stmt>)
    decreases body, 0
  {
    forall i :: 0 <= i < |body| ==> Plain(types, body[i]) && (Limits.DeadIf(body[i]) ==> i == |body| - 1)
  }

  // ----- expressions -----

  /** The choices fit. */
  ghost predicate Fitting(r: Runs.Outcome) {
    r.Outside? ==> r.reason != Runs.NotARun
  }

  /** Evaluating an expression does not leave the function, and where it is outside that is no matter of choices. */
  ghost predicate Ordinary(r: Runs.Outcome) {
    !r.Exited? && Fitting(r)
  }

  lemma {:induction false} ExprIsOrdinary(types: Registry, e: Expr, fs: Runs.Frames)
    ensures Ordinary(Runs.EvalExpr(types, e, fs))
    decreases e, 1
  {
    match e
    case MethodCall(receiver, name, args) =>
      ExprsAreOrdinary(types, args, fs);
      match Runs.EvalExprs(types, args, fs) {
        case Normal(fs1) => ExprIsOrdinary(types, receiver, fs1);
        case _ =>
      }
    case Call(args) => ExprsAreOrdinary(types, args, fs);
    case Prefix(operand) => ExprIsOrdinary(types, operand, fs);
    case Infix(left, right) =>
      ExprIsOrdinary(types, left, fs);
      match Runs.EvalExpr(types, left, fs) {
        case Normal(fs1) => ExprIsOrdinary(types, right, fs1);
        case _ =>
      }
    case Member(receiver, _) => ExprIsOrdinary(types, receiver, fs);
    case Index(receiver, index) =>
      ExprIsOrdinary(types, receiver, fs);
      match Runs.EvalExpr(types, receiver, fs) {
        case Normal(fs1) => ExprIsOrdinary(types, index, fs1);
        case _ =>
      }
    case _ =>
  }

  lemma {:induction false} ExprsAreOrdinary(types: Registry, es: seq<Expr>, fs: Runs.Frames)
    ensures Ordinary(Runs.EvalExprs(types, es, fs))
    decreases es, 0
  {
    if es != [] {
      ExprIsOrdinary(types, es[0], fs);
      match Runs.EvalExpr(types, es[0], fs) {
        case Normal(fs1) => ExprsAreOrdinary(types, es[1..], fs1);
        case _ =>
      }
    }
  }

  lemma TransferAccepted(types: Registry, e: Expr, s: State, fs: Runs.Frames)
    requires Agrees(types, s, fs) && Runs.TransferOut(types, e, fs).Normal?
    ensures MoveRoot(types, e, s).Accept? && Kept(s, MoveRoot(types, e, s).value, true)
  {
    PlacesHaveNoIndex(e);
    SamePlace(s, fs, e);
    match Runs.PlaceOf(e, fs)
    case None =>
    case Some(p) =>
      var slot, id := fs[p.level][p.name], s.scopes[p.level][p.name];
      var v := s.vars[id];
      assert VariableAgrees(types, v, slot);
      ScopedIsBound(s, p.level, p.name);
      if slot.ty.Some? {
        AgreementIsExact(types, v, slot);
        WholeAtUntouched(slot.value, v.residue.moved, p.path);
        MoveOutOfWholePlace(types, slot.ty.value, v.residue, p.path);
        SetIsKept(s, id, MoveOut(types, slot.ty.value, v.residue, p.path).value);
      }
  }

  /** A destructor call that finds its value complete is accepted. */
  lemma DestructorAccepted(types: Registry, receiver: Expr, name: string, s: State, fs: Runs.Frames)
    requires Agrees(types, s, fs) && Runs.DestroyedPlace(types, receiver, name, fs).Some?
    requires Runs.TakeOut(types, fs, Runs.DestroyedPlace(types, receiver, name, fs).value,
                          Runs.Broken(Runs.DestroyedMissing)).Normal?
    ensures DestroyedPlace(types, receiver, name, s).Some?
    ensures var (id, path) := DestroyedPlace(types, receiver, name, s).value;
            && id < |s.vars| && s.vars[id].explicitType.Some?
            && var r := FromResult(s, id, Destroy(types, s.vars[id].explicitType.value, s.vars[id].residue, path));
               r.Accept? && Kept(s, r.value, true)
  {
    DestructorSound(types, receiver, name, s, fs);
    SamePlace(s, fs, receiver.inner);
    var p := Runs.DestroyedPlace(types, receiver, name, fs).value;
    var slot, id := fs[p.level][p.name], s.scopes[p.level][p.name];
    var v := s.vars[id];
    assert VariableAgrees(types, v, slot);
    ScopedIsBound(s, p.level, p.name);
    AgreementIsExact(types, v, slot);
    WholeAtUntouched(slot.value, v.residue.moved, p.path);
    DestroyExact(types, slot.ty.value, v.residue, p.path);
    SetIsKept(s, id, Destroy(types, slot.ty.value, v.residue, p.path).value);
  }

  /** An expression whose evaluation goes through is accepted. */
  lemma {:induction false} ExprAccepted(types: Registry, e: Expr, s: State, fs: Runs.Frames)
    requires Agrees(types, s, fs) && Runs.EvalExpr(types, e, fs).Normal?
    ensures CheckExpr(types, e, s).Accept? && Kept(s, CheckExpr(types, e, s).value, true)
    ensures Agrees(types, CheckExpr(types, e, s).value, Runs.EvalExpr(types, e, fs).frames)
    decreases e, 2
  {
    ExprAnswers(types, e, s, fs);
    ExprSound(types, e, s, fs);
  }

  lemma {:induction false} ExprAnswers(types: Registry, e: Expr, s: State, fs: Runs.Frames)
    requires Agrees(types, s, fs) && Runs.EvalExpr(types, e, fs).Normal?
    ensures CheckExpr(types, e, s).Accept? && Kept(s, CheckExpr(types, e, s).value, true)
    decreases e, 1
  {
    match e
    case Transfer(inner) => TransferAccepted(types, inner, s, fs);
    case MethodCall(_, _, _) => MethodAnswers(types, e, s, fs);
    case Call(args) => ExprsAccepted(types, args, s, fs);
    case Prefix(operand) => ExprAccepted(types, operand, s, fs);
    case Infix(left, right) =>
      ExprAccepted(types, left, s, fs);
      ExprAccepted(types, right, CheckExpr(types, left, s).value, Runs.EvalExpr(types, left, fs).frames);
      KeptTwice(types, left, right, s);
    case Member(receiver, _) => ExprAccepted(types, receiver, s, fs);
    case Index(receiver, index) =>
      ExprAccepted(types, receiver, s, fs);
      ExprAccepted(types, index, CheckExpr(types, receiver, s).value, Runs.EvalExpr(types, receiver, fs).frames);
      KeptTwice(types, receiver, index, s);
    case _ =>
  }

  lemma KeptTwice(types: Registry, a: Expr, b: Expr, s: State)
    requires Valid(s) && CheckExpr(types, a, s).Accept? && Kept(s, CheckExpr(types, a, s).value, true)
    requires var s1 := CheckExpr(types, a, s).value;
             CheckExpr(types, b, s1).Accept? && Kept(s1, CheckExpr(types, b, s1).value, true)
    ensures Kept(s, CheckExpr(types, b, CheckExpr(types, a, s).value).value, true)
  {
    var s1 := CheckExpr(types, a, s).value;
    KeptTransitive(s, s1, CheckExpr(types, b, s1).value, true, true);
  }

  lemma {:induction false} MethodAnswers(types: Registry, e: Expr, s: State, fs: Runs.Frames)
    requires Agrees(types, s, fs) && e.MethodCall? && Runs.EvalExpr(types, e, fs).Normal?
    ensures CheckExpr(types, e, s).Accept? && Kept(s, CheckExpr(types, e, s).value, true)
    decreases e, 0
  {
    ExprsAccepted(types, e.args, s, fs);
    var s1, fs1 := CheckExprs(types, e.args, s).value, Runs.EvalExprs(types, e.args, fs).frames;
    if Runs.DestroyedPlace(types, e.receiver, e.name, fs1).Some? {
      DestructorAccepted(types, e.receiver, e.name, s1, fs1);
    } else {
      DestructorSound(types, e.receiver, e.name, s1, fs1);
      ExprAccepted(types, e.receiver, s1, fs1);
    }
    MethodKept(types, e, s);
  }

  lemma MethodKept(types: Registry, e: Expr, s: State)
    requires Valid(s) && e.MethodCall? && CheckExprs(types, e.args, s).Accept?
    requires Kept(s, CheckExprs(types, e.args, s).value, true)
    requires CheckExpr(types, e, s).Accept? &&
      Kept(CheckExprs(types, e.args, s).value, CheckExpr(types, e, s).value, true)
    ensures Kept(s, CheckExpr(types, e, s).value, true)
  {
    KeptTransitive(s, CheckExprs(types, e.args, s).value, CheckExpr(types, e, s).value, true, true);
  }

  lemma {:induction false} ExprsAccepted(types: Registry, es: seq<Expr>, s: State, fs: Runs.Frames)
    requires Agrees(types, s, fs) && Runs.EvalExprs(types, es, fs).Normal?
    ensures CheckExprs(types, es, s).Accept? && Kept(s, CheckExprs(types, es, s).value, true)
    ensures Agrees(types, CheckExprs(types, es, s).value, Runs.EvalExprs(types, es, fs).frames)
    decreases es, 0
  {
    if es != [] {
      ExprAccepted(types, es[0], s, fs);
      var s1 := CheckExpr(types, es[0], s).value;
      ExprsAccepted(types, es[1..], s1, Runs.EvalExpr(types, es[0], fs).frames);
      KeptTransitive(s, s1, CheckExprs(types, es, s).value, true, true);
    }
  }

  // ----- scopes and assignments -----

  /** What holds before a statement that runs from `fs`. */
  ghost predicate Ready(types: Registry, s: State, fs: Runs.Frames) {
    Closed(types) && Inhabited(types) && |fs| > 0 && Agrees(types, s, fs) && Tidy(s)
  }

  lemma BindAccepted(types: Registry, name: string, ty: Option<string>, stored: Value, s: State, fs: Runs.Frames)
    requires Agrees(types, s, fs) && |fs| > 0 && Runs.Bind(types, name, ty, stored, fs).Normal?
    ensures Bind(types, name, ty, s).Accept?
    ensures Kept(s, Bind(types, name, ty, s).value, ExplicitName(types, ty).None?)
    ensures Agrees(types, Bind(types, name, ty, s).value, Runs.Bind(types, name, ty, stored, fs).frames)
  {
    var explicit := ExplicitName(types, ty);
    assert s.scopes[|fs| - 1].Keys == fs[|fs| - 1].Keys;
    BindSound(types, name, ty, stored, s, fs);
    DeclareIsKept(s, NewVariable(types, name, explicit, explicit.Some?));
  }

  /** Assigning a variable is rejected exactly when its value still owes a destructor. */
  lemma OverwriteAcceptedExactly(types: Registry, name: string, s: State, fs: Runs.Frames)
    requires Agrees(types, s, fs)
    ensures Overwrite(name, s).Accept? <==>
            match InnermostScope(fs, name)
            case None => true
            case Some(level) => !Runs.SlotOwes(types, fs[level][name])
    ensures if Overwrite(name, s).Accept? then Kept(s, Overwrite(name, s).value, true)
            else Overwrite(name, s) == Reject(Overwritten)
  {
    SameInnermost(s.scopes, fs, name);
    match InnermostScope(fs, name)
    case None =>
    case Some(level) =>
      var id := s.scopes[level][name];
      var v := s.vars[id];
      assert VariableAgrees(types, v, fs[level][name]);
      OwesMeansAbandons(types, v, fs[level][name]);
      ScopedIsBound(s, level, name);
      SetIsKept(s, id, if v.explicitType.Some? then WHOLE else Residue({}, {}));
  }

  lemma WrittenIsKept(types: Registry, place: Expr, s: State, fs: Runs.Frames)
    requires Agrees(types, s, fs)
    ensures Kept(s, ReinitializePlace(types, place, s), true)
  {
    SamePlace(s, fs, place);
    match Runs.PlaceOf(place, fs)
    case None =>
    case Some(p) =>
      var id := s.scopes[p.level][p.name];
      ScopedIsBound(s, p.level, p.name);
      if s.vars[id].explicitType.Some? {
        SetIsKept(s, id, Reinitialize(types, s.vars[id].explicitType.value, s.vars[id].residue, p.path));
      }
  }

  /** A scope can be left exactly when none of its variables owes anything. */
  lemma PopAcceptedExactly(types: Registry, s: State, fs: Runs.Frames)
    requires Agrees(types, s, fs) && |fs| > 0
    ensures PopChecked(s).Accept? <==> !Runs.FrameOwes(types, fs[|fs| - 1])
    ensures !PopChecked(s).Accept? ==> PopChecked(s) == Reject(Abandoned)
  {
    var last := |fs| - 1;
    forall n | n in fs[last]
      ensures n in s.scopes[last] && (Runs.SlotOwes(types, fs[last][n]) <==> Abandons(s.vars[s.scopes[last][n]]))
    {
      assert n in s.scopes[last];
      OwesMeansAbandons(types, s.vars[s.scopes[last][n]], fs[last][n]);
    }
  }

  /** The function can be left exactly where nothing in scope owes anything. */
  lemma ExitAcceptedExactly(types: Registry, s: State, fs: Runs.Frames)
    requires Agrees(types, s, fs) && Tidy(s)
    ensures CheckExit(s) == if Runs.AnyOwes(types, fs) then Reject(Abandoned) else Accept(None)
    ensures AnyAbandons(s) <==> Runs.AnyOwes(types, fs)
  {
    forall k, n | 0 <= k < |fs| && n in fs[k]
      ensures n in s.scopes[k] && (Runs.SlotOwes(types, fs[k][n]) <==> Abandons(s.vars[s.scopes[k][n]]))
    {
      assert n in s.scopes[k];
      OwesMeansAbandons(types, s.vars[s.scopes[k][n]], fs[k][n]);
    }
    if AnyAbandons(s) {
      var i :| 0 <= i < |s.vars| && Abandons(s.vars[i]);
      var k, n :| 0 <= k < |s.scopes| && n in s.scopes[k] && s.scopes[k][n] == i;
      assert n in fs[k] && Runs.SlotOwes(types, fs[k][n]);
      assert Runs.FrameOwes(types, fs[k]);
    }
    if Runs.AnyOwes(types, fs) {
      var k :| 0 <= k < |fs| && Runs.FrameOwes(types, fs[k]);
      var n :| n in fs[k] && Runs.SlotOwes(types, fs[k][n]);
      assert Abandons(s.vars[s.scopes[k][n]]);
    }
  }

  // ----- statements -----

  /** The statement is accepted; unless it leaves, it can be run to its end and only variables in scope change. */
  ghost predicate Proceeds(types: Registry, st: Stmt, s: State, fs: Runs.Frames)
    requires Valid(s) && |fs| > 0
  {
    var r := CheckStmt(types, st, s);
    && r.Accept?
    && (r.value.Some? ==>
          && Tidy(r.value.value)
          && (r.value.value.scopes != [] ==>
                Kept(s, r.value.value, DeclaresNoLinear(types, st)) && Runnable(types, st, fs)))
  }

  ghost predicate BlockProceeds(types: Registry, body: seq<Stmt>, s: State, fs: Runs.Frames)
    requires Valid(s) && |fs| > 0
  {
    var r := CheckBlock(types, body, s);
    && r.Accept?
    && (r.value.Some? ==>
          && Tidy(r.value.value)
          && (r.value.value.scopes != [] ==>
                Kept(s, r.value.value, BlockDeclaresNoLinear(types, body)) && RunnableBlock(types, body, fs)))
  }

  ghost predicate ScopedProceeds(types: Registry, body: seq<Stmt>, s: State, fs: Runs.Frames)
    requires Valid(s) && |fs| > 0
  {
    var r := CheckScoped(types, body, s);
    && r.Accept?
    && (r.value.Some? <==> !Limits.Stops(body))
    && (r.value.Some? ==>
          Kept(s, r.value.value, BlockDeclaresNoLinear(types, body)) && RunnableScoped(types, body, fs))
  }

  lemma DeclarationAccepted(types: Registry, st: Stmt, s: State, fs: Runs.Frames)
    requires Ready(types, s, fs) && st.VarDecl? && SmoothStmt(types, st, fs)
    ensures Proceeds(types, st, s, fs)
  {
    var v := SomeValue(types, ExplicitName(types, st.ty));
    var r := Runs.ExecStmt(types, st, Runs.Leaf(v), fs);
    assert Smooth(r);
    ExprIsOrdinary(types, st.value, fs);
    ExprAccepted(types, st.value, s, fs);
    var s1, fs1 := CheckExpr(types, st.value, s).value, Runs.EvalExpr(types, st.value, fs).frames;
    assert r == Runs.Bind(types, st.name, st.ty, v, fs1);
    BindAccepted(types, st.name, st.ty, v, s1, fs1);
    KeptTransitive(s, s1, Bind(types, st.name, st.ty, s1).value, true, ExplicitName(types, st.ty).None?);
  }

  lemma AssignmentAccepted(types: Registry, st: Stmt, s: State, fs: Runs.Frames)
    requires Ready(types, s, fs) && st.Assign? && SmoothStmt(types, st, fs)
    ensures Proceeds(types, st, s, fs)
  {
    ExprIsOrdinary(types, st.value, fs);
    assert Smooth(Runs.ExecStmt(types, st, Runs.Leaf(Gone), fs));
    ExprAccepted(types, st.value, s, fs);
    var s1, fs1 := CheckExpr(types, st.value, s).value, Runs.EvalExpr(types, st.value, fs).frames;
    OverwriteAcceptedExactly(types, st.name, s1, fs1);
    AssignmentRuns(types, st.name, s1, fs1);
    var v :| !Runs.Overwrite(types, st.name, v, fs1).Outside?;
    var r := Runs.ExecStmt(types, st, Runs.Leaf(v), fs);
    assert Smooth(r) && r == Runs.Overwrite(types, st.name, v, fs1);
    assert r.Normal?;
    KeptTransitive(s, s1, Overwrite(st.name, s1).value, true, true);
  }

  lemma AssignmentRuns(types: Registry, name: string, s: State, fs: Runs.Frames)
    requires Inhabited(types) && Agrees(types, s, fs)
    ensures exists v :: !Runs.Overwrite(types, name, v, fs).Outside?
  {
    match InnermostScope(fs, name)
    case None => assert !Runs.Overwrite(types, name, Gone, fs).Outside?;
    case Some(level) =>
      assert VariableAgrees(types, s.vars[s.scopes[level][name]], fs[level][name]);
      var v := SomeValue(types, fs[level][name].ty);
      assert !Runs.Overwrite(types, name, v, fs).Outside?;
  }

  lemma PlaceAssignmentAccepted(types: Registry, st: Stmt, s: State, fs: Runs.Frames)
    requires Ready(types, s, fs) && st.SetPlace? && SmoothStmt(types, st, fs)
    ensures Proceeds(types, st, s, fs)
  {
    var es := [st.place, st.value];
    ExprsAreOrdinary(types, es, fs);
    assert Smooth(Runs.ExecStmt(types, st, Runs.Leaf(Gone), fs));
    BothEvaluated(types, st.place, st.value, s, fs);
    ExprsAccepted(types, es, s, fs);
    var s1, fs1 := CheckExprs(types, es, s).value, Runs.EvalExprs(types, es, fs).frames;
    WrittenIsKept(types, st.place, s1, fs1);
    KeptTransitive(s, s1, ReinitializePlace(types, st.place, s1), true, true);
    PlaceAssignmentRuns(types, st.place, s1, fs1);
    var v :| Fitting(Runs.WriteField(types, st.place, v, fs1));
    assert Smooth(Runs.ExecStmt(types, st, Runs.Leaf(v), fs));
  }

  lemma BothEvaluated(types: Registry, a: Expr, b: Expr, s: State, fs: Runs.Frames)
    requires Valid(s)
    ensures var r := CheckExpr(types, a, s);
            CheckExprs(types, [a, b], s) == if r.Accept? then CheckExpr(types, b, r.value) else r
  {
    assert [a, b][1..] == [b] && [b][1..] == [];
    if CheckExpr(types, a, s).Accept? {
      var s1 := CheckExpr(types, a, s).value;
      assert CheckExprs(types, [b], s1) == CheckExpr(types, b, s1);
    }
  }

  lemma PlaceAssignmentRuns(types: Registry, place: Expr, s: State, fs: Runs.Frames)
    requires Closed(types) && Inhabited(types) && Agrees(types, s, fs)
    ensures exists v :: Fitting(Runs.WriteField(types, place, v, fs))
  {
    var v := Gone;
    if Runs.PlaceOf(place, fs).Some? {
      var p := Runs.PlaceOf(place, fs).value;
      var slot := fs[p.level][p.name];
      assert VariableAgrees(types, s.vars[s.scopes[p.level][p.name]], slot);
      if slot.ty.Some? {
        v := FieldRuns(types, slot, p.path);
      }
    }
    assert Fitting(Runs.WriteField(types, place, v, fs));
  }

  lemma FieldRuns(types: Registry, slot: Runs.Slot, path: Path) returns (v: Value)
    requires Closed(types) && Inhabited(types)
    requires slot.ty.Some? && slot.ty.value in types && WellTyped(types, slot.ty.value, slot.value)
    ensures Runs.Fill(types, slot.ty.value, slot.value, path, v) != Err(Runs.NotARun)
  {
    var ty := TypeAtPath(types, slot.ty.value, path);
    ClosedTypeAtPath(types, slot.ty.value, path);
    if ty.Some? {
      v := SomeValue(types, ty);
      var k := LinearPathExists(types, slot.ty.value, slot.value, path);
      assert path[..|path|] == path;
    } else {
      v := Present(map[]);
    }
  }

  lemma ExitAccepted(types: Registry, st: Stmt, s: State, fs: Runs.Frames)
    requires Ready(types, s, fs) && Limits.IsExit(st) && SmoothStmt(types, st, fs)
    ensures Proceeds(types, st, s, fs)
  {
    assert Smooth(Runs.ExecStmt(types, st, Runs.Leaf(Gone), fs));
    if st.Return? && st.result.None? {
      ExitAcceptedExactly(types, s, fs);
    } else {
      var value := if st.Return? then st.result.value else st.value;
      ExprIsOrdinary(types, value, fs);
      ExprAccepted(types, value, s, fs);
      ExitAcceptedExactly(types, CheckExpr(types, value, s).value, Runs.EvalExpr(types, value, fs).frames);
    }
  }

  /** The pass is sure to accept: every run goes through, runs that meet have the same holes, and the scope stack never
      runs empty too early. */
  ghost predicate Safe(types: Registry, st: Stmt, fs: Runs.Frames)
    requires |fs| > 0
  {
    SmoothStmt(types, st, fs) && SteadyStmt(types, st, fs) && Plain(types, st) && !Limits.CrashesStmt(st, false)
  }

  ghost predicate SafeBlock(types: Registry, body: seq<Stmt>, fs: Runs.Frames)
    requires |fs| > 0
  {
    && SmoothBlock(types, body, fs) && SteadyBlock(types, body, fs)
    && PlainBlock(types, body) && !Limits.CrashesBlock(body, false)
  }

  ghost predicate SafeScoped(types: Registry, body: seq<Stmt>, fs: Runs.Frames)
    requires |fs| > 0
  {
    && SmoothScoped(types, body, fs) && SteadyBlock(types, body, fs + [map[]])
    && PlainBlock(types, body) && !Limits.CrashesScoped(body)
  }

  lemma {:induction false} StmtAccepted(types: Registry, st: Stmt, s: State, fs: Runs.Frames)
    requires Ready(types, s, fs) && Safe(types, st, fs)
    ensures Proceeds(types, st, s, fs)
    decreases st, 2
  {
    match st
    case VarDecl(_, _, _) => DeclarationAccepted(types, st, s, fs);
    case Assign(_, _) => AssignmentAccepted(types, st, s, fs);
    case SetPlace(_, _) => PlaceAssignmentAccepted(types, st, s, fs);
    case ExprStmt(value) =>
      assert Smooth(Runs.ExecStmt(types, st, Runs.Leaf(Gone), fs));
      ExprIsOrdinary(types, value, fs);
      ExprAccepted(types, value, s, fs);
    case Return(_) => ExitAccepted(types, st, s, fs);
    case Raise(_) => ExitAccepted(types, st, s, fs);
    case If(_, _) => IfAccepted(types, st, s, fs);
    case While(_, _, _) => WhileAccepted(types, st, s, fs);
    case For(_, _, _, _, _) => ForAccepted(types, st, s, fs);
    case Pass => assert Runs.ExecStmt(types, st, Runs.Leaf(Gone), fs).Normal?;
  }

  // ----- blocks -----

  lemma HeadIsSafe(types: Registry, body: seq<Stmt>, fs: Runs.Frames)
    requires |fs| > 0 && body != [] && SafeBlock(types, body, fs)
    ensures Safe(types, body[0], fs)
  {
    forall c
      ensures Smooth(Runs.ExecStmt(types, body[0], c, fs))
    {
      assert Smooth(Runs.ExecBlock(types, body, [c], fs));
    }
  }

  lemma TailIsSafe(types: Registry, body: seq<Stmt>, c: Runs.Choice, fs: Runs.Frames)
    requires |fs| > 0 && body != [] && SafeBlock(types, body, fs)
    requires !Limits.IsExit(body[0]) && !Limits.DeadIf(body[0]) && Runs.ExecStmt(types, body[0], c, fs).Normal?
    ensures SafeBlock(types, body[1..], Runs.ExecStmt(types, body[0], c, fs).frames)
  {
    var fs1 := Runs.ExecStmt(types, body[0], c, fs).frames;
    forall cs
      ensures Smooth(Runs.ExecBlock(types, body[1..], cs, fs1))
    {
      var all := [c] + cs;
      assert all[0] == c && all[1..] == cs;
      assert Smooth(Runs.ExecBlock(types, body, all, fs));
    }
    forall i | 0 <= i < |body[1..]|
      ensures Plain(types, body[1..][i]) && (Limits.DeadIf(body[1..][i]) ==> i == |body[1..]| - 1)
    {
      assert body[1..][i] == body[i + 1];
    }
  }

  lemma {:induction false} BlockAccepted(types: Registry, body: seq<Stmt>, s: State, fs: Runs.Frames)
    requires Ready(types, s, fs) && SafeBlock(types, body, fs)
    ensures BlockProceeds(types, body, s, fs)
    decreases body, 0
  {
    if body == [] {
      assert Runs.ExecBlock(types, body, [], fs).Normal?;
    } else {
      HeadIsSafe(types, body, fs);
      StmtAccepted(types, body[0], s, fs);
      Limits.StmtPanics(types, body[0], s);
      if !Limits.IsExit(body[0]) {
        if Limits.DeadIf(body[0]) {
          assert Plain(types, body[0]) && body[1..] == [];
        } else {
          var c :| Runs.ExecStmt(types, body[0], c, fs).Normal?;
          StmtSound(types, body[0], c, s, fs);
          TailIsSafe(types, body, c, fs);
          BlockAccepted(types, body[1..], CheckStmt(types, body[0], s).value.value,
                        Runs.ExecStmt(types, body[0], c, fs).frames);
          BlockComposes(types, body, c, s, fs);
        }
      }
    }
  }

  lemma BlockComposes(types: Registry, body: seq<Stmt>, c: Runs.Choice, s: State, fs: Runs.Frames)
    requires Valid(s) && |fs| > 0 && body != [] && Runs.ExecStmt(types, body[0], c, fs).Normal?
    requires CheckStmt(types, body[0], s).Accept? && CheckStmt(types, body[0], s).value.Some?
    requires Kept(s, CheckStmt(types, body[0], s).value.value, DeclaresNoLinear(types, body[0]))
    requires BlockProceeds(types, body[1..], CheckStmt(types, body[0], s).value.value,
                           Runs.ExecStmt(types, body[0], c, fs).frames)
    ensures BlockProceeds(types, body, s, fs)
  {
    var t, fs1 := CheckStmt(types, body[0], s).value.value, Runs.ExecStmt(types, body[0], c, fs).frames;
    var r := CheckBlock(types, body[1..], t);
    assert CheckBlock(types, body, s) == r;
    if r.value.Some? && r.value.value.scopes != [] {
      KeptTransitive(s, t, r.value.value, DeclaresNoLinear(types, body[0]), BlockDeclaresNoLinear(types, body[1..]));
      var cs :| Runs.ExecBlock(types, body[1..], cs, fs1).Normal?;
      var all := [c] + cs;
      assert all[0] == c && all[1..] == cs;
      assert Runs.ExecBlock(types, body, all, fs).Normal?;
    }
  }

  /** A block that is run from `entered` and then left. */
  lemma LeavingAccepted(types: Registry, body: seq<Stmt>, cs: seq<Runs.Choice>, s: State, entered: State,
                        fs: Runs.Frames, plain: bool)
    requires Closed(types) && |fs| > 0 && Agrees(types, entered, fs)
    requires Valid(s) && Grown(Push(s), entered) && Kept(Push(s), entered, plain)
    requires !Limits.CrashesScoped(body) && CheckBlock(types, body, entered).Accept?
    requires CheckBlock(types, body, entered).value.Some?
    requires Kept(entered, CheckBlock(types, body, entered).value.value, BlockDeclaresNoLinear(types, body))
    requires Runs.ExecBlock(types, body, cs, fs).Normal?
    requires Smooth(Runs.Leave(types, Runs.ExecBlock(types, body, cs, fs)))
    ensures var t := CheckBlock(types, body, entered).value.value;
            var left := Runs.Leave(types, Runs.ExecBlock(types, body, cs, fs));
            && PopChecked(t).Accept? && left.Normal? && Agrees(types, PopChecked(t).value, left.frames)
            && SameShape(s, PopChecked(t).value)
            && Kept(s, PopChecked(t).value, plain && BlockDeclaresNoLinear(types, body))
  {
    var t, fs1 := CheckBlock(types, body, entered).value.value, Runs.ExecBlock(types, body, cs, fs).frames;
    BlockSound(types, body, cs, entered, fs);
    assert |t.scopes| == |fs1| > 0;
    PopAcceptedExactly(types, t, fs1);
    PopSound(types, t, fs1);
    KeptTransitive(Push(s), entered, t, plain, BlockDeclaresNoLinear(types, body));
    PopIsKept(s, t, plain && BlockDeclaresNoLinear(types, body));
  }

  lemma {:induction false} ScopedAccepted(types: Registry, body: seq<Stmt>, s: State, fs: Runs.Frames)
    requires Ready(types, s, fs) && SafeScoped(types, body, fs)
    ensures ScopedProceeds(types, body, s, fs)
    decreases body, 1
  {
    var inner := fs + [map[]];
    PushAgrees(types, s, fs);
    PushIsKept(s);
    forall cs
      ensures Smooth(Runs.ExecBlock(types, body, cs, inner))
    {
      assert Smooth(Runs.ExecScoped(types, body, cs, fs));
    }
    BlockAccepted(types, body, Push(s), inner);
    Limits.BlockPanics(types, body, Push(s));
    Limits.ScopedPanics(types, body, s);
    if CheckBlock(types, body, Push(s)).value.Some? {
      var cs :| Runs.ExecBlock(types, body, cs, inner).Normal?;
      assert Smooth(Runs.ExecScoped(types, body, cs, fs));
      LeavingAccepted(types, body, cs, s, Push(s), inner, true);
      assert Runs.ExecScoped(types, body, cs, fs).Normal?;
    }
  }

  // ----- loops -----

  lemma KeptConsistent(types: Registry, s: State, fs: Runs.Frames, t: State, gs: Runs.Frames)
    requires Agrees(types, s, fs) && Agrees(types, t, gs) && SameShape(s, t) && Kept(s, t, false) && SameHoles(fs, gs)
    ensures Consistent(s, t)
  {
    ConsistentIsSameHoles(types, s, fs, t, gs);
  }

  lemma {:induction false} PassAccepted(types: Registry, body: seq<Stmt>, s: State, fs: Runs.Frames)
    requires Ready(types, s, fs) && SafeScoped(types, body, fs)
    requires forall cs :: Runs.ExecScoped(types, body, cs, fs).Normal? ==>
               SameHoles(fs, Runs.ExecScoped(types, body, cs, fs).frames)
    ensures CheckPass(types, body, s).Accept?
    decreases body, 2
  {
    ScopedAccepted(types, body, s, fs);
    var r := CheckScoped(types, body, s);
    if r.value.Some? {
      var cs :| Runs.ExecScoped(types, body, cs, fs).Normal?;
      ScopedSound(types, body, cs, s, fs);
      KeptConsistent(types, s, fs, r.value.value, Runs.ExecScoped(types, body, cs, fs).frames);
    }
  }

  lemma {:induction false} OrElseAccepted(types: Registry, orelse: OrElse, s: State, fs: Runs.Frames)
    requires Ready(types, s, fs) && PlainElse(types, orelse) && !Limits.CrashesOrElse(orelse)
    requires SteadyOrElse(types, orelse, fs) && forall cs :: Smooth(Runs.ExecOrElse(types, orelse, cs, fs))
    ensures var r := CheckOrElse(types, orelse, s);
            && r.Accept? && (exists cs :: Runs.ExecOrElse(types, orelse, cs, fs).Normal?)
            && Kept(s, r.value.value, orelse.Else? ==> BlockDeclaresNoLinear(types, orelse.body))
    decreases orelse, 2
  {
    match orelse
    case NoElse => assert Runs.ExecOrElse(types, orelse, [], fs).Normal?;
    case Else(body) =>
      forall cs ensures Smooth(Runs.ExecScoped(types, body, cs, fs)) {
        assert Smooth(Runs.ExecOrElse(types, orelse, cs, fs));
      }
      ScopedAccepted(types, body, s, fs);
      var cs :| Runs.ExecScoped(types, body, cs, fs).Normal?;
      assert Runs.ExecOrElse(types, orelse, cs, fs).Normal?;
  }

  lemma WhileRuns(types: Registry, st: Stmt, fs: Runs.Frames)
    requires |fs| > 0 && st.While? && SmoothStmt(types, st, fs)
    ensures !Runs.HasTransfer(st.cond) && Runs.EvalCondition(types, st.cond, fs) == Runs.Normal(fs)
    ensures SmoothScoped(types, st.body, fs)
    ensures forall cs :: Runs.ExecStmt(types, st, Runs.Loop([], cs), fs) == Runs.ExecOrElse(types, st.orelse, cs, fs)
    ensures forall cs :: Smooth(Runs.ExecOrElse(types, st.orelse, cs, fs))
  {
    var none := Runs.ExecRounds(types, st.cond, st.body, [], fs);
    assert none == Runs.EvalCondition(types, st.cond, fs);
    assert Smooth(Runs.ExecStmt(types, st, Runs.Loop([], []), fs));
    if !Runs.HasTransfer(st.cond) {
      PlainExprIsInert(types, st.cond, DEFAULT, fs);
    }
    forall cs ensures Smooth(Runs.ExecScoped(types, st.body, cs, fs)) {
      var rounds := [Runs.Round(Gone, cs)];
      var r := Runs.ExecScoped(types, st.body, cs, fs);
      assert rounds[0].body == cs;
      assert !r.Normal? ==> Runs.ExecRounds(types, st.cond, st.body, rounds, fs) == r;
      assert Smooth(Runs.ExecStmt(types, st, Runs.Loop(rounds, []), fs));
    }
    forall cs
      ensures Runs.ExecStmt(types, st, Runs.Loop([], cs), fs) == Runs.ExecOrElse(types, st.orelse, cs, fs)
      ensures Smooth(Runs.ExecOrElse(types, st.orelse, cs, fs))
    {
      assert Smooth(Runs.ExecStmt(types, st, Runs.Loop([], cs), fs));
    }
  }

  lemma {:induction false} WhileAccepted(types: Registry, st: Stmt, s: State, fs: Runs.Frames)
    requires Ready(types, s, fs) && st.While? && Safe(types, st, fs)
    ensures Proceeds(types, st, s, fs)
    decreases st, 1
  {
    WhileRuns(types, st, fs);
    PlainExprIsInert(types, st.cond, s, fs);
    PassAccepted(types, st.body, s, fs);
    OrElseAccepted(types, st.orelse, s, fs);
    var cs :| Runs.ExecOrElse(types, st.orelse, cs, fs).Normal?;
    assert Runs.ExecStmt(types, st, Runs.Loop([], cs), fs).Normal?;
  }

  lemma BoundRoundRuns(types: Registry, name: string, ty: Option<string>, body: seq<Stmt>, item: Value,
                       cs: seq<Runs.Choice>,
                       fs: Runs.Frames)
    requires |fs| > 0 && Runs.Fits(types, ExplicitName(types, ty), item)
    ensures var bound := Runs.Bind(types, name, ty, item, fs + [map[]]);
            && bound.Normal?
            && Runs.ExecBoundRound(types, name, ty, body, Runs.Round(item, cs), fs)
                 == Runs.Leave(types, Runs.ExecBlock(types, body, cs, bound.frames))
  {
  }

  lemma ForRuns(types: Registry, st: Stmt, item: Value, fs: Runs.Frames)
    requires |fs| > 0 && st.For? && SmoothStmt(types, st, fs) && Runs.EvalExpr(types, st.iter, fs).Normal?
    requires Runs.Fits(types, ExplicitName(types, st.ty), item)
    ensures var fs1 := Runs.EvalExpr(types, st.iter, fs).frames;
            && (forall cs :: Runs.ExecStmt(types, st, Runs.Loop([], cs), fs)
                  == Runs.ExecOrElse(types, st.orelse, cs, fs1))
            && (forall cs :: Smooth(Runs.ExecOrElse(types, st.orelse, cs, fs1)))
            && (forall cs :: Smooth(Runs.ExecBoundRound(types, st.name, st.ty, st.body, Runs.Round(item, cs), fs1)))
  {
    var fs1 := Runs.EvalExpr(types, st.iter, fs).frames;
    forall cs
      ensures Runs.ExecStmt(types, st, Runs.Loop([], cs), fs) == Runs.ExecOrElse(types, st.orelse, cs, fs1)
      ensures Smooth(Runs.ExecOrElse(types, st.orelse, cs, fs1))
    {
      assert Runs.ExecBoundRounds(types, st.name, st.ty, st.body, [], fs1) == Runs.Normal(fs1);
      assert Smooth(Runs.ExecStmt(types, st, Runs.Loop([], cs), fs));
    }
    forall cs
      ensures Smooth(Runs.ExecBoundRound(types, st.name, st.ty, st.body, Runs.Round(item, cs), fs1))
    {
      var rounds := [Runs.Round(item, cs)];
      var r := Runs.ExecBoundRound(types, st.name, st.ty, st.body, rounds[0], fs1);
      assert !r.Normal? ==> Runs.ExecBoundRounds(types, st.name, st.ty, st.body, rounds, fs1) == r;
      assert Smooth(Runs.ExecStmt(types, st, Runs.Loop(rounds, []), fs));
    }
  }

  lemma {:induction false} BoundPassAccepted(types: Registry, name: string, ty: Option<string>, body: seq<Stmt>,
                                             item: Value,
                                             s: State, fs: Runs.Frames)
    requires Ready(types, s, fs) && PlainBlock(types, body) && !Limits.CrashesScoped(body)
    requires Runs.Fits(types, ExplicitName(types, ty), item)
    requires Runs.Bind(types, name, ty, item, fs + [map[]]).Normal? ==>
               SteadyBlock(types, body, Runs.Bind(types, name, ty, item, fs + [map[]]).frames)
    requires forall cs :: Smooth(Runs.ExecBoundRound(types, name, ty, body, Runs.Round(item, cs), fs))
    requires forall round :: Runs.ExecBoundRound(types, name, ty, body, round, fs).Normal? ==>
               SameHoles(fs, Runs.ExecBoundRound(types, name, ty, body, round, fs).frames)
    ensures CheckBoundPass(types, name, ty, body, s).Accept?
    decreases body, 2
  {
    var inner := fs + [map[]];
    var fs1 := Runs.Bind(types, name, ty, item, inner).frames;
    BoundRoundRuns(types, name, ty, body, item, [], fs);
    PushAgrees(types, s, fs);
    PushIsKept(s);
    BindAccepted(types, name, ty, item, Push(s), inner);
    var entered := Bind(types, name, ty, Push(s)).value;
    forall cs ensures Smooth(Runs.ExecBlock(types, body, cs, fs1)) {
      BoundRoundRuns(types, name, ty, body, item, cs, fs);
      assert Smooth(Runs.ExecBoundRound(types, name, ty, body, Runs.Round(item, cs), fs));
    }
    BlockAccepted(types, body, entered, fs1);
    Limits.BlockPanics(types, body, entered);
    if CheckBlock(types, body, entered).value.Some? {
      var cs :| Runs.ExecBlock(types, body, cs, fs1).Normal?;
      BoundRoundRuns(types, name, ty, body, item, cs, fs);
      var round := Runs.Round(item, cs);
      assert Smooth(Runs.ExecBoundRound(types, name, ty, body, round, fs));
      LeavingAccepted(types, body, cs, s, entered, fs1, ExplicitName(types, ty).None?);
      var popped := PopChecked(CheckBlock(types, body, entered).value.value).value;
      KeptConsistent(types, s, fs, popped, Runs.ExecBoundRound(types, name, ty, body, round, fs).frames);
    }
  }

  lemma {:induction false} ForAccepted(types: Registry, st: Stmt, s: State, fs: Runs.Frames)
    requires Ready(types, s, fs) && st.For? && Safe(types, st, fs)
    ensures Proceeds(types, st, s, fs)
    decreases st, 1
  {
    assert Smooth(Runs.ExecStmt(types, st, Runs.Loop([], []), fs));
    ExprIsOrdinary(types, st.iter, fs);
    ExprAccepted(types, st.iter, s, fs);
    var s1, fs1 := CheckExpr(types, st.iter, s).value, Runs.EvalExpr(types, st.iter, fs).frames;
    var item := SomeValue(types, ExplicitName(types, st.ty));
    ForRuns(types, st, item, fs);
    BoundPassAccepted(types, st.name, st.ty, st.body, item, s1, fs1);
    OrElseAccepted(types, st.orelse, s1, fs1);
    var cs :| Runs.ExecOrElse(types, st.orelse, cs, fs1).Normal?;
    assert Runs.ExecStmt(types, st, Runs.Loop([], cs), fs).Normal?;
    ForKept(types, st, s);
  }

  lemma ForKept(types: Registry, st: Stmt, s: State)
    requires Valid(s) && st.For? && CheckFor(types, st, s).Accept? && Tidy(s)
    requires Kept(s, CheckExpr(types, st.iter, s).value, true)
    requires Kept(CheckExpr(types, st.iter, s).value, CheckFor(types, st, s).value.value,
                  st.orelse.Else? ==> BlockDeclaresNoLinear(types, st.orelse.body))
    ensures Kept(s, CheckFor(types, st, s).value.value, DeclaresNoLinear(types, st))
    ensures Tidy(CheckFor(types, st, s).value.value)
  {
    KeptTransitive(s, CheckExpr(types, st.iter, s).value, CheckFor(types, st, s).value.value, true,
                   st.orelse.Else? ==> BlockDeclaresNoLinear(types, st.orelse.body));
  }

  // ----- branches -----

  /** Some run of the `if` ends where the pass has `t` for one of its exits. */
  ghost predicate ReachesExit(types: Registry, st: Stmt, s: State, fs: Runs.Frames, t: State)
    requires |fs| > 0
  {
    && Kept(s, t, true) && SameShape(s, t) && Valid(t)
    && exists c :: Runs.ExecStmt(types, st, c, fs).Normal? && Agrees(types, t, Runs.ExecStmt(types, st, c, fs).frames)
  }

  lemma {:induction false} ConditionsAreOrdinary(types: Registry, branches: seq<Branch>, n: nat, fs: Runs.Frames)
    requires n <= |branches|
    ensures Ordinary(Runs.EvalConditions(types, branches, n, fs))
  {
    if n > 0 {
      ConditionsAreOrdinary(types, branches, n - 1, fs);
      match Runs.EvalConditions(types, branches, n - 1, fs) {
        case Normal(fs1) => ExprIsOrdinary(types, branches[n - 1].cond, fs1);
        case _ =>
      }
    }
  }

  /** Where all runs go through, the conditions transfer nothing, and each arm is run from where the `if` begins. */
  lemma IfRuns(types: Registry, st: Stmt, n: nat, s: State, fs: Runs.Frames)
    requires |fs| > 0 && Valid(s) && st.If? && SmoothStmt(types, st, fs) && n <= |st.branches|
    ensures Runs.EvalConditions(types, st.branches, n, fs) == Runs.Normal(fs)
    ensures n > 0 ==> CheckExpr(types, st.branches[n - 1].cond, s) == Accept(s)
  {
    ConditionsAreInert(types, st.branches, n, s, fs);
    ConditionsAreOrdinary(types, st.branches, n, fs);
    if n > 0 {
      var r := Runs.EvalConditions(types, st.branches, n, fs);
      assert !r.Normal? ==> Runs.ExecArm(types, st.branches, n - 1, [], fs) == r;
      assert Smooth(Runs.ExecStmt(types, st, Runs.Arm(n - 1, []), fs));
    }
  }

  lemma ArmRuns(types: Registry, st: Stmt, i: nat, cs: seq<Runs.Choice>, fs: Runs.Frames)
    requires |fs| > 0 && st.If? && i <= |st.branches|
    requires Runs.EvalConditions(types, st.branches, if i < |st.branches| then i + 1 else i, fs) == Runs.Normal(fs)
    ensures Runs.ExecStmt(types, st, Runs.Arm(i, cs), fs) ==
            if i < |st.branches| then Runs.ExecScoped(types, st.branches[i].body, cs, fs)
            else Runs.ExecOrElse(types, st.orelse, cs, fs)
  {
  }

  /** The parts of a safe `if`. */
  lemma ElseIsSafe(types: Registry, st: Stmt, fs: Runs.Frames)
    requires |fs| > 0 && st.If? && Safe(types, st, fs) && st.orelse.Else?
    requires Runs.EvalConditions(types, st.branches, |st.branches|, fs) == Runs.Normal(fs)
    ensures SafeScoped(types, st.orelse.body, fs)
  {
    assert SteadyOrElse(types, st.orelse, fs);
    assert !Limits.CrashesOrElse(st.orelse);
    forall cs ensures Smooth(Runs.ExecScoped(types, st.orelse.body, cs, fs)) {
      ArmRuns(types, st, |st.branches|, cs, fs);
      assert Smooth(Runs.ExecStmt(types, st, Runs.Arm(|st.branches|, cs), fs));
    }
  }

  lemma {:induction false} ArmAccepted(types: Registry, st: Stmt, i: nat, s: State, fs: Runs.Frames)
    requires Ready(types, s, fs) && st.If? && Safe(types, st, fs) && i < |st.branches|
    requires !Limits.CrashesScoped(st.branches[i].body)
    ensures var exit := CheckArm(types, st.branches[i], s);
            exit.Accept? && (exit.value.Some? ==> ReachesExit(types, st, s, fs, exit.value.value))
    decreases st, 0
  {
    var body := st.branches[i].body;
    IfRuns(types, st, i + 1, s, fs);
    forall cs ensures Smooth(Runs.ExecScoped(types, body, cs, fs)) {
      ArmRuns(types, st, i, cs, fs);
      assert Smooth(Runs.ExecStmt(types, st, Runs.Arm(i, cs), fs));
    }
    ScopedAccepted(types, body, s, fs);
    if CheckScoped(types, body, s).value.Some? {
      var cs :| Runs.ExecScoped(types, body, cs, fs).Normal?;
      ScopedSound(types, body, cs, s, fs);
      ArmRuns(types, st, i, cs, fs);
      assert Runs.ExecStmt(types, st, Runs.Arm(i, cs), fs).Normal?;
    }
  }

  lemma {:induction false} ElseAccepted(types: Registry, st: Stmt, s: State, fs: Runs.Frames)
    requires Ready(types, s, fs) && st.If? && Safe(types, st, fs) && st.orelse.Else?
    ensures var exit := CheckScoped(types, st.orelse.body, s);
            exit.Accept? && (exit.value.Some? ==> ReachesExit(types, st, s, fs, exit.value.value))
    decreases st, 0
  {
    var body, n := st.orelse.body, |st.branches|;
    IfRuns(types, st, n, s, fs);
    ElseIsSafe(types, st, fs);
    ScopedAccepted(types, body, s, fs);
    if CheckScoped(types, body, s).value.Some? {
      var cs :| Runs.ExecScoped(types, body, cs, fs).Normal?;
      ScopedSound(types, body, cs, s, fs);
      ArmRuns(types, st, n, cs, fs);
      assert Runs.ExecStmt(types, st, Runs.Arm(n, cs), fs).Normal?;
    }
  }

  lemma FallingThroughReaches(types: Registry, st: Stmt, s: State, fs: Runs.Frames)
    requires Ready(types, s, fs) && st.If? && Safe(types, st, fs) && st.orelse.NoElse?
    ensures ReachesExit(types, st, s, fs, s)
  {
    IfRuns(types, st, |st.branches|, s, fs);
    ArmRuns(types, st, |st.branches|, [], fs);
  }

  lemma {:induction false} ArmsDoNotCrash(branches: seq<Branch>, i: nat)
    requires i < |branches| && !Limits.CrashesArms(branches)
    ensures !Limits.CrashesScoped(branches[i].body)
  {
    if i > 0 { ArmsDoNotCrash(branches[1..], i - 1); }
  }

  /** If every arm is accepted, so are all of them, and each exit is the exit of some arm. */
  lemma {:induction false} BranchesAccepted(types: Registry, branches: seq<Branch>, base: State)
    requires Valid(base) && forall i :: 0 <= i < |branches| ==> CheckArm(types, branches[i], base).Accept?
    ensures var r := CheckBranches(types, branches, base);
            r.Accept? && forall t :: t in r.value ==>
              exists i :: 0 <= i < |branches| && CheckArm(types, branches[i], base) == Accept(Some(t))
  {
    if branches != [] {
      assert forall i :: 0 <= i < |branches[1..]| ==> branches[1..][i] == branches[i + 1];
      BranchesAccepted(types, branches[1..], base);
      var rest := CheckBranches(types, branches[1..], base).value;
      forall t | t in CheckBranches(types, branches, base).value
        ensures exists i :: 0 <= i < |branches| && CheckArm(types, branches[i], base) == Accept(Some(t))
      {
        if t in rest {
          var i :| 0 <= i < |branches[1..]| && CheckArm(types, branches[1..][i], base) == Accept(Some(t));
          assert CheckArm(types, branches[i + 1], base) == Accept(Some(t));
        } else {
          assert CheckArm(types, branches[0], base) == Accept(Some(t));
        }
      }
    }
  }

  lemma ExitsAgree(types: Registry, st: Stmt, s: State, fs: Runs.Frames, t: State, u: State)
    requires Ready(types, s, fs) && st.If? && SteadyStmt(types, st, fs)
    requires ReachesExit(types, st, s, fs, t) && ReachesExit(types, st, s, fs, u)
    ensures Consistent(t, u)
  {
    var c :| Runs.ExecStmt(types, st, c, fs).Normal? && Agrees(types, t, Runs.ExecStmt(types, st, c, fs).frames);
    var d :| Runs.ExecStmt(types, st, d, fs).Normal? && Agrees(types, u, Runs.ExecStmt(types, st, d, fs).frames);
    ArmsAgree(types, s, t, Runs.ExecStmt(types, st, c, fs).frames, u, Runs.ExecStmt(types, st, d, fs).frames);
  }

  lemma ArmsAgree(types: Registry, s: State, t: State, fs: Runs.Frames, u: State, gs: Runs.Frames)
    requires Valid(s) && Agrees(types, t, fs) && Agrees(types, u, gs) && SameHoles(fs, gs)
    requires Kept(s, t, true) && Kept(s, u, true) && SameShape(s, t) && SameShape(s, u)
    ensures Consistent(t, u)
  {
    forall i | 0 <= i < |t.vars| && Bound(t, i)
      ensures i < |u.vars| && SameDeclaration(t.vars[i], u.vars[i])
    {
      var k, n :| 0 <= k < |s.scopes| && n in s.scopes[k] && s.scopes[k][n] == i;
      assert SameDeclaration(s.vars[i], t.vars[i]) && SameDeclaration(s.vars[i], u.vars[i]);
    }
    forall i | 0 <= i < |t.vars| && i < |u.vars| && !Bound(t, i) && t.vars[i].message.Some?
      ensures t.vars[i].residue == u.vars[i].residue
    {
      assert i < |s.vars| && (Bound(s, i) ==> Bound(t, i));
    }
    ConsistentIsSameHoles(types, t, fs, u, gs);
  }

  lemma IfExitsReached(types: Registry, st: Stmt, s: State, fs: Runs.Frames)
    requires Ready(types, s, fs) && st.If? && Safe(types, st, fs)
    requires forall i :: 0 <= i < |st.branches| ==>
               var exit := CheckArm(types, st.branches[i], s);
               exit.Accept? && (exit.value.Some? ==> ReachesExit(types, st, s, fs, exit.value.value))
    requires st.orelse.Else? ==>
               var exit := CheckScoped(types, st.orelse.body, s);
               exit.Accept? && (exit.value.Some? ==> ReachesExit(types, st, s, fs, exit.value.value))
    ensures IfExits(types, st, s).Accept?
    ensures forall t :: t in IfExits(types, st, s).value ==> ReachesExit(types, st, s, fs, t)
  {
    BranchesAccepted(types, st.branches, s);
    var exits := CheckBranches(types, st.branches, s).value;
    if st.orelse.NoElse? {
      FallingThroughReaches(types, st, s, fs);
    }
    forall t | t in exits
      ensures ReachesExit(types, st, s, fs, t)
    {
      var i :| 0 <= i < |st.branches| && CheckArm(types, st.branches[i], s) == Accept(Some(t));
    }
  }

  lemma {:induction false} IfAccepted(types: Registry, st: Stmt, s: State, fs: Runs.Frames)
    requires Ready(types, s, fs) && st.If? && Safe(types, st, fs)
    ensures Proceeds(types, st, s, fs)
    decreases st, 1
  {
    forall i | 0 <= i < |st.branches|
      ensures var exit := CheckArm(types, st.branches[i], s);
              exit.Accept? && (exit.value.Some? ==> ReachesExit(types, st, s, fs, exit.value.value))
    {
      ArmsDoNotCrash(st.branches, i);
      ArmAccepted(types, st, i, s, fs);
    }
    if st.orelse.Else? {
      ElseAccepted(types, st, s, fs);
    }
    IfExitsReached(types, st, s, fs);
    JoinAccepted(types, st, s, fs);
  }

  lemma JoinAccepted(types: Registry, st: Stmt, s: State, fs: Runs.Frames)
    requires Ready(types, s, fs) && st.If? && Safe(types, st, fs)
    requires IfExits(types, st, s).Accept?
    requires forall t :: t in IfExits(types, st, s).value ==> ReachesExit(types, st, s, fs, t)
    ensures Proceeds(types, st, s, fs)
  {
    var exits := IfExits(types, st, s).value;
    if exits == [] {
      assert CheckStmt(types, st, s) == Accept(Some(DEFAULT));
    } else {
      var last := exits[|exits| - 1];
      assert last in exits;
      forall i | 0 <= i < |exits| - 1
        ensures Consistent(last, exits[i])
      {
        assert exits[i] in exits;
        ExitsAgree(types, st, s, fs, last, exits[i]);
      }
      assert CheckIf(types, st, s) == Join(exits) == Accept(last);
      assert CheckStmt(types, st, s) == Accept(Some(last));
    }
  }

  // ----- acceptance implies steadiness -----

  lemma AgreeingHoles(types: Registry, s: State, fs: Runs.Frames, gs: Runs.Frames)
    requires Agrees(types, s, fs) && Agrees(types, s, gs)
    ensures SameHoles(fs, gs)
  {
    ConsistentIsSameHoles(types, s, fs, s, gs);
  }

  lemma {:induction false} AcceptedStmtIsSteady(types: Registry, st: Stmt, s: State, fs: Runs.Frames)
    requires Closed(types) && |fs| > 0 && Agrees(types, s, fs) && CheckStmt(types, st, s).Accept?
    ensures SteadyStmt(types, st, fs)
    decreases st, 1
  {
    match st
    case If(_, _) => AcceptedIfIsSteady(types, st, s, fs);
    case While(_, _, _) => AcceptedWhileIsSteady(types, st, s, fs);
    case For(_, _, _, _, _) => AcceptedForIsSteady(types, st, s, fs);
    case _ =>
  }

  lemma {:induction false} AcceptedIfIsSteady(types: Registry, st: Stmt, s: State, fs: Runs.Frames)
    requires Closed(types) && |fs| > 0 && Agrees(types, s, fs) && st.If? && CheckStmt(types, st, s).Accept?
    ensures SteadyStmt(types, st, fs)
    decreases st, 0
  {
    forall c, d | Runs.ExecStmt(types, st, c, fs).Normal? && Runs.ExecStmt(types, st, d, fs).Normal?
      ensures SameHoles(Runs.ExecStmt(types, st, c, fs).frames, Runs.ExecStmt(types, st, d, fs).frames)
    {
      StmtSound(types, st, c, s, fs);
      StmtSound(types, st, d, s, fs);
      AgreeingHoles(types, CheckStmt(types, st, s).value.value, Runs.ExecStmt(types, st, c, fs).frames,
                    Runs.ExecStmt(types, st, d, fs).frames);
    }
    IfPartsAccepted(types, st, s);
    forall i | 0 <= i < |st.branches| && Runs.EvalConditions(types, st.branches, i + 1, fs).Normal?
      ensures SteadyBlock(types, st.branches[i].body, fs + [map[]])
    {
      BranchExit(types, st.branches, s, i);
      ConditionsAreInert(types, st.branches, i + 1, s, fs);
      AcceptedScopeIsSteady(types, st.branches[i].body, s, fs);
    }
    if Runs.EvalConditions(types, st.branches, |st.branches|, fs).Normal? {
      ConditionsAreInert(types, st.branches, |st.branches|, s, fs);
      AcceptedElseIsSteady(types, st.orelse, s, fs);
    }
  }

  /** The parts of an accepted `if` are accepted. */
  lemma IfPartsAccepted(types: Registry, st: Stmt, s: State)
    requires Valid(s) && st.If? && CheckStmt(types, st, s).Accept?
    ensures CheckBranches(types, st.branches, s).Accept?
    ensures st.orelse.Else? ==> CheckScoped(types, st.orelse.body, s).Accept?
  {
    assert CheckIf(types, st, s).Accept?;
    assert IfExits(types, st, s).Accept?;
  }

  lemma ForPartsAccepted(types: Registry, st: Stmt, s: State)
    requires Valid(s) && st.For? && CheckStmt(types, st, s).Accept?
    ensures CheckExpr(types, st.iter, s).Accept?
    ensures var s1 := CheckExpr(types, st.iter, s).value;
            && CheckBoundPass(types, st.name, st.ty, st.body, s1).Accept?
            && Bind(types, st.name, st.ty, Push(s1)).Accept?
            && CheckBlock(types, st.body, Bind(types, st.name, st.ty, Push(s1)).value).Accept?
            && (st.orelse.Else? ==> CheckScoped(types, st.orelse.body, s1).Accept?)
  {
    assert CheckFor(types, st, s).Accept?;
    assert CheckOrElse(types, st.orelse, CheckExpr(types, st.iter, s).value).Accept?;
  }

  lemma {:induction false} AcceptedElseIsSteady(types: Registry, orelse: OrElse, s: State, fs: Runs.Frames)
    requires Closed(types) && |fs| > 0 && Agrees(types, s, fs)
    requires orelse.Else? ==> CheckScoped(types, orelse.body, s).Accept?
    ensures SteadyOrElse(types, orelse, fs)
    decreases orelse, 2
  {
    if orelse.Else? {
      AcceptedScopeIsSteady(types, orelse.body, s, fs);
    }
  }

  lemma {:induction false} AcceptedWhileIsSteady(types: Registry, st: Stmt, s: State, fs: Runs.Frames)
    requires Closed(types) && |fs| > 0 && Agrees(types, s, fs) && st.While? && CheckStmt(types, st, s).Accept?
    ensures SteadyStmt(types, st, fs)
    decreases st, 0
  {
    if !Runs.HasTransfer(st.cond) {
      PlainExprIsInert(types, st.cond, s, fs);
      assert CheckPass(types, st.body, s).Accept? && CheckOrElse(types, st.orelse, s).Accept?;
      AcceptedScopeIsSteady(types, st.body, s, fs);
      AcceptedElseIsSteady(types, st.orelse, s, fs);
      forall cs | Runs.ExecScoped(types, st.body, cs, fs).Normal?
        ensures SameHoles(fs, Runs.ExecScoped(types, st.body, cs, fs).frames)
      {
        ScopedSound(types, st.body, cs, s, fs);
        var after, fs1 := CheckScoped(types, st.body, s).value.value, Runs.ExecScoped(types, st.body, cs, fs).frames;
        ConsistentAgrees(types, s, s, after, fs1);
        AgreeingHoles(types, s, fs, fs1);
      }
    }
  }

  lemma {:induction false} AcceptedForIsSteady(types: Registry, st: Stmt, s: State, fs: Runs.Frames)
    requires Closed(types) && |fs| > 0 && Agrees(types, s, fs) && st.For? && CheckStmt(types, st, s).Accept?
    ensures SteadyStmt(types, st, fs)
    decreases st, 0
  {
    ForPartsAccepted(types, st, s);
    ExprSound(types, st.iter, s, fs);
    var r := Runs.EvalExpr(types, st.iter, fs);
    if r.Normal? {
      var s1 := CheckExpr(types, st.iter, s).value;
      var inner := r.frames + [map[]];
      AcceptedElseIsSteady(types, st.orelse, s1, r.frames);
      PushAgrees(types, s1, r.frames);
      forall item | Runs.Bind(types, st.name, st.ty, item, inner).Normal?
        ensures SteadyBlock(types, st.body, Runs.Bind(types, st.name, st.ty, item, inner).frames)
      {
        BindSound(types, st.name, st.ty, item, Push(s1), inner);
        AcceptedBlockIsSteady(types, st.body, Bind(types, st.name, st.ty, Push(s1)).value,
                              Runs.Bind(types, st.name, st.ty, item, inner).frames);
      }
      forall round | Runs.ExecBoundRound(types, st.name, st.ty, st.body, round, r.frames).Normal?
        ensures SameHoles(r.frames, Runs.ExecBoundRound(types, st.name, st.ty, st.body, round, r.frames).frames)
      {
        BoundRoundSound(types, st.name, st.ty, st.body, round, s1, r.frames);
        AgreeingHoles(types, s1, r.frames, Runs.ExecBoundRound(types, st.name, st.ty, st.body, round, r.frames).frames);
      }
    }
  }

  lemma {:induction false} AcceptedScopeIsSteady(types: Registry, body: seq<Stmt>, s: State, fs: Runs.Frames)
    requires Closed(types) && |fs| > 0 && Agrees(types, s, fs) && CheckScoped(types, body, s).Accept?
    ensures SteadyBlock(types, body, fs + [map[]])
    decreases body, 1
  {
    PushAgrees(types, s, fs);
    AcceptedBlockIsSteady(types, body, Push(s), fs + [map[]]);
  }

  lemma {:induction false} AcceptedBlockIsSteady(types: Registry, body: seq<Stmt>, s: State, fs: Runs.Frames)
    requires Closed(types) && |fs| > 0 && Agrees(types, s, fs) && CheckBlock(types, body, s).Accept?
    ensures SteadyBlock(types, body, fs)
    decreases body, 0
  {
    if body != [] {
      AcceptedStmtIsSteady(types, body[0], s, fs);
      forall c | Runs.ExecStmt(types, body[0], c, fs).Normal?
        ensures SteadyBlock(types, body[1..], Runs.ExecStmt(types, body[0], c, fs).frames)
      {
        StmtSound(types, body[0], c, s, fs);
        AcceptedBlockIsSteady(types, body[1..], CheckStmt(types, body[0], s).value.value,
                              Runs.ExecStmt(types, body[0], c, fs).frames);
      }
    }
  }

  // ----- functions -----

  /** Every run either fits the fragment or is no run at all. */
  ghost predicate InFragment(types: Registry, f: Function) {
    forall args, cs :: var r := Runs.ExecFunction(types, f, args, cs); r.Outside? ==> r.reason == Runs.NotARun
  }

  ghost predicate NeverBroken(types: Registry, f: Function) {
    forall args, cs :: !Runs.ExecFunction(types, f, args, cs).Broken?
  }

  /** From whatever arguments the function starts. */
  ghost predicate Steady(types: Registry, f: Function) {
    forall args :: Runs.BindParams(types, f.params, args, [map[]]).Normal? ==>
      SteadyBlock(types, f.body, Runs.BindParams(types, f.params, args, [map[]]).frames)
  }

  lemma {:induction false} SomeArguments(types: Registry, params: seq<Param>, fs: Runs.Frames)
    returns (args: seq<Value>)
    requires Inhabited(types) && |fs| > 0
    ensures Fitting(Runs.BindParams(types, params, args, fs)) && !Runs.BindParams(types, params, args, fs).Exited?
    decreases |params|
  {
    if params == [] {
      args := [];
    } else {
      var v := SomeValue(types, ExplicitName(types, params[0].ty));
      var bound := Runs.Bind(types, params[0].name, params[0].ty, v, fs);
      var rest: seq<Value> := [];
      if bound.Normal? {
        rest := SomeArguments(types, params[1..], bound.frames);
      }
      args := [v] + rest;
      assert args[0] == v && args[1..] == rest;
    }
  }

  lemma {:induction false} ParamsTidy(types: Registry, params: seq<Param>, args: seq<Value>, s: State, fs: Runs.Frames)
    requires Agrees(types, s, fs) && |fs| > 0 && Tidy(s) && Runs.BindParams(types, params, args, fs).Normal?
    ensures var r := DeclareParams(types, params, s);
            r.Accept? && Tidy(r.value) && Agrees(types, r.value, Runs.BindParams(types, params, args, fs).frames)
    decreases |params|
  {
    if params != [] {
      var p := params[0];
      BindAccepted(types, p.name, p.ty, args[0], s, fs);
      var s1 := Bind(types, p.name, p.ty, s).value;
      ParamsTidy(types, params[1..], args[1..], s1, Runs.Bind(types, p.name, p.ty, args[0], fs).frames);
    }
  }

  lemma BodyIsSmooth(types: Registry, f: Function, args: seq<Value>)
    requires InFragment(types, f) && NeverBroken(types, f)
    requires Runs.BindParams(types, f.params, args, [map[]]).Normal?
    ensures SmoothBlock(types, f.body, Runs.BindParams(types, f.params, args, [map[]]).frames)
    ensures forall cs :: Smooth(Runs.Exit(types, Runs.ExecBlock(types, f.body, cs,
                                                                Runs.BindParams(types, f.params, args,
                                                                    [map[]]).frames)))
  {
    var fs := Runs.BindParams(types, f.params, args, [map[]]).frames;
    forall cs
      ensures Smooth(Runs.ExecBlock(types, f.body, cs, fs)) &&
        Smooth(Runs.Exit(types, Runs.ExecBlock(types, f.body, cs, fs)))
    {
      var r := Runs.ExecFunction(types, f, args, cs);
      assert r == Runs.Exit(types, Runs.ExecBlock(types, f.body, cs, fs));
      assert !r.Broken? && (r.Outside? ==> r.reason == Runs.NotARun);
    }
  }

  /** If no run is broken and runs that meet have the same holes, the pass accepts. */
  lemma SteadyFunctionsAreAccepted(types: Registry, f: Function)
    requires Closed(types) && Inhabited(types) && InFragment(types, f)
    requires PlainBlock(types, f.body) && !Limits.CrashesBlock(f.body, false)
    requires NeverBroken(types, f) && Steady(types, f)
    ensures CheckFunction(types, f) == Accept(())
  {
    EmptyAgrees(types);
    var args := SomeArguments(types, f.params, [map[]]);
    assert !Runs.ExecFunction(types, f, args, []).Broken?;
    var bound := Runs.BindParams(types, f.params, args, [map[]]);
    assert Runs.ExecFunction(types, f, args, []).Outside? ==>
        Runs.ExecFunction(types, f, args, []).reason == Runs.NotARun;
    ParamsTidy(types, f.params, args, Push(DEFAULT), [map[]]);
    var s := DeclareParams(types, f.params, Push(DEFAULT)).value;
    BodyIsSmooth(types, f, args);
    BlockAccepted(types, f.body, s, bound.frames);
    var normal := CheckBlock(types, f.body, s).value;
    if normal.Some? && normal.value.scopes != [] {
      var cs :| Runs.ExecBlock(types, f.body, cs, bound.frames).Normal?;
      BlockSound(types, f.body, cs, s, bound.frames);
      ExitAcceptedExactly(types, normal.value, Runs.ExecBlock(types, f.body, cs, bound.frames).frames);
    }
  }

  /** The pass accepts exactly the functions none of whose runs abandons, overwrites or destroys twice, and whose runs
      have lost the same parts of the same values wherever they meet. */
  lemma AcceptedExactly(types: Registry, f: Function)
    requires Closed(types) && Inhabited(types) && InFragment(types, f)
    requires PlainBlock(types, f.body) && !Limits.CrashesBlock(f.body, false)
    ensures CheckFunction(types, f) == Accept(()) <==> NeverBroken(types, f) && Steady(types, f)
  {
    if CheckFunction(types, f) == Accept(()) {
      AcceptedFunctionsAreSteady(types, f);
      forall args, cs ensures !Runs.ExecFunction(types, f, args, cs).Broken? {
        AcceptedFunctionsAreSound(types, f, args, cs);
      }
    } else if NeverBroken(types, f) && Steady(types, f) {
      SteadyFunctionsAreAccepted(types, f);
    }
  }

  lemma AcceptedFunctionsAreSteady(types: Registry, f: Function)
    requires Closed(types) && CheckFunction(types, f) == Accept(())
    ensures Steady(types, f)
  {
    EmptyAgrees(types);
    forall args | Runs.BindParams(types, f.params, args, [map[]]).Normal?
      ensures SteadyBlock(types, f.body, Runs.BindParams(types, f.params, args, [map[]]).frames)
    {
      ParamsSound(types, f.params, args, Push(DEFAULT), [map[]]);
      AcceptedBlockIsSteady(types, f.body, DeclareParams(types, f.params, Push(DEFAULT)).value,
                            Runs.BindParams(types, f.params, args, [map[]]).frames);
    }
  }

  // ----- parameters and projections -----

  predicate Owned(types: Registry, p: Param) {
    ExplicitName(types, p.ty).Some? && (p.convention == Some(Var) || p.convention == Some(Deinit))
  }

  lemma {:induction false} ParamsAbandon(types: Registry, params: seq<Param>, s: State)
    requires Valid(s) && s.scopes != []
    ensures var r := DeclareParams(types, params, s);
            r.Accept? && (AnyAbandons(r.value) <==> AnyAbandons(s) || exists p :: p in params && Owned(types, p))
    decreases |params|
  {
    if params != [] {
      var p := params[0];
      var explicit := ExplicitName(types, p.ty);
      var t := Declare(s, NewVariable(types, p.name, explicit, Owned(types, p))).value;
      assert t.vars[|s.vars|] == NewVariable(types, p.name, explicit, Owned(types, p));
      assert forall i :: 0 <= i < |s.vars| ==> t.vars[i] == s.vars[i];
      assert AnyAbandons(t) <==> AnyAbandons(s) || Owned(types, p);
      ParamsAbandon(types, params[1..], t);
      assert params == [p] + params[1..];
    }
  }

  /** A function that does nothing is accepted exactly when it owns none of its linear parameters: one passed any other
      way is not its to destroy. */
  lemma BorrowedParametersOweNothing(types: Registry, params: seq<Param>)
    ensures CheckFunction(types, Function(params, [])) == Accept(()) <==> forall p :: p in params ==> !Owned(types, p)
  {
    ParamsAbandon(types, params, Push(DEFAULT));
  }

  datatype Step = Field(name: string) | Element(index: Expr)

  /** The steps followed from a variable. */
  function Projected(name: string, steps: seq<Step>): Expr
    decreases |steps|
  {
    if steps == [] then Identifier(name)
    else
      var last, before := steps[|steps| - 1], Projected(name, steps[..|steps| - 1]);
      match last
      case Field(f) => Member(before, f)
      case Element(i) => Index(before, i)
  }

  predicate PassesIndex(steps: seq<Step>) {
    exists i :: 0 <= i < |steps| && steps[i].Element?
  }

  lemma {:induction false} ProjectedShape(name: string, steps: seq<Step>, s: State)
    ensures var e := Projected(name, steps);
            && RootId(e, s) == Lookup(s.scopes, name)
            && (ContainsIndex(e) <==> PassesIndex(steps))
            && (!ContainsIndex(e) && Lookup(s.scopes, name).Some? ==>
                  ObligationPlace(e, s).Some? && ObligationPlace(e, s).value.0 == Lookup(s.scopes, name).value)
    decreases |steps|
  {
    if steps != [] {
      var n := |steps| - 1;
      ProjectedShape(name, steps[..n], s);
      assert PassesIndex(steps) <==> PassesIndex(steps[..n]) || steps[n].Element? by {
        assert forall i :: 0 <= i < n ==> steps[..n][i] == steps[i];
      }
    }
  }

  /** Transferring out of a variable of linear type through an index is refused, and nothing else is for this reason. */
  lemma IndexedTransferIsRejected(types: Registry, name: string, steps: seq<Step>, s: State, fs: Runs.Frames)
    requires Agrees(types, s, fs)
    ensures MoveRoot(types, Projected(name, steps), s) == Reject(IndexedProjection) <==>
            && PassesIndex(steps)
            && match InnermostScope(fs, name)
               case None => false
               case Some(level) => fs[level][name].ty.Some?
  {
    ProjectedShape(name, steps, s);
    SameInnermost(s.scopes, fs, name);
    PlaceHasRoot(Projected(name, steps), s);
    match InnermostScope(fs, name)
    case None =>
    case Some(level) => IndexRefused(types, Projected(name, steps), level, name, s, fs);
  }

  lemma IndexRefused(types: Registry, e: Expr, level: nat, name: string, s: State, fs: Runs.Frames)
    requires Agrees(types, s, fs) && level < |fs| && name in fs[level] && name in s.scopes[level]
    requires RootId(e, s) == Some(s.scopes[level][name])
    requires !ContainsIndex(e) ==> ObligationPlace(e, s).Some? && ObligationPlace(e, s).value.0 == s.scopes[level][name]
    ensures MoveRoot(types, e, s) == Reject(IndexedProjection) <==> ContainsIndex(e) && fs[level][name].ty.Some?
  {
    var v := s.vars[s.scopes[level][name]];
    assert VariableAgrees(types, v, fs[level][name]);
    if v.explicitType.Some? && !ContainsIndex(e) {
      AgreementIsExact(types, v, fs[level][name]);
      MoveOutExact(types, v.explicitType.value, v.residue, ObligationPlace(e, s).value.1);
    }
    if v.explicitType.None? {
      PlaceHasRoot(e, s);
      assert MoveRoot(types, e, s) == Accept(s);
    } else if ContainsIndex(e) {
      assert MoveRoot(types, e, s) == Reject(IndexedProjection);
    }
  }

  lemma {:induction false} PlaceHasRoot(e: Expr, s: State)
    ensures ObligationPlace(e, s).Some? ==> RootId(e, s) == Some(ObligationPlace(e, s).value.0)
  {
    match e
    case Member(receiver, _) => PlaceHasRoot(receiver, s);
    case _ =>
  }
}
