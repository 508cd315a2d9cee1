/** Acceptance by the explicit-destruction pass is sound: on every run the tracked environment is the concrete
    state of every variable in scope, and no linear value is abandoned, overwritten or destroyed twice. */
module FlowSoundness {
  import opened Wrappers
  import opened LinearPaths
  import opened LinearValues
  import opened Obligations
  import opened FlowSyntax
  import opened FlowRules
  import Runs = FlowRuns

  // ----- agreement -----

  ghost predicate VariableAgrees(types: Registry, v: Variable, slot: Runs.Slot) {
    && v.explicitType == slot.ty
    && (v.message.Some? <==> v.explicitType.Some?)
    && (slot.ty.Some? ==>
          && slot.ty.value in types
          && WellTyped(types, slot.ty.value, slot.value)
          && MovedAreHoles(slot.value, v.residue.moved)
          && forall p :: p in v.residue.obligations <==> Owes(types, slot.ty.value, slot.value, p))
  }

  ghost predicate DistinctIds(scopes: seq<map<string, nat>>) {
    forall i, n, j, m :: 0 <= i < |scopes| && n in scopes[i] && 0 <= j < |scopes| && m in scopes[j] ==>
      scopes[i][n] == scopes[j][m] ==> i == j && n == m
  }

  ghost predicate SameNames(scopes: seq<map<string, nat>>, fs: Runs.Frames) {
    |scopes| == |fs| && forall i :: 0 <= i < |fs| ==> scopes[i].Keys == fs[i].Keys
  }

  /** Every name in scope denotes a tracked variable whose two sets describe the value it holds. */
  ghost predicate Agrees(types: Registry, s: State, fs: Runs.Frames) {
    && Valid(s)
    && SameNames(s.scopes, fs)
    && DistinctIds(s.scopes)
    && forall i, n :: 0 <= i < |fs| && n in fs[i] ==> VariableAgrees(types, s.vars[s.scopes[i][n]], fs[i][n])
  }

  /** The run goes on in a state that agrees with `s`, or is outside what the pass promises. */
  ghost predicate Continues(types: Registry, s: State, r: Runs.Outcome) {
    (r.Normal? && Agrees(types, s, r.frames)) || r.Outside?
  }

  lemma AgreementIsExact(types: Registry, v: Variable, slot: Runs.Slot)
    requires VariableAgrees(types, v, slot) && slot.ty.Some?
    ensures Exact(types, slot.ty.value, v.residue)
  {
    forall p
      ensures p in v.residue.obligations <==> Owed(types, slot.ty.value, v.residue.moved, p)
    {
      OwesIsOwed(types, slot.ty.value, slot.value, v.residue.moved, p);
    }
  }

  lemma ExactIsAgreement(types: Registry, v: Variable, slot: Runs.Slot)
    requires v.explicitType == slot.ty && slot.ty.Some? && v.message.Some? && slot.ty.value in types
    requires WellTyped(types, slot.ty.value, slot.value) && MovedAreHoles(slot.value, v.residue.moved)
    requires Exact(types, slot.ty.value, v.residue)
    ensures VariableAgrees(types, v, slot)
  {
    forall p
      ensures p in v.residue.obligations <==> Owes(types, slot.ty.value, slot.value, p)
    {
      OwesIsOwed(types, slot.ty.value, slot.value, v.residue.moved, p);
    }
  }

  lemma WholeAgrees(types: Registry, v: Variable, slot: Runs.Slot)
    requires v.explicitType == slot.ty && (v.message.Some? <==> v.explicitType.Some?)
    requires slot.ty.Some? ==> slot.ty.value in types && v.residue == WHOLE
    requires Runs.Fits(types, slot.ty, slot.value)
    ensures VariableAgrees(types, v, slot)
  {
    if slot.ty.Some? {
      WholeMatchesFresh(slot.value);
      WholeIsExact(types, slot.ty.value);
      ExactIsAgreement(types, v, slot);
    }
  }

  lemma OwesMeansAbandons(types: Registry, v: Variable, slot: Runs.Slot)
    requires VariableAgrees(types, v, slot)
    ensures Runs.SlotOwes(types, slot) <==> Abandons(v) && v.explicitType.Some?
  {
    if slot.ty.Some? && v.residue.obligations != {} {
      var p :| p in v.residue.obligations;
      assert Owes(types, slot.ty.value, slot.value, p);
    }
  }

  lemma {:induction false} SameInnermost(scopes: seq<map<string, nat>>, fs: Runs.Frames, name: string)
    requires SameNames(scopes, fs)
    ensures InnermostScope(scopes, name) == InnermostScope(fs, name)
    decreases |fs|
  {
    if fs != [] {
      var last := |fs| - 1;
      assert scopes[last].Keys == fs[last].Keys;
      SameInnermost(scopes[..last], fs[..last], name);
    }
  }

  lemma {:induction false} SamePlace(s: State, fs: Runs.Frames, e: Expr)
    requires Valid(s) && SameNames(s.scopes, fs)
    ensures match Runs.PlaceOf(e, fs)
            case None => ObligationPlace(e, s) == None
            case Some(p) =>
              && p.name in s.scopes[p.level]
              && ObligationPlace(e, s) == Some((s.scopes[p.level][p.name], p.path))
              && RootId(e, s) == Some(s.scopes[p.level][p.name])
  {
    match e
    case Identifier(name) => SameInnermost(s.scopes, fs, name);
    case Member(receiver, _) => SamePlace(s, fs, receiver);
    case _ =>
  }

  lemma SetAgrees(types: Registry, s: State, fs: Runs.Frames, level: nat, name: string, r: Residue, value: Value)
    requires Agrees(types, s, fs) && level < |fs| && name in fs[level]
    requires var v := s.vars[s.scopes[level][name]];
             VariableAgrees(types, v.(residue := r), fs[level][name].(value := value))
    ensures Agrees(types, SetResidue(s, s.scopes[level][name], r), Runs.SetSlot(fs, level, name, value))
  {
    var id := s.scopes[level][name];
    var s1 := SetResidue(s, id, r);
    var fs1 := Runs.SetSlot(fs, level, name, value);
    assert fs1[level].Keys == fs[level].Keys;
    forall i, n | 0 <= i < |fs1| && n in fs1[i]
      ensures VariableAgrees(types, s1.vars[s1.scopes[i][n]], fs1[i][n])
    {
      assert n in fs[i];
      if i == level && n == name {
      } else {
        assert s.scopes[i][n] != id;
      }
    }
  }

  // ----- expressions -----

  lemma TakeOutAgrees(types: Registry, s: State, fs: Runs.Frames, p: Runs.Place, r: Residue, otherwise: Runs.Outcome)
    requires Agrees(types, s, fs) && p.level < |fs| && p.name in fs[p.level]
    requires otherwise.Outside?
    requires var v := s.vars[s.scopes[p.level][p.name]];
             v.explicitType.Some? ==> MoveOut(types, v.explicitType.value, v.residue, p.path) == Ok(r)
    ensures match Runs.TakeOut(types, fs, p, otherwise)
            case Normal(fs1) =>
              if fs[p.level][p.name].ty.Some? then Agrees(types, SetResidue(s, s.scopes[p.level][p.name], r), fs1)
              else fs1 == fs
            case Outside(_) => true
            case _ => false
  {
    var slot := fs[p.level][p.name];
    var v := s.vars[s.scopes[p.level][p.name]];
    assert VariableAgrees(types, v, slot);
    if slot.ty.Some? && WholeAt(slot.value, p.path) {
      AgreementIsExact(types, v, slot);
      WholeAtUntouched(slot.value, v.residue.moved, p.path);
      MoveOutOfWholePlace(types, slot.ty.value, v.residue, p.path);
      MoveOutExact(types, slot.ty.value, v.residue, p.path);
      TakenAgrees(types, s, fs, p, r);
    }
  }

  lemma TakenAgrees(types: Registry, s: State, fs: Runs.Frames, p: Runs.Place, r: Residue)
    requires Agrees(types, s, fs) && p.level < |fs| && p.name in fs[p.level]
    requires var slot := fs[p.level][p.name];
             var v := s.vars[s.scopes[p.level][p.name]];
             slot.ty.Some? && WholeAt(slot.value, p.path) &&
             r.moved == v.residue.moved + {p.path} && Exact(types, slot.ty.value, r)
    ensures Agrees(types, SetResidue(s, s.scopes[p.level][p.name], r),
                   Runs.SetSlot(fs, p.level, p.name, Replace(fs[p.level][p.name].value, p.path, Gone)))
  {
    var slot := fs[p.level][p.name];
    var v := s.vars[s.scopes[p.level][p.name]];
    var value := Replace(slot.value, p.path, Gone);
    assert VariableAgrees(types, v, slot);
    TakeAddsHole(slot.value, p.path, v.residue.moved);
    ReplaceWellTyped(types, slot.ty.value, slot.value, p.path, Gone);
    ExactIsAgreement(types, v.(residue := r), slot.(value := value));
    SetAgrees(types, s, fs, p.level, p.name, r, value);
  }

  lemma PlacesHaveNoIndex(e: Expr)
    requires Runs.IsPlace(e)
    ensures !ContainsIndex(e)
  {
  }

  lemma TransferSound(types: Registry, e: Expr, s: State, fs: Runs.Frames)
    requires Agrees(types, s, fs) && MoveRoot(types, e, s).Accept?
    ensures Continues(types, MoveRoot(types, e, s).value, Runs.TransferOut(types, e, fs))
  {
    if Runs.IsPlace(e) {
      PlacesHaveNoIndex(e);
      SamePlace(s, fs, e);
      match Runs.PlaceOf(e, fs)
      case None =>
      case Some(p) =>
        var v := s.vars[s.scopes[p.level][p.name]];
        assert VariableAgrees(types, v, fs[p.level][p.name]);
        if v.explicitType.Some? {
          var r := MoveOut(types, v.explicitType.value, v.residue, p.path).value;
          TakeOutAgrees(types, s, fs, p, r, Runs.Outside(Runs.MovesUnavailable));
        }
    }
  }

  /** An accepted destructor call always finds its value complete. */
  lemma DestructorSound(types: Registry, receiver: Expr, name: string, s: State, fs: Runs.Frames)
    requires Agrees(types, s, fs)
    ensures match DestroyedPlace(types, receiver, name, s)
            case None => Runs.DestroyedPlace(types, receiver, name, fs) == None
            case Some((id, path)) =>
              var p := Runs.DestroyedPlace(types, receiver, name, fs);
              && p.Some? && p.value.name in s.scopes[p.value.level]
              && id == s.scopes[p.value.level][p.value.name] && path == p.value.path
              && s.vars[id].explicitType.Some?
              && var out := Destroy(types, s.vars[id].explicitType.value, s.vars[id].residue, path);
                 (out.Ok? ==>
                    match Runs.TakeOut(types, fs, p.value, Runs.Broken(Runs.DestroyedMissing))
                    case Normal(fs1) => Agrees(types, SetResidue(s, id, out.value), fs1)
                    case _ => false)
  {
    if receiver.Transfer? {
      SamePlace(s, fs, receiver.inner);
      match Runs.PlaceOf(receiver.inner, fs)
      case None =>
      case Some(p) =>
        var slot := fs[p.level][p.name];
        var id := s.scopes[p.level][p.name];
        var v := s.vars[id];
        assert VariableAgrees(types, v, slot);
        if DestroyedPlace(types, receiver, name, s).Some? {
          AgreementIsExact(types, v, slot);
          DestroyExact(types, slot.ty.value, v.residue, p.path);
          var out := Destroy(types, slot.ty.value, v.residue, p.path);
          if out.Ok? {
            OwedNowWhole(types, slot, v, p.path);
            TakenAgrees(types, s, fs, p, out.value);
          }
        }
    }
  }

  lemma OwedNowWhole(types: Registry, slot: Runs.Slot, v: Variable, path: Path)
    requires VariableAgrees(types, v, slot) && slot.ty.Some?
    requires Linear(types, slot.ty.value, path) && Untouched(v.residue.moved, path)
    ensures WholeAt(slot.value, path)
  {
    var k := LinearPathExists(types, slot.ty.value, slot.value, path);
    assert path[..k] <= path;
    WholeAtUntouched(slot.value, v.residue.moved, path);
  }

  lemma {:induction false} ExprSound(types: Registry, e: Expr, s: State, fs: Runs.Frames)
    requires Agrees(types, s, fs) && CheckExpr(types, e, s).Accept?
    ensures Continues(types, CheckExpr(types, e, s).value, Runs.EvalExpr(types, e, fs))
    decreases e, 1
  {
    match e
    case Transfer(inner) => TransferSound(types, inner, s, fs);
    case MethodCall(receiver, name, args) =>
      ExprsSound(types, args, s, fs);
      match Runs.EvalExprs(types, args, fs) {
        case Normal(fs1) =>
          var s1 := CheckExprs(types, args, s).value;
          DestructorSound(types, receiver, name, s1, fs1);
          if DestroyedPlace(types, receiver, name, s1).None? {
            ExprSound(types, receiver, s1, fs1);
          }
        case _ =>
      }
    case Call(args) => ExprsSound(types, args, s, fs);
    case Prefix(operand) => ExprSound(types, operand, s, fs);
    case Infix(left, right) =>
      ExprSound(types, left, s, fs);
      match Runs.EvalExpr(types, left, fs) {
        case Normal(fs1) => ExprSound(types, right, CheckExpr(types, left, s).value, fs1);
        case _ =>
      }
    case Member(receiver, _) => ExprSound(types, receiver, s, fs);
    case Index(receiver, index) =>
      ExprSound(types, receiver, s, fs);
      match Runs.EvalExpr(types, receiver, fs) {
        case Normal(fs1) => ExprSound(types, index, CheckExpr(types, receiver, s).value, fs1);
        case _ =>
      }
    case _ =>
  }

  lemma {:induction false} ExprsSound(types: Registry, es: seq<Expr>, s: State, fs: Runs.Frames)
    requires Agrees(types, s, fs) && CheckExprs(types, es, s).Accept?
    ensures Continues(types, CheckExprs(types, es, s).value, Runs.EvalExprs(types, es, fs))
    decreases es, 0
  {
    if es != [] {
      ExprSound(types, es[0], s, fs);
      match Runs.EvalExpr(types, es[0], fs) {
        case Normal(fs1) => ExprsSound(types, es[1..], CheckExpr(types, es[0], s).value, fs1);
        case _ =>
      }
    }
  }

  lemma {:induction false} PlainExprIsInert(types: Registry, e: Expr, s: State, fs: Runs.Frames)
    requires Valid(s) && !Runs.HasTransfer(e)
    ensures CheckExpr(types, e, s) == Accept(s)
    ensures Runs.EvalExpr(types, e, fs) == Runs.Normal(fs)
    decreases e, 1
  {
    match e
    case MethodCall(receiver, name, args) =>
      PlainExprsAreInert(types, args, s, fs);
      PlainExprIsInert(types, receiver, s, fs);
    case Call(args) => PlainExprsAreInert(types, args, s, fs);
    case Prefix(operand) => PlainExprIsInert(types, operand, s, fs);
    case Infix(left, right) =>
      PlainExprIsInert(types, left, s, fs);
      PlainExprIsInert(types, right, s, fs);
    case Member(receiver, _) => PlainExprIsInert(types, receiver, s, fs);
    case Index(receiver, index) =>
      PlainExprIsInert(types, receiver, s, fs);
      PlainExprIsInert(types, index, s, fs);
    case _ =>
  }

  lemma {:induction false} PlainExprsAreInert(types: Registry, es: seq<Expr>, s: State, fs: Runs.Frames)
    requires Valid(s) && forall i :: 0 <= i < |es| ==> !Runs.HasTransfer(es[i])
    ensures CheckExprs(types, es, s) == Accept(s)
    ensures Runs.EvalExprs(types, es, fs) == Runs.Normal(fs)
    decreases es, 0
  {
    if es != [] {
      PlainExprIsInert(types, es[0], s, fs);
      PlainExprsAreInert(types, es[1..], s, fs);
    }
  }

  // ----- scopes and assignments -----

  lemma PushAgrees(types: Registry, s: State, fs: Runs.Frames)
    requires Agrees(types, s, fs)
    ensures Agrees(types, Push(s), fs + [map[]])
  {
  }

  lemma PopSound(types: Registry, s: State, fs: Runs.Frames)
    requires Agrees(types, s, fs) && |fs| > 0 && PopChecked(s).Accept?
    ensures var left := Runs.Leave(types, Runs.Normal(fs));
            left == Runs.Normal(fs[..|fs| - 1]) && Agrees(types, PopChecked(s).value, left.frames)
  {
    var last := |fs| - 1;
    forall n | n in fs[last]
      ensures !Runs.SlotOwes(types, fs[last][n])
    {
      assert n in s.scopes[last];
      OwesMeansAbandons(types, s.vars[s.scopes[last][n]], fs[last][n]);
    }
  }

  lemma ExitSound(types: Registry, s: State, fs: Runs.Frames)
    requires Agrees(types, s, fs) && !AnyAbandons(s)
    ensures Runs.Exit(types, Runs.Normal(fs)) == Runs.Exited
  {
    forall i, n | 0 <= i < |fs| && n in fs[i]
      ensures !Runs.SlotOwes(types, fs[i][n])
    {
      assert n in s.scopes[i];
      OwesMeansAbandons(types, s.vars[s.scopes[i][n]], fs[i][n]);
    }
  }

  /** States that grew out of the same `base` and were found consistent describe the same concrete state. */
  lemma ConsistentAgrees(types: Registry, base: State, s: State, other: State, fs: Runs.Frames)
    requires Valid(base) && SameShape(base, s) && SameShape(base, other)
    requires Consistent(s, other)
    requires Agrees(types, other, fs)
    ensures Agrees(types, s, fs)
  {
    forall i, n | 0 <= i < |fs| && n in fs[i]
      ensures VariableAgrees(types, s.vars[s.scopes[i][n]], fs[i][n])
    {
      assert n in base.scopes[i];
      var id := base.scopes[i][n];
      assert SameDeclaration(base.vars[id], s.vars[id]) && SameDeclaration(base.vars[id], other.vars[id]);
      assert VariableAgrees(types, other.vars[id], fs[i][n]);
    }
  }

  lemma DeclareAgrees(types: Registry, s: State, fs: Runs.Frames, v: Variable, slot: Runs.Slot)
    requires Agrees(types, s, fs) && |fs| > 0
    requires v.name !in fs[|fs| - 1] && VariableAgrees(types, v, slot)
    ensures Declare(s, v).Accept?
    ensures var frame: map<string, Runs.Slot> := fs[|fs| - 1][v.name := slot];
            Agrees(types, Declare(s, v).value, fs[|fs| - 1 := frame])
  {
    var last := |fs| - 1;
    var t := Declare(s, v).value;
    var frame: map<string, Runs.Slot> := fs[last][v.name := slot];
    var fs1 := fs[last := frame];
    assert t.scopes[last].Keys == s.scopes[last].Keys + {v.name} == fs1[last].Keys;
    assert SameNames(t.scopes, fs1);
    forall i, n | 0 <= i < |fs1| && n in fs1[i]
      ensures t.scopes[i][n] <= |s.vars| && VariableAgrees(types, t.vars[t.scopes[i][n]], fs1[i][n])
    {
      DeclaredVariable(s, fs, t, fs1, v, slot, i, n);
      if !(i == last && n == v.name) {
        assert VariableAgrees(types, s.vars[s.scopes[i][n]], fs[i][n]);
      }
    }
    assert Valid(t);
    DistinctAfterDeclare(s, t, v.name);
  }

  lemma DeclaredVariable(s: State, fs: Runs.Frames, t: State, fs1: Runs.Frames, v: Variable, slot: Runs.Slot, i: nat,
                         n: string)
    requires Valid(s) && SameNames(s.scopes, fs) && |fs| > 0 && Declare(s, v) == Accept(t)
    requires var frame: map<string, Runs.Slot> := fs[|fs| - 1][v.name := slot]; fs1 == fs[|fs| - 1 := frame]
    requires i < |fs1| && n in fs1[i]
    ensures n in t.scopes[i]
    ensures if i == |fs| - 1 && n == v.name
      then t.scopes[i][n] == |s.vars| && fs1[i][n] == slot && t.vars[|s.vars|] == v
            else n in fs[i] && n in s.scopes[i] && fs1[i][n] == fs[i][n] && t.scopes[i][n] == s.scopes[i][n] < |s.vars|
                 && t.vars[t.scopes[i][n]] == s.vars[s.scopes[i][n]]
  {
    assert s.scopes[i].Keys == fs[i].Keys;
  }

  lemma DistinctAfterDeclare(s: State, t: State, name: string)
    requires Valid(s) && DistinctIds(s.scopes) && s.scopes != []
    requires var scope: map<string, nat> := s.scopes[|s.scopes| - 1][name := |s.vars|];
             t.scopes == s.scopes[|s.scopes| - 1 := scope]
    ensures DistinctIds(t.scopes)
  {
    forall i, n | 0 <= i < |t.scopes| && n in t.scopes[i]
      ensures t.scopes[i][n] == |s.vars| ==> i == |t.scopes| - 1 && n == name
      ensures t.scopes[i][n] != |s.vars| ==> n in s.scopes[i] && t.scopes[i][n] == s.scopes[i][n]
    {
    }
  }

  lemma BindSound(types: Registry, name: string, ty: Option<string>, stored: Value, s: State, fs: Runs.Frames)
    requires Agrees(types, s, fs) && |fs| > 0
    ensures Bind(types, name, ty, s).Accept?
    ensures Continues(types, Bind(types, name, ty, s).value, Runs.Bind(types, name, ty, stored, fs))
  {
    var explicit := ExplicitName(types, ty);
    var v := NewVariable(types, name, explicit, explicit.Some?);
    var slot := Runs.Slot(explicit, stored);
    if name !in fs[|fs| - 1] && Runs.Fits(types, explicit, stored) {
      WholeAgrees(types, v, slot);
      DeclareAgrees(types, s, fs, v, slot);
    }
  }

  lemma OverwriteSound(types: Registry, name: string, stored: Value, s: State, fs: Runs.Frames)
    requires Agrees(types, s, fs) && Overwrite(name, s).Accept?
    ensures Continues(types, Overwrite(name, s).value, Runs.Overwrite(types, name, stored, fs))
  {
    SameInnermost(s.scopes, fs, name);
    match InnermostScope(fs, name)
    case None =>
    case Some(level) =>
      var slot := fs[level][name];
      var v := s.vars[s.scopes[level][name]];
      assert VariableAgrees(types, v, slot);
      OwesMeansAbandons(types, v, slot);
      if Runs.Fits(types, slot.ty, stored) {
        var r := if v.explicitType.Some? then WHOLE else Residue({}, {});
        WholeAgrees(types, v.(residue := r), slot.(value := stored));
        SetAgrees(types, s, fs, level, name, r, stored);
      }
  }

  lemma FieldFilled(types: Registry, v: Variable, slot: Runs.Slot, path: Path, stored: Value)
    requires Closed(types) && VariableAgrees(types, v, slot) && slot.ty.Some?
    requires Runs.Fill(types, slot.ty.value, slot.value, path, stored).Ok?
    ensures var value := Runs.Fill(types, slot.ty.value, slot.value, path, stored).value;
            VariableAgrees(types, v.(residue := Reinitialize(types, slot.ty.value, v.residue, path)),
                           slot.(value := value))
  {
    var ty, r := slot.ty.value, Reinitialize(types, slot.ty.value, v.residue, path);
    AgreementIsExact(types, v, slot);
    if At(slot.value, path).None? {
      HiddenFieldFilled(types, v, slot, path);
      return;
    }
    FilledIsHarmless(types, v, slot, path, stored);
    ReinitializeExact(types, ty, v.residue, path);
    FillRemovesHoles(slot.value, path, stored, v.residue.moved);
    assert r.moved == set m | m in v.residue.moved && !(path <= m);
    ReplaceWellTyped(types, ty, slot.value, path, stored);
    ExactIsAgreement(types, v.(residue := r), slot.(value := Replace(slot.value, path, stored)));
  }

  /** Assigning an ordinary field that the value does not show changes nothing. */
  lemma HiddenFieldFilled(types: Registry, v: Variable, slot: Runs.Slot, path: Path)
    requires Closed(types) && VariableAgrees(types, v, slot) && slot.ty.Some?
    requires At(slot.value, path).None? && !Linear(types, slot.ty.value, path)
    requires forall k :: 0 <= k < |path| ==> !HoleAt(slot.value, path[..k])
    ensures VariableAgrees(types, v.(residue := Reinitialize(types, slot.ty.value, v.residue, path)), slot)
  {
    var ty, r := slot.ty.value, Reinitialize(types, slot.ty.value, v.residue, path);
    AgreementIsExact(types, v, slot);
    forall m | m in v.residue.moved
      ensures !(m < path) && !(path <= m)
    {
      StrictPrefixIsSlice(m, path);
      if path <= m { AtSplit(slot.value, path, m); }
    }
    ReinitializeExact(types, ty, v.residue, path);
    var moved := set m | m in v.residue.moved && !(path <= m);
    assert moved == v.residue.moved;
    ExactIsAgreement(types, v.(residue := r), slot);
  }

  lemma PlaceIsReachable(v: Variable, slot: Runs.Slot, path: Path)
    requires MovedAreHoles(slot.value, v.residue.moved) && At(slot.value, path).Some?
    ensures Reachable(v.residue, path)
  {
    forall m | m in v.residue.moved
      ensures !(m < path)
    {
      if m < path { HolesAreAntichain(slot.value, m, path); }
    }
  }

  /** An assignment that a run may make is harmless to the obligations. */
  lemma FilledIsHarmless(types: Registry, v: Variable, slot: Runs.Slot, path: Path, stored: Value)
    requires Closed(types) && VariableAgrees(types, v, slot) && slot.ty.Some?
    requires Runs.Fill(types, slot.ty.value, slot.value, path, stored).Ok? && At(slot.value, path).Some?
    ensures Reachable(v.residue, path) && Harmless(types, slot.ty.value, v.residue, path)
  {
    var ty, after := slot.ty.value, Replace(slot.value, path, stored);
    var moved := Reinitialize(types, ty, v.residue, path).moved;
    PlaceIsReachable(v, slot, path);
    FillRemovesHoles(slot.value, path, stored, v.residue.moved);
    assert moved == set m | m in v.residue.moved && !(path <= m);
    if Whole(after) {
      WholeMatchesFresh(after);
      assert moved == {};
    } else if WholeAt(slot.value, path) {
      WholeAtUntouched(slot.value, v.residue.moved, path);
      assert moved == v.residue.moved;
      if Linear(types, ty, path) {
        assert Owes(types, TypeAtPath(types, ty, path).value, At(slot.value, path).value, []);
      }
    } else {
      NothingOwedInField(types, v, slot, path);
      forall k | 0 <= k < |path| && Linear(types, ty, path[..k])
        ensures Exposed(moved, path[..k])
      {
        ReplaceAt(slot.value, path, stored, path[..k]);
        BrokenIsExposed(after, moved, path[..k]);
      }
    }
  }

  lemma FieldWritten(types: Registry, p: Runs.Place, stored: Value, s: State, fs: Runs.Frames)
    requires Closed(types) && Agrees(types, s, fs) && p.level < |fs| && p.name in fs[p.level]
    requires var slot := fs[p.level][p.name];
             slot.ty.Some? && Runs.Fill(types, slot.ty.value, slot.value, p.path, stored).Ok?
    ensures var slot := fs[p.level][p.name];
            var id := s.scopes[p.level][p.name];
            Agrees(types, SetResidue(s, id, Reinitialize(types, slot.ty.value, s.vars[id].residue, p.path)),
                   Runs.SetSlot(fs, p.level, p.name, Runs.Fill(types, slot.ty.value, slot.value, p.path, stored).value))
  {
    var slot := fs[p.level][p.name];
    var v := s.vars[s.scopes[p.level][p.name]];
    assert VariableAgrees(types, v, slot);
    FieldFilled(types, v, slot, p.path, stored);
    var value := Runs.Fill(types, slot.ty.value, slot.value, p.path, stored).value;
    SetAgrees(types, s, fs, p.level, p.name, Reinitialize(types, slot.ty.value, v.residue, p.path), value);
  }

  lemma WriteFieldSound(types: Registry, place: Expr, stored: Value, s: State, fs: Runs.Frames)
    requires Closed(types) && Agrees(types, s, fs)
    ensures Continues(types, ReinitializePlace(types, place, s), Runs.WriteField(types, place, stored, fs))
  {
    SamePlace(s, fs, place);
    if Runs.PlaceOf(place, fs).Some? {
      var p := Runs.PlaceOf(place, fs).value;
      assert VariableAgrees(types, s.vars[s.scopes[p.level][p.name]], fs[p.level][p.name]);
      PlaceWritten(types, place, p, stored, s, fs);
    }
  }

  lemma PlaceWritten(types: Registry, place: Expr, p: Runs.Place, stored: Value, s: State, fs: Runs.Frames)
    requires Closed(types) && Agrees(types, s, fs) && Runs.PlaceOf(place, fs) == Some(p)
    requires p.name in s.scopes[p.level] && ObligationPlace(place, s) == Some((s.scopes[p.level][p.name], p.path))
    requires s.vars[s.scopes[p.level][p.name]].explicitType == fs[p.level][p.name].ty
    ensures Continues(types, ReinitializePlace(types, place, s), Runs.WriteField(types, place, stored, fs))
  {
    var slot, id := fs[p.level][p.name], s.scopes[p.level][p.name];
    if slot.ty.Some? {
      var ty := slot.ty.value;
      var filled := Runs.Fill(types, ty, slot.value, p.path, stored);
      if filled.Ok? {
        FieldWritten(types, p, stored, s, fs);
        assert ReinitializePlace(types, place, s)
          == SetResidue(s, id, Reinitialize(types, ty, s.vars[id].residue, p.path));
      }
    }
  }

  /** If the field owes nothing concretely, no obligation is recorded inside it. */
  lemma NothingOwedInField(types: Registry, v: Variable, slot: Runs.Slot, path: Path)
    requires VariableAgrees(types, v, slot) && slot.ty.Some? && At(slot.value, path).Some?
    requires var ty := TypeAtPath(types, slot.ty.value, path);
             ty.Some? ==> !OwesAnything(types, ty.value, At(slot.value, path).value)
    ensures forall o :: o in v.residue.obligations ==> !(path < o)
  {
    forall o | o in v.residue.obligations
      ensures !(path < o)
    {
      assert Owes(types, slot.ty.value, slot.value, o);
      if path < o {
        assert path + o[|path|..] == o;
        OwedInField(types, slot, path, o[|path|..]);
      }
    }
  }

  /** What is owed at a place below `path` is owed by the value at `path`. */
  lemma OwedInField(types: Registry, slot: Runs.Slot, path: Path, tail: Path)
    requires slot.ty.Some? && At(slot.value, path).Some?
    requires Owes(types, slot.ty.value, slot.value, path + tail)
    ensures Linear(types, slot.ty.value, path)
    ensures Owes(types, TypeAtPath(types, slot.ty.value, path).value, At(slot.value, path).value, tail)
  {
    var o := path + tail;
    TypeAtPathAppend(types, slot.ty.value, path, tail);
    AtAppend(slot.value, path, tail);
    forall k | 0 <= k < |tail|
      ensures !WholeAt(At(slot.value, path).value, tail[..k])
    {
      AtAppend(slot.value, path, tail[..k]);
      assert o[..|path| + k] == path + tail[..k];
      assert !WholeAt(slot.value, o[..|path| + k]);
    }
  }

  // ----- statements -----

  /** Control continues only where the pass says it does, in a state that agrees; nothing goes wrong. */
  ghost predicate Matches(types: Registry, after: Option<State>, r: Runs.Outcome) {
    match r
    case Normal(fs) => after.Some? && Agrees(types, after.value, fs)
    case Exited => true
    case Outside(_) => true
    case Broken(_) => false
  }

  lemma {:induction false} StmtSound(types: Registry, st: Stmt, c: Runs.Choice, s: State, fs: Runs.Frames)
    requires Closed(types) && Agrees(types, s, fs) && |fs| > 0
    requires CheckStmt(types, st, s).Accept?
    ensures Matches(types, CheckStmt(types, st, s).value, Runs.ExecStmt(types, st, c, fs))
    decreases st, 2
  {
    match st
    case VarDecl(_, _, _) => StoreSound(types, st, c, s, fs);
    case Assign(_, _) => StoreSound(types, st, c, s, fs);
    case SetPlace(place, value) => SetPlaceSound(types, st, c, s, fs);
    case ExprStmt(value) => ExprSound(types, value, s, fs);
    case Return(result) =>
      if result.Some? { ExprSound(types, result.value, s, fs); }
      ReturnSound(types, result, s, fs);
    case Raise(value) =>
      ReturnSound(types, Some(value), s, fs);
    case If(branches, orelse) => IfSound(types, st, c, s, fs);
    case While(_, _, _) => WhileSound(types, st, c, s, fs);
    case For(_, _, _, _, _) => ForSound(types, st, c, s, fs);
    case Pass =>
  }

  lemma StoreSound(types: Registry, st: Stmt, c: Runs.Choice, s: State, fs: Runs.Frames)
    requires Closed(types) && Agrees(types, s, fs) && |fs| > 0
    requires (st.VarDecl? || st.Assign?) && CheckStmt(types, st, s).Accept?
    ensures Matches(types, CheckStmt(types, st, s).value, Runs.ExecStmt(types, st, c, fs))
  {
    ExprSound(types, st.value, s, fs);
    var r, s1 := Runs.EvalExpr(types, st.value, fs), CheckExpr(types, st.value, s).value;
    if r.Normal? && c.Leaf? {
      if st.VarDecl? {
        BindSound(types, st.name, st.ty, c.stored, s1, r.frames);
      } else {
        OverwriteSound(types, st.name, c.stored, s1, r.frames);
      }
    }
  }

  lemma {:induction false} WhileSound(types: Registry, st: Stmt, c: Runs.Choice, s: State, fs: Runs.Frames)
    requires Closed(types) && Agrees(types, s, fs) && |fs| > 0
    requires st.While? && CheckWhile(types, st, s).Accept?
    ensures Matches(types, CheckWhile(types, st, s).value, Runs.ExecStmt(types, st, c, fs))
    decreases st, 0
  {
    if c.Loop? {
      if !Runs.HasTransfer(st.cond) {
        PlainExprIsInert(types, st.cond, s, fs);
      }
      RoundsSound(types, st.cond, st.body, c.rounds, s, fs);
      match Runs.ExecRounds(types, st.cond, st.body, c.rounds, fs) {
        case Normal(fs1) => OrElseSound(types, st.orelse, c.orelse, s, fs1);
        case _ =>
      }
    }
  }

  lemma {:induction false} ForSound(types: Registry, st: Stmt, c: Runs.Choice, s: State, fs: Runs.Frames)
    requires Closed(types) && Agrees(types, s, fs) && |fs| > 0
    requires st.For? && CheckFor(types, st, s).Accept?
    ensures Matches(types, CheckFor(types, st, s).value, Runs.ExecStmt(types, st, c, fs))
    decreases st, 1
  {
    ExprSound(types, st.iter, s, fs);
    if c.Loop? {
      match Runs.EvalExpr(types, st.iter, fs) {
        case Normal(fs1) => ForBodySound(types, st, c, CheckExpr(types, st.iter, s).value, fs1);
        case _ =>
      }
    }
  }

  lemma {:induction false} ForBodySound(types: Registry, st: Stmt, c: Runs.Choice, s: State, fs: Runs.Frames)
    requires Closed(types) && Agrees(types, s, fs) && |fs| > 0
    requires st.For? && c.Loop? && CheckBoundPass(types, st.name, st.ty, st.body, s).Accept?
    requires CheckOrElse(types, st.orelse, s).Accept?
    ensures Matches(types, CheckOrElse(types, st.orelse, s).value,
                    match Runs.ExecBoundRounds(types, st.name, st.ty, st.body, c.rounds, fs)
                    case Normal(fs1) => Runs.ExecOrElse(types, st.orelse, c.orelse, fs1)
                    case stopped => stopped)
    decreases st, 0
  {
    BoundRoundsSound(types, st.name, st.ty, st.body, c.rounds, s, fs);
    match Runs.ExecBoundRounds(types, st.name, st.ty, st.body, c.rounds, fs) {
      case Normal(fs1) => OrElseSound(types, st.orelse, c.orelse, s, fs1);
      case _ =>
    }
  }

  lemma SetPlaceSound(types: Registry, st: Stmt, c: Runs.Choice, s: State, fs: Runs.Frames)
    requires Closed(types) && Agrees(types, s, fs) && |fs| > 0
    requires st.SetPlace? && CheckStmt(types, st, s).Accept?
    ensures Matches(types, CheckStmt(types, st, s).value, Runs.ExecStmt(types, st, c, fs))
  {
    var es := [st.place, st.value];
    assert es[1..] == [st.value] && [st.value][1..] == [];
    assert CheckExprs(types, [], CheckExpr(types, st.value, CheckExpr(types, st.place, s).value).value).Accept?;
    assert CheckExprs(types, [st.value], CheckExpr(types, st.place, s).value)
      == CheckExpr(types, st.value, CheckExpr(types, st.place, s).value);
    ExprsSound(types, es, s, fs);
    match Runs.EvalExprs(types, es, fs)
    case Normal(fs1) => if c.Leaf? { WriteFieldSound(types, st.place, c.stored, CheckExprs(types, es, s).value, fs1); }
    case _ =>
  }

  lemma ReturnSound(types: Registry, result: Option<Expr>, s: State, fs: Runs.Frames)
    requires Agrees(types, s, fs)
    requires var r := if result.Some? then CheckExpr(types, result.value, s) else Accept(s);
             r.Accept? && CheckExit(r.value).Accept?
    ensures var r := Runs.Exit(types, if result.Some? then Runs.EvalExpr(types, result.value, fs) else Runs.Normal(fs));
            r.Exited? || r.Outside?
  {
    if result.Some? {
      ExprSound(types, result.value, s, fs);
      match Runs.EvalExpr(types, result.value, fs) {
        case Normal(fs1) => ExitSound(types, CheckExpr(types, result.value, s).value, fs1);
        case _ =>
      }
    } else {
      ExitSound(types, s, fs);
    }
  }

  /** The exit of arm `i` is among the states joined. */
  lemma {:induction false} BranchExit(types: Registry, branches: seq<Branch>, base: State, i: nat)
    requires Valid(base) && i < |branches| && CheckBranches(types, branches, base).Accept?
    ensures var exit := CheckArm(types, branches[i], base);
            exit.Accept? && (exit.value.Some? ==> exit.value.value in CheckBranches(types, branches, base).value)
    decreases i
  {
    if i > 0 {
      assert branches[1..][i - 1] == branches[i];
      BranchExit(types, branches[1..], base, i - 1);
    }
  }

  lemma {:induction false} ConditionsAreInert(types: Registry, branches: seq<Branch>, n: nat, s: State, fs: Runs.Frames)
    requires Valid(s) && n <= |branches|
    ensures var r := Runs.EvalConditions(types, branches, n, fs);
            || r.Outside?
            || (r == Runs.Normal(fs) && forall i :: 0 <= i < n ==> CheckExpr(types, branches[i].cond, s) == Accept(s))
    decreases n
  {
    if n > 0 {
      ConditionsAreInert(types, branches, n - 1, s, fs);
      if !Runs.HasTransfer(branches[n - 1].cond) {
        PlainExprIsInert(types, branches[n - 1].cond, s, fs);
      }
    }
  }

  lemma JoinAgrees(types: Registry, base: State, exits: seq<State>, exit: State, fs: Runs.Frames)
    requires Valid(base) && exit in exits && Join(exits).Accept?
    requires forall i :: 0 <= i < |exits| ==> SameShape(base, exits[i]) && Valid(exits[i])
    requires Agrees(types, exit, fs)
    ensures Agrees(types, Join(exits).value, fs)
  {
    var last := |exits| - 1;
    var i :| 0 <= i < |exits| && exits[i] == exit;
    if i == last {
      assert Join(exits).value == exit;
    } else {
      assert Join(exits).value == exits[last] && Consistent(exits[last], exits[i]);
      ConsistentAgrees(types, base, exits[last], exit, fs);
    }
  }

  lemma {:induction false} IfSound(types: Registry, st: Stmt, c: Runs.Choice, s: State, fs: Runs.Frames)
    requires Closed(types) && Agrees(types, s, fs) && |fs| > 0
    requires st.If? && CheckIf(types, st, s).Accept?
    ensures Matches(types, Some(CheckIf(types, st, s).value), Runs.ExecStmt(types, st, c, fs))
    decreases st, 0
  {
    if c.Arm? {
      if c.index < |st.branches| {
        ArmSound(types, st.branches, c.index, c.body, s, fs);
        IfExitAgrees(types, st, s, Runs.ExecArm(types, st.branches, c.index, c.body, fs),
                     CheckArm(types, st.branches[c.index], s).value);
      } else {
        ConditionsAreInert(types, st.branches, |st.branches|, s, fs);
        if Runs.EvalConditions(types, st.branches, |st.branches|, fs).Normal? {
          OrElseSound(types, st.orelse, c.body, s, fs);
          IfExitAgrees(types, st, s, Runs.ExecOrElse(types, st.orelse, c.body, fs),
                       if st.orelse.NoElse? then Some(s) else CheckScoped(types, st.orelse.body, s).value);
        }
      }
    }
  }

  lemma {:induction false} ArmSound(types: Registry, branches: seq<Branch>, i: nat, cs: seq<Runs.Choice>, s: State,
                                    fs: Runs.Frames)
    requires Closed(types) && Agrees(types, s, fs) && |fs| > 0
    requires i < |branches| && CheckBranches(types, branches, s).Accept?
    ensures var exit := CheckArm(types, branches[i], s);
            && exit.Accept?
            && Matches(types, exit.value, Runs.ExecArm(types, branches, i, cs, fs))
            && (exit.value.Some? ==> exit.value.value in CheckBranches(types, branches, s).value)
    decreases branches, 0
  {
    BranchExit(types, branches, s, i);
    ConditionsAreInert(types, branches, i + 1, s, fs);
    if Runs.EvalConditions(types, branches, i + 1, fs).Normal? {
      ScopedSound(types, branches[i].body, cs, s, fs);
    }
  }

  lemma IfExitAgrees(types: Registry, st: Stmt, s: State, r: Runs.Outcome, exit: Option<State>)
    requires Valid(s) && st.If? && CheckIf(types, st, s).Accept?
    requires Matches(types, exit, r)
    requires exit.Some? ==> exit.value in IfExits(types, st, s).value
    ensures Matches(types, Some(CheckIf(types, st, s).value), r)
  {
    if r.Normal? {
      JoinAgrees(types, s, IfExits(types, st, s).value, exit.value, r.frames);
    }
  }

  lemma {:induction false} OrElseSound(types: Registry, orelse: OrElse, cs: seq<Runs.Choice>, s: State, fs: Runs.Frames)
    requires Closed(types) && Agrees(types, s, fs) && |fs| > 0
    requires CheckOrElse(types, orelse, s).Accept?
    ensures Matches(types, CheckOrElse(types, orelse, s).value, Runs.ExecOrElse(types, orelse, cs, fs))
    ensures orelse.Else? ==>
      Matches(types, CheckScoped(types, orelse.body, s).value, Runs.ExecOrElse(types, orelse, cs, fs))
    decreases orelse, 2
  {
    if orelse.Else? {
      ScopedSound(types, orelse.body, cs, s, fs);
    }
  }

  lemma {:induction false} RoundsSound(types: Registry, cond: Expr, body: seq<Stmt>, rounds: seq<Runs.Round>, s: State,
                                       fs: Runs.Frames)
    requires Closed(types) && Agrees(types, s, fs) && |fs| > 0
    requires !Runs.HasTransfer(cond) ==> CheckPass(types, body, s).Accept?
    ensures Matches(types, Some(s), Runs.ExecRounds(types, cond, body, rounds, fs))
    decreases body, 2, |rounds|
  {
    if !Runs.HasTransfer(cond) {
      PlainExprIsInert(types, cond, s, fs);
      if rounds != [] {
        ScopedSound(types, body, rounds[0].body, s, fs);
        match Runs.ExecScoped(types, body, rounds[0].body, fs) {
          case Normal(fs1) =>
            ConsistentAgrees(types, s, s, CheckScoped(types, body, s).value.value, fs1);
            RoundsSound(types, cond, body, rounds[1..], s, fs1);
          case _ =>
        }
      }
    }
  }

  lemma {:induction false} BoundRoundsSound(types: Registry, name: string, ty: Option<string>, body: seq<Stmt>,
                                            rounds: seq<Runs.Round>,
                                            s: State, fs: Runs.Frames)
    requires Closed(types) && Agrees(types, s, fs) && |fs| > 0
    requires CheckBoundPass(types, name, ty, body, s).Accept?
    ensures Matches(types, Some(s), Runs.ExecBoundRounds(types, name, ty, body, rounds, fs))
    decreases body, 2, |rounds|
  {
    if rounds != [] {
      BoundRoundSound(types, name, ty, body, rounds[0], s, fs);
      match Runs.ExecBoundRound(types, name, ty, body, rounds[0], fs) {
        case Normal(fs1) => BoundRoundsSound(types, name, ty, body, rounds[1..], s, fs1);
        case _ =>
      }
    }
  }

  lemma {:induction false} BoundRoundSound(types: Registry, name: string, ty: Option<string>, body: seq<Stmt>,
                                           round: Runs.Round,
                                           s: State, fs: Runs.Frames)
    requires Closed(types) && Agrees(types, s, fs) && |fs| > 0
    requires CheckBoundPass(types, name, ty, body, s).Accept?
    ensures Matches(types, Some(s), Runs.ExecBoundRound(types, name, ty, body, round, fs))
    decreases body, 1
  {
    PushAgrees(types, s, fs);
    BindSound(types, name, ty, round.item, Push(s), fs + [map[]]);
    match Runs.Bind(types, name, ty, round.item, fs + [map[]])
    case Normal(fs1) =>
      var entered := Bind(types, name, ty, Push(s)).value;
      BlockSound(types, body, round.body, entered, fs1);
      match Runs.ExecBlock(types, body, round.body, fs1) {
        case Normal(fs2) => RoundLeft(types, s, entered, CheckBlock(types, body, entered).value.value, fs2);
        case _ =>
      }
    case _ =>
  }

  lemma RoundLeft(types: Registry, s: State, entered: State, after: State, fs: Runs.Frames)
    requires Valid(s) && Grown(Push(s), entered) && (Grown(entered, after) || after.scopes == [])
    requires Agrees(types, after, fs) && |fs| > 0
    requires PopChecked(after).Accept? && Consistent(s, PopChecked(after).value)
    ensures Matches(types, Some(s), Runs.Leave(types, Runs.Normal(fs)))
  {
    PopSound(types, after, fs);
    var popped := PopChecked(after).value;
    assert popped.scopes == s.scopes;
    ConsistentAgrees(types, s, s, popped, fs[..|fs| - 1]);
  }

  lemma {:induction false} BlockSound(types: Registry, body: seq<Stmt>, cs: seq<Runs.Choice>, s: State, fs: Runs.Frames)
    requires Closed(types) && Agrees(types, s, fs) && |fs| > 0
    requires CheckBlock(types, body, s).Accept?
    ensures Matches(types, CheckBlock(types, body, s).value, Runs.ExecBlock(types, body, cs, fs))
    decreases body, 0
  {
    if body != [] && cs != [] {
      StmtSound(types, body[0], cs[0], s, fs);
      match Runs.ExecStmt(types, body[0], cs[0], fs) {
        case Normal(fs1) => BlockSound(types, body[1..], cs[1..], CheckStmt(types, body[0], s).value.value, fs1);
        case _ =>
      }
    }
  }

  lemma {:induction false} ScopedSound(types: Registry, body: seq<Stmt>, cs: seq<Runs.Choice>, s: State,
                                       fs: Runs.Frames)
    requires Closed(types) && Agrees(types, s, fs) && |fs| > 0
    requires CheckScoped(types, body, s).Accept?
    ensures Matches(types, CheckScoped(types, body, s).value, Runs.ExecScoped(types, body, cs, fs))
    decreases body, 1
  {
    PushAgrees(types, s, fs);
    BlockSound(types, body, cs, Push(s), fs + [map[]]);
    match Runs.ExecBlock(types, body, cs, fs + [map[]])
    case Normal(fs1) => PopSound(types, CheckBlock(types, body, Push(s)).value.value, fs1);
    case _ =>
  }

  // ----- functions -----

  lemma {:induction false} ParamsSound(types: Registry, params: seq<Param>, args: seq<Value>, s: State, fs: Runs.Frames)
    requires Agrees(types, s, fs) && |fs| > 0
    requires DeclareParams(types, params, s).Accept?
    ensures Matches(types, Some(DeclareParams(types, params, s).value), Runs.BindParams(types, params, args, fs))
    decreases |params|
  {
    if params != [] && args != [] {
      var p := params[0];
      BindSound(types, p.name, p.ty, args[0], s, fs);
      match Runs.Bind(types, p.name, p.ty, args[0], fs) {
        case Normal(fs1) =>
          if !Runs.BindParams(types, params, args, fs).Outside? {
            ParamsSound(types, params[1..], args[1..], Bind(types, p.name, p.ty, s).value, fs1);
          }
        case _ =>
      }
    }
  }

  lemma EmptyAgrees(types: Registry)
    ensures Agrees(types, Push(DEFAULT), [map[]])
  {
  }

  lemma BodySound(types: Registry, body: seq<Stmt>, cs: seq<Runs.Choice>, s: State, fs: Runs.Frames)
    requires Closed(types) && Agrees(types, s, fs) && |fs| > 0
    requires var normal := CheckBlock(types, body, s);
             normal.Accept? && (normal.value.Some? ==> !AnyAbandons(normal.value.value))
    ensures var r := Runs.Exit(types, Runs.ExecBlock(types, body, cs, fs));
            r.Exited? || r.Outside?
  {
    BlockSound(types, body, cs, s, fs);
    match Runs.ExecBlock(types, body, cs, fs)
    case Normal(fs1) => ExitSound(types, CheckBlock(types, body, s).value.value, fs1);
    case _ =>
  }

  /** If the pass accepts a function, every run of it either is outside the fragment or exits with every linear
      value it owned transferred or destroyed, each exactly once. */
  lemma AcceptedFunctionsAreSound(types: Registry, f: Function, args: seq<Value>, cs: seq<Runs.Choice>)
    requires Closed(types)
    requires CheckFunction(types, f) == Accept(())
    ensures var r := Runs.ExecFunction(types, f, args, cs);
            r.Exited? || r.Outside?
  {
    EmptyAgrees(types);
    ParamsSound(types, f.params, args, Push(DEFAULT), [map[]]);
    match Runs.BindParams(types, f.params, args, [map[]])
    case Normal(fs) => BodySound(types, f.body, cs, DeclareParams(types, f.params, Push(DEFAULT)).value, fs);
    case _ =>
  }
}
