/** What the checker says about a variable is exact: one it calls possibly uninitialized is unassigned on some run. */
module InitExactness {
  import opened Wrappers
  import opened InitRules
  import opened InitRuns
  import opened InitSoundness

  // ----- code that is not left early -----

  /** No path leaves the block early, and no loop is literally endless. What loop bodies do does not matter, because a
      run may make no rounds. */
  predicate FallsThrough(body: seq<Stmt>)
    decreases body, 1
  {
    body != [] ==> StmtFallsThrough(body[0]) && FallsThrough(body[1..])
  }

  predicate StmtFallsThrough(st: Stmt)
    decreases st, 0
  {
    match st
    case If(branches, orelse) => BranchesFallThrough(branches) && OptFallsThrough(orelse)
    case While(cond, _, orelse) => cond != Literal(true) && OptFallsThrough(orelse)
    case _ => !st.Return? && !st.Raise? && !st.Break? && !st.Continue?
  }

  predicate BranchesFallThrough(branches: seq<Branch>)
    decreases branches, 1
  {
    branches != [] ==> FallsThrough(branches[0].body) && BranchesFallThrough(branches[1..])
  }

  predicate OptFallsThrough(o: OptBlock)
    decreases o, 2
  {
    o.Block? ==> FallsThrough(o.body)
  }

  // ----- one variable followed along one run -----

  predicate Flagged(s: State, i: nat, n: string) {
    i < |s.scopes| && n in s.scopes[i] && s.scopes[i][n] in s.uninit
  }

  /** If the variable is flagged, it is indeed unassigned in this store. */
  predicate Witnesses(s: State, d: Store, i: nat, n: string) {
    Flagged(s, i, n) ==> Unset(d, i, n)
  }

  lemma PredeclaredWitnesses(s: State, t: State, d: Store, i: nat, n: string)
    requires Wf(s) && Tracks(s, d) && Predeclared(s, t) && Witnesses(s, d, i, n)
    ensures Witnesses(t, d, i, n)
  {
    if Flagged(t, i, n) && n in s.scopes[i] { assert Holds(s.scopes, i, n, s.scopes[i][n]); }
  }

  /** Assignments clear the flag of the variable that they assign, and of no other. */
  lemma AssignReaches(st: Stmt, s: State, d: Store, i: nat, n: string)
    requires Wf(s) && Tracks(s, d) && st.Assign? && CheckStmt(st, s).Ok? && Witnesses(s, d, i, n)
    ensures var o := RunStmt(st, Plain, d); o.Normal? && Witnesses(CheckStmt(st, s).value, o.store, i, n)
  {
    CheckedExprCanRun(s, d, st.value);
    if Resolves(s.scopes, st.name) {
      KnownAssignReaches(st.name, s, d, i, n);
    } else {
      UnresolvedDepth(s, d, st.name);
      if i < |s.scopes| && n in s.scopes[i] { assert Holds(s.scopes, i, n, s.scopes[i][n]); }
    }
  }

  lemma KnownAssignReaches(name: string, s: State, d: Store, i: nat, n: string)
    requires Wf(s) && Tracks(s, d) && Resolves(s.scopes, name) && Witnesses(s, d, i, n)
    ensures Witnesses(s.(uninit := s.uninit - {Owner(s.scopes, name)}), Set(d, name), i, n)
  {
    TrackedDepth(s, d, name);
    if i < |s.scopes| && n in s.scopes[i] {
      var k := Depth(s.scopes, name);
      assert Holds(s.scopes, i, n, s.scopes[i][n]) && Holds(s.scopes, k - 1, name, Owner(s.scopes, name));
    }
  }

  lemma DeclarationReaches(st: Stmt, s: State, d: Store, i: nat, n: string)
    requires Wf(s) && Tracks(s, d) && (st.VarUninit? || st.VarInit?) && CheckStmt(st, s).Ok? && Witnesses(s, d, i, n)
    ensures var o := RunStmt(st, Plain, d); o.Normal? && Witnesses(CheckStmt(st, s).value, o.store, i, n)
  {
    if st.VarInit? { CheckedExprCanRun(s, d, st.value); }
    if i < |s.scopes| && n in s.scopes[i] { assert Holds(s.scopes, i, n, s.scopes[i][n]); }
  }

  lemma SimpleReaches(st: Stmt, s: State, d: Store, i: nat, n: string)
    requires Wf(s) && Tracks(s, d) && StmtFallsThrough(st) && !st.If? && !st.While?
    requires CheckStmt(st, s).Ok? && Witnesses(s, d, i, n)
    ensures var o := RunStmt(st, Plain, d); o.Normal? && Witnesses(CheckStmt(st, s).value, o.store, i, n)
  {
    match st
    case VarUninit(_) => DeclarationReaches(st, s, d, i, n);
    case VarInit(_, _) => DeclarationReaches(st, s, d, i, n);
    case Assign(_, _) => AssignReaches(st, s, d, i, n);
    case Eval(value) => CheckedExprCanRun(s, d, value);
    case _ =>
  }

  lemma {:induction false} StmtReaches(st: Stmt, s: State, d: Store, i: nat, n: string) returns (c: Choice)
    requires Wf(s) && Tracks(s, d) && NoSkippedElse(st) && StmtFallsThrough(st) && ArmsSettled(st, NamesOf(s.scopes))
    requires CheckStmt(st, s).Ok? && Witnesses(s, d, i, n)
    ensures var o := RunStmt(st, c, d); o.Normal? && Witnesses(CheckStmt(st, s).value, o.store, i, n)
    decreases Size(st), 0
  {
    match st
    case If(branches, orelse) => c := IfReaches(branches, orelse, s, d, i, n);
    case While(cond, body, orelse) => c := WhileReaches(cond, body, orelse, s, d, i, n);
    case _ =>
      SimpleReaches(st, s, d, i, n);
      c := Plain;
  }

  /** The run that makes no rounds. */
  lemma {:induction false} WhileReaches(cond: Expr, body: seq<Stmt>, orelse: OptBlock, s: State, d: Store, i: nat,
                                        n: string)
    returns (c: Choice)
    requires Wf(s) && Tracks(s, d) && NoSkippedElse(While(cond, body, orelse)) &&
      StmtFallsThrough(While(cond, body, orelse))
    requires ArmsSettled(While(cond, body, orelse), NamesOf(s.scopes))
    requires CheckStmt(While(cond, body, orelse), s).Ok? && Witnesses(s, d, i, n)
    ensures var o := RunStmt(While(cond, body, orelse), c, d);
      o.Normal? && Witnesses(CheckStmt(While(cond, body, orelse), s).value, o.store, i, n)
    decreases BlockSize(body) + OptSize(orelse), 3
  {
    var before := WhilePredeclares(cond, body, orelse, s);
    PredeclaredKeepsTrack(s, before, d);
    PredeclaredWitnesses(s, before, d, i, n);
    CheckedExprCanRun(before, d, cond);
    ScopedStaysOut(body, before);
    OtherUninitIsWf(before, CheckScoped(body, before).value, before.uninit);
    MoreUninitTracks(before, AfterRounds(body, before), d);
    var cs := [];
    if orelse.Block? { cs := ScopedReaches(orelse.body, AfterRounds(body, before), d, i, n); }
    c := Rounds([], cs);
  }

  lemma {:induction false} IfReaches(branches: seq<Branch>, orelse: OptBlock, s: State, d: Store, i: nat, n: string)
    returns (c: Choice)
    requires Wf(s) && Tracks(s, d) && NoSkippedElseBranches(branches) && NoSkippedElseOpt(orelse)
    requires BranchesFallThrough(branches) && OptFallsThrough(orelse) &&
      ArmsSettled(If(branches, orelse), NamesOf(s.scopes))
    requires CheckStmt(If(branches, orelse), s).Ok? && Witnesses(s, d, i, n)
    ensures var o := RunStmt(If(branches, orelse), c, d);
      o.Normal? && Witnesses(CheckStmt(If(branches, orelse), s).value, o.store, i, n)
    decreases BranchesSize(branches) + OptSize(orelse), 3
  {
    var b, before := IfPredeclares(branches, orelse, s);
    PredeclaredKeepsTrack(s, before, d);
    PredeclaredWitnesses(s, before, d, i, n);
    var index, cs := ArmReaches(branches, orelse, before, before.uninit, {}, d, i, n);
    c := Arm(index, cs);
  }

  /** Branches after a literally true condition count for nothing. */
  lemma {:induction false} UnreachableAddsNothing(branches: seq<Branch>, orelse: OptBlock, s: State, before: set<nat>,
                                                  exits: set<nat>)
    requires s.scopes != [] && CheckBranches(branches, orelse, s, before, false, exits).Ok?
    ensures CheckBranches(branches, orelse, s, before, false, exits).value.uninit == exits
    decreases |branches|
  {
    assert exits + {} == exits;
    if branches != [] {
      var after := CheckScoped(branches[0].body, s.(uninit := before)).value;
      UnreachableAddsNothing(branches[1..], orelse, after, before, exits);
    }
  }

  /** A variable flagged by the exits of an `if`, and not by those gathered so far, is unassigned after some arm. */
  lemma {:induction false} ArmReaches(branches: seq<Branch>, orelse: OptBlock, s: State, before: set<nat>,
                                      exits: set<nat>,
                                      d: Store, i: nat, n: string)
    returns (index: nat, cs: seq<Choice>)
    requires Wf(s.(uninit := before)) && Wf(s.(uninit := exits)) && Tracks(s.(uninit := before), d)
    requires NoSkippedElseBranches(branches) && NoSkippedElseOpt(orelse) && BranchesFallThrough(branches) &&
      OptFallsThrough(orelse)
    requires SettledBranches(branches, NamesOf(s.scopes)) && SettledOpt(orelse, NamesOf(s.scopes))
    requires CheckBranches(branches, orelse, s, before, true, exits).Ok? && Witnesses(s.(uninit := before), d, i, n)
    ensures var t, o := CheckBranches(branches, orelse, s, before, true, exits).value,
      RunArm(branches, orelse, index, cs, d);
      o.Normal? && (Flagged(t, i, n) && !Flagged(s.(uninit := exits), i, n) ==> Unset(o.store, i, n))
    decreases BranchesSize(branches) + OptSize(orelse), 2
  {
    if branches == [] {
      index, cs := 0, [];
      BranchesStayOut(branches, orelse, s, before, true, exits);
      if orelse.Block? { cs := ScopedReaches(orelse.body, s.(uninit := before), d, i, n); }
    } else {
      var cond := branches[0].cond;
      var after, exits' := CheckedFirstArm(branches, orelse, s, before, exits);
      CheckedExprCanRun(s.(uninit := before), d, cond);
      if cond == Literal(true) || (cond != Literal(false) && Flagged(after, i, n)) {
        index := 0;
        cs := FirstArmReaches(branches, orelse, s, before, exits, d, i, n);
      } else {
        MoreUninitTracks(s.(uninit := before), after.(uninit := before), d);
        index, cs := ArmReaches(branches[1..], orelse, after, before, exits', d, i, n);
        index := index + 1;
      }
    }
  }

  /** What is known once the first arm has been checked. */
  lemma CheckedFirstArm(branches: seq<Branch>, orelse: OptBlock, s: State, before: set<nat>, exits: set<nat>)
    returns (after: State, exits': set<nat>)
    requires Wf(s.(uninit := before)) && Wf(s.(uninit := exits))
    requires branches != [] && SettledBranches(branches, NamesOf(s.scopes))
    requires CheckBranches(branches, orelse, s, before, true, exits).Ok?
    ensures CheckScoped(branches[0].body, s.(uninit := before)) == Ok(after) && after.scopes == s.scopes
    ensures exits' == exits + if branches[0].cond != Literal(false) then after.uninit else {}
    ensures Wf(after.(uninit := before)) && Wf(after.(uninit := exits'))
    ensures CheckBranches(branches, orelse, s, before, true, exits)
         == CheckBranches(branches[1..], orelse, after, before, branches[0].cond != Literal(true), exits')
  {
    var start := s.(uninit := before);
    ScopedStaysOut(branches[0].body, start);
    after := CheckScoped(branches[0].body, start).value;
    exits' := exits + if branches[0].cond != Literal(false) then after.uninit else {};
    OtherUninitIsWf(start, after, before);
    OtherUninitIsWf(start, after, exits');
  }

  lemma {:induction false} FirstArmReaches(branches: seq<Branch>, orelse: OptBlock, s: State, before: set<nat>,
                                           exits: set<nat>,
                                           d: Store, i: nat, n: string)
    returns (cs: seq<Choice>)
    requires Wf(s.(uninit := before)) && Wf(s.(uninit := exits)) && Tracks(s.(uninit := before), d)
    requires branches != [] && NoSkippedElseBlock(branches[0].body) && FallsThrough(branches[0].body)
    requires SettledBranches(branches, NamesOf(s.scopes)) && SettledOpt(orelse, NamesOf(s.scopes))
    requires CheckBranches(branches, orelse, s, before, true, exits).Ok? && Witnesses(s.(uninit := before), d, i, n)
    requires var cond, after := branches[0].cond, CheckScoped(branches[0].body, s.(uninit := before)).value;
      cond == Literal(true) || (cond != Literal(false) && Flagged(after, i, n))
    ensures var t, o := CheckBranches(branches, orelse, s, before, true, exits).value,
      RunArm(branches, orelse, 0, cs, d);
      o.Normal? && (Flagged(t, i, n) && !Flagged(s.(uninit := exits), i, n) ==> Unset(o.store, i, n))
    decreases BranchesSize(branches) + OptSize(orelse), 1
  {
    var start := s.(uninit := before);
    BranchesStayOut(branches, orelse, s, before, true, exits);
    CheckedExprCanRun(start, d, branches[0].cond);
    ScopedStaysOut(branches[0].body, start);
    cs := ScopedReaches(branches[0].body, start, d, i, n);
    FirstArmDecides(branches, orelse, s, before, exits, i, n);
  }

  /** If the first arm may run and flags the variable, or is the last to count, it says all about it. */
  lemma FirstArmDecides(branches: seq<Branch>, orelse: OptBlock, s: State, before: set<nat>, exits: set<nat>, i: nat,
                        n: string)
    requires s.scopes != [] && branches != [] && CheckBranches(branches, orelse, s, before, true, exits).Ok?
    requires var t, after := CheckBranches(branches, orelse, s, before, true, exits).value,
                             CheckScoped(branches[0].body, s.(uninit := before)).value;
      && t.scopes == after.scopes == s.scopes
      && (branches[0].cond == Literal(true) || (branches[0].cond != Literal(false) && Flagged(after, i, n)))
    ensures var t, after := CheckBranches(branches, orelse, s, before, true, exits).value,
                            CheckScoped(branches[0].body, s.(uninit := before)).value;
      Flagged(t, i, n) && !Flagged(s.(uninit := exits), i, n) ==> Flagged(after, i, n)
  {
    var after := CheckScoped(branches[0].body, s.(uninit := before)).value;
    if branches[0].cond == Literal(true) {
      UnreachableAddsNothing(branches[1..], orelse, after, before, exits + after.uninit);
    }
  }

  lemma {:induction false} ScopedReaches(body: seq<Stmt>, s: State, d: Store, i: nat, n: string)
    returns (cs: seq<Choice>)
    requires Wf(s) && Tracks(s, d) && NoSkippedElseBlock(body) && FallsThrough(body)
    requires ArmsSettledBlock(body, NamesOf(s.scopes)) || SettledBlock(body, NamesOf(s.scopes))
    requires CheckScoped(body, s).Ok? && Witnesses(s, d, i, n)
    ensures var o := RunScoped(body, cs, d); o.Normal? && Witnesses(CheckScoped(body, s).value, o.store, i, n)
    decreases BlockSize(body), 1
  {
    if SettledBlock(body, NamesOf(s.scopes)) { SettledBlockIsArmsSettled(body, NamesOf(s.scopes)); }
    PushedIsWf(s);
    PushedTracks(s, d);
    cs := BlockReaches(body, Push(s), d + [map[]], i, n);
  }

  /** Some run of an accepted block gets to its end, and there the variable is unassigned if it is flagged. */
  lemma {:induction false} BlockReaches(body: seq<Stmt>, s: State, d: Store, i: nat, n: string)
    returns (cs: seq<Choice>)
    requires Wf(s) && Tracks(s, d) && NoSkippedElseBlock(body) && FallsThrough(body) &&
      ArmsSettledBlock(body, NamesOf(s.scopes))
    requires CheckBlock(body, s).Ok? && Witnesses(s, d, i, n)
    ensures var o := RunBlock(body, cs, d);
      |cs| == |body| && o.Normal? && Witnesses(CheckBlock(body, s).value, o.store, i, n)
    decreases BlockSize(body), 0
  {
    cs := [];
    if body != [] {
      var c := StmtReaches(body[0], s, d, i, n);
      StmtIsSound(body[0], s, c, d);
      StmtStaysInner(body[0], s);
      var first, o := CheckStmt(body[0], s).value, RunStmt(body[0], c, d);
      RestIsSettled(body, s, first);
      var rest := BlockReaches(body[1..], first, o.store, i, n);
      cs := [c] + rest;
    }
  }

  // ----- whole functions -----

  lemma {:induction false} CheckBlockOfAppended(a: seq<Stmt>, b: seq<Stmt>, s: State)
    requires s.scopes != []
    ensures CheckBlock(a + b, s) ==
            if CheckBlock(a, s).Ok? then CheckBlock(b, CheckBlock(a, s).value) else CheckBlock(a, s)
  {
    if a == [] {
      assert a + b == b;
    } else {
      assert (a + b)[0] == a[0] && (a + b)[1..] == a[1..] + b;
      var first := CheckStmt(a[0], s);
      if first.Ok? { CheckBlockOfAppended(a[1..], b, first.value); }
    }
  }

  lemma {:induction false} RunBlockOfAppended(a: seq<Stmt>, b: seq<Stmt>, cs: seq<Choice>, ds: seq<Choice>, d: Store)
    requires d != [] && |cs| == |a| && RunBlock(a, cs, d).Normal?
    ensures RunBlock(a + b, cs + ds, d) == RunBlock(b, ds, RunBlock(a, cs, d).store)
  {
    if a == [] {
      assert a + b == b && cs + ds == ds;
    } else {
      assert (a + b)[0] == a[0] && (a + b)[1..] == a[1..] + b;
      assert (cs + ds)[0] == cs[0] && (cs + ds)[1..] == cs[1..] + ds;
      RunBlockOfAppended(a[1..], b, cs[1..], ds, RunStmt(a[0], cs[0], d).store);
    }
  }

  /** After an accepted body, the checker flags a variable exactly if some run ends with it unassigned. */
  lemma FlaggedExactly(parameters: seq<string>, body: seq<Stmt>, i: nat, n: string)
    requires CheckFunction(parameters, body).Ok? && Covered(parameters, body) && FallsThrough(body)
    requires var t := CheckFunction(parameters, body).value; i < |t.scopes| && n in t.scopes[i]
    ensures Flagged(CheckFunction(parameters, body).value, i, n) <==>
      exists cs :: RunFunction(parameters, body, cs).Normal? && Unset(RunFunction(parameters, body, cs).store, i, n)
  {
    var start := State([map[]], {}, 0);
    var s, e, t := DeclareAll(parameters, start).value, Enter(parameters, [map[]]),
      CheckFunction(parameters, body).value;
    BodyIsCovered(parameters, body);
    ParametersAreNotFlagged(parameters, start);
    var cs := BlockReaches(body, s, e, i, n);
    assert RunFunction(parameters, body, cs) == RunBlock(body, cs, e);
    forall cs | RunFunction(parameters, body, cs).Normal? && Unset(RunFunction(parameters, body, cs).store, i, n)
      ensures Flagged(t, i, n)
    {
      BlockIsSound(body, s, cs, e);
      assert Holds(t.scopes, i, n, t.scopes[i][n]);
    }
  }

  lemma {:induction false} ParametersAreNotFlagged(parameters: seq<string>, s: State)
    requires s.scopes != [] && DeclareAll(parameters, s).Ok?
    ensures DeclareAll(parameters, s).value.uninit == s.uninit
  {
    if parameters != [] { ParametersAreNotFlagged(parameters[1..], Declare(s, parameters[0]).value); }
  }

  /** Reading a name after an accepted body is accepted exactly if no run reads it unassigned there. */
  lemma ReadAcceptedExactly(parameters: seq<string>, body: seq<Stmt>, name: string)
    requires CheckFunction(parameters, body).Ok? && Covered(parameters, body) && FallsThrough(body)
    ensures var longer := body + [Eval(Reads([name]))];
      CheckFunction(parameters, longer).Ok? <==> forall cs :: RunFunction(parameters, longer, cs) != Fault
  {
    var read := Eval(Reads([name]));
    var longer := body + [read];
    if CheckFunction(parameters, longer).Ok? {
      CoveredWithRead(parameters, body, read);
      forall cs ensures RunFunction(parameters, longer, cs) != Fault {
        AcceptedFunctionsReadAssigned(parameters, longer, cs);
      }
    } else {
      var cs := RejectedReadFaults(parameters, body, name);
      assert RunFunction(parameters, longer, cs) == Fault;
    }
  }

  lemma {:induction false} SkipsAppended(body: seq<Stmt>, st: Stmt, known: set<string>)
    requires NoSkippedElseBlock(body) && ArmsSettledBlock(body, known) && st.Eval?
    ensures NoSkippedElseBlock(body + [st]) && ArmsSettledBlock(body + [st], known)
  {
    if body == [] {
      assert body + [st] == [st];
    } else {
      assert (body + [st])[1..] == body[1..] + [st];
      SkipsAppended(body[1..], st, known + Declared(body[0]) + Introduced(body[0]));
    }
  }

  lemma CoveredWithRead(parameters: seq<string>, body: seq<Stmt>, read: Stmt)
    requires Covered(parameters, body) && read.Eval?
    ensures Covered(parameters, body + [read])
  {
    SkipsAppended(body, read, AsSet(parameters));
  }

  lemma RejectedReadFaults(parameters: seq<string>, body: seq<Stmt>, name: string) returns (cs: seq<Choice>)
    requires CheckFunction(parameters, body).Ok? && Covered(parameters, body) && FallsThrough(body)
    requires CheckFunction(parameters, body + [Eval(Reads([name]))]).Err?
    ensures RunFunction(parameters, body + [Eval(Reads([name]))], cs) == Fault
  {
    var read := Eval(Reads([name]));
    var start := State([map[]], {}, 0);
    var s, e, t := DeclareAll(parameters, start).value, Enter(parameters, [map[]]),
      CheckFunction(parameters, body).value;
    BodyIsCovered(parameters, body);
    ParametersAreNotFlagged(parameters, start);
    CheckBlockOfAppended(body, [read], s);
    ReadAlone(name, t);
    var k := Depth(t.scopes, name);
    var before := BlockReaches(body, s, e, if k > 0 then k - 1 else 0, name);
    BlockIsSound(body, s, before, e);
    BlockStaysInner(body, s);
    var last := RunBlock(body, before, e).store;
    if k > 0 { TrackedDepth(t, last, name); } else { UnresolvedDepth(t, last, name); }
    cs := before + [Plain];
    RunBlockOfAppended(body, [read], before, [Plain], e);
    assert !CanRead(read.value, last) by { assert name in [name] && !Assigned(name, last); }
  }

  lemma ReadAlone(name: string, s: State)
    requires s.scopes != []
    ensures CheckBlock([Eval(Reads([name]))], s).Ok? <==> CheckName(name, s).Ok?
  {
    var read := Eval(Reads([name]));
    assert [name][1..] == [] && [read][1..] == [];
    assert CheckNames([name], s).Ok? <==> CheckName(name, s).Ok?;
    assert CheckStmt(read, s) == if CheckNames([name], s).Ok? then Ok(s) else Err(CheckNames([name], s).error);
    if CheckName(name, s).Ok? { assert CheckBlock([], s) == Ok(s); }
  }

  // ----- code that is left early -----

  const EARLY_RETURN: seq<Stmt> :=
    [VarUninit("x"), If([Branch(Reads([]), [Return(Literal(true))])], Block([Assign("x", Literal(true))])),
     Eval(Reads(["x"]))]

  /** A branch that returns still counts: this function is rejected, though no run of it reads `x` unassigned. */
  lemma ReturningBranchesStillCount(cs: seq<Choice>)
    ensures CheckFunction([], EARLY_RETURN).Err? && RunFunction([], EARLY_RETURN, cs) != Fault
  {
    ReturningBranchIsRejected();
    ReturningBranchRuns(cs);
  }

  lemma ReturningBranchIsRejected()
    ensures CheckFunction([], EARLY_RETURN).Err?
  {
    var branch, orelse, read := Branch(Reads([]), [Return(Literal(true))]), Block([Assign("x", Literal(true))]),
      Eval(Reads(["x"]));
    var s := State([map["x" := 0]], {0}, 1);
    assert Bind(State([map[]], {}, 0), 0, "x").scopes == [map["x" := 0]];
    assert Declare(State([map[]], {}, 0), "x") == Ok(State([map["x" := 0]], {}, 1));
    assert CheckStmt(VarUninit("x"), State([map[]], {}, 0)) == Ok(s) by { assert {} + {0} == {0}; }
    assert [branch][1..] == [] && [read][1..] == [];
    if CheckStmt(If([branch], orelse), s).Ok? {
      var t := CheckStmt(If([branch], orelse), s).value;
      ReturningBranchFlags(branch, orelse, s);
      ReadAlone("x", t);
    }
    assert [If([branch], orelse), read][1..] == [read];
    assert [VarUninit("x"), If([branch], orelse), read][1..] == [If([branch], orelse), read];
  }

  lemma ReturningBranchFlags(branch: Branch, orelse: OptBlock, s: State)
    requires branch == Branch(Reads([]), [Return(Literal(true))]) && orelse == Block([Assign("x", Literal(true))])
    requires s == State([map["x" := 0]], {0}, 1) && CheckStmt(If([branch], orelse), s).Ok?
    ensures var t := CheckStmt(If([branch], orelse), s).value; t.scopes == s.scopes && 0 in t.uninit
  {
    assert NamesOf(s.scopes) == {"x"} by { assert s.scopes[..0] == []; }
    ReturningBranchIntroduces(branch, orelse);
    NothingNew([branch], orelse, s);
    ReturningBranchExits(branch, orelse, s);
    EarlierExitsCount(orelse, s, {0});
  }

  lemma EarlierExitsCount(orelse: OptBlock, s: State, exits: set<nat>)
    requires orelse == Block([Assign("x", Literal(true))]) && s == State([map["x" := 0]], {0}, 1)
    requires CheckBranches([], orelse, s, {0}, true, exits).Ok?
    ensures var t := CheckBranches([], orelse, s, {0}, true, exits).value; t.scopes == s.scopes && exits <= t.uninit
  {
    assert SettledBlock(orelse.body, NamesOf(s.scopes)) by {
      assert s.scopes[..0] == [] && orelse.body[1..] == [];
    }
    OptStaysOut(orelse, s);
    assert s.(uninit := {0}) == s;
  }

  lemma ReturningBranchIntroduces(branch: Branch, orelse: OptBlock)
    requires branch == Branch(Reads([]), [Return(Literal(true))]) && orelse == Block([Assign("x", Literal(true))])
    ensures IntroducedInBranches([branch]) == {} && IntroducedInOpt(orelse) == {"x"}
  {
    assert [branch][1..] == [] && branch.body[1..] == [] && orelse.body[1..] == [];
  }

  lemma NothingNew(branches: seq<Branch>, orelse: OptBlock, s: State)
    requires s.scopes != []
    requires IntroducedInBranches(branches) <= NamesOf(s.scopes) && IntroducedInOpt(orelse) <= NamesOf(s.scopes)
    ensures CheckStmt(If(branches, orelse), s) == CheckBranches(branches, orelse, s, s.uninit, true, {})
  {
    NothingToPredeclareBranches(branches, s);
    NothingToPredeclareOpt(orelse, s);
  }

  lemma ReturningBranchExits(branch: Branch, orelse: OptBlock, s: State)
    requires branch == Branch(Reads([]), [Return(Literal(true))]) && s == State([map["x" := 0]], {0}, 1)
    ensures CheckBranches([branch], orelse, s, {0}, true, {}) == CheckBranches([], orelse, s, {0}, true, {0})
  {
    assert [branch][1..] == [] && branch.body[1..] == [];
    assert CheckBlock(branch.body, Push(s)) == Ok(Push(s));
    assert Pop(Push(s)) == s;
    assert {} + {0} == {0};
  }

  lemma ReturningBranchRuns(cs: seq<Choice>)
    ensures RunFunction([], EARLY_RETURN, cs) != Fault
  {
    var branch, orelse, read := Branch(Reads([]), [Return(Literal(true))]), Block([Assign("x", Literal(true))]),
      Eval(Reads(["x"]));
    var all := [VarUninit("x"), If([branch], orelse), read];
    assert [If([branch], orelse), read][1..] == [read] && all[1..] == [If([branch], orelse), read] && [read][1..] == [];
    var d: Store := [map["x" := false]];
    assert Make([map[]], "x", false) == d;
    if cs != [] && cs[1..] != [] && cs[1].Arm? {
      assert cs[1..][0] == cs[1];
      ReturningArm(branch, orelse, cs[1].index, cs[1].body, d);
      var o := RunStmt(If([branch], orelse), cs[1], d);
      assert o.Normal? ==> Assigned("x", o.store);
      assert o.Normal? ==> RunBlock([read], cs[1..][1..], o.store) != Fault;
      assert RunBlock(all[1..], cs[1..], d) != Fault;
    }
  }

  lemma ReturningArm(branch: Branch, orelse: OptBlock, index: nat, cs: seq<Choice>, d: Store)
    requires branch == Branch(Reads([]), [Return(Literal(true))]) && orelse == Block([Assign("x", Literal(true))])
    requires d == [map["x" := false]]
    ensures var o := RunArm([branch], orelse, index, cs, d); o != Fault && (o.Normal? ==> o.store == [map["x" := true]])
  {
    assert [branch][1..] == [] && branch.body[1..] == [] && orelse.body[1..] == [];
    if index == 0 {
      assert !RunBlock(branch.body, cs, d + [map[]]).Normal? && RunBlock(branch.body, cs, d + [map[]]) != Fault;
    } else if index == 1 && cs != [] {
      assert Depth(d + [map[]], "x") == 1 by { assert (d + [map[]])[..1] == d; }
      var inner := d + [map[]];
      assert inner[0]["x" := true] == map["x" := true] && inner[1] == map[];
      assert Set(inner, "x") == inner[0 := map["x" := true]] == [map["x" := true], map[]];
      assert RunBlock(orelse.body, cs, d + [map[]]) == Normal([map["x" := true], map[]]);
      assert RunArm([branch], orelse, 1, cs, d) == RunArm([], orelse, 0, cs, d);
    } else {
      assert RunArm([branch], orelse, index, cs, d) == RunArm([], orelse, index - 1, cs, d);
    }
  }
}
