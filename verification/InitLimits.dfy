/** Loop `else` clauses the initialization flow gets wrong, and how far what is asked of them is necessary. */
module InitLimits {
  import opened Wrappers
  import opened InitRules
  import opened InitRuns
  import opened InitSoundness
  import opened InitExactness

  // ----- breaks that can be reached -----

  /** A run of the block, checked from `s`, may leave it by a `break` that is checked in the state `at`. */
  ghost predicate BreaksIn(body: seq<Stmt>, s: State, at: State)
    requires s.scopes != []
    decreases BlockSize(body), 0
  {
    body != [] && CheckStmt(body[0], s).Ok? &&
    assert body[0].If? ==> Size(body[0]) == 1 + BranchesSize(body[0].branches) + OptSize(body[0].orelse);
    (|| (body[0].Break? && at == s)
     || (body[0].If? && IfBreaksIn(body[0].branches, body[0].orelse, s, at))
     || (StmtFallsThrough(body[0]) && BreaksIn(body[1..], CheckStmt(body[0], s).value, at)))
  }

  ghost predicate IfBreaksIn(branches: seq<Branch>, orelse: OptBlock, s: State, at: State)
    requires s.scopes != []
    decreases BranchesSize(branches) + OptSize(orelse), 3
  {
    var b := PredeclareBranches(branches, s);
    b.Ok? &&
    var before := PredeclareOpt(orelse, b.value);
    before.Ok? && ArmBreaksIn(branches, orelse, before.value, before.value.uninit, at)
  }

  ghost predicate ArmBreaksIn(branches: seq<Branch>, orelse: OptBlock, s: State, before: set<nat>, at: State)
    requires s.scopes != []
    decreases BranchesSize(branches) + OptSize(orelse), 2
  {
    var start := s.(uninit := before);
    if branches == [] then orelse.Block? && BreaksIn(orelse.body, Push(start), at)
    else
      var cond, after := branches[0].cond, CheckScoped(branches[0].body, start);
      || (cond != Literal(false) && BreaksIn(branches[0].body, Push(start), at))
      || (cond != Literal(true) && after.Ok? && ArmBreaksIn(branches[1..], orelse, after.value, before, at))
  }

  /** The block is left by a `break`, and a variable outside it that was flagged at the `break` is unassigned. */
  ghost predicate Broken(o: Outcome, at: State, depth: nat, i: nat, n: string) {
    o.Broke? && (i < depth && Flagged(at, i, n) ==> Unset(o.store, i, n))
  }

  lemma {:induction false} BreakIsReached(body: seq<Stmt>, s: State, d: Store, at: State, i: nat, n: string)
    returns (cs: seq<Choice>)
    requires Wf(s) && Tracks(s, d) && NoSkippedElseBlock(body) && ArmsSettledBlock(body, NamesOf(s.scopes))
    requires CheckBlock(body, s).Ok? && BreaksIn(body, s, at) && Witnesses(s, d, i, n)
    ensures Broken(RunBlock(body, cs, d), at, |d|, i, n)
    decreases BlockSize(body), 0
  {
    assert body[0].If? ==> Size(body[0]) == 1 + BranchesSize(body[0].branches) + OptSize(body[0].orelse);
    if body[0].Break? && at == s {
      cs := [Plain];
    } else if body[0].If? && IfBreaksIn(body[0].branches, body[0].orelse, s, at) {
      var c := IfBreakIsReached(body[0].branches, body[0].orelse, s, d, at, i, n);
      cs := [c];
    } else {
      var c := StmtReaches(body[0], s, d, i, n);
      StmtIsSound(body[0], s, c, d);
      StmtStaysInner(body[0], s);
      var first := CheckStmt(body[0], s).value;
      RestIsSettled(body, s, first);
      var rest := BreakIsReached(body[1..], first, RunStmt(body[0], c, d).store, at, i, n);
      cs := [c] + rest;
    }
  }

  lemma {:induction false} IfBreakIsReached(branches: seq<Branch>, orelse: OptBlock, s: State, d: Store, at: State,
                                            i: nat, n: string)
    returns (c: Choice)
    requires Wf(s) && Tracks(s, d) && NoSkippedElseBranches(branches) && NoSkippedElseOpt(orelse)
    requires ArmsSettled(If(branches, orelse), NamesOf(s.scopes)) && CheckStmt(If(branches, orelse), s).Ok?
    requires IfBreaksIn(branches, orelse, s, at) && Witnesses(s, d, i, n)
    ensures Broken(RunStmt(If(branches, orelse), c, d), at, |d|, i, n)
    decreases BranchesSize(branches) + OptSize(orelse), 3
  {
    var b, before := IfPredeclares(branches, orelse, s);
    PredeclaredKeepsTrack(s, before, d);
    PredeclaredWitnesses(s, before, d, i, n);
    var index, cs := ArmBreakIsReached(branches, orelse, before, before.uninit, true, {}, d, at, i, n);
    c := Arm(index, cs);
  }

  lemma {:induction false} ArmBreakIsReached(branches: seq<Branch>, orelse: OptBlock, s: State, before: set<nat>,
                                             reachable: bool,
                                             exits: set<nat>, d: Store, at: State, i: nat, n: string)
    returns (index: nat, cs: seq<Choice>)
    requires Wf(s.(uninit := before)) && Tracks(s.(uninit := before), d)
    requires NoSkippedElseBranches(branches) && NoSkippedElseOpt(orelse)
    requires SettledBranches(branches, NamesOf(s.scopes)) && SettledOpt(orelse, NamesOf(s.scopes))
    requires CheckBranches(branches, orelse, s, before, reachable, exits).Ok?
    requires ArmBreaksIn(branches, orelse, s, before, at) && Witnesses(s.(uninit := before), d, i, n)
    ensures Broken(RunArm(branches, orelse, index, cs, d), at, |d|, i, n)
    decreases BranchesSize(branches) + OptSize(orelse), 2
  {
    var start := s.(uninit := before);
    index := 0;
    if branches == [] {
      cs := ScopedBreakIsReached(orelse.body, start, d, at, i, n);
    } else {
      var cond, body := branches[0].cond, branches[0].body;
      CheckedExprCanRun(start, d, cond);
      if cond != Literal(false) && BreaksIn(body, Push(start), at) {
        cs := ScopedBreakIsReached(body, start, d, at, i, n);
      } else {
        ScopedStaysOut(body, start);
        var after := CheckScoped(body, start).value;
        var exits' := exits + if reachable && cond != Literal(false) then after.uninit else {};
        OtherUninitIsWf(start, after, before);
        MoreUninitTracks(start, after.(uninit := before), d);
        index, cs := ArmBreakIsReached(branches[1..], orelse, after, before, reachable &&
                                       cond != Literal(true), exits', d, at, i, n);
        index := index + 1;
      }
    }
  }

  lemma {:induction false} ScopedBreakIsReached(body: seq<Stmt>, s: State, d: Store, at: State, i: nat, n: string)
    returns (cs: seq<Choice>)
    requires Wf(s) && Tracks(s, d) && NoSkippedElseBlock(body) && SettledBlock(body, NamesOf(s.scopes))
    requires CheckScoped(body, s).Ok? && BreaksIn(body, Push(s), at) && Witnesses(s, d, i, n)
    ensures Broken(RunScoped(body, cs, d), at, |d|, i, n)
    decreases BlockSize(body), 1
  {
    SettledBlockIsArmsSettled(body, NamesOf(s.scopes));
    PushedIsWf(s);
    PushedTracks(s, d);
    cs := BreakIsReached(body, Push(s), d + [map[]], at, i, n);
  }

  // ----- a skipped `else` -----

  /** At the `break`, the name denotes nothing yet or a variable that is flagged. */
  predicate UnassignedAt(before: State, at: State, name: string) {
    var k := Depth(before.scopes, name);
    k > 0 ==> Flagged(at, k - 1, name)
  }

  /** If a function is accepted that ends in a loop with an `else` and in the read of a name, and a `break` of that loop
      can be reached where the name is unassigned, then some run reads it unassigned: the `else` that assigns it is
      skipped. */
  lemma SkippedElseFaults(parameters: seq<string>, pre: seq<Stmt>, cond: Expr, body: seq<Stmt>, orelse: seq<Stmt>,
                          name: string, at: State)
    returns (cs: seq<Choice>)
    requires Covered(parameters, pre) && FallsThrough(pre) && cond != Literal(false)
    requires CheckFunction(parameters, pre).Ok? && Predeclare(body, CheckFunction(parameters, pre).value).Ok?
    requires var before := Predeclare(body, CheckFunction(parameters, pre).value).value;
      && NoSkippedElseBlock(body) && SettledBlock(body, NamesOf(before.scopes))
      && BreaksIn(body, Push(before), at) && UnassignedAt(before, at, name)
    requires CheckFunction(parameters, pre + [While(cond, body, Block(orelse)), Eval(Reads([name]))]).Ok?
    ensures RunFunction(parameters, pre + [While(cond, body, Block(orelse)), Eval(Reads([name]))], cs) == Fault
  {
    var loop, read := While(cond, body, Block(orelse)), Eval(Reads([name]));
    var s, e := DeclareAll(parameters, State([map[]], {}, 0)).value, Enter(parameters, [map[]]);
    var t := CheckFunction(parameters, pre).value;
    BodyIsCovered(parameters, pre);
    ParametersAreNotFlagged(parameters, State([map[]], {}, 0));
    CheckBlockOfAppended(pre, [loop, read], s);
    assert CheckStmt(loop, t).Ok?;
    var k := Depth(Predeclare(body, t).value.scopes, name);
    var i := if k > 0 then k - 1 else 0;
    var cs0 := BlockReaches(pre, s, e, i, name);
    BlockIsSound(pre, s, cs0, e);
    BlockStaysInner(pre, s);
    var d := RunBlock(pre, cs0, e).store;
    var round := BrokenRound(t, d, cond, body, Block(orelse), name, at);
    cs := cs0 + [Rounds([round], []), Plain];
    RunBlockOfAppended(pre, [loop, read], cs0, [Rounds([round], []), Plain], e);
    ReadAfter(loop, read, Rounds([round], []), d, name);
  }

  lemma ReadAfter(st: Stmt, read: Stmt, c: Choice, d: Store, name: string)
    requires read == Eval(Reads([name])) && d != []
    requires var o := RunStmt(st, c, d); o == Fault || (o.Normal? && !Assigned(name, o.store))
    ensures RunBlock([st, read], [c, Plain], d) == Fault
  {
    assert [st, read][1..] == [read] && [c, Plain][1..] == [Plain];
    var o := RunStmt(st, c, d);
    if o.Normal? {
      assert !CanRead(read.value, o.store) by { assert name in [name]; }
      assert RunBlock([read], [Plain], o.store) == Fault;
    }
  }

  /** One round that ends at the `break`. */
  lemma BrokenRound(s: State, d: Store, cond: Expr, body: seq<Stmt>, orelse: OptBlock, name: string, at: State)
    returns (round: seq<Choice>)
    requires Wf(s) && Tracks(s, d) && CheckStmt(While(cond, body, orelse), s).Ok? && cond != Literal(false)
    requires var before := Predeclare(body, s).value;
      && NoSkippedElseBlock(body) && SettledBlock(body, NamesOf(before.scopes))
      && BreaksIn(body, Push(before), at) && UnassignedAt(before, at, name)
      && Witnesses(s, d, if Depth(before.scopes, name) > 0 then Depth(before.scopes, name) - 1 else 0, name)
    ensures var o := RunStmt(While(cond, body, orelse), Rounds([round], []), d); o.Normal? && !Assigned(name, o.store)
  {
    var before := Predeclare(body, s).value;
    var k := Depth(before.scopes, name);
    PredeclareResolves(body, s);
    PredeclaredKeepsTrack(s, before, d);
    PredeclaredWitnesses(s, before, d, if k > 0 then k - 1 else 0, name);
    CheckedExprCanRun(before, d, cond);
    round := RoundToBreak(before, d, body, name, at);
    assert [round][0] == round;
  }

  lemma RoundToBreak(s: State, d: Store, body: seq<Stmt>, name: string, at: State) returns (round: seq<Choice>)
    requires Wf(s) && Tracks(s, d) && CheckScoped(body, s).Ok?
    requires NoSkippedElseBlock(body) && SettledBlock(body, NamesOf(s.scopes))
    requires BreaksIn(body, Push(s), at) && UnassignedAt(s, at, name)
    requires Witnesses(s, d, if Depth(s.scopes, name) > 0 then Depth(s.scopes, name) - 1 else 0, name)
    ensures var o := RunScoped(body, round, d); o.Broke? && !Assigned(name, o.store)
  {
    var k := Depth(s.scopes, name);
    round := ScopedBreakIsReached(body, s, d, at, if k > 0 then k - 1 else 0, name);
    var o := RunScoped(body, round, d);
    StillTracks(s, d, body, round);
    if k > 0 { TrackedDepth(s, o.store, name); } else { UnresolvedDepth(s, o.store, name); }
  }

  lemma StillTracks(s: State, d: Store, body: seq<Stmt>, round: seq<Choice>)
    requires Wf(s) && Tracks(s, d) && CheckScoped(body, s).Ok?
    requires NoSkippedElseBlock(body) && SettledBlock(body, NamesOf(s.scopes))
    ensures var o := RunScoped(body, round, d); o.Broke? ==> Tracks(s, o.store)
  {
    ScopedIsSound(body, s, round, d);
    ScopedStaysOut(body, s);
    ScopedKeeps(body, round, d);
    var o := RunScoped(body, round, d);
    if o.Broke? { KeptStillTracks(s, d, o.store); }
  }

  // ----- an `else` that need not run -----

  lemma {:induction false} NoArmTaken(branches: seq<Branch>, d: Store)
    requires forall b <- branches :: b.cond != Literal(true)
    ensures var o := RunArm(branches, NoBlock, |branches|, [], d); o == Fault || o == Normal(d)
    decreases |branches|
  {
    if branches != [] && CanRead(branches[0].cond, d) { NoArmTaken(branches[1..], d); }
  }

  /** If a function is accepted that ends in an `if` none of whose arms need be taken and in the read of a name that was
      unknown before, then some run reads it unassigned: only the `else` of a loop in an arm can have introduced it. */
  lemma UnsettledArmFaults(parameters: seq<string>, pre: seq<Stmt>, branches: seq<Branch>, name: string)
    returns (cs: seq<Choice>)
    requires Covered(parameters, pre) && FallsThrough(pre) && CheckFunction(parameters, pre).Ok?
    requires !Resolves(CheckFunction(parameters, pre).value.scopes, name)
    requires forall b <- branches :: b.cond != Literal(true)
    requires CheckFunction(parameters, pre + [If(branches, NoBlock), Eval(Reads([name]))]).Ok?
    ensures RunFunction(parameters, pre + [If(branches, NoBlock), Eval(Reads([name]))], cs) == Fault
  {
    var st, read, c := If(branches, NoBlock), Eval(Reads([name])), Arm(|branches|, []);
    var s, e := DeclareAll(parameters, State([map[]], {}, 0)).value, Enter(parameters, [map[]]);
    BodyIsCovered(parameters, pre);
    ParametersAreNotFlagged(parameters, State([map[]], {}, 0));
    var cs0 := BlockReaches(pre, s, e, 0, name);
    BlockIsSound(pre, s, cs0, e);
    BlockStaysInner(pre, s);
    var d := RunBlock(pre, cs0, e).store;
    UnresolvedDepth(CheckFunction(parameters, pre).value, d, name);
    NoArmTaken(branches, d);
    ReadAfter(st, read, c, d, name);
    cs := cs0 + [c, Plain];
    RunBlockOfAppended(pre, [st, read], cs0, [c, Plain], e);
  }

  // ----- for instance -----

  /** A loop's `else` clause is checked as if it always ran, but a `break` skips it: this function is accepted and a
      run of it reads `x` unassigned. */
  lemma LoopElseIsUnsound()
    ensures var loop := While(Literal(true), [Break], Block([Assign("x", Literal(true))]));
      var body := [VarUninit("x"), loop, Eval(Reads(["x"]))];
      CheckFunction([], body).Ok? && RunFunction([], body, [Plain, Rounds([[Plain]], []), Plain]) == Fault
  {
    var assign := Assign("x", Literal(true));
    var loop := While(Literal(true), [Break], Block([assign]));
    var read := Eval(Reads(["x"]));
    var s := State([map["x" := 0]], {0}, 1);
    var start := State([map[]], {}, 0);
    assert Bind(start, 0, "x").scopes == [map["x" := 0]];
    assert Declare(start, "x") == Ok(State([map["x" := 0]], {}, 1));
    assert {} + {0} == {0};
    assert CheckStmt(VarUninit("x"), start) == Ok(s);
    var done := State([map["x" := 0]], {}, 1);
    LoopElseAssigns(s, done, assign);
    assert [assign][1..] == [] && ["x"][1..] == [];
    assert CheckBlock([read], done) == Ok(done);
    assert [loop, read][1..] == [read] && [VarUninit("x"), loop, read][1..] == [loop, read];
    BrokenLoopSkipsElse(loop, assign, read);
  }

  lemma BrokenLoopSkipsElse(loop: Stmt, assign: Stmt, read: Stmt)
    requires loop == While(Literal(true), [Break], Block([assign])) && read == Eval(Reads(["x"]))
    ensures RunFunction([], [VarUninit("x"), loop, read], [Plain, Rounds([[Plain]], []), Plain]) == Fault
  {
    var d := [map["x" := false]];
    assert [loop, read][1..] == [read] && [VarUninit("x"), loop, read][1..] == [loop, read];
    assert Make([map[]], "x", false) == d;
    assert RunScoped([Break], [Plain], d) == Broke(d);
    assert RunLoop(Literal(true), [Break], Block([assign]), [[Plain]], [], d) == Normal(d);
    assert !Assigned("x", d);
    assert RunStmt(read, Plain, d) == Fault by { assert "x" in ["x"]; }
    var round := Rounds([[Plain]], []);
    assert RunBlock([read], [Plain], d) == Fault;
    assert [round, Plain][1..] == [Plain] && [Plain, round, Plain][1..] == [round, Plain];
    assert RunBlock([loop, read], [round, Plain], d) == Fault;
    var start: Store := [map[]];
    assert RunStmt(VarUninit("x"), Plain, start) == Normal(d);
    assert RunBlock([VarUninit("x"), loop, read], [Plain, round, Plain], start) == Fault;
    assert Enter([], start) == start;
  }

  lemma LoopElseAssigns(s: State, done: State, assign: Stmt)
    requires s == State([map["x" := 0]], {0}, 1) && done == State([map["x" := 0]], {}, 1) &&
      assign == Assign("x", Literal(true))
    ensures CheckStmt(While(Literal(true), [Break], Block([assign])), s) == Ok(done)
  {
    assert Push(s).scopes == [map["x" := 0], map[]];
    assert [assign][1..] == [] && [Break][1..] == [];
    assert CheckBlock([Break], Push(s)) == Ok(Push(s));
    assert Pop(Push(s)) == s;
    assert Depth(s.scopes, "x") == 1 && Depth(Push(s).scopes, "x") == 1;
    assert {0} - {0} == {};
    assert CheckStmt(assign, Push(s)) == Ok(Push(done));
    assert CheckBlock([assign], Push(s)) == Ok(Push(done));
    assert Pop(Push(done)) == done;
    assert CheckScoped([Break], s) == Ok(s) && CheckScoped([assign], s) == Ok(done);
  }

  /** An arm that is not taken introduces `y` in the `else` of its loop: this function is accepted, too, and reads `y`
      unassigned. */
  lemma ElseInArmIsUnsound()
    ensures var loop := While(Reads([]), [], Block([Assign("y", Literal(true))]));
      var body := [If([Branch(Reads([]), [loop])], NoBlock), Eval(Reads(["y"]))];
      CheckFunction([], body).Ok? && exists cs :: RunFunction([], body, cs) == Fault
  {
    var loop := While(Reads([]), [], Block([Assign("y", Literal(true))]));
    var branch, read := Branch(Reads([]), [loop]), Eval(Reads(["y"]));
    var start, done := State([map[]], {}, 0), State([map["y" := 0]], {}, 1);
    ElseIntroduces(start, done, loop);
    assert [branch][1..] == [] && [loop][1..] == [];
    assert NamesOf(start.scopes) == {} by { assert start.scopes[..0] == []; }
    LoopIntroducesNothing(loop, branch);
    NothingNew([branch], NoBlock, start);
    assert CheckBranches([], NoBlock, done, {}, true, {}) == Ok(done);
    assert CheckBranches([branch], NoBlock, start, {}, true, {}) == Ok(done);
    assert CheckStmt(If([branch], NoBlock), start) == Ok(done);
    assert [If([branch], NoBlock), read][1..] == [read];
    ReadAlone("y", done);
    assert CheckBlock([If([branch], NoBlock), read], start).Ok?;
    assert [] + [If([branch], NoBlock), read] == [If([branch], NoBlock), read];
    var cs := UnsettledArmFaults([], [], [branch], "y");
  }

  lemma LoopIntroducesNothing(loop: Stmt, branch: Branch)
    requires loop.While? && loop.body == [] && branch.body == [loop]
    ensures IntroducedInBranches([branch]) == {}
  {
    assert [loop][1..] == [] && [branch][1..] == [];
    assert IntroducedInBlock([loop]) == Introduced(loop) == {};
  }

  lemma ElseIntroduces(start: State, done: State, loop: Stmt)
    requires start == State([map[]], {}, 0) && done == State([map["y" := 0]], {}, 1)
    requires loop == While(Reads([]), [], Block([Assign("y", Literal(true))]))
    ensures CheckScoped([loop], start) == Ok(done)
  {
    var assign := Assign("y", Literal(true));
    var one: map<string, nat> := map[];
    var s2, s3 := State([one, one], {}, 0), State([one, one, one], {}, 0);
    var t3, t2 := State([one["y" := 0], one, one], {}, 1), State([one["y" := 0], one], {}, 1);
    assert Push(start) == s2 && Push(s2) == s3;
    assert Depth(s3.scopes, "y") == 0;
    assert {} - {0} == {} && s3.scopes[0 := one["y" := 0]] == t3.scopes;
    assert CheckStmt(assign, s3) == Ok(t3);
    assert [assign][1..] == [] && CheckBlock([assign], s3) == Ok(t3);
    assert Pop(t3) == t2 && Pop(s3) == s2 && Pop(t2) == done;
    assert CheckScoped([assign], s2) == Ok(t2) && CheckScoped([], s2) == Ok(s2);
    assert CheckStmt(loop, s2) == Ok(t2);
    assert [loop][1..] == [] && CheckBlock([loop], s2) == Ok(t2);
  }
}
