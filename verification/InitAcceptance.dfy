/** When the checker accepts: in code all of whose parts can be reached, a function is rejected for a read only if some
    run reads a variable before it is assigned. */
module InitAcceptance {
  import opened Wrappers
  import opened InitRules
  import opened InitRuns
  import opened InitSoundness
  import opened InitExactness

  // ----- the code spoken about -----

  /** No condition is a literal, and nothing follows a statement that may leave. */
  predicate Open(st: Stmt)
    decreases st, 0
  {
    match st
    case If(branches, orelse) => OpenBranches(branches) && OpenOpt(orelse)
    case While(cond, body, orelse) => cond.Reads? && OpenBlock(body) && OpenOpt(orelse)
    case _ => true
  }

  predicate OpenBlock(body: seq<Stmt>)
    decreases body, 1
  {
    body != [] ==> Open(body[0]) && (body[1..] != [] ==> StmtFallsThrough(body[0])) && OpenBlock(body[1..])
  }

  predicate OpenOpt(o: OptBlock)
    decreases o, 2
  {
    o.Block? ==> OpenBlock(o.body)
  }

  predicate OpenBranches(branches: seq<Branch>)
    decreases branches, 1
  {
    branches != [] ==> branches[0].cond.Reads? && OpenBlock(branches[0].body) && OpenBranches(branches[1..])
  }

  predicate ReadsNothing(e: Expr) {
    e.Reads? ==> e.names == []
  }

  /** Names not in `known` are only ever assigned values that read nothing. */
  predicate Introduces(st: Stmt, known: set<string>)
    decreases st, 0
  {
    match st
    case Assign(name, value) => name in known || ReadsNothing(value)
    case If(branches, orelse) => IntroducesInBranches(branches, known) && IntroducesInOpt(orelse, known)
    case While(_, body, orelse) => IntroducesInBlock(body, known) && IntroducesInOpt(orelse, known)
    case _ => true
  }

  predicate IntroducesInBlock(body: seq<Stmt>, known: set<string>)
    decreases body, 1
  {
    body != [] ==> Introduces(body[0], known) && IntroducesInBlock(body[1..], known)
  }

  predicate IntroducesInOpt(o: OptBlock, known: set<string>)
    decreases o, 2
  {
    o.Block? ==> IntroducesInBlock(o.body, known)
  }

  predicate IntroducesInBranches(branches: seq<Branch>, known: set<string>)
    decreases branches, 1
  {
    branches != [] ==> IntroducesInBlock(branches[0].body, known) && IntroducesInBranches(branches[1..], known)
  }

  /** A name that an `if` or a loop introduces gets only values that read nothing. */
  predicate Plainly(st: Stmt, known: set<string>) {
    st.If? || st.While? ==> Introduces(st, known)
  }

  predicate PlainlyBlock(body: seq<Stmt>, known: set<string>) {
    body != [] ==>
      Plainly(body[0], known) && PlainlyBlock(body[1..], known + Declared(body[0]) + Introduced(body[0]))
  }

  lemma {:induction false} IntroducesMore(st: Stmt, a: set<string>, b: set<string>)
    requires Introduces(st, a) && a <= b
    ensures Introduces(st, b)
    decreases st, 0
  {
    match st
    case If(branches, orelse) =>
      IntroducesMoreInBranches(branches, a, b);
      if orelse.Block? { IntroducesMoreInBlock(orelse.body, a, b); }
    case While(_, body, orelse) =>
      IntroducesMoreInBlock(body, a, b);
      if orelse.Block? { IntroducesMoreInBlock(orelse.body, a, b); }
    case _ =>
  }

  lemma {:induction false} IntroducesMoreInBlock(body: seq<Stmt>, a: set<string>, b: set<string>)
    requires IntroducesInBlock(body, a) && a <= b
    ensures IntroducesInBlock(body, b) && PlainlyBlock(body, b)
    decreases body, 1
  {
    if body != [] {
      IntroducesMore(body[0], a, b);
      IntroducesMoreInBlock(body[1..], a, b);
      IntroducesMoreInBlock(body[1..], a, b + Declared(body[0]) + Introduced(body[0]));
    }
  }

  lemma {:induction false} IntroducesMoreInBranches(branches: seq<Branch>, a: set<string>, b: set<string>)
    requires IntroducesInBranches(branches, a) && a <= b
    ensures IntroducesInBranches(branches, b)
    decreases branches, 1
  {
    if branches != [] {
      IntroducesMoreInBlock(branches[0].body, a, b);
      IntroducesMoreInBranches(branches[1..], a, b);
    }
  }

  lemma {:induction false} PlainlyMore(body: seq<Stmt>, a: set<string>, b: set<string>)
    requires PlainlyBlock(body, a) && a <= b
    ensures PlainlyBlock(body, b)
  {
    if body != [] {
      if body[0].If? || body[0].While? { IntroducesMore(body[0], a, b); }
      PlainlyMore(body[1..], a + Declared(body[0]) + Introduced(body[0]), b + Declared(body[0]) + Introduced(body[0]));
    }
  }

  // ----- introducing never fails -----

  lemma {:induction false} PredeclareInSucceeds(st: Stmt, s: State, known: set<string>)
    requires Wf(s) && known <= NamesOf(s.scopes) && Introduces(st, known)
    ensures PredeclareIn(st, s).Ok?
    decreases st, 0
  {
    match st
    case Assign(name, value) =>
      NamesResolve(s.scopes, name);
      if !Resolves(s.scopes, name) { assert CheckExpr(value, s).Ok? && name !in s.scopes[0]; }
    case If(branches, orelse) =>
      PredeclareBranchesSucceeds(branches, s, known);
      PredeclareResolvesBranches(branches, s);
      var b := PredeclareBranches(branches, s).value;
      PredeclaredNames(s, b);
      if orelse.Block? { PredeclareSucceeds(orelse.body, b, known); }
    case While(_, body, _) => PredeclareSucceeds(body, s, known);
    case _ =>
  }

  lemma {:induction false} PredeclareSucceeds(body: seq<Stmt>, s: State, known: set<string>)
    requires Wf(s) && known <= NamesOf(s.scopes) && IntroducesInBlock(body, known)
    ensures Predeclare(body, s).Ok?
    decreases body, 1
  {
    if body != [] {
      PredeclareInSucceeds(body[0], s, known);
      PredeclareResolvesStmt(body[0], s);
      PredeclaredNames(s, PredeclareIn(body[0], s).value);
      PredeclareSucceeds(body[1..], PredeclareIn(body[0], s).value, known);
    }
  }

  lemma {:induction false} PredeclareBranchesSucceeds(branches: seq<Branch>, s: State, known: set<string>)
    requires Wf(s) && known <= NamesOf(s.scopes) && IntroducesInBranches(branches, known)
    ensures PredeclareBranches(branches, s).Ok?
    decreases branches, 1
  {
    if branches != [] {
      PredeclareSucceeds(branches[0].body, s, known);
      PredeclareResolves(branches[0].body, s);
      PredeclaredNames(s, Predeclare(branches[0].body, s).value);
      PredeclareBranchesSucceeds(branches[1..], Predeclare(branches[0].body, s).value, known);
    }
  }

  // ----- faults -----

  ghost predicate Faulty(st: Stmt, d: Store)
    requires d != []
  {
    exists c :: RunStmt(st, c, d) == Fault
  }

  ghost predicate FaultyBlock(body: seq<Stmt>, d: Store)
    requires d != []
  {
    exists cs :: RunBlock(body, cs, d) == Fault
  }

  /** The store is one that may be met in `s`, and the variable is unassigned in it if it is flagged. */
  ghost predicate Met(s: State, d: Store, i: nat, n: string) {
    Tracks(s, d) && Witnesses(s, d, i, n)
  }

  /** A rejected name is unresolved or flagged, and where it is unassigned it cannot be read. */
  lemma {:induction false} RejectedNamesFault(names: seq<string>, s: State) returns (i: nat, n: string)
    requires Wf(s) && CheckNames(names, s).Err?
    ensures forall d :: Met(s, d, i, n) ==> !CanRead(Reads(names), d)
  {
    if CheckName(names[0], s).Ok? {
      i, n := RejectedNamesFault(names[1..], s);
      forall d | Met(s, d, i, n) ensures !CanRead(Reads(names), d) {
        assert !CanRead(Reads(names[1..]), d);
      }
    } else {
      n := names[0];
      i := if Resolves(s.scopes, n) then Depth(s.scopes, n) - 1 else 0;
      forall d | Met(s, d, i, n) ensures !CanRead(Reads(names), d) {
        if Resolves(s.scopes, n) { TrackedDepth(s, d, n); } else { UnresolvedDepth(s, d, n); }
        assert !Assigned(n, d);
      }
    }
  }

  lemma RejectedExprFaults(e: Expr, s: State) returns (i: nat, n: string)
    requires Wf(s) && CheckExpr(e, s).Err?
    ensures forall d :: Met(s, d, i, n) ==> !CanRead(e, d)
  {
    i, n := RejectedNamesFault(e.names, s);
  }

  /** The rejection of a block is explained: wherever the variable is met unassigned, some run of the block faults. */
  ghost predicate Explained(body: seq<Stmt>, s: State, i: nat, n: string) {
    forall d :: Met(s, d, i, n) ==> FaultyBlock(body, d)
  }

  ghost predicate ExplainedStmt(st: Stmt, s: State, i: nat, n: string) {
    forall d :: Met(s, d, i, n) ==> Faulty(st, d)
  }

  /** Rejected, and not for a name declared twice. */
  predicate ReadRejected<T>(r: Result<T, Error>) {
    r.Err? && r.error != Redeclaration
  }

  lemma SimpleFaults(st: Stmt, s: State) returns (i: nat, n: string)
    requires Wf(s) && !st.If? && !st.While? && ReadRejected(CheckStmt(st, s))
    ensures ExplainedStmt(st, s, i, n)
  {
    if st.Assign? { assert !Resolves(s.scopes, st.name) ==> st.name !in s.scopes[0]; }
    i, n := RejectedExprFaults(st.value, s);
    forall d | Met(s, d, i, n) ensures Faulty(st, d) { assert RunStmt(st, Plain, d) == Fault; }
  }

  lemma {:induction false} StmtFaults(st: Stmt, s: State) returns (i: nat, n: string)
    requires Wf(s) && NoSkippedElse(st) && ArmsSettled(st, NamesOf(s.scopes)) && Open(st)
    requires Plainly(st, NamesOf(s.scopes)) && ReadRejected(CheckStmt(st, s))
    ensures ExplainedStmt(st, s, i, n)
    decreases Size(st), 1
  {
    match st
    case If(branches, orelse) => i, n := IfFaults(branches, orelse, s);
    case While(cond, body, orelse) => i, n := WhileFaults(cond, body, orelse, s);
    case _ => i, n := SimpleFaults(st, s);
  }

  // ----- blocks -----

  lemma {:induction false} BlockFaults(body: seq<Stmt>, s: State) returns (i: nat, n: string)
    requires Wf(s) && NoSkippedElseBlock(body) && ArmsSettledBlock(body, NamesOf(s.scopes)) && OpenBlock(body)
    requires PlainlyBlock(body, NamesOf(s.scopes)) && ReadRejected(CheckBlock(body, s))
    ensures Explained(body, s, i, n)
    decreases BlockSize(body), 0
  {
    if CheckStmt(body[0], s).Err? {
      i, n := StmtFaults(body[0], s);
      forall d | Met(s, d, i, n) ensures FaultyBlock(body, d) {
        var c :| RunStmt(body[0], c, d) == Fault;
        assert RunBlock(body, [c], d) == Fault;
      }
    } else {
      var first := CheckStmt(body[0], s).value;
      StmtStaysInner(body[0], s);
      RestIsSettled(body, s, first);
      PlainlyMore(body[1..], NamesOf(s.scopes) + Declared(body[0]) + Introduced(body[0]), NamesOf(first.scopes));
      i, n := BlockFaults(body[1..], first);
      forall d | Met(s, d, i, n) ensures FaultyBlock(body, d) { LaterFaults(body, s, d, i, n); }
    }
  }

  /** Some run gets past the first statement with the variable still unassigned. */
  lemma LaterFaults(body: seq<Stmt>, s: State, d: Store, i: nat, n: string)
    requires Wf(s) && body != [] && NoSkippedElse(body[0]) && ArmsSettled(body[0], NamesOf(s.scopes))
    requires StmtFallsThrough(body[0]) && CheckStmt(body[0], s).Ok? && Met(s, d, i, n)
    requires Explained(body[1..], CheckStmt(body[0], s).value, i, n)
    ensures FaultyBlock(body, d)
  {
    var c := StmtReaches(body[0], s, d, i, n);
    StmtIsSound(body[0], s, c, d);
    var o := RunStmt(body[0], c, d);
    assert Met(CheckStmt(body[0], s).value, o.store, i, n);
    var cs :| RunBlock(body[1..], cs, o.store) == Fault;
    var all := [c] + cs;
    assert all[0] == c && all[1..] == cs;
    assert RunBlock(body, all, d) == Fault;
  }

  ghost predicate FaultyScoped(body: seq<Stmt>, d: Store)
    requires d != []
  {
    exists cs :: RunScoped(body, cs, d) == Fault
  }

  lemma {:induction false} ScopedFaults(body: seq<Stmt>, s: State) returns (i: nat, n: string)
    requires Wf(s) && NoSkippedElseBlock(body) && ArmsSettledBlock(body, NamesOf(s.scopes)) && OpenBlock(body)
    requires PlainlyBlock(body, NamesOf(s.scopes)) && ReadRejected(CheckScoped(body, s))
    ensures forall d :: Met(s, d, i, n) ==> FaultyScoped(body, d)
    decreases BlockSize(body), 1
  {
    PushedIsWf(s);
    i, n := BlockFaults(body, Push(s));
    forall d | Met(s, d, i, n) ensures FaultyScoped(body, d) {
      PushedTracks(s, d);
      assert Met(Push(s), d + [map[]], i, n);
      var cs :| RunBlock(body, cs, d + [map[]]) == Fault;
      assert RunScoped(body, cs, d) == Fault;
    }
  }

  // ----- loops -----

  lemma {:induction false} WhileFaults(cond: Expr, body: seq<Stmt>, orelse: OptBlock, s: State)
    returns (i: nat, n: string)
    requires var st := While(cond, body, orelse);
             && Wf(s) && NoSkippedElse(st) && ArmsSettled(st, NamesOf(s.scopes)) && Open(st)
             && Plainly(st, NamesOf(s.scopes)) && ReadRejected(CheckStmt(st, s))
    ensures ExplainedStmt(While(cond, body, orelse), s, i, n)
    decreases Size(While(cond, body, orelse)), 0
  {
    var st := While(cond, body, orelse);
    PredeclareSucceeds(body, s, NamesOf(s.scopes));
    var before := WhilePredeclares(cond, body, orelse, s);
    if CheckExpr(cond, before).Err? {
      i, n := RejectedExprFaults(cond, before);
      forall d | Met(s, d, i, n) ensures Faulty(st, d) {
        PredeclaredIsMet(s, before, d, i, n);
        assert RunStmt(st, Rounds([], []), d) == Fault;
      }
    } else if CheckScoped(body, before).Err? {
      i, n := BodyFaults(cond, body, orelse, s, before);
    } else {
      i, n := LoopElseFaults(cond, body, orelse, s, before);
    }
  }

  lemma PredeclaredIsMet(s: State, before: State, d: Store, i: nat, n: string)
    requires Wf(s) && Predeclared(s, before) && Met(s, d, i, n)
    ensures Met(before, d, i, n)
  {
    PredeclaredKeepsTrack(s, before, d);
    PredeclaredWitnesses(s, before, d, i, n);
  }

  lemma {:induction false} BodyFaults(cond: Expr, body: seq<Stmt>, orelse: OptBlock, s: State, before: State)
    returns (i: nat, n: string)
    requires Wf(s) && Wf(before) && Predeclared(s, before) && cond.Reads? && CheckExpr(cond, before).Ok?
    requires NoSkippedElseBlock(body) && OpenBlock(body) && SettledBlock(body, NamesOf(before.scopes))
    requires IntroducesInBlock(body, NamesOf(s.scopes)) && ReadRejected(CheckScoped(body, before))
    ensures ExplainedStmt(While(cond, body, orelse), s, i, n)
    decreases BlockSize(body), 2
  {
    SettledBlockIsArmsSettled(body, NamesOf(before.scopes));
    PredeclaredNames(s, before);
    IntroducesMoreInBlock(body, NamesOf(s.scopes), NamesOf(before.scopes));
    i, n := ScopedFaults(body, before);
    forall d | Met(s, d, i, n) ensures Faulty(While(cond, body, orelse), d) {
      PredeclaredIsMet(s, before, d, i, n);
      CheckedExprCanRun(before, d, cond);
      var cs :| RunScoped(body, cs, d) == Fault;
      assert RunLoop(cond, body, orelse, [cs], [], d) == Fault;
      assert RunStmt(While(cond, body, orelse), Rounds([cs], []), d) == Fault;
    }
  }

  lemma {:induction false} LoopElseFaults(cond: Expr, body: seq<Stmt>, orelse: OptBlock, s: State, before: State)
    returns (i: nat, n: string)
    requires Wf(s) && Wf(before) && Predeclared(s, before) && cond.Reads? && CheckExpr(cond, before).Ok?
    requires SettledBlock(body, NamesOf(before.scopes)) && CheckScoped(body, before).Ok?
    requires NoSkippedElseOpt(orelse) && OpenOpt(orelse) && ArmsSettledOpt(orelse, NamesOf(before.scopes))
    requires IntroducesInOpt(orelse, NamesOf(s.scopes))
    requires ReadRejected(CheckOpt(orelse, AfterRounds(body, before)))
    ensures ExplainedStmt(While(cond, body, orelse), s, i, n)
    decreases BlockSize(body) + OptSize(orelse), 2
  {
    var after := AfterRounds(body, before);
    ScopedStaysOut(body, before);
    OtherUninitIsWf(before, CheckScoped(body, before).value, before.uninit);
    PredeclaredNames(s, before);
    IntroducesMoreInBlock(orelse.body, NamesOf(s.scopes), NamesOf(before.scopes));
    i, n := ScopedFaults(orelse.body, after);
    forall d | Met(s, d, i, n) ensures Faulty(While(cond, body, orelse), d) {
      PredeclaredIsMet(s, before, d, i, n);
      CheckedExprCanRun(before, d, cond);
      MoreUninitTracks(before, after, d);
      assert Met(after, d, i, n);
      var cs :| RunScoped(orelse.body, cs, d) == Fault;
      assert RunLoop(cond, body, orelse, [], cs, d) == Fault;
      assert RunStmt(While(cond, body, orelse), Rounds([], cs), d) == Fault;
    }
  }

  // ----- branches -----

  lemma {:induction false} IfFaults(branches: seq<Branch>, orelse: OptBlock, s: State) returns (i: nat, n: string)
    requires var st := If(branches, orelse);
             && Wf(s) && NoSkippedElse(st) && ArmsSettled(st, NamesOf(s.scopes)) && Open(st)
             && Plainly(st, NamesOf(s.scopes)) && ReadRejected(CheckStmt(st, s))
    ensures ExplainedStmt(If(branches, orelse), s, i, n)
    decreases Size(If(branches, orelse)), 0
  {
    var st, known := If(branches, orelse), NamesOf(s.scopes);
    PredeclareInSucceeds(st, s, known);
    var b, before := IfPredeclares(branches, orelse, s);
    PredeclaredNames(s, before);
    IntroducesMoreInBranches(branches, known, NamesOf(before.scopes));
    assert IntroducesInOpt(orelse, known);
    if orelse.Block? { IntroducesMoreInBlock(orelse.body, known, NamesOf(before.scopes)); }
    i, n := ArmFaults(branches, orelse, before, before.uninit, {}, true);
    forall d | Met(s, d, i, n) ensures Faulty(st, d) {
      PredeclaredIsMet(s, before, d, i, n);
      assert FaultyArm(branches, orelse, d);
      var index: nat, cs :| RunArm(branches, orelse, index, cs, d) == Fault;
      assert RunStmt(st, Arm(index, cs), d) == Fault;
    }
  }

  ghost predicate FaultyArm(branches: seq<Branch>, orelse: OptBlock, d: Store)
    requires d != []
  {
    exists index: nat, cs :: RunArm(branches, orelse, index, cs, d) == Fault
  }

  lemma {:induction false} ArmFaults(branches: seq<Branch>, orelse: OptBlock, s: State, before: set<nat>,
                                     exits: set<nat>, reachable: bool)
    returns (i: nat, n: string)
    requires Wf(s.(uninit := before)) && NoSkippedElseBranches(branches) && NoSkippedElseOpt(orelse)
    requires SettledBranches(branches, NamesOf(s.scopes)) && SettledOpt(orelse, NamesOf(s.scopes))
    requires OpenBranches(branches) && OpenOpt(orelse)
    requires IntroducesInBranches(branches, NamesOf(s.scopes)) && IntroducesInOpt(orelse, NamesOf(s.scopes))
    requires ReadRejected(CheckBranches(branches, orelse, s, before, reachable, exits))
    ensures forall d :: Met(s.(uninit := before), d, i, n) ==> FaultyArm(branches, orelse, d)
    decreases BranchesSize(branches) + OptSize(orelse), 2
  {
    var start := s.(uninit := before);
    if branches == [] {
      assert CheckOpt(orelse, start).Err? && CheckOpt(orelse, start) == CheckScoped(orelse.body, start);
      SettledBlockIsArmsSettled(orelse.body, NamesOf(s.scopes));
      IntroducesMoreInBlock(orelse.body, NamesOf(s.scopes), NamesOf(s.scopes));
      i, n := ScopedFaults(orelse.body, start);
      forall d | Met(start, d, i, n) ensures FaultyArm(branches, orelse, d) {
        var cs :| RunScoped(orelse.body, cs, d) == Fault;
        assert RunArm(branches, orelse, 0, cs, d) == Fault;
      }
    } else if CheckExpr(branches[0].cond, start).Err? {
      i, n := RejectedExprFaults(branches[0].cond, start);
      forall d | Met(start, d, i, n) ensures FaultyArm(branches, orelse, d) {
        assert RunArm(branches, orelse, 0, [], d) == Fault;
      }
    } else if CheckScoped(branches[0].body, start).Err? {
      i, n := FirstArmFaults(branches, orelse, start);
    } else {
      var after := CheckScoped(branches[0].body, start).value;
      ScopedStaysOut(branches[0].body, start);
      OtherUninitIsWf(start, after, before);
      var exits' := exits + if reachable && branches[0].cond != Literal(false) then after.uninit else {};
      i, n := ArmFaults(branches[1..], orelse, after, before, exits', reachable && branches[0].cond != Literal(true));
      forall d | Met(start, d, i, n) ensures FaultyArm(branches, orelse, d) {
        LaterArmFaults(branches, orelse, start, after.(uninit := before), d, i, n);
      }
    }
  }

  lemma LaterArmFaults(branches: seq<Branch>, orelse: OptBlock, start: State, after: State, d: Store, i: nat, n: string)
    requires Wf(start) && branches != [] && branches[0].cond.Reads? && CheckExpr(branches[0].cond, start).Ok?
    requires Met(start, d, i, n) && after.scopes == start.scopes && after.uninit == start.uninit
    requires forall d :: Met(after, d, i, n) ==> FaultyArm(branches[1..], orelse, d)
    ensures FaultyArm(branches, orelse, d)
  {
    CheckedExprCanRun(start, d, branches[0].cond);
    MoreUninitTracks(start, after, d);
    assert Met(after, d, i, n);
    var index: nat, cs :| RunArm(branches[1..], orelse, index, cs, d) == Fault;
    assert RunArm(branches, orelse, index + 1, cs, d) == Fault;
  }

  lemma {:induction false} FirstArmFaults(branches: seq<Branch>, orelse: OptBlock, start: State)
    returns (i: nat, n: string)
    requires Wf(start) && branches != [] && branches[0].cond.Reads? && CheckExpr(branches[0].cond, start).Ok?
    requires NoSkippedElseBlock(branches[0].body) && SettledBlock(branches[0].body, NamesOf(start.scopes))
    requires OpenBlock(branches[0].body) && IntroducesInBlock(branches[0].body, NamesOf(start.scopes))
    requires ReadRejected(CheckScoped(branches[0].body, start))
    ensures forall d :: Met(start, d, i, n) ==> FaultyArm(branches, orelse, d)
    decreases BlockSize(branches[0].body), 2
  {
    var body := branches[0].body;
    SettledBlockIsArmsSettled(body, NamesOf(start.scopes));
    IntroducesMoreInBlock(body, NamesOf(start.scopes), NamesOf(start.scopes));
    i, n := ScopedFaults(body, start);
    forall d | Met(start, d, i, n) ensures FaultyArm(branches, orelse, d) {
      CheckedExprCanRun(start, d, branches[0].cond);
      var cs :| RunScoped(body, cs, d) == Fault;
      assert RunArm(branches, orelse, 0, cs, d) == Fault;
    }
  }

  // ----- whole functions -----

  /** In covered code all of whose parts can be reached, a function that declares no name twice is accepted exactly when
      no run of it reads a variable before it is assigned. */
  lemma AcceptedExactly(parameters: seq<string>, body: seq<Stmt>)
    requires Covered(parameters, body) && OpenBlock(body) && PlainlyBlock(body, AsSet(parameters))
    requires CheckFunction(parameters, body) != Err(Redeclaration)
    ensures CheckFunction(parameters, body).Ok? <==> forall cs :: RunFunction(parameters, body, cs) != Fault
  {
    if CheckFunction(parameters, body).Ok? {
      forall cs ensures RunFunction(parameters, body, cs) != Fault {
        AcceptedFunctionsReadAssigned(parameters, body, cs);
      }
    } else {
      RejectedFunctionsFault(parameters, body);
    }
  }

  lemma RejectedFunctionsFault(parameters: seq<string>, body: seq<Stmt>)
    requires Covered(parameters, body) && OpenBlock(body) && PlainlyBlock(body, AsSet(parameters))
    requires ReadRejected(CheckFunction(parameters, body))
    ensures exists cs :: RunFunction(parameters, body, cs) == Fault
  {
    var start, e := State([map[]], {}, 0), Enter(parameters, [map[]]);
    ParametersDeclared(parameters, start);
    var s := DeclareAll(parameters, start).value;
    BodyIsCovered(parameters, body);
    ParametersAreNotFlagged(parameters, start);
    ParametersAreKnown(parameters, start);
    PlainlyMore(body, AsSet(parameters), NamesOf(s.scopes));
    var i, n := BlockFaults(body, s);
    assert Met(s, e, i, n);
    var cs :| RunBlock(body, cs, e) == Fault;
    assert RunFunction(parameters, body, cs) == Fault;
  }

  lemma {:induction false} ParametersDeclared(parameters: seq<string>, s: State)
    requires s.scopes != []
    ensures DeclareAll(parameters, s).Ok? || DeclareAll(parameters, s) == Err(Redeclaration)
  {
    if parameters != [] && Declare(s, parameters[0]).Ok? {
      ParametersDeclared(parameters[1..], Declare(s, parameters[0]).value);
    }
  }
}
