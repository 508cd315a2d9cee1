/** The flow treats a statement that leaves as if control went on behind it. Taken that way it is exact for every
    body. */
module InitStaying {
  import opened Wrappers
  import opened InitRules
  import opened InitRuns
  import opened InitSoundness
  import opened InitExactness

  /** The statement with every `return` and `raise` a plain evaluation, every `break` and `continue` nothing at all, and
      no loop literally endless. */
  function Staying(st: Stmt): Stmt
    decreases st, 0
  {
    match st
    case Return(value) => Eval(value)
    case Raise(value) => Eval(value)
    case Break => Pass
    case Continue => Pass
    case If(branches, orelse) => If(StayingBranches(branches), StayingOpt(orelse))
    case While(cond, body, orelse) => While(Ending(cond), StayingBlock(body), StayingOpt(orelse))
    case _ => st
  }

  /** A condition that may fail. */
  function Ending(cond: Expr): Expr {
    if cond == Literal(true) then Reads([]) else cond
  }

  function StayingBlock(body: seq<Stmt>): seq<Stmt>
    decreases body, 1
  {
    if body == [] then [] else [Staying(body[0])] + StayingBlock(body[1..])
  }

  function StayingOpt(o: OptBlock): OptBlock
    decreases o, 2
  {
    match o case NoBlock => NoBlock case Block(body) => Block(StayingBlock(body))
  }

  function StayingBranches(branches: seq<Branch>): seq<Branch>
    decreases branches, 1
  {
    if branches == [] then []
    else [Branch(branches[0].cond, StayingBlock(branches[0].body))] + StayingBranches(branches[1..])
  }

  lemma StayingFirst(body: seq<Stmt>)
    requires body != []
    ensures StayingBlock(body) != [] && StayingBlock(body)[0] == Staying(body[0])
    ensures StayingBlock(body)[1..] == StayingBlock(body[1..])
  {
  }

  lemma StayingBranchesFirst(branches: seq<Branch>)
    requires branches != []
    ensures StayingBranches(branches) != []
    ensures StayingBranches(branches)[0] == Branch(branches[0].cond, StayingBlock(branches[0].body))
    ensures StayingBranches(branches)[1..] == StayingBranches(branches[1..])
  {
  }

  // ----- the check does not tell them apart -----

  lemma {:induction false} SamePredeclaredIn(st: Stmt, s: State)
    requires s.scopes != []
    ensures PredeclareIn(Staying(st), s) == PredeclareIn(st, s)
    decreases st, 0
  {
    match st
    case If(branches, orelse) =>
      SamePredeclaredBranches(branches, s);
      var b := PredeclareBranches(branches, s);
      if b.Ok? { SamePredeclaredOpt(orelse, b.value); }
    case While(_, body, _) => SamePredeclared(body, s);
    case _ =>
  }

  lemma {:induction false} SamePredeclared(body: seq<Stmt>, s: State)
    requires s.scopes != []
    ensures Predeclare(StayingBlock(body), s) == Predeclare(body, s)
    decreases body, 1
  {
    if body != [] {
      StayingFirst(body);
      SamePredeclaredIn(body[0], s);
      var first := PredeclareIn(body[0], s);
      if first.Ok? { SamePredeclared(body[1..], first.value); }
    }
  }

  lemma {:induction false} SamePredeclaredOpt(o: OptBlock, s: State)
    requires s.scopes != []
    ensures PredeclareOpt(StayingOpt(o), s) == PredeclareOpt(o, s)
    decreases o, 2
  {
    if o.Block? { SamePredeclared(o.body, s); }
  }

  lemma {:induction false} SamePredeclaredBranches(branches: seq<Branch>, s: State)
    requires s.scopes != []
    ensures PredeclareBranches(StayingBranches(branches), s) == PredeclareBranches(branches, s)
    decreases branches, 1
  {
    if branches != [] {
      StayingBranchesFirst(branches);
      SamePredeclared(branches[0].body, s);
      var first := Predeclare(branches[0].body, s);
      if first.Ok? { SamePredeclaredBranches(branches[1..], first.value); }
    }
  }

  lemma {:induction false} SameChecked(st: Stmt, s: State)
    requires s.scopes != []
    ensures CheckStmt(Staying(st), s) == CheckStmt(st, s)
    decreases Size(st), 0
  {
    match st
    case If(branches, orelse) => SameCheckedIf(branches, orelse, s);
    case While(cond, body, orelse) => SameCheckedWhile(cond, body, orelse, s);
    case _ =>
  }

  lemma {:induction false} SameCheckedIf(branches: seq<Branch>, orelse: OptBlock, s: State)
    requires s.scopes != []
    ensures CheckStmt(If(StayingBranches(branches), StayingOpt(orelse)), s) == CheckStmt(If(branches, orelse), s)
    decreases BranchesSize(branches) + OptSize(orelse), 3
  {
    SamePredeclaredBranches(branches, s);
    var b := PredeclareBranches(branches, s);
    if b.Ok? {
      SamePredeclaredOpt(orelse, b.value);
      var before := PredeclareOpt(orelse, b.value);
      if before.Ok? { SameCheckedBranches(branches, orelse, before.value, before.value.uninit, true, {}); }
    }
  }

  lemma {:induction false} SameCheckedWhile(cond: Expr, body: seq<Stmt>, orelse: OptBlock, s: State)
    requires s.scopes != []
    ensures CheckStmt(While(Ending(cond), StayingBlock(body), StayingOpt(orelse)), s)
      == CheckStmt(While(cond, body, orelse), s)
    decreases BlockSize(body) + OptSize(orelse), 3
  {
    SamePredeclared(body, s);
    var before := Predeclare(body, s);
    if before.Ok? {
      assert CheckExpr(Ending(cond), before.value) == CheckExpr(cond, before.value);
      SameCheckedScoped(body, before.value);
      var after := CheckScoped(body, before.value);
      if after.Ok? { SameCheckedOpt(orelse, after.value.(uninit := before.value.uninit)); }
    }
  }

  lemma {:induction false} SameCheckedBlock(body: seq<Stmt>, s: State)
    requires s.scopes != []
    ensures CheckBlock(StayingBlock(body), s) == CheckBlock(body, s)
    decreases BlockSize(body), 0
  {
    if body != [] {
      StayingFirst(body);
      SameChecked(body[0], s);
      var first := CheckStmt(body[0], s);
      if first.Ok? { SameCheckedBlock(body[1..], first.value); }
    }
  }

  lemma {:induction false} SameCheckedScoped(body: seq<Stmt>, s: State)
    requires s.scopes != []
    ensures CheckScoped(StayingBlock(body), s) == CheckScoped(body, s)
    decreases BlockSize(body), 1
  {
    SameCheckedBlock(body, Push(s));
  }

  lemma {:induction false} SameCheckedOpt(o: OptBlock, s: State)
    requires s.scopes != []
    ensures CheckOpt(StayingOpt(o), s) == CheckOpt(o, s)
    decreases OptSize(o), 1
  {
    if o.Block? { SameCheckedScoped(o.body, s); }
  }

  lemma {:induction false} SameCheckedBranches(branches: seq<Branch>, orelse: OptBlock, s: State, before: set<nat>,
                                               reachable: bool, exits: set<nat>)
    requires s.scopes != []
    ensures CheckBranches(StayingBranches(branches), StayingOpt(orelse), s, before, reachable, exits)
         == CheckBranches(branches, orelse, s, before, reachable, exits)
    decreases BranchesSize(branches) + OptSize(orelse), 2
  {
    var start := s.(uninit := before);
    if branches == [] {
      SameCheckedOpt(orelse, start);
    } else {
      StayingBranchesFirst(branches);
      var cond := branches[0].cond;
      SameCheckedScoped(branches[0].body, start);
      var after := CheckScoped(branches[0].body, start);
      if after.Ok? {
        SameCheckedBranches(branches[1..], orelse, after.value, before, reachable && cond != Literal(true),
                            exits + if reachable && cond != Literal(false) then after.value.uninit else {});
      }
    }
  }

  // ----- nothing leaves, nothing is skipped -----

  /** The same names are introduced, nothing leaves early, and no `else` is skipped. */
  lemma {:induction false} StayingStays(st: Stmt)
    ensures Introduced(Staying(st)) == Introduced(st) && Declared(Staying(st)) == Declared(st)
    ensures StmtFallsThrough(Staying(st)) && !Breaks(Staying(st)) && NoSkippedElse(Staying(st))
    decreases st, 0
  {
    match st
    case If(branches, orelse) => StayingBranchesStay(branches); StayingOptStays(orelse);
    case While(_, body, orelse) => StayingBlockStays(body); StayingOptStays(orelse);
    case _ =>
  }

  lemma {:induction false} StayingBlockStays(body: seq<Stmt>)
    ensures IntroducedInBlock(StayingBlock(body)) == IntroducedInBlock(body)
    ensures FallsThrough(StayingBlock(body)) && !BlockBreaks(StayingBlock(body)) &&
      NoSkippedElseBlock(StayingBlock(body))
    decreases body, 1
  {
    if body != [] {
      StayingFirst(body);
      StayingStays(body[0]);
      StayingBlockStays(body[1..]);
    }
  }

  lemma {:induction false} StayingOptStays(o: OptBlock)
    ensures IntroducedInOpt(StayingOpt(o)) == IntroducedInOpt(o)
    ensures OptFallsThrough(StayingOpt(o)) && !OptBreaks(StayingOpt(o)) && NoSkippedElseOpt(StayingOpt(o))
    decreases o, 2
  {
    if o.Block? { StayingBlockStays(o.body); }
  }

  lemma {:induction false} StayingBranchesStay(branches: seq<Branch>)
    ensures IntroducedInBranches(StayingBranches(branches)) == IntroducedInBranches(branches)
    ensures BranchesFallThrough(StayingBranches(branches)) && !BranchesBreak(StayingBranches(branches))
    ensures NoSkippedElseBranches(StayingBranches(branches))
    decreases branches, 1
  {
    if branches != [] {
      StayingBranchesFirst(branches);
      StayingBlockStays(branches[0].body);
      StayingBranchesStay(branches[1..]);
    }
  }

  lemma {:induction false} StayingIsSettled(st: Stmt, known: set<string>)
    ensures Settled(Staying(st), known) <==> Settled(st, known)
    decreases st, 0
  {
    StayingStays(st);
    match st
    case If(branches, orelse) => StayingBranchesAreSettled(branches, known); StayingOptIsSettled(orelse, known);
    case While(_, body, orelse) => StayingBlockIsSettled(body, known); StayingOptIsSettled(orelse, known);
    case _ =>
  }

  lemma {:induction false} StayingBlockIsSettled(body: seq<Stmt>, known: set<string>)
    ensures SettledBlock(StayingBlock(body), known) <==> SettledBlock(body, known)
    decreases body, 1
  {
    if body != [] {
      StayingFirst(body);
      StayingStays(body[0]);
      StayingIsSettled(body[0], known);
      StayingBlockIsSettled(body[1..], known + Declared(body[0]));
    }
  }

  lemma {:induction false} StayingOptIsSettled(o: OptBlock, known: set<string>)
    ensures SettledOpt(StayingOpt(o), known) <==> SettledOpt(o, known)
    decreases o, 2
  {
    if o.Block? { StayingBlockIsSettled(o.body, known); }
  }

  lemma {:induction false} StayingBranchesAreSettled(branches: seq<Branch>, known: set<string>)
    ensures SettledBranches(StayingBranches(branches), known) <==> SettledBranches(branches, known)
    decreases branches, 1
  {
    if branches != [] {
      StayingBranchesFirst(branches);
      StayingBlockIsSettled(branches[0].body, known);
      StayingBranchesAreSettled(branches[1..], known);
    }
  }

  lemma {:induction false} StayingArmsAreSettled(st: Stmt, known: set<string>)
    ensures ArmsSettled(Staying(st), known) <==> ArmsSettled(st, known)
    decreases st, 0
  {
    StayingStays(st);
    var all := known + Introduced(st);
    match st
    case If(branches, orelse) => StayingBranchesAreSettled(branches, all); StayingOptIsSettled(orelse, all);
    case While(_, body, orelse) =>
      StayingBlockIsSettled(body, all);
      if orelse.Block? { StayingBlockArmsAreSettled(orelse.body, all); }
    case _ =>
  }

  lemma {:induction false} StayingBlockArmsAreSettled(body: seq<Stmt>, known: set<string>)
    ensures ArmsSettledBlock(StayingBlock(body), known) <==> ArmsSettledBlock(body, known)
    decreases body, 1
  {
    if body != [] {
      StayingFirst(body);
      StayingStays(body[0]);
      StayingArmsAreSettled(body[0], known);
      StayingBlockArmsAreSettled(body[1..], known + Declared(body[0]) + Introduced(body[0]));
    }
  }

  // ----- whole functions -----

  lemma StayingBody(parameters: seq<string>, body: seq<Stmt>)
    requires CheckFunction(parameters, body).Ok? && ArmsSettledBlock(body, AsSet(parameters))
    ensures CheckFunction(parameters, StayingBlock(body)) == CheckFunction(parameters, body)
    ensures Covered(parameters, StayingBlock(body)) && FallsThrough(StayingBlock(body))
  {
    SameCheckedBlock(body, DeclareAll(parameters, State([map[]], {}, 0)).value);
    StayingBlockStays(body);
    StayingBlockArmsAreSettled(body, AsSet(parameters));
  }

  /** After any accepted body, the checker flags a variable exactly if, were control to go on behind every statement
      that leaves, some run would end with it unassigned. */
  lemma FlaggedAsIfStaying(parameters: seq<string>, body: seq<Stmt>, i: nat, n: string)
    requires CheckFunction(parameters, body).Ok? && ArmsSettledBlock(body, AsSet(parameters))
    requires var t := CheckFunction(parameters, body).value; i < |t.scopes| && n in t.scopes[i]
    ensures Flagged(CheckFunction(parameters, body).value, i, n) <==>
      exists cs :: RunFunction(parameters, StayingBlock(body), cs).Normal? &&
        Unset(RunFunction(parameters, StayingBlock(body), cs).store, i, n)
  {
    StayingBody(parameters, body);
    FlaggedExactly(parameters, StayingBlock(body), i, n);
  }

  /** A read after any accepted body is accepted exactly if, were control to go on behind every statement that leaves,
      no run would read the name unassigned there. */
  lemma ReadAcceptedAsIfStaying(parameters: seq<string>, body: seq<Stmt>, name: string)
    requires CheckFunction(parameters, body).Ok? && ArmsSettledBlock(body, AsSet(parameters))
    ensures var read := Eval(Reads([name]));
      CheckFunction(parameters, body + [read]).Ok? <==>
        forall cs :: RunFunction(parameters, StayingBlock(body) + [read], cs) != Fault
  {
    var read := Eval(Reads([name]));
    var s := DeclareAll(parameters, State([map[]], {}, 0)).value;
    StayingBody(parameters, body);
    ReadAcceptedExactly(parameters, StayingBlock(body), name);
    CheckBlockOfAppended(body, [read], s);
    CheckBlockOfAppended(StayingBlock(body), [read], s);
  }
}
