/** No run of an accepted function reads a variable before it is assigned. */
module InitSoundness {
  import opened Wrappers
  import opened InitRules
  import opened InitRuns

  // ----- states -----

  ghost predicate Holds(scopes: Scopes, i: int, n: string, x: int) {
    0 <= i < |scopes| && n in scopes[i] && scopes[i][n] == x
  }

  /** Binding identities are distinct and already given out. */
  ghost predicate Wf(s: State) {
    && s.scopes != []
    && (forall i, n, x :: Holds(s.scopes, i, n, x) ==> x < s.next)
    && (forall i, n, j, m, x :: Holds(s.scopes, i, n, x) && Holds(s.scopes, j, m, x) ==> i == j && n == m)
    && (forall x <- s.uninit :: x < s.next)
  }

  /** The first `k` scopes at run time have the variables the checker knows; names that are only assigned may be
      missing from the function's own scope until they are. */
  ghost predicate FitsBelow(scopes: Scopes, d: Store, k: nat) {
    && k <= |scopes| == |d|
    && (forall i :: 0 < i < k ==> d[i].Keys == scopes[i].Keys)
    && (k > 0 ==> d[0].Keys <= scopes[0].Keys)
  }

  predicate Unset(d: Store, i: int, n: string) {
    0 <= i < |d| && (n in d[i] ==> !d[i][n])
  }

  /** Every variable that has not been assigned is known to be possibly uninitialized. */
  ghost predicate Tracks(s: State, d: Store) {
    && s.scopes != [] && FitsBelow(s.scopes, d, |s.scopes|)
    && (forall i, n, x :: Holds(s.scopes, i, n, x) && Unset(d, i, n) ==> x in s.uninit)
  }

  // ----- reads -----

  lemma TrackedDepth(s: State, d: Store, name: string)
    requires Wf(s) && Tracks(s, d) && Resolves(s.scopes, name)
    ensures var k := Depth(s.scopes, name);
      Depth(d, name) == k || (k == 1 && Depth(d, name) == 0)
  {
    var k, j := Depth(s.scopes, name), Depth(d, name);
    assert name in s.scopes[k - 1];
    assert j > 0 ==> name in d[j - 1];
    assert k > 1 ==> name in d[k - 1];
  }

  lemma UnresolvedDepth(s: State, d: Store, name: string)
    requires Wf(s) && Tracks(s, d) && !Resolves(s.scopes, name)
    ensures Depth(d, name) == 0
  {
    assert forall i :: 0 <= i < |d| ==> d[i].Keys <= s.scopes[i].Keys;
  }

  lemma CheckedNameIsAssigned(s: State, d: Store, name: string)
    requires Wf(s) && Tracks(s, d) && CheckName(name, s).Ok?
    ensures Assigned(name, d)
  {
    TrackedDepth(s, d, name);
    var k := Depth(s.scopes, name);
    assert Holds(s.scopes, k - 1, name, Owner(s.scopes, name));
    assert !Unset(d, k - 1, name);
  }

  lemma {:induction false} CheckedNamesAreAssigned(s: State, d: Store, names: seq<string>)
    requires Wf(s) && Tracks(s, d) && CheckNames(names, s).Ok?
    ensures forall n <- names :: Assigned(n, d)
  {
    if names != [] {
      CheckedNameIsAssigned(s, d, names[0]);
      CheckedNamesAreAssigned(s, d, names[1..]);
      assert forall n <- names :: n == names[0] || n in names[1..];
    }
  }

  lemma CheckedExprCanRun(s: State, d: Store, e: Expr)
    requires Wf(s) && Tracks(s, d) && CheckExpr(e, s).Ok?
    ensures CanRead(e, d)
  {
    if e.Reads? { CheckedNamesAreAssigned(s, d, e.names); }
  }

  // ----- bindings -----

  lemma BindHolds(s: State, i: nat, name: string)
    requires i < |s.scopes| && name !in s.scopes[i]
    ensures forall j, m, x :: Holds(Bind(s, i, name).scopes, j, m, x) <==>
      Holds(s.scopes, j, m, x) || (j == i && m == name && x == s.next)
  {
  }

  lemma BoundIsWf(s: State, i: nat, name: string)
    requires Wf(s) && i < |s.scopes| && name !in s.scopes[i]
    ensures Wf(Bind(s, i, name)) && Wf(Bind(s, i, name).(uninit := s.uninit + {s.next}))
  {
    BindHolds(s, i, name);
  }

  lemma BoundIsTracked(s: State, d: Store, i: nat, name: string, b: bool)
    requires Wf(s) && Tracks(s, d) && i < |s.scopes| && name !in s.scopes[i]
    ensures var after := Bind(s, i, name);
      Tracks(if b then after else after.(uninit := after.uninit + {s.next}), d[i := d[i][name := b]])
  {
    BindHolds(s, i, name);
    var after := if b then Bind(s, i, name) else Bind(s, i, name).(uninit := s.uninit + {s.next});
    var d' := d[i := d[i][name := b]];
    assert FitsBelow(after.scopes, d', |after.scopes|);
    forall j, m, x | Holds(after.scopes, j, m, x) && Unset(d', j, m) ensures x in after.uninit {
      assert Holds(s.scopes, j, m, x) ==> Unset(d, j, m);
    }
  }

  lemma AssignedIsTracked(s: State, d: Store, name: string)
    requires Wf(s) && Tracks(s, d) && Resolves(s.scopes, name)
    ensures Wf(s.(uninit := s.uninit - {Owner(s.scopes, name)}))
    ensures Tracks(s.(uninit := s.uninit - {Owner(s.scopes, name)}), Set(d, name))
  {
    TrackedDepth(s, d, name);
    var k, owner := Depth(s.scopes, name), Owner(s.scopes, name);
    var after, d' := s.(uninit := s.uninit - {owner}), Set(d, name);
    assert d' == d[k - 1 := d[k - 1][name := true]];
    assert Holds(s.scopes, k - 1, name, owner);
    forall j, m, x | Holds(after.scopes, j, m, x) && Unset(d', j, m) ensures x in after.uninit {
      assert Holds(s.scopes, j, m, x) && Unset(d, j, m);
      assert x == owner ==> j + 1 == k && m == name;
    }
  }

  lemma ImplicitIsTracked(s: State, d: Store, name: string)
    requires Wf(s) && Tracks(s, d) && !Resolves(s.scopes, name)
    ensures name !in s.scopes[0]
    ensures var after := Bind(s, 0, name).(uninit := s.uninit - {s.next}); Wf(after) && Tracks(after, Set(d, name))
  {
    UnresolvedDepth(s, d, name);
    BoundIsTracked(s, d, 0, name, true);
    BoundIsWf(s, 0, name);
    assert s.uninit - {s.next} == s.uninit;
  }

  // ----- names -----

  /** Every name that resolves. */
  function NamesOf(scopes: Scopes): set<string> {
    if scopes == [] then {} else NamesOf(scopes[..|scopes| - 1]) + scopes[|scopes| - 1].Keys
  }

  lemma {:induction false} NamesResolve(scopes: Scopes, n: string)
    ensures n in NamesOf(scopes) <==> Resolves(scopes, n)
    decreases |scopes|
  {
    if scopes != [] && n !in scopes[|scopes| - 1] { NamesResolve(scopes[..|scopes| - 1], n); }
  }

  lemma {:induction false} NamesAreBound(scopes: Scopes, n: string)
    ensures n in NamesOf(scopes) <==> exists i :: 0 <= i < |scopes| && n in scopes[i]
    decreases |scopes|
  {
    if scopes != [] {
      var last := |scopes| - 1;
      NamesAreBound(scopes[..last], n);
      if i :| 0 <= i < |scopes| && n in scopes[i] {
        assert i < last ==> n in scopes[..last][i];
      }
    }
  }

  lemma MoreNames(a: Scopes, b: Scopes)
    requires |a| == |b| && forall i, n :: 0 <= i < |a| && n in a[i] ==> n in b[i]
    ensures NamesOf(a) <= NamesOf(b)
  {
    forall n <- NamesOf(a) ensures n in NamesOf(b) {
      NamesAreBound(a, n);
      NamesAreBound(b, n);
    }
  }

  /** The names a statement introduces ahead of itself: those assigned in it, except in the `else` of loops. */
  function Introduced(st: Stmt): set<string>
    decreases st, 0
  {
    match st
    case Assign(name, _) => {name}
    case If(branches, orelse) => IntroducedInBranches(branches) + IntroducedInOpt(orelse)
    case While(_, body, _) => IntroducedInBlock(body)
    case _ => {}
  }

  function IntroducedInBlock(body: seq<Stmt>): set<string>
    decreases body, 1
  {
    if body == [] then {} else Introduced(body[0]) + IntroducedInBlock(body[1..])
  }

  function IntroducedInOpt(o: OptBlock): set<string>
    decreases o, 2
  {
    match o case NoBlock => {} case Block(body) => IntroducedInBlock(body)
  }

  function IntroducedInBranches(branches: seq<Branch>): set<string>
    decreases branches, 1
  {
    if branches == [] then {} else IntroducedInBlock(branches[0].body) + IntroducedInBranches(branches[1..])
  }

  function Declared(st: Stmt): set<string> {
    match st case VarUninit(name) => {name} case VarInit(name, _) => {name} case _ => {}
  }

  // ----- which loop `else` clauses are covered -----

  /** A `break` that leaves the loop around the statement. */
  predicate Breaks(st: Stmt)
    decreases st, 0
  {
    match st
    case Break => true
    case If(branches, orelse) => BranchesBreak(branches) || OptBreaks(orelse)
    case While(_, _, orelse) => OptBreaks(orelse)
    case _ => false
  }

  predicate BlockBreaks(body: seq<Stmt>)
    decreases body, 1
  {
    body != [] && (Breaks(body[0]) || BlockBreaks(body[1..]))
  }

  predicate OptBreaks(o: OptBlock)
    decreases o, 2
  {
    o.Block? && BlockBreaks(o.body)
  }

  predicate BranchesBreak(branches: seq<Branch>)
    decreases branches, 1
  {
    branches != [] && (BlockBreaks(branches[0].body) || BranchesBreak(branches[1..]))
  }

  /** No `break` skips a loop `else` that assigns a name from outside it. */
  predicate NoSkippedElse(st: Stmt)
    decreases st, 0
  {
    match st
    case If(branches, orelse) => NoSkippedElseBranches(branches) && NoSkippedElseOpt(orelse)
    case While(_, body, orelse) =>
      NoSkippedElseBlock(body) && NoSkippedElseOpt(orelse) && (SettledOpt(orelse, {}) || !BlockBreaks(body))
    case _ => true
  }

  predicate NoSkippedElseBlock(body: seq<Stmt>)
    decreases body, 1
  {
    body != [] ==> NoSkippedElse(body[0]) && NoSkippedElseBlock(body[1..])
  }

  predicate NoSkippedElseOpt(o: OptBlock)
    decreases o, 2
  {
    o.Block? ==> NoSkippedElseBlock(o.body)
  }

  predicate NoSkippedElseBranches(branches: seq<Branch>)
    decreases branches, 1
  {
    branches != [] ==> NoSkippedElseBlock(branches[0].body) && NoSkippedElseBranches(branches[1..])
  }

  /** Nothing outside the statement gets a name from it, if the names in `known` resolve. */
  predicate Settled(st: Stmt, known: set<string>)
    decreases st, 0
  {
    match st
    case Assign(name, _) => name in known
    case If(branches, orelse) =>
      Introduced(st) <= known && SettledBranches(branches, known) && SettledOpt(orelse, known)
    case While(_, body, orelse) => Introduced(st) <= known && SettledBlock(body, known) && SettledOpt(orelse, known)
    case _ => true
  }

  predicate SettledBlock(body: seq<Stmt>, known: set<string>)
    decreases body, 1
  {
    body != [] ==> Settled(body[0], known) && SettledBlock(body[1..], known + Declared(body[0]))
  }

  predicate SettledOpt(o: OptBlock, known: set<string>)
    decreases o, 2
  {
    o.Block? ==> SettledBlock(o.body, known)
  }

  predicate SettledBranches(branches: seq<Branch>, known: set<string>)
    decreases branches, 1
  {
    branches != [] ==> SettledBlock(branches[0].body, known) && SettledBranches(branches[1..], known)
  }

  /** In the parts of the statement that need not run, the `else` of a loop assigns only names known by then. */
  predicate ArmsSettled(st: Stmt, known: set<string>)
    decreases st, 0
  {
    match st
    case If(branches, orelse) =>
      SettledBranches(branches, known + Introduced(st)) && SettledOpt(orelse, known + Introduced(st))
    case While(_, body, orelse) =>
      SettledBlock(body, known + Introduced(st)) && ArmsSettledOpt(orelse, known + Introduced(st))
    case _ => true
  }

  predicate ArmsSettledBlock(body: seq<Stmt>, known: set<string>)
    decreases body, 1
  {
    body != [] ==> ArmsSettled(body[0], known) && ArmsSettledBlock(body[1..],
                                                                   known + Declared(body[0]) + Introduced(body[0]))
  }

  predicate ArmsSettledOpt(o: OptBlock, known: set<string>)
    decreases o, 2
  {
    o.Block? ==> ArmsSettledBlock(o.body, known)
  }

  lemma {:induction false} SettledMore(st: Stmt, a: set<string>, b: set<string>)
    requires Settled(st, a) && a <= b
    ensures Settled(st, b)
    decreases st, 0
  {
    match st
    case If(branches, orelse) => BranchesSettledMore(branches, a, b); OptSettledMore(orelse, a, b);
    case While(_, body, orelse) => BlockSettledMore(body, a, b); OptSettledMore(orelse, a, b);
    case _ =>
  }

  lemma {:induction false} BlockSettledMore(body: seq<Stmt>, a: set<string>, b: set<string>)
    requires SettledBlock(body, a) && a <= b
    ensures SettledBlock(body, b)
    decreases body, 1
  {
    if body != [] {
      SettledMore(body[0], a, b);
      BlockSettledMore(body[1..], a + Declared(body[0]), b + Declared(body[0]));
    }
  }

  lemma {:induction false} OptSettledMore(o: OptBlock, a: set<string>, b: set<string>)
    requires SettledOpt(o, a) && a <= b
    ensures SettledOpt(o, b)
    decreases o, 2
  {
    if o.Block? { BlockSettledMore(o.body, a, b); }
  }

  lemma {:induction false} BranchesSettledMore(branches: seq<Branch>, a: set<string>, b: set<string>)
    requires SettledBranches(branches, a) && a <= b
    ensures SettledBranches(branches, b)
    decreases branches, 1
  {
    if branches != [] { BlockSettledMore(branches[0].body, a, b); BranchesSettledMore(branches[1..], a, b); }
  }

  lemma {:induction false} ArmsSettledMore(st: Stmt, a: set<string>, b: set<string>)
    requires ArmsSettled(st, a) && a <= b
    ensures ArmsSettled(st, b)
    decreases st, 0
  {
    match st
    case If(branches, orelse) =>
      BranchesSettledMore(branches, a + Introduced(st), b + Introduced(st));
      OptSettledMore(orelse, a + Introduced(st), b + Introduced(st));
    case While(_, body, orelse) =>
      BlockSettledMore(body, a + Introduced(st), b + Introduced(st));
      if orelse.Block? { BlockArmsSettledMore(orelse.body, a + Introduced(st), b + Introduced(st)); }
    case _ =>
  }

  lemma {:induction false} BlockArmsSettledMore(body: seq<Stmt>, a: set<string>, b: set<string>)
    requires ArmsSettledBlock(body, a) && a <= b
    ensures ArmsSettledBlock(body, b)
    decreases body, 1
  {
    if body != [] {
      ArmsSettledMore(body[0], a, b);
      BlockArmsSettledMore(body[1..], a + Declared(body[0]) + Introduced(body[0]),
                           b + Declared(body[0]) + Introduced(body[0]));
    }
  }

  lemma {:induction false} SettledIsArmsSettled(st: Stmt, known: set<string>)
    requires Settled(st, known)
    ensures ArmsSettled(st, known)
    decreases st, 0
  {
    if st.If? || st.While? { assert known + Introduced(st) == known; }
    if st.While? && st.orelse.Block? { SettledBlockIsArmsSettled(st.orelse.body, known); }
  }

  lemma {:induction false} SettledBlockIsArmsSettled(body: seq<Stmt>, known: set<string>)
    requires SettledBlock(body, known)
    ensures ArmsSettledBlock(body, known)
    decreases body, 1
  {
    if body != [] {
      SettledIsArmsSettled(body[0], known);
      SettledBlockIsArmsSettled(body[1..], known + Declared(body[0]));
      BlockArmsSettledMore(body[1..], known + Declared(body[0]), known + Declared(body[0]) + Introduced(body[0]));
    }
  }

  // ----- functions without loop `else` -----

  predicate NoLoopElse(st: Stmt)
    decreases st, 0
  {
    match st
    case If(branches, orelse) => NoLoopElseBranches(branches) && NoLoopElseOpt(orelse)
    case While(_, body, orelse) => NoLoopElseBlock(body) && orelse.NoBlock?
    case _ => true
  }

  predicate NoLoopElseBlock(body: seq<Stmt>)
    decreases body, 1
  {
    body != [] ==> NoLoopElse(body[0]) && NoLoopElseBlock(body[1..])
  }

  predicate NoLoopElseOpt(o: OptBlock)
    decreases o, 2
  {
    o.Block? ==> NoLoopElseBlock(o.body)
  }

  predicate NoLoopElseBranches(branches: seq<Branch>)
    decreases branches, 1
  {
    branches != [] ==> NoLoopElseBlock(branches[0].body) && NoLoopElseBranches(branches[1..])
  }

  lemma {:induction false} NoElseIsSettled(st: Stmt, known: set<string>)
    requires NoLoopElse(st)
    ensures NoSkippedElse(st) && ArmsSettled(st, known) && (Introduced(st) <= known ==> Settled(st, known))
    decreases st, 0
  {
    match st
    case If(branches, orelse) =>
      NoElseBranchesAreSettled(branches, known + Introduced(st));
      if orelse.Block? { NoElseBlockIsSettled(orelse.body, known + Introduced(st)); }
      if Introduced(st) <= known { assert known + Introduced(st) == known; }
    case While(_, body, _) =>
      NoElseBlockIsSettled(body, known + Introduced(st));
      if Introduced(st) <= known { assert known + Introduced(st) == known; }
    case _ =>
  }

  /** Functions without loop `else` are covered. */
  lemma {:induction false} NoElseBlockIsSettled(body: seq<Stmt>, known: set<string>)
    requires NoLoopElseBlock(body)
    ensures NoSkippedElseBlock(body) && ArmsSettledBlock(body, known) &&
      (IntroducedInBlock(body) <= known ==> SettledBlock(body, known))
    decreases body, 1
  {
    if body != [] {
      NoElseIsSettled(body[0], known);
      NoElseBlockIsSettled(body[1..], known + Declared(body[0]) + Introduced(body[0]));
      if IntroducedInBlock(body) <= known { NoElseBlockIsSettled(body[1..], known + Declared(body[0])); }
    }
  }

  lemma {:induction false} NoElseBranchesAreSettled(branches: seq<Branch>, known: set<string>)
    requires NoLoopElseBranches(branches)
    ensures NoSkippedElseBranches(branches) &&
      (IntroducedInBranches(branches) <= known ==> SettledBranches(branches, known))
    decreases branches, 1
  {
    if branches != [] {
      NoElseBlockIsSettled(branches[0].body, known);
      NoElseBranchesAreSettled(branches[1..], known);
    }
  }

  // ----- names introduced in branches -----

  /** Predeclaring adds names to the function's own scope, all possibly uninitialized. */
  ghost predicate Predeclared(s: State, t: State) {
    && |t.scopes| == |s.scopes| > 0 && s.next <= t.next && s.uninit <= t.uninit
    && (forall x <- t.uninit :: x in s.uninit || x >= s.next)
    && (forall i :: 0 < i < |s.scopes| ==> t.scopes[i] == s.scopes[i])
    && (forall n <- s.scopes[0] :: n in t.scopes[0] && t.scopes[0][n] == s.scopes[0][n])
    && (forall n <- t.scopes[0] :: n in s.scopes[0] || t.scopes[0][n] in t.uninit)
  }

  lemma PredeclaredKeepsTrack(s: State, t: State, d: Store)
    requires Wf(s) && Tracks(s, d) && Predeclared(s, t)
    ensures Tracks(t, d)
  {
    forall i, n, x | Holds(t.scopes, i, n, x) && Unset(d, i, n) ensures x in t.uninit {
      assert Holds(s.scopes, i, n, x) || (i == 0 && n !in s.scopes[0]);
    }
  }

  lemma PredeclaredNames(s: State, t: State)
    requires Predeclared(s, t)
    ensures NamesOf(s.scopes) <= NamesOf(t.scopes)
  {
    MoreNames(s.scopes, t.scopes);
  }

  lemma {:induction false} PredeclareResolvesStmt(st: Stmt, s: State)
    requires Wf(s) && PredeclareIn(st, s).Ok?
    ensures var t := PredeclareIn(st, s).value; Wf(t) && Predeclared(s, t) && Introduced(st) <= NamesOf(t.scopes)
    decreases st, 0
  {
    match st
    case Assign(name, value) =>
      var t := PredeclareIn(st, s).value;
      if !Resolves(s.scopes, name) {
        BoundIsWf(s, 0, name);
        assert name in t.scopes[0];
        NamesAreBound(t.scopes, name);
      } else {
        NamesResolve(s.scopes, name);
      }
    case If(branches, orelse) =>
      PredeclareResolvesBranches(branches, s);
      var b := PredeclareBranches(branches, s).value;
      PredeclareResolvesOpt(orelse, b);
      PredeclaredNames(b, PredeclareIn(st, s).value);
    case While(_, body, _) => PredeclareResolves(body, s);
    case _ =>
  }

  /** Once the names a block introduces are predeclared, all of them resolve. */
  lemma {:induction false} PredeclareResolves(body: seq<Stmt>, s: State)
    requires Wf(s) && Predeclare(body, s).Ok?
    ensures var t := Predeclare(body, s).value;
      Wf(t) && Predeclared(s, t) && IntroducedInBlock(body) <= NamesOf(t.scopes)
    decreases body, 1
  {
    if body != [] {
      PredeclareResolvesStmt(body[0], s);
      var first, t := PredeclareIn(body[0], s).value, Predeclare(body, s).value;
      PredeclareResolves(body[1..], first);
      PredeclaredNames(first, t);
    }
  }

  lemma {:induction false} PredeclareResolvesOpt(o: OptBlock, s: State)
    requires Wf(s) && PredeclareOpt(o, s).Ok?
    ensures var t := PredeclareOpt(o, s).value; Wf(t) && Predeclared(s, t) && IntroducedInOpt(o) <= NamesOf(t.scopes)
    decreases o, 2
  {
    if o.Block? { PredeclareResolves(o.body, s); }
  }

  lemma {:induction false} PredeclareResolvesBranches(branches: seq<Branch>, s: State)
    requires Wf(s) && PredeclareBranches(branches, s).Ok?
    ensures var t := PredeclareBranches(branches, s).value;
      Wf(t) && Predeclared(s, t) && IntroducedInBranches(branches) <= NamesOf(t.scopes)
    decreases branches, 1
  {
    if branches != [] {
      PredeclareResolves(branches[0].body, s);
      var first, t := Predeclare(branches[0].body, s).value, PredeclareBranches(branches, s).value;
      PredeclareResolvesBranches(branches[1..], first);
      PredeclaredNames(first, t);
    }
  }

  /** The state in which the arms of an `if` are checked: all names introduced in them resolve, so the arms are
      settled. */
  lemma IfPredeclares(branches: seq<Branch>, orelse: OptBlock, s: State) returns (b: State, before: State)
    requires Wf(s) && ArmsSettled(If(branches, orelse), NamesOf(s.scopes))
    requires PredeclareBranches(branches, s).Ok? && PredeclareOpt(orelse, PredeclareBranches(branches, s).value).Ok?
    ensures PredeclareBranches(branches, s) == Ok(b) && PredeclareOpt(orelse, b) == Ok(before)
    ensures Wf(b) && Wf(before) && Predeclared(s, b) && Predeclared(b, before) && Predeclared(s, before)
    ensures NamesOf(s.scopes) + Introduced(If(branches, orelse)) <= NamesOf(before.scopes)
    ensures SettledBranches(branches, NamesOf(before.scopes)) && SettledOpt(orelse, NamesOf(before.scopes))
  {
    var st := If(branches, orelse);
    b := PredeclareBranches(branches, s).value;
    before := PredeclareOpt(orelse, b).value;
    PredeclareResolvesBranches(branches, s);
    PredeclareResolvesOpt(orelse, b);
    PredeclaredNames(s, b);
    PredeclaredNames(b, before);
    BranchesSettledMore(branches, NamesOf(s.scopes) + Introduced(st), NamesOf(before.scopes));
    OptSettledMore(orelse, NamesOf(s.scopes) + Introduced(st), NamesOf(before.scopes));
  }

  lemma WhilePredeclares(cond: Expr, body: seq<Stmt>, orelse: OptBlock, s: State) returns (before: State)
    requires Wf(s) && Predeclare(body, s).Ok? && ArmsSettled(While(cond, body, orelse), NamesOf(s.scopes))
    ensures Predeclare(body, s) == Ok(before) && Wf(before) && Predeclared(s, before)
    ensures NamesOf(s.scopes) + IntroducedInBlock(body) <= NamesOf(before.scopes)
    ensures SettledBlock(body, NamesOf(before.scopes)) && ArmsSettledOpt(orelse, NamesOf(before.scopes))
  {
    before := Predeclare(body, s).value;
    PredeclareResolves(body, s);
    PredeclaredNames(s, before);
    BlockSettledMore(body, NamesOf(s.scopes) + IntroducedInBlock(body), NamesOf(before.scopes));
    if orelse.Block? {
      BlockArmsSettledMore(orelse.body, NamesOf(s.scopes) + IntroducedInBlock(body), NamesOf(before.scopes));
    }
  }

  lemma {:induction false} NothingToPredeclareIn(st: Stmt, s: State)
    requires s.scopes != [] && Introduced(st) <= NamesOf(s.scopes)
    ensures PredeclareIn(st, s) == Ok(s)
    decreases st, 0
  {
    match st
    case Assign(name, _) => NamesResolve(s.scopes, name);
    case If(branches, orelse) => NothingToPredeclareBranches(branches, s); NothingToPredeclareOpt(orelse, s);
    case While(_, body, _) => NothingToPredeclare(body, s);
    case _ =>
  }

  lemma {:induction false} NothingToPredeclare(body: seq<Stmt>, s: State)
    requires s.scopes != [] && IntroducedInBlock(body) <= NamesOf(s.scopes)
    ensures Predeclare(body, s) == Ok(s)
    decreases body, 1
  {
    if body != [] { NothingToPredeclareIn(body[0], s); NothingToPredeclare(body[1..], s); }
  }

  lemma {:induction false} NothingToPredeclareOpt(o: OptBlock, s: State)
    requires s.scopes != [] && IntroducedInOpt(o) <= NamesOf(s.scopes)
    ensures PredeclareOpt(o, s) == Ok(s)
    decreases o, 2
  {
    if o.Block? { NothingToPredeclare(o.body, s); }
  }

  lemma {:induction false} NothingToPredeclareBranches(branches: seq<Branch>, s: State)
    requires s.scopes != [] && IntroducedInBranches(branches) <= NamesOf(s.scopes)
    ensures PredeclareBranches(branches, s) == Ok(s)
    decreases branches, 1
  {
    if branches != [] { NothingToPredeclare(branches[0].body, s); NothingToPredeclareBranches(branches[1..], s); }
  }

  // ----- what nested blocks leave alone -----

  /** Only the function's own scope and the innermost one have grown. */
  ghost predicate Grown(a: Scopes, b: Scopes) {
    && |a| == |b| > 0 && (forall i :: 0 < i < |a| - 1 ==> b[i] == a[i])
    && a[0].Keys <= b[0].Keys && a[|a| - 1].Keys <= b[|a| - 1].Keys
  }

  /** Only the innermost scope has grown. */
  ghost predicate Inner(a: Scopes, b: Scopes) {
    && |a| == |b| > 0 && (forall i :: 0 <= i < |a| - 1 ==> b[i] == a[i])
    && a[|a| - 1].Keys <= b[|a| - 1].Keys
  }

  predicate Nested(s: State) {
    |s.scopes| >= 2
  }

  lemma GrownNames(a: Scopes, b: Scopes)
    requires Grown(a, b)
    ensures NamesOf(a) <= NamesOf(b)
  {
    MoreNames(a, b);
  }

  lemma Chained(a: Scopes, b: Scopes, c: Scopes)
    ensures Grown(a, b) && Grown(b, c) ==> Grown(a, c)
    ensures Inner(a, b) && Inner(b, c) ==> Inner(a, c)
  {
  }

  /** What checking `st` in `s` makes of the scopes. */
  ghost predicate Kept(st: Stmt, s: State, t: State) {
    && Wf(t) && s.next <= t.next && Grown(s.scopes, t.scopes)
    && NamesOf(s.scopes) + Declared(st) + Introduced(st) <= NamesOf(t.scopes)
    && (Nested(s) && Settled(st, NamesOf(s.scopes)) ==> Inner(s.scopes, t.scopes))
  }

  lemma {:induction false} StmtStaysInner(st: Stmt, s: State)
    requires Wf(s) && ArmsSettled(st, NamesOf(s.scopes)) && CheckStmt(st, s).Ok?
    ensures Kept(st, s, CheckStmt(st, s).value)
    decreases Size(st), 0
  {
    match st
    case If(branches, orelse) => IfStaysInner(branches, orelse, s);
    case While(cond, body, orelse) => WhileStaysInner(cond, body, orelse, s);
    case _ => SimpleStaysInner(st, s);
  }

  lemma SimpleStaysInner(st: Stmt, s: State)
    requires Wf(s) && !st.If? && !st.While? && CheckStmt(st, s).Ok?
    ensures Kept(st, s, CheckStmt(st, s).value)
  {
    var t := CheckStmt(st, s).value;
    match st
    case VarUninit(name) => BoundIsKept(s, t, |s.scopes| - 1, name);
    case VarInit(name, _) => BoundIsKept(s, t, |s.scopes| - 1, name);
    case Assign(name, _) =>
      NamesResolve(s.scopes, name);
      if !Resolves(s.scopes, name) { BoundIsKept(s, t, 0, name); }
    case _ =>
  }

  lemma BoundIsKept(s: State, t: State, i: nat, name: string)
    requires Wf(s) && i < |s.scopes| && name !in s.scopes[i] && (i == 0 || i == |s.scopes| - 1)
    requires t.scopes == Bind(s, i, name).scopes && t.next == s.next + 1 && t.uninit <= s.uninit + {s.next}
    ensures Wf(t) && Grown(s.scopes, t.scopes) && NamesOf(s.scopes) + {name} <= NamesOf(t.scopes)
    ensures i == |s.scopes| - 1 ==> Inner(s.scopes, t.scopes)
  {
    BoundIsWf(s, i, name);
    assert name in t.scopes[i];
    NamesAreBound(t.scopes, name);
    GrownNames(s.scopes, t.scopes);
  }

  lemma {:induction false} IfStaysInner(branches: seq<Branch>, orelse: OptBlock, s: State)
    requires Wf(s) && ArmsSettled(If(branches, orelse), NamesOf(s.scopes)) && CheckStmt(If(branches, orelse), s).Ok?
    ensures Kept(If(branches, orelse), s, CheckStmt(If(branches, orelse), s).value)
    decreases BranchesSize(branches) + OptSize(orelse), 3
  {
    var b, before := IfPredeclares(branches, orelse, s);
    BranchesStayOut(branches, orelse, before, before.uninit, true, {});
    if Introduced(If(branches, orelse)) <= NamesOf(s.scopes) {
      NothingToPredeclareBranches(branches, s);
      NothingToPredeclareOpt(orelse, s);
    }
  }

  lemma {:induction false} WhileStaysInner(cond: Expr, body: seq<Stmt>, orelse: OptBlock, s: State)
    requires Wf(s) && ArmsSettled(While(cond, body, orelse), NamesOf(s.scopes)) &&
      CheckStmt(While(cond, body, orelse), s).Ok?
    ensures Kept(While(cond, body, orelse), s, CheckStmt(While(cond, body, orelse), s).value)
    decreases BlockSize(body) + OptSize(orelse), 4
  {
    var st := While(cond, body, orelse);
    var before := WhilePredeclares(cond, body, orelse, s);
    var t := CheckOpt(orelse, AfterRounds(body, before)).value;
    assert CheckStmt(st, s) == Ok(t);
    LoopElseGrows(body, orelse, before);
    GrownNames(before.scopes, t.scopes);
    if Nested(s) && Settled(st, NamesOf(s.scopes)) {
      NothingToPredeclare(body, s);
    }
  }

  /** The state in which the `else` of a loop is checked. */
  function AfterRounds(body: seq<Stmt>, s: State): State
    requires s.scopes != [] && CheckScoped(body, s).Ok?
  {
    CheckScoped(body, s).value.(uninit := s.uninit)
  }

  lemma {:induction false} LoopElseGrows(body: seq<Stmt>, orelse: OptBlock, s: State)
    requires Wf(s) && SettledBlock(body, NamesOf(s.scopes)) && ArmsSettledOpt(orelse, NamesOf(s.scopes))
    requires CheckScoped(body, s).Ok? && CheckOpt(orelse, AfterRounds(body, s)).Ok?
    ensures Wf(AfterRounds(body, s)) && AfterRounds(body, s).scopes == s.scopes
    ensures var t := CheckOpt(orelse, AfterRounds(body, s)).value;
      && Wf(t) && s.next <= t.next && Grown(s.scopes, t.scopes)
      && (SettledOpt(orelse, NamesOf(s.scopes)) ==> t.scopes == s.scopes)
    decreases BlockSize(body) + OptSize(orelse), 3
  {
    ScopedStaysOut(body, s);
    OtherUninitIsWf(s, CheckScoped(body, s).value, s.uninit);
    if orelse.Block? { ScopedGrows(orelse.body, AfterRounds(body, s)); }
  }

  lemma {:induction false} BlockStaysInner(body: seq<Stmt>, s: State)
    requires Wf(s) && ArmsSettledBlock(body, NamesOf(s.scopes)) && CheckBlock(body, s).Ok?
    ensures var t := CheckBlock(body, s).value;
      && Wf(t) && s.next <= t.next && Grown(s.scopes, t.scopes)
      && (Nested(s) && SettledBlock(body, NamesOf(s.scopes)) ==> Inner(s.scopes, t.scopes))
    decreases BlockSize(body), 0
  {
    if body != [] {
      StmtStaysInner(body[0], s);
      var first := CheckStmt(body[0], s).value;
      RestIsSettled(body, s, first);
      BlockStaysInner(body[1..], first);
      Chained(s.scopes, first.scopes, CheckBlock(body, s).value.scopes);
    }
  }

  lemma RestIsSettled(body: seq<Stmt>, s: State, first: State)
    requires body != [] && ArmsSettledBlock(body, NamesOf(s.scopes)) && Kept(body[0], s, first)
    ensures ArmsSettledBlock(body[1..], NamesOf(first.scopes))
    ensures SettledBlock(body, NamesOf(s.scopes)) ==> SettledBlock(body[1..], NamesOf(first.scopes))
  {
    BlockArmsSettledMore(body[1..], NamesOf(s.scopes) + Declared(body[0]) + Introduced(body[0]), NamesOf(first.scopes));
    if SettledBlock(body, NamesOf(s.scopes)) {
      BlockSettledMore(body[1..], NamesOf(s.scopes) + Declared(body[0]), NamesOf(first.scopes));
    }
  }

  lemma PushedIsWf(s: State)
    requires Wf(s)
    ensures Wf(Push(s)) && NamesOf(Push(s).scopes) == NamesOf(s.scopes)
  {
    assert forall i, n, x :: Holds(Push(s).scopes, i, n, x) ==> Holds(s.scopes, i, n, x);
    assert Push(s).scopes[..|s.scopes|] == s.scopes;
  }

  /** A block in a scope of its own adds at most to the function's own scope. */
  lemma {:induction false} ScopedGrows(body: seq<Stmt>, s: State)
    requires Wf(s) && ArmsSettledBlock(body, NamesOf(s.scopes)) && CheckScoped(body, s).Ok?
    ensures var t := CheckScoped(body, s).value;
      && Wf(t) && s.next <= t.next && Grown(s.scopes, t.scopes)
      && (SettledBlock(body, NamesOf(s.scopes)) ==> t.scopes == s.scopes)
    decreases BlockSize(body), 1
  {
    PushedIsWf(s);
    BlockStaysInner(body, Push(s));
    PoppedIsWf(CheckBlock(body, Push(s)).value);
  }

  /** A settled block in a scope of its own leaves all scopes as they were. */
  lemma {:induction false} ScopedStaysOut(body: seq<Stmt>, s: State)
    requires Wf(s) && SettledBlock(body, NamesOf(s.scopes)) && CheckScoped(body, s).Ok?
    ensures ArmsSettledBlock(body, NamesOf(s.scopes))
    ensures var t := CheckScoped(body, s).value; Wf(t) && t.scopes == s.scopes && s.next <= t.next
    decreases BlockSize(body), 2
  {
    SettledBlockIsArmsSettled(body, NamesOf(s.scopes));
    ScopedGrows(body, s);
  }

  lemma PoppedIsWf(s: State)
    requires Wf(s) && |s.scopes| >= 2
    ensures Wf(Pop(s))
  {
    assert forall i, n, x :: Holds(Pop(s).scopes, i, n, x) ==> Holds(s.scopes, i, n, x);
  }

  lemma {:induction false} OptStaysOut(o: OptBlock, s: State)
    requires Wf(s) && SettledOpt(o, NamesOf(s.scopes)) && CheckOpt(o, s).Ok?
    ensures var t := CheckOpt(o, s).value; Wf(t) && t.scopes == s.scopes && s.next <= t.next
    decreases OptSize(o), 1
  {
    if o.Block? { ScopedStaysOut(o.body, s); }
  }

  lemma {:induction false} BranchesStayOut(branches: seq<Branch>, orelse: OptBlock, s: State, before: set<nat>,
                                           reachable: bool, exits: set<nat>)
    requires Wf(s.(uninit := before)) && Wf(s.(uninit := exits))
    requires SettledBranches(branches, NamesOf(s.scopes)) && SettledOpt(orelse, NamesOf(s.scopes))
    requires CheckBranches(branches, orelse, s, before, reachable, exits).Ok?
    ensures var t := CheckBranches(branches, orelse, s, before, reachable, exits).value;
      Wf(t) && t.scopes == s.scopes && s.next <= t.next && exits <= t.uninit
    decreases BranchesSize(branches) + OptSize(orelse), 2
  {
    var start := s.(uninit := before);
    if branches == [] {
      OptStaysOut(orelse, start);
    } else {
      var cond := branches[0].cond;
      ScopedStaysOut(branches[0].body, start);
      var after := CheckScoped(branches[0].body, start).value;
      var exits' := exits + if reachable && cond != Literal(false) then after.uninit else {};
      OtherUninitIsWf(start, after, before);
      OtherUninitIsWf(start, after, exits');
      BranchesStayOut(branches[1..], orelse, after, before, reachable && cond != Literal(true), exits');
    }
  }

  /** Only the bindings and their count matter for the rest of well-formedness. */
  lemma OtherUninitIsWf(s: State, t: State, uninit: set<nat>)
    requires Wf(s) && Wf(t) && t.scopes == s.scopes && s.next <= t.next
    requires forall x <- uninit :: x < t.next
    ensures Wf(t.(uninit := uninit))
  {
  }

  // ----- code that assigns only its own variables -----

  /** The first `b` scopes are as before, and no variable in them has lost its flag. */
  ghost predicate KeepsFlags(s: State, t: State, b: nat) {
    && b <= |s.scopes| == |t.scopes|
    && forall i, n, x :: i < b && Holds(s.scopes, i, n, x) ==>
      Holds(t.scopes, i, n, x) && (x in s.uninit ==> x in t.uninit)
  }

  /** The names denote variables outside the first `b` scopes. */
  predicate LocalTo(scopes: Scopes, b: nat, local: set<string>) {
    forall n <- local :: Depth(scopes, n) > b
  }

  lemma DepthAtLeast(scopes: Scopes, n: string, i: nat)
    requires i < |scopes| && n in scopes[i]
    ensures Depth(scopes, n) > i
  {
  }

  lemma LocalsAreKnown(scopes: Scopes, b: nat, local: set<string>)
    requires LocalTo(scopes, b, local)
    ensures local <= NamesOf(scopes)
  {
    forall n <- local ensures n in NamesOf(scopes) { NamesResolve(scopes, n); }
  }

  lemma LocalsStay(st: Stmt, s: State, t: State, b: nat, local: set<string>)
    requires Kept(st, s, t) && CheckStmt(st, s) == Ok(t) && 0 < b < |s.scopes|
    requires LocalTo(s.scopes, b, local) && Settled(st, local)
    ensures LocalTo(t.scopes, b, local + Declared(st))
  {
    LocalsAreKnown(s.scopes, b, local);
    SettledMore(st, local, NamesOf(s.scopes));
    assert Inner(s.scopes, t.scopes);
    InnerKeepsLocals(s.scopes, t.scopes, b, local);
    if Declared(st) != {} {
      assert Declared(st) == {st.name} && st.name in t.scopes[|t.scopes| - 1];
      DepthAtLeast(t.scopes, st.name, |t.scopes| - 1);
    }
  }

  lemma InnerKeepsLocals(a: Scopes, c: Scopes, b: nat, local: set<string>)
    requires Inner(a, c) && LocalTo(a, b, local)
    ensures LocalTo(c, b, local)
  {
    forall n <- local ensures Depth(c, n) > b { DepthAtLeast(c, n, Depth(a, n) - 1); }
  }

  lemma {:induction false} StmtKeepsFlags(st: Stmt, s: State, b: nat, local: set<string>)
    requires Wf(s) && Settled(st, local) && LocalTo(s.scopes, b, local) && 0 < b < |s.scopes| && CheckStmt(st, s).Ok?
    ensures KeepsFlags(s, CheckStmt(st, s).value, b) && LocalTo(CheckStmt(st, s).value.scopes, b, local + Declared(st))
    ensures Wf(CheckStmt(st, s).value)
    decreases Size(st), 0
  {
    LocalsAreKnown(s.scopes, b, local);
    SettledMore(st, local, NamesOf(s.scopes));
    SettledIsArmsSettled(st, NamesOf(s.scopes));
    StmtStaysInner(st, s);
    LocalsStay(st, s, CheckStmt(st, s).value, b, local);
    if st.If? {
      IfKeepsFlags(st.branches, st.orelse, s, b, local);
    } else if st.While? {
      NothingToPredeclare(st.body, s);
      LoopKeepsFlags(st.body, st.orelse, s, b, local);
    } else {
      SimpleKeepsFlags(st, s, b, local);
    }
  }

  lemma SimpleKeepsFlags(st: Stmt, s: State, b: nat, local: set<string>)
    requires Wf(s) && Settled(st, local) && LocalTo(s.scopes, b, local) && 0 < b < |s.scopes| && CheckStmt(st, s).Ok?
    requires !st.If? && !st.While?
    ensures KeepsFlags(s, CheckStmt(st, s).value, b)
  {
    if st.Assign? {
      var k := Depth(s.scopes, st.name);
      assert Holds(s.scopes, k - 1, st.name, Owner(s.scopes, st.name));
    }
  }

  lemma {:induction false} IfKeepsFlags(branches: seq<Branch>, orelse: OptBlock, s: State, b: nat, local: set<string>)
    requires Wf(s) && LocalTo(s.scopes, b, local) && 0 < b < |s.scopes| && Settled(If(branches, orelse), local)
    requires CheckStmt(If(branches, orelse), s).Ok?
    ensures KeepsFlags(s, CheckStmt(If(branches, orelse), s).value, b)
    decreases BranchesSize(branches) + OptSize(orelse), 3
  {
    LocalsAreKnown(s.scopes, b, local);
    NothingToPredeclareBranches(branches, s);
    NothingToPredeclareOpt(orelse, s);
    BranchesKeepFlags(branches, orelse, s, s.uninit, {}, b, local);
  }

  lemma {:induction false} LoopKeepsFlags(body: seq<Stmt>, orelse: OptBlock, s: State, b: nat, local: set<string>)
    requires Wf(s) && SettledBlock(body, local) && SettledOpt(orelse, local) && LocalTo(s.scopes, b, local)
    requires 0 < b < |s.scopes| && CheckScoped(body, s).Ok? && CheckOpt(orelse, AfterRounds(body, s)).Ok?
    ensures KeepsFlags(s, CheckOpt(orelse, AfterRounds(body, s)).value, b)
    decreases BlockSize(body) + OptSize(orelse), 3
  {
    LocalsAreKnown(s.scopes, b, local);
    BlockSettledMore(body, local, NamesOf(s.scopes));
    ScopedStaysOut(body, s);
    OtherUninitIsWf(s, CheckScoped(body, s).value, s.uninit);
    if orelse.Block? { ScopedKeepsFlags(orelse.body, AfterRounds(body, s), b, local); }
  }

  lemma {:induction false} BlockKeepsFlags(body: seq<Stmt>, s: State, b: nat, local: set<string>)
    requires Wf(s) && SettledBlock(body, local) && LocalTo(s.scopes, b, local) && 0 < b < |s.scopes| &&
      CheckBlock(body, s).Ok?
    ensures KeepsFlags(s, CheckBlock(body, s).value, b) && Wf(CheckBlock(body, s).value)
    decreases BlockSize(body), 0
  {
    if body != [] {
      StmtKeepsFlags(body[0], s, b, local);
      BlockKeepsFlags(body[1..], CheckStmt(body[0], s).value, b, local + Declared(body[0]));
    }
  }

  lemma {:induction false} ScopedKeepsFlags(body: seq<Stmt>, s: State, b: nat, local: set<string>)
    requires Wf(s) && SettledBlock(body, local) && LocalTo(s.scopes, b, local) && 0 < b <= |s.scopes| &&
      CheckScoped(body, s).Ok?
    ensures KeepsFlags(s, CheckScoped(body, s).value, b)
    decreases BlockSize(body), 1
  {
    PushedIsWf(s);
    forall n <- local ensures Depth(Push(s).scopes, n) > b {
      DepthAtLeast(Push(s).scopes, n, Depth(s.scopes, n) - 1);
    }
    BlockKeepsFlags(body, Push(s), b, local);
    PoppedKeepsFlags(s, CheckBlock(body, Push(s)).value, b);
  }

  lemma PoppedKeepsFlags(s: State, t: State, b: nat)
    requires Wf(t) && 0 < b <= |s.scopes| && KeepsFlags(Push(s), t, b)
    ensures KeepsFlags(s, Pop(t), b)
  {
    var last := |t.scopes| - 1;
    forall i, n, x | i < b && Holds(s.scopes, i, n, x)
      ensures Holds(Pop(t).scopes, i, n, x) && (x in s.uninit ==> x in Pop(t).uninit)
    {
      assert Holds(Push(s).scopes, i, n, x) && Holds(t.scopes, i, n, x);
      if x in t.scopes[last].Values {
        var m :| m in t.scopes[last] && t.scopes[last][m] == x;
        assert Holds(t.scopes, last, m, x);
      }
    }
  }

  lemma {:induction false} BranchesKeepFlags(branches: seq<Branch>, orelse: OptBlock, s: State, before: set<nat>,
                                             exits: set<nat>, b: nat, local: set<string>)
    requires Wf(s.(uninit := before)) && Wf(s.(uninit := exits)) && LocalTo(s.scopes, b, local) && 0 < b < |s.scopes|
    requires SettledBranches(branches, local) && SettledOpt(orelse, local)
    requires CheckBranches(branches, orelse, s, before, true, exits).Ok?
    ensures KeepsFlags(s.(uninit := before), CheckBranches(branches, orelse, s, before, true, exits).value, b)
    decreases BranchesSize(branches) + OptSize(orelse), 2
  {
    var start := s.(uninit := before);
    LocalsAreKnown(s.scopes, b, local);
    BranchesSettledMore(branches, local, NamesOf(s.scopes));
    OptSettledMore(orelse, local, NamesOf(s.scopes));
    BranchesStayOut(branches, orelse, s, before, true, exits);
    if branches == [] {
      if orelse.Block? { ScopedKeepsFlags(orelse.body, start, b, local); }
    } else {
      var cond := branches[0].cond;
      ScopedKeepsFlags(branches[0].body, start, b, local);
      ScopedStaysOut(branches[0].body, start);
      var after := CheckScoped(branches[0].body, start).value;
      var exits' := exits + if cond != Literal(false) then after.uninit else {};
      OtherUninitIsWf(start, after, before);
      OtherUninitIsWf(start, after, exits');
      if cond == Literal(true) {
        BranchesStayOut(branches[1..], orelse, after, before, false, exits');
      } else {
        BranchesKeepFlags(branches[1..], orelse, after, before, exits', b, local);
      }
    }
  }

  // ----- what runs leave alone -----

  /** In the first `k` scopes, no variable is lost or becomes unassigned, and only the function's own scope may gain
      any. */
  ghost predicate KeptBelow(a: Store, b: Store, k: nat) {
    && k <= |a| == |b|
    && (forall i, n :: 0 <= i < k && !Unset(a, i, n) ==> !Unset(b, i, n))
    && (forall i :: 0 < i < k ==> a[i].Keys == b[i].Keys)
    && (k > 0 ==> a[0].Keys <= b[0].Keys)
  }

  lemma {:induction false} StmtKeeps(st: Stmt, c: Choice, d: Store)
    requires d != []
    ensures var o := RunStmt(st, c, d); Running(o) ==> KeptBelow(d, o.store, |d| - 1)
    decreases Size(st), 0, 0
  {
    match st
    case If(branches, orelse) => if c.Arm? { ArmKeeps(branches, orelse, c.index, c.body, d); }
    case While(cond, body, orelse) => if c.Rounds? { LoopKeeps(cond, body, orelse, c.rounds, c.orelse, d); }
    case _ =>
  }

  lemma {:induction false} BlockKeeps(body: seq<Stmt>, cs: seq<Choice>, d: Store)
    requires d != []
    ensures var o := RunBlock(body, cs, d); Running(o) ==> KeptBelow(d, o.store, |d| - 1)
    decreases BlockSize(body), 0, 0
  {
    if body != [] && cs != [] {
      StmtKeeps(body[0], cs[0], d);
      var o := RunStmt(body[0], cs[0], d);
      if o.Normal? { BlockKeeps(body[1..], cs[1..], o.store); }
    }
  }

  lemma {:induction false} ScopedKeeps(body: seq<Stmt>, cs: seq<Choice>, d: Store)
    ensures var o := RunScoped(body, cs, d); Running(o) ==> KeptBelow(d, o.store, |d|)
    decreases BlockSize(body), 1, 0
  {
    BlockKeeps(body, cs, d + [map[]]);
    var o, p := RunBlock(body, cs, d + [map[]]), RunScoped(body, cs, d);
    if Running(o) {
      assert p.store == o.store[..|d|];
      assert forall i, n :: 0 <= i < |d| ==>
        (Unset(d + [map[]], i, n) <==> Unset(d, i, n)) && (Unset(o.store, i, n) <==> Unset(p.store, i, n));
    }
  }

  lemma {:induction false} ArmKeeps(branches: seq<Branch>, orelse: OptBlock, index: nat, cs: seq<Choice>, d: Store)
    ensures var o := RunArm(branches, orelse, index, cs, d); Running(o) ==> KeptBelow(d, o.store, |d|)
    decreases BranchesSize(branches) + OptSize(orelse), 2, 0
  {
    if branches == [] {
      if orelse.Block? { ScopedKeeps(orelse.body, cs, d); }
    } else if index == 0 {
      ScopedKeeps(branches[0].body, cs, d);
    } else {
      ArmKeeps(branches[1..], orelse, index - 1, cs, d);
    }
  }

  lemma {:induction false} LoopKeeps(cond: Expr, body: seq<Stmt>, orelse: OptBlock, rounds: seq<seq<Choice>>,
                                     after: seq<Choice>, d: Store)
    ensures var o := RunLoop(cond, body, orelse, rounds, after, d); Running(o) ==> KeptBelow(d, o.store, |d|)
    decreases BlockSize(body) + OptSize(orelse), 2, |rounds|
  {
    if rounds == [] {
      if orelse.Block? { ScopedKeeps(orelse.body, after, d); }
    } else {
      ScopedKeeps(body, rounds[0], d);
      var o := RunScoped(body, rounds[0], d);
      if o.Normal? || o.Continued? { LoopKeeps(cond, body, orelse, rounds[1..], after, o.store); }
    }
  }

  // ----- breaks -----

  lemma {:induction false} StmtDoesNotBreak(st: Stmt, c: Choice, d: Store)
    requires d != [] && !Breaks(st)
    ensures !RunStmt(st, c, d).Broke?
    decreases Size(st), 0, 0
  {
    match st
    case If(branches, orelse) => if c.Arm? { ArmDoesNotBreak(branches, orelse, c.index, c.body, d); }
    case While(cond, body, orelse) => if c.Rounds? { LoopDoesNotBreak(cond, body, orelse, c.rounds, c.orelse, d); }
    case _ =>
  }

  lemma {:induction false} BlockDoesNotBreak(body: seq<Stmt>, cs: seq<Choice>, d: Store)
    requires d != [] && !BlockBreaks(body)
    ensures !RunBlock(body, cs, d).Broke?
    decreases BlockSize(body), 0, 0
  {
    if body != [] && cs != [] {
      StmtDoesNotBreak(body[0], cs[0], d);
      var o := RunStmt(body[0], cs[0], d);
      if o.Normal? { BlockDoesNotBreak(body[1..], cs[1..], o.store); }
    }
  }

  lemma {:induction false} ScopedDoesNotBreak(body: seq<Stmt>, cs: seq<Choice>, d: Store)
    requires !BlockBreaks(body)
    ensures !RunScoped(body, cs, d).Broke?
    decreases BlockSize(body), 1, 0
  {
    BlockDoesNotBreak(body, cs, d + [map[]]);
  }

  lemma {:induction false} ArmDoesNotBreak(branches: seq<Branch>, orelse: OptBlock, index: nat, cs: seq<Choice>,
                                           d: Store)
    requires !BranchesBreak(branches) && !OptBreaks(orelse)
    ensures !RunArm(branches, orelse, index, cs, d).Broke?
    decreases BranchesSize(branches) + OptSize(orelse), 2, 0
  {
    if branches == [] {
      if orelse.Block? { ScopedDoesNotBreak(orelse.body, cs, d); }
    } else if index == 0 {
      ScopedDoesNotBreak(branches[0].body, cs, d);
    } else {
      ArmDoesNotBreak(branches[1..], orelse, index - 1, cs, d);
    }
  }

  /** A loop is left by a `break` only out of its `else`. */
  lemma {:induction false} LoopDoesNotBreak(cond: Expr, body: seq<Stmt>, orelse: OptBlock, rounds: seq<seq<Choice>>,
                                            after: seq<Choice>, d: Store)
    requires !OptBreaks(orelse)
    ensures !RunLoop(cond, body, orelse, rounds, after, d).Broke?
    decreases BlockSize(body) + OptSize(orelse), 2, |rounds|
  {
    if rounds == [] {
      if orelse.Block? { ScopedDoesNotBreak(orelse.body, after, d); }
    } else {
      var o := RunScoped(body, rounds[0], d);
      if o.Normal? || o.Continued? { LoopDoesNotBreak(cond, body, orelse, rounds[1..], after, o.store); }
    }
  }

  // ----- soundness -----

  lemma PushedTracks(s: State, d: Store)
    requires Wf(s) && Tracks(s, d)
    ensures Tracks(Push(s), d + [map[]])
  {
    forall i, n, x | Holds(Push(s).scopes, i, n, x) && Unset(d + [map[]], i, n) ensures x in s.uninit {
      assert Holds(s.scopes, i, n, x) && Unset(d, i, n);
    }
  }

  lemma PoppedTracks(s: State, d: Store)
    requires Wf(s) && Tracks(s, d) && |d| >= 2
    ensures Tracks(Pop(s), d[..|d| - 1])
  {
    var last := |d| - 1;
    forall i, n, x | Holds(Pop(s).scopes, i, n, x) && Unset(d[..last], i, n) ensures x in Pop(s).uninit {
      assert Holds(s.scopes, i, n, x) && Unset(d, i, n);
      if x in s.scopes[last].Values {
        var m :| m in s.scopes[last] && s.scopes[last][m] == x;
        assert Holds(s.scopes, last, m, x);
      }
    }
  }

  lemma KeptStillTracks(s: State, a: Store, b: Store)
    requires Wf(s) && Tracks(s, a) && KeptBelow(a, b, |a|) && FitsBelow(s.scopes, b, |b|)
    ensures Tracks(s, b)
  {
    forall i, n, x | Holds(s.scopes, i, n, x) && Unset(b, i, n) ensures x in s.uninit {
      assert Unset(a, i, n);
    }
  }

  lemma MoreUninitTracks(s: State, t: State, d: Store)
    requires Tracks(s, d) && t.scopes == s.scopes && s.uninit <= t.uninit
    ensures Tracks(t, d)
  {
  }

  /** How a block that is checked to end in `t` may end when it runs: `k` scopes are outside it. */
  ghost predicate Sound(t: State, o: Outcome, k: nat) {
    && !o.Fault?
    && (o.Normal? ==> Tracks(t, o.store))
    && (o.Broke? || o.Continued? ==> FitsBelow(t.scopes, o.store, k))
  }

  lemma GrownFits(a: Scopes, b: Scopes, d: Store)
    requires Grown(a, b) && d != [] && FitsBelow(a, d, |d| - 1)
    ensures FitsBelow(b, d, |d| - 1)
  {
  }

  lemma {:induction false} StmtIsSound(st: Stmt, s: State, c: Choice, d: Store)
    requires Wf(s) && Tracks(s, d) && NoSkippedElse(st) && ArmsSettled(st, NamesOf(s.scopes))
    requires CheckStmt(st, s).Ok?
    ensures Sound(CheckStmt(st, s).value, RunStmt(st, c, d), |d| - 1)
    decreases Size(st), 0, 0
  {
    match st
    case If(branches, orelse) => if c.Arm? { IfIsSound(branches, orelse, s, c.index, c.body, d); }
    case While(cond, body, orelse) => if c.Rounds? { WhileIsSound(cond, body, orelse, s, c.rounds, c.orelse, d); }
    case _ => SimpleIsSound(st, s, c, d);
  }

  lemma SimpleIsSound(st: Stmt, s: State, c: Choice, d: Store)
    requires Wf(s) && Tracks(s, d) && !st.If? && !st.While?
    requires CheckStmt(st, s).Ok?
    ensures Sound(CheckStmt(st, s).value, RunStmt(st, c, d), |d| - 1)
  {
    match st
    case VarUninit(name) => BoundIsTracked(s, d, |d| - 1, name, false);
    case VarInit(name, value) => CheckedExprCanRun(s, d, value); BoundIsTracked(s, d, |d| - 1, name, true);
    case Assign(name, value) =>
      CheckedExprCanRun(s, d, value);
      if Resolves(s.scopes, name) { AssignedIsTracked(s, d, name); } else { ImplicitIsTracked(s, d, name); }
    case Eval(value) => CheckedExprCanRun(s, d, value);
    case Return(value) => CheckedExprCanRun(s, d, value);
    case Raise(value) => CheckedExprCanRun(s, d, value);
    case _ =>
  }

  lemma {:induction false} IfIsSound(branches: seq<Branch>, orelse: OptBlock, s: State, index: nat, cs: seq<Choice>,
                                     d: Store)
    requires Wf(s) && Tracks(s, d) && NoSkippedElseBranches(branches) && NoSkippedElseOpt(orelse)
    requires ArmsSettled(If(branches, orelse), NamesOf(s.scopes)) && CheckStmt(If(branches, orelse), s).Ok?
    ensures Sound(CheckStmt(If(branches, orelse), s).value, RunArm(branches, orelse, index, cs, d), |d| - 1)
    decreases BranchesSize(branches) + OptSize(orelse), 3, 0
  {
    var b, before := IfPredeclares(branches, orelse, s);
    PredeclaredKeepsTrack(s, before, d);
    ArmIsSound(branches, orelse, before, before.uninit, {}, index, cs, d);
  }

  lemma {:induction false} WhileIsSound(cond: Expr, body: seq<Stmt>, orelse: OptBlock, s: State,
                                        rounds: seq<seq<Choice>>, after: seq<Choice>, d: Store)
    requires Wf(s) && Tracks(s, d) && NoSkippedElse(While(cond, body, orelse))
    requires ArmsSettled(While(cond, body, orelse), NamesOf(s.scopes)) && CheckStmt(While(cond, body, orelse), s).Ok?
    ensures Sound(CheckStmt(While(cond, body, orelse), s).value, RunLoop(cond, body, orelse, rounds, after, d), |d| - 1)
    decreases BlockSize(body) + OptSize(orelse), 3, 0
  {
    var before := WhilePredeclares(cond, body, orelse, s);
    PredeclaredKeepsTrack(s, before, d);
    RoundsAreSound(cond, body, orelse, before, rounds, after, d);
  }

  /** After any number of rounds the state from before the loop still holds; then the `else` runs, unless there is
      none. */
  lemma {:induction false} RoundsAreSound(cond: Expr, body: seq<Stmt>, orelse: OptBlock, s: State,
                                          rounds: seq<seq<Choice>>, after: seq<Choice>, d: Store)
    requires Wf(s) && Tracks(s, d) && NoSkippedElse(While(cond, body, orelse))
    requires SettledBlock(body, NamesOf(s.scopes)) && ArmsSettledOpt(orelse, NamesOf(s.scopes))
    requires CheckExpr(cond, s).Ok? && CheckScoped(body, s).Ok? && CheckOpt(orelse, AfterRounds(body, s)).Ok?
    ensures Sound(CheckOpt(orelse, AfterRounds(body, s)).value, RunLoop(cond, body, orelse, rounds, after, d), |d|)
    decreases BlockSize(body) + OptSize(orelse), 2, |rounds|
  {
    CheckedExprCanRun(s, d, cond);
    ScopedStaysOut(body, s);
    if rounds == [] {
      LoopEndIsSound(body, orelse, s, after, d);
    } else {
      ScopedIsSound(body, s, rounds[0], d);
      ScopedKeeps(body, rounds[0], d);
      var o := RunScoped(body, rounds[0], d);
      if Running(o) {
        KeptStillTracks(s, d, o.store);
        if o.Broke? {
          if SettledOpt(orelse, {}) {
            SkippedElseTracks(body, orelse, s, o.store);
          } else {
            ScopedDoesNotBreak(body, rounds[0], d);
          }
        } else {
          RoundsAreSound(cond, body, orelse, s, rounds[1..], after, o.store);
        }
      }
    }
  }

  /** It does not matter whether an `else` that assigns nothing from outside it runs. */
  lemma SkippedElseTracks(body: seq<Stmt>, orelse: OptBlock, s: State, d: Store)
    requires Wf(s) && Tracks(s, d) && SettledBlock(body, NamesOf(s.scopes)) && SettledOpt(orelse, {})
    requires CheckScoped(body, s).Ok? && CheckOpt(orelse, AfterRounds(body, s)).Ok?
    ensures Tracks(CheckOpt(orelse, AfterRounds(body, s)).value, d)
  {
    var u, t := AfterRounds(body, s), CheckOpt(orelse, AfterRounds(body, s)).value;
    ScopedStaysOut(body, s);
    OtherUninitIsWf(s, CheckScoped(body, s).value, s.uninit);
    MoreUninitTracks(s, u, d);
    if orelse.Block? {
      BlockSettledMore(orelse.body, {}, NamesOf(u.scopes));
      ScopedStaysOut(orelse.body, u);
      ScopedKeepsFlags(orelse.body, u, |u.scopes|, {});
      forall i, n, x | Holds(t.scopes, i, n, x) && Unset(d, i, n) ensures x in t.uninit {
        assert Holds(u.scopes, i, n, x);
      }
    }
  }

  lemma {:induction false} LoopEndIsSound(body: seq<Stmt>, orelse: OptBlock, s: State, after: seq<Choice>, d: Store)
    requires Wf(s) && Tracks(s, d) && NoSkippedElseOpt(orelse)
    requires SettledBlock(body, NamesOf(s.scopes)) && ArmsSettledOpt(orelse, NamesOf(s.scopes))
    requires CheckScoped(body, s).Ok? && CheckOpt(orelse, AfterRounds(body, s)).Ok?
    ensures var o := match orelse { case NoBlock => Normal(d) case Block(b) => RunScoped(b, after, d) };
      Sound(CheckOpt(orelse, AfterRounds(body, s)).value, o, |d|)
    decreases BlockSize(body) + OptSize(orelse), 1, 0
  {
    ScopedStaysOut(body, s);
    OtherUninitIsWf(s, CheckScoped(body, s).value, s.uninit);
    MoreUninitTracks(s, AfterRounds(body, s), d);
    if orelse.Block? { ScopedIsSound(orelse.body, AfterRounds(body, s), after, d); }
  }

  lemma {:induction false} BlockIsSound(body: seq<Stmt>, s: State, cs: seq<Choice>, d: Store)
    requires Wf(s) && Tracks(s, d) && NoSkippedElseBlock(body) && ArmsSettledBlock(body, NamesOf(s.scopes))
    requires CheckBlock(body, s).Ok?
    ensures Sound(CheckBlock(body, s).value, RunBlock(body, cs, d), |d| - 1)
    decreases BlockSize(body), 0, 0
  {
    if body != [] && cs != [] {
      StmtIsSound(body[0], s, cs[0], d);
      StmtStaysInner(body[0], s);
      var first := CheckStmt(body[0], s).value;
      var o := RunStmt(body[0], cs[0], d);
      RestIsSettled(body, s, first);
      if o.Normal? {
        BlockIsSound(body[1..], first, cs[1..], o.store);
      } else if Running(o) {
        BlockStaysInner(body[1..], first);
        GrownFits(first.scopes, CheckBlock(body, s).value.scopes, o.store);
      }
    }
  }

  /** A block in a scope of its own. */
  lemma {:induction false} ScopedIsSound(body: seq<Stmt>, s: State, cs: seq<Choice>, d: Store)
    requires Wf(s) && Tracks(s, d) && NoSkippedElseBlock(body)
    requires ArmsSettledBlock(body, NamesOf(s.scopes)) || SettledBlock(body, NamesOf(s.scopes))
    requires CheckScoped(body, s).Ok?
    ensures Sound(CheckScoped(body, s).value, RunScoped(body, cs, d), |d|)
    decreases BlockSize(body), 1, 0
  {
    if SettledBlock(body, NamesOf(s.scopes)) { SettledBlockIsArmsSettled(body, NamesOf(s.scopes)); }
    PushedIsWf(s);
    PushedTracks(s, d);
    BlockIsSound(body, Push(s), cs, d + [map[]]);
    BlockStaysInner(body, Push(s));
    var o := RunBlock(body, cs, d + [map[]]);
    if o.Normal? { PoppedTracks(CheckBlock(body, Push(s)).value, o.store); }
  }

  lemma {:induction false} ArmIsSound(branches: seq<Branch>, orelse: OptBlock, s: State, before: set<nat>,
                                      exits: set<nat>,
                                      index: nat, cs: seq<Choice>, d: Store)
    requires Wf(s.(uninit := before)) && Wf(s.(uninit := exits)) && Tracks(s.(uninit := before), d)
    requires NoSkippedElseBranches(branches) && NoSkippedElseOpt(orelse)
    requires SettledBranches(branches, NamesOf(s.scopes)) && SettledOpt(orelse, NamesOf(s.scopes))
    requires CheckBranches(branches, orelse, s, before, true, exits).Ok?
    ensures Sound(CheckBranches(branches, orelse, s, before, true, exits).value,
                  RunArm(branches, orelse, index, cs, d), |d|)
    decreases BranchesSize(branches) + OptSize(orelse), 2, 0
  {
    var start := s.(uninit := before);
    var t, o := CheckBranches(branches, orelse, s, before, true, exits).value, RunArm(branches, orelse, index, cs, d);
    BranchesStayOut(branches, orelse, s, before, true, exits);
    if branches == [] {
      LastArmIsSound(orelse, start, t, index, cs, d);
    } else {
      var cond, body := branches[0].cond, branches[0].body;
      CheckedExprCanRun(start, d, cond);
      ScopedStaysOut(body, start);
      var after := CheckScoped(body, start).value;
      var exits' := exits + if cond != Literal(false) then after.uninit else {};
      OtherUninitIsWf(start, after, before);
      OtherUninitIsWf(start, after, exits');
      if index == 0 && MayBe(cond, true) {
        ScopedIsSound(body, start, cs, d);
        BranchesStayOut(branches[1..], orelse, after, before, cond != Literal(true), exits');
        if o.Normal? { MoreUninitTracks(after, t, o.store); }
      } else if index > 0 && MayBe(cond, false) {
        MoreUninitTracks(start, after.(uninit := before), d);
        ArmIsSound(branches[1..], orelse, after, before, exits', index - 1, cs, d);
      }
    }
  }

  lemma {:induction false} LastArmIsSound(orelse: OptBlock, start: State, t: State, index: nat, cs: seq<Choice>,
                                          d: Store)
    requires Wf(start) && Tracks(start, d) && NoSkippedElseOpt(orelse) && SettledOpt(orelse, NamesOf(start.scopes))
    requires var c := CheckOpt(orelse, start); c.Ok? && t.scopes == c.value.scopes && c.value.uninit <= t.uninit
    ensures Sound(t, RunArm([], orelse, index, cs, d), |d|)
    decreases OptSize(orelse), 1, 0
  {
    if orelse.Block? { ScopedIsSound(orelse.body, start, cs, d); }
    var after, o := CheckOpt(orelse, start).value, RunArm([], orelse, index, cs, d);
    OptStaysOut(orelse, start);
    if o.Normal? { MoreUninitTracks(after, t, o.store); }
  }

  lemma {:induction false} ParametersAreTracked(parameters: seq<string>, s: State, d: Store)
    requires Wf(s) && Tracks(s, d) && DeclareAll(parameters, s).Ok?
    ensures var t := DeclareAll(parameters, s).value; Wf(t) && Tracks(t, Enter(parameters, d))
  {
    if parameters != [] {
      var first := Declare(s, parameters[0]).value;
      BoundIsWf(s, |d| - 1, parameters[0]);
      BoundIsTracked(s, d, |d| - 1, parameters[0], true);
      ParametersAreTracked(parameters[1..], first, Make(d, parameters[0], true));
    }
  }

  function AsSet(names: seq<string>): set<string> {
    set n | n in names
  }

  lemma {:induction false} ParametersAreKnown(parameters: seq<string>, s: State)
    requires Wf(s) && DeclareAll(parameters, s).Ok?
    ensures NamesOf(s.scopes) + AsSet(parameters) <= NamesOf(DeclareAll(parameters, s).value.scopes)
  {
    if parameters != [] {
      var first := Declare(s, parameters[0]).value;
      BoundIsKept(s, first, |s.scopes| - 1, parameters[0]);
      ParametersAreKnown(parameters[1..], first);
      assert forall n <- parameters :: n == parameters[0] || n in parameters[1..];
    }
  }

  /** What is asked of loop `else` clauses in a whole function: no `break` skips one, and one that need not run assigns
      only names known by then. */
  predicate Covered(parameters: seq<string>, body: seq<Stmt>) {
    NoSkippedElseBlock(body) && ArmsSettledBlock(body, AsSet(parameters))
  }

  lemma BodyIsCovered(parameters: seq<string>, body: seq<Stmt>)
    requires DeclareAll(parameters, State([map[]], {}, 0)).Ok? && Covered(parameters, body)
    ensures var s := DeclareAll(parameters, State([map[]], {}, 0)).value;
      Wf(s) && Tracks(s, Enter(parameters, [map[]])) && ArmsSettledBlock(body, NamesOf(s.scopes))
  {
    var start := State([map[]], {}, 0);
    ParametersAreTracked(parameters, start, [map[]]);
    ParametersAreKnown(parameters, start);
    BlockArmsSettledMore(body, AsSet(parameters), NamesOf(DeclareAll(parameters, start).value.scopes));
  }

  /** If a covered function is accepted, no run of it reads a variable before it is assigned. */
  lemma AcceptedFunctionsReadAssigned(parameters: seq<string>, body: seq<Stmt>, cs: seq<Choice>)
    requires CheckFunction(parameters, body).Ok? && Covered(parameters, body)
    ensures RunFunction(parameters, body, cs) != Fault
  {
    BodyIsCovered(parameters, body);
    BlockIsSound(body, DeclareAll(parameters, State([map[]], {}, 0)).value, cs, Enter(parameters, [map[]]));
  }

  /** In particular, functions without loop `else`. */
  lemma WithoutLoopElse(parameters: seq<string>, body: seq<Stmt>, cs: seq<Choice>)
    requires CheckFunction(parameters, body).Ok? && NoLoopElseBlock(body)
    ensures RunFunction(parameters, body, cs) != Fault
  {
    NoElseBlockIsSettled(body, AsSet(parameters));
    AcceptedFunctionsReadAssigned(parameters, body, cs);
  }
}
