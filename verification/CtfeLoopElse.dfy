/** What acceptance by the compile-time classifier says about whole bodies: the walk does not look at the `else` of
    loops. */
module CtfeLoopElse {
  import opened CtfeSafety

  // ----- bodies with the `else` of loops in view -----

  /** The statement with each loop's `else` moved after the loop, where the walk looks at it. */
  function Whole(st: Stmt): seq<Stmt>
    decreases st, 0
  {
    match st
    case If(branches, orelse) =>
      [If(WholeBranches(branches), if orelse.Else? then Else(WholeBlock(orelse.body)) else NoElse)]
    case While(cond, body, orelse) =>
      [While(cond, WholeBlock(body), NoElse)] + if orelse.Else? then WholeBlock(orelse.body) else []
    case For(iter, body, orelse) =>
      [For(iter, WholeBlock(body), NoElse)] + if orelse.Else? then WholeBlock(orelse.body) else []
    case _ => [st]
  }

  function WholeBlock(body: seq<Stmt>): seq<Stmt>
    decreases body, 1
  {
    if body == [] then [] else Whole(body[0]) + WholeBlock(body[1..])
  }

  function WholeBranches(branches: seq<Branch>): seq<Branch>
    decreases branches, 1
  {
    if branches == [] then []
    else [Branch(branches[0].cond, WholeBlock(branches[0].body))] + WholeBranches(branches[1..])
  }

  /** The statements in the `else` of loops, which the walk does not look at. */
  function Unwalked(st: Stmt): seq<Stmt>
    decreases st, 0
  {
    match st
    case If(branches, orelse) => UnwalkedInBranches(branches) + if orelse.Else? then UnwalkedIn(orelse.body) else []
    case While(_, body, orelse) => UnwalkedIn(body) + if orelse.Else? then WholeBlock(orelse.body) else []
    case For(_, body, orelse) => UnwalkedIn(body) + if orelse.Else? then WholeBlock(orelse.body) else []
    case _ => []
  }

  function UnwalkedIn(body: seq<Stmt>): seq<Stmt>
    decreases body, 1
  {
    if body == [] then [] else Unwalked(body[0]) + UnwalkedIn(body[1..])
  }

  function UnwalkedInBranches(branches: seq<Branch>): seq<Stmt>
    decreases branches, 1
  {
    if branches == [] then [] else UnwalkedIn(branches[0].body) + UnwalkedInBranches(branches[1..])
  }

  function WholeFunctions(fns: Functions): Functions {
    map name | name in fns :: WholeBlock(fns[name])
  }

  /** Everything reachable, through the `else` of loops as well, is known and made of safe forms throughout. */
  ghost predicate WhollySafe(fns: Functions, name: string) {
    !ReachesBad(WholeFunctions(fns), name)
  }

  // ----- a body is what is walked and what is not -----

  lemma {:induction false} FormsAppend(a: seq<Stmt>, b: seq<Stmt>)
    ensures SafeBlockForm(a + b) <==> SafeBlockForm(a) && SafeBlockForm(b)
    ensures BlockCallees(a + b) == BlockCallees(a) + BlockCallees(b)
  {
    if a == [] {
      assert a + b == b;
    } else {
      assert (a + b)[0] == a[0] && (a + b)[1..] == a[1..] + b;
      FormsAppend(a[1..], b);
    }
  }

  lemma OneForm(st: Stmt)
    ensures SafeBlockForm([st]) <==> SafeStmtForm(st)
    ensures BlockCallees([st]) == StmtCallees(st)
  {
    assert [st][1..] == [];
  }

  lemma {:induction false} WholeParts(st: Stmt)
    ensures SafeBlockForm(Whole(st)) <==> SafeStmtForm(st) && SafeBlockForm(Unwalked(st))
    ensures BlockCallees(Whole(st)) == StmtCallees(st) + BlockCallees(Unwalked(st))
    decreases st, 0
  {
    match st
    case If(branches, orelse) => IfParts(branches, orelse);
    case While(cond, body, orelse) =>
      WholeBlockParts(body);
      OneForm(While(cond, WholeBlock(body), NoElse));
      LoopParts(While(cond, WholeBlock(body), NoElse), UnwalkedIn(body), orelse);
    case For(iter, body, orelse) =>
      WholeBlockParts(body);
      OneForm(For(iter, WholeBlock(body), NoElse));
      LoopParts(For(iter, WholeBlock(body), NoElse), UnwalkedIn(body), orelse);
    case _ => OneForm(st);
  }

  lemma LoopParts(loop: Stmt, inner: seq<Stmt>, orelse: OrElse)
    ensures var tail := if orelse.Else? then WholeBlock(orelse.body) else [];
      && (SafeBlockForm([loop] + tail) <==> SafeBlockForm([loop]) && SafeBlockForm(tail))
      && (SafeBlockForm(inner + tail) <==> SafeBlockForm(inner) && SafeBlockForm(tail))
      && BlockCallees([loop] + tail) == BlockCallees([loop]) + BlockCallees(tail)
      && BlockCallees(inner + tail) == BlockCallees(inner) + BlockCallees(tail)
  {
    var tail := if orelse.Else? then WholeBlock(orelse.body) else [];
    FormsAppend([loop], tail);
    FormsAppend(inner, tail);
  }

  lemma {:induction false} IfParts(branches: seq<Branch>, orelse: OrElse)
    ensures var st := If(branches, orelse);
      && (SafeBlockForm(Whole(st)) <==> SafeStmtForm(st) && SafeBlockForm(Unwalked(st)))
      && BlockCallees(Whole(st)) == StmtCallees(st) + BlockCallees(Unwalked(st))
    decreases If(branches, orelse), 0, branches
  {
    var st := If(branches, orelse);
    WholeBranchParts(branches);
    if orelse.Else? { WholeBlockParts(orelse.body); }
    OneForm(Whole(st)[0]);
    FormsAppend(UnwalkedInBranches(branches), if orelse.Else? then UnwalkedIn(orelse.body) else []);
  }

  /** A whole body is safe exactly if what is walked and what is not are, and calls what either calls. */
  lemma {:induction false} WholeBlockParts(body: seq<Stmt>)
    ensures SafeBlockForm(WholeBlock(body)) <==> SafeBlockForm(body) && SafeBlockForm(UnwalkedIn(body))
    ensures BlockCallees(WholeBlock(body)) == BlockCallees(body) + BlockCallees(UnwalkedIn(body))
    decreases body, 1
  {
    if body != [] {
      WholeParts(body[0]);
      WholeBlockParts(body[1..]);
      FormsAppend(Whole(body[0]), WholeBlock(body[1..]));
      FormsAppend(Unwalked(body[0]), UnwalkedIn(body[1..]));
    }
  }

  lemma {:induction false} WholeBranchParts(branches: seq<Branch>)
    ensures SafeBranchForms(WholeBranches(branches)) <==>
      SafeBranchForms(branches) && SafeBlockForm(UnwalkedInBranches(branches))
    ensures BranchCallees(WholeBranches(branches))
      == BranchCallees(branches) + BlockCallees(UnwalkedInBranches(branches))
    decreases branches, 1
  {
    if branches != [] {
      WholeBlockParts(branches[0].body);
      WholeBranchParts(branches[1..]);
      FormsAppend(UnwalkedIn(branches[0].body), UnwalkedInBranches(branches[1..]));
      assert WholeBranches(branches)[1..] == WholeBranches(branches[1..]);
    }
  }

  // ----- accepted and wholly safe -----

  /** What a function has in the `else` of its loops is made of safe forms and calls only wholly safe functions. */
  ghost predicate ElsesSafe(fns: Functions, name: string)
    requires name in fns
  {
    var rest := UnwalkedIn(fns[name]);
    SafeBlockForm(rest) && forall c :: c in BlockCallees(rest) ==> WhollySafe(fns, c)
  }

  lemma WalkedCallsAreWhole(fns: Functions, p: seq<string>)
    requires IsPath(fns, p)
    ensures IsPath(WholeFunctions(fns), p)
  {
    forall i | 0 <= i < |p| - 1
      ensures Calls(WholeFunctions(fns), p[i], p[i + 1])
    {
      assert Calls(fns, p[i], p[i + 1]);
      WholeBlockParts(fns[p[i]]);
    }
  }

  lemma WhollySafeThrough(fns: Functions, root: string, name: string)
    requires WhollySafe(fns, root) && Reaches(WholeFunctions(fns), root, name)
    ensures name in fns && SafeBlockForm(WholeBlock(fns[name]))
    ensures forall c :: c in BlockCallees(WholeBlock(fns[name])) ==> WhollySafe(fns, c)
  {
    var all := WholeFunctions(fns);
    assert !Bad(all, name);
    forall c | c in BlockCallees(WholeBlock(fns[name]))
      ensures WhollySafe(fns, c)
    {
      assert Calls(all, name, c);
      if ReachesBad(all, c) {
        BadThrough(all, name, c);
        var b :| Reaches(all, name, b) && Bad(all, b);
        ReachesAppend(all, root, name, b);
      }
    }
  }

  lemma ReachesAppend(fns: Functions, a: string, b: string, c: string)
    requires Reaches(fns, a, b) && Reaches(fns, b, c)
    ensures Reaches(fns, a, c)
  {
    var p :| IsPath(fns, p) && p[0] == a && p[|p| - 1] == b;
    var q :| IsPath(fns, q) && q[0] == b && q[|q| - 1] == c;
    var r := p + q[1..];
    forall i | 0 <= i < |r| - 1
      ensures Calls(fns, r[i], r[i + 1])
    {
      if i < |p| - 1 {
        assert Calls(fns, p[i], p[i + 1]);
      } else {
        assert r[i] == q[i - |p| + 1] && Calls(fns, q[i - |p| + 1], q[i - |p| + 2]);
      }
    }
    assert r[0] == a && r[|r| - 1] == c;
  }

  lemma PathTail(fns: Functions, p: seq<string>)
    requires IsPath(fns, p) && |p| > 1
    ensures Calls(fns, p[0], p[1]) && IsPath(fns, p[1..])
  {
    var q := p[1..];
    forall i | 0 <= i < |q| - 1
      ensures Calls(fns, q[i], q[i + 1])
    {
      assert Calls(fns, p[i + 1], p[i + 1 + 1]);
    }
  }

  /** What is reached by whole bodies from a function whose loops' `else` are safe is called by what is walked of it, or
      wholly safe. */
  lemma CalledInBodyOrSafe(fns: Functions, f: string, c: string)
    requires f in fns && ElsesSafe(fns, f) && Calls(WholeFunctions(fns), f, c)
    ensures Calls(fns, f, c) || WhollySafe(fns, c)
  {
    WholeBlockParts(fns[f]);
  }

  lemma GoodIsGoodWhole(fns: Functions, f: string)
    requires !Bad(fns, f) && ElsesSafe(fns, f)
    ensures !Bad(WholeFunctions(fns), f)
  {
    WholeBlockParts(fns[f]);
  }

  /** From an accepted root, no path through whole bodies leads to anything unsafe if all reachable loops' `else` are
      safe. */
  lemma {:induction false} NoPathToBad(fns: Functions, root: string, p: seq<string>)
    requires !ReachesBad(fns, root)
    requires forall f :: f in fns && Reaches(fns, root, f) ==> ElsesSafe(fns, f)
    requires IsPath(WholeFunctions(fns), p) && Reaches(fns, root, p[0])
    ensures !Bad(WholeFunctions(fns), p[|p| - 1])
    decreases |p|
  {
    assert !Bad(fns, p[0]);
    if |p| == 1 {
      GoodIsGoodWhole(fns, p[0]);
    } else {
      PathTail(WholeFunctions(fns), p);
      CalledInBodyOrSafe(fns, p[0], p[1]);
      if Calls(fns, p[0], p[1]) {
        ReachesStep(fns, root, p[0], p[1]);
        NoPathToBad(fns, root, p[1..]);
      } else {
        assert Reaches(WholeFunctions(fns), p[1], p[|p| - 1]) by { assert p[1..][|p| - 2] == p[|p| - 1]; }
      }
    }
  }

  /** An accepted function is wholly safe exactly if what every function reachable in the walked call graph has in the
      `else` of its loops is made of safe forms and calls only wholly safe functions. */
  lemma AcceptedIsWhollySafe(fns: Functions, root: string)
    requires !ReachesBad(fns, root)
    ensures WhollySafe(fns, root) <==> forall f :: f in fns && Reaches(fns, root, f) ==> ElsesSafe(fns, f)
  {
    var all := WholeFunctions(fns);
    if WhollySafe(fns, root) {
      forall f | f in fns && Reaches(fns, root, f)
        ensures ElsesSafe(fns, f)
      {
        var p :| IsPath(fns, p) && p[0] == root && p[|p| - 1] == f;
        WalkedCallsAreWhole(fns, p);
        assert Reaches(all, root, f);
        WhollySafeThrough(fns, root, f);
        WholeBlockParts(fns[f]);
      }
    } else if forall f :: f in fns && Reaches(fns, root, f) ==> ElsesSafe(fns, f) {
      var b :| Reaches(all, root, b) && Bad(all, b);
      var p :| IsPath(all, p) && p[0] == root && p[|p| - 1] == b;
      ReachesSelf(fns, root);
      NoPathToBad(fns, root, p);
    }
  }

  /** Without loop `else` within reach, acceptance is whole safety. */
  lemma AcceptedWithoutElse(fns: Functions, root: string)
    requires forall f :: f in fns && Reaches(fns, root, f) ==> UnwalkedIn(fns[f]) == []
    ensures !ReachesBad(fns, root) <==> WhollySafe(fns, root)
  {
    if !ReachesBad(fns, root) {
      AcceptedIsWhollySafe(fns, root);
    } else {
      var b :| Reaches(fns, root, b) && Bad(fns, b);
      var p :| IsPath(fns, p) && p[0] == root && p[|p| - 1] == b;
      WalkedCallsAreWhole(fns, p);
      if b in fns { WholeBlockParts(fns[b]); }
      assert Bad(WholeFunctions(fns), b) && Reaches(WholeFunctions(fns), root, b);
    }
  }

  /** The `else` of a loop escapes the classification: a function whose loop `else` holds an unsafe statement, here
      the only statement run, is accepted. */
  lemma LoopElseEscapes()
    ensures var fns := map["f" := [While(Atom, [], Else([UnsafeStmt]))]]; !ReachesBad(fns, "f") && !WhollySafe(fns, "f")
  {
    var body := [While(Atom, [], Else([UnsafeStmt]))];
    var fns: Functions := map["f" := body];
    assert body[1..] == [];
    assert SafeBlockForm(body) && BlockCallees(body) == {};
    forall b | Reaches(fns, "f", b)
      ensures b == "f"
    {
      var p :| IsPath(fns, p) && p[0] == "f" && p[|p| - 1] == b;
      assert |p| > 1 ==> Calls(fns, p[0], p[1]);
    }
    ReachesSelf(fns, "f");
    AcceptedIsWhollySafe(fns, "f");
    assert [UnsafeStmt][1..] == [] && WholeBlock([UnsafeStmt]) == [UnsafeStmt];
    assert UnwalkedIn(body) == [UnsafeStmt];
    assert !ElsesSafe(fns, "f");
  }
}
