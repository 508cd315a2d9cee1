/** Which declarations the checked program lists, and under which, stated over chains of parts instead of by the shape
    of the walk. */
module CheckedNesting {
  import opened CheckedSyntax
  import opened CheckedArena
  import opened CheckedDeclarations
  import opened CheckedOccurrences

  predicate IsDeclaration(item: Item) {
    item.AStmt? && Declares(item.st)
  }

  /** Nothing on the way is itself a declaration. */
  ghost predicate Open(items: seq<Item>) {
    Chain(items) && forall i :: 0 <= i < |items| - 1 ==> !IsDeclaration(items[i])
  }

  /** `b` is `a`, or lies in it with no declaration in between. */
  ghost predicate Nearest(a: Item, b: Item) {
    exists items :: Open(items) && items[0] == a && items[|items| - 1] == b
  }

  /** The declaration of a statement with everything it contains. */
  function TreeOf(st: Stmt): Tree<DeclTag>
    requires Declares(st)
  {
    Tree(TagOf(st), CheckedDeclarations.Inside(st))
  }

  /** `t` is the declaration of a statement nearest below the item, or of the item itself. */
  ghost predicate Roots(a: Item, t: Tree<DeclTag>) {
    exists st :: Declares(st) && Nearest(a, AStmt(st)) && t == TreeOf(st)
  }

  ghost predicate AnyRoots(items: seq<Item>, t: Tree<DeclTag>) {
    exists item <- items :: Roots(item, t)
  }

  // ----- one step down -----

  lemma OpenFrom(a: Item, items: seq<Item>)
    requires Open(items) && items[0] in Parts(a) && !IsDeclaration(a)
    ensures Open([a] + items)
  {
    ChainFrom(a, items);
    var all := [a] + items;
    assert forall i :: 0 < i < |all| ==> all[i] == items[i - 1];
  }

  lemma NearestPart(a: Item, part: Item, b: Item)
    requires part in Parts(a) && Nearest(part, b) && !IsDeclaration(a)
    ensures Nearest(a, b)
  {
    var items :| Open(items) && items[0] == part && items[|items| - 1] == b;
    OpenFrom(a, items);
    var all := [a] + items;
    assert all[0] == a && all[|all| - 1] == b;
  }

  lemma NearestSome(a: Item, b: Item) returns (part: Item)
    requires Nearest(a, b) && a != b
    ensures !IsDeclaration(a) && part in Parts(a) && Nearest(part, b)
  {
    var items :| Open(items) && items[0] == a && items[|items| - 1] == b;
    part := items[1];
    var tail := items[1..];
    assert Chain(tail) && tail[|tail| - 1] == b;
    assert Open(tail);
  }

  lemma NearestSelf(a: Item)
    ensures Nearest(a, a)
  {
    assert Open([a]) && [a][|[a]| - 1] == a;
  }

  lemma RootsParts(a: Item, t: Tree<DeclTag>)
    ensures Roots(a, t) <==> if IsDeclaration(a) then t == TreeOf(a.st) else AnyRoots(Parts(a), t)
  {
    NearestSelf(a);
    if Roots(a, t) {
      var st :| Declares(st) && Nearest(a, AStmt(st)) && t == TreeOf(st);
      if a != AStmt(st) {
        var part := NearestSome(a, AStmt(st));
        assert Roots(part, t);
      }
    }
    if !IsDeclaration(a) && AnyRoots(Parts(a), t) {
      var part :| part in Parts(a) && Roots(part, t);
      var st :| Declares(st) && Nearest(part, AStmt(st)) && t == TreeOf(st);
      NearestPart(a, part, AStmt(st));
    }
  }

  lemma RootsAppend(xs: seq<Item>, ys: seq<Item>, t: Tree<DeclTag>)
    ensures AnyRoots(xs + ys, t) <==> AnyRoots(xs, t) || AnyRoots(ys, t)
  {
    assert forall x :: x in xs + ys <==> x in xs || x in ys;
  }

  lemma RootsFirst(first: Item, rest: seq<Item>, t: Tree<DeclTag>)
    ensures AnyRoots([first] + rest, t) <==> Roots(first, t) || AnyRoots(rest, t)
  {
    RootsAppend([first], rest, t);
    assert first in [first];
  }

  /** Expressions declare nothing. */
  lemma NoRoots(items: seq<Item>, t: Tree<DeclTag>)
    requires forall item <- items :: item.AnExpr?
    ensures !AnyRoots(items, t)
  {
    forall item <- items ensures !Roots(item, t) { RootsParts(item, t); }
  }

  lemma {:induction false} OptExprItemsAreExprs(os: seq<OptExpr>)
    ensures forall item <- OptExprItems(os) :: item.AnExpr?
  {
    if os != [] { OptExprItemsAreExprs(os[1..]); }
  }

  // ----- the forest -----

  /** The outermost declarations of a block are those of the statements in it that no other declaration is around. */
  lemma {:induction false} ForestExactly(body: seq<Stmt>, t: Tree<DeclTag>)
    ensures t in Forest(body) <==> AnyRoots(Stmts(body), t)
    decreases body, 1
  {
    if body != [] {
      StmtForest(body[0], t);
      ForestExactly(body[1..], t);
      assert Stmts(body) == [AStmt(body[0])] + Stmts(body[1..]);
      RootsFirst(AStmt(body[0]), Stmts(body[1..]), t);
    }
  }

  lemma {:induction false} OptForest(o: OptBlock, t: Tree<DeclTag>)
    ensures t in ForestInOpt(o) <==> AnyRoots(Opt(o), t)
    decreases o, 2
  {
    if o.Block? { ForestExactly(o.body, t); }
  }

  lemma {:induction false} BranchesForest(branches: seq<Branch>, t: Tree<DeclTag>)
    ensures t in ForestInBranches(branches) <==> AnyRoots(Branches(branches), t)
    decreases branches, 1
  {
    if branches != [] {
      BranchForest(branches[0], t);
      BranchesForest(branches[1..], t);
      BranchesSplit(branches);
      RootsFirst(ABranch(branches[0]), Branches(branches[1..]), t);
    }
  }

  lemma {:induction false} BranchForest(branch: Branch, t: Tree<DeclTag>)
    ensures t in Forest(branch.body) <==> Roots(ABranch(branch), t)
    decreases branch
  {
    RootsParts(ABranch(branch), t);
    HeadedForest(branch.cond, branch.body, t);
  }

  /** An expression followed by a block. */
  lemma {:induction false} HeadedForest(e: Expr, body: seq<Stmt>, t: Tree<DeclTag>)
    ensures t in Forest(body) <==> AnyRoots([AnExpr(e)] + Stmts(body), t)
    decreases body, 2
  {
    NoRoots([AnExpr(e)], t);
    ForestExactly(body, t);
    RootsAppend([AnExpr(e)], Stmts(body), t);
  }

  lemma {:induction false} MethodsForest(methods: seq<Method>, t: Tree<DeclTag>)
    ensures t in ForestInMethods(methods) <==> AnyRoots(Methods(methods), t)
    decreases methods, 1
  {
    if methods != [] {
      MethodForest(methods[0], t);
      MethodsForest(methods[1..], t);
      MethodsSplit(methods);
      RootsFirst(AMethod(methods[0]), Methods(methods[1..]), t);
    }
  }

  lemma {:induction false} MethodForest(m: Method, t: Tree<DeclTag>)
    ensures t in ForestInOpt(m.body) <==> Roots(AMethod(m), t)
    decreases m
  {
    var head := OptExprItems(m.defaults) + OptExprItem(m.where_);
    OptExprItemsAreExprs(m.defaults);
    NoRoots(head, t);
    OptForest(m.body, t);
    RootsAppend(head, Opt(m.body), t);
    RootsParts(AMethod(m), t);
  }

  lemma {:induction false} StmtForest(st: Stmt, t: Tree<DeclTag>)
    ensures t in ForestIn(st) <==> Roots(AStmt(st), t)
    decreases st, 1
  {
    RootsParts(AStmt(st), t);
    if !Declares(st) {
      if st.kind.If? || st.kind.ComptimeIf? {
        BranchesForest(st.kind.branches, t);
        OptForest(st.kind.orelse, t);
        RootsAppend(Branches(st.kind.branches), Opt(st.kind.orelse), t);
      } else if st.kind.Try? {
        TryForest(st, t);
      } else if st.kind.While? || st.kind.For? || st.kind.ComptimeFor? || st.kind.With? {
        LoopForest(st, t);
      } else {
        NoRoots(Parts(AStmt(st)), t);
      }
    }
  }

  lemma {:induction false} TryForest(st: Stmt, t: Tree<DeclTag>)
    requires st.kind.Try?
    ensures t in ForestIn(st) <==> AnyRoots(Parts(AStmt(st)), t)
    decreases st, 0
  {
    var kind := st.kind;
    ForestExactly(kind.body, t);
    OptForest(kind.handler, t);
    OptForest(kind.orelse, t);
    OptForest(kind.finalbody, t);
    RootsAppend(Stmts(kind.body), Opt(kind.handler), t);
    RootsAppend(Stmts(kind.body) + Opt(kind.handler), Opt(kind.orelse), t);
    RootsAppend((Stmts(kind.body) + Opt(kind.handler)) + Opt(kind.orelse), Opt(kind.finalbody), t);
  }

  /** Loops and `with`. */
  lemma {:induction false} LoopForest(st: Stmt, t: Tree<DeclTag>)
    requires st.kind.While? || st.kind.For? || st.kind.ComptimeFor? || st.kind.With?
    ensures t in ForestIn(st) <==> AnyRoots(Parts(AStmt(st)), t)
    decreases st, 0
  {
    var body := st.kind.body;
    if st.kind.With? {
      NoRoots(Exprs(st.kind.contexts), t);
      ForestExactly(body, t);
      RootsAppend(Exprs(st.kind.contexts), Stmts(body), t);
    } else {
      var head := if st.kind.While? then st.kind.cond else st.kind.iter;
      HeadedForest(head, body, t);
      if !st.kind.ComptimeFor? {
        OptForest(st.kind.orelse, t);
        RootsAppend([AnExpr(head)] + Stmts(body), Opt(st.kind.orelse), t);
      }
    }
  }

  /** What a declaration directly contains are the declarations nearest below it; a trait contains none. */
  lemma ContentsExactly(st: Stmt, t: Tree<DeclTag>)
    requires Declares(st)
    ensures t in CheckedDeclarations.Inside(st) <==> !st.kind.Trait? && AnyRoots(Parts(AStmt(st)), t)
  {
    match st.kind
    case Def(_, defaults, where_, body) =>
      var head := OptExprItems(defaults) + OptExprItem(where_);
      OptExprItemsAreExprs(defaults);
      NoRoots(head, t);
      ForestExactly(body, t);
      RootsAppend(head, Stmts(body), t);
    case Struct(_, conditions, associated, methods) =>
      var head := Exprs(conditions) + Exprs(associated);
      NoRoots(head, t);
      MethodsForest(methods, t);
      RootsAppend(head, Methods(methods), t);
    case Trait(_, _) =>
    case _ => NoRoots(Parts(AStmt(st)), t);
  }
}
