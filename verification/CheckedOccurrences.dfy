/** Which expressions the checked program covers, stated over chains of parts instead of by the shape of the walk. */
module CheckedOccurrences {
  import opened CheckedSyntax
  import Program = CheckedProgram

  datatype Item = AnExpr(e: Expr) | AStmt(st: Stmt) | ABranch(branch: Branch) | AMethod(m: Method)

  function Exprs(es: seq<Expr>): seq<Item> {
    seq(|es|, i requires 0 <= i < |es| => AnExpr(es[i]))
  }

  function Stmts(body: seq<Stmt>): seq<Item> {
    seq(|body|, i requires 0 <= i < |body| => AStmt(body[i]))
  }

  function Branches(branches: seq<Branch>): seq<Item> {
    seq(|branches|, i requires 0 <= i < |branches| => ABranch(branches[i]))
  }

  function Methods(methods: seq<Method>): seq<Item> {
    seq(|methods|, i requires 0 <= i < |methods| => AMethod(methods[i]))
  }

  function Opt(o: OptBlock): seq<Item> {
    match o case NoBlock => [] case Block(body) => Stmts(body)
  }

  function OptExprItem(o: OptExpr): seq<Item> {
    match o case Absent => [] case Present(e) => [AnExpr(e)]
  }

  function OptExprItems(os: seq<OptExpr>): seq<Item> {
    if os == [] then [] else OptExprItem(os[0]) + OptExprItems(os[1..])
  }

  /** The expressions and blocks directly in an item; expressions are not looked into. */
  function Parts(item: Item): seq<Item> {
    match item
    case AnExpr(_) => []
    case ABranch(Branch(cond, body)) => [AnExpr(cond)] + Stmts(body)
    case AMethod(Method(defaults, where_, body)) => (OptExprItems(defaults) + OptExprItem(where_)) + Opt(body)
    case AStmt(st) =>
      match st.kind
      case VarDecl(_, value) => [AnExpr(value)]
      case RefDecl(_, value) => [AnExpr(value)]
      case Assign(value) => [AnExpr(value)]
      case Comptime(_, value) => [AnExpr(value)]
      case Raise(value) => [AnExpr(value)]
      case ExprStmt(value) => [AnExpr(value)]
      case AugAssign(place, value) => [AnExpr(place), AnExpr(value)]
      case SetPlace(place, value) => [AnExpr(place), AnExpr(value)]
      case Unpack(targets, value) => Exprs(targets) + [AnExpr(value)]
      case Return(result) => OptExprItem(result)
      case Def(_, defaults, where_, body) => (OptExprItems(defaults) + OptExprItem(where_)) + Stmts(body)
      case Struct(_, conditions, associated, methods) => (Exprs(conditions) + Exprs(associated)) + Methods(methods)
      case Trait(_, methods) => Methods(methods)
      case ComptimeIf(branches, orelse) => Branches(branches) + Opt(orelse)
      case If(branches, orelse) => Branches(branches) + Opt(orelse)
      case ComptimeFor(iter, body) => [AnExpr(iter)] + Stmts(body)
      case While(cond, body, orelse) => ([AnExpr(cond)] + Stmts(body)) + Opt(orelse)
      case For(iter, body, orelse) => ([AnExpr(iter)] + Stmts(body)) + Opt(orelse)
      case With(contexts, body) => Exprs(contexts) + Stmts(body)
      case Try(body, handler, orelse, finalbody) => ((Stmts(body) + Opt(handler)) + Opt(orelse)) + Opt(finalbody)
      case Simple => []
  }

  ghost predicate Chain(items: seq<Item>) {
    items != [] && forall i :: 0 <= i < |items| - 1 ==> items[i + 1] in Parts(items[i])
  }

  /** `b` is `a` or lies somewhere inside it. */
  ghost predicate Inside(a: Item, b: Item) {
    exists items :: Chain(items) && items[0] == a && items[|items| - 1] == b
  }

  ghost predicate InsideAny(items: seq<Item>, b: Item) {
    exists item <- items :: Inside(item, b)
  }

  // ----- one step down -----

  lemma InsideSelf(a: Item)
    ensures Inside(a, a)
  {
    assert Chain([a]) && [a][|[a]| - 1] == a;
  }

  lemma ChainFrom(a: Item, items: seq<Item>)
    requires Chain(items) && items[0] in Parts(a)
    ensures Chain([a] + items)
  {
    var all := [a] + items;
    assert all[0] == a && all[1] == items[0];
    assert forall i :: 0 < i < |all| ==> all[i] == items[i - 1];
  }

  lemma InsidePart(a: Item, part: Item, b: Item)
    requires part in Parts(a) && Inside(part, b)
    ensures Inside(a, b)
  {
    var items :| Chain(items) && items[0] == part && items[|items| - 1] == b;
    ChainFrom(a, items);
    var all := [a] + items;
    assert all[0] == a && all[|all| - 1] == b;
  }

  lemma InsideSome(a: Item, b: Item) returns (part: Item)
    requires Inside(a, b) && a != b
    ensures part in Parts(a) && Inside(part, b)
  {
    var items :| Chain(items) && items[0] == a && items[|items| - 1] == b;
    part := items[1];
    var tail := items[1..];
    assert Chain(tail) && tail[|tail| - 1] == b;
  }

  lemma InsideParts(a: Item, b: Item)
    ensures Inside(a, b) <==> a == b || InsideAny(Parts(a), b)
  {
    InsideSelf(a);
    if Inside(a, b) && a != b { var part := InsideSome(a, b); }
    if part :| part in Parts(a) && Inside(part, b) { InsidePart(a, part, b); }
  }

  lemma AnyAppend(xs: seq<Item>, ys: seq<Item>, b: Item)
    ensures InsideAny(xs + ys, b) <==> InsideAny(xs, b) || InsideAny(ys, b)
  {
    assert forall x :: x in xs + ys <==> x in xs || x in ys;
  }

  lemma AnyFirst(first: Item, rest: seq<Item>, b: Item)
    ensures InsideAny([first] + rest, b) <==> Inside(first, b) || InsideAny(rest, b)
  {
    AnyAppend([first], rest, b);
    assert first in [first];
  }

  // ----- expressions -----

  lemma {:induction false} ExprsOccur(es: seq<Expr>, e: Expr)
    ensures InsideAny(Exprs(es), AnExpr(e)) <==> e in es
  {
    if es != [] {
      ExprsOccur(es[1..], e);
      InsideParts(AnExpr(es[0]), AnExpr(e));
      assert Exprs(es) == [AnExpr(es[0])] + Exprs(es[1..]);
      AnyFirst(AnExpr(es[0]), Exprs(es[1..]), AnExpr(e));
    }
  }

  lemma OptExprOccurs(o: OptExpr, e: Expr)
    ensures InsideAny(OptExprItem(o), AnExpr(e)) <==> e in Given(o)
  {
    if o.Present? { InsideParts(AnExpr(o.e), AnExpr(e)); assert AnExpr(o.e) in OptExprItem(o); }
  }

  lemma {:induction false} OptExprsOccur(os: seq<OptExpr>, e: Expr)
    ensures InsideAny(OptExprItems(os), AnExpr(e)) <==> e in AllGiven(os)
  {
    if os != [] {
      OptExprOccurs(os[0], e);
      OptExprsOccur(os[1..], e);
      AnyAppend(OptExprItem(os[0]), OptExprItems(os[1..]), AnExpr(e));
    }
  }

  lemma OneExprOccurs(x: Expr, e: Expr)
    ensures InsideAny([AnExpr(x)], AnExpr(e)) <==> e == x
  {
    InsideParts(AnExpr(x), AnExpr(e));
    assert AnExpr(x) in [AnExpr(x)];
  }

  lemma TwoExprsOccur(x: Expr, y: Expr, e: Expr)
    ensures InsideAny([AnExpr(x), AnExpr(y)], AnExpr(e)) <==> e == x || e == y
  {
    OneExprOccurs(x, e);
    OneExprOccurs(y, e);
    AnyFirst(AnExpr(x), [AnExpr(y)], AnExpr(e));
    assert [AnExpr(x)] + [AnExpr(y)] == [AnExpr(x), AnExpr(y)];
    assert AnExpr(x) in [AnExpr(x)];
  }

  predicate HoldsOne(kind: StmtKind) {
    kind.VarDecl? || kind.RefDecl? || kind.Assign? || kind.Comptime? || kind.Raise? || kind.ExprStmt?
  }

  predicate HoldsNoBlock(kind: StmtKind) {
    HoldsOne(kind) || kind.AugAssign? || kind.SetPlace? || kind.Unpack? || kind.Return? || kind.Simple?
  }

  lemma DirectOccur(st: Stmt, e: Expr)
    requires HoldsNoBlock(st.kind)
    ensures e in Program.VisitedIn(st) <==> InsideAny(Parts(AStmt(st)), AnExpr(e))
  {
    if HoldsOne(st.kind) {
      OneExprOccurs(st.kind.value, e);
    } else if st.kind.AugAssign? || st.kind.SetPlace? {
      TwoExprsOccur(st.kind.place, st.kind.value, e);
    } else if st.kind.Unpack? {
      ExprsOccur(st.kind.targets, e);
      OneExprOccurs(st.kind.value, e);
      AnyAppend(Exprs(st.kind.targets), [AnExpr(st.kind.value)], AnExpr(e));
    } else if st.kind.Return? {
      OptExprOccurs(st.kind.result, e);
    }
  }

  lemma {:induction false} OptOccurs(o: OptBlock, e: Expr)
    ensures e in Program.VisitedInOpt(o) <==> InsideAny(Opt(o), AnExpr(e))
    decreases o, 2
  {
    if o.Block? { VisitedOccur(o.body, e); }
  }

  lemma {:induction false} BranchesOccur(branches: seq<Branch>, e: Expr)
    ensures e in Program.VisitedInBranches(branches) <==> InsideAny(Branches(branches), AnExpr(e))
    decreases branches, 1
  {
    if branches != [] {
      var branch := branches[0];
      OneExprOccurs(branch.cond, e);
      VisitedOccur(branch.body, e);
      AnyAppend([AnExpr(branch.cond)], Stmts(branch.body), AnExpr(e));
      InsideParts(ABranch(branch), AnExpr(e));
      BranchesOccur(branches[1..], e);
      BranchesSplit(branches);
      AnyFirst(ABranch(branch), Branches(branches[1..]), AnExpr(e));
    }
  }

  lemma BranchesSplit(branches: seq<Branch>)
    requires branches != []
    ensures Branches(branches) == [ABranch(branches[0])] + Branches(branches[1..])
  {
  }

  lemma {:induction false} MethodsOccur(methods: seq<Method>, e: Expr)
    ensures e in Program.VisitedInMethods(methods) <==> InsideAny(Methods(methods), AnExpr(e))
    decreases methods, 1
  {
    if methods != [] {
      MethodOccurs(methods[0], e);
      MethodsOccur(methods[1..], e);
      MethodsSplit(methods);
      AnyFirst(AMethod(methods[0]), Methods(methods[1..]), AnExpr(e));
    }
  }

  lemma {:induction false} MethodOccurs(m: Method, e: Expr)
    ensures e in (AllGiven(m.defaults) + Given(m.where_)) + Program.VisitedInOpt(m.body) <==>
            Inside(AMethod(m), AnExpr(e))
    decreases m
  {
    OptExprsOccur(m.defaults, e);
    OptExprOccurs(m.where_, e);
    OptOccurs(m.body, e);
    AnyAppend(OptExprItems(m.defaults), OptExprItem(m.where_), AnExpr(e));
    AnyAppend(OptExprItems(m.defaults) + OptExprItem(m.where_), Opt(m.body), AnExpr(e));
    InsideParts(AMethod(m), AnExpr(e));
  }

  lemma MethodsSplit(methods: seq<Method>)
    requires methods != []
    ensures Methods(methods) == [AMethod(methods[0])] + Methods(methods[1..])
  {
  }

  lemma {:induction false} StmtOccurs(st: Stmt, e: Expr)
    ensures e in Program.VisitedIn(st) <==> Inside(AStmt(st), AnExpr(e))
    decreases st, 1
  {
    InsideParts(AStmt(st), AnExpr(e));
    if HoldsNoBlock(st.kind) {
      DirectOccur(st, e);
    } else if st.kind.Def? || st.kind.Struct? || st.kind.Trait? {
      DefinitionOccurs(st, e);
    } else if st.kind.If? || st.kind.ComptimeIf? {
      IfOccurs(st, e);
    } else if st.kind.Try? {
      TryOccurs(st, e);
    } else {
      LoopOccurs(st, e);
    }
  }

  lemma {:induction false} DefinitionOccurs(st: Stmt, e: Expr)
    requires st.kind.Def? || st.kind.Struct? || st.kind.Trait?
    ensures e in Program.VisitedIn(st) <==> InsideAny(Parts(AStmt(st)), AnExpr(e))
    decreases st, 0
  {
    var x := AnExpr(e);
    match st.kind
    case Def(_, defaults, where_, body) =>
      OptExprsOccur(defaults, e);
      OptExprOccurs(where_, e);
      VisitedOccur(body, e);
      AnyAppend(OptExprItems(defaults), OptExprItem(where_), x);
      AnyAppend(OptExprItems(defaults) + OptExprItem(where_), Stmts(body), x);
    case Struct(_, conditions, associated, methods) =>
      ExprsOccur(conditions, e);
      ExprsOccur(associated, e);
      MethodsOccur(methods, e);
      AnyAppend(Exprs(conditions), Exprs(associated), x);
      AnyAppend(Exprs(conditions) + Exprs(associated), Methods(methods), x);
    case Trait(_, methods) => MethodsOccur(methods, e);
  }

  lemma {:induction false} TryOccurs(st: Stmt, e: Expr)
    requires st.kind.Try?
    ensures e in Program.VisitedIn(st) <==> InsideAny(Parts(AStmt(st)), AnExpr(e))
    decreases st, 0
  {
    var x, kind := AnExpr(e), st.kind;
    VisitedOccur(kind.body, e);
    OptOccurs(kind.handler, e);
    OptOccurs(kind.orelse, e);
    OptOccurs(kind.finalbody, e);
    AnyAppend(Stmts(kind.body), Opt(kind.handler), x);
    AnyAppend(Stmts(kind.body) + Opt(kind.handler), Opt(kind.orelse), x);
    AnyAppend((Stmts(kind.body) + Opt(kind.handler)) + Opt(kind.orelse), Opt(kind.finalbody), x);
  }

  lemma {:induction false} IfOccurs(st: Stmt, e: Expr)
    requires st.kind.If? || st.kind.ComptimeIf?
    ensures e in Program.VisitedIn(st) <==> InsideAny(Parts(AStmt(st)), AnExpr(e))
    decreases st, 0
  {
    BranchesOccur(st.kind.branches, e);
    OptOccurs(st.kind.orelse, e);
    AnyAppend(Branches(st.kind.branches), Opt(st.kind.orelse), AnExpr(e));
  }

  /** Loops and `with`. */
  lemma {:induction false} LoopOccurs(st: Stmt, e: Expr)
    requires st.kind.While? || st.kind.For? || st.kind.ComptimeFor? || st.kind.With?
    ensures e in Program.VisitedIn(st) <==> InsideAny(Parts(AStmt(st)), AnExpr(e))
    decreases st, 0
  {
    var x, body := AnExpr(e), st.kind.body;
    VisitedOccur(body, e);
    if st.kind.With? {
      ExprsOccur(st.kind.contexts, e);
      AnyAppend(Exprs(st.kind.contexts), Stmts(body), x);
    } else {
      var head := if st.kind.While? then st.kind.cond else st.kind.iter;
      OneExprOccurs(head, e);
      AnyAppend([AnExpr(head)], Stmts(body), x);
      if !st.kind.ComptimeFor? {
        OptOccurs(st.kind.orelse, e);
        AnyAppend([AnExpr(head)] + Stmts(body), Opt(st.kind.orelse), x);
      }
    }
  }

  /** The arena is given exactly the expressions that occur in the program outside other expressions. */
  lemma {:induction false} VisitedOccur(body: seq<Stmt>, e: Expr)
    ensures e in Program.Visited(body) <==> InsideAny(Stmts(body), AnExpr(e))
    decreases body, 1
  {
    if body != [] {
      StmtOccurs(body[0], e);
      VisitedOccur(body[1..], e);
      assert Stmts(body) == [AStmt(body[0])] + Stmts(body[1..]);
      AnyFirst(AStmt(body[0]), Stmts(body[1..]), AnExpr(e));
    }
  }
}
