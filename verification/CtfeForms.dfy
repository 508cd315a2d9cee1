/** What the classifier looks at in a body, stated over chains of parts instead of by the shape of the walk: a body is
    of safe form exactly when nothing in it is unsafe by itself, and its callees are exactly the functions named in
    it. */
module CtfeForms {
  import opened CtfeSafety

  datatype Item = AnExpr(e: Expr) | AParam(p: ParamArg) | AStmt(st: Stmt) | ABranch(branch: Branch)

  function Exprs(es: seq<Expr>): seq<Item> {
    seq(|es|, i requires 0 <= i < |es| => AnExpr(es[i]))
  }

  function Params(ps: seq<ParamArg>): seq<Item> {
    seq(|ps|, i requires 0 <= i < |ps| => AParam(ps[i]))
  }

  function Stmts(body: seq<Stmt>): seq<Item> {
    seq(|body|, i requires 0 <= i < |body| => AStmt(body[i]))
  }

  function Branches(branches: seq<Branch>): seq<Item> {
    seq(|branches|, i requires 0 <= i < |branches| => ABranch(branches[i]))
  }

  /** The parts directly inside an item. The `else` of a loop is not looked at, nor is anything given by keyword or
      named twice, which is unsafe whatever it holds. */
  function Parts(item: Item): seq<Item> {
    match item
    case AnExpr(Compound(parts)) => Exprs(parts)
    case AnExpr(Call(_, params, args, _)) => Params(params) + Exprs(args)
    case AParam(ValueArg(value)) => [AnExpr(value)]
    case AParam(NamedArg(inner)) => if inner.NamedArg? then [] else [AParam(inner)]
    case AStmt(Simple(exprs)) => Exprs(exprs)
    case AStmt(If(branches, orelse)) => Branches(branches) + if orelse.Else? then Stmts(orelse.body) else []
    case AStmt(While(cond, body, _)) => [AnExpr(cond)] + Stmts(body)
    case AStmt(For(iter, body, _)) => [AnExpr(iter)] + Stmts(body)
    case ABranch(Branch(cond, body)) => [AnExpr(cond)] + Stmts(body)
    case _ => []
  }

  ghost predicate Chain(items: seq<Item>) {
    items != [] && forall i :: 0 <= i < |items| - 1 ==> items[i + 1] in Parts(items[i])
  }

  /** `b` is `a` or lies somewhere inside it. */
  ghost predicate Inside(a: Item, b: Item) {
    exists items :: Chain(items) && items[0] == a && items[|items| - 1] == b
  }

  predicate UnsafeItself(item: Item) {
    match item
    case AnExpr(UnsafeExpr) => true
    case AnExpr(Call(_, _, _, kwargs)) => kwargs != []
    case AParam(NamedArg(inner)) => inner.NamedArg?
    case AStmt(UnsafeStmt) => true
    case _ => false
  }

  predicate CallsFunction(item: Item, name: string) {
    item.AnExpr? && item.e.Call? && item.e.name == name && !Builtin(name)
  }

  ghost predicate Clean(item: Item) {
    forall b :: Inside(item, b) ==> !UnsafeItself(b)
  }

  ghost predicate Mentions(item: Item, name: string) {
    exists b :: Inside(item, b) && CallsFunction(b, name)
  }

  // ----- one step down -----

  lemma InsideSelf(a: Item)
    ensures Inside(a, a)
  {
    assert Chain([a]) && [a][|[a]| - 1] == a;
  }

  lemma ChainFrom(a: Item, items: seq<Item>)
    requires Chain(items) && items[0] in Parts(a)
    ensures Chain([a] + items)
  {
    var all := [a] + items;
    assert all[0] == a && all[1] == items[0];
    assert forall i :: 0 < i < |all| ==> all[i] == items[i - 1];
  }

  lemma InsidePart(a: Item, part: Item, b: Item)
    requires part in Parts(a) && Inside(part, b)
    ensures Inside(a, b)
  {
    var items :| Chain(items) && items[0] == part && items[|items| - 1] == b;
    ChainFrom(a, items);
    var all := [a] + items;
    assert all[0] == a && all[|all| - 1] == b;
  }

  lemma InsideSome(a: Item, b: Item) returns (part: Item)
    requires Inside(a, b) && a != b
    ensures part in Parts(a) && Inside(part, b)
  {
    var items :| Chain(items) && items[0] == a && items[|items| - 1] == b;
    part := items[1];
    var tail := items[1..];
    assert Chain(tail) && tail[|tail| - 1] == b;
  }

  lemma CleanStep(a: Item)
    ensures Clean(a) <==> !UnsafeItself(a) && forall part <- Parts(a) :: Clean(part)
  {
    InsideSelf(a);
    if Clean(a) {
      forall part, b | part in Parts(a) && Inside(part, b) ensures !UnsafeItself(b) { InsidePart(a, part, b); }
    }
    if !UnsafeItself(a) && forall part <- Parts(a) :: Clean(part) {
      forall b | Inside(a, b) ensures !UnsafeItself(b) {
        if b != a { var part := InsideSome(a, b); }
      }
    }
  }

  lemma MentionsStep(a: Item, name: string)
    ensures Mentions(a, name) <==> CallsFunction(a, name) || exists part <- Parts(a) :: Mentions(part, name)
  {
    InsideSelf(a);
    if Mentions(a, name) && !CallsFunction(a, name) {
      var b :| Inside(a, b) && CallsFunction(b, name);
      var part := InsideSome(a, b);
      assert Mentions(part, name);
    }
    if part :| part in Parts(a) && Mentions(part, name) {
      var b :| Inside(part, b) && CallsFunction(b, name);
      InsidePart(a, part, b);
    }
  }

  // ----- the walk -----

  ghost predicate AllClean(items: seq<Item>) {
    forall item <- items :: Clean(item)
  }

  ghost predicate AnyMentions(items: seq<Item>, name: string) {
    exists item <- items :: Mentions(item, name)
  }

  lemma CleanParts(a: Item, name: string)
    ensures Clean(a) <==> !UnsafeItself(a) && AllClean(Parts(a))
    ensures Mentions(a, name) <==> CallsFunction(a, name) || AnyMentions(Parts(a), name)
  {
    CleanStep(a);
    MentionsStep(a, name);
  }

  lemma CleanAppend(xs: seq<Item>, ys: seq<Item>, name: string)
    ensures AllClean(xs + ys) <==> AllClean(xs) && AllClean(ys)
    ensures AnyMentions(xs + ys, name) <==> AnyMentions(xs, name) || AnyMentions(ys, name)
  {
    assert forall x :: x in xs + ys <==> x in xs || x in ys;
  }

  lemma CleanFirst(first: Item, rest: seq<Item>, name: string)
    ensures AllClean([first] + rest) <==> Clean(first) && AllClean(rest)
    ensures AnyMentions([first] + rest, name) <==> Mentions(first, name) || AnyMentions(rest, name)
  {
    CleanAppend([first], rest, name);
    assert first in [first];
  }

  lemma {:induction false} ExprForm(e: Expr, name: string)
    ensures SafeForm(e) <==> Clean(AnExpr(e))
    ensures name in Callees(e) <==> Mentions(AnExpr(e), name)
    decreases e, 0
  {
    CleanParts(AnExpr(e), name);
    match e
    case Compound(parts) => ExprForms(parts, name);
    case Call(_, params, args, _) =>
      ParamForms(params, name);
      ExprForms(args, name);
      CleanAppend(Params(params), Exprs(args), name);
    case _ =>
  }

  lemma {:induction false} ExprForms(es: seq<Expr>, name: string)
    ensures SafeForms(es) <==> AllClean(Exprs(es))
    ensures name in AllCallees(es) <==> AnyMentions(Exprs(es), name)
    decreases es, 1
  {
    if es != [] {
      ExprForm(es[0], name);
      ExprForms(es[1..], name);
      assert Exprs(es) == [AnExpr(es[0])] + Exprs(es[1..]);
      CleanFirst(AnExpr(es[0]), Exprs(es[1..]), name);
    }
  }

  lemma {:induction false} ParamForm(p: ParamArg, name: string)
    ensures SafeParam(p) <==> Clean(AParam(p))
    ensures name in ParamCallee(p) <==> Mentions(AParam(p), name)
    decreases p, 0
  {
    CleanParts(AParam(p), name);
    match p
    case ValueArg(value) => ExprForm(value, name);
    case NamedArg(ValueArg(value)) =>
      CleanParts(AParam(p.inner), name);
      ExprForm(value, name);
    case NamedArg(TypeArg) => CleanParts(AParam(TypeArg), name);
    case _ =>
  }

  lemma {:induction false} ParamForms(ps: seq<ParamArg>, name: string)
    ensures SafeParams(ps) <==> AllClean(Params(ps))
    ensures name in ParamCallees(ps) <==> AnyMentions(Params(ps), name)
    decreases ps, 1
  {
    if ps != [] {
      ParamForm(ps[0], name);
      ParamForms(ps[1..], name);
      assert Params(ps) == [AParam(ps[0])] + Params(ps[1..]);
      CleanFirst(AParam(ps[0]), Params(ps[1..]), name);
    }
  }

  lemma {:induction false} StmtForm(st: Stmt, name: string)
    ensures SafeStmtForm(st) <==> Clean(AStmt(st))
    ensures name in StmtCallees(st) <==> Mentions(AStmt(st), name)
    decreases st, 0
  {
    CleanParts(AStmt(st), name);
    match st
    case Simple(exprs) => ExprForms(exprs, name);
    case If(branches, orelse) =>
      BranchForms(branches, name);
      var last := if orelse.Else? then Stmts(orelse.body) else [];
      if orelse.Else? { BlockForm(orelse.body, name); }
      CleanAppend(Branches(branches), last, name);
    case While(cond, body, _) =>
      ExprForm(cond, name);
      BlockForm(body, name);
      CleanFirst(AnExpr(cond), Stmts(body), name);
    case For(iter, body, _) =>
      ExprForm(iter, name);
      BlockForm(body, name);
      CleanFirst(AnExpr(iter), Stmts(body), name);
    case UnsafeStmt =>
  }

  /** A body is of safe form exactly when nothing in it is unsafe by itself, and its callees are exactly the functions
      called somewhere in it. */
  lemma {:induction false} BlockForm(body: seq<Stmt>, name: string)
    ensures SafeBlockForm(body) <==> AllClean(Stmts(body))
    ensures name in BlockCallees(body) <==> AnyMentions(Stmts(body), name)
    decreases body, 1
  {
    if body != [] {
      StmtForm(body[0], name);
      BlockForm(body[1..], name);
      assert Stmts(body) == [AStmt(body[0])] + Stmts(body[1..]);
      CleanFirst(AStmt(body[0]), Stmts(body[1..]), name);
    }
  }

  lemma {:induction false} BranchForms(branches: seq<Branch>, name: string)
    ensures SafeBranchForms(branches) <==> AllClean(Branches(branches))
    ensures name in BranchCallees(branches) <==> AnyMentions(Branches(branches), name)
    decreases branches, 1
  {
    if branches != [] {
      BranchForm(branches[0], name);
      BranchForms(branches[1..], name);
      BranchesSplit(branches);
      CleanFirst(ABranch(branches[0]), Branches(branches[1..]), name);
    }
  }

  lemma BranchesSplit(branches: seq<Branch>)
    requires branches != []
    ensures Branches(branches) == [ABranch(branches[0])] + Branches(branches[1..])
  {
  }

  lemma {:induction false} BranchForm(branch: Branch, name: string)
    ensures SafeForm(branch.cond) && SafeBlockForm(branch.body) <==> Clean(ABranch(branch))
    ensures name in Callees(branch.cond) + BlockCallees(branch.body) <==> Mentions(ABranch(branch), name)
    decreases branch
  {
    CleanParts(ABranch(branch), name);
    ExprForm(branch.cond, name);
    BlockForm(branch.body, name);
    CleanFirst(AnExpr(branch.cond), Stmts(branch.body), name);
  }
}
