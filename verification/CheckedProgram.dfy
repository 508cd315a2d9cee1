/** The checked program's arena of expressions, with its index by source location, and its declarations. */
module CheckedProgram {
  import opened CheckedSyntax
  import opened CheckedArena

  // ----- expressions -----

  datatype Category = ValueCategory | PlaceCategory | TypeCategory

  /** What the checker recorded: types by location, and the type applications that project a variant. */
  datatype Facts = Facts(types: map<Span, string>, projections: set<Span>)

  datatype Known = Unknown | Typed(ty: string)

  /** The part of a checked node kept in this model. */
  datatype Tag = Tag(span: Span, category: Category, ty: Known, moves: bool)

  function CategoryOf(e: Expr, facts: Facts): Category {
    match e.kind
    case Identifier(_) => PlaceCategory
    case Member(_) => PlaceCategory
    case Index(_, _) => PlaceCategory
    case TypeApply(_) => if e.span in facts.projections then PlaceCategory else TypeCategory
    case TypeValue(_) => TypeCategory
    case _ => ValueCategory
  }

  function TagOf(e: Expr, facts: Facts): Tag {
    Tag(e.span, CategoryOf(e, facts), if e.span in facts.types then Typed(facts.types[e.span])
        else Unknown, e.kind.Transfer?)
  }

  /** The tree of an expression and its operands. */
  function Shape(e: Expr, facts: Facts): Tree<Tag>
    decreases e, 1, 0
  {
    Tree(TagOf(e, facts), OperandShapes(e, Operands(e), facts))
  }

  function OperandShapes(parent: Expr, es: seq<Expr>, facts: Facts): (r: seq<Tree<Tag>>)
    requires forall k :: 0 <= k < |es| ==> es[k] < parent
    ensures |r| == |es|
    decreases parent, 0, |es|
  {
    if es == [] then [] else [Shape(es[0], facts)] + OperandShapes(parent, es[1..], facts)
  }

  function Shapes(es: seq<Expr>, facts: Facts): (r: seq<Tree<Tag>>)
    ensures |r| == |es|
  {
    if es == [] then [] else [Shape(es[0], facts)] + Shapes(es[1..], facts)
  }

  lemma {:induction false} OperandShapesAreShapes(parent: Expr, es: seq<Expr>, facts: Facts)
    requires forall k :: 0 <= k < |es| ==> es[k] < parent
    ensures OperandShapes(parent, es, facts) == Shapes(es, facts)
    decreases |es|
  {
    if es != [] { OperandShapesAreShapes(parent, es[1..], facts); }
  }

  lemma {:induction false} ShapesAppend(a: seq<Expr>, b: seq<Expr>, facts: Facts)
    ensures Shapes(a + b, facts) == Shapes(a, facts) + Shapes(b, facts)
    decreases |a|
  {
    if a == [] {
      assert a + b == b;
    } else {
      assert (a + b)[0] == a[0] && (a + b)[1..] == a[1..] + b;
      ShapesAppend(a[1..], b, facts);
    }
  }

  // ----- expressions of a program -----

  /** The expressions a block holds, in the order they are added to the arena. */
  function Visited(body: seq<Stmt>): seq<Expr>
    decreases body, 1
  {
    if body == [] then [] else VisitedIn(body[0]) + Visited(body[1..])
  }

  /** The expressions of a statement that holds no block. */
  function Direct(kind: StmtKind): seq<Expr> {
    match kind
    case VarDecl(_, value) => [value]
    case RefDecl(_, value) => [value]
    case Assign(value) => [value]
    case Comptime(_, value) => [value]
    case Raise(value) => [value]
    case ExprStmt(value) => [value]
    case AugAssign(place, value) => [place, value]
    case SetPlace(place, value) => [place, value]
    case Unpack(targets, value) => targets + [value]
    case Return(result) => Given(result)
    case _ => []
  }

  function VisitedIn(st: Stmt): seq<Expr>
    decreases st, 0
  {
    match st.kind
    case Def(_, defaults, where_, body) => (AllGiven(defaults) + Given(where_)) + Visited(body)
    case Struct(_, conditions, associated, methods) => (conditions + associated) + VisitedInMethods(methods)
    case Trait(_, methods) => VisitedInMethods(methods)
    case ComptimeIf(branches, orelse) => VisitedInBranches(branches) + VisitedInOpt(orelse)
    case If(branches, orelse) => VisitedInBranches(branches) + VisitedInOpt(orelse)
    case ComptimeFor(iter, body) => [iter] + Visited(body)
    case While(cond, body, orelse) => ([cond] + Visited(body)) + VisitedInOpt(orelse)
    case For(iter, body, orelse) => ([iter] + Visited(body)) + VisitedInOpt(orelse)
    case With(contexts, body) => contexts + Visited(body)
    case Try(body, handler, orelse, finalbody) =>
      ((Visited(body) + VisitedInOpt(handler)) + VisitedInOpt(orelse)) + VisitedInOpt(finalbody)
    case _ => Direct(st.kind)
  }

  function VisitedInOpt(o: OptBlock): seq<Expr>
    decreases o, 2
  {
    match o case NoBlock => [] case Block(body) => Visited(body)
  }

  function VisitedInBranches(branches: seq<Branch>): seq<Expr>
    decreases branches, 1
  {
    if branches == [] then [] else ([branches[0].cond] + Visited(branches[0].body)) + VisitedInBranches(branches[1..])
  }

  function VisitedInMethods(methods: seq<Method>): seq<Expr>
    decreases methods, 1
  {
    if methods == [] then []
    else
      ((AllGiven(methods[0].defaults) + Given(methods[0].where_)) + VisitedInOpt(methods[0].body)) +
      VisitedInMethods(methods[1..])
  }

  // ----- the index -----

  /** The numbers of the nodes at a location, in ascending order. */
  function At(nodes: seq<Node<Tag>>, span: Span): seq<nat> {
    if nodes == [] then []
    else
      var last := |nodes| - 1;
      At(nodes[..last], span) + if nodes[last].tag.span == span then [last] else []
  }

  /** Exactly the nodes at the location are listed, each once and in ascending order. */
  lemma {:induction false} AtIsExact(nodes: seq<Node<Tag>>, span: Span)
    ensures forall i :: i in At(nodes, span) <==> 0 <= i < |nodes| && nodes[i].tag.span == span
    ensures forall j, k :: 0 <= j < k < |At(nodes, span)| ==> At(nodes, span)[j] < At(nodes, span)[k]
    decreases |nodes|
  {
    if nodes != [] {
      var last := |nodes| - 1;
      AtIsExact(nodes[..last], span);
      var before := At(nodes[..last], span);
      assert forall k :: 0 <= k < |before| ==> before[k] in before;
    }
  }

  class Builder {
    var nodes: seq<Node<Tag>>
    var index: map<Span, seq<nat>>
    const facts: Facts

    ghost predicate Valid()
      reads this
    {
      forall span :: if span in index then index[span] == At(nodes, span) else At(nodes, span) == []
    }

    constructor (facts: Facts)
      ensures Valid() && nodes == [] && this.facts == facts
    {
      nodes := [];
      index := map[];
      this.facts := facts;
    }

    /** Adds an expression after its operands and returns its number. */
    method Expression(e: Expr) returns (id: nat)
      requires Valid()
      modifies this
      ensures Valid()
      ensures nodes == old(nodes) + PostOrder(Shape(e, facts), |old(nodes)|)
      ensures id == |old(nodes)| + Size(Shape(e, facts)) - 1
      decreases e, 1, 0
    {
      ghost var shapes := OperandShapes(e, Operands(e), facts);
      var children := AddOperands(e, Operands(e));
      id := |nodes|;
      Push(Node(id, TagOf(e, facts), children));
      Associates(old(nodes), PostOrderAll(shapes, |old(nodes)|), [Node(id, TagOf(e, facts), children)]);
    }

    method AddOperands(parent: Expr, es: seq<Expr>) returns (ids: seq<nat>)
      requires Valid() && forall k :: 0 <= k < |es| ==> es[k] < parent
      modifies this
      ensures Valid()
      ensures nodes == old(nodes) + PostOrderAll(OperandShapes(parent, es, facts), |old(nodes)|)
      ensures ids == PostRoots(OperandShapes(parent, es, facts), |old(nodes)|)
      decreases parent, 0, |es|
    {
      ids := [];
      ghost var n := |nodes|;
      assert es[..0] == [];
      for k := 0 to |es|
        invariant Valid()
        invariant nodes == old(nodes) + PostOrderAll(Shapes(es[..k], facts), n)
        invariant ids == PostRoots(Shapes(es[..k], facts), n)
      {
        var id := Expression(es[k]);
        ids := ids + [id];
        OneMore(old(nodes), es, k, facts);
      }
      assert es[..|es|] == es;
      OperandShapesAreShapes(parent, es, facts);
    }

    method Push(node: Node<Tag>)
      requires Valid()
      modifies this
      ensures Valid() && nodes == old(nodes) + [node]
    {
      var span, earlier := node.tag.span, if node.tag.span in index then index[node.tag.span] else [];
      index := index[span := earlier + [|nodes|]];
      nodes := nodes + [node];
      forall s ensures At(nodes, s) == At(old(nodes), s) + if s == span then [|old(nodes)|] else [] {
        assert nodes[..|nodes| - 1] == old(nodes);
      }
    }

    /** The arena has grown by the expressions `es`, in order. */
    ghost predicate Grew(before: seq<Node<Tag>>, es: seq<Expr>)
      reads this
    {
      Valid() && nodes == before + PostOrderAll(Shapes(es, facts), |before|)
    }

    method Add(e: Expr, ghost before: seq<Node<Tag>>, ghost done: seq<Expr>)
      requires Grew(before, done)
      modifies this
      ensures Grew(before, done + [e])
    {
      var _ := Expression(e);
      OneShape(e, facts, |before| + TotalSize(Shapes(done, facts)));
      GrewOn(before, done, [e], facts);
    }

    method AddAll(es: seq<Expr>, ghost before: seq<Node<Tag>>, ghost done: seq<Expr>)
      requires Grew(before, done)
      modifies this
      ensures Grew(before, done + es)
    {
      assert done + es[..0] == done;
      for k := 0 to |es|
        invariant Grew(before, done + es[..k])
      {
        Add(es[k], before, done + es[..k]);
        assert (done + es[..k]) + [es[k]] == done + es[..k + 1];
      }
      assert done + es[..|es|] == done + es;
    }

    /** Adds the expressions of a block; `done` are those added since the arena was `before`. */
    method Block(body: seq<Stmt>, ghost before: seq<Node<Tag>>, ghost done: seq<Expr>)
      requires Grew(before, done)
      modifies this
      ensures Grew(before, done + Visited(body))
      decreases body, 1
    {
      assert body[0..] == body;
      ghost var added: seq<Expr> := [];
      assert done + [] == done;
      for k := 0 to |body|
        invariant Grew(before, done + added) && added + Visited(body[k..]) == Visited(body)
      {
        assert body[k..][0] == body[k] && body[k..][1..] == body[k + 1..];
        Statement(body[k], before, done + added);
        ghost var next := VisitedIn(body[k]);
        Associates(done, added, next);
        Associates(added, next, Visited(body[k + 1..]));
        added := added + next;
      }
      assert added + [] == added;
    }

    method Optional(o: OptBlock, ghost before: seq<Node<Tag>>, ghost done: seq<Expr>)
      requires Grew(before, done)
      modifies this
      ensures Grew(before, done + VisitedInOpt(o))
      decreases o, 2
    {
      match o
      case NoBlock => assert done + [] == done;
      case Block(body) => Block(body, before, done);
    }

    method Branches(branches: seq<Branch>, ghost before: seq<Node<Tag>>, ghost done: seq<Expr>)
      requires Grew(before, done)
      modifies this
      ensures Grew(before, done + VisitedInBranches(branches))
      decreases branches, 1
    {
      assert branches[0..] == branches;
      ghost var added: seq<Expr> := [];
      assert done + [] == done;
      for k := 0 to |branches|
        invariant Grew(before, done + added) && added + VisitedInBranches(branches[k..]) == VisitedInBranches(branches)
      {
        var branch := branches[k];
        assert branches[k..][0] == branch && branches[k..][1..] == branches[k + 1..];
        Add(branch.cond, before, done + added);
        Block(branch.body, before, (done + added) + [branch.cond]);
        ghost var next := [branch.cond] + Visited(branch.body);
        Associates(done + added, [branch.cond], Visited(branch.body));
        Associates(done, added, next);
        Associates(added, next, VisitedInBranches(branches[k + 1..]));
        added := added + next;
      }
      assert added + [] == added;
    }

    method Methods(methods: seq<Method>, ghost before: seq<Node<Tag>>, ghost done: seq<Expr>)
      requires Grew(before, done)
      modifies this
      ensures Grew(before, done + VisitedInMethods(methods))
      decreases methods, 1
    {
      assert methods[0..] == methods;
      ghost var added: seq<Expr> := [];
      assert done + [] == done;
      for k := 0 to |methods|
        invariant Grew(before, done + added) && added + VisitedInMethods(methods[k..]) == VisitedInMethods(methods)
      {
        var m := methods[k];
        assert methods[k..][0] == m && methods[k..][1..] == methods[k + 1..];
        ghost var header := AllGiven(m.defaults) + Given(m.where_);
        AddAll(AllGiven(m.defaults) + Given(m.where_), before, done + added);
        Optional(m.body, before, (done + added) + header);
        ghost var next := header + VisitedInOpt(m.body);
        Associates(done + added, header, VisitedInOpt(m.body));
        Associates(done, added, next);
        Associates(added, next, VisitedInMethods(methods[k + 1..]));
        added := added + next;
      }
      assert added + [] == added;
    }

    method Statement(st: Stmt, ghost before: seq<Node<Tag>>, ghost done: seq<Expr>)
      requires Grew(before, done)
      modifies this
      ensures Grew(before, done + VisitedIn(st))
      decreases st, 1
    {
      ghost var visited := VisitedIn(st);
      match st.kind
      case Def(_, defaults, where_, body) =>
        assert visited == (AllGiven(defaults) + Given(where_)) + Visited(body);
        Headed(st, AllGiven(defaults) + Given(where_), body, before, done);
      case Struct(_, conditions, associated, methods) =>
        assert visited == (conditions + associated) + VisitedInMethods(methods);
        Members(st, conditions + associated, methods, before, done);
      case Trait(_, methods) =>
        assert visited == VisitedInMethods(methods);
        Methods(methods, before, done);
      case ComptimeIf(branches, orelse) =>
        assert visited == VisitedInBranches(branches) + VisitedInOpt(orelse);
        Choice(st, branches, orelse, before, done);
      case If(branches, orelse) =>
        assert visited == VisitedInBranches(branches) + VisitedInOpt(orelse);
        Choice(st, branches, orelse, before, done);
      case ComptimeFor(iter, body) =>
        assert visited == [iter] + Visited(body);
        Headed(st, [iter], body, before, done);
      case While(cond, body, orelse) =>
        assert visited == ([cond] + Visited(body)) + VisitedInOpt(orelse);
        Loop(st, cond, body, orelse, before, done);
      case For(iter, body, orelse) =>
        assert visited == ([iter] + Visited(body)) + VisitedInOpt(orelse);
        Loop(st, iter, body, orelse, before, done);
      case With(contexts, body) =>
        assert visited == contexts + Visited(body);
        Headed(st, contexts, body, before, done);
      case Try(body, handler, orelse, finalbody) =>
        assert visited == ((Visited(body) + VisitedInOpt(handler)) + VisitedInOpt(orelse)) + VisitedInOpt(finalbody);
        TryStatement(st, body, handler, orelse, finalbody, before, done);
      case _ =>
        assert visited == Direct(st.kind);
        AddAll(Direct(st.kind), before, done);
    }

    method TryStatement(ghost st: Stmt, body: seq<Stmt>, handler: OptBlock, orelse: OptBlock, finalbody: OptBlock,
                        ghost before: seq<Node<Tag>>, ghost done: seq<Expr>)
      requires Grew(before, done)
      requires (st decreases to body) && (st decreases to handler) && (st decreases to orelse) &&
        (st decreases to finalbody)
      modifies this
      ensures Grew(before,
                   done + (((Visited(body) + VisitedInOpt(handler)) + VisitedInOpt(orelse)) + VisitedInOpt(finalbody)))
      decreases st, 0
    {
      Block(body, before, done);
      Optional(handler, before, done + Visited(body));
      Associates(done, Visited(body), VisitedInOpt(handler));
      ghost var two := Visited(body) + VisitedInOpt(handler);
      Optional(orelse, before, done + two);
      Associates(done, two, VisitedInOpt(orelse));
      Optional(finalbody, before, done + (two + VisitedInOpt(orelse)));
      Associates(done, two + VisitedInOpt(orelse), VisitedInOpt(finalbody));
    }

    /** Expressions followed by a block. */
    method Headed(ghost st: Stmt, es: seq<Expr>, body: seq<Stmt>, ghost before: seq<Node<Tag>>, ghost done: seq<Expr>)
      requires Grew(before, done) && (st decreases to body)
      modifies this
      ensures Grew(before, done + (es + Visited(body)))
      decreases st, 0
    {
      AddAll(es, before, done);
      Block(body, before, done + es);
      Associates(done, es, Visited(body));
    }

    method Members(ghost st: Stmt, es: seq<Expr>, methods: seq<Method>, ghost before: seq<Node<Tag>>,
                   ghost done: seq<Expr>)
      requires Grew(before, done) && (st decreases to methods)
      modifies this
      ensures Grew(before, done + (es + VisitedInMethods(methods)))
      decreases st, 0
    {
      AddAll(es, before, done);
      Methods(methods, before, done + es);
      Associates(done, es, VisitedInMethods(methods));
    }

    method Choice(ghost st: Stmt, branches: seq<Branch>, orelse: OptBlock, ghost before: seq<Node<Tag>>,
                  ghost done: seq<Expr>)
      requires Grew(before, done) && (st decreases to branches) && (st decreases to orelse)
      modifies this
      ensures Grew(before, done + (VisitedInBranches(branches) + VisitedInOpt(orelse)))
      decreases st, 0
    {
      Branches(branches, before, done);
      Optional(orelse, before, done + VisitedInBranches(branches));
      Associates(done, VisitedInBranches(branches), VisitedInOpt(orelse));
    }

    method Loop(ghost st: Stmt, head: Expr, body: seq<Stmt>, orelse: OptBlock, ghost before: seq<Node<Tag>>,
                ghost done: seq<Expr>)
      requires Grew(before, done) && (st decreases to body) && (st decreases to orelse)
      modifies this
      ensures Grew(before, done + (([head] + Visited(body)) + VisitedInOpt(orelse)))
      decreases st, 0
    {
      Add(head, before, done);
      Block(body, before, done + [head]);
      Associates(done, [head], Visited(body));
      ghost var part := [head] + Visited(body);
      Optional(orelse, before, done + part);
      Associates(done, part, VisitedInOpt(orelse));
    }
  }

  lemma OneShape(e: Expr, facts: Facts, n: nat)
    ensures Shapes([e], facts) == [Shape(e, facts)]
    ensures PostOrderAll(Shapes([e], facts), n) == PostOrder(Shape(e, facts), n)
    ensures PostRoots(Shapes([e], facts), n) == [n + Size(Shape(e, facts)) - 1]
  {
    assert [e][1..] == [];
    var t := Shape(e, facts);
    assert [t][1..] == [] && PostOrderAll([t], n) == PostOrder(t, n) + [];
  }

  lemma OneMore(before: seq<Node<Tag>>, es: seq<Expr>, k: nat, facts: Facts)
    requires k < |es|
    ensures var n := |before|; var done := Shapes(es[..k], facts); var m := n + TotalSize(done);
      && before + PostOrderAll(Shapes(es[..k + 1], facts), n)
        == (before + PostOrderAll(done, n)) + PostOrder(Shape(es[k], facts), m)
      && PostRoots(Shapes(es[..k + 1], facts), n) == PostRoots(done, n) + [m + Size(Shape(es[k], facts)) - 1]
  {
    var n, done := |before|, Shapes(es[..k], facts);
    assert es[..k + 1] == es[..k] + [es[k]];
    ShapesAppend(es[..k], [es[k]], facts);
    PostOrderAppend(done, Shapes([es[k]], facts), n);
    PostRootsAppend(done, Shapes([es[k]], facts), n);
    OneShape(es[k], facts, n + TotalSize(done));
    Associates(before, PostOrderAll(done, n), PostOrder(Shape(es[k], facts), n + TotalSize(done)));
  }

  lemma GrewOn(before: seq<Node<Tag>>, a: seq<Expr>, b: seq<Expr>, facts: Facts)
    ensures var n := |before|; var m := n + TotalSize(Shapes(a, facts));
      before + PostOrderAll(Shapes(a + b, facts), n)
        == (before + PostOrderAll(Shapes(a, facts), n)) + PostOrderAll(Shapes(b, facts), m)
  {
    var n := |before|;
    ShapesAppend(a, b, facts);
    PostOrderAppend(Shapes(a, facts), Shapes(b, facts), n);
    Associates(before, PostOrderAll(Shapes(a, facts), n),
               PostOrderAll(Shapes(b, facts), n + TotalSize(Shapes(a, facts))));
  }

  /** The arena of a program and its index by location. */
  method BuildCheckedExpressions(statements: seq<Stmt>, facts: Facts)
    returns (nodes: seq<Node<Tag>>, index: map<Span, seq<nat>>)
    ensures nodes == PostOrderAll(Shapes(Visited(statements), facts), 0)
    ensures forall span :: if span in index then index[span] == At(nodes, span) else At(nodes, span) == []
  {
    var builder := new Builder(facts);
    builder.Block(statements, [], []);
    nodes, index := builder.nodes, builder.index;
    assert [] + Visited(statements) == Visited(statements);
    assert [] + nodes == nodes;
  }

  // ----- the arena is faithful -----

  /** The number of the expression added k-th, all counted in the order they are visited. */
  function RootAt(es: seq<Expr>, facts: Facts, k: nat): nat
    requires k < |es|
  {
    TotalSize(Shapes(es[..k], facts)) + Size(Shape(es[k], facts)) - 1
  }

  /** Whatever the program, every expression in it is rebuilt from the node it was given, and operands are numbered
      before the expressions they belong to. */
  lemma ArenaRebuilds(statements: seq<Stmt>, facts: Facts, k: nat)
    requires k < |Visited(statements)|
    ensures var es := Visited(statements); var nodes := PostOrderAll(Shapes(es, facts), 0);
      && Backward(nodes) && Numbered(nodes, 0) && |nodes| == TotalSize(Shapes(es, facts))
      && RootAt(es, facts, k) < |nodes|
      && Rebuild(nodes, RootAt(es, facts, k)) == Shape(es[k], facts)
  {
    var es := Visited(statements);
    var all := Shapes(es, facts);
    PostOrdersAreBackward(all, 0);
    ShapesSplit(es, k, facts);
    assert RootAt(es, facts, k) == TotalSize(all[..k]) + Size(all[k]) - 1;
    RootRebuilds(all, k);
  }

  lemma ShapesSplit(es: seq<Expr>, k: nat, facts: Facts)
    requires k < |es|
    ensures Shapes(es, facts)[..k] == Shapes(es[..k], facts) && Shapes(es, facts)[k] == Shape(es[k], facts)
  {
    assert es == es[..k] + es[k..];
    ShapesAppend(es[..k], es[k..], facts);
  }

  lemma {:induction false} RootIsLaid<L>(nodes: seq<Node<L>>, all: seq<Tree<L>>, n: nat, k: nat)
    requires k < |all| && Laid(nodes, n, PostOrderAll(all, n))
    ensures var m := n + TotalSize(all[..k]); Laid(nodes, m, PostOrder(all[k], m))
    decreases k
  {
    LaidParts(nodes, n, PostOrder(all[0], n), PostOrderAll(all[1..], n + Size(all[0])));
    if k > 0 {
      RootIsLaid(nodes, all[1..], n + Size(all[0]), k - 1);
      assert all[..k][1..] == all[1..][..k - 1];
    }
  }

  lemma WholeIsLaid<L>(nodes: seq<Node<L>>)
    ensures Laid(nodes, 0, nodes)
  {
    assert nodes[0..|nodes|] == nodes;
  }

  lemma RootRebuilds<L>(all: seq<Tree<L>>, k: nat)
    requires k < |all| && Backward(PostOrderAll(all, 0))
    ensures var id := TotalSize(all[..k]) + Size(all[k]) - 1;
      id < |PostOrderAll(all, 0)| && Rebuild(PostOrderAll(all, 0), id) == all[k]
  {
    var nodes := PostOrderAll(all, 0);
    var n := TotalSize(all[..k]);
    WholeIsLaid(nodes);
    RootIsLaid(nodes, all, 0, k);
    assert Laid(nodes, n, PostOrder(all[k], n));
    PostOrderRebuilds(nodes, all[k], n);
  }
}
