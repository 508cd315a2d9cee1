/** The checked program's declarations: a forest in which a declaration comes before everything it contains. */
module CheckedDeclarations {
  import opened CheckedSyntax
  import opened CheckedArena

  datatype DeclKind = Function | StructDecl | TraitDecl | Binding | CompileTime

  datatype DeclTag = DeclTag(kind: DeclKind, name: string, location: Span)

  type Decl = Node<DeclTag>

  /** A statement that declares a name, with the tag of its declaration. */
  function TagOf(st: Stmt): DeclTag
    requires Declares(st)
  {
    match st.kind
    case Def(name, _, _, _) => DeclTag(Function, name, st.span)
    case Struct(name, _, _, _) => DeclTag(StructDecl, name, st.span)
    case Trait(name, _) => DeclTag(TraitDecl, name, st.span)
    case VarDecl(name, _) => DeclTag(Binding, name, st.span)
    case RefDecl(name, _) => DeclTag(Binding, name, st.span)
    case Comptime(name, _) => DeclTag(CompileTime, name, st.span)
  }

  predicate Declares(st: Stmt) {
    st.kind.Def? || st.kind.Struct? || st.kind.Trait? || st.kind.VarDecl? || st.kind.RefDecl? || st.kind.Comptime?
  }

  // ----- the forest of declarations -----

  /** Declarations inside control flow belong to the block around it. */
  function Forest(body: seq<Stmt>): seq<Tree<DeclTag>>
    decreases body, 1
  {
    if body == [] then [] else ForestIn(body[0]) + Forest(body[1..])
  }

  function ForestIn(st: Stmt): seq<Tree<DeclTag>>
    decreases st, 1
  {
    if Declares(st) then [Tree(TagOf(st), Inside(st))]
    else
      match st.kind
      case If(branches, orelse) => ForestInBranches(branches) + ForestInOpt(orelse)
      case ComptimeIf(branches, orelse) => ForestInBranches(branches) + ForestInOpt(orelse)
      case While(_, body, orelse) => Forest(body) + ForestInOpt(orelse)
      case For(_, body, orelse) => Forest(body) + ForestInOpt(orelse)
      case Try(body, handler, orelse, finalbody) =>
        ((Forest(body) + ForestInOpt(handler)) + ForestInOpt(orelse)) + ForestInOpt(finalbody)
      case With(_, body) => Forest(body)
      case ComptimeFor(_, body) => Forest(body)
      case _ => []
  }

  function Inside(st: Stmt): seq<Tree<DeclTag>>
    decreases st, 0
  {
    match st.kind
    case Def(_, _, _, body) => Forest(body)
    case Struct(_, _, _, methods) => ForestInMethods(methods)
    case _ => []
  }

  function ForestInOpt(o: OptBlock): seq<Tree<DeclTag>>
    decreases o, 2
  {
    match o case NoBlock => [] case Block(body) => Forest(body)
  }

  function ForestInBranches(branches: seq<Branch>): seq<Tree<DeclTag>>
    decreases branches, 1
  {
    if branches == [] then [] else Forest(branches[0].body) + ForestInBranches(branches[1..])
  }

  function ForestInMethods(methods: seq<Method>): seq<Tree<DeclTag>>
    decreases methods, 1
  {
    if methods == [] then [] else ForestInOpt(methods[0].body) + ForestInMethods(methods[1..])
  }

  // ----- building it -----

  class Declarations {
    var out: seq<Decl>

    constructor ()
      ensures out == []
    {
      out := [];
    }

    /** The forest `ts` has been added since the arena was `before`, and `ids` are the numbers of its roots. */
    ghost predicate Grew(before: seq<Decl>, ts: seq<Tree<DeclTag>>, ids: seq<nat>)
      reads this
    {
      out == before + PreOrderAll(ts, |before|) && ids == PreRoots(ts, |before|)
    }

    method Block(body: seq<Stmt>) returns (ids: seq<nat>)
      modifies this
      ensures Grew(old(out), Forest(body), ids)
      decreases body, 1
    {
      ids := [];
      ghost var before, done := out, [];
      assert body[0..] == body && done + Forest(body) == Forest(body);
      for k := 0 to |body|
        invariant Grew(before, done, ids) && done + Forest(body[k..]) == Forest(body)
      {
        assert body[k..][0] == body[k] && body[k..][1..] == body[k + 1..];
        ghost var middle := out;
        var more := Statement(body[k]);
        GrewTwice(before, done, ForestIn(body[k]));
        Associates(done, ForestIn(body[k]), Forest(body[k + 1..]));
        ids := ids + more;
        done := done + ForestIn(body[k]);
      }
      assert done + [] == done;
    }

    method Optional(o: OptBlock) returns (ids: seq<nat>)
      modifies this
      ensures Grew(old(out), ForestInOpt(o), ids)
      decreases o, 2
    {
      match o
      case NoBlock =>
        ids := [];
        assert out + [] == out;
      case Block(body) => ids := Block(body);
    }

    method Branches(branches: seq<Branch>) returns (ids: seq<nat>)
      modifies this
      ensures Grew(old(out), ForestInBranches(branches), ids)
      decreases branches, 1
    {
      ids := [];
      ghost var before, done := out, [];
      assert branches[0..] == branches && done + ForestInBranches(branches) == ForestInBranches(branches);
      for k := 0 to |branches|
        invariant Grew(before, done, ids) && done + ForestInBranches(branches[k..]) == ForestInBranches(branches)
      {
        assert branches[k..][0] == branches[k] && branches[k..][1..] == branches[k + 1..];
        ghost var next := Forest(branches[k].body);
        var more := Block(branches[k].body);
        GrewTwice(before, done, next);
        Associates(done, next, ForestInBranches(branches[k + 1..]));
        ids := ids + more;
        done := done + next;
      }
      assert done + [] == done;
    }

    method Methods(methods: seq<Method>) returns (ids: seq<nat>)
      modifies this
      ensures Grew(old(out), ForestInMethods(methods), ids)
      decreases methods, 1
    {
      ids := [];
      ghost var before, done := out, [];
      assert methods[0..] == methods && done + ForestInMethods(methods) == ForestInMethods(methods);
      for k := 0 to |methods|
        invariant Grew(before, done, ids) && done + ForestInMethods(methods[k..]) == ForestInMethods(methods)
      {
        assert methods[k..][0] == methods[k] && methods[k..][1..] == methods[k + 1..];
        ghost var next := ForestInOpt(methods[k].body);
        var more := Optional(methods[k].body);
        GrewTwice(before, done, next);
        Associates(done, next, ForestInMethods(methods[k + 1..]));
        ids := ids + more;
        done := done + next;
      }
      assert done + [] == done;
    }

    method Statement(st: Stmt) returns (ids: seq<nat>)
      modifies this
      ensures Grew(old(out), ForestIn(st), ids)
      decreases st, 2
    {
      ghost var forest := ForestIn(st);
      if Declares(st) {
        ids := Declaration(st);
      } else {
        assert out + [] == out;
        match st.kind
        case If(branches, orelse) =>
          assert forest == ForestInBranches(branches) + ForestInOpt(orelse);
          ids := Choice(st, branches, orelse);
        case ComptimeIf(branches, orelse) =>
          assert forest == ForestInBranches(branches) + ForestInOpt(orelse);
          ids := Choice(st, branches, orelse);
        case While(_, body, orelse) =>
          assert forest == Forest(body) + ForestInOpt(orelse);
          ids := Loop(st, body, orelse);
        case For(_, body, orelse) =>
          assert forest == Forest(body) + ForestInOpt(orelse);
          ids := Loop(st, body, orelse);
        case Try(body, handler, orelse, finalbody) =>
          assert forest == ((Forest(body) + ForestInOpt(handler)) + ForestInOpt(orelse)) + ForestInOpt(finalbody);
          ids := TryStatement(st, body, handler, orelse, finalbody);
        case With(_, body) => ids := Block(body);
        case ComptimeFor(_, body) => ids := Block(body);
        case _ => ids := [];
      }
    }

    method Choice(ghost st: Stmt, branches: seq<Branch>, orelse: OptBlock) returns (ids: seq<nat>)
      requires (st decreases to branches) && (st decreases to orelse)
      modifies this
      ensures Grew(old(out), ForestInBranches(branches) + ForestInOpt(orelse), ids)
      decreases st, 0
    {
      ids := Branches(branches);
      ids := Clause(orelse, old(out), ForestInBranches(branches), ids);
    }

    method Loop(ghost st: Stmt, body: seq<Stmt>, orelse: OptBlock) returns (ids: seq<nat>)
      requires (st decreases to body) && (st decreases to orelse)
      modifies this
      ensures Grew(old(out), Forest(body) + ForestInOpt(orelse), ids)
      decreases st, 0
    {
      ids := Block(body);
      ids := Clause(orelse, old(out), Forest(body), ids);
    }

    method TryStatement(ghost st: Stmt, body: seq<Stmt>, handler: OptBlock, orelse: OptBlock, finalbody: OptBlock)
      returns (ids: seq<nat>)
      requires (st decreases to body) && (st decreases to handler) && (st decreases to orelse) &&
        (st decreases to finalbody)
      modifies this
      ensures Grew(old(out), ((Forest(body) + ForestInOpt(handler)) + ForestInOpt(orelse)) + ForestInOpt(finalbody),
                   ids)
      decreases st, 0
    {
      ids := Block(body);
      ids := Clause(handler, old(out), Forest(body), ids);
      ids := Clause(orelse, old(out), Forest(body) + ForestInOpt(handler), ids);
      ids := Clause(finalbody, old(out), (Forest(body) + ForestInOpt(handler)) + ForestInOpt(orelse), ids);
    }

    /** One more block after those already gone through. */
    method Clause(o: OptBlock, ghost before: seq<Decl>, ghost done: seq<Tree<DeclTag>>, ids: seq<nat>)
      returns (all: seq<nat>)
      requires Grew(before, done, ids)
      modifies this
      ensures Grew(before, done + ForestInOpt(o), all)
      decreases o, 3
    {
      var more := Optional(o);
      GrewTwice(before, done, ForestInOpt(o));
      all := ids + more;
    }

    /** A declaration is entered before its contents, and told of them afterwards. */
    method Declaration(st: Stmt) returns (ids: seq<nat>)
      requires Declares(st)
      modifies this
      ensures Grew(old(out), [Tree(TagOf(st), Inside(st))], ids)
      decreases st, 1
    {
      var id := |out|;
      out := out + [Node(id, TagOf(st), [])];
      ghost var entered := out;
      assert entered + [] == entered;
      var children: seq<nat> := [];
      match st.kind {
        case Def(_, _, _, body) => children := Block(body);
        case Struct(_, _, _, methods) => children := Methods(methods);
        case _ =>
      }
      assert Grew(entered, Inside(st), children);
      out := out[id := out[id].(children := children)];
      ids := [id];
      Patched(old(out), Tree(TagOf(st), Inside(st)));
    }
  }

  lemma GrewTwice(before: seq<Decl>, a: seq<Tree<DeclTag>>, b: seq<Tree<DeclTag>>)
    ensures var n := |before|; var m := n + TotalSize(a);
      && before + PreOrderAll(a + b, n) == (before + PreOrderAll(a, n)) + PreOrderAll(b, m)
      && PreRoots(a + b, n) == PreRoots(a, n) + PreRoots(b, m)
  {
    var n := |before|;
    PreOrderAppend(a, b, n);
    PreRootsAppend(a, b, n);
    AppendStep(before + PreOrderAll(a + b, n), before, PreOrderAll(a + b, n), PreOrderAll(a, n),
               PreOrderAll(b, n + TotalSize(a)),
               before + PreOrderAll(a, n));
  }

  lemma Patched(before: seq<Decl>, t: Tree<DeclTag>)
    ensures var n := |before|;
      var entered := (before + [Node(n, t.tag, [])]) + PreOrderAll(t.children, n + 1);
      && n < |entered|
      && entered[n := entered[n].(children := PreRoots(t.children, n + 1))] == before + PreOrderAll([t], n)
      && PreRoots([t], n) == [n]
  {
    var n, rest := |before|, PreOrderAll(t.children, |before| + 1);
    assert [t][1..] == [] && PreOrderAll([t], n) == PreOrder(t, n) + [];
    assert (before + [Node(n, t.tag, [])]) + rest == before + ([Node(n, t.tag, [])] + rest);
  }

  method BuildCheckedDeclarations(statements: seq<Stmt>) returns (out: seq<Decl>)
    ensures out == PreOrderAll(Forest(statements), 0)
  {
    var declarations := new Declarations();
    var _ := declarations.Block(statements);
    out := declarations.out;
    assert [] + out == out;
  }

  /** Whatever the program, its k-th outermost declaration is regrown from its node with everything nested in it, and
      what is nested in it occupies exactly the nodes that follow it directly. */
  lemma DeclarationsRegrow(statements: seq<Stmt>, k: nat)
    requires k < |Forest(statements)|
    ensures var ts := Forest(statements); var out := PreOrderAll(ts, 0); var id := TotalSize(ts[..k]);
      && Forward(out) && Numbered(out, 0) && id < |out|
      && Regrow(out, id) == ts[k]
      && Covers(Subtree(out, id), id, id + Size(ts[k]))
  {
    var ts := Forest(statements);
    var out := PreOrderAll(ts, 0);
    PreOrdersAreForward(ts, 0);
    assert out[0..|out|] == out;
    TreeIsLaid(out, ts, 0, k);
    PreOrderRegrows(out, ts[k], TotalSize(ts[..k]));
  }

  lemma {:induction false} TreeIsLaid<L>(nodes: seq<Node<L>>, all: seq<Tree<L>>, n: nat, k: nat)
    requires k < |all| && Laid(nodes, n, PreOrderAll(all, n))
    ensures var m := n + TotalSize(all[..k]); Laid(nodes, m, PreOrder(all[k], m))
    decreases k
  {
    LaidParts(nodes, n, PreOrder(all[0], n), PreOrderAll(all[1..], n + Size(all[0])));
    if k > 0 {
      TreeIsLaid(nodes, all[1..], n + Size(all[0]), k - 1);
      assert all[..k][1..] == all[1..][..k - 1];
    }
  }
}
