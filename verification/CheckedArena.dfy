/** Two ways of laying a tree out in an arena of numbered nodes: operands before their expression, and declarations
    before what they contain. Either way the tree can be rebuilt from the arena. */
module CheckedArena {
  datatype Tree<L> = Tree(tag: L, children: seq<Tree<L>>)

  datatype Node<L> = Node(id: nat, tag: L, children: seq<nat>)

  function Size<L>(t: Tree<L>): nat
    decreases t, 0
  {
    1 + TotalSize(t.children)
  }

  function TotalSize<L>(ts: seq<Tree<L>>): nat
    decreases ts, 1
  {
    if ts == [] then 0 else Size(ts[0]) + TotalSize(ts[1..])
  }

  lemma TotalSizeFirst<L>(ts: seq<Tree<L>>)
    requires ts != []
    ensures TotalSize(ts) == Size(ts[0]) + TotalSize(ts[1..])
  {
  }

  predicate Within(ids: seq<nat>, low: nat, high: nat) {
    forall k :: 0 <= k < |ids| ==> low <= ids[k] < high
  }

  // ----- children first -----

  /** The nodes appended for `t` to an arena of `n` nodes. */
  function PostOrder<L>(t: Tree<L>, n: nat): (r: seq<Node<L>>)
    ensures |r| == Size(t)
    decreases t, 0
  {
    PostOrderAll(t.children, n) + [Node(n + TotalSize(t.children), t.tag, PostRoots(t.children, n))]
  }

  function PostOrderAll<L>(ts: seq<Tree<L>>, n: nat): (r: seq<Node<L>>)
    ensures |r| == TotalSize(ts)
    decreases ts, 1
  {
    if ts == [] then [] else PostOrder(ts[0], n) + PostOrderAll(ts[1..], n + Size(ts[0]))
  }

  function PostRoots<L>(ts: seq<Tree<L>>, n: nat): seq<nat> {
    if ts == [] then [] else [n + Size(ts[0]) - 1] + PostRoots(ts[1..], n + Size(ts[0]))
  }

  lemma PostOrderAppend<L>(a: seq<Tree<L>>, b: seq<Tree<L>>, n: nat)
    ensures PostOrderAll(a + b, n) == PostOrderAll(a, n) + PostOrderAll(b, n + TotalSize(a))
  {
    PostOrderAppendAt(a, b, n, n + TotalSize(a));
  }

  lemma {:induction false} PostOrderAppendAt<L>(a: seq<Tree<L>>, b: seq<Tree<L>>, n: nat, k: nat)
    requires k == n + TotalSize(a)
    ensures PostOrderAll(a + b, n) == PostOrderAll(a, n) + PostOrderAll(b, k)
    decreases |a|
  {
    if a == [] {
      assert a + b == b;
    } else {
      TotalSizeFirst(a);
      PostOrderAppendAt(a[1..], b, n + Size(a[0]), k);
      PostOrderJoins(a, b, n, PostOrderAll(a[1..], n + Size(a[0])), PostOrderAll(b, k));
    }
  }

  lemma PostOrderJoins<L>(a: seq<Tree<L>>, b: seq<Tree<L>>, n: nat, x: seq<Node<L>>, y: seq<Node<L>>)
    requires a != [] && x == PostOrderAll(a[1..], n + Size(a[0])) && PostOrderAll(a[1..] + b, n + Size(a[0])) == x + y
    ensures PostOrderAll(a + b, n) == PostOrderAll(a, n) + y
  {
    PostOrderFirstOf(a, b, n);
    PostOrderFirst(a, n);
    Associates(PostOrder(a[0], n), x, y);
  }

  lemma PostOrderFirstOf<L>(a: seq<Tree<L>>, b: seq<Tree<L>>, n: nat)
    requires a != []
    ensures PostOrderAll(a + b, n) == PostOrder(a[0], n) + PostOrderAll(a[1..] + b, n + Size(a[0]))
  {
    assert (a + b)[0] == a[0] && (a + b)[1..] == a[1..] + b;
    PostOrderFirst(a + b, n);
  }

  lemma PostOrderFirst<L>(ts: seq<Tree<L>>, n: nat)
    requires ts != []
    ensures PostOrderAll(ts, n) == PostOrder(ts[0], n) + PostOrderAll(ts[1..], n + Size(ts[0]))
  {
  }

  lemma {:induction false} PostRootsWithin<L>(ts: seq<Tree<L>>, n: nat)
    ensures Within(PostRoots(ts, n), n, n + TotalSize(ts))
  {
    if ts != [] {
      PostRootsWithin(ts[1..], n + Size(ts[0]));
      PostRootsFirst(ts, n);
    }
  }

  lemma PostRootsFirst<L>(ts: seq<Tree<L>>, n: nat)
    requires ts != []
    ensures PostRoots(ts, n) == [n + Size(ts[0]) - 1] + PostRoots(ts[1..], n + Size(ts[0]))
  {
  }

  lemma {:induction false} PostRootsAppend<L>(a: seq<Tree<L>>, b: seq<Tree<L>>, n: nat)
    ensures PostRoots(a + b, n) == PostRoots(a, n) + PostRoots(b, n + TotalSize(a))
    decreases |a|
  {
    if a == [] {
      assert a + b == b;
    } else {
      var m, root := n + Size(a[0]), n + Size(a[0]) - 1;
      assert (a + b)[0] == a[0] && (a + b)[1..] == a[1..] + b;
      PostRootsAppend(a[1..], b, m);
      PostRootsFirst(a, n);
      PostRootsFirst(a + b, n);
      AppendStep(PostRoots(a + b, n), [root], PostRoots(a[1..] + b, m), PostRoots(a[1..], m),
                 PostRoots(b, n + TotalSize(a)), PostRoots(a, n));
    }
  }

  lemma Associates<T>(a: seq<T>, b: seq<T>, c: seq<T>)
    ensures a + (b + c) == (a + b) + c
  {
  }

  lemma Uncons<T>(s: seq<T>)
    requires s != []
    ensures s == [s[0]] + s[1..]
  {
  }

  lemma AppendStep<T>(whole: seq<T>, head: seq<T>, tail: seq<T>, x: seq<T>, y: seq<T>, first: seq<T>)
    requires whole == head + tail && tail == x + y && first == head + x
    ensures whole == first + y
  {
    Associates(head, x, y);
  }

  /** Every child has a smaller number than its parent. */
  ghost predicate Backward<L>(nodes: seq<Node<L>>) {
    forall i: nat :: i < |nodes| ==> Within(nodes[i].children, 0, i)
  }

  function Rebuild<L>(nodes: seq<Node<L>>, id: nat): Tree<L>
    requires Backward(nodes) && id < |nodes|
    decreases id, 1, 0
  {
    Tree(nodes[id].tag, RebuildAll(nodes, nodes[id].children, id))
  }

  function RebuildAll<L>(nodes: seq<Node<L>>, ids: seq<nat>, bound: nat): seq<Tree<L>>
    requires Backward(nodes) && bound <= |nodes| && Within(ids, 0, bound)
    decreases bound, 0, |ids|
  {
    if ids == [] then [] else [Rebuild(nodes, ids[0])] + RebuildAll(nodes, ids[1..], bound)
  }

  ghost predicate Laid<L>(nodes: seq<Node<L>>, n: nat, part: seq<Node<L>>) {
    n + |part| <= |nodes| && nodes[n..n + |part|] == part
  }

  lemma LaidParts<L>(nodes: seq<Node<L>>, n: nat, a: seq<Node<L>>, b: seq<Node<L>>)
    requires Laid(nodes, n, a + b)
    ensures Laid(nodes, n, a) && Laid(nodes, n + |a|, b)
  {
    var s := nodes[n..n + |a + b|];
    assert nodes[n..n + |a|] == s[..|a|] && nodes[n + |a|..n + |a| + |b|] == s[|a|..];
  }

  /** A tree laid out children first is rebuilt from its root, the last of its nodes, whatever surrounds it. */
  lemma {:induction false} PostOrderRebuilds<L>(nodes: seq<Node<L>>, t: Tree<L>, n: nat)
    requires Backward(nodes) && Laid(nodes, n, PostOrder(t, n))
    ensures Rebuild(nodes, n + Size(t) - 1) == t
    decreases t, 0
  {
    var last := Node(n + TotalSize(t.children), t.tag, PostRoots(t.children, n));
    LaidParts(nodes, n, PostOrderAll(t.children, n), [last]);
    var id := n + Size(t) - 1;
    assert nodes[id] == nodes[id..id + 1][0] == last;
    PostOrdersRebuild(nodes, t.children, n, id);
  }

  lemma PostOrderLaidFirst<L>(nodes: seq<Node<L>>, ts: seq<Tree<L>>, n: nat)
    requires Laid(nodes, n, PostOrderAll(ts, n)) && ts != []
    ensures Laid(nodes, n, PostOrder(ts[0], n)) && Laid(nodes, n + Size(ts[0]), PostOrderAll(ts[1..], n + Size(ts[0])))
  {
    PostOrderFirst(ts, n);
    LaidParts(nodes, n, PostOrder(ts[0], n), PostOrderAll(ts[1..], n + Size(ts[0])));
  }

  lemma {:induction false} PostOrdersRebuild<L>(nodes: seq<Node<L>>, ts: seq<Tree<L>>, n: nat, bound: nat)
    requires Backward(nodes) && Laid(nodes, n, PostOrderAll(ts, n)) && n + TotalSize(ts) <= bound <= |nodes|
    ensures Within(PostRoots(ts, n), 0, bound) && RebuildAll(nodes, PostRoots(ts, n), bound) == ts
    decreases ts, 1
  {
    PostRootsWithin(ts, n);
    if ts == [] {
      assert PostRoots(ts, n) == [];
    } else {
      var m := n + Size(ts[0]);
      var later := PostRoots(ts[1..], m);
      TotalSizeFirst(ts);
      PostOrderLaidFirst(nodes, ts, n);
      PostOrderRebuilds(nodes, ts[0], n);
      PostOrdersRebuild(nodes, ts[1..], m, bound);
      PostRootsFirst(ts, n);
      RebuildJoins(nodes, m - 1, later, bound, ts);
    }
  }

  lemma RebuildJoins<L>(nodes: seq<Node<L>>, id: nat, ids: seq<nat>, bound: nat, ts: seq<Tree<L>>)
    requires Backward(nodes) && bound <= |nodes| && id < bound && Within(ids, 0, bound) && ts != []
    requires Rebuild(nodes, id) == ts[0] && RebuildAll(nodes, ids, bound) == ts[1..]
    ensures RebuildAll(nodes, [id] + ids, bound) == ts
  {
    RebuildCons(nodes, id, ids, bound);
    Uncons(ts);
  }

  lemma RebuildCons<L>(nodes: seq<Node<L>>, id: nat, ids: seq<nat>, bound: nat)
    requires Backward(nodes) && bound <= |nodes| && id < bound && Within(ids, 0, bound)
    ensures RebuildAll(nodes, [id] + ids, bound) == [Rebuild(nodes, id)] + RebuildAll(nodes, ids, bound)
  {
    assert ([id] + ids)[1..] == ids;
  }

  /** Nodes are numbered by their position. */
  ghost predicate Numbered<L>(nodes: seq<Node<L>>, n: nat) {
    forall i: nat :: i < |nodes| ==> nodes[i].id == n + i
  }

  ghost predicate Below<L>(nodes: seq<Node<L>>, n: nat) {
    forall i: nat :: i < |nodes| ==> Within(nodes[i].children, n, n + i)
  }

  lemma {:induction false} PostOrderIsBackward<L>(t: Tree<L>, n: nat)
    ensures Numbered(PostOrder(t, n), n) && Below(PostOrder(t, n), n)
    decreases t, 0
  {
    PostOrdersAreBackward(t.children, n);
    PostRootsWithin(t.children, n);
  }

  lemma {:induction false} PostOrdersAreBackward<L>(ts: seq<Tree<L>>, n: nat)
    ensures Numbered(PostOrderAll(ts, n), n) && Below(PostOrderAll(ts, n), n)
    decreases ts, 1
  {
    if ts != [] {
      var k := Size(ts[0]);
      PostOrderIsBackward(ts[0], n);
      PostOrdersAreBackward(ts[1..], n + k);
      var a, b, all := PostOrder(ts[0], n), PostOrderAll(ts[1..], n + k), PostOrderAll(ts, n);
      assert forall i: nat :: i < |all| ==> all[i] == if i < k then a[i] else b[i - k];
    }
  }

  // ----- children last -----

  /** The nodes appended for a declaration to an arena of `n` nodes. */
  function PreOrder<L>(t: Tree<L>, n: nat): (r: seq<Node<L>>)
    ensures |r| == Size(t)
    decreases t, 0
  {
    [Node(n, t.tag, PreRoots(t.children, n + 1))] + PreOrderAll(t.children, n + 1)
  }

  function PreOrderAll<L>(ts: seq<Tree<L>>, n: nat): (r: seq<Node<L>>)
    ensures |r| == TotalSize(ts)
    decreases ts, 1
  {
    if ts == [] then [] else PreOrder(ts[0], n) + PreOrderAll(ts[1..], n + Size(ts[0]))
  }

  function PreRoots<L>(ts: seq<Tree<L>>, n: nat): seq<nat> {
    if ts == [] then [] else [n] + PreRoots(ts[1..], n + Size(ts[0]))
  }

  lemma PreOrderAppend<L>(a: seq<Tree<L>>, b: seq<Tree<L>>, n: nat)
    ensures PreOrderAll(a + b, n) == PreOrderAll(a, n) + PreOrderAll(b, n + TotalSize(a))
  {
    PreOrderAppendAt(a, b, n, n + TotalSize(a));
  }

  lemma {:induction false} PreOrderAppendAt<L>(a: seq<Tree<L>>, b: seq<Tree<L>>, n: nat, k: nat)
    requires k == n + TotalSize(a)
    ensures PreOrderAll(a + b, n) == PreOrderAll(a, n) + PreOrderAll(b, k)
    decreases |a|
  {
    if a == [] {
      assert a + b == b;
    } else {
      TotalSizeFirst(a);
      PreOrderAppendAt(a[1..], b, n + Size(a[0]), k);
      PreOrderJoins(a, b, n, PreOrderAll(a[1..], n + Size(a[0])), PreOrderAll(b, k));
    }
  }

  lemma PreOrderJoins<L>(a: seq<Tree<L>>, b: seq<Tree<L>>, n: nat, x: seq<Node<L>>, y: seq<Node<L>>)
    requires a != [] && x == PreOrderAll(a[1..], n + Size(a[0])) && PreOrderAll(a[1..] + b, n + Size(a[0])) == x + y
    ensures PreOrderAll(a + b, n) == PreOrderAll(a, n) + y
  {
    PreOrderFirstOf(a, b, n);
    PreOrderFirst(a, n);
    Associates(PreOrder(a[0], n), x, y);
  }

  lemma PreOrderFirstOf<L>(a: seq<Tree<L>>, b: seq<Tree<L>>, n: nat)
    requires a != []
    ensures PreOrderAll(a + b, n) == PreOrder(a[0], n) + PreOrderAll(a[1..] + b, n + Size(a[0]))
  {
    assert (a + b)[0] == a[0] && (a + b)[1..] == a[1..] + b;
    PreOrderFirst(a + b, n);
  }

  lemma PreOrderFirst<L>(ts: seq<Tree<L>>, n: nat)
    requires ts != []
    ensures PreOrderAll(ts, n) == PreOrder(ts[0], n) + PreOrderAll(ts[1..], n + Size(ts[0]))
  {
  }

  lemma {:induction false} PreRootsWithin<L>(ts: seq<Tree<L>>, n: nat)
    ensures Within(PreRoots(ts, n), n, n + TotalSize(ts))
  {
    if ts != [] {
      PreRootsWithin(ts[1..], n + Size(ts[0]));
      PreRootsFirst(ts, n);
    }
  }

  lemma PreRootsFirst<L>(ts: seq<Tree<L>>, n: nat)
    requires ts != []
    ensures PreRoots(ts, n) == [n] + PreRoots(ts[1..], n + Size(ts[0]))
  {
  }

  lemma {:induction false} PreRootsAppend<L>(a: seq<Tree<L>>, b: seq<Tree<L>>, n: nat)
    ensures PreRoots(a + b, n) == PreRoots(a, n) + PreRoots(b, n + TotalSize(a))
    decreases |a|
  {
    if a == [] {
      assert a + b == b;
    } else {
      var m, root := n + Size(a[0]), n;
      assert (a + b)[0] == a[0] && (a + b)[1..] == a[1..] + b;
      PreRootsAppend(a[1..], b, m);
      PreRootsFirst(a, n);
      PreRootsFirst(a + b, n);
      AppendStep(PreRoots(a + b, n), [root], PreRoots(a[1..] + b, m), PreRoots(a[1..], m),
                 PreRoots(b, n + TotalSize(a)), PreRoots(a, n));
    }
  }

  /** Every child has a larger number than its parent. */
  ghost predicate Forward<L>(nodes: seq<Node<L>>) {
    forall i: nat :: i < |nodes| ==> Within(nodes[i].children, i + 1, |nodes|)
  }

  function Regrow<L>(nodes: seq<Node<L>>, id: nat): Tree<L>
    requires Forward(nodes) && id < |nodes|
    decreases |nodes| - id, 1, 0
  {
    Tree(nodes[id].tag, RegrowAll(nodes, nodes[id].children, id))
  }

  function RegrowAll<L>(nodes: seq<Node<L>>, ids: seq<nat>, bound: nat): seq<Tree<L>>
    requires Forward(nodes) && bound < |nodes| && Within(ids, bound + 1, |nodes|)
    decreases |nodes| - bound, 0, |ids|
  {
    if ids == [] then [] else [Regrow(nodes, ids[0])] + RegrowAll(nodes, ids[1..], bound)
  }

  /** The nodes of the subtree under `id`. */
  function Subtree<L>(nodes: seq<Node<L>>, id: nat): set<nat>
    requires Forward(nodes) && id < |nodes|
    decreases |nodes| - id, 1, 0
  {
    {id} + Subtrees(nodes, nodes[id].children, id)
  }

  function Subtrees<L>(nodes: seq<Node<L>>, ids: seq<nat>, bound: nat): set<nat>
    requires Forward(nodes) && bound < |nodes| && Within(ids, bound + 1, |nodes|)
    decreases |nodes| - bound, 0, |ids|
  {
    if ids == [] then {} else Subtree(nodes, ids[0]) + Subtrees(nodes, ids[1..], bound)
  }

  ghost predicate Covers(ids: set<nat>, low: nat, high: nat) {
    forall i :: i in ids <==> low <= i < high
  }

  lemma RegrowCons<L>(nodes: seq<Node<L>>, id: nat, ids: seq<nat>, bound: nat)
    requires Forward(nodes) && bound < id < |nodes| && Within(ids, bound + 1, |nodes|)
    ensures RegrowAll(nodes, [id] + ids, bound) == [Regrow(nodes, id)] + RegrowAll(nodes, ids, bound)
    ensures Subtrees(nodes, [id] + ids, bound) == Subtree(nodes, id) + Subtrees(nodes, ids, bound)
  {
    assert ([id] + ids)[1..] == ids;
  }

  /** A tree laid out children last is regrown from its root, the first of its nodes, and its subtree is exactly the
      run of nodes that starts there. */
  lemma {:induction false} PreOrderRegrows<L>(nodes: seq<Node<L>>, t: Tree<L>, n: nat)
    requires Forward(nodes) && Laid(nodes, n, PreOrder(t, n))
    ensures Regrow(nodes, n) == t
    ensures Covers(Subtree(nodes, n), n, n + Size(t))
    decreases t, 0
  {
    var first := Node(n, t.tag, PreRoots(t.children, n + 1));
    LaidParts(nodes, n, [first], PreOrderAll(t.children, n + 1));
    assert nodes[n] == nodes[n..n + 1][0] == first;
    PreOrdersRegrow(nodes, t.children, n + 1, n);
  }

  lemma PreOrderLaidFirst<L>(nodes: seq<Node<L>>, ts: seq<Tree<L>>, n: nat)
    requires Laid(nodes, n, PreOrderAll(ts, n)) && ts != []
    ensures Laid(nodes, n, PreOrder(ts[0], n)) && Laid(nodes, n + Size(ts[0]), PreOrderAll(ts[1..], n + Size(ts[0])))
  {
    PreOrderFirst(ts, n);
    LaidParts(nodes, n, PreOrder(ts[0], n), PreOrderAll(ts[1..], n + Size(ts[0])));
  }

  lemma {:induction false} PreOrdersRegrow<L>(nodes: seq<Node<L>>, ts: seq<Tree<L>>, n: nat, bound: nat)
    requires Forward(nodes) && Laid(nodes, n, PreOrderAll(ts, n)) && bound < n && bound < |nodes|
    ensures Within(PreRoots(ts, n), bound + 1, |nodes|) && RegrowAll(nodes, PreRoots(ts, n), bound) == ts
    ensures Covers(Subtrees(nodes, PreRoots(ts, n), bound), n, n + TotalSize(ts))
    decreases ts, 1
  {
    PreRootsWithin(ts, n);
    if ts != [] {
      PreOrderLaidFirst(nodes, ts, n);
      PreOrderRegrows(nodes, ts[0], n);
      TotalSizeFirst(ts);
      PreOrdersRegrow(nodes, ts[1..], n + Size(ts[0]), bound);
      PreRootsFirst(ts, n);
      RegrowCons(nodes, n, PreRoots(ts[1..], n + Size(ts[0])), bound);
      Uncons(ts);
    }
  }

  ghost predicate Above<L>(nodes: seq<Node<L>>, n: nat) {
    forall i: nat :: i < |nodes| ==> Within(nodes[i].children, n + i + 1, n + |nodes|)
  }

  lemma {:induction false} PreOrderIsForward<L>(t: Tree<L>, n: nat)
    ensures Numbered(PreOrder(t, n), n) && Above(PreOrder(t, n), n)
    decreases t, 0
  {
    PreOrdersAreForward(t.children, n + 1);
    PreRootsWithin(t.children, n + 1);
    var rest, all := PreOrderAll(t.children, n + 1), PreOrder(t, n);
    assert forall i: nat :: 0 < i < |all| ==> all[i] == rest[i - 1];
  }

  lemma {:induction false} PreOrdersAreForward<L>(ts: seq<Tree<L>>, n: nat)
    ensures Numbered(PreOrderAll(ts, n), n) && Above(PreOrderAll(ts, n), n)
    decreases ts, 1
  {
    if ts != [] {
      var k := Size(ts[0]);
      PreOrderIsForward(ts[0], n);
      PreOrdersAreForward(ts[1..], n + k);
      var a, b, all := PreOrder(ts[0], n), PreOrderAll(ts[1..], n + k), PreOrderAll(ts, n);
      assert forall i: nat :: i < |all| ==> all[i] == if i < k then a[i] else b[i - k];
    }
  }
}
