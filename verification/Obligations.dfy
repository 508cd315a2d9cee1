/** The updates `explicit_destroy.rs` makes to one variable's `obligations` and `moved` sets, as functions,
    and the proof that the incrementally maintained set is always the one recomputed from `moved`. */
module Obligations {
  import opened Wrappers
  import opened LinearPaths

  /** The rejections of the pass. The reported variable name and message are not modelled. */
  datatype Problem =
    | Abandoned
    | Overwritten
    | IndexedProjection
    | InvalidResidual
    | Incomplete
    | DestroyedTwice
    | Inconsistent

  /** The two sets kept for a variable. */
  datatype Residue = Residue(obligations: set<Path>, moved: set<Path>)

  const WHOLE: Residue := Residue({[]}, {})

  function Children(types: Registry, ty: string, a: Path): set<Path> {
    if ty in types then set f | f in types[ty].fields :: a + [f] else {}
  }

  /** One ancestor: an intact linear value is replaced by its direct linear fields. */
  function ExposeOne(types: Registry, root: string, obligations: set<Path>, a: Path): Result<set<Path>, Problem> {
    if a !in obligations then Ok(obligations)
    else match TypeAtPath(types, root, a) {
      case None => Err(InvalidResidual)
      case Some(ty) => Ok((obligations - {a}) + Children(types, ty, a))
    }
  }

  /** The first `depth` ancestors of `path`, outermost first. */
  function Expose(types: Registry, root: string, obligations: set<Path>, path: Path, depth: nat)
    : Result<set<Path>, Problem>
    requires depth <= |path|
  {
    if depth == 0 then Ok(obligations)
    else
      var before :- Expose(types, root, obligations, path, depth - 1);
      ExposeOne(types, root, before, path[..depth - 1])
  }

  /** `move_root` on a variable of linear type. */
  function MoveOut(types: Registry, root: string, r: Residue, path: Path): Result<Residue, Problem> {
    var exposed :- Expose(types, root, r.obligations, path, |path|);
    Ok(Residue(exposed - {path}, r.moved + {path}))
  }

  /** `consume_destructor`. */
  function Destroy(types: Registry, root: string, r: Residue, path: Path): Result<Residue, Problem> {
    var exposed :- Expose(types, root, r.obligations, path, |path|);
    if exists m :: m in r.moved && path <= m && m != path then Err(Incomplete)
    else if path in exposed then Ok(Residue(exposed - {path}, r.moved + {path}))
    else if exists o :: o in exposed && path <= o then Err(Incomplete)
    else Err(DestroyedTwice)
  }

  /** `reinitialize_place`. */
  function Reinitialize(types: Registry, root: string, r: Residue, path: Path): Residue {
    var moved := set m | m in r.moved && !(path <= m);
    if moved == {} then WHOLE
    else
      var ty := TypeAtPath(types, root, path);
      if ty.Some? && ty.value in types then Residue(r.obligations + {path}, moved)
      else Residue(r.obligations, moved)
  }

  ghost predicate Exact(types: Registry, root: string, r: Residue) {
    ExactlyOwed(types, root, r.moved, r.obligations)
  }

  // ----- exposing ancestors -----

  /** What is owed while the first `depth` ancestors of `path` count as broken up. */
  ghost predicate OwedWhile(types: Registry, root: string, moved: set<Path>, path: Path, depth: nat, q: Path) {
    && Linear(types, root, q)
    && Untouched(moved, q)
    && !(q <= path && |q| < depth)
    && forall k :: 0 <= k < |q| ==> Exposed(moved, q[..k]) || (k < depth && q[..k] <= path)
  }

  ghost predicate ExactWhile(types: Registry, root: string, moved: set<Path>, path: Path, depth: nat,
                             obligations: set<Path>) {
    forall q :: q in obligations <==> OwedWhile(types, root, moved, path, depth, q)
  }

  /** A subobject that becomes owed when `a` is broken up is a direct linear field of `a`, and `a` was owed. */
  lemma NewlyOwed(types: Registry, root: string, moved: set<Path>, path: Path, depth: nat, q: Path)
    requires depth < |path|
    requires OwedWhile(types, root, moved, path, depth + 1, q) && !OwedWhile(types, root, moved, path, depth, q)
    ensures |q| == depth + 1 && q[..depth] == path[..depth]
    ensures OwedWhile(types, root, moved, path, depth, path[..depth])
  {
    var a := path[..depth];
    assert depth < |q| && q[..depth] <= path && !Exposed(moved, q[..depth]);
    assert q[..depth] == a;
    assert q[..depth] < q[..depth + 1];
    LinearPrefix(types, root, q, depth);
    forall m | m in moved
      ensures !Comparable(m, a)
    {
      assert m <= a ==> m <= q;
      assert a <= m ==> a == m || a < m;
    }
    forall k | 0 <= k < |a|
      ensures a[..k] <= path
    {
      assert a[..k] == path[..k];
    }
  }

  lemma ChildOwed(types: Registry, root: string, moved: set<Path>, path: Path, depth: nat, f: string)
    requires depth < |path|
    requires OwedWhile(types, root, moved, path, depth, path[..depth])
    requires Linear(types, root, path[..depth] + [f])
    ensures OwedWhile(types, root, moved, path, depth + 1, path[..depth] + [f])
  {
    var a := path[..depth];
    var q := a + [f];
    forall m | m in moved
      ensures !Comparable(m, q)
    {
      assert !Comparable(m, a);
      assert m <= q ==> m <= a || m == q;
      assert q <= m ==> a <= m;
    }
    forall k | 0 <= k < |q|
      ensures Exposed(moved, q[..k]) || (k < depth + 1 && q[..k] <= path)
    {
      assert q[..k] == a[..k] == path[..k];
    }
  }

  lemma ExposeOneExact(types: Registry, root: string, moved: set<Path>, path: Path, depth: nat, obligations: set<Path>)
    requires depth < |path|
    requires ExactWhile(types, root, moved, path, depth, obligations)
    ensures var r := ExposeOne(types, root, obligations, path[..depth]);
            r.Ok? && ExactWhile(types, root, moved, path, depth + 1, r.value)
  {
    var a := path[..depth];
    var r := ExposeOne(types, root, obligations, a);
    assert a in obligations <==> OwedWhile(types, root, moved, path, depth, a);
    forall q
      ensures q in r.value <==> OwedWhile(types, root, moved, path, depth + 1, q)
    {
      if OwedWhile(types, root, moved, path, depth, q) {
        if q == a {
          assert q <= path;
          assert forall f :: |a + [f]| == |a| + 1;
        } else {
          assert q in obligations && q in r.value;
          assert q <= path && |q| == depth ==> q == a;
        }
      } else {
        if OwedWhile(types, root, moved, path, depth + 1, q) {
          NewlyOwed(types, root, moved, path, depth, q);
          var f := q[depth];
          assert q == a + [f];
          LinearChild(types, root, a, f);
        }
        if q in r.value {
          assert a in obligations;
          var ty := TypeAtPath(types, root, a).value;
          var f :| ty in types && f in types[ty].fields && q == a + [f];
          LinearChild(types, root, a, f);
          ChildOwed(types, root, moved, path, depth, f);
        }
      }
    }
  }

  lemma {:induction false} ExposeExact(types: Registry, root: string, moved: set<Path>, path: Path, depth: nat,
                                       obligations: set<Path>)
    requires depth <= |path|
    requires ExactlyOwed(types, root, moved, obligations)
    ensures var r := Expose(types, root, obligations, path, depth);
            r.Ok? && ExactWhile(types, root, moved, path, depth, r.value)
  {
    if depth == 0 {
      forall q ensures OwedWhile(types, root, moved, path, 0, q) <==> Owed(types, root, moved, q) {}
    } else {
      ExposeExact(types, root, moved, path, depth - 1, obligations);
      ExposeOneExact(types, root, moved, path, depth - 1, Expose(types, root, obligations, path, depth - 1).value);
    }
  }

  lemma ExposedUpwards(moved: set<Path>, p: Path, q: Path)
    requires p <= q && Exposed(moved, q)
    ensures Exposed(moved, p)
  {
    var m :| m in moved && q < m;
    assert p < m;
  }

  /** Below `path`, exposing its ancestors changes nothing. */
  lemma OwedBelow(types: Registry, root: string, moved: set<Path>, path: Path, q: Path)
    requires OwedWhile(types, root, moved, path, |path|, q) && path < q
    ensures Owed(types, root, moved, q) && Exposed(moved, path)
  {
    assert q[..|path|] == path;
    forall k | 0 <= k < |q|
      ensures Exposed(moved, q[..k])
    {
      if k < |path| {
        ExposedUpwards(moved, q[..k], path);
      }
    }
  }

  /** Away from `path`, taking `path` out and exposing its ancestors agree on what is owed. */
  lemma OwedBeside(types: Registry, root: string, moved: set<Path>, path: Path, q: Path)
    ensures Owed(types, root, moved + {path}, q) <==>
            OwedWhile(types, root, moved, path, |path|, q) && !Comparable(path, q)
  {
    if Owed(types, root, moved + {path}, q) {
      assert path in moved + {path};
      forall k | 0 <= k < |q|
        ensures Exposed(moved, q[..k]) || (k < |path| && q[..k] <= path)
      {
        var m :| m in moved + {path} && q[..k] < m;
      }
    }
    if OwedWhile(types, root, moved, path, |path|, q) && !Comparable(path, q) {
      forall k | 0 <= k < |q|
        ensures Exposed(moved + {path}, q[..k])
      {
        if Exposed(moved, q[..k]) {
          var m :| m in moved && q[..k] < m;
          assert m in moved + {path};
        } else {
          assert path in moved + {path} && q[..k] < path;
        }
      }
    }
  }

  // ----- transfers -----

  /** A transfer never meets an invalid residual, and the maintained set stays exact if and only if nothing
      strictly inside the transferred place was still owed on its own. */
  lemma MoveOutExact(types: Registry, root: string, r: Residue, path: Path)
    requires Exact(types, root, r)
    ensures var out := MoveOut(types, root, r, path);
            && out.Ok?
            && out.value.moved == r.moved + {path}
            && (Exact(types, root, out.value) <==> forall o :: o in r.obligations ==> !(path < o))
  {
    ExposeExact(types, root, r.moved, path, |path|, r.obligations);
    var exposed := Expose(types, root, r.obligations, path, |path|).value;
    var out := MoveOut(types, root, r, path).value;
    if forall o :: o in r.obligations ==> !(path < o) {
      forall q | q in exposed
        ensures !(path < q)
      {
        assert OwedWhile(types, root, r.moved, path, |path|, q);
        if path < q {
          OwedBelow(types, root, r.moved, path, q);
        }
      }
      forall q
        ensures q in out.obligations <==> Owed(types, root, out.moved, q)
      {
        OwedBeside(types, root, r.moved, path, q);
        assert q <= path && |q| == |path| ==> q == path;
        assert path <= q ==> q == path || path < q;
      }
    } else {
      var o :| o in r.obligations && path < o;
      assert Owed(types, root, r.moved, o);
      assert OwedWhile(types, root, r.moved, path, |path|, o);
      assert o in out.obligations && path in out.moved && Comparable(path, o);
    }
  }

  /** What the ownership pass guarantees of a transferred place: it is neither moved nor partly moved. */
  lemma MoveOutOfWholePlace(types: Registry, root: string, r: Residue, path: Path)
    requires Exact(types, root, r)
    requires Untouched(r.moved, path)
    ensures MoveOut(types, root, r, path).Ok?
    ensures Exact(types, root, MoveOut(types, root, r, path).value)
  {
    MoveOutExact(types, root, r, path);
    forall o | o in r.obligations
      ensures !(path < o)
    {
      assert Owed(types, root, r.moved, o);
      StrictPrefixIsSlice(path, o);
    }
  }

  /** Transferring a partly moved value leaves its remaining fields recorded as owed inside a moved place. */
  lemma PartlyMovedTransferIsInexact()
    ensures exists types: Registry, root: string, r: Residue, path: Path ::
              Exact(types, root, r) && MoveOut(types, root, r, path).Ok? &&
              !Exact(types, root, MoveOut(types, root, r, path).value)
  {
    var types: Registry := map["P" := TypeInfo("", map[], map["a" := "Q", "b" := "Q"]),
                               "Q" := TypeInfo("", map[], map[])];
    WholeIsExact(types, "P");
    MoveOutOfWholePlace(types, "P", WHOLE, ["a"]);
    var r := MoveOut(types, "P", WHOLE, ["a"]).value;
    assert Owed(types, "P", r.moved, ["b"]) by {
      LinearChild(types, "P", [], "b");
      assert [] + ["b"] == ["b"];
      assert ["a"] in r.moved && ["b"][..0] < ["a"];
    }
    MoveOutExact(types, "P", r, []);
    assert ["b"] in r.obligations && [] < ["b"];
    assert !Exact(types, "P", MoveOut(types, "P", r, []).value);
  }

  lemma WholeIsExact(types: Registry, root: string)
    ensures Exact(types, root, WHOLE)
  {
    forall q
      ensures q in WHOLE.obligations <==> Owed(types, root, WHOLE.moved, q)
    {
      if q != [] {
        assert q[..0] == [];
      }
    }
  }

  // ----- destructors -----

  /** A destructor call is accepted exactly on an intact linear subobject, and then the set stays exact;
      otherwise the reported problem says whether a part had been moved out of the place. */
  lemma DestroyExact(types: Registry, root: string, r: Residue, path: Path)
    requires Exact(types, root, r)
    ensures var out := Destroy(types, root, r, path);
            && (out.Ok? <==> Linear(types, root, path) && Untouched(r.moved, path))
            && (out.Ok? ==> out.value.moved == r.moved + {path} && Exact(types, root, out.value))
            && (out == Err(Incomplete) <==> exists m :: m in r.moved && path < m)
            && (out.Err? ==> out.error == Incomplete || out.error == DestroyedTwice)
  {
    ExposeExact(types, root, r.moved, path, |path|, r.obligations);
    var exposed := Expose(types, root, r.obligations, path, |path|).value;
    var out := Destroy(types, root, r, path);
    assert (exists m :: m in r.moved && path <= m && m != path) <==> Exposed(r.moved, path);
    if !Exposed(r.moved, path) {
      forall o | o in exposed && path <= o
        ensures o == path
      {
        if path < o {
          OwedBelow(types, root, r.moved, path, o);
        }
      }
      forall k | 0 <= k < |path|
        ensures path[..k] <= path
      {
      }
      assert path in exposed <==> Linear(types, root, path) && Untouched(r.moved, path);
    }
    if out.Ok? {
      forall q
        ensures q in out.value.obligations <==> Owed(types, root, out.value.moved, q)
      {
        OwedBeside(types, root, r.moved, path, q);
        if q in exposed && path < q {
          OwedBelow(types, root, r.moved, path, q);
        }
      }
    }
  }

  /** Everything not nested with the destroyed place is owed afterwards exactly if it was owed before, or is a
      linear sibling released by breaking up an enclosing value. */
  lemma DestroyLeavesTheRest(types: Registry, root: string, r: Residue, path: Path, q: Path)
    requires Exact(types, root, r) && Destroy(types, root, r, path).Ok?
    ensures var after := Destroy(types, root, r, path).value.obligations;
            && (q in after ==> !Comparable(q, path))
            && (q in r.obligations && !Comparable(q, path) ==> q in after)
            && (q in after && q !in r.obligations ==>
                  && Linear(types, root, q)
                  && 0 < |q| <= |path| && q[..|q| - 1] == path[..|q| - 1]
                  && !Exposed(r.moved, q[..|q| - 1]))
  {
    DestroyExact(types, root, r, path);
    ExposeExact(types, root, r.moved, path, |path|, r.obligations);
    OwedBeside(types, root, r.moved, path, q);
    if q !in r.obligations && q in Destroy(types, root, r, path).value.obligations {
      NewlyOwedBeside(types, root, r.moved, path, |path|, q);
    }
  }

  lemma {:induction false} NewlyOwedBeside(types: Registry, root: string, moved: set<Path>, path: Path, depth: nat,
                                           q: Path)
    requires depth <= |path|
    requires OwedWhile(types, root, moved, path, depth, q) && !Owed(types, root, moved, q)
    ensures 0 < |q| <= |path| && q[..|q| - 1] == path[..|q| - 1] && !Exposed(moved, q[..|q| - 1])
  {
    if OwedWhile(types, root, moved, path, depth - 1, q) {
      NewlyOwedBeside(types, root, moved, path, depth - 1, q);
    } else {
      NewlyOwed(types, root, moved, path, depth - 1, q);
    }
  }

  // ----- reassignment -----

  /** Nothing enclosing the place has been moved out as a whole. */
  ghost predicate Reachable(r: Residue, path: Path) {
    forall m :: m in r.moved ==> !(m < path)
  }

  /** Each of the first `depth` linear values enclosing the place still has a part missing. */
  ghost predicate StillBroken(types: Registry, root: string, moved: set<Path>, path: Path, depth: nat)
    requires depth <= |path|
  {
    forall k :: 0 <= k < depth && Linear(types, root, path[..k]) ==> Exposed(moved, path[..k])
  }

  /** What makes an assignment harmless: it completes the variable; or else it completes no enclosing linear value, and
      a linear place held nothing that was owed on its own. An ordinary place that was intact is harmless, too. */
  ghost predicate Harmless(types: Registry, root: string, r: Residue, path: Path) {
    var moved := Reinitialize(types, root, r, path).moved;
    || moved == {}
    || (!Linear(types, root, path) && moved == r.moved)
    || (StillBroken(types, root, moved, path, |path|) && forall o :: o in r.obligations ==> !(path < o))
  }

  /** An assignment forgets exactly the moves at and below the place, and keeps the set exact if and only if it is
      harmless. */
  lemma ReinitializeExact(types: Registry, root: string, r: Residue, path: Path)
    requires Closed(types) && root in types
    requires Exact(types, root, r) && Reachable(r, path)
    ensures var out := Reinitialize(types, root, r, path);
            && (forall m :: m in out.moved <==> m in r.moved && !(path <= m))
            && (Exact(types, root, out) <==> Harmless(types, root, r, path))
  {
    var out := Reinitialize(types, root, r, path);
    ClosedTypeAtPath(types, root, path);
    if out.moved == {} {
      WholeIsExact(types, root);
    } else if Harmless(types, root, r, path) {
      if !Linear(types, root, path) && out.moved == r.moved {
        assert out == r;
      } else {
        forall q
          ensures q in out.obligations <==> Owed(types, root, out.moved, q)
        {
          ReinitializedOwed(types, root, r, path, q);
        }
      }
    } else if Exact(types, root, out) {
      ExactIsHarmless(types, root, r, path);
      assert false;
    }
  }

  /** Away from the place, the moves at and below it decide neither what is touched nor, while everything around it is
      still broken, what is exposed. */
  lemma ReinitializedBeside(types: Registry, root: string, r: Residue, path: Path, q: Path)
    requires Reachable(r, path) && !Comparable(path, q)
    requires StillBroken(types, root, Reinitialize(types, root, r, path).moved, path, |path|)
    ensures Owed(types, root, Reinitialize(types, root, r, path).moved, q) <==> Owed(types, root, r.moved, q)
  {
    var moved := Reinitialize(types, root, r, path).moved;
    forall m | m in r.moved && Comparable(m, q)
      ensures m in moved
    {
      assert path <= m ==> Comparable(path, q);
    }
    if Linear(types, root, q) {
      forall k | 0 <= k < |q|
        ensures Exposed(r.moved, q[..k]) <==> Exposed(moved, q[..k])
      {
        LinearPrefix(types, root, q, k);
        ExposedBeside(types, root, r, path, q, k);
      }
    }
  }

  lemma ExposedBeside(types: Registry, root: string, r: Residue, path: Path, q: Path, k: nat)
    requires !Comparable(path, q) && k < |q| && Linear(types, root, q[..k])
    requires StillBroken(types, root, Reinitialize(types, root, r, path).moved, path, |path|)
    ensures Exposed(r.moved, q[..k]) <==> Exposed(Reinitialize(types, root, r, path).moved, q[..k])
  {
    var moved := Reinitialize(types, root, r, path).moved;
    if Exposed(r.moved, q[..k]) {
      var m :| m in r.moved && q[..k] < m;
      if path <= m {
        assert Comparable(path, q[..k]);
        assert path <= q[..k] ==> path <= q;
        assert q[..k] == path[..k];
      } else {
        assert m in moved;
      }
    }
  }

  lemma ReinitializedOwed(types: Registry, root: string, r: Residue, path: Path, q: Path)
    requires Closed(types) && root in types
    requires Exact(types, root, r) && Reachable(r, path)
    requires var moved := Reinitialize(types, root, r, path).moved;
             moved != {} && StillBroken(types, root, moved, path, |path|)
    requires forall o :: o in r.obligations ==> !(path < o)
    ensures var out := Reinitialize(types, root, r, path);
            q in out.obligations <==> Owed(types, root, out.moved, q)
  {
    var out := Reinitialize(types, root, r, path);
    ClosedTypeAtPath(types, root, path);
    assert q in r.obligations <==> Owed(types, root, r.moved, q);
    if q == path {
      PlaceIsOwed(types, root, r, path);
    } else if q < path {
      InsideBroken(types, root, r, path, q);
    } else if path < q {
      assert q[..|path|] == path;
      assert Owed(types, root, out.moved, q) ==> Exposed(out.moved, q[..|path|]);
    } else {
      ReinitializedBeside(types, root, r, path, q);
    }
  }

  lemma PlaceIsOwed(types: Registry, root: string, r: Residue, path: Path)
    requires Reachable(r, path)
    requires StillBroken(types, root, Reinitialize(types, root, r, path).moved, path, |path|)
    ensures Owed(types, root, Reinitialize(types, root, r, path).moved, path) <==> Linear(types, root, path)
  {
    var moved := Reinitialize(types, root, r, path).moved;
    if Linear(types, root, path) {
      forall k | 0 <= k < |path|
        ensures Exposed(moved, path[..k])
      {
        LinearPrefix(types, root, path, k);
      }
      assert forall m :: m in moved ==> m in r.moved && !(path <= m) && !(m < path);
    }
  }

  lemma InsideBroken(types: Registry, root: string, r: Residue, path: Path, q: Path)
    requires q < path
    requires StillBroken(types, root, Reinitialize(types, root, r, path).moved, path, |path|)
    ensures !Owed(types, root, r.moved, q) && !Owed(types, root, Reinitialize(types, root, r, path).moved, q)
  {
    var moved := Reinitialize(types, root, r, path).moved;
    assert path[..|q|] == q;
    if Linear(types, root, q) {
      assert Exposed(moved, path[..|q|]);
      var m :| m in moved && q < m;
      assert m in r.moved && Comparable(m, q);
    }
  }

  lemma ExactIsHarmless(types: Registry, root: string, r: Residue, path: Path)
    requires Closed(types) && root in types
    requires Exact(types, root, r) && Reachable(r, path)
    requires Exact(types, root, Reinitialize(types, root, r, path))
    ensures Harmless(types, root, r, path)
  {
    var out := Reinitialize(types, root, r, path);
    ClosedTypeAtPath(types, root, path);
    if out.moved != {} {
      if Linear(types, root, path) {
        assert path in out.obligations;
        forall o | o in r.obligations
          ensures !(path < o)
        {
          assert o in out.obligations;
          if path < o { OwedIsAntichain(types, root, out.moved, path, o); }
        }
      } else {
        forall o | o in r.obligations
          ensures !(path < o)
        {
          assert Owed(types, root, r.moved, o);
          if path < o { LinearPrefix(types, root, o, |path|); }
        }
        if out.moved != r.moved {
          var m :| m in r.moved && path <= m;
          ExactStaysBroken(types, root, r, path, m, |path|);
        }
      }
    }
  }

  /** The outermost enclosing value that an assignment completes would be owed. */
  lemma {:induction false} ExactStaysBroken(types: Registry, root: string, r: Residue, path: Path, m: Path, depth: nat)
    requires Exact(types, root, r) && Reachable(r, path) && m in r.moved && path <= m && depth <= |path|
    requires !Linear(types, root, path)
    requires var out := Reinitialize(types, root, r, path);
             Exact(types, root, out) && out.obligations == r.obligations
    ensures StillBroken(types, root, Reinitialize(types, root, r, path).moved, path, depth)
  {
    if depth > 0 {
      ExactStaysBroken(types, root, r, path, m, depth - 1);
      var moved := Reinitialize(types, root, r, path).moved;
      var a := path[..depth - 1];
      if Linear(types, root, a) && !Exposed(moved, a) {
        assert Owed(types, root, moved, a) by {
          forall k | 0 <= k < |a| ensures Exposed(moved, a[..k]) {
            LinearPrefix(types, root, a, k);
            assert a[..k] == path[..k];
          }
          assert a < path;
        }
        assert a in r.obligations && Comparable(m, a);
      }
    }
  }

  const NESTED: Registry := map["P" := TypeInfo("", map[], map["a" := "Q", "c" := "R"]),
                                "Q" := TypeInfo("", map[], map["b" := "R"]),
                                  "R" := TypeInfo("", map["close" := true], map[])]

  /** Obligations of nested ancestors are not merged again: once `a.b` and `c` have been moved out and `a.b` is
      assigned, `a` is intact, but a destructor call on it is rejected as incomplete. */
  lemma CompletedAncestorIsNotMerged()
    ensures var s1 := MoveOut(NESTED, "P", WHOLE, ["a", "b"]);
      s1.Ok? &&
      var s2 := MoveOut(NESTED, "P", s1.value, ["c"]);
      s2.Ok? && Exact(NESTED, "P", s2.value) &&
      var out := Reinitialize(NESTED, "P", s2.value, ["a", "b"]);
      && out == Residue({["a", "b"]}, {["c"]})
      && Owed(NESTED, "P", out.moved, ["a"])
      && Destroy(NESTED, "P", out, ["a"]) == Err(Incomplete)
  {
    WholeIsExact(NESTED, "P");
    MoveOutOfWholePlace(NESTED, "P", WHOLE, ["a", "b"]);
    NestedFieldTaken();
    MoveOutOfWholePlace(NESTED, "P", Residue({["c"]}, {["a", "b"]}), ["c"]);
    SiblingTaken();
    var out := Reinitialize(NESTED, "P", Residue({}, {["a", "b"], ["c"]}), ["a", "b"]);
    assert out.moved == {["c"]} by { assert !(["a", "b"] <= ["c"]); }
    assert ["a", "b"][1..] == ["b"] && ["b"][1..] == [] && ["a"][1..] == [];
    assert TypeAtPath(NESTED, "P", ["a", "b"]) == Some("R");
    assert Owed(NESTED, "P", out.moved, ["a"]) by {
      assert ["a"][..0] == [] && [] < ["c"];
    }
    assert ["a"][..0] == [] && Expose(NESTED, "P", {["a", "b"]}, ["a"], 1) == Ok({["a", "b"]});
  }

  lemma NestedFieldTaken()
    ensures MoveOut(NESTED, "P", WHOLE, ["a", "b"]) == Ok(Residue({["c"]}, {["a", "b"]}))
  {
    var path := ["a", "b"];
    assert path[..0] == [] && path[..1] == ["a"] && ["a"][1..] == [];
    assert [] + ["a"] == ["a"] && [] + ["c"] == ["c"] && ["a"] + ["b"] == path;
    assert Children(NESTED, "P", []) == {["a"], ["c"]} && Children(NESTED, "Q", ["a"]) == {path};
    var first, second: set<Path> := {["a"], ["c"]}, {["c"], path};
    assert Expose(NESTED, "P", WHOLE.obligations, path, 0) == Ok(WHOLE.obligations);
    assert ExposeOne(NESTED, "P", WHOLE.obligations, []) == Ok(first) by {
      assert (WHOLE.obligations - {[]}) + first == first;
    }
    assert Expose(NESTED, "P", WHOLE.obligations, path, 1) == Ok(first);
    assert ExposeOne(NESTED, "P", first, ["a"]) == Ok(second) by { assert (first - {["a"]}) + {path} == second; }
    assert Expose(NESTED, "P", WHOLE.obligations, path, 2) == Ok(second);
    assert second - {path} == {["c"]} && WHOLE.moved + {path} == {path};
  }

  lemma SiblingTaken()
    ensures MoveOut(NESTED, "P", Residue({["c"]}, {["a", "b"]}), ["c"]) == Ok(Residue({}, {["a", "b"], ["c"]}))
  {
    assert ["c"][..0] == [];
    assert Expose(NESTED, "P", {["c"]}, ["c"], 0) == Ok({["c"]});
    assert Expose(NESTED, "P", {["c"]}, ["c"], 1) == Ok({["c"]});
    var owed, before: set<Path>, after: set<Path> := {["c"]}, {["a", "b"]}, {["a", "b"], ["c"]};
    assert owed - {["c"]} == {} && before + {["c"]} == after;
  }

  // ----- any sequence of operations -----

  datatype Step = Transfer(path: Path) | Discharge(path: Path) | AssignWhole | AssignPlace(path: Path)

  function Apply(types: Registry, root: string, r: Residue, step: Step): Result<Residue, Problem> {
    match step
    case Transfer(path) => MoveOut(types, root, r, path)
    case Discharge(path) => Destroy(types, root, r, path)
    case AssignWhole => if r.obligations != {} then Err(Overwritten) else Ok(WHOLE)
    case AssignPlace(path) => Ok(Reinitialize(types, root, r, path))
  }

  /** Transfers of places with nothing separately owed inside, and harmless assignments to a place inside values that
      are still there. Destructor calls and whole assignments are free. */
  ghost predicate Permitted(types: Registry, root: string, r: Residue, step: Step) {
    match step
    case Transfer(path) => forall o :: o in r.obligations ==> !(path < o)
    case AssignPlace(path) => Reachable(r, path) && Harmless(types, root, r, path)
    case _ => true
  }

  function ApplyAll(types: Registry, root: string, r: Residue, steps: seq<Step>): Result<Residue, Problem>
    decreases |steps|
  {
    if steps == [] then Ok(r)
    else
      var next :- Apply(types, root, r, steps[0]);
      ApplyAll(types, root, next, steps[1..])
  }

  ghost predicate AllPermitted(types: Registry, root: string, r: Residue, steps: seq<Step>)
    decreases |steps|
  {
    steps == [] ||
    (Permitted(types, root, r, steps[0]) &&
     var next := Apply(types, root, r, steps[0]);
     next.Ok? ==> AllPermitted(types, root, next.value, steps[1..]))
  }

  lemma StepKeepsExact(types: Registry, root: string, r: Residue, step: Step)
    requires Closed(types) && root in types
    requires Exact(types, root, r) && Permitted(types, root, r, step)
    ensures var out := Apply(types, root, r, step);
            && (out.Ok? ==> Exact(types, root, out.value))
            && out != Err(InvalidResidual)
  {
    match step
    case Transfer(path) => MoveOutExact(types, root, r, path);
    case Discharge(path) => DestroyExact(types, root, r, path);
    case AssignWhole => WholeIsExact(types, root);
    case AssignPlace(path) => ReinitializeExact(types, root, r, path);
  }

  /** After any permitted sequence of operations the obligations kept incrementally are exactly those recomputed
      from what has been moved out, hence never nested, and no operation ever meets an invalid residual. */
  lemma {:induction false} IncrementalIsRecomputed(types: Registry, root: string, r: Residue, steps: seq<Step>)
    requires Closed(types) && root in types
    requires Exact(types, root, r) && AllPermitted(types, root, r, steps)
    ensures var out := ApplyAll(types, root, r, steps);
            && out != Err(InvalidResidual)
            && (out.Ok? ==>
                  && Exact(types, root, out.value)
                  && forall p, q :: p in out.value.obligations && q in out.value.obligations && p != q ==>
                    !Comparable(p, q))
    decreases |steps|
  {
    if steps == [] {
      forall p, q | p in r.obligations && q in r.obligations && p != q
        ensures !Comparable(p, q)
      {
        OwedIsAntichain(types, root, r.moved, p, q);
      }
    } else {
      StepKeepsExact(types, root, r, steps[0]);
      var next := Apply(types, root, r, steps[0]);
      if next.Ok? {
        IncrementalIsRecomputed(types, root, next.value, steps[1..]);
      }
    }
  }

  // ----- a second destructor call -----

  /** No assignment is to the place or to a value that encloses it. Assignments elsewhere, also below it, may occur. */
  ghost predicate NeverReassigns(steps: seq<Step>, path: Path) {
    forall i :: 0 <= i < |steps| ==> !steps[i].AssignWhole? && (steps[i].AssignPlace? ==> !(steps[i].path <= path))
  }

  /** The place is recorded as moved, and no destructor is owed for it or for a value that encloses it. */
  ghost predicate Discharged(r: Residue, path: Path) {
    path in r.moved && forall o :: o in r.obligations ==> !(o <= path)
  }

  /** Breaking up ancestors of another place makes nothing at or above `path` owed. */
  lemma {:induction false} ExposeSpares(types: Registry, root: string, obligations: set<Path>, other: Path, depth: nat,
                                        path: Path)
    requires depth <= |other| && Expose(types, root, obligations, other, depth).Ok?
    requires forall o :: o in obligations ==> !(o <= path)
    ensures forall o :: o in Expose(types, root, obligations, other, depth).value ==> !(o <= path)
  {
    if depth > 0 {
      ExposeSpares(types, root, obligations, other, depth - 1, path);
      var before, a := Expose(types, root, obligations, other, depth - 1).value, other[..depth - 1];
      forall o | o in ExposeOne(types, root, before, a).value && o !in before
        ensures !(o <= path)
      {
        assert a < o;
      }
    }
  }

  /** Breaking up the ancestors of `path` leaves none of them owed. */
  lemma {:induction false} ExposeRemovesAncestors(types: Registry, root: string, obligations: set<Path>, path: Path,
                                                  depth: nat)
    requires depth <= |path| && Expose(types, root, obligations, path, depth).Ok?
    ensures forall o :: o in Expose(types, root, obligations, path, depth).value ==> !(o <= path && |o| < depth)
  {
    if depth > 0 {
      ExposeRemovesAncestors(types, root, obligations, path, depth - 1);
      var before, a := Expose(types, root, obligations, path, depth - 1).value, path[..depth - 1];
      forall o | o in ExposeOne(types, root, before, a).value
        ensures !(o <= path && |o| < depth)
      {
        assert o !in before ==> |o| == depth;
        assert o <= path && |o| == depth - 1 ==> o == a;
      }
    }
  }

  lemma DestroyDischarges(types: Registry, root: string, r: Residue, path: Path)
    requires Destroy(types, root, r, path).Ok?
    ensures Discharged(Destroy(types, root, r, path).value, path)
  {
    ExposeRemovesAncestors(types, root, r.obligations, path, |path|);
    forall o | o in Destroy(types, root, r, path).value.obligations
      ensures !(o <= path)
    {
      assert o <= path && |o| == |path| ==> o == path;
    }
  }

  lemma StepKeepsDischarged(types: Registry, root: string, r: Residue, step: Step, path: Path)
    requires Discharged(r, path) && NeverReassigns([step], path) && Apply(types, root, r, step).Ok?
    ensures Discharged(Apply(types, root, r, step).value, path)
  {
    assert [step][0] == step;
    match step
    case Transfer(other) => ExposeSpares(types, root, r.obligations, other, |other|, path);
    case Discharge(other) => ExposeSpares(types, root, r.obligations, other, |other|, path);
    case AssignPlace(other) => assert path in Reinitialize(types, root, r, other).moved;
    case AssignWhole =>
  }

  /** What holds after a destructor call holds after any operations that do not reassign the place. */
  lemma {:induction false} StaysDischarged(types: Registry, root: string, r: Residue, path: Path, steps: seq<Step>)
    requires Discharged(r, path) && NeverReassigns(steps, path)
    ensures var out := ApplyAll(types, root, r, steps); out.Ok? ==> Discharged(out.value, path)
    decreases |steps|
  {
    if steps != [] {
      var next := Apply(types, root, r, steps[0]);
      if next.Ok? {
        assert [steps[0]][0] == steps[0];
        StepKeepsDischarged(types, root, r, steps[0], path);
        StaysDischarged(types, root, next.value, path, steps[1..]);
      }
    }
  }

  /** Once a place has been destroyed, a second destructor call on it fails, from whatever state and after whatever
      other operations, unless the place or a value that encloses it has been reassigned in between. */
  lemma SecondDestructorFails(types: Registry, root: string, r: Residue, path: Path, steps: seq<Step>)
    requires Destroy(types, root, r, path).Ok? && NeverReassigns(steps, path)
    ensures var out := ApplyAll(types, root, Destroy(types, root, r, path).value, steps);
            out.Ok? ==> Destroy(types, root, out.value, path).Err?
  {
    DestroyDischarges(types, root, r, path);
    StaysDischarged(types, root, Destroy(types, root, r, path).value, path, steps);
    var out := ApplyAll(types, root, Destroy(types, root, r, path).value, steps);
    if out.Ok? && Expose(types, root, out.value.obligations, path, |path|).Ok? {
      ExposeSpares(types, root, out.value.obligations, path, |path|, path);
    }
  }
}
