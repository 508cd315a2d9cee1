/** Run-time values with holes: what a variable concretely holds once parts of it have been moved out. */
module LinearValues {
  import opened Wrappers
  import opened LinearPaths

  /** A value still present with its fields, or the hole left by a transfer or a destructor call. */
  datatype Value = Gone | Present(fields: map<string, Value>)

  ghost predicate Whole(v: Value) {
    v.Present? && forall f :: f in v.fields ==> Whole(v.fields[f])
  }

  /** Every linear field of a present linear value exists and is itself of its declared type. */
  ghost predicate WellTyped(types: Registry, ty: string, v: Value)
    decreases v
  {
    v.Present? && ty in types ==>
      forall f :: f in types[ty].fields ==> f in v.fields && WellTyped(types, types[ty].fields[f], v.fields[f])
  }

  function At(v: Value, p: Path): Option<Value>
    decreases |p|
  {
    if p == [] then Some(v)
    else if v.Present? && p[0] in v.fields then At(v.fields[p[0]], p[1..])
    else None
  }

  /** The value at `p` replaced by `w`. */
  function Replace(v: Value, p: Path, w: Value): Value
    requires At(v, p).Some?
    decreases |p|
  {
    if p == [] then w
    else Present(v.fields[p[0] := Replace(v.fields[p[0]], p[1..], w)])
  }

  ghost predicate WholeAt(v: Value, p: Path) {
    At(v, p).Some? && Whole(At(v, p).value)
  }

  ghost predicate HoleAt(v: Value, p: Path) {
    At(v, p) == Some(Gone)
  }

  /** The value owes a destructor at `p`: the largest intact linear subobject along this path sits there. */
  ghost predicate Owes(types: Registry, ty: string, v: Value, p: Path) {
    && Linear(types, ty, p)
    && WholeAt(v, p)
    && forall k :: 0 <= k < |p| ==> !WholeAt(v, p[..k])
  }

  ghost predicate OwesAnything(types: Registry, ty: string, v: Value) {
    exists p :: Owes(types, ty, v, p)
  }

  lemma {:induction false} AtAppend(v: Value, p: Path, q: Path)
    ensures At(v, p + q) == match At(v, p) { case Some(w) => At(w, q) case None => None }
    decreases |p|
  {
    if p == [] {
      assert p + q == q;
    } else {
      assert (p + q)[0] == p[0] && (p + q)[1..] == p[1..] + q;
      if v.Present? && p[0] in v.fields {
        AtAppend(v.fields[p[0]], p[1..], q);
      }
    }
  }

  lemma AtSplit(v: Value, p: Path, q: Path)
    requires p <= q
    ensures At(v, q) == match At(v, p) { case Some(w) => At(w, q[|p|..]) case None => None }
  {
    assert p + q[|p|..] == q;
    AtAppend(v, p, q[|p|..]);
  }

  lemma {:induction false} WholeHasNoHole(v: Value, p: Path)
    requires Whole(v)
    ensures !HoleAt(v, p) && (At(v, p).Some? ==> Whole(At(v, p).value))
    decreases |p|
  {
    if p != [] && p[0] in v.fields {
      WholeHasNoHole(v.fields[p[0]], p[1..]);
    }
  }

  lemma {:induction false} BrokenHasHole(v: Value) returns (p: Path)
    requires !Whole(v)
    ensures HoleAt(v, p)
  {
    if v.Gone? {
      p := [];
    } else {
      var f :| f in v.fields && !Whole(v.fields[f]);
      var tail := BrokenHasHole(v.fields[f]);
      p := [f] + tail;
      assert p[1..] == tail;
    }
  }

  /** Holes never nest. */
  lemma HolesAreAntichain(v: Value, p: Path, q: Path)
    requires HoleAt(v, p) && p < q
    ensures At(v, q) == None
  {
    AtSplit(v, p, q);
  }

  lemma {:induction false} LinearPathExists(types: Registry, ty: string, v: Value, p: Path) returns (k: nat)
    requires WellTyped(types, ty, v) && Linear(types, ty, p)
    ensures k <= |p|
    ensures At(v, p).Some? || HoleAt(v, p[..k])
    decreases |p|
  {
    if p == [] {
      k := 0;
    } else if v.Gone? {
      k := 0;
    } else {
      var t := types[ty].fields[p[0]];
      k := LinearPathExists(types, t, v.fields[p[0]], p[1..]);
      k := k + 1;
      assert p[..k][1..] == p[1..][..k - 1];
    }
  }

  ghost predicate MovedAreHoles(v: Value, moved: set<Path>) {
    forall p :: p in moved <==> HoleAt(v, p)
  }

  lemma WholeAtUntouched(v: Value, moved: set<Path>, p: Path)
    requires MovedAreHoles(v, moved)
    ensures WholeAt(v, p) <==> At(v, p).Some? && Untouched(moved, p)
  {
    if WholeAt(v, p) {
      forall m | m in moved
        ensures !Comparable(m, p)
      {
        if p <= m {
          AtSplit(v, p, m);
          WholeHasNoHole(At(v, p).value, m[|p|..]);
        } else if m <= p {
          AtSplit(v, m, p);
        }
      }
    } else if At(v, p).Some? {
      var tail := BrokenHasHole(At(v, p).value);
      AtAppend(v, p, tail);
      assert p + tail in moved && p <= p + tail;
    }
  }

  lemma BrokenIsExposed(v: Value, moved: set<Path>, p: Path)
    requires MovedAreHoles(v, moved) && At(v, p).Some? && !HoleAt(v, p)
    ensures !WholeAt(v, p) <==> Exposed(moved, p)
  {
    if !WholeAt(v, p) {
      var tail := BrokenHasHole(At(v, p).value);
      AtAppend(v, p, tail);
      assert tail != [] by {
        assert p + [] == p;
      }
      assert p + tail in moved && p < p + tail;
    }
    if Exposed(moved, p) {
      WholeAtUntouched(v, moved, p);
    }
  }

  /** The concrete debts of a value with holes are those computed from the set of moved paths alone. */
  lemma OwesIsOwed(types: Registry, ty: string, v: Value, moved: set<Path>, p: Path)
    requires WellTyped(types, ty, v) && MovedAreHoles(v, moved)
    ensures Owes(types, ty, v, p) <==> Owed(types, ty, moved, p)
  {
    WholeAtUntouched(v, moved, p);
    if Linear(types, ty, p) && Untouched(moved, p) {
      var j := LinearPathExists(types, ty, v, p);
      assert p[..j] <= p;
      assert At(v, p).Some?;
      forall k | 0 <= k < |p|
        ensures !WholeAt(v, p[..k]) <==> Exposed(moved, p[..k])
      {
        AtSplit(v, p[..k], p);
        BrokenIsExposed(v, moved, p[..k]);
      }
    }
  }

  lemma {:induction false} ReplaceAt(v: Value, p: Path, w: Value, q: Path)
    requires At(v, p).Some?
    ensures var r := Replace(v, p, w);
            && (p <= q ==> At(r, q) == At(w, q[|p|..]))
            && (!Comparable(p, q) ==> At(r, q) == At(v, q))
            && (q < p ==> At(r, q).Some? && At(r, q).value.Present?)
    decreases |p|
  {
    if p != [] && q != [] && p[0] == q[0] {
      ReplaceAt(v.fields[p[0]], p[1..], w, q[1..]);
      assert p <= q <==> p[1..] <= q[1..];
      assert q <= p <==> q[1..] <= p[1..];
      if p <= q {
        assert q[|p|..] == q[1..][|p[1..]|..];
      }
    }
  }

  lemma {:induction false} ReplaceWellTyped(types: Registry, ty: string, v: Value, p: Path, w: Value)
    requires At(v, p).Some? && WellTyped(types, ty, v)
    requires TypeAtPath(types, ty, p).Some? ==> WellTyped(types, TypeAtPath(types, ty, p).value, w)
    ensures WellTyped(types, ty, Replace(v, p, w))
    decreases |p|
  {
    if p != [] && ty in types && p[0] in types[ty].fields {
      ReplaceWellTyped(types, types[ty].fields[p[0]], v.fields[p[0]], p[1..], w);
    }
  }

  /** Taking a whole subobject out adds exactly one hole. */
  lemma TakeAddsHole(v: Value, p: Path, moved: set<Path>)
    requires WholeAt(v, p) && MovedAreHoles(v, moved)
    ensures MovedAreHoles(Replace(v, p, Gone), moved + {p})
  {
    forall q
      ensures q in moved + {p} <==> HoleAt(Replace(v, p, Gone), q)
    {
      ReplaceAt(v, p, Gone, q);
      WholeAtUntouched(v, moved, p);
      if p <= q {
        assert p + q[|p|..] == q;
        assert q[|p|..] == [] <==> q == p;
        assert At(Gone, q[|p|..]) == Some(Gone) <==> q == p;
      } else if q <= p {
        assert q < p;
      }
    }
  }

  /** Filling a place inside values that are still there removes exactly the holes at and below it. */
  lemma FillRemovesHoles(v: Value, p: Path, w: Value, moved: set<Path>)
    requires At(v, p).Some? && Whole(w) && MovedAreHoles(v, moved)
    ensures MovedAreHoles(Replace(v, p, w), set m | m in moved && !(p <= m))
  {
    forall q
      ensures q in (set m | m in moved && !(p <= m)) <==> HoleAt(Replace(v, p, w), q)
    {
      ReplaceAt(v, p, w, q);
      if p <= q {
        WholeHasNoHole(w, q[|p|..]);
      } else if q < p && HoleAt(v, q) {
        HolesAreAntichain(v, q, p);
      }
    }
  }

  lemma WholeMatchesFresh(v: Value)
    requires Whole(v)
    ensures MovedAreHoles(v, {})
  {
    forall p
      ensures !HoleAt(v, p)
    {
      WholeHasNoHole(v, p);
    }
  }
}
