/** Field paths inside a linear value, and the set of subobjects a partially moved value still owes.

    A type is linear when it is registered; its registry entry lists the destructor methods and the direct
    fields whose own types are linear. The empty path denotes the whole value. */
module LinearPaths {
  import opened Wrappers

  type Path = seq<string>

  datatype TypeInfo = TypeInfo(message: string, destructors: map<string, bool>, fields: map<string, string>)

  type Registry = map<string, TypeInfo>

  /** Every linear field names a registered type. */
  ghost predicate Closed(types: Registry) {
    forall t, f :: t in types && f in types[t].fields ==> types[t].fields[f] in types
  }

  /** The type found by following linear fields only; `None` as soon as a field is ordinary or unknown. */
  function TypeAtPath(types: Registry, root: string, path: Path): Option<string>
    decreases |path|
  {
    if path == [] then Some(root)
    else if root in types && path[0] in types[root].fields then
      TypeAtPath(types, types[root].fields[path[0]], path[1..])
    else None
  }

  ghost predicate Linear(types: Registry, root: string, path: Path) {
    TypeAtPath(types, root, path).Some?
  }

  ghost predicate Comparable(p: Path, q: Path) {
    p <= q || q <= p
  }

  /** Some part strictly below `p` has been moved out. */
  ghost predicate Exposed(moved: set<Path>, p: Path) {
    exists m :: m in moved && p < m
  }

  ghost predicate Untouched(moved: set<Path>, p: Path) {
    forall m :: m in moved ==> !Comparable(m, p)
  }

  /** The paths still owed a destructor once `moved` has been taken out, stated without reference to the
      order of the moves: linear subobjects no move has touched, all of whose enclosing values are broken up. */
  ghost predicate Owed(types: Registry, root: string, moved: set<Path>, q: Path) {
    && Linear(types, root, q)
    && Untouched(moved, q)
    && forall k :: 0 <= k < |q| ==> Exposed(moved, q[..k])
  }

  ghost predicate ExactlyOwed(types: Registry, root: string, moved: set<Path>, obligations: set<Path>) {
    forall q :: q in obligations <==> Owed(types, root, moved, q)
  }

  lemma {:induction false} TypeAtPathAppend(types: Registry, root: string, p: Path, q: Path)
    ensures TypeAtPath(types, root, p + q) ==
            match TypeAtPath(types, root, p) {
              case Some(t) => TypeAtPath(types, t, q)
              case None => None
            }
    decreases |p|
  {
    if p == [] {
      assert p + q == q;
    } else {
      assert (p + q)[0] == p[0] && (p + q)[1..] == p[1..] + q;
      if root in types && p[0] in types[root].fields {
        TypeAtPathAppend(types, types[root].fields[p[0]], p[1..], q);
      }
    }
  }

  lemma LinearPrefix(types: Registry, root: string, q: Path, k: nat)
    requires k <= |q| && Linear(types, root, q)
    ensures Linear(types, root, q[..k])
  {
    assert q[..k] + q[k..] == q;
    TypeAtPathAppend(types, root, q[..k], q[k..]);
  }

  lemma LinearChild(types: Registry, root: string, a: Path, f: string)
    ensures Linear(types, root, a + [f]) <==>
            var t := TypeAtPath(types, root, a);
            t.Some? && t.value in types && f in types[t.value].fields
  {
    TypeAtPathAppend(types, root, a, [f]);
    match TypeAtPath(types, root, a)
    case None =>
    case Some(t) =>
      if t in types && f in types[t].fields {
        assert [f][0] == f && [f][1..] == [];
        assert TypeAtPath(types, t, [f]) == TypeAtPath(types, types[t].fields[f], []);
      } else {
        assert TypeAtPath(types, t, [f]) == None;
      }
  }

  lemma ClosedTypeAtPath(types: Registry, root: string, path: Path)
    requires Closed(types) && root in types
    ensures TypeAtPath(types, root, path).Some? ==> TypeAtPath(types, root, path).value in types
    decreases |path|
  {
    if path != [] && path[0] in types[root].fields {
      ClosedTypeAtPath(types, types[root].fields[path[0]], path[1..]);
    }
  }

  lemma StrictPrefixIsSlice(p: Path, q: Path)
    ensures p < q ==> exists k :: 0 <= k < |q| && q[..k] == p
  {
    if p < q {
      assert q[..|p|] == p;
    }
  }

  lemma NothingOwedBelow(types: Registry, root: string, moved: set<Path>, p: Path, q: Path)
    requires Owed(types, root, moved, p) && Owed(types, root, moved, q)
    ensures !(p < q)
  {
    StrictPrefixIsSlice(p, q);
  }

  /** Owed paths never nest: no two of them share a subobject. */
  lemma OwedIsAntichain(types: Registry, root: string, moved: set<Path>, p: Path, q: Path)
    requires Owed(types, root, moved, p) && Owed(types, root, moved, q) && p != q
    ensures !Comparable(p, q)
  {
    NothingOwedBelow(types, root, moved, p, q);
    NothingOwedBelow(types, root, moved, q, p);
  }
}
