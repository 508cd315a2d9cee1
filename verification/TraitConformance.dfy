/** Refinement of traits and conformance of structs: what the table's invariant makes true of both. */
module TraitConformance {
  import opened Wrappers
  import opened TraitTable

  // ----- refinement -----

  /** `order` lists the traits as they were registered: parents come before the traits that refine them, and a trait
      requires all that its parents do. */
  ghost predicate Layered(traits: Traits, order: seq<string>) {
    && (forall n :: n in traits <==> n in order)
    && (forall i, k :: 0 <= i < |order| && order[i] in traits && 0 <= k < |traits[order[i]].parents| ==>
          traits[order[i]].parents[k] in order[..i])
    && (forall n, p :: n in traits && p in traits[n].parents ==> p in traits && Includes(traits[n], traits[p]))
  }

  /** The position at which a trait was first registered. */
  function Rank(order: seq<string>, name: string): nat
    ensures Rank(order, name) <= |order|
    ensures name in order ==> Rank(order, name) < |order| && order[Rank(order, name)] == name
  {
    if order == [] || order[0] == name then 0 else 1 + Rank(order[1..], name)
  }

  lemma {:induction false} RankBelow(order: seq<string>, name: string, i: nat)
    requires i <= |order| && name in order[..i]
    ensures Rank(order, name) < i
  {
    if order[0] != name {
      assert order[..i][1..] == order[1..][..i - 1];
      RankBelow(order[1..], name, i - 1);
    }
  }

  lemma ParentRanksBelow(traits: Traits, order: seq<string>, name: string, k: nat)
    requires Layered(traits, order) && name in traits && k < |traits[name].parents|
    ensures Rank(order, traits[name].parents[k]) < Rank(order, name)
  {
    var i := Rank(order, name);
    assert order[i] == name;
    RankBelow(order, traits[name].parents[k], i);
  }

  /** `trait_refines`; it ends because the table is layered. */
  function TraitRefines(traits: Traits, ghost order: seq<string>, candidate: string, required: string): bool
    requires Layered(traits, order)
    decreases Rank(order, candidate), 1, 0
  {
    candidate in traits && AnyRefines(traits, order, candidate, 0, required)
  }

  function AnyRefines(traits: Traits, ghost order: seq<string>, candidate: string, k: nat, required: string): bool
    requires Layered(traits, order) && candidate in traits && k <= |traits[candidate].parents|
    decreases Rank(order, candidate), 0, |traits[candidate].parents| - k
  {
    if k == |traits[candidate].parents| then false
    else
      var parent := traits[candidate].parents[k];
      ParentRanksBelow(traits, order, candidate, k);
      parent == required || TraitRefines(traits, order, parent, required) ||
        AnyRefines(traits, order, candidate, k + 1, required)
  }

  /** Each trait of the path but the last is refined from the next. */
  ghost predicate Path(traits: Traits, path: seq<string>) {
    |path| >= 2 && forall i :: 0 <= i < |path| - 1 ==> path[i] in traits && path[i + 1] in traits[path[i]].parents
  }

  ghost predicate Reaches(traits: Traits, from: string, to: string) {
    exists path :: Path(traits, path) && path[0] == from && path[|path| - 1] == to
  }

  lemma {:induction false} RefinesImpliesReaches(traits: Traits, order: seq<string>, candidate: string,
                                                 required: string)
    requires Layered(traits, order) && TraitRefines(traits, order, candidate, required)
    ensures Reaches(traits, candidate, required)
    decreases Rank(order, candidate), 1, 0
  {
    AnyImpliesReaches(traits, order, candidate, 0, required);
  }

  lemma ReachesFrom(traits: Traits, name: string, parent: string, to: string)
    requires name in traits && parent in traits[name].parents && Reaches(traits, parent, to)
    ensures Reaches(traits, name, to)
  {
    var path :| Path(traits, path) && path[0] == parent && path[|path| - 1] == to;
    var longer := [name] + path;
    forall i | 0 <= i < |longer| - 1 ensures longer[i] in traits && longer[i + 1] in traits[longer[i]].parents {
      assert longer[i + 1] == path[i];
      if i > 0 { assert longer[i] == path[i - 1] && path[(i - 1) + 1] in traits[path[i - 1]].parents; }
    }
    assert longer[|longer| - 1] == to;
  }

  lemma {:induction false} AnyImpliesReaches(traits: Traits, order: seq<string>, candidate: string, k: nat,
                                             required: string)
    requires Layered(traits, order) && candidate in traits && k <= |traits[candidate].parents|
    requires AnyRefines(traits, order, candidate, k, required)
    ensures Reaches(traits, candidate, required)
    decreases Rank(order, candidate), 0, |traits[candidate].parents| - k
  {
    var parent := traits[candidate].parents[k];
    ParentRanksBelow(traits, order, candidate, k);
    if parent == required {
      assert Path(traits, [candidate, required]);
    } else if TraitRefines(traits, order, parent, required) {
      RefinesImpliesReaches(traits, order, parent, required);
      ReachesFrom(traits, candidate, parent, required);
    } else {
      AnyImpliesReaches(traits, order, candidate, k + 1, required);
    }
  }

  lemma {:induction false} PathImpliesRefines(traits: Traits, order: seq<string>, path: seq<string>)
    requires Layered(traits, order) && Path(traits, path)
    ensures TraitRefines(traits, order, path[0], path[|path| - 1])
    decreases |path|
  {
    assert path[0] in traits && path[0 + 1] in traits[path[0]].parents;
    var k :| 0 <= k < |traits[path[0]].parents| && traits[path[0]].parents[k] == path[1];
    if |path| > 2 {
      assert Path(traits, path[1..]);
      PathImpliesRefines(traits, order, path[1..]);
    }
    FoundAt(traits, order, path[0], 0, k, path[|path| - 1]);
  }

  lemma {:induction false} FoundAt(traits: Traits, order: seq<string>, candidate: string, j: nat, k: nat,
                                   required: string)
    requires Layered(traits, order) && candidate in traits && j <= k < |traits[candidate].parents|
    requires var parent := traits[candidate].parents[k];
      parent == required || TraitRefines(traits, order, parent, required)
    ensures AnyRefines(traits, order, candidate, j, required)
    decreases k - j
  {
    if j < k { FoundAt(traits, order, candidate, j + 1, k, required); }
  }

  /** Refinement is reachability along declared parents. */
  lemma RefinesIsReachability(traits: Traits, order: seq<string>, candidate: string, required: string)
    requires Layered(traits, order)
    ensures TraitRefines(traits, order, candidate, required) <==> Reaches(traits, candidate, required)
  {
    if TraitRefines(traits, order, candidate, required) { RefinesImpliesReaches(traits, order, candidate, required); }
    if Reaches(traits, candidate, required) {
      var path :| Path(traits, path) && path[0] == candidate && path[|path| - 1] == required;
      PathImpliesRefines(traits, order, path);
    }
  }

  /** One step up a path: the parent is known, ranks lower, and its requirements are included. */
  lemma ParentIsBelow(traits: Traits, order: seq<string>, name: string, parent: string)
    requires Layered(traits, order) && name in traits && parent in traits[name].parents
    ensures Rank(order, parent) < Rank(order, name)
    ensures parent in traits && Includes(traits[name], traits[parent])
  {
    var k :| 0 <= k < |traits[name].parents| && traits[name].parents[k] == parent;
    ParentRanksBelow(traits, order, name, k);
  }

  lemma PathTail(traits: Traits, path: seq<string>)
    requires Path(traits, path)
    ensures path[0] in traits && path[1] in traits[path[0]].parents
    ensures |path| > 2 ==> Path(traits, path[1..])
  {
    assert path[0 + 1] in traits[path[0]].parents;
    if |path| > 2 {
      var tail := path[1..];
      forall i | 0 <= i < |tail| - 1 ensures tail[i] in traits && tail[i + 1] in traits[tail[i]].parents {
        assert path[i + 1] in traits && path[i + 1 + 1] in traits[path[i + 1]].parents;
      }
    }
  }

  lemma {:induction false} PathClimbs(traits: Traits, order: seq<string>, path: seq<string>)
    requires Layered(traits, order) && Path(traits, path)
    ensures Rank(order, path[|path| - 1]) < Rank(order, path[0])
    ensures path[0] in traits && path[|path| - 1] in traits && Includes(traits[path[0]], traits[path[|path| - 1]])
    decreases |path|
  {
    PathTail(traits, path);
    ParentIsBelow(traits, order, path[0], path[1]);
    if |path| > 2 {
      PathClimbs(traits, order, path[1..]);
      IncludesTransitive(traits[path[0]], traits[path[1]], traits[path[|path| - 1]]);
    }
  }

  /** No trait refines itself, and a trait requires everything that any trait it refines does. */
  lemma RefinementIsAcyclic(traits: Traits, order: seq<string>, candidate: string, required: string)
    requires Layered(traits, order) && TraitRefines(traits, order, candidate, required)
    ensures candidate != required
    ensures candidate in traits && required in traits && Includes(traits[candidate], traits[required])
  {
    RefinesImpliesReaches(traits, order, candidate, required);
    var path :| Path(traits, path) && path[0] == candidate && path[|path| - 1] == required;
    PathClimbs(traits, order, path);
  }

  /** Registering a trait keeps the table layered. */
  lemma RegisteringKeepsLayers(built: set<string>, traits: Traits, order: seq<string>, taken: set<string>, name: string,
                               parents: seq<string>, methods: seq<Declared>, members: seq<Member>)
    requires Layered(traits, order) && NewTrait(built, traits, taken, name, parents, methods, members).Ok?
    ensures Layered(traits[name := NewTrait(built, traits, taken, name, parents, methods, members).value],
                    order + [name])
  {
    var info := NewTrait(built, traits, taken, name, parents, methods, members).value;
    NewTraitIncludesParents(built, traits, taken, name, parents, methods, members);
    var table, after := traits[name := info], order + [name];
    forall i, k | 0 <= i < |after| && after[i] in table && 0 <= k < |table[after[i]].parents|
      ensures table[after[i]].parents[k] in after[..i]
    {
      if i < |order| {
        assert after[i] == order[i] && order[i] in order && after[..i] == order[..i];
      } else {
        assert after[..i] == order && parents[k] in parents;
      }
    }
  }

  // ----- conformance -----

  /** The value of a struct's associated compile-time member: a value, known by its type, or a type. */
  datatype Assoc = ValueOf(ty: Ty) | TypeOf(ty: Ty)

  datatype StructInfo = StructInfo(conforms: seq<string>, methods: map<string, seq<Sig>>, associated: map<string,
                                   Assoc>)

  type Structs = map<string, StructInfo>

  /** What is fixed by the language: the built-in traits, which types have them, and which types convert to which. */
  datatype Language = Language(built: set<string>, hasBuilt: (Ty, string) -> bool, coerces: (Ty, Ty) -> bool)

  /** A user trait is had by declaration. */
  function ConformsTo(language: Language, traits: Traits, ghost order: seq<string>, structs: Structs, ty: Ty,
                      tr: string): bool
    requires Layered(traits, order)
  {
    if ty.ParamTy? && tr in ty.bounds then true
    else if tr in language.built then language.hasBuilt(ty, tr)
    else
      match ty
      case StructTy(name) =>
        name in structs && exists d <- structs[name].conforms :: d == tr || TraitRefines(traits, order, d, tr)
      case ParamTy(bounds) => exists b <- bounds :: b == tr || TraitRefines(traits, order, b, tr)
      case _ => false
  }

  function Substitute(ty: Ty, self: Ty): Ty {
    if ty.SelfType? then self else ty
  }

  function SubstituteAll(tys: seq<Ty>, self: Ty): seq<Ty> {
    if tys == [] then [] else [Substitute(tys[0], self)] + SubstituteAll(tys[1..], self)
  }

  /** A requirement with `Self` replaced by the conforming type. */
  function Wanted(req: Sig, self: Ty): Sig {
    req.(params := SubstituteAll(req.params, self), ret := Substitute(req.ret, self),
         error := match req.error case Some(e) => Some(Substitute(e, self)) case None => None)
  }

  /** An implementation may raise less than is required of it, but nothing else. */
  predicate Satisfies(got: Sig, want: Sig) {
    && got.(raises := false, error := None) == want.(raises := false, error := None)
    && (got.raises ==> want.raises && got.error == want.error)
  }

  function MemberSatisfies(language: Language, traits: Traits, ghost order: seq<string>, structs: Structs, value: Assoc,
                           req: Req): bool
    requires Layered(traits, order)
  {
    match req
    case Value(ty) => value.ValueOf? && language.coerces(value.ty, ty)
    case Bounded(bounds) =>
      value.TypeOf? && forall b <- bounds :: ConformsTo(language, traits, order, structs, value.ty, b)
  }

  predicate MethodMet(got: seq<Sig>, req: Sig, self: Ty) {
    exists g <- got :: Satisfies(g, Wanted(req, self))
  }

  // ----- what an implementation must be -----

  /** How a call can end: with a value, or with an error of a type, `Error` if none is named. */
  datatype Ending = Returns | Throws(error: Option<Ty>)

  predicate MayEnd(sig: Sig, e: Ending) {
    match e case Returns => true case Throws(error) => sig.raises && sig.error == error
  }

  /** `got` is `wanted` once the conforming type is put for `Self`. */
  predicate Becomes(wanted: Ty, self: Ty, got: Ty) {
    (wanted == SelfType ==> got == self) && (wanted != SelfType ==> got == wanted)
  }

  /** The error `got` is the one required once the conforming type is put for `Self`. */
  predicate ErrorBecomes(wanted: Option<Ty>, self: Ty, got: Option<Ty>) {
    (wanted.None? <==> got.None?) && (wanted.Some? && got.Some? ==> Becomes(wanted.value, self, got.value))
  }

  /** A call of the implementation may stand for a call of the requirement: it takes the same, gives the same, and can
      end in no way that the requirement does not allow. */
  ghost predicate StandsFor(got: Sig, req: Sig, self: Ty) {
    && |got.params| == |req.params| && (forall k :: 0 <= k < |req.params| ==>
                                        Becomes(req.params[k], self, got.params[k]))
    && Becomes(req.ret, self, got.ret) && got.receiver == req.receiver && got.rest == req.rest
    && forall e :: MayEnd(got, e) ==> e.Returns? || (req.raises && ErrorBecomes(req.error, self, e.error))
  }

  ghost predicate SomeStandsFor(got: seq<Sig>, req: Sig, self: Ty) {
    exists g <- got :: StandsFor(g, req, self)
  }

  lemma {:induction false} SubstitutedAt(tys: seq<Ty>, self: Ty)
    ensures |SubstituteAll(tys, self)| == |tys|
    ensures forall k :: 0 <= k < |tys| ==> Becomes(tys[k], self, SubstituteAll(tys, self)[k])
  {
    if tys != [] { SubstitutedAt(tys[1..], self); }
  }

  lemma BecomesOnly(wanted: seq<Ty>, self: Ty, a: seq<Ty>, b: seq<Ty>)
    requires |a| == |b| == |wanted|
    requires forall k :: 0 <= k < |wanted| ==> Becomes(wanted[k], self, a[k]) && Becomes(wanted[k], self, b[k])
    ensures a == b
  {
  }

  /** The check accepts exactly the implementations that may stand for the requirement. */
  lemma SatisfiesIsStandingFor(got: Sig, req: Sig, self: Ty)
    ensures Satisfies(got, Wanted(req, self)) <==> StandsFor(got, req, self)
  {
    SubstitutedAt(req.params, self);
    if StandsFor(got, req, self) {
      BecomesOnly(req.params, self, got.params, SubstituteAll(req.params, self));
      if got.raises { assert MayEnd(got, Throws(got.error)); }
    }
  }

  lemma MetIsStoodFor(got: seq<Sig>, req: Sig, self: Ty)
    ensures MethodMet(got, req, self) <==> SomeStandsFor(got, req, self)
  {
    forall g <- got ensures Satisfies(g, Wanted(req, self)) <==> StandsFor(g, req, self) {
      SatisfiesIsStandingFor(g, req, self);
    }
  }

  /** A method that mentions `Self` nowhere stands for itself. */
  lemma StandingIsReflexive(a: Sig, self: Ty)
    requires SelfType !in a.params && a.ret != SelfType && a.error != Some(SelfType)
    ensures StandsFor(a, a, self)
  {
    forall k | 0 <= k < |a.params| ensures Becomes(a.params[k], self, a.params[k]) {
      assert a.params[k] in a.params;
    }
  }

  /** What stands for something that stands for a third may stand for the third itself. */
  lemma StandingIsTransitive(a: Sig, b: Sig, c: Sig, self: Ty)
    requires StandsFor(a, b, self) && StandsFor(b, c, self) && self != SelfType
    ensures StandsFor(a, c, self)
  {
    forall k | 0 <= k < |c.params| ensures Becomes(c.params[k], self, a.params[k]) {
      assert Becomes(b.params[k], self, a.params[k]);
    }
    forall e | MayEnd(a, e) ensures e.Returns? || (c.raises && ErrorBecomes(c.error, self, e.error)) {
      if e.Throws? { assert MayEnd(b, Throws(b.error)); }
    }
  }

  /** A method that may raise never stands for one that may not. */
  lemma RaisingNeverStandsForPlain(got: Sig, req: Sig, self: Ty)
    requires got.raises && !req.raises
    ensures !StandsFor(got, req, self)
  {
    assert MayEnd(got, Throws(got.error));
  }

  ghost predicate Implements(language: Language, traits: Traits, order: seq<string>, structs: Structs, s: StructInfo,
                             self: Ty, info: TraitInfo)
    requires Layered(traits, order)
  {
    && (forall m <- info.methods :: m in s.methods)
    && (forall m, req | m in info.methods && m in s.methods && req in info.methods[m] ::
        SomeStandsFor(s.methods[m], req, self))
    && (forall m <- info.members ::
        m in s.associated && MemberSatisfies(language, traits, order, structs, s.associated[m], info.members[m]))
  }

  predicate Meets(language: Language, traits: Traits, ghost order: seq<string>, structs: Structs, value: Assoc,
                  d: Demand)
    requires Layered(traits, order)
  {
    match d
    case OfType(ty) => value.ValueOf? && language.coerces(value.ty, ty)
    case IsType => value.TypeOf?
    case BoundedBy(b) => value.TypeOf? && ConformsTo(language, traits, order, structs, value.ty, b)
  }

  lemma SatisfiesAllDemands(language: Language, traits: Traits, order: seq<string>, structs: Structs, value: Assoc,
                            req: Req)
    requires Layered(traits, order)
    ensures MemberSatisfies(language, traits, order, structs, value, req)
      <==> forall d | Asks(req, d) :: Meets(language, traits, order, structs, value, d)
  {
    match req
    case Value(ty) => assert Asks(req, OfType(ty));
    case Bounded(bounds) =>
      assert Asks(req, IsType);
      forall b <- bounds ensures Asks(req, BoundedBy(b)) {}
      if forall d | Asks(req, d) :: Meets(language, traits, order, structs, value, d) {
        forall b <- bounds ensures ConformsTo(language, traits, order, structs, value.ty, b) {
          assert Meets(language, traits, order, structs, value, BoundedBy(b));
        }
      }
  }

  /** Implementing a trait is implementing every trait whose requirements it includes. */
  lemma ImplementsIncluded(language: Language, traits: Traits, order: seq<string>, structs: Structs, s: StructInfo,
                           self: Ty,
                           info: TraitInfo, other: TraitInfo)
    requires Layered(traits, order) && Includes(info, other)
    requires Implements(language, traits, order, structs, s, self, info)
    ensures Implements(language, traits, order, structs, s, self, other)
  {
    forall m <- other.members
      ensures m in s.associated && MemberSatisfies(language, traits, order, structs, s.associated[m], other.members[m])
    {
      var some := match other.members[m] case Value(ty) => OfType(ty) case Bounded(_) => IsType;
      assert Demands(other.members, m, some);
      assert Demands(info.members, m, some);
      SatisfiesAllDemands(language, traits, order, structs, s.associated[m], info.members[m]);
      SatisfiesAllDemands(language, traits, order, structs, s.associated[m], other.members[m]);
      forall d | Asks(other.members[m], d) ensures Meets(language, traits, order, structs, s.associated[m], d) {
        assert Demands(other.members, m, d);
        assert Demands(info.members, m, d);
      }
    }
  }

  /** A struct that passes the check for a trait passes it for every trait that one refines. */
  lemma ConformanceIsInherited(language: Language, traits: Traits, order: seq<string>, structs: Structs, s: StructInfo,
                               self: Ty,
                               tr: string, ancestor: string)
    requires Layered(traits, order) && TraitRefines(traits, order, tr, ancestor)
    requires tr in traits && Implements(language, traits, order, structs, s, self, traits[tr])
    ensures ancestor in traits && Implements(language, traits, order, structs, s, self, traits[ancestor])
  {
    RefinementIsAcyclic(traits, order, tr, ancestor);
    ImplementsIncluded(language, traits, order, structs, s, self, traits[tr], traits[ancestor]);
  }

  // ----- tables only grow -----

  ghost predicate Grown(traits: Traits, structs: Structs, moreTraits: Traits, moreStructs: Structs) {
    && (forall n <- traits :: n in moreTraits && moreTraits[n] == traits[n])
    && (forall n <- structs :: n in moreStructs && moreStructs[n] == structs[n])
  }

  lemma RefinesGrows(traits: Traits, order: seq<string>, more: Traits, after: seq<string>, candidate: string,
                     required: string)
    requires Layered(traits, order) && Layered(more, after) && Grown(traits, map[], more, map[])
    requires TraitRefines(traits, order, candidate, required)
    ensures TraitRefines(more, after, candidate, required)
  {
    RefinesImpliesReaches(traits, order, candidate, required);
    var path :| Path(traits, path) && path[0] == candidate && path[|path| - 1] == required;
    assert Path(more, path);
    PathImpliesRefines(more, after, path);
  }

  lemma ConformsGrows(language: Language, traits: Traits, order: seq<string>, structs: Structs, more: Traits,
                      after: seq<string>,
                      moreStructs: Structs, ty: Ty, tr: string)
    requires Layered(traits, order) && Layered(more, after) && Grown(traits, structs, more, moreStructs)
    requires ConformsTo(language, traits, order, structs, ty, tr)
    ensures ConformsTo(language, more, after, moreStructs, ty, tr)
  {
    forall d | TraitRefines(traits, order, d, tr) ensures TraitRefines(more, after, d, tr) {
      RefinesGrows(traits, order, more, after, d, tr);
    }
  }

  lemma ImplementsGrows(language: Language, traits: Traits, order: seq<string>, structs: Structs, more: Traits,
                        after: seq<string>,
                        moreStructs: Structs, s: StructInfo, self: Ty, info: TraitInfo)
    requires Layered(traits, order) && Layered(more, after) && Grown(traits, structs, more, moreStructs)
    requires Implements(language, traits, order, structs, s, self, info)
    ensures Implements(language, more, after, moreStructs, s, self, info)
  {
    forall m <- info.members
      ensures m in s.associated && MemberSatisfies(language, more, after, moreStructs, s.associated[m], info.members[m])
    {
      var value, req := s.associated[m], info.members[m];
      assert MemberSatisfies(language, traits, order, structs, value, req);
      if req.Bounded? {
        forall b <- req.bounds ensures ConformsTo(language, more, after, moreStructs, value.ty, b) {
          ConformsGrows(language, traits, order, structs, more, after, moreStructs, value.ty, b);
        }
      }
    }
  }

  // ----- every declared conformance is backed -----

  ghost predicate Backed(language: Language, traits: Traits, order: seq<string>, structs: Structs, name: string)
    requires Layered(traits, order) && name in structs
  {
    forall tr <- structs[name].conforms | tr !in language.built && tr in traits ::
      Implements(language, traits, order, structs, structs[name], StructTy(name), traits[tr])
  }

  ghost predicate AllBacked(language: Language, traits: Traits, order: seq<string>, structs: Structs)
    requires Layered(traits, order)
  {
    forall name <- structs :: Backed(language, traits, order, structs, name)
  }

  /** No trait registered under a built-in name refines `tr`. */
  ghost predicate OutOfBuiltIns(built: set<string>, traits: Traits, order: seq<string>, tr: string)
    requires Layered(traits, order)
  {
    forall b <- built :: !TraitRefines(traits, order, b, tr)
  }

  /** Conforming by name is conforming in fact: a struct said to have a user trait implements all of its
      requirements. */
  lemma NominalConformanceIsReal(language: Language, traits: Traits, order: seq<string>, structs: Structs, name: string,
                                 tr: string)
    requires Layered(traits, order) && AllBacked(language, traits, order, structs)
    requires tr in traits && tr !in language.built && OutOfBuiltIns(language.built, traits, order, tr)
    requires ConformsTo(language, traits, order, structs, StructTy(name), tr)
    ensures name in structs && Implements(language, traits, order, structs, structs[name], StructTy(name), traits[tr])
  {
    assert Backed(language, traits, order, structs, name);
    var d :| d in structs[name].conforms && (d == tr || TraitRefines(traits, order, d, tr));
    if d != tr {
      RefinementIsAcyclic(traits, order, d, tr);
      ConformanceIsInherited(language, traits, order, structs, structs[name], StructTy(name), d, tr);
    }
  }

  /** Whatever structs there are, one that conforms to the trait by name implements it. */
  ghost predicate AlwaysReal(language: Language, traits: Traits, order: seq<string>, tr: string)
    requires Layered(traits, order) && tr in traits
  {
    forall structs: Structs, name: string ::
      (AllBacked(language, traits, order, structs) &&
       ConformsTo(language, traits, order, structs, StructTy(name), tr)) ==>
        (name in structs && Implements(language, traits, order, structs, structs[name], StructTy(name), traits[tr]))
  }

  /** Conforming to a user trait by name is always real exactly if the trait asks for nothing or no trait registered
      under a built-in name refines it. */
  lemma NominalConformanceIsRealExactly(language: Language, traits: Traits, order: seq<string>, tr: string)
    requires Layered(traits, order) && tr in traits && tr !in language.built
    ensures AlwaysReal(language, traits, order, tr) <==>
      (traits[tr].methods == map[] && traits[tr].members == map[]) || OutOfBuiltIns(language.built, traits, order, tr)
  {
    if OutOfBuiltIns(language.built, traits, order, tr) {
      forall structs: Structs, name: string
        | AllBacked(language, traits, order, structs) &&
          ConformsTo(language, traits, order, structs, StructTy(name), tr)
        ensures name in structs && Implements(language, traits, order, structs, structs[name], StructTy(name),
                                              traits[tr])
      {
        NominalConformanceIsReal(language, traits, order, structs, name, tr);
      }
    } else if AlwaysReal(language, traits, order, tr) {
      var b :| b in language.built && TraitRefines(traits, order, b, tr);
      var structs := map["S" := StructInfo([b], map[], map[])];
      EmptyStructEscapes(language, traits, order, b, tr);
      assert Implements(language, traits, order, structs, structs["S"], StructTy("S"), traits[tr]);
    }
  }

  /** A struct with no members that declares only the built-in name `b` conforms to every trait refined under that name,
      and implements only those that ask for nothing. */
  lemma EmptyStructEscapes(language: Language, traits: Traits, order: seq<string>, b: string, tr: string)
    requires Layered(traits, order) && tr in traits && tr !in language.built
    requires b in language.built && TraitRefines(traits, order, b, tr)
    ensures var structs := map["S" := StructInfo([b], map[], map[])];
      && AllBacked(language, traits, order, structs)
      && ConformsTo(language, traits, order, structs, StructTy("S"), tr)
      && (Implements(language, traits, order, structs, structs["S"], StructTy("S"), traits[tr]) ==>
            (traits[tr].methods == map[] && traits[tr].members == map[]))
  {
    assert b in [b];
  }

  predicate DeclaresKnown(built: set<string>, traits: Traits, s: StructInfo) {
    forall tr <- s.conforms :: Known(built, traits, tr)
  }

  lemma BackedGrows(language: Language, traits: Traits, order: seq<string>, structs: Structs, more: Traits,
                    after: seq<string>,
                    moreStructs: Structs, name: string)
    requires Layered(traits, order) && Layered(more, after) && Grown(traits, structs, more, moreStructs)
    requires name in structs && Backed(language, traits, order, structs, name)
    requires DeclaresKnown(language.built, traits, structs[name])
    ensures Backed(language, more, after, moreStructs, name)
  {
    forall tr <- structs[name].conforms | tr !in language.built && tr in more
      ensures Implements(language, more, after, moreStructs, moreStructs[name], StructTy(name), more[tr])
    {
      ImplementsGrows(language, traits, order, structs, more, after, moreStructs, structs[name], StructTy(name),
                      traits[tr]);
    }
  }

  /** Registering a trait keeps every struct's declared conformances backed. */
  lemma RegisteringKeepsBacking(language: Language, traits: Traits, order: seq<string>, structs: Structs, name: string,
                                parents: seq<string>, methods: seq<Declared>, members: seq<Member>)
    requires Layered(traits, order) && AllBacked(language, traits, order, structs)
    requires forall s <- structs :: DeclaresKnown(language.built, traits, structs[s])
    requires NewTrait(language.built, traits, structs.Keys, name, parents, methods, members).Ok?
    ensures var table := traits[name := NewTrait(language.built, traits, structs.Keys, name, parents, methods,
                                                 members).value];
      Layered(table, order + [name]) && AllBacked(language, table, order + [name], structs)
  {
    RegisteringKeepsLayers(language.built, traits, order, structs.Keys, name, parents, methods, members);
    var table := traits[name := NewTrait(language.built, traits, structs.Keys, name, parents, methods, members).value];
    forall s <- structs ensures Backed(language, table, order + [name], structs, s) {
      BackedGrows(language, traits, order, structs, table, order + [name], structs, s);
    }
  }

  /** A trait registered under a built-in name escapes this: the check of a struct that declares it stops at the
      built-in meaning, yet the struct then conforms to the traits it refines, whose methods it lacks. */
  lemma BuiltInNamesEscape(h: (Ty, string) -> bool, c: (Ty, Ty) -> bool)
    ensures var language := Language({"Copyable"}, h, c);
      var sig := Sig([], OtherTy("None"), "", "", false, None);
      var foo := NewTrait(language.built, map[], {}, "Foo", [], [Declared("f", sig)], []);
      foo.Ok? &&
      var one := map["Foo" := foo.value];
      var copyable := NewTrait(language.built, one, {}, "Copyable", ["Foo"], [], []);
      copyable.Ok? &&
      var traits, order := one["Copyable" := copyable.value], ["Foo", "Copyable"];
      var structs := map["S" := StructInfo(["Copyable"], map[], map[])];
      && Layered(traits, order) && AllBacked(language, traits, order, structs)
      && ConformsTo(language, traits, order, structs, StructTy("S"), "Foo")
      && !Implements(language, traits, order, structs, structs["S"], StructTy("S"), traits["Foo"])
  {
    var built := {"Copyable"};
    var f := Declared("f", Sig([], OtherTy("None"), "", "", false, None));
    FooAlone(built, f);
    assert Layered(map[], []);
    RegisteringKeepsLayers(built, map[], [], {}, "Foo", [], [f], []);
    var one := map[]["Foo" := NewTrait(built, map[], {}, "Foo", [], [f], []).value];
    assert [] + ["Foo"] == ["Foo"];
    CopyableOverFoo(built, one);
    RegisteringKeepsLayers(built, one, ["Foo"], {}, "Copyable", ["Foo"], [], []);
    assert ["Foo"] + ["Copyable"] == ["Foo", "Copyable"];
    var traits := one["Copyable" := NewTrait(built, one, {}, "Copyable", ["Foo"], [], []).value];
    FoundAt(traits, ["Foo", "Copyable"], "Copyable", 0, 0, "Foo");
    EmptyStructEscapes(Language(built, h, c), traits, ["Foo", "Copyable"], "Copyable", "Foo");
    assert "f" in traits["Foo"].methods;
  }

  lemma FooAlone(built: set<string>, f: Declared)
    ensures var r := NewTrait(built, map[], {}, "Foo", [], [f], []);
      r.Ok? && f.name in r.value.methods && r.value.parents == []
  {
    assert OwnMethods([f], map[], map[]) == OwnMethods([f][1..], map[], map[f.name := [] + [f.sig]]);
    assert OwnMethods([], map[], map[f.name := [] + [f.sig]]) == Ok(map[f.name := [] + [f.sig]]);
  }

  lemma CopyableOverFoo(built: set<string>, traits: Traits)
    requires "Foo" in traits && "Foo" !in built && "Copyable" !in traits
    ensures var r := NewTrait(built, traits, {}, "Copyable", ["Foo"], [], []);
      r.Ok? && r.value.parents == ["Foo"]
  {
    assert ["Foo"][1..] == [];
    assert CheckParents(built, traits, ["Foo"]) == CheckParents(built, traits, []);
    assert forall m <- traits["Foo"].members :: MergeAt(map[], m, traits["Foo"].members[m]).Ok?;
    var merged := MergeMembers(map[], traits["Foo"].members).value;
    assert InheritMembers(traits, ["Foo"], map[]) == InheritMembers(traits, [], merged);
  }
}
