/** The checker's table of traits: what registering a trait adds to it, and what every table built that way keeps. */
module TraitTable {
  import opened Wrappers

  datatype Ty = SelfType | StructTy(name: string) | ParamTy(bounds: seq<string>) | OtherTy(name: string)

  /** A method signature. `rest` stands for its names, markers and conventions, which are only compared. */
  datatype Sig = Sig(params: seq<Ty>, ret: Ty, receiver: string, rest: string, raises: bool, error: Option<Ty>)

  /** What a compile-time member must be: a value of a type, or a type with bounds. */
  datatype Req = Value(ty: Ty) | Bounded(bounds: seq<string>)

  datatype TraitInfo = TraitInfo(parents: seq<string>, methods: map<string, seq<Sig>>, members: map<string, Req>)

  type Traits = map<string, TraitInfo>

  datatype Error =
    | Redeclaration | UnknownTrait | Unsupported | Conflict
    | MissingMethod | MethodMismatch | MissingMember | MemberMismatch

  /** `built` names the built-in traits. */
  datatype Annotation = Composition(bounds: seq<string>) | Single(name: string)

  datatype Declared = Declared(name: string, sig: Sig)

  datatype Member = Member(name: string, annotation: Annotation)

  // ----- composing requirements -----

  /** `sigs` appended to `overloads`, without those it already has. */
  function AddNew<T(==, !new)>(overloads: seq<T>, sigs: seq<T>): (r: seq<T>)
    ensures forall s :: s in r <==> s in overloads || s in sigs
    decreases |sigs|
  {
    if sigs == [] then overloads
    else AddNew(if sigs[0] in overloads then overloads else overloads + [sigs[0]], sigs[1..])
  }

  function Overloads(methods: map<string, seq<Sig>>, name: string): seq<Sig> {
    if name in methods then methods[name] else []
  }

  function MergeMethods(a: map<string, seq<Sig>>, b: map<string, seq<Sig>>): map<string, seq<Sig>> {
    map m | m in a.Keys + b.Keys :: AddNew(Overloads(a, m), Overloads(b, m))
  }

  /** Two requirements on one member: equal value types stay, bounds accumulate, anything else conflicts. */
  function MergeReq(existing: Req, incoming: Req): Result<Req, Error> {
    match (existing, incoming)
    case (Bounded(bounds), Bounded(more)) => Ok(Bounded(AddNew(bounds, more)))
    case (Value(left), Value(right)) => if left == right then Ok(existing) else Err(Conflict)
    case _ => Err(Conflict)
  }

  function MergeAt(members: map<string, Req>, name: string, incoming: Req): Result<Req, Error> {
    if name in members then MergeReq(members[name], incoming) else Ok(incoming)
  }

  function MergeMembers(a: map<string, Req>, b: map<string, Req>): Result<map<string, Req>, Error> {
    if exists m <- b :: MergeAt(a, m, b[m]).Err? then Err(Conflict)
    else Ok(map m | m in a.Keys + b.Keys :: if m in b then MergeAt(a, m, b[m]).value else a[m])
  }

  // ----- registering a trait -----

  predicate Known(built: set<string>, traits: Traits, name: string) {
    name in built || name in traits
  }

  function CheckParents(built: set<string>, traits: Traits, parents: seq<string>): Result<(), Error> {
    if parents == [] then Ok(())
    else if !Known(built, traits, parents[0]) then Err(UnknownTrait)
    else if parents[0] in built then Err(Unsupported)
    else CheckParents(built, traits, parents[1..])
  }

  function InheritMembers(traits: Traits, parents: seq<string>, members: map<string, Req>)
    : Result<map<string, Req>, Error>
    requires forall p <- parents :: p in traits
    decreases |parents|
  {
    if parents == [] then Ok(members)
    else
      assert parents[0] in parents;
      var merged :- MergeMembers(members, traits[parents[0]].members);
      InheritMembers(traits, parents[1..], merged)
  }

  /** A trait name, or a composition of them, asks for a type; any other annotation for a value of that type. */
  function RequirementOf(built: set<string>, traits: Traits, annotation: Annotation): Result<Req, Error> {
    match annotation
    case Composition(bounds) =>
      if forall b <- bounds :: Known(built, traits, b) then Ok(Bounded(AddNew([], bounds))) else Err(UnknownTrait)
    case Single(name) => if Known(built, traits, name) then Ok(Bounded([name])) else Ok(Value(OtherTy(name)))
  }

  function OwnMembers(built: set<string>, traits: Traits, own: seq<Member>, members: map<string, Req>)
    : Result<map<string, Req>, Error>
    decreases |own|
  {
    if own == [] then Ok(members)
    else
      var req :- RequirementOf(built, traits, own[0].annotation);
      var merged :- MergeAt(members, own[0].name, req);
      OwnMembers(built, traits, own[1..], members[own[0].name := merged])
  }

  function InheritMethods(traits: Traits, parents: seq<string>, methods: map<string, seq<Sig>>): map<string, seq<Sig>>
    requires forall p <- parents :: p in traits
    decreases |parents|
  {
    if parents == [] then methods
    else
      assert parents[0] in parents;
      InheritMethods(traits, parents[1..], MergeMethods(methods, traits[parents[0]].methods))
  }

  predicate Clashes(name: string, a: Sig, b: Sig) {
    a.params == b.params && (name != "__iter__" || a.receiver == b.receiver)
  }

  function OwnMethods(own: seq<Declared>, members: map<string, Req>, methods: map<string, seq<Sig>>)
    : Result<map<string, seq<Sig>>, Error>
    decreases |own|
  {
    if own == [] then Ok(methods)
    else
      var m := own[0];
      if m.name in members || exists s <- Overloads(methods, m.name) ::
        Clashes(m.name, s, m.sig) then Err(Redeclaration)
      else OwnMethods(own[1..], members, methods[m.name := Overloads(methods, m.name) + [m.sig]])
  }

  lemma {:induction false} CheckedParentsAreTraits(built: set<string>, traits: Traits, parents: seq<string>)
    requires CheckParents(built, traits, parents).Ok?
    ensures forall p <- parents :: p in traits
  {
    if parents != [] {
      CheckedParentsAreTraits(built, traits, parents[1..]);
      assert forall p <- parents :: p == parents[0] || p in parents[1..];
    }
  }

  /** The entry for a new trait, or why it is rejected. */
  function NewTrait(built: set<string>, traits: Traits, taken: set<string>, name: string, parents: seq<string>,
                    methods: seq<Declared>, members: seq<Member>): Result<TraitInfo, Error>
  {
    if name in traits || name in taken then Err(Redeclaration)
    else
      var _ :- CheckParents(built, traits, parents);
      CheckedParentsAreTraits(built, traits, parents);
      var inherited :- InheritMembers(traits, parents, map[]);
      var all :- OwnMembers(built, traits, members, inherited);
      var sigs :- OwnMethods(methods, all, InheritMethods(traits, parents, map[]));
      Ok(TraitInfo(parents, sigs, all))
  }

  // ----- what a trait inherits -----

  ghost predicate MethodsInclude(methods: map<string, seq<Sig>>, others: map<string, seq<Sig>>) {
    forall m, s | m in others && s in others[m] :: m in methods && s in methods[m]
  }

  /** A single thing asked of a compile-time member. */
  datatype Demand = OfType(ty: Ty) | IsType | BoundedBy(bound: string)

  predicate Asks(req: Req, d: Demand) {
    match d
    case OfType(ty) => req == Value(ty)
    case IsType => req.Bounded?
    case BoundedBy(bound) => req.Bounded? && bound in req.bounds
  }

  predicate Demands(members: map<string, Req>, m: string, d: Demand) {
    m in members && Asks(members[m], d)
  }

  ghost predicate MembersInclude(members: map<string, Req>, others: map<string, Req>) {
    forall m, d | Demands(others, m, d) :: Demands(members, m, d)
  }

  /** Everything one trait requires, another does. */
  ghost predicate Includes(info: TraitInfo, other: TraitInfo) {
    MethodsInclude(info.methods, other.methods) && MembersInclude(info.members, other.members)
      && forall m <- other.methods :: m in info.methods
  }

  lemma IncludesTransitive(a: TraitInfo, b: TraitInfo, c: TraitInfo)
    requires Includes(a, b) && Includes(b, c)
    ensures Includes(a, c)
  {
    forall m, d | Demands(c.members, m, d) ensures Demands(a.members, m, d) {
      assert Demands(b.members, m, d);
    }
    forall m, s | m in c.methods && s in c.methods[m] ensures m in a.methods && s in a.methods[m] {
      assert m in b.methods && s in b.methods[m];
    }
  }

  lemma MergedReqExact(existing: Req, incoming: Req)
    requires MergeReq(existing, incoming).Ok?
    ensures forall d :: Asks(MergeReq(existing, incoming).value, d) <==> Asks(existing, d) || Asks(incoming, d)
  {
  }

  lemma MergedMembersExact(a: map<string, Req>, b: map<string, Req>)
    requires MergeMembers(a, b).Ok?
    ensures forall m, d :: Demands(MergeMembers(a, b).value, m, d) <==> Demands(a, m, d) || Demands(b, m, d)
  {
    var merged := MergeMembers(a, b).value;
    forall m, d ensures Demands(merged, m, d) <==> Demands(a, m, d) || Demands(b, m, d) {
      if m in b {
        assert MergeAt(a, m, b[m]).Ok?;
        if m in a { MergedReqExact(a[m], b[m]); }
      }
    }
  }

  lemma {:induction false} InheritedMembersExact(traits: Traits, parents: seq<string>, members: map<string, Req>)
    requires forall p <- parents :: p in traits
    requires InheritMembers(traits, parents, members).Ok?
    ensures var all := InheritMembers(traits, parents, members).value;
      forall m, d :: Demands(all, m, d) <==> Demands(members, m, d) || exists p <- parents ::
        Demands(traits[p].members, m, d)
    decreases |parents|
  {
    if parents != [] {
      assert parents[0] in parents;
      var parent := traits[parents[0]].members;
      MergedMembersExact(members, parent);
      InheritedMembersExact(traits, parents[1..], MergeMembers(members, parent).value);
      assert forall p :: p in parents <==> p == parents[0] || p in parents[1..];
    }
  }

  /** What an annotation asks of a member: to be a type with bounds if it names traits, and else a value of that
      type. */
  predicate AnnotationDemands(built: set<string>, traits: Traits, annotation: Annotation, d: Demand) {
    match annotation
    case Composition(bounds) => d == IsType || (d.BoundedBy? && d.bound in bounds)
    case Single(name) =>
      if name in built || name in traits then d == IsType || d == BoundedBy(name) else d == OfType(OtherTy(name))
  }

  lemma RequirementExact(built: set<string>, traits: Traits, annotation: Annotation)
    ensures var r := RequirementOf(built, traits, annotation);
      && (r.Ok? <==> (annotation.Composition? ==> forall b <- annotation.bounds :: b in built || b in traits))
      && (r.Ok? ==> forall d :: Asks(r.value, d) <==> AnnotationDemands(built, traits, annotation, d))
  {
    if annotation.Composition? {
      assert (forall b <- annotation.bounds :: Known(built, traits, b)) <==>
             (forall b <- annotation.bounds :: b in built || b in traits);
    }
  }

  /** One of the trait's own members asks for this. */
  ghost predicate OwnDemands(built: set<string>, traits: Traits, own: seq<Member>, m: string, d: Demand) {
    exists x <- own :: x.name == m && AnnotationDemands(built, traits, x.annotation, d)
  }

  lemma {:induction false} OwnMembersExact(built: set<string>, traits: Traits, own: seq<Member>,
                                           members: map<string, Req>)
    requires OwnMembers(built, traits, own, members).Ok?
    ensures var all := OwnMembers(built, traits, own, members).value;
      forall m, d :: Demands(all, m, d) <==> Demands(members, m, d) || OwnDemands(built, traits, own, m, d)
    decreases |own|
  {
    if own != [] {
      var name, req := own[0].name, RequirementOf(built, traits, own[0].annotation).value;
      var next := members[name := MergeAt(members, name, req).value];
      if name in members { MergedReqExact(members[name], req); }
      RequirementExact(built, traits, own[0].annotation);
      OwnMembersExact(built, traits, own[1..], next);
      assert forall x :: x in own <==> x == own[0] || x in own[1..];
      assert forall m, d :: Demands(next, m, d) <==> Demands(members, m, d) || (m == name && Asks(req, d));
    }
  }

  /** Requirements with the given signature under the given name, in the table or in one of the parents. */
  ghost predicate Supplied(traits: Traits, parents: seq<string>, methods: map<string, seq<Sig>>, m: string, s: Sig)
    requires forall p <- parents :: p in traits
  {
    s in Overloads(methods, m) || exists p <- parents :: s in Overloads(traits[p].methods, m)
  }

  /** A trait inherits exactly the overloads of its parents. */
  lemma {:induction false} InheritedMethodsExact(traits: Traits, parents: seq<string>, methods: map<string, seq<Sig>>)
    requires forall p <- parents :: p in traits
    ensures var all := InheritMethods(traits, parents, methods);
      && (forall m, s :: s in Overloads(all, m) <==> Supplied(traits, parents, methods, m, s))
      && (forall m :: m in all <==> m in methods || exists p <- parents :: m in traits[p].methods)
    decreases |parents|
  {
    if parents != [] {
      assert parents[0] in parents;
      var parent := traits[parents[0]].methods;
      var merged := MergeMethods(methods, parent);
      InheritedMethodsExact(traits, parents[1..], merged);
      assert forall p :: p in parents <==> p == parents[0] || p in parents[1..];
      assert forall m, s :: s in Overloads(merged, m) <==> s in Overloads(methods, m) || s in Overloads(parent, m);
    }
  }

  /** The trait's own methods are added to the inherited ones, and nothing else is. */
  lemma {:induction false} OwnMethodsExact(own: seq<Declared>, members: map<string, Req>,
                                           methods: map<string, seq<Sig>>)
    requires OwnMethods(own, members, methods).Ok?
    ensures var all := OwnMethods(own, members, methods).value;
      && (forall m, s :: s in Overloads(all, m) <==> s in Overloads(methods, m) || Declared(m, s) in own)
      && (forall m <- methods :: m in all)
    decreases |own|
  {
    if own != [] {
      var next := methods[own[0].name := Overloads(methods, own[0].name) + [own[0].sig]];
      OwnMethodsExact(own[1..], members, next);
      assert forall d :: d in own <==> d == own[0] || d in own[1..];
      assert forall m, s :: s in Overloads(next, m) <==> s in Overloads(methods, m) || Declared(m, s) == own[0];
    }
  }

  /** A registered trait requires exactly what its parents and its own declaration do: these methods, and these
      members. */
  lemma NewTraitExact(built: set<string>, traits: Traits, taken: set<string>, name: string, parents: seq<string>,
                      methods: seq<Declared>, members: seq<Member>)
    requires NewTrait(built, traits, taken, name, parents, methods, members).Ok?
    ensures forall p <- parents :: p in traits
    ensures var info := NewTrait(built, traits, taken, name, parents, methods, members).value;
      && (forall m, s :: s in Overloads(info.methods, m) <==>
            Declared(m, s) in methods || exists p <- parents :: s in Overloads(traits[p].methods, m))
      && (forall m, d :: Demands(info.members, m, d) <==>
            OwnDemands(built, traits, members, m, d) || exists p <- parents :: Demands(traits[p].members, m, d))
      && (forall p <- parents, m <- traits[p].methods :: m in info.methods)
  {
    CheckedParentsAreTraits(built, traits, parents);
    var inherited := InheritMembers(traits, parents, map[]).value;
    var all := OwnMembers(built, traits, members, inherited).value;
    InheritedMembersExact(traits, parents, map[]);
    OwnMembersExact(built, traits, members, inherited);
    InheritedMethodsExact(traits, parents, map[]);
    OwnMethodsExact(methods, all, InheritMethods(traits, parents, map[]));
  }

  // ----- which traits are registered -----

  /** Requirements of one sort can be merged: all bounds, or values of one type. */
  datatype Sort = Bounds | ValueOf(ty: Ty)

  function SortOf(req: Req): Sort {
    match req case Value(ty) => ValueOf(ty) case Bounded(_) => Bounds
  }

  /** A requirement of this sort on the member comes from the table or from one of the parents. */
  ghost predicate InheritsSort(traits: Traits, parents: seq<string>, members: map<string, Req>, m: string, sort: Sort)
    requires forall p <- parents :: p in traits
  {
    || (m in members && SortOf(members[m]) == sort)
    || exists p <- parents :: m in traits[p].members && SortOf(traits[p].members[m]) == sort
  }

  /** On every member only requirements of one sort are inherited. */
  ghost predicate InheritsOneSort(traits: Traits, parents: seq<string>, members: map<string, Req>)
    requires forall p <- parents :: p in traits
  {
    forall m, a, b :: InheritsSort(traits, parents, members, m, a) && InheritsSort(traits, parents, members, m, b) ==>
      a == b
  }

  lemma MergeAccepted(a: map<string, Req>, b: map<string, Req>)
    ensures MergeMembers(a, b).Ok? <==> forall m <- b :: m in a ==> SortOf(a[m]) == SortOf(b[m])
    ensures MergeMembers(a, b).Ok? ==>
      forall m <- MergeMembers(a, b).value ::
        SortOf(MergeMembers(a, b).value[m]) == SortOf(if m in b then b[m] else a[m])
  {
    forall m <- b ensures MergeAt(a, m, b[m]).Ok? <==> (m in a ==> SortOf(a[m]) == SortOf(b[m])) {}
  }

  lemma {:induction false} InheritedAccepted(traits: Traits, parents: seq<string>, members: map<string, Req>)
    requires forall p <- parents :: p in traits
    ensures var r := InheritMembers(traits, parents, members);
      && (r.Ok? <==> InheritsOneSort(traits, parents, members))
      && (r.Ok? ==> forall m, sort :: (m in r.value && SortOf(r.value[m]) == sort) <==>
          InheritsSort(traits, parents, members, m, sort))
    decreases |parents|
  {
    if parents != [] {
      var parent := traits[parents[0]].members;
      MergeAccepted(members, parent);
      assert parents[0] in parents && forall p :: p in parents <==> p == parents[0] || p in parents[1..];
      var merged := MergeMembers(members, parent);
      if merged.Ok? {
        InheritedAccepted(traits, parents[1..], merged.value);
        SortsOfFirst(traits, parents, members, merged.value);
      } else {
        var m :| m in parent && m in members && SortOf(members[m]) != SortOf(parent[m]);
        assert InheritsSort(traits, parents, members, m, SortOf(members[m]));
        assert InheritsSort(traits, parents, members, m, SortOf(parent[m]));
      }
    }
  }

  lemma SortsOfFirst(traits: Traits, parents: seq<string>, members: map<string, Req>, merged: map<string, Req>)
    requires parents != [] && forall p <- parents :: p in traits
    requires MergeMembers(members, traits[parents[0]].members) == Ok(merged)
    ensures forall m, sort :: InheritsSort(traits, parents, members, m, sort) <==>
      InheritsSort(traits, parents[1..], merged, m, sort)
  {
    var parent := traits[parents[0]].members;
    MergeAccepted(members, parent);
    assert parents[0] in parents && forall p :: p in parents <==> p == parents[0] || p in parents[1..];
    forall m, sort
      ensures InheritsSort(traits, parents, members, m, sort) <==> InheritsSort(traits, parents[1..], merged, m, sort)
    {
      assert m in merged <==> m in members || m in parent;
      assert m in members && m in parent ==> SortOf(members[m]) == SortOf(parent[m]);
    }
  }

  /** One of the trait's own members has a requirement of this sort. */
  ghost predicate OwnSort(built: set<string>, traits: Traits, own: seq<Member>, m: string, sort: Sort) {
    exists x <- own :: x.name == m && AnnotationSort(built, traits, x.annotation) == sort
  }

  function AnnotationSort(built: set<string>, traits: Traits, annotation: Annotation): Sort {
    match annotation
    case Composition(_) => Bounds
    case Single(name) => if name in built || name in traits then Bounds else ValueOf(OtherTy(name))
  }

  predicate AnnotationKnown(built: set<string>, traits: Traits, annotation: Annotation) {
    annotation.Composition? ==> forall b <- annotation.bounds :: b in built || b in traits
  }

  lemma RequirementSort(built: set<string>, traits: Traits, annotation: Annotation)
    ensures var r := RequirementOf(built, traits, annotation);
      (r.Ok? <==> AnnotationKnown(built, traits, annotation)) &&
        (r.Ok? ==> SortOf(r.value) == AnnotationSort(built, traits, annotation))
  {
    RequirementExact(built, traits, annotation);
  }

  /** Every own member names known traits, and its requirement is of the sort of all others on that member. */
  ghost predicate OwnFits(built: set<string>, traits: Traits, own: seq<Member>, members: map<string, Req>) {
    && (forall x <- own :: AnnotationKnown(built, traits, x.annotation))
    && (forall x <- own :: x.name in members ==> AnnotationSort(built, traits, x.annotation) == SortOf(members[x.name]))
    && (forall x, y | x in own && y in own && x.name == y.name ::
          AnnotationSort(built, traits, x.annotation) == AnnotationSort(built, traits, y.annotation))
  }

  lemma {:induction false} OwnAccepted(built: set<string>, traits: Traits, own: seq<Member>, members: map<string, Req>)
    ensures var r := OwnMembers(built, traits, own, members);
      && (r.Ok? <==> OwnFits(built, traits, own, members))
      && (r.Ok? ==> r.value.Keys == members.Keys + set x | x in own :: x.name)
    decreases |own|
  {
    if own != [] {
      var x := own[0];
      RequirementSort(built, traits, x.annotation);
      var req := RequirementOf(built, traits, x.annotation);
      assert x in own && forall y :: y in own <==> y == x || y in own[1..];
      if req.Ok? && MergeAt(members, x.name, req.value).Ok? {
        var next := members[x.name := MergeAt(members, x.name, req.value).value];
        assert SortOf(next[x.name]) == AnnotationSort(built, traits, x.annotation);
        OwnAccepted(built, traits, own[1..], next);
        OwnFitsFirst(built, traits, own, members, next);
      }
    }
  }

  lemma OwnFitsFirst(built: set<string>, traits: Traits, own: seq<Member>, members: map<string, Req>,
                     next: map<string, Req>)
    requires own != [] && AnnotationKnown(built, traits, own[0].annotation)
    requires next.Keys == members.Keys + {own[0].name} && forall m <- members :: SortOf(next[m]) == SortOf(members[m])
    requires SortOf(next[own[0].name]) == AnnotationSort(built, traits, own[0].annotation)
    ensures OwnFits(built, traits, own, members) <==> OwnFits(built, traits, own[1..], next)
  {
    var x := own[0];
    assert x in own && forall y :: y in own <==> y == x || y in own[1..];
    if OwnFits(built, traits, own[1..], next) {
      forall y, z | y in own && z in own && y.name == z.name
        ensures AnnotationSort(built, traits, y.annotation) == AnnotationSort(built, traits, z.annotation)
      {
      }
    }
  }

  /** No own method has the name of a member, or the parameters of an overload it has beside it; `__iter__` may be
      overloaded by its receiver. */
  ghost predicate MethodsFit(own: seq<Declared>, members: map<string, Req>, methods: map<string, seq<Sig>>) {
    && (forall d <- own :: d.name !in members)
    && (forall d <- own, s <- Overloads(methods, d.name) :: Apart(d.name, s, d.sig))
    && (forall i, j :: 0 <= i < j < |own| && own[i].name == own[j].name ==> Apart(own[i].name, own[i].sig, own[j].sig))
  }

  predicate Apart(name: string, a: Sig, b: Sig) {
    a.params != b.params || (name == "__iter__" && a.receiver != b.receiver)
  }

  lemma {:induction false} MethodsAccepted(own: seq<Declared>, members: map<string, Req>,
                                           methods: map<string, seq<Sig>>)
    ensures OwnMethods(own, members, methods).Ok? <==> MethodsFit(own, members, methods)
    decreases |own|
  {
    if own != [] {
      var m := own[0];
      assert m in own && forall d :: d in own <==> d == m || d in own[1..];
      if m.name !in members && forall s <- Overloads(methods, m.name) :: Apart(m.name, s, m.sig) {
        var next := methods[m.name := Overloads(methods, m.name) + [m.sig]];
        MethodsAccepted(own[1..], members, next);
        MethodsFitFirst(own, members, methods, next);
      }
    }
  }

  lemma MethodsFitFirst(own: seq<Declared>, members: map<string, Req>, methods: map<string, seq<Sig>>,
                        next: map<string, seq<Sig>>)
    requires own != [] && own[0].name !in members && forall s <- Overloads(methods, own[0].name) ::
      Apart(own[0].name, s, own[0].sig)
    requires next == methods[own[0].name := Overloads(methods, own[0].name) + [own[0].sig]]
    ensures MethodsFit(own, members, methods) <==> MethodsFit(own[1..], members, next)
  {
    var m, rest := own[0], own[1..];
    assert m in own && forall d :: d in own <==> d == m || d in rest;
    assert forall n, s :: s in Overloads(next, n) <==> s in Overloads(methods, n) || (n == m.name && s == m.sig);
    if MethodsFit(own, members, methods) {
      forall d <- rest, s <- Overloads(next, d.name) ensures Apart(d.name, s, d.sig) {
        var j :| 0 <= j < |rest| && rest[j] == d;
        assert own[j + 1] == d;
      }
      forall i, j | 0 <= i < j < |rest| && rest[i].name
        == rest[j].name ensures Apart(rest[i].name, rest[i].sig, rest[j].sig) {
        assert own[i + 1] == rest[i] && own[j + 1] == rest[j];
      }
    }
    if MethodsFit(rest, members, next) {
      forall i, j | 0 <= i < j < |own| && own[i].name
        == own[j].name ensures Apart(own[i].name, own[i].sig, own[j].sig) {
        assert own[j] == rest[j - 1] && rest[j - 1] in rest;
        if i == 0 { assert m.sig in Overloads(next, m.name); } else { assert own[i] == rest[i - 1]; }
      }
    }
  }

  lemma {:induction false} ParentsAccepted(built: set<string>, traits: Traits, parents: seq<string>)
    ensures CheckParents(built, traits, parents).Ok? <==> forall p <- parents :: p in traits && p !in built
  {
    if parents != [] {
      ParentsAccepted(built, traits, parents[1..]);
      assert parents[0] in parents && forall p :: p in parents <==> p == parents[0] || p in parents[1..];
    }
  }

  /** The own members fit each other and every parent. */
  ghost predicate MembersFitParents(built: set<string>, traits: Traits, parents: seq<string>, own: seq<Member>)
    requires forall p <- parents :: p in traits
  {
    && (forall x <- own :: AnnotationKnown(built, traits, x.annotation))
    && (forall x <- own, p <- parents | x.name in traits[p].members ::
          SortOf(traits[p].members[x.name]) == AnnotationSort(built, traits, x.annotation))
    && (forall x, y | x in own && y in own && x.name == y.name ::
          AnnotationSort(built, traits, x.annotation) == AnnotationSort(built, traits, y.annotation))
  }

  /** The own methods fit each other, the own members and every parent. */
  ghost predicate MethodsFitParents(traits: Traits, parents: seq<string>, methods: seq<Declared>, own: seq<Member>)
    requires forall p <- parents :: p in traits
  {
    && (forall d <- methods, x <- own :: d.name != x.name)
    && (forall d <- methods, p <- parents :: d.name !in traits[p].members)
    && (forall d <- methods, p <- parents, s <- Overloads(traits[p].methods, d.name) :: Apart(d.name, s, d.sig))
    && (forall i, j :: 0 <= i < j < |methods| && methods[i].name == methods[j].name ==>
          Apart(methods[i].name, methods[i].sig, methods[j].sig))
  }

  lemma MembersFitDirectly(built: set<string>, traits: Traits, parents: seq<string>, own: seq<Member>)
    requires (forall p <- parents :: p in traits) && InheritMembers(traits, parents, map[]).Ok?
    ensures OwnFits(built, traits, own, InheritMembers(traits, parents, map[]).value) <==>
      MembersFitParents(built, traits, parents, own)
  {
    InheritedAccepted(traits, parents, map[]);
    var inherited := InheritMembers(traits, parents, map[]).value;
    forall x <- own
      ensures (x.name in inherited ==> AnnotationSort(built, traits, x.annotation) == SortOf(inherited[x.name])) <==>
        forall p <- parents | x.name in traits[p].members ::
          SortOf(traits[p].members[x.name]) == AnnotationSort(built, traits, x.annotation)
    {
      forall p <- parents | x.name in traits[p].members
        ensures x.name in inherited && SortOf(inherited[x.name]) == SortOf(traits[p].members[x.name])
      {
        assert InheritsSort(traits, parents, map[], x.name, SortOf(traits[p].members[x.name]));
      }
      if x.name in inherited {
        assert InheritsSort(traits, parents, map[], x.name, SortOf(inherited[x.name]));
      }
    }
  }

  lemma MethodsFitDirectly(built: set<string>, traits: Traits, parents: seq<string>, methods: seq<Declared>,
                           own: seq<Member>)
    requires (forall p <- parents :: p in traits) && InheritMembers(traits, parents, map[]).Ok?
    requires OwnMembers(built, traits, own, InheritMembers(traits, parents, map[]).value).Ok?
    ensures var all := OwnMembers(built, traits, own, InheritMembers(traits, parents, map[]).value).value;
      MethodsFit(methods, all, InheritMethods(traits, parents, map[])) <==>
        MethodsFitParents(traits, parents, methods, own)
  {
    InheritedAccepted(traits, parents, map[]);
    var inherited := InheritMembers(traits, parents, map[]).value;
    OwnAccepted(built, traits, own, inherited);
    InheritedMethodsExact(traits, parents, map[]);
    forall n
      ensures n in inherited <==> exists p <- parents :: n in traits[p].members
    {
      if n in inherited { assert InheritsSort(traits, parents, map[], n, SortOf(inherited[n])); }
      if p :| p in parents && n in traits[p].members {
        assert InheritsSort(traits, parents, map[], n, SortOf(traits[p].members[n]));
      }
    }
    assert forall n, s :: s in Overloads(InheritMethods(traits, parents, map[]), n) <==>
      exists p <- parents :: s in Overloads(traits[p].methods, n);
  }

  /** A trait is registered exactly if its name is new, its parents are traits and not built in and agree on every
      member, and its own members and methods fit them and each other. */
  lemma NewTraitAccepted(built: set<string>, traits: Traits, taken: set<string>, name: string, parents: seq<string>,
                         methods: seq<Declared>, members: seq<Member>)
    ensures NewTrait(built, traits, taken, name, parents, methods, members).Ok? <==>
      && name !in traits && name !in taken
      && (forall p <- parents :: p in traits && p !in built)
      && InheritsOneSort(traits, parents, map[])
      && MembersFitParents(built, traits, parents, members) && MethodsFitParents(traits, parents, methods, members)
  {
    ParentsAccepted(built, traits, parents);
    if forall p <- parents :: p in traits && p !in built {
      InheritedAccepted(traits, parents, map[]);
      var inherited := InheritMembers(traits, parents, map[]);
      if inherited.Ok? {
        OwnAccepted(built, traits, members, inherited.value);
        MembersFitDirectly(built, traits, parents, members);
        var all := OwnMembers(built, traits, members, inherited.value);
        if all.Ok? {
          MethodsAccepted(methods, all.value, InheritMethods(traits, parents, map[]));
          MethodsFitDirectly(built, traits, parents, methods, members);
        }
      }
    }
  }

  /** Hence it includes every requirement of each of its parents. */
  lemma NewTraitIncludesParents(built: set<string>, traits: Traits, taken: set<string>, name: string,
                                parents: seq<string>,
                                methods: seq<Declared>, members: seq<Member>)
    requires NewTrait(built, traits, taken, name, parents, methods, members).Ok?
    ensures forall p <- parents ::
      p in traits && Includes(NewTrait(built, traits, taken, name, parents, methods, members).value, traits[p])
  {
    NewTraitExact(built, traits, taken, name, parents, methods, members);
    var info := NewTrait(built, traits, taken, name, parents, methods, members).value;
    forall p <- parents ensures Includes(info, traits[p]) {
      forall m, s | m in traits[p].methods && s in traits[p].methods[m] ensures m in info.methods &&
        s in info.methods[m] {
        assert s in Overloads(traits[p].methods, m);
        assert s in Overloads(info.methods, m);
      }
    }
  }
}
