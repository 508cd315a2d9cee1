/** Giving structs the default methods of the traits they conform to. */
module TraitDefaults {
  import opened Wrappers

  type Body = string

  datatype Requirement = Requirement(name: string, body: Option<Body>)

  datatype TraitDecl = TraitDecl(parents: seq<string>, methods: seq<Requirement>)

  type Traits = map<string, TraitDecl>

  datatype Method = Method(name: string, body: Body)

  datatype StructDecl = StructDecl(conforms: seq<string>, methods: seq<Method>)

  datatype Error = Cyclic | Ambiguous

  type Defaults = map<string, Body>

  // ----- what is computed -----

  /** A trait's own defaults replace those it inherits. */
  function WithOwn(methods: seq<Requirement>, defaults: Defaults): Defaults {
    if methods == [] then defaults
    else WithOwn(methods[1..],
                 match methods[0].body case Some(body) => defaults[methods[0].name := body] case None => defaults)
  }

  /** Two sources of defaults must not offer the same method. */
  function Join(a: Defaults, b: Defaults): Result<Defaults, Error> {
    if a.Keys * b.Keys != {} then Err(Ambiguous) else Ok(a + b)
  }

  function DefaultsFor(traits: Traits, name: string, visiting: set<string>): Result<Defaults, Error>
    decreases traits.Keys - visiting, 1, 0
  {
    if name in visiting then Err(Cyclic)
    else if name !in traits then Ok(map[])
    else
      var inherited :- FromParents(traits, traits[name].parents, visiting + {name}, map[]);
      Ok(WithOwn(traits[name].methods, inherited))
  }

  function FromParents(traits: Traits, parents: seq<string>, visiting: set<string>, defaults: Defaults)
    : Result<Defaults, Error>
    decreases traits.Keys - visiting, 1, |parents|
  {
    if parents == [] then Ok(defaults)
    else
      var more :- DefaultsFor(traits, parents[0], visiting);
      var all :- Join(defaults, more);
      FromParents(traits, parents[1..], visiting, all)
  }

  /** The defaults a struct is given, explicit methods excepted. */
  function Inherited(traits: Traits, conforms: seq<string>, explicit: set<string>, inherited: Defaults)
    : Result<Defaults, Error>
    decreases |conforms|
  {
    if conforms == [] then Ok(inherited)
    else
      var defaults :- DefaultsFor(traits, conforms[0], {});
      var all :- Join(inherited, defaults - explicit);
      Inherited(traits, conforms[1..], explicit, all)
  }

  // ----- refinement -----

  function Parents(traits: Traits, name: string): seq<string> {
    if name in traits then traits[name].parents else []
  }

  ghost predicate Path(traits: Traits, path: seq<string>) {
    path != [] && forall i :: 0 < i < |path| ==> path[i] in Parents(traits, path[i - 1])
  }

  ghost predicate Reaches(traits: Traits, from: string, to: string) {
    exists path :: Path(traits, path) && path[0] == from && path[|path| - 1] == to
  }

  lemma PathStep(traits: Traits, name: string, path: seq<string>)
    requires Path(traits, path) && path[0] in Parents(traits, name)
    ensures Path(traits, [name] + path)
  {
    var longer := [name] + path;
    forall i | 0 < i < |longer| ensures longer[i] in Parents(traits, longer[i - 1]) {
      assert longer[i] == path[i - 1];
      assert i > 1 ==> longer[i - 1] == path[i - 2] && path[i - 1] in Parents(traits, path[(i - 1) - 1]);
    }
  }

  lemma PathTail(traits: Traits, path: seq<string>)
    requires Path(traits, path) && |path| > 1
    ensures Path(traits, path[1..]) && path[1] in Parents(traits, path[0])
  {
    var tail := path[1..];
    forall i | 0 < i < |tail| ensures tail[i] in Parents(traits, tail[i - 1]) {
      assert tail[i] == path[i + 1] && tail[i - 1] == path[i];
      assert path[i + 1] in Parents(traits, path[(i + 1) - 1]);
    }
  }

  /** A trait reaches itself and what its parents reach. */
  lemma ReachesStep(traits: Traits, name: string, to: string)
    ensures Reaches(traits, name, to) <==> name == to || exists p <- Parents(traits, name) :: Reaches(traits, p, to)
  {
    if name == to { assert Path(traits, [name]); }
    if p :| p in Parents(traits, name) && Reaches(traits, p, to) {
      var path :| Path(traits, path) && path[0] == p && path[|path| - 1] == to;
      PathStep(traits, name, path);
      assert ([name] + path)[0] == name;
    }
    if Reaches(traits, name, to) {
      var path :| Path(traits, path) && path[0] == name && path[|path| - 1] == to;
      if |path| > 1 {
        PathTail(traits, path);
        assert path[1..][0] == path[1] && path[1..][|path[1..]| - 1] == to;
        assert Reaches(traits, path[1], to);
      }
    }
  }

  predicate Own(traits: Traits, name: string, m: string) {
    name in traits && exists r <- traits[name].methods :: r.name == m && r.body.Some?
  }

  /** Some trait reached has a default for the method. */
  ghost predicate Provides(traits: Traits, name: string, m: string) {
    exists t :: Reaches(traits, name, t) && Own(traits, t, m)
  }

  lemma ProvidesStep(traits: Traits, name: string, m: string)
    ensures Provides(traits, name, m) <==> Own(traits, name, m) || exists p <- Parents(traits, name) ::
      Provides(traits, p, m)
  {
    forall t ensures Reaches(traits, name, t) <==> name == t || exists p <- Parents(traits, name) ::
      Reaches(traits, p, t) {
      ReachesStep(traits, name, t);
    }
  }

  ghost predicate Distinct(path: seq<string>, visiting: set<string>) {
    && (forall i, j :: 0 <= i < j < |path| ==> path[i] != path[j])
    && (forall i :: 0 <= i < |path| ==> path[i] !in visiting)
  }

  /** No path of refinements from the trait comes back to a trait it has been through, or to one in `visiting`. */
  ghost predicate Acyclic(traits: Traits, name: string, visiting: set<string>) {
    forall path | Path(traits, path) && path[0] == name :: Distinct(path, visiting)
  }

  lemma AcyclicStep(traits: Traits, name: string, visiting: set<string>)
    ensures Acyclic(traits, name, visiting) <==>
      name !in visiting && forall p <- Parents(traits, name) :: Acyclic(traits, p, visiting + {name})
  {
    if Acyclic(traits, name, visiting) {
      assert Path(traits, [name]) && Distinct([name], visiting) && [name][0] == name;
      forall p, path | p in Parents(traits, name) && Path(traits, path) &&
        path[0] == p ensures Distinct(path, visiting + {name}) {
        PathStep(traits, name, path);
        var longer := [name] + path;
        assert Distinct(longer, visiting);
        assert forall i :: 0 <= i < |path| ==> path[i] == longer[i + 1] && longer[0] == name;
      }
    }
    if name !in visiting && forall p <- Parents(traits, name) :: Acyclic(traits, p, visiting + {name}) {
      forall path | Path(traits, path) && path[0] == name ensures Distinct(path, visiting) {
        if |path| > 1 {
          PathTail(traits, path);
          assert Distinct(path[1..], visiting + {name});
          assert forall i :: 0 < i < |path| ==> path[i] == path[1..][i - 1];
        }
      }
    }
  }

  /** No two parents of the trait both provide a method. */
  ghost predicate Separate(traits: Traits, parents: seq<string>) {
    forall i, j, m :: 0 <= i < j < |parents| && Provides(traits, parents[i], m) ==> !Provides(traits, parents[j], m)
  }

  /** Nor do two parents of any trait it reaches. */
  ghost predicate Unambiguous(traits: Traits, name: string) {
    forall t | Reaches(traits, name, t) :: Separate(traits, Parents(traits, t))
  }

  lemma UnambiguousStep(traits: Traits, name: string)
    ensures Unambiguous(traits, name) <==>
      Separate(traits, Parents(traits, name)) && forall p <- Parents(traits, name) :: Unambiguous(traits, p)
  {
    forall t ensures Reaches(traits, name, t) <==> name == t || exists p <- Parents(traits, name) ::
      Reaches(traits, p, t) {
      ReachesStep(traits, name, t);
    }
    assert Reaches(traits, name, name);
  }

  // ----- what is found -----

  lemma {:induction false} WithOwnKeys(methods: seq<Requirement>, defaults: Defaults)
    ensures forall m :: m in WithOwn(methods, defaults) <==> m in defaults || exists r <- methods ::
      r.name == m && r.body.Some?
  {
    if methods != [] {
      var next := match methods[0].body case Some(body) => defaults[methods[0].name := body] case None => defaults;
      WithOwnKeys(methods[1..], next);
      assert forall r :: r in methods <==> r == methods[0] || r in methods[1..];
    }
  }

  /** Gathering defaults for a trait succeeds exactly if no cycle is reached and nothing is offered twice, and then
      finds exactly the methods that some trait reached has a default for. */
  lemma {:induction false} DefaultsExact(traits: Traits, name: string, visiting: set<string>)
    ensures DefaultsFor(traits, name, visiting).Ok? <==> Acyclic(traits, name, visiting) && Unambiguous(traits, name)
    ensures DefaultsFor(traits, name, visiting).Ok? ==>
      forall m :: m in DefaultsFor(traits, name, visiting).value <==> Provides(traits, name, m)
    decreases traits.Keys - visiting, 1, 0
  {
    AcyclicStep(traits, name, visiting);
    UnambiguousStep(traits, name);
    forall m ensures Provides(traits, name, m) <==> Own(traits, name, m) || exists p <- Parents(traits, name) ::
      Provides(traits, p, m) {
      ProvidesStep(traits, name, m);
    }
    if name !in visiting && name in traits {
      assert traits.Keys - (visiting + {name}) < traits.Keys - visiting by { assert name in traits.Keys - visiting; }
      ParentsExact(traits, traits[name].parents, visiting + {name}, map[]);
      var inherited := FromParents(traits, traits[name].parents, visiting + {name}, map[]);
      if inherited.Ok? { WithOwnKeys(traits[name].methods, inherited.value); }
    }
  }

  lemma {:induction false} ParentsExact(traits: Traits, parents: seq<string>, visiting: set<string>, defaults: Defaults)
    ensures var r := FromParents(traits, parents, visiting, defaults);
      && (r.Ok? <==>
          && (forall p <- parents :: Acyclic(traits, p, visiting) && Unambiguous(traits, p))
          && Separate(traits, parents)
          && (forall p, m | p in parents && Provides(traits, p, m) :: m !in defaults))
      && (r.Ok? ==> forall m :: m in r.value <==> m in defaults || exists p <- parents :: Provides(traits, p, m))
    decreases traits.Keys - visiting, 1, |parents|
  {
    if parents != [] {
      DefaultsExact(traits, parents[0], visiting);
      var more := DefaultsFor(traits, parents[0], visiting);
      assert forall p :: p in parents <==> p == parents[0] || p in parents[1..];
      SeparateStep(traits, parents);
      if more.Ok? {
        JoinExact(defaults, more.value);
        var all := Join(defaults, more.value);
        if all.Ok? { ParentsExact(traits, parents[1..], visiting, all.value); }
      }
    }
  }

  lemma JoinExact(a: Defaults, b: Defaults)
    ensures Join(a, b).Ok? <==> forall m :: m in b ==> m !in a
    ensures Join(a, b).Ok? ==> forall m :: m in Join(a, b).value <==> m in a || m in b
  {
    if Join(a, b).Err? {
      var m :| m in a.Keys * b.Keys;
      assert m in b && m in a;
    } else {
      forall m | m in b ensures m !in a { assert m in a ==> m in a.Keys * b.Keys; }
    }
  }

  lemma SeparateStep(traits: Traits, parents: seq<string>)
    requires parents != []
    ensures Separate(traits, parents) <==>
      && Separate(traits, parents[1..])
      && forall p, m | p in parents[1..] && Provides(traits, p, m) :: !Provides(traits, parents[0], m)
  {
    if Separate(traits, parents) {
      forall p, m | p in parents[1..] && Provides(traits, p, m) ensures !Provides(traits, parents[0], m) {
        var j :| 0 <= j < |parents| - 1 && parents[1..][j] == p;
        assert parents[j + 1] == p;
      }
      forall i, j, m | 0 <= i < j < |parents| - 1 &&
        Provides(traits, parents[1..][i], m) ensures !Provides(traits, parents[1..][j], m) {
        assert parents[i + 1] == parents[1..][i] && parents[j + 1] == parents[1..][j];
      }
    }
    if Separate(traits, parents[1..]) && forall p, m | p in parents[1..] && Provides(traits, p, m) ::
      !Provides(traits, parents[0], m) {
      forall i, j, m | 0 <= i < j < |parents| &&
        Provides(traits, parents[i], m) ensures !Provides(traits, parents[j], m) {
        assert parents[j] == parents[1..][j - 1];
        if i > 0 { assert parents[i] == parents[1..][i - 1]; }
      }
    }
  }

  // ----- which default it is -----

  function LastOwn(methods: seq<Requirement>, m: string): Option<Body> {
    if methods == [] then None
    else
      var later := LastOwn(methods[1..], m);
      if later.Some? then later else if methods[0].name == m then methods[0].body else None
  }

  lemma {:induction false} WithOwnValue(methods: seq<Requirement>, defaults: Defaults, m: string)
    ensures var all, own := WithOwn(methods, defaults), LastOwn(methods, m);
      if own.Some? then m in all && all[m] == own.value else m in all <==> m in defaults
    ensures LastOwn(methods, m).None? && m in defaults ==>
      m in WithOwn(methods, defaults) && WithOwn(methods, defaults)[m] == defaults[m]
  {
    if methods != [] {
      var next := match methods[0].body case Some(body) => defaults[methods[0].name := body] case None => defaults;
      WithOwnValue(methods[1..], next, m);
    }
  }

  lemma {:induction false} ParentsValue(traits: Traits, parents: seq<string>, visiting: set<string>, defaults: Defaults,
                                        k: nat, m: string)
    requires FromParents(traits, parents, visiting, defaults).Ok?
    ensures m in defaults ==> var all := FromParents(traits, parents, visiting, defaults).value;
      m in all && all[m] == defaults[m]
    ensures k < |parents| ==> var d := DefaultsFor(traits, parents[k], visiting);
      d.Ok? && (m in d.value ==> var all := FromParents(traits, parents, visiting, defaults).value;
                m in all && all[m] == d.value[m])
    decreases |parents|
  {
    if parents != [] {
      var more := DefaultsFor(traits, parents[0], visiting).value;
      var all := Join(defaults, more).value;
      JoinExact(defaults, more);
      ParentsValue(traits, parents[1..], visiting, all, if k > 0 then k - 1 else 0, m);
    }
  }

  /** A trait's own default wins; otherwise its default is the one that the parent providing the method has. */
  lemma OwnDefaultWins(traits: Traits, name: string, visiting: set<string>, m: string)
    requires name in traits && DefaultsFor(traits, name, visiting).Ok?
    ensures var all, own := DefaultsFor(traits, name, visiting).value, LastOwn(traits[name].methods, m);
      && (own.Some? ==> m in all && all[m] == own.value)
      && (own.None? ==> forall p <- traits[name].parents ::
            var d := DefaultsFor(traits, p, visiting + {name});
              d.Ok? && (m in d.value ==> m in all && all[m] == d.value[m]))
  {
    var parents := traits[name].parents;
    var inherited := FromParents(traits, parents, visiting + {name}, map[]).value;
    WithOwnValue(traits[name].methods, inherited, m);
    forall p <- parents
      ensures var d := DefaultsFor(traits, p, visiting + {name});
        d.Ok? && (m in d.value ==> m in inherited && inherited[m] == d.value[m])
    {
      var k :| 0 <= k < |parents| && parents[k] == p;
      ParentsValue(traits, parents, visiting + {name}, map[], k, m);
    }
  }

  // ----- structs -----

  ghost predicate Offers(traits: Traits, t: string, explicit: set<string>, m: string) {
    Provides(traits, t, m) && m !in explicit
  }

  /** No two of the traits both offer a method the struct does not define itself. */
  ghost predicate OffersSeparate(traits: Traits, conforms: seq<string>, explicit: set<string>) {
    forall i, j, m :: 0 <= i < j < |conforms| && Offers(traits, conforms[i], explicit, m) ==>
      !Offers(traits, conforms[j], explicit, m)
  }

  lemma OffersStep(traits: Traits, conforms: seq<string>, explicit: set<string>)
    requires conforms != []
    ensures OffersSeparate(traits, conforms, explicit) <==>
      && OffersSeparate(traits, conforms[1..], explicit)
      && forall t, m | t in conforms[1..] && Offers(traits, t, explicit, m) :: !Offers(traits, conforms[0], explicit, m)
  {
    if OffersSeparate(traits, conforms, explicit) {
      forall t, m | t in conforms[1..] && Offers(traits, t, explicit, m) ensures !Offers(traits, conforms[0], explicit,
          m) {
        var j :| 0 <= j < |conforms| - 1 && conforms[1..][j] == t;
        assert conforms[j + 1] == t;
      }
      forall i, j, m | 0 <= i < j < |conforms| - 1 &&
        Offers(traits, conforms[1..][i], explicit, m) ensures !Offers(traits, conforms[1..][j], explicit, m) {
        assert conforms[i + 1] == conforms[1..][i] && conforms[j + 1] == conforms[1..][j];
      }
    }
    if OffersSeparate(traits, conforms[1..], explicit)
       && forall t, m | t in conforms[1..] && Offers(traits, t, explicit, m) ::
         !Offers(traits, conforms[0], explicit, m) {
      forall i, j, m | 0 <= i < j < |conforms| &&
        Offers(traits, conforms[i], explicit, m) ensures !Offers(traits, conforms[j], explicit, m) {
        assert conforms[j] == conforms[1..][j - 1];
        if i > 0 { assert conforms[i] == conforms[1..][i - 1]; }
      }
    }
  }

  /** A struct is given exactly the default methods reachable through its conformances that it does not define itself;
      it is rejected exactly if a cycle is reached or a method it needs is offered more than once. */
  lemma {:induction false} InheritedExact(traits: Traits, conforms: seq<string>, explicit: set<string>,
                                          inherited: Defaults)
    ensures var r := Inherited(traits, conforms, explicit, inherited);
      && (r.Ok? <==>
          && (forall t <- conforms :: Acyclic(traits, t, {}) && Unambiguous(traits, t))
          && OffersSeparate(traits, conforms, explicit)
          && (forall t, m | t in conforms && Offers(traits, t, explicit, m) :: m !in inherited))
      && (r.Ok? ==> forall m :: m in r.value <==> m in inherited || exists t <- conforms ::
          Offers(traits, t, explicit, m))
    decreases |conforms|, 1
  {
    if conforms != [] {
      DefaultsExact(traits, conforms[0], {});
      var defaults := DefaultsFor(traits, conforms[0], {});
      assert forall t :: t in conforms <==> t == conforms[0] || t in conforms[1..];
      if defaults.Ok? {
        var offered := defaults.value - explicit;
        assert forall m :: m in offered <==> Offers(traits, conforms[0], explicit, m);
        InheritedStep(traits, conforms, explicit, inherited, offered);
      }
    }
  }

  lemma {:induction false} InheritedStep(traits: Traits, conforms: seq<string>, explicit: set<string>,
                                         inherited: Defaults, offered: Defaults)
    requires conforms != [] && DefaultsFor(traits, conforms[0], {}).Ok? &&
      offered == DefaultsFor(traits, conforms[0], {}).value - explicit
    requires forall m :: m in offered <==> Offers(traits, conforms[0], explicit, m)
    ensures var r := Inherited(traits, conforms, explicit, inherited);
      && (r.Ok? <==>
          && (forall t <- conforms[1..] :: Acyclic(traits, t, {}) && Unambiguous(traits, t))
          && OffersSeparate(traits, conforms, explicit)
          && (forall t, m | t in conforms && Offers(traits, t, explicit, m) :: m !in inherited))
      && (r.Ok? ==> forall m :: m in r.value <==> m in inherited || exists t <- conforms ::
          Offers(traits, t, explicit, m))
    decreases |conforms|, 0
  {
    assert forall t :: t in conforms <==> t == conforms[0] || t in conforms[1..];
    OffersStep(traits, conforms, explicit);
    JoinExact(inherited, offered);
    var all := Join(inherited, offered);
    if all.Ok? { InheritedExact(traits, conforms[1..], explicit, all.value); }
  }

  // ----- in place -----

  method Merge(defaults: Defaults, more: Defaults) returns (r: Result<Defaults, Error>)
    ensures r == Join(defaults, more)
  {
    var all := defaults;
    var rest := more.Keys;
    while rest != {}
      invariant rest <= more.Keys
      invariant all.Keys == defaults.Keys + (more.Keys - rest) && (more.Keys - rest) * defaults.Keys == {}
      invariant forall m <- all :: all[m] == if m in more && m !in rest then more[m] else defaults[m]
    {
      var m :| m in rest;
      if m in all {
        assert m in defaults.Keys * more.Keys;
        return Err(Ambiguous);
      }
      all := all[m := more[m]];
      rest := rest - {m};
    }
    assert all == defaults + more;
    r := Ok(all);
  }

  class Expander {
    const traits: Traits
    var visiting: set<string>

    constructor (traits: Traits)
      ensures this.traits == traits && visiting == {}
    {
      this.traits := traits;
      visiting := {};
    }

    /** On success the traits being visited are as before. */
    method Gather(name: string) returns (r: Result<Defaults, Error>)
      modifies this
      ensures r == DefaultsFor(traits, name, old(visiting))
      ensures r.Ok? ==> visiting == old(visiting)
      decreases traits.Keys - visiting
    {
      if name in visiting { return Err(Cyclic); }
      visiting := visiting + {name};
      if name !in traits {
        visiting := visiting - {name};
        return Ok(map[]);
      }
      var info := traits[name];
      var defaults: Defaults := map[];
      assert info.parents[0..] == info.parents;
      for k := 0 to |info.parents|
        invariant visiting == old(visiting) + {name}
        invariant FromParents(traits, info.parents, visiting, map[])
          == FromParents(traits, info.parents[k..], visiting, defaults)
      {
        assert info.parents[k..][0] == info.parents[k] && info.parents[k..][1..] == info.parents[k + 1..];
        assert name in traits.Keys - old(visiting) && name !in traits.Keys - visiting;
        var more :- Gather(info.parents[k]);
        defaults :- Merge(defaults, more);
      }
      ghost var inherited := defaults;
      assert info.methods[0..] == info.methods;
      for k := 0 to |info.methods|
        invariant visiting == old(visiting) + {name}
        invariant WithOwn(info.methods, inherited) == WithOwn(info.methods[k..], defaults)
      {
        assert info.methods[k..][0] == info.methods[k] && info.methods[k..][1..] == info.methods[k + 1..];
        match info.methods[k].body {
          case Some(body) => defaults := defaults[info.methods[k].name := body];
          case None =>
        }
      }
      visiting := visiting - {name};
      r := Ok(defaults);
    }
  }

  function Names(methods: seq<Method>): set<string> {
    set m <- methods :: m.name
  }

  /** Explicit methods are kept in place, and each inherited default is added once. */
  method ExpandStruct(traits: Traits, s: StructDecl) returns (r: Result<StructDecl, Error>)
    ensures var e := Inherited(traits, s.conforms, Names(s.methods), map[]);
      if e.Err? then r == Err(e.error)
      else
        && r.Ok? && r.value.conforms == s.conforms
        && s.methods <= r.value.methods && |r.value.methods| == |s.methods| + |e.value|
        && (forall m <- e.value :: Method(m, e.value[m]) in r.value.methods[|s.methods|..])
        && (forall x <- r.value.methods[|s.methods|..] :: x.name in e.value && x.body == e.value[x.name])
  {
    var explicit := Names(s.methods);
    var inherited: Defaults := map[];
    assert s.conforms[0..] == s.conforms;
    for k := 0 to |s.conforms|
      invariant Inherited(traits, s.conforms, explicit, map[])
        == Inherited(traits, s.conforms[k..], explicit, inherited)
    {
      assert s.conforms[k..][0] == s.conforms[k] && s.conforms[k..][1..] == s.conforms[k + 1..];
      var expander := new Expander(traits);
      var defaults :- expander.Gather(s.conforms[k]);
      inherited :- Merge(inherited, defaults - explicit);
    }
    var added: seq<Method> := [];
    var rest := inherited.Keys;
    while rest != {}
      invariant rest <= inherited.Keys && |added| == |inherited| - |rest|
      invariant forall m <- inherited | m !in rest :: Method(m, inherited[m]) in added
      invariant forall x <- added :: x.name in inherited && x.body == inherited[x.name]
    {
      var m :| m in rest;
      added := added + [Method(m, inherited[m])];
      rest := rest - {m};
    }
    assert (s.methods + added)[|s.methods|..] == added;
    r := Ok(s.(methods := s.methods + added));
  }

  /** A default inherited along two ways is rejected even though it is one method. */
  lemma DiamondIsRejected(body: Body)
    ensures var traits: Traits := map["A" := TraitDecl([], [Requirement("f", Some(body))]), "B" := TraitDecl(["A"], []),
                                      "C" := TraitDecl(["A"], []), "D" := TraitDecl(["B", "C"], [])];
      DefaultsFor(traits, "D", {}).Err?
  {
    var traits: Traits := map["A" := TraitDecl([], [Requirement("f", Some(body))]), "B" := TraitDecl(["A"], []),
                              "C" := TraitDecl(["A"], []), "D" := TraitDecl(["B", "C"], [])];
    var r := Requirement("f", Some(body));
    assert r in traits["A"].methods && Own(traits, "A", "f");
    assert Path(traits, ["B", "A"]) && Path(traits, ["C", "A"]) && Path(traits, ["D"]);
    assert ["B", "A"][1] == "A" && ["C", "A"][1] == "A";
    assert Reaches(traits, "B", "A") && Reaches(traits, "C", "A") && Reaches(traits, "D", "D");
    assert Provides(traits, "B", "f") && Provides(traits, "C", "f");
    assert Parents(traits, "D")[0] == "B" && Parents(traits, "D")[1] == "C";
    assert !Separate(traits, Parents(traits, "D"));
    DefaultsExact(traits, "D", {});
  }
}
