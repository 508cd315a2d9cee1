/** The checker's registration of traits and structs, in place. */
module TraitChecker {
  import opened Wrappers
  import opened TraitTable
  import opened TraitConformance

  /** `verify_conformance`: some requirement that is not met is reported, or all are. */
  method VerifyMethods(s: StructInfo, self: Ty, required: map<string, seq<Sig>>) returns (r: Result<(), Error>)
    ensures r.Ok? <==>
      && (forall m <- required :: m in s.methods)
      && (forall m, req | m in required && m in s.methods && req in required[m] ::
          SomeStandsFor(s.methods[m], req, self))
    ensures r.Err? ==> r.error.MissingMethod? || r.error.MethodMismatch?
  {
    var rest := required.Keys;
    while rest != {}
      invariant rest <= required.Keys
      invariant forall m <- required | m !in rest :: m in s.methods && forall req <- required[m] ::
        SomeStandsFor(s.methods[m], req, self)
    {
      var m :| m in rest;
      if m !in s.methods { return Err(MissingMethod); }
      for k := 0 to |required[m]|
        invariant forall j :: 0 <= j < k ==> SomeStandsFor(s.methods[m], required[m][j], self)
      {
        MetIsStoodFor(s.methods[m], required[m][k], self);
        if !MethodMet(s.methods[m], required[m][k], self) {
          assert required[m][k] in required[m];
          return Err(MethodMismatch);
        }
      }
      rest := rest - {m};
    }
    r := Ok(());
  }

  /** Adds a parent's compile-time members to those gathered so far. */
  method MergeInherited(members: map<string, Req>, inherited: map<string, Req>)
    returns (r: Result<map<string, Req>, Error>)
    ensures r == MergeMembers(members, inherited)
  {
    var merged := members;
    var rest := inherited.Keys;
    while rest != {}
      invariant rest <= inherited.Keys
      invariant forall m <- inherited | m !in rest :: MergeAt(members, m, inherited[m]).Ok?
      invariant merged.Keys == members.Keys + (inherited.Keys - rest)
      invariant forall m <- merged ::
        merged[m] == if m in inherited && m !in rest then MergeAt(members, m, inherited[m]).value else members[m]
    {
      var m :| m in rest;
      var req := MergeAt(merged, m, inherited[m]);
      assert req == MergeAt(members, m, inherited[m]);
      if req.Err? { return Err(Conflict); }
      merged := merged[m := req.value];
      rest := rest - {m};
    }
    assert merged == MergeMembers(members, inherited).value;
    r := Ok(merged);
  }

  class TraitChecker {
    var traits: Traits
    var structs: Structs
    const language: Language
    ghost var order: seq<string>

    /** Parents precede the traits that refine them and are included in them; declared conformances are backed. */
    ghost predicate Valid()
      reads this
    {
      && Layered(traits, order)
      && (forall name <- structs :: DeclaresKnown(language.built, traits, structs[name]))
      && AllBacked(language, traits, order, structs)
    }

    constructor (language: Language)
      ensures Valid() && traits == map[] && structs == map[] && this.language == language
    {
      this.language := language;
      traits, structs, order := map[], map[], [];
    }

    method GatherMembers(parents: seq<string>) returns (r: Result<map<string, Req>, Error>)
      requires forall p <- parents :: p in traits
      ensures r == InheritMembers(traits, parents, map[])
    {
      var members: map<string, Req> := map[];
      assert parents[0..] == parents;
      for k := 0 to |parents|
        invariant forall p <- parents[k..] :: p in traits
        invariant InheritMembers(traits, parents, map[]) == InheritMembers(traits, parents[k..], members)
      {
        assert parents[k..][0] == parents[k] && parents[k..][1..] == parents[k + 1..] && parents[k] in parents;
        members :- MergeInherited(members, traits[parents[k]].members);
      }
      r := Ok(members);
    }

    method GatherMethods(parents: seq<string>) returns (methods: map<string, seq<Sig>>)
      requires forall p <- parents :: p in traits
      ensures methods == InheritMethods(traits, parents, map[])
    {
      methods := map[];
      assert parents[0..] == parents;
      for k := 0 to |parents|
        invariant forall p <- parents[k..] :: p in traits
        invariant InheritMethods(traits, parents, map[]) == InheritMethods(traits, parents[k..], methods)
      {
        assert parents[k..][0] == parents[k] && parents[k..][1..] == parents[k + 1..] && parents[k] in parents;
        methods := MergeMethods(methods, traits[parents[k]].methods);
      }
    }

    method CheckTraitParents(parents: seq<string>) returns (r: Result<(), Error>)
      ensures r == CheckParents(language.built, traits, parents)
    {
      assert parents[0..] == parents;
      for k := 0 to |parents|
        invariant CheckParents(language.built, traits, parents) == CheckParents(language.built, traits, parents[k..])
      {
        assert parents[k..][0] == parents[k] && parents[k..][1..] == parents[k + 1..];
        if !Known(language.built, traits, parents[k]) { return Err(UnknownTrait); }
        if parents[k] in language.built { return Err(Unsupported); }
      }
      r := Ok(());
    }

    method AddMembers(own: seq<Member>, inherited: map<string, Req>) returns (r: Result<map<string, Req>, Error>)
      ensures r == OwnMembers(language.built, traits, own, inherited)
    {
      var members := inherited;
      assert own[0..] == own;
      for k := 0 to |own|
        invariant OwnMembers(language.built, traits, own, inherited)
          == OwnMembers(language.built, traits, own[k..], members)
      {
        assert own[k..][0] == own[k] && own[k..][1..] == own[k + 1..];
        var req :- RequirementOf(language.built, traits, own[k].annotation);
        var merged :- MergeAt(members, own[k].name, req);
        members := members[own[k].name := merged];
      }
      r := Ok(members);
    }

    method AddMethods(own: seq<Declared>, members: map<string, Req>, inherited: map<string, seq<Sig>>)
      returns (r: Result<map<string, seq<Sig>>, Error>)
      ensures r == OwnMethods(own, members, inherited)
    {
      var methods := inherited;
      assert own[0..] == own;
      for k := 0 to |own|
        invariant OwnMethods(own, members, inherited) == OwnMethods(own[k..], members, methods)
      {
        assert own[k..][0] == own[k] && own[k..][1..] == own[k + 1..];
        var m := own[k];
        if m.name in members { return Err(Redeclaration); }
        if exists s <- Overloads(methods, m.name) :: Clashes(m.name, s, m.sig) { return Err(Redeclaration); }
        methods := methods[m.name := Overloads(methods, m.name) + [m.sig]];
      }
      r := Ok(methods);
    }

    /** Registers a trait. Nothing changes if it is rejected, and the table's invariant is kept either way. */
    method CheckTrait(name: string, parents: seq<string>, methods: seq<Declared>, members: seq<Member>)
      returns (r: Result<(), Error>)
      requires Valid()
      modifies this
      ensures Valid() && structs == old(structs)
      ensures var e := NewTrait(language.built, old(traits), old(structs).Keys, name, parents, methods, members);
        if e.Ok? then r == Ok(()) && traits == old(traits)[name := e.value]
        else r == Err(e.error) && traits == old(traits)
    {
      if name in traits || name in structs { return Err(Redeclaration); }
      var _ :- CheckTraitParents(parents);
      CheckedParentsAreTraits(language.built, traits, parents);
      var inherited :- GatherMembers(parents);
      var all :- AddMembers(members, inherited);
      var above := GatherMethods(parents);
      var sigs :- AddMethods(methods, all, above);
      RegisteringKeepsBacking(language, traits, order, structs, name, parents, methods, members);
      traits := traits[name := TraitInfo(parents, sigs, all)];
      order := order + [name];
      r := Ok(());
    }

    method VerifyMembers(s: StructInfo, required: map<string, Req>) returns (r: Result<(), Error>)
      requires Layered(traits, order)
      ensures r.Ok? <==>
        forall m <- required ::
          m in s.associated && MemberSatisfies(language, traits, order, structs, s.associated[m], required[m])
      ensures r.Err? ==> r.error.MissingMember? || r.error.MemberMismatch?
    {
      var rest := required.Keys;
      while rest != {}
        invariant rest <= required.Keys
        invariant forall m <- required | m !in rest ::
          m in s.associated && MemberSatisfies(language, traits, order, structs, s.associated[m], required[m])
      {
        var m :| m in rest;
        if m !in s.associated { return Err(MissingMember); }
        if !MemberSatisfies(language, traits, order, structs, s.associated[m], required[m]) {
          return Err(MemberMismatch);
        }
        rest := rest - {m};
      }
      r := Ok(());
    }

    /** Accepts exactly the structs that implement every requirement in the trait's flattened tables. */
    method VerifyConformance(name: string, tr: string) returns (r: Result<(), Error>)
      requires Layered(traits, order) && name in structs && tr !in language.built
      ensures r.Ok? <==>
        (tr in traits ==> Implements(language, traits, order, structs, structs[name], StructTy(name), traits[tr]))
    {
      if tr !in traits { return Ok(()); }
      var _ :- VerifyMethods(structs[name], StructTy(name), traits[tr].methods);
      r := VerifyMembers(structs[name], traits[tr].members);
    }

    /** The struct satisfies the conformance it declares to `tr`. */
    ghost predicate Conforms(name: string, info: StructInfo, tr: string)
      requires Layered(traits, order)
      reads this
    {
      if tr in language.built then language.hasBuilt(StructTy(name), tr)
      else tr in traits ==> Implements(language, traits, order, structs, info, StructTy(name), traits[tr])
    }

    /** Registers a struct and verifies what it declares, with the struct itself already in the table: accepts exactly
        the new names whose declared traits are known and satisfied. If it is accepted the invariant is kept. */
    method CheckStruct(name: string, info: StructInfo) returns (r: Result<(), Error>)
      requires Valid()
      modifies this
      ensures traits == old(traits) && order == old(order) && Layered(traits, order)
      ensures name in old(structs) || name in traits ==> r == Err(Redeclaration)
      ensures structs == old(structs)[name := info] ||
        (structs == old(structs) && r.Err? && (name in structs || name in traits ||
                                               !DeclaresKnown(language.built, traits, info)))
      ensures r.Ok? <==>
        && name !in old(structs) && name !in traits && DeclaresKnown(language.built, traits, info)
        && forall tr <- info.conforms :: Conforms(name, info, tr)
      ensures r.Ok? ==> Valid()
    {
      if name in structs || name in traits { return Err(Redeclaration); }
      if !DeclaresKnown(language.built, traits, info) { return Err(UnknownTrait); }
      structs := structs[name := info];
      for k := 0 to |info.conforms|
        invariant traits == old(traits) && order == old(order) && structs == old(structs)[name := info]
        invariant forall j :: 0 <= j < k ==> Conforms(name, info, info.conforms[j])
      {
        var tr := info.conforms[k];
        assert tr in info.conforms;
        if tr in language.built {
          if !language.hasBuilt(StructTy(name), tr) { return Err(Unsupported); }
        } else {
          var _ :- VerifyConformance(name, tr);
        }
      }
      forall s <- old(structs) ensures Backed(language, traits, order, structs, s) {
        BackedGrows(language, traits, order, old(structs), traits, order, structs, s);
      }
      assert Backed(language, traits, order, structs, name);
      r := Ok(());
    }
  }
}
