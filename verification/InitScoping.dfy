/** How names are declared: what shadowing is allowed, and what introducing names ahead of a branch rejects. */
module InitScoping {
  import opened Wrappers
  import opened InitRules
  import opened InitRuns
  import opened InitSoundness

  // ----- declarations -----

  /** `var` declarations, each without or with an initial value that reads nothing. */
  function Declarations(names: seq<string>, initialized: bool): seq<Stmt> {
    if names == [] then []
    else
      [if initialized then VarInit(names[0], Literal(true)) else VarUninit(names[0])] +
      Declarations(names[1..], initialized)
  }

  predicate Distinct(names: seq<string>) {
    forall i, j :: 0 <= i < j < |names| ==> names[i] != names[j]
  }

  predicate NoneOf(names: seq<string>, taken: set<string>) {
    forall n <- names :: n !in taken
  }

  lemma DistinctFirst(names: seq<string>, taken: set<string>)
    requires names != []
    ensures Distinct(names) && NoneOf(names, taken) <==>
            names[0] !in taken && Distinct(names[1..]) && NoneOf(names[1..], taken + {names[0]})
  {
    assert forall i :: 0 < i < |names| ==> names[i] == names[1..][i - 1];
    assert forall n <- names :: n == names[0] || n in names[1..];
    if Distinct(names) {
      assert names[0] !in names[1..];
    }
  }

  /** In one scope, declarations are accepted exactly when none of the names is declared there already, whatever the
      scopes further out hold. */
  lemma {:induction false} DeclarationsExactly(names: seq<string>, initialized: bool, s: State)
    requires s.scopes != []
    ensures var r := CheckBlock(Declarations(names, initialized), s);
            && (r.Ok? <==> Distinct(names) && NoneOf(names, s.scopes[|s.scopes| - 1].Keys))
            && (r.Err? ==> r.error == Redeclaration)
    decreases |names|
  {
    var last := |s.scopes| - 1;
    if names != [] {
      var all, taken := Declarations(names, initialized), s.scopes[last].Keys;
      assert all[1..] == Declarations(names[1..], initialized);
      DistinctFirst(names, taken);
      var first := CheckStmt(all[0], s);
      if names[0] !in taken {
        assert first.Ok? && first.value.scopes[last].Keys == taken + {names[0]};
        DeclarationsExactly(names[1..], initialized, first.value);
        assert CheckBlock(all, s) == CheckBlock(all[1..], first.value);
      } else {
        assert first == Err(Redeclaration) && CheckBlock(all, s) == first;
      }
    }
  }

  /** They leave the scopes further out as they are, and no flag of an earlier variable changes. */
  ghost predicate OnlyAdds(s: State, t: State)
    requires s.scopes != []
  {
    var last := |s.scopes| - 1;
    && |t.scopes| == |s.scopes| && t.scopes[..last] == s.scopes[..last] && s.next <= t.next
    && (forall n <- t.scopes[last] :: (n in s.scopes[last] && t.scopes[last][n] == s.scopes[last][n])
                                      || t.scopes[last][n] >= s.next)
    && (forall n <- s.scopes[last] :: n in t.scopes[last] && t.scopes[last][n] == s.scopes[last][n])
    && (forall x :: x < s.next ==> (x in t.uninit <==> x in s.uninit))
    && (forall x <- t.uninit :: x < s.next || x in t.scopes[last].Values)
  }

  lemma {:induction false} DeclarationsOnlyAdd(names: seq<string>, initialized: bool, s: State)
    requires Wf(s) && CheckBlock(Declarations(names, initialized), s).Ok?
    ensures OnlyAdds(s, CheckBlock(Declarations(names, initialized), s).value)
    decreases |names|
  {
    var last := |s.scopes| - 1;
    if names != [] {
      var all := Declarations(names, initialized);
      assert all[1..] == Declarations(names[1..], initialized);
      var t := CheckStmt(all[0], s).value;
      DeclarationIsWf(s, names[0], initialized);
      DeclarationsOnlyAdd(names[1..], initialized, t);
      var u := CheckBlock(Declarations(names[1..], initialized), t).value;
      assert t.scopes[last] == s.scopes[last][names[0] := s.next];
      assert u.scopes[last][names[0]] == s.next;
    }
  }

  lemma DeclarationIsWf(s: State, name: string, initialized: bool)
    requires Wf(s) && name !in s.scopes[|s.scopes| - 1]
    ensures Wf(CheckStmt(if initialized then VarInit(name, Literal(true)) else VarUninit(name), s).value)
  {
    var t := CheckStmt(if initialized then VarInit(name, Literal(true)) else VarUninit(name), s).value;
    forall i, n, x | Holds(t.scopes, i, n, x)
      ensures (i == |s.scopes| - 1 && n == name && x == s.next) || Holds(s.scopes, i, n, x)
    {
    }
  }

  /** Hence a block may redeclare every name of the scopes around it: it is accepted as long as it does not declare one
      twice itself, and leaving it restores the bindings and the flags. */
  lemma InnerDeclarationsShadow(names: seq<string>, initialized: bool, s: State)
    requires Wf(s)
    ensures var r := CheckScoped(Declarations(names, initialized), s);
            && (r.Ok? <==> Distinct(names))
            && (r.Ok? ==> r.value.scopes == s.scopes && r.value.uninit == s.uninit)
  {
    var inner := Push(s);
    PushIsWf(s);
    DeclarationsExactly(names, initialized, inner);
    if Distinct(names) {
      DeclarationsOnlyAdd(names, initialized, inner);
      var t := CheckBlock(Declarations(names, initialized), inner).value;
      var last := |s.scopes|;
      assert Pop(t).scopes == s.scopes;
      forall x ensures x in t.uninit - t.scopes[last].Values <==> x in s.uninit {
        if x in s.uninit && x in t.scopes[last].Values {
          var n :| n in t.scopes[last] && t.scopes[last][n] == x;
        }
      }
    }
  }

  lemma PushIsWf(s: State)
    requires Wf(s)
    ensures Wf(Push(s))
  {
    forall i, n, x | Holds(Push(s).scopes, i, n, x) ensures Holds(s.scopes, i, n, x) {}
  }

  // ----- names introduced ahead of a branch -----

  const EARLY_READ: seq<Stmt> :=
    [If([Branch(Reads([]), [Assign("x", Literal(true)), Assign("y", Reads(["x"]))])], NoBlock)]

  /** The value of a name that an arm introduces is looked at before the arm, where names introduced with it are still
      unassigned: this function is rejected, though no run of it reads `x` unassigned. */
  lemma EarlyReadIsRejected(cs: seq<Choice>)
    ensures CheckFunction([], EARLY_READ) == Err(MaybeUninitialized) && RunFunction([], EARLY_READ, cs) != Fault
  {
    EarlyReadFails();
    EarlyReadRuns(cs);
  }

  lemma EarlyReadFails()
    ensures CheckFunction([], EARLY_READ) == Err(MaybeUninitialized)
  {
    var none: map<string, nat>, one: map<string, nat> := map[], map["x" := 0];
    var body := EARLY_READ[0].branches[0].body;
    var s, t := State([none], {}, 0), State([one], {0}, 1);
    assert none["x" := 0] == one && [none][0 := one] == [one] && {} + {0} == {0};
    assert !Resolves(s.scopes, "x");
    assert DeclareImplicit(s, "x") == Ok(State([one], {}, 1));
    assert PredeclareIn(body[0], s) == Ok(t);
    assert !Resolves(t.scopes, "y") && Depth(t.scopes, "x") == 1;
    assert CheckNames(["x"], t) == Err(MaybeUninitialized);
    assert PredeclareIn(body[1], t) == Err(MaybeUninitialized);
    assert body[1..] == [body[1]];
    assert Predeclare(body[1..], t) == Err(MaybeUninitialized);
    assert Predeclare(body, s) == Err(MaybeUninitialized);
    assert PredeclareBranches(EARLY_READ[0].branches, s) == Err(MaybeUninitialized);
    assert CheckStmt(EARLY_READ[0], s) == Err(MaybeUninitialized);
    assert CheckBlock(EARLY_READ, s) == Err(MaybeUninitialized);
    assert DeclareAll([], s) == Ok(s);
  }

  lemma EarlyReadRuns(cs: seq<Choice>)
    ensures RunFunction([], EARLY_READ, cs) != Fault
  {
    if cs != [] && cs[0].Arm? {
      var st, d: Store := EARLY_READ[0], [map[]];
      EarlyReadArm(st.branches, cs[0].index, cs[0].body, d);
      assert EARLY_READ[1..] == [];
    }
  }

  lemma EarlyReadArm(branches: seq<Branch>, index: nat, cs: seq<Choice>, d: Store)
    requires branches == EARLY_READ[0].branches && d == [map[]]
    ensures RunArm(branches, NoBlock, index, cs, d) != Fault
  {
    var body := branches[0].body;
    assert branches[1..] == [] && body[1..] == [body[1]];
    if index == 0 && cs != [] {
      var inner: Store := [map[], map[]];
      assert d + [map[]] == inner;
      var outer: map<string, bool> := map["x" := true];
      assert Depth(inner, "x") == 0;
      assert Set(inner, "x") == inner[0 := outer];
      var set_ := inner[0 := outer];
      assert Assigned("x", set_) by { assert set_[..1] == [outer]; }
      assert RunStmt(body[0], cs[0], inner) == Normal(set_);
      if cs[1..] != [] {
        assert RunStmt(body[1], cs[1..][0], set_).Normal?;
        assert RunBlock(body[1..][1..], cs[1..][1..], RunStmt(body[1], cs[1..][0], set_).store).Normal?;
      }
    }
  }
}
