/** The checker's pass over statements, which updates the scopes and the set of possibly uninitialized variables in
    place. */
module DefiniteInit {
  import opened Wrappers
  import opened InitRules
  import opened InitRuns
  import opened InitSoundness

  class Checker {
    var scopes: Scopes
    var uninit: set<nat>
    var next: nat

    constructor ()
      ensures Now() == State([map[]], {}, 0)
    {
      scopes, uninit, next := [map[]], {}, 0;
    }

    ghost function Now(): State
      reads this
    {
      State(scopes, uninit, next)
    }

    /** The result and the new state are those of the rules. */
    ghost predicate Follows(r: Result<(), Error>, e: Result<State, Error>)
      reads this
    {
      if e.Err? then r == Err(e.error) else r == Ok(()) && Now() == e.value
    }

    method Infer(e: Expr) returns (r: Result<(), Error>)
      ensures r == CheckExpr(e, Now())
    {
      match e
      case Literal(_) => r := Ok(());
      case Reads(names) =>
        assert names[0..] == names;
        for k := 0 to |names|
          invariant CheckNames(names, Now()) == CheckNames(names[k..], Now())
        {
          assert names[k..][0] == names[k] && names[k..][1..] == names[k + 1..];
          if !Resolves(scopes, names[k]) { return Err(Undefined); }
          if Owner(scopes, names[k]) in uninit { return Err(MaybeUninitialized); }
        }
        r := Ok(());
    }

    method Insert(i: nat, name: string)
      requires i < |scopes|
      modifies this
      ensures Now() == Bind(old(Now()), i, name)
    {
      scopes := Bind(State(scopes, uninit, next), i, name).scopes;
      next := next + 1;
    }

    method DeclareName(name: string) returns (r: Result<(), Error>)
      requires scopes != []
      modifies this
      ensures Follows(r, Declare(old(Now()), name))
    {
      if name in scopes[|scopes| - 1] { return Err(Redeclaration); }
      Insert(|scopes| - 1, name);
      r := Ok(());
    }

    method PredeclareBlock(body: seq<Stmt>) returns (r: Result<(), Error>)
      requires scopes != []
      modifies this
      ensures Follows(r, Predeclare(body, old(Now())))
      decreases body, 1
    {
      assert body[0..] == body;
      for k := 0 to |body|
        invariant scopes != [] && Predeclare(body, old(Now())) == Predeclare(body[k..], Now())
      {
        assert body[k..][0] == body[k] && body[k..][1..] == body[k + 1..];
        var _ :- PredeclareStatement(body[k]);
      }
      r := Ok(());
    }

    method PredeclareStatement(st: Stmt) returns (r: Result<(), Error>)
      requires scopes != []
      modifies this
      ensures Follows(r, PredeclareIn(st, old(Now())))
      decreases st, 0
    {
      match st
      case Assign(name, value) =>
        if !Resolves(scopes, name) {
          var _ :- Infer(value);
          var owner := next;
          assert name !in scopes[0];
          Insert(0, name);
          uninit := uninit + {owner};
        }
        r := Ok(());
      case If(branches, orelse) =>
        var _ :- PredeclareEach(branches);
        r := PredeclareOptional(orelse);
      case While(_, body, _) => r := PredeclareBlock(body);
      case _ => r := Ok(());
    }

    method PredeclareEach(branches: seq<Branch>) returns (r: Result<(), Error>)
      requires scopes != []
      modifies this
      ensures Follows(r, PredeclareBranches(branches, old(Now())))
      decreases branches, 1
    {
      assert branches[0..] == branches;
      for k := 0 to |branches|
        invariant scopes != [] && PredeclareBranches(branches, old(Now())) == PredeclareBranches(branches[k..], Now())
      {
        assert branches[k..][0] == branches[k] && branches[k..][1..] == branches[k + 1..];
        var _ :- PredeclareBlock(branches[k].body);
      }
      r := Ok(());
    }

    method PredeclareOptional(o: OptBlock) returns (r: Result<(), Error>)
      requires scopes != []
      modifies this
      ensures Follows(r, PredeclareOpt(o, old(Now())))
      decreases o, 2
    {
      match o
      case NoBlock => r := Ok(());
      case Block(body) => r := PredeclareBlock(body);
    }

    method CheckStatement(st: Stmt) returns (r: Result<(), Error>)
      requires scopes != []
      modifies this
      ensures Follows(r, CheckStmt(st, old(Now())))
      decreases Size(st), 1
    {
      match st
      case VarUninit(name) =>
        var owner := next;
        var _ :- DeclareName(name);
        uninit := uninit + {owner};
        r := Ok(());
      case VarInit(name, value) =>
        var _ :- Infer(value);
        r := DeclareName(name);
      case Assign(name, value) =>
        var _ :- Infer(value);
        if !Resolves(scopes, name) {
          var owner := next;
          assert name !in scopes[0];
          Insert(0, name);
          uninit := uninit - {owner};
        } else {
          uninit := uninit - {Owner(scopes, name)};
        }
        r := Ok(());
      case Eval(value) =>
        var _ :- Infer(value);
        r := Ok(());
      case Return(value) =>
        var _ :- Infer(value);
        r := Ok(());
      case Raise(value) =>
        var _ :- Infer(value);
        r := Ok(());
      case If(branches, orelse) => r := CheckIf(branches, orelse);
      case While(cond, body, orelse) => r := CheckWhile(cond, body, orelse);
      case _ => r := Ok(());
    }

    method CheckWhile(cond: Expr, body: seq<Stmt>, orelse: OptBlock) returns (r: Result<(), Error>)
      requires scopes != []
      modifies this
      ensures Follows(r, CheckStmt(While(cond, body, orelse), old(Now())))
      decreases Size(While(cond, body, orelse)), 0
    {
      var _ :- PredeclareBlock(body);
      var before := uninit;
      var _ :- Infer(cond);
      var _ :- CheckScopedBlock(body);
      uninit := before;
      r := CheckOptional(orelse);
    }

    method CheckStatements(body: seq<Stmt>) returns (r: Result<(), Error>)
      requires scopes != []
      modifies this
      ensures Follows(r, CheckBlock(body, old(Now())))
      decreases BlockSize(body), 0
    {
      assert body[0..] == body;
      for k := 0 to |body|
        invariant scopes != [] && CheckBlock(body, old(Now())) == CheckBlock(body[k..], Now())
        invariant BlockSize(body[k..]) <= BlockSize(body)
      {
        assert body[k..][0] == body[k] && body[k..][1..] == body[k + 1..];
        var _ :- CheckStatement(body[k]);
      }
      r := Ok(());
    }

    method CheckScopedBlock(body: seq<Stmt>) returns (r: Result<(), Error>)
      requires scopes != []
      modifies this
      ensures Follows(r, CheckScoped(body, old(Now())))
      decreases BlockSize(body), 1
    {
      scopes := scopes + [map[]];
      assert Now() == Push(old(Now()));
      var _ :- CheckStatements(body);
      var last := |scopes| - 1;
      uninit := uninit - scopes[last].Values;
      scopes := scopes[..last];
      r := Ok(());
    }

    method CheckOptional(o: OptBlock) returns (r: Result<(), Error>)
      requires scopes != []
      modifies this
      ensures Follows(r, CheckOpt(o, old(Now())))
      decreases OptSize(o), 1
    {
      match o
      case NoBlock => r := Ok(());
      case Block(body) => r := CheckScopedBlock(body);
    }

    method CheckIf(branches: seq<Branch>, orelse: OptBlock) returns (r: Result<(), Error>)
      requires scopes != []
      modifies this
      ensures Follows(r, CheckStmt(If(branches, orelse), old(Now())))
      decreases Size(If(branches, orelse)), 0
    {
      var _ :- PredeclareEach(branches);
      var _ :- PredeclareOptional(orelse);
      var before := uninit;
      var exits: set<nat> := {};
      var reachable := true;
      ghost var all := CheckBranches(branches, orelse, Now(), before, true, {});
      assert branches[0..] == branches;
      for k := 0 to |branches|
        invariant scopes != [] && all == CheckBranches(branches[k..], orelse, Now(), before, reachable, exits)
        invariant BranchesSize(branches[k..]) <= BranchesSize(branches)
      {
        assert branches[k..][0] == branches[k] && branches[k..][1..] == branches[k + 1..];
        var cond := branches[k].cond;
        uninit := before;
        var _ :- Infer(cond);
        var _ :- CheckScopedBlock(branches[k].body);
        assert exits + {} == exits;
        if reachable && cond != Literal(false) { exits := exits + uninit; }
        if cond == Literal(true) { reachable := false; }
      }
      assert branches[|branches|..] == [];
      uninit := before;
      var _ :- CheckOptional(orelse);
      assert exits + {} == exits;
      if reachable { exits := exits + uninit; }
      uninit := exits;
      r := Ok(());
    }
  }

  /** Accepts a function or reports an error. Nothing that is accepted and covered can read a variable before it is
      assigned. */
  method Check(parameters: seq<string>, body: seq<Stmt>) returns (r: Result<(), Error>)
    ensures var e := CheckFunction(parameters, body); if e.Ok? then r == Ok(()) else r == Err(e.error)
    ensures r.Ok? && Covered(parameters, body) ==> forall cs :: RunFunction(parameters, body, cs) != Fault
  {
    if CheckFunction(parameters, body).Ok? && Covered(parameters, body) {
      forall cs ensures RunFunction(parameters, body, cs) != Fault {
        AcceptedFunctionsReadAssigned(parameters, body, cs);
      }
    }
    var checker := new Checker();
    assert parameters[0..] == parameters;
    ghost var start := checker.Now();
    for k := 0 to |parameters|
      invariant fresh(checker) && |checker.scopes| == 1
      invariant DeclareAll(parameters, start) == DeclareAll(parameters[k..], checker.Now())
    {
      assert parameters[k..][0] == parameters[k] && parameters[k..][1..] == parameters[k + 1..];
      var _ :- checker.DeclareName(parameters[k]);
    }
    r := checker.CheckStatements(body);
  }
}
