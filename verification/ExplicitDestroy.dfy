/** The explicit-destruction pass in its own form: an environment updated in place while statements are walked.
    Every method is proved to follow the rules of `FlowRules`, which `FlowSoundness` is about. */
module ExplicitDestroy {
  import opened Wrappers
  import opened LinearPaths
  import opened Obligations
  import opened FlowSyntax
  import Rules = FlowRules
  import opened Verdicts = FlowRules

  /** The method answered `r` and left the environment in `now`, as `expected` demands. */
  ghost predicate Follows(r: Verdict<()>, expected: Verdict<State>, now: State) {
    match expected
    case Accept(s) => r == Accept(()) && now == s
    case Reject(problem) => r == Reject(problem)
    case Panic => r == Panic
  }

  class Env {
    var scopes: seq<map<string, nat>>
    var vars: seq<Variable>

    function Snapshot(): State
      reads this
    {
      State(scopes, vars)
    }

    constructor ()
      ensures Snapshot() == DEFAULT
    {
      scopes := [];
      vars := [];
    }

    method Clone() returns (e: Env)
      ensures fresh(e) && e.Snapshot() == Snapshot()
    {
      e := new Env();
      e.scopes := scopes;
      e.vars := vars;
    }

    method Push()
      modifies this
      ensures Snapshot() == Rules.Push(old(Snapshot()))
    {
      scopes := scopes + [map[]];
    }

    method Declare(v: Variable) returns (r: Verdict<()>)
      modifies this
      ensures Follows(r, Rules.Declare(old(Snapshot()), v), Snapshot())
    {
      var id := |vars|;
      vars := vars + [v];
      if scopes == [] {
        return Panic;
      }
      var last := |scopes| - 1;
      var scope: map<string, nat> := scopes[last][v.name := id];
      scopes := scopes[last := scope];
      r := Accept(());
    }

    method Lookup(name: string) returns (id: Option<nat>)
      ensures id == Rules.Lookup(scopes, name)
    {
      var i := |scopes|;
      assert scopes[..i] == scopes;
      while i > 0
        invariant 0 <= i <= |scopes|
        invariant InnermostScope(scopes, name) == InnermostScope(scopes[..i], name)
      {
        if name in scopes[i - 1] {
          assert scopes[..i][i - 1] == scopes[i - 1];
          return Some(scopes[i - 1][name]);
        }
        assert scopes[..i][..i - 1] == scopes[..i - 1];
        i := i - 1;
      }
      id := None;
    }

    method CheckScope(scope: map<string, nat>) returns (r: Verdict<()>)
      requires forall n :: n in scope ==> scope[n] < |vars|
      ensures r == if ScopeAbandons(Snapshot(), scope) then Reject(Abandoned) else Accept(())
    {
      var names := scope.Keys;
      while names != {}
        invariant names <= scope.Keys
        invariant forall n :: n in scope && n !in names ==> !Abandons(vars[scope[n]])
        decreases names
      {
        var n :| n in names;
        var v := vars[scope[n]];
        if v.residue.obligations != {} && v.message.Some? {
          assert Abandons(vars[scope[n]]);
          return Reject(Abandoned);
        }
        names := names - {n};
      }
      r := Accept(());
    }

    method CheckAll() returns (r: Verdict<()>)
      ensures r == if AnyAbandons(Snapshot()) then Reject(Abandoned) else Accept(())
    {
      for id := 0 to |vars|
        invariant forall i :: 0 <= i < id ==> !Abandons(vars[i])
      {
        if vars[id].residue.obligations != {} && vars[id].message.Some? {
          assert Abandons(vars[id]);
          return Reject(Abandoned);
        }
      }
      r := Accept(());
    }

    method PopChecked() returns (r: Verdict<()>)
      requires Valid(Snapshot())
      modifies this
      ensures Follows(r, Rules.PopChecked(old(Snapshot())), Snapshot())
    {
      if scopes == [] {
        return Panic;
      }
      var scope := scopes[|scopes| - 1];
      scopes := scopes[..|scopes| - 1];
      r := CheckScope(scope);
    }

    /** Breaks up every intact ancestor of `path`, outermost first. */
    method ExposePath(id: nat, root: string, path: Path, types: Registry) returns (r: Verdict<()>)
      requires id < |vars|
      modifies this`vars
      ensures var before := old(Snapshot());
              var exposed := Expose(types, root, before.vars[id].residue.obligations, path, |path|);
              match exposed
              case Ok(obligations) =>
                r == Accept(()) && Snapshot() == SetResidue(before, id,
                                                            before.vars[id].residue.(obligations := obligations))
              case Err(problem) => r == Reject(problem)
    {
      ghost var initial := vars[id].residue.obligations;
      for depth := 0 to |path|
        invariant scopes == old(scopes)
        invariant |vars| == |old(vars)| && vars == old(vars)[id := vars[id]]
        invariant vars[id] == old(vars)[id].(residue :=
                                             old(vars)[id].residue.(obligations := vars[id].residue.obligations))
        invariant Expose(types, root, initial, path, depth) == Ok(vars[id].residue.obligations)
      {
        var ancestor := path[..depth];
        ghost var next := ExposeOne(types, root, vars[id].residue.obligations, ancestor);
        assert Expose(types, root, initial, path, depth + 1) == next;
        if ancestor in vars[id].residue.obligations {
          var ancestorType := TypeAtPath(types, root, ancestor);
          if ancestorType.None? {
            ExposeFailsEarly(types, root, initial, path, depth + 1, |path|);
            return Reject(InvalidResidual);
          }
          var obligations := vars[id].residue.obligations - {ancestor};
          if ancestorType.value in types {
            var fields := types[ancestorType.value].fields.Keys;
            ghost var done: set<string> := {};
            while fields != {}
              invariant fields + done == types[ancestorType.value].fields.Keys
              invariant obligations == (vars[id].residue.obligations - {ancestor}) + set f | f in done :: ancestor + [f]
              decreases fields
            {
              var f :| f in fields;
              obligations := obligations + {ancestor + [f]};
              fields := fields - {f};
              done := done + {f};
            }
            assert done == types[ancestorType.value].fields.Keys;
            assert (set f | f in done :: ancestor + [f]) == Children(types, ancestorType.value, ancestor);
          }
          assert next.value == obligations;
          vars := vars[id := vars[id].(residue := vars[id].residue.(obligations := obligations))];
        }
      }
      r := Accept(());
    }

    method MoveRoot(e: Expr, types: Registry) returns (r: Verdict<()>)
      requires Valid(Snapshot())
      modifies this`vars
      ensures Follows(r, Rules.MoveRoot(types, e, old(Snapshot())), Snapshot())
    {
      PlaceIsValid(e, Snapshot());
      var indexed := RootId(e, Snapshot());
      if ContainsIndex(e) && indexed.Some? && vars[indexed.value].explicitType.Some? {
        return Reject(IndexedProjection);
      }
      var place := ObligationPlace(e, Snapshot());
      if place.None? {
        return Accept(());
      }
      var (id, path) := place.value;
      if vars[id].explicitType.None? {
        return Accept(());
      }
      var exposed := ExposePath(id, vars[id].explicitType.value, path, types);
      if exposed != Accept(()) {
        return exposed;
      }
      var residue := vars[id].residue;
      vars := vars[id := vars[id].(residue := Residue(residue.obligations - {path}, residue.moved + {path}))];
      r := Accept(());
    }

    method ConsumeDestructor(id: nat, path: Path, types: Registry) returns (r: Verdict<()>)
      requires id < |vars| && vars[id].explicitType.Some?
      modifies this`vars
      ensures var before := old(Snapshot());
              Follows(r, FromResult(before, id, Destroy(types, before.vars[id].explicitType.value,
                                                        before.vars[id].residue, path)), Snapshot())
    {
      var exposed := ExposePath(id, vars[id].explicitType.value, path, types);
      if exposed != Accept(()) {
        return exposed;
      }
      var residue := vars[id].residue;
      if exists m :: m in residue.moved && path <= m && m != path {
        return Reject(Incomplete);
      }
      if path in residue.obligations {
        vars := vars[id := vars[id].(residue := Residue(residue.obligations - {path}, residue.moved + {path}))];
        return Accept(());
      }
      if exists o :: o in residue.obligations && path <= o {
        return Reject(Incomplete);
      }
      r := Reject(DestroyedTwice);
    }

    method ReinitializePlace(place: Expr, types: Registry)
      requires Valid(Snapshot())
      modifies this`vars
      ensures Snapshot() == Rules.ReinitializePlace(types, place, old(Snapshot()))
    {
      PlaceIsValid(place, Snapshot());
      var p := ObligationPlace(place, Snapshot());
      if p.None? {
        return;
      }
      var (id, path) := p.value;
      if vars[id].explicitType.None? {
        return;
      }
      var residue := vars[id].residue;
      var moved := set m | m in residue.moved && !(path <= m);
      var obligations := residue.obligations;
      if moved == {} {
        obligations := {[]};
      } else {
        var ty := TypeAtPath(types, vars[id].explicitType.value, path);
        if ty.Some? && ty.value in types {
          obligations := obligations + {path};
        }
      }
      vars := vars[id := vars[id].(residue := Residue(obligations, moved))];
    }

    method BindName(name: string, ty: Option<string>, types: Registry) returns (r: Verdict<()>)
      requires Valid(Snapshot())
      modifies this
      ensures Follows(r, Rules.Bind(types, name, ty, old(Snapshot())), Snapshot())
    {
      var explicit := ExplicitName(types, ty);
      r := Declare(NewVariable(types, name, explicit, explicit.Some?));
    }

    method OverwriteName(name: string) returns (r: Verdict<()>)
      requires Valid(Snapshot())
      modifies this`vars
      ensures Follows(r, Rules.Overwrite(name, old(Snapshot())), Snapshot())
    {
      var found := Lookup(name);
      if found.Some? {
        var id := found.value;
        if vars[id].residue.obligations != {} && vars[id].message.Some? {
          return Reject(Overwritten);
        }
        var residue := if vars[id].explicitType.Some? then WHOLE else Residue({}, {});
        vars := vars[id := vars[id].(residue := residue)];
      }
      r := Accept(());
    }
  }

  lemma {:induction false} ExposeFailsEarly(types: Registry, root: string, obligations: set<Path>, path: Path, d: nat,
                                            n: nat)
    requires d <= n <= |path| && Expose(types, root, obligations, path, d).Err?
    ensures Expose(types, root, obligations, path, n) == Expose(types, root, obligations, path, d)
    decreases n - d
  {
    if d < n {
      ExposeFailsEarly(types, root, obligations, path, d, n - 1);
    }
  }

  // ----- expressions -----

  method CheckExpr(types: Registry, e: Expr, env: Env) returns (r: Verdict<()>)
    requires Valid(env.Snapshot())
    modifies env
    ensures Follows(r, Rules.CheckExpr(types, e, old(env.Snapshot())), env.Snapshot())
    decreases e, 1
  {
    match e {
      case Transfer(inner) =>
        r := env.MoveRoot(inner, types);
      case MethodCall(receiver, name, args) =>
        r := CheckExprs(types, args, env);
        if r != Accept(()) {
          return;
        }
        var place := DestroyedPlace(types, receiver, name, env.Snapshot());
        if place.Some? {
          PlaceIsValid(receiver.inner, env.Snapshot());
          r := env.ConsumeDestructor(place.value.0, place.value.1, types);
        } else {
          r := CheckExpr(types, receiver, env);
        }
      case Call(args) =>
        r := CheckExprs(types, args, env);
      case Prefix(operand) =>
        r := CheckExpr(types, operand, env);
      case Infix(left, right) =>
        r := CheckExpr(types, left, env);
        if r == Accept(()) {
          r := CheckExpr(types, right, env);
        }
      case Member(receiver, _) =>
        r := CheckExpr(types, receiver, env);
      case Index(receiver, index) =>
        r := CheckExpr(types, receiver, env);
        if r == Accept(()) {
          r := CheckExpr(types, index, env);
        }
      case _ =>
        r := Accept(());
    }
  }

  method CheckExprs(types: Registry, es: seq<Expr>, env: Env) returns (r: Verdict<()>)
    requires Valid(env.Snapshot())
    modifies env
    ensures Follows(r, Rules.CheckExprs(types, es, old(env.Snapshot())), env.Snapshot())
    decreases es, 0
  {
    for i := 0 to |es|
      invariant Valid(env.Snapshot())
      invariant Rules.CheckExprs(types, es, old(env.Snapshot())) == Rules.CheckExprs(types, es[i..], env.Snapshot())
    {
      assert es[i..][1..] == es[i + 1..];
      r := CheckExpr(types, es[i], env);
      if r != Accept(()) {
        return;
      }
    }
    r := Accept(());
  }

  // ----- statements -----

  /** What a statement answers, with the environment it hands on read off. */
  ghost function Answer(r: Verdict<Option<Env>>): Verdict<Option<State>>
    reads if r.Accept? && r.value.Some? then {r.value.value} else {}
  {
    match r
    case Accept(Some(env)) => Accept(Some(env.Snapshot()))
    case Accept(None) => Accept(None)
    case Reject(problem) => Reject(problem)
    case Panic => Panic
  }

  function Continue(r: Verdict<()>, env: Env): Verdict<Option<Env>> {
    match r
    case Accept(_) => Accept(Some(env))
    case Reject(problem) => Reject(problem)
    case Panic => Panic
  }

  function Stop(r: Verdict<()>): Verdict<Option<Env>> {
    match r
    case Accept(_) => Accept(None)
    case Reject(problem) => Reject(problem)
    case Panic => Panic
  }

  method EnsureSame(before: Env, after: Env) returns (r: Verdict<()>)
    ensures r == Rules.EnsureSame(before.Snapshot(), after.Snapshot())
  {
    var i := 0;
    while i < |before.vars| && i < |after.vars|
      invariant 0 <= i <= |before.vars| && i <= |after.vars|
      invariant forall j :: 0 <= j < i && before.vars[j].message.Some? ==>
        before.vars[j].residue == after.vars[j].residue
    {
      if before.vars[i].message.Some? && before.vars[i].residue != after.vars[i].residue {
        return Reject(Inconsistent);
      }
      i := i + 1;
    }
    r := Accept(());
  }

  method Join(exits: seq<Env>, ghost states: seq<State>) returns (r: Verdict<Option<Env>>)
    requires |states| == |exits| && forall i :: 0 <= i < |exits| ==> exits[i].Snapshot() == states[i]
    ensures Answer(r) == match Rules.Join(states)
                         case Accept(s) => Accept(Some(s))
                         case Reject(p) => Reject(p)
                         case Panic => Panic
    ensures r.Accept? ==> r.value.Some? && (r.value.value in exits || fresh(r.value.value))
  {
    if exits == [] {
      var env := new Env();
      return Accept(Some(env));
    }
    var first := exits[|exits| - 1];
    for i := 0 to |exits| - 1
      invariant forall j :: 0 <= j < i ==> Consistent(first.Snapshot(), states[j])
    {
      var same := EnsureSame(first, exits[i]);
      if same != Accept(()) {
        return Reject(Inconsistent);
      }
    }
    r := Accept(Some(first));
  }

  method CheckStmt(types: Registry, st: Stmt, env: Env) returns (r: Verdict<Option<Env>>)
    requires Valid(env.Snapshot())
    modifies env
    ensures Answer(r) == Rules.CheckStmt(types, st, old(env.Snapshot()))
    ensures r.Accept? && r.value.Some? ==> r.value.value == env || fresh(r.value.value)
    decreases st, 1
  {
    var step := Accept(());
    match st {
      case VarDecl(name, ty, value) =>
        step := CheckExpr(types, value, env);
        if step == Accept(()) {
          step := env.BindName(name, ty, types);
        }
        r := Continue(step, env);
      case Assign(name, value) =>
        step := CheckExpr(types, value, env);
        if step == Accept(()) {
          step := env.OverwriteName(name);
        }
        r := Continue(step, env);
      case SetPlace(place, value) =>
        step := CheckExpr(types, place, env);
        if step == Accept(()) {
          step := CheckExpr(types, value, env);
          if step == Accept(()) {
            env.ReinitializePlace(place, types);
          }
        }
        r := Continue(step, env);
      case ExprStmt(value) =>
        step := CheckExpr(types, value, env);
        r := Continue(step, env);
      case Return(result) =>
        if result.Some? {
          step := CheckExpr(types, result.value, env);
        }
        if step == Accept(()) {
          step := env.CheckAll();
        }
        r := Stop(step);
      case Raise(value) =>
        step := CheckExpr(types, value, env);
        if step == Accept(()) {
          step := env.CheckAll();
        }
        r := Stop(step);
      case If(_, _) =>
        r := CheckIf(types, st, env);
      case While(_, _, _) =>
        r := CheckWhile(types, st, env);
      case For(_, _, _, _, _) =>
        r := CheckFor(types, st, env);
      case Pass =>
        r := Accept(Some(env));
    }
  }

  method CheckWhile(types: Registry, st: Stmt, env: Env) returns (r: Verdict<Option<Env>>)
    requires Valid(env.Snapshot()) && st.While?
    modifies env
    ensures Answer(r) == Rules.CheckWhile(types, st, old(env.Snapshot()))
    ensures r.Accept? && r.value.Some? ==> r.value.value == env || fresh(r.value.value)
    decreases st, 0
  {
    var step := CheckExpr(types, st.cond, env);
    if step == Accept(()) {
      step := CheckPass(types, st.body, env);
    }
    if step != Accept(()) {
      return Stop(step);
    }
    r := CheckOrElse(types, st.orelse, env);
  }

  method CheckFor(types: Registry, st: Stmt, env: Env) returns (r: Verdict<Option<Env>>)
    requires Valid(env.Snapshot()) && st.For?
    modifies env
    ensures Answer(r) == Rules.CheckFor(types, st, old(env.Snapshot()))
    ensures r.Accept? && r.value.Some? ==> r.value.value == env || fresh(r.value.value)
    decreases st, 0
  {
    var step := CheckExpr(types, st.iter, env);
    if step == Accept(()) {
      step := CheckBoundPass(types, st.name, st.ty, st.body, env);
    }
    if step != Accept(()) {
      return Stop(step);
    }
    r := CheckOrElse(types, st.orelse, env);
  }

  method CheckArm(types: Registry, branch: Branch, base: Env) returns (r: Verdict<Option<Env>>)
    requires Valid(base.Snapshot())
    ensures Answer(r) == Rules.CheckArm(types, branch, base.Snapshot())
    ensures r.Accept? && r.value.Some? ==> fresh(r.value.value)
    decreases branch, 0
  {
    var entered := base.Clone();
    var step := CheckExpr(types, branch.cond, entered);
    if step != Accept(()) {
      return Stop(step);
    }
    r := CheckBlock(types, branch.body, entered, true);
  }

  /** The environments returned hold the expected states, in order. */
  ghost predicate Leaves(r: Verdict<seq<Env>>, states: seq<State>, expected: Verdict<seq<State>>)
    reads if r.Accept? then set e | e in r.value else {}
  {
    match expected
    case Accept(exits) =>
      && r.Accept? && states == exits && |r.value| == |states|
      && forall k :: 0 <= k < |states| ==> r.value[k].Snapshot() == states[k]
    case Reject(problem) => r == Reject(problem)
    case Panic => r == Panic
  }

  method CheckBranches(types: Registry, branches: seq<Branch>, base: Env)
    returns (r: Verdict<seq<Env>>, ghost states: seq<State>)
    requires Valid(base.Snapshot())
    ensures Leaves(r, states, Rules.CheckBranches(types, branches, base.Snapshot()))
    ensures r.Accept? ==> forall e :: e in r.value ==> fresh(e)
    decreases branches, 0
  {
    var exits: seq<Env> := [];
    states := [];
    assert branches[0..] == branches;
    AfterNone(Rules.CheckBranches(types, branches, base.Snapshot()));
    for i := 0 to |branches|
      invariant |states| == |exits|
      invariant forall k :: 0 <= k < |exits| ==> fresh(exits[k]) && exits[k].Snapshot() == states[k]
      invariant Rules.CheckBranches(types, branches, base.Snapshot())
        == After(states, Rules.CheckBranches(types, branches[i..], base.Snapshot()))
    {
      assert branches[i..][1..] == branches[i + 1..];
      var exit := CheckArm(types, branches[i], base);
      match exit {
        case Reject(problem) => return Reject(problem), [];
        case Panic => return Panic, [];
        case Accept(left) =>
          ghost var one := if left.Some? then [left.value.Snapshot()] else [];
          AfterOne(states, one, Rules.CheckBranches(types, branches[i + 1..], base.Snapshot()));
          states := states + one;
          exits := exits + if left.Some? then [left.value] else [];
      }
    }
    assert states + [] == states;
    r := Accept(exits);
  }

  method IfExits(types: Registry, st: Stmt, base: Env) returns (r: Verdict<seq<Env>>, ghost states: seq<State>)
    requires Valid(base.Snapshot()) && st.If?
    ensures Leaves(r, states, Rules.IfExits(types, st, base.Snapshot()))
    ensures r.Accept? ==> forall e :: e in r.value ==> fresh(e)
    decreases st, 0, 0
  {
    r, states := CheckBranches(types, st.branches, base);
    if !r.Accept? {
      return;
    }
    var last := base.Clone();
    match st.orelse {
      case NoElse =>
        states := states + [base.Snapshot()];
        r := Accept(r.value + [last]);
      case Else(body) =>
        var exit := CheckBlock(types, body, last, true);
        match exit {
          case Reject(problem) => r := Reject(problem);
          case Panic => r := Panic;
          case Accept(None) =>
          case Accept(Some(left)) =>
            states := states + [left.Snapshot()];
            r := Accept(r.value + [left]);
        }
    }
  }

  method CheckIf(types: Registry, st: Stmt, env: Env) returns (r: Verdict<Option<Env>>)
    requires Valid(env.Snapshot()) && st.If?
    ensures Answer(r) == Rules.CheckStmt(types, st, env.Snapshot())
    ensures r.Accept? && r.value.Some? ==> fresh(r.value.value)
    decreases st, 0, 1
  {
    var base := env.Clone();
    var exits, states := IfExits(types, st, base);
    match exits {
      case Reject(problem) => r := Reject(problem);
      case Panic => r := Panic;
      case Accept(left) => r := Join(left, states);
    }
  }

  /** The exits of the arms walked so far, followed by those still to come. */
  function After(states: seq<State>, rest: Verdict<seq<State>>): Verdict<seq<State>> {
    match rest
    case Accept(more) => Accept(states + more)
    case _ => rest
  }

  lemma AfterNone(rest: Verdict<seq<State>>)
    ensures After([], rest) == rest
  {
    match rest
    case Accept(more) => assert [] + more == more;
    case _ =>
  }

  lemma AfterOne(states: seq<State>, one: seq<State>, rest: Verdict<seq<State>>)
    ensures After(states, After(one, rest)) == After(states + one, rest)
  {
    match rest
    case Accept(more) => assert states + (one + more) == (states + one) + more;
    case _ =>
  }

  method CheckPass(types: Registry, body: seq<Stmt>, env: Env) returns (r: Verdict<()>)
    requires Valid(env.Snapshot())
    ensures r == Rules.CheckPass(types, body, env.Snapshot())
    decreases body, 2
  {
    var iteration := env.Clone();
    var after := CheckBlock(types, body, iteration, true);
    match after {
      case Accept(Some(left)) => r := EnsureSame(env, left);
      case Accept(None) => r := Accept(());
      case Reject(problem) => r := Reject(problem);
      case Panic => r := Panic;
    }
  }

  method CheckBoundPass(types: Registry, name: string, ty: Option<string>, body: seq<Stmt>, env: Env)
    returns (r: Verdict<()>)
    requires Valid(env.Snapshot())
    ensures r == Rules.CheckBoundPass(types, name, ty, body, env.Snapshot())
    decreases body, 2
  {
    var iteration := env.Clone();
    iteration.Push();
    var bound := iteration.BindName(name, ty, types);
    if bound != Accept(()) {
      return bound;
    }
    var after := CheckBlock(types, body, iteration, false);
    match after {
      case Accept(Some(left)) =>
        r := left.PopChecked();
        if r == Accept(()) {
          r := EnsureSame(env, left);
        }
      case Accept(None) => r := Accept(());
      case Reject(problem) => r := Reject(problem);
      case Panic => r := Panic;
    }
  }

  method CheckOrElse(types: Registry, orelse: OrElse, env: Env) returns (r: Verdict<Option<Env>>)
    requires Valid(env.Snapshot())
    ensures Answer(r) == Rules.CheckOrElse(types, orelse, env.Snapshot())
    ensures r.Accept? && r.value.Some? ==> r.value.value == env || fresh(r.value.value)
    decreases orelse, 2
  {
    match orelse {
      case NoElse => r := Accept(Some(env));
      case Else(body) =>
        var copy := env.Clone();
        r := CheckBlock(types, body, copy, true);
        if r == Accept(None) {
          r := Accept(Some(env));
        }
    }
  }

  method CheckBlock(types: Registry, body: seq<Stmt>, env: Env, scoped: bool) returns (r: Verdict<Option<Env>>)
    requires Valid(env.Snapshot())
    modifies env
    ensures Answer(r) == if scoped then Rules.CheckScoped(types, body, old(env.Snapshot()))
                         else Rules.CheckBlock(types, body, old(env.Snapshot()))
    ensures r.Accept? && r.value.Some? ==> r.value.value == env || fresh(r.value.value)
    decreases body, 0
  {
    if scoped {
      env.Push();
    }
    ghost var entered := env.Snapshot();
    var current := env;
    for i := 0 to |body|
      invariant current == env || fresh(current)
      invariant Valid(current.Snapshot())
      invariant Rules.CheckBlock(types, body, entered) == Rules.CheckBlock(types, body[i..], current.Snapshot())
    {
      assert body[i..][1..] == body[i + 1..];
      var next := CheckStmt(types, body[i], current);
      if !next.Accept? || next.value.None? {
        return next;
      }
      current := next.value.value;
    }
    if scoped {
      var popped := current.PopChecked();
      return Continue(popped, current);
    }
    r := Accept(Some(current));
  }

  // ----- functions -----

  method DeclareParams(types: Registry, params: seq<Param>, env: Env) returns (r: Verdict<()>)
    requires Valid(env.Snapshot())
    modifies env
    ensures Follows(r, Rules.DeclareParams(types, params, old(env.Snapshot())), env.Snapshot())
  {
    for i := 0 to |params|
      invariant Valid(env.Snapshot())
      invariant Rules.DeclareParams(types, params, old(env.Snapshot()))
        == Rules.DeclareParams(types, params[i..], env.Snapshot())
    {
      assert params[i..][1..] == params[i + 1..];
      var p := params[i];
      var explicit := ExplicitName(types, p.ty);
      var live := explicit.Some? && (p.convention == Some(Var) || p.convention == Some(Deinit));
      r := env.Declare(NewVariable(types, p.name, explicit, live));
      if r != Accept(()) {
        return;
      }
    }
    r := Accept(());
  }

  method CheckFunction(types: Registry, f: Function) returns (r: Verdict<()>)
    ensures r == Rules.CheckFunction(types, f)
  {
    var env := new Env();
    env.Push();
    r := DeclareParams(types, f.params, env);
    if r != Accept(()) {
      return;
    }
    var normal := CheckBlock(types, f.body, env, false);
    match normal {
      case Accept(Some(left)) => r := left.CheckAll();
      case Accept(None) => r := Accept(());
      case Reject(problem) => r := Reject(problem);
      case Panic => r := Panic;
    }
  }
}
