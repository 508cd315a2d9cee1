/** Loop variables are scoped lexically wherever they are not bound again: to look them up first is to bind them, as
    ordinary variables of the run and of compile time, where their iteration starts. */
module ElaborationScoping {
  import opened Wrappers
  import opened CtValues
  import opened ComptimeSyntax
  import opened ConstantFolding
  import opened ElaborationRules
  import opened ElaborationChoice
  import opened ElaborationFuel
  import opened ElaborationRuns
  import Meaning = ElaborationMeaning

  // ----- code that binds none of some names -----

  predicate Spared(st: Stmt, own: set<string>)
    decreases st, 0
  {
    match st
    case Comptime(name, _) => name !in own
    case ComptimeIf(branches, orelse) => SparedInBranches(branches, own) && SparedInOpt(orelse, own)
    case ComptimeFor(name, _, body) => name !in own && SparedInBlock(body, own)
    case VarDecl(name, _) => name !in own
    case Assign(name, _) => name !in own
    case If(branches, orelse) => SparedInBranches(branches, own) && SparedInOpt(orelse, own)
    case While(_, body, orelse) => SparedInBlock(body, own) && SparedInOpt(orelse, own)
    case For(name, _, body, orelse) => name !in own && SparedInBlock(body, own) && SparedInOpt(orelse, own)
    case Try(body, caught, handler, orelse, finalbody) =>
      && SparedName(caught, own) && SparedInBlock(body, own) && SparedInOpt(handler, own)
      && SparedInOpt(orelse, own) && SparedInOpt(finalbody, own)
    case With(_, items, body) => (forall item <- items :: SparedName(item.name, own)) && SparedInBlock(body, own)
    case _ => true
  }

  predicate SparedName(name: Option<string>, own: set<string>) {
    name.Some? ==> name.value !in own
  }

  /** The block binds none of the names. */
  predicate SparedInBlock(body: seq<Stmt>, own: set<string>)
    decreases body, 1
  {
    body != [] ==> Spared(body[0], own) && SparedInBlock(body[1..], own)
  }

  predicate SparedInOpt(o: OptBlock, own: set<string>)
    decreases o, 2
  {
    o.Block? ==> SparedInBlock(o.body, own)
  }

  predicate SparedInBranches(branches: seq<Branch>, own: set<string>)
    decreases branches, 1
  {
    branches != [] ==> SparedInBlock(branches[0].body, own) && SparedInBranches(branches[1..], own)
  }

  lemma {:induction false} SelectedSpared(branches: seq<Branch>, orelse: OptBlock, scope: Scope, own: set<string>)
    requires SparedInBranches(branches, own) && SparedInOpt(orelse, own) && Chosen(branches, orelse, scope).Ok?
    ensures SparedInBlock(Chosen(branches, orelse, scope).value, own)
    decreases |branches|
  {
    SelectsChosen(branches, orelse, scope);
    if branches != [] && Fails(branches[0].cond, scope) {
      SelectsChosen(branches[1..], orelse, scope);
      SelectedSpared(branches[1..], orelse, scope, own);
    }
  }

  // ----- maps -----

  lemma Associates(a: Scope, b: Scope, c: Scope)
    ensures a + (b + c) == (a + b) + c
  {
  }

  lemma UpdateFirst(a: Scope, name: string, v: CtValue, own: Loops)
    requires name !in own
    ensures a[name := v] + own == (a + own)[name := v]
  {
  }

  /** Entering a loop whose variable is not one of `own`. */
  lemma EnterBeside(own: Loops, loops: Loops, name: string, v: CtValue)
    requires name !in own
    ensures Enter(own + loops, name, v) == own + Enter(loops, name, v)
  {
    if !(name in own + loops || Materialize(v).None?) {
      assert (own + loops)[name := Canonical(v)] == own + loops[name := Canonical(v)];
    }
  }

  // ----- the compile-time environment -----

  /** The same account, with `own` bound in the environment as well. */
  ghost predicate SameAccount(a: Result<Account, Error>, b: Result<Account, Error>, own: Loops) {
    b == if a.Ok? then Ok(Account(a.value.env + own, a.value.iterations)) else a
  }

  lemma EnvAfterBound(a: Result<Account, Error>, b: Result<Account, Error>, env: Scope, own: Loops)
    requires SameAccount(a, b, own)
    ensures EnvAfter(b, env + own) == EnvAfter(a, env) + own
  {
  }

  lemma {:induction false} AccountStmtBound(st: Stmt, own: Loops, loops: Loops, env: Scope)
    requires Spared(st, own.Keys)
    ensures SameAccount(AccountStmt(st, own + loops, env), AccountStmt(st, loops, env + own), own)
    decreases Size(st), 1, 0
  {
    match st
    case Comptime(name, value) =>
      Associates(env, own, loops);
      var v := Eval(value, env + (own + loops));
      if v.Ok? { UpdateFirst(env, name, v.value, own); }
    case ComptimeIf(branches, orelse) => AccountSelectionBound(branches, orelse, own, loops, env);
    case ComptimeFor(name, iter, body) =>
      Associates(env, own, loops);
      var vs := LoopValues(iter, env + (own + loops));
      if vs.Ok? { AccountIterationsBound(name, vs.value, body, own, loops, env); }
    case If(branches, orelse) =>
      AccountBranchesBound(branches, own, loops, env);
      var bs := AccountBranches(branches, own + loops, env);
      if bs.Ok? { AccountOptBound(orelse, own, loops, bs.value.env); }
    case With(_, _, body) => AccountBlockBound(body, own, loops, env);
    case Try(_, _, _, _, _) => AccountTryBound(st, own, loops, env);
    case _ => if st.While? || st.For? { AccountLoopBound(st, own, loops, env); }
  }

  lemma {:induction false} AccountSelectionBound(branches: seq<Branch>, orelse: OptBlock, own: Loops, loops: Loops,
                                                 env: Scope)
    requires SparedInBranches(branches, own.Keys) && SparedInOpt(orelse, own.Keys)
    ensures SameAccount(AccountStmt(ComptimeIf(branches, orelse), own + loops, env),
                        AccountStmt(ComptimeIf(branches, orelse), loops, env + own), own)
    decreases Size(ComptimeIf(branches, orelse)), 0, 0
  {
    Associates(env, own, loops);
    var taken := Chosen(branches, orelse, env + (own + loops));
    if taken.Ok? {
      SelectedSpared(branches, orelse, env + (own + loops), own.Keys);
      AccountBlockBound(taken.value, own, loops, env);
    }
  }

  lemma {:induction false} AccountLoopBound(st: Stmt, own: Loops, loops: Loops, env: Scope)
    requires Spared(st, own.Keys) && (st.While? || st.For?)
    ensures SameAccount(AccountStmt(st, own + loops, env), AccountStmt(st, loops, env + own), own)
    decreases Size(st), 0, 0
  {
    AccountBlockBound(st.body, own, loops, env);
    var b := AccountBlock(st.body, own + loops, env);
    if b.Ok? { AccountOptBound(st.orelse, own, loops, b.value.env); }
  }

  lemma {:induction false} AccountTryBound(st: Stmt, own: Loops, loops: Loops, env: Scope)
    requires Spared(st, own.Keys) && st.Try?
    ensures SameAccount(AccountStmt(st, own + loops, env), AccountStmt(st, loops, env + own), own)
    decreases Size(st), 0, 0
  {
    AccountBlockBound(st.body, own, loops, env);
    var b := AccountBlock(st.body, own + loops, env);
    if b.Ok? { AccountThreeBound(st.handler, st.orelse, st.finalbody, own, loops, b.value.env); }
  }

  lemma {:induction false} AccountBlockBound(body: seq<Stmt>, own: Loops, loops: Loops, env: Scope)
    requires SparedInBlock(body, own.Keys)
    ensures SameAccount(AccountBlock(body, own + loops, env), AccountBlock(body, loops, env + own), own)
    decreases BlockSize(body), 0, 0
  {
    if body != [] {
      AccountStmtBound(body[0], own, loops, env);
      var first := AccountStmt(body[0], own + loops, env);
      if first.Ok? { AccountBlockBound(body[1..], own, loops, first.value.env); }
    }
  }

  lemma {:induction false} AccountOptBound(o: OptBlock, own: Loops, loops: Loops, env: Scope)
    requires SparedInOpt(o, own.Keys)
    ensures SameAccount(AccountOpt(o, own + loops, env), AccountOpt(o, loops, env + own), own)
    decreases OptSize(o), 1, 0
  {
    if o.Block? { AccountBlockBound(o.body, own, loops, env); }
  }

  lemma {:induction false} AccountTwoBound(first: OptBlock, second: OptBlock, own: Loops, loops: Loops, env: Scope)
    requires SparedInOpt(first, own.Keys) && SparedInOpt(second, own.Keys)
    ensures SameAccount(AccountTwo(first, second, own + loops, env), AccountTwo(first, second, loops, env + own), own)
    decreases OptSize(first) + OptSize(second), 2, 0
  {
    AccountOptBound(first, own, loops, env);
    var a := AccountOpt(first, own + loops, env);
    if a.Ok? { AccountOptBound(second, own, loops, a.value.env); }
  }

  lemma {:induction false} AccountThreeBound(first: OptBlock, second: OptBlock, third: OptBlock, own: Loops,
                                             loops: Loops,
                                             env: Scope)
    requires SparedInOpt(first, own.Keys) && SparedInOpt(second, own.Keys) && SparedInOpt(third, own.Keys)
    ensures SameAccount(AccountThree(first, second, third, own + loops, env),
                        AccountThree(first, second, third, loops, env + own), own)
    decreases OptSize(first) + OptSize(second) + OptSize(third), 3, 0
  {
    AccountOptBound(first, own, loops, env);
    var a := AccountOpt(first, own + loops, env);
    if a.Ok? { AccountTwoBound(second, third, own, loops, a.value.env); }
  }

  lemma {:induction false} AccountBranchesBound(branches: seq<Branch>, own: Loops, loops: Loops, env: Scope)
    requires SparedInBranches(branches, own.Keys)
    ensures SameAccount(AccountBranches(branches, own + loops, env), AccountBranches(branches, loops, env + own), own)
    decreases BranchesSize(branches), 1, 0
  {
    if branches != [] {
      AccountBlockBound(branches[0].body, own, loops, env);
      var b := AccountBlock(branches[0].body, own + loops, env);
      if b.Ok? { AccountBranchesBound(branches[1..], own, loops, b.value.env); }
    }
  }

  lemma {:induction false} AccountIterationsBound(name: string, vs: seq<CtValue>, body: seq<Stmt>, own: Loops,
                                                  loops: Loops,
                                                  env: Scope)
    requires name !in own && SparedInBlock(body, own.Keys)
    ensures SameAccount(AccountIterations(name, vs, body, own + loops, env),
                        AccountIterations(name, vs, body, loops, env + own), own)
    decreases BlockSize(body), 1, |vs|
  {
    if vs != [] {
      var inner := Enter(loops, name, vs[0]);
      var first, bound := AccountBlock(body, own + inner, env), AccountBlock(body, inner, env + own);
      EnterBeside(own, loops, name, vs[0]);
      AccountBlockBound(body, own, inner, env);
      if first.Ok? {
        AccountIterationsBound(name, vs[1..], body, own, loops, first.value.env);
      }
      IterationsInTurn(name, vs, body, own + loops, env);
      IterationsInTurn(name, vs, body, loops, env + own);
    }
  }

  /** The iterations are accounted for one after the other. */
  lemma IterationsInTurn(name: string, vs: seq<CtValue>, body: seq<Stmt>, loops: Loops, env: Scope)
    requires vs != []
    ensures var first := AccountBlock(body, Enter(loops, name, vs[0]), env);
            var all := AccountIterations(name, vs, body, loops, env);
            if first.Err? then all == first
            else
              var rest := AccountIterations(name, vs[1..], body, loops, first.value.env);
              all == if rest.Err? then rest
                     else Ok(Account(rest.value.env, 1 + first.value.iterations + rest.value.iterations))
  {
  }

  // ----- runs -----

  /** The same run, with `own` bound in the store as well. */
  ghost predicate SameRunBound(r: Run, q: Run, own: Loops) {
    q == r.(store := r.store + own)
  }

  lemma {:induction false} StmtBound(h: Host, st: Stmt, own: Loops, loops: Loops, env: Scope, store: Scope, log: Log,
                                     k: nat)
    requires Spared(st, own.Keys)
    ensures SameRunBound(Mean(h, st, own + loops, env, store, log, k),
                         Mean(h, st, loops, env + own, store + own, log, k), own)
    decreases k, Size(st), 1, 0
  {
    if st.Comptime? || st.ComptimeIf? || st.ComptimeFor? {
      ComptimeBound(h, st, own, loops, env, store, log, k);
    } else if st.If? || st.While? || st.For? || st.Try? || st.With? {
      CompoundBound(h, st, own, loops, env, store, log, k);
    } else {
      SimpleBound(h, st, own, loops, env, store, log, k);
    }
  }

  lemma SimpleBound(h: Host, st: Stmt, own: Loops, loops: Loops, env: Scope, store: Scope, log: Log, k: nat)
    requires Spared(st, own.Keys)
    requires st.VarDecl? || st.Assign? || st.ExprStmt? || st.Return? || st.Raise? || st.Break? || st.Continue? ||
      st.Pass?
    ensures SameRunBound(Mean(h, st, own + loops, env, store, log, k),
                         Mean(h, st, loops, env + own, store + own, log, k), own)
  {
    Associates(store, own, loops);
    if st.VarDecl? || st.Assign? {
      var r := RunExpr(h, st.value, store + (own + loops), log);
      if r.Done? { UpdateFirst(store, st.name, r.v, own); }
    }
  }

  lemma {:induction false} ComptimeBound(h: Host, st: Stmt, own: Loops, loops: Loops, env: Scope, store: Scope,
                                         log: Log, k: nat)
    requires Spared(st, own.Keys) && (st.Comptime? || st.ComptimeIf? || st.ComptimeFor?)
    ensures SameRunBound(Mean(h, st, own + loops, env, store, log, k),
                         Mean(h, st, loops, env + own, store + own, log, k), own)
    decreases k, Size(st), 0, 0
  {
    Associates(env, own, loops);
    match st
    case Comptime(name, value) =>
      var v := Eval(value, env + (own + loops));
      if v.Ok? { UpdateFirst(store, name, Canonical(v.value), own); }
    case ComptimeIf(branches, orelse) =>
      var taken := Chosen(branches, orelse, env + (own + loops));
      if taken.Ok? {
        SelectedSpared(branches, orelse, env + (own + loops), own.Keys);
        BlockBound(h, taken.value, own, loops, env, store, log, k);
      }
    case ComptimeFor(name, iter, body) =>
      var vs := LoopValues(iter, env + (own + loops));
      if vs.Ok? { IterationsBound(h, name, vs.value, body, own, loops, env, store, log, k); }
  }

  lemma {:induction false} CompoundBound(h: Host, st: Stmt, own: Loops, loops: Loops, env: Scope, store: Scope,
                                         log: Log, k: nat)
    requires Spared(st, own.Keys) && (st.If? || st.While? || st.For? || st.Try? || st.With?)
    ensures SameRunBound(Mean(h, st, own + loops, env, store, log, k),
                         Mean(h, st, loops, env + own, store + own, log, k), own)
    decreases k, Size(st), 0, 0
  {
    match st
    case If(branches, orelse) => BranchesBound(h, branches, orelse, own, loops, env, store, log, k);
    case While(cond, body, orelse) => WhileBound(h, cond, body, orelse, own, loops, env, store, log, k);
    case For(name, iter, body, orelse) =>
      Associates(store, own, loops);
      var r := RunIter(h, iter, store + (own + loops), log);
      if r.Done? { ForBound(h, name, r.v, body, orelse, own, loops, env, store, r.log, k); }
    case Try(body, caught, handler, orelse, finalbody) =>
      TryBound(h, body, caught, handler, orelse, finalbody, own, loops, env, store, log, k);
    case With(_, items, body) => WithBound(h, items, body, own, loops, env, store, log, k);
  }

  lemma {:induction false} BlockBound(h: Host, body: seq<Stmt>, own: Loops, loops: Loops, env: Scope, store: Scope,
                                      log: Log, k: nat)
    requires SparedInBlock(body, own.Keys)
    ensures SameRunBound(MeanBlock(h, body, own + loops, env, store, log, k),
                         MeanBlock(h, body, loops, env + own, store + own, log, k), own)
    decreases k, BlockSize(body), 0, 0
  {
    if body != [] {
      StmtBound(h, body[0], own, loops, env, store, log, k);
      var r := Mean(h, body[0], own + loops, env, store, log, k);
      if r.outcome.Normal? {
        AccountStmtBound(body[0], own, loops, env);
        var a := AccountStmt(body[0], own + loops, env);
        EnvAfterBound(a, AccountStmt(body[0], loops, env + own), env, own);
        BlockBound(h, body[1..], own, loops, EnvAfter(a, env), r.store, r.log, k);
      }
    }
  }

  lemma {:induction false} OptBound(h: Host, o: OptBlock, own: Loops, loops: Loops, env: Scope, store: Scope, log: Log,
                                    k: nat)
    requires SparedInOpt(o, own.Keys)
    ensures SameRunBound(MeanOpt(h, o, own + loops, env, store, log, k),
                         MeanOpt(h, o, loops, env + own, store + own, log, k), own)
    decreases k, OptSize(o), 0, 0
  {
    if o.Block? { BlockBound(h, o.body, own, loops, env, store, log, k); }
  }

  lemma AfterBlock(body: seq<Stmt>, own: Loops, loops: Loops, env: Scope)
    requires SparedInBlock(body, own.Keys)
    ensures EnvAfter(AccountBlock(body, loops, env + own), env + own)
      == EnvAfter(AccountBlock(body, own + loops, env), env) + own
  {
    AccountBlockBound(body, own, loops, env);
    EnvAfterBound(AccountBlock(body, own + loops, env), AccountBlock(body, loops, env + own), env, own);
  }

  lemma AfterOpt(o: OptBlock, own: Loops, loops: Loops, env: Scope)
    requires SparedInOpt(o, own.Keys)
    ensures EnvAfter(AccountOpt(o, loops, env + own), env + own) == EnvAfter(AccountOpt(o, own + loops, env), env) + own
  {
    AccountOptBound(o, own, loops, env);
    EnvAfterBound(AccountOpt(o, own + loops, env), AccountOpt(o, loops, env + own), env, own);
  }

  lemma {:induction false} BranchesBound(h: Host, branches: seq<Branch>, orelse: OptBlock, own: Loops, loops: Loops,
                                         env: Scope,
                                         store: Scope, log: Log, k: nat)
    requires SparedInBranches(branches, own.Keys) && SparedInOpt(orelse, own.Keys)
    ensures SameRunBound(MeanBranches(h, branches, orelse, own + loops, env, store, log, k),
                         MeanBranches(h, branches, orelse, loops, env + own, store + own, log, k), own)
    decreases k, BranchesSize(branches) + OptSize(orelse), 1, 0
  {
    if branches == [] {
      OptBound(h, orelse, own, loops, env, store, log, k);
    } else {
      Associates(store, own, loops);
      var c := RunExpr(h, branches[0].cond, store + (own + loops), log);
      if c.Done? && c.v.Bool? {
        if c.v.b {
          BlockBound(h, branches[0].body, own, loops, env, store, c.log, k);
        } else {
          AfterBlock(branches[0].body, own, loops, env);
          BranchesBound(h, branches[1..], orelse, own, loops,
                        EnvAfter(AccountBlock(branches[0].body, own + loops, env), env),
                        store, c.log, k);
        }
      }
    }
  }

  lemma {:induction false} WhileBound(h: Host, cond: Expr, body: seq<Stmt>, orelse: OptBlock, own: Loops, loops: Loops,
                                      env: Scope, store: Scope, log: Log, k: nat)
    requires SparedInBlock(body, own.Keys) && SparedInOpt(orelse, own.Keys)
    ensures SameRunBound(MeanWhile(h, cond, body, orelse, own + loops, env, store, log, k),
                         MeanWhile(h, cond, body, orelse, loops, env + own, store + own, log, k), own)
    decreases k, BlockSize(body) + OptSize(orelse), 1, 0
  {
    var c := RunExpr(h, cond, store + (own + loops), log);
    if c.Done? && c.v == CtValue.Bool(true) && k > 0 {
      BlockBound(h, body, own, loops, env, store, c.log, k - 1);
      var r := MeanBlock(h, body, own + loops, env, store, c.log, k - 1);
      WhileBound(h, cond, body, orelse, own, loops, env, r.store, r.log, k - 1);
      NextRoundBound(h, cond, body, orelse, own, loops, env, store, log, k);
    } else {
      WhileEndBound(h, cond, body, orelse, own, loops, env, store, log, k);
    }
  }

  lemma {:induction false} WhileEndBound(h: Host, cond: Expr, body: seq<Stmt>, orelse: OptBlock, own: Loops,
                                         loops: Loops,
                                         env: Scope, store: Scope, log: Log, k: nat)
    requires SparedInBlock(body, own.Keys) && SparedInOpt(orelse, own.Keys)
    requires var c := RunExpr(h, cond, store + (own + loops), log); !(c.Done? && c.v == CtValue.Bool(true) && k > 0)
    ensures SameRunBound(MeanWhile(h, cond, body, orelse, own + loops, env, store, log, k),
                         MeanWhile(h, cond, body, orelse, loops, env + own, store + own, log, k), own)
    decreases k, BlockSize(body) + OptSize(orelse), 0, 1
  {
    var l := RunExpr(h, cond, store + (own + loops), log).log;
    AfterBlock(body, own, loops, env);
    OptBound(h, orelse, own, loops, EnvAfter(AccountBlock(body, own + loops, env), env), store, l, k);
    LastRoundBound(h, cond, body, orelse, own, loops, env, store, log, k);
  }

  lemma NextRoundBound(h: Host, cond: Expr, body: seq<Stmt>, orelse: OptBlock, own: Loops, loops: Loops, env: Scope,
                       store: Scope,
                       log: Log, k: nat)
    requires var c := RunExpr(h, cond, store + (own + loops), log);
      && c.Done? && c.v == CtValue.Bool(true) && k > 0
      && var r := MeanBlock(h, body, own + loops, env, store, c.log, k - 1);
        && SameRunBound(r, MeanBlock(h, body, loops, env + own, store + own, c.log, k - 1), own)
        && SameRunBound(MeanWhile(h, cond, body, orelse, own + loops, env, r.store, r.log, k - 1),
                        MeanWhile(h, cond, body, orelse, loops, env + own, r.store + own, r.log, k - 1), own)
    ensures SameRunBound(MeanWhile(h, cond, body, orelse, own + loops, env, store, log, k),
                         MeanWhile(h, cond, body, orelse, loops, env + own, store + own, log, k), own)
  {
    Associates(store, own, loops);
    Meaning.MeanRound(h, cond, body, orelse, own + loops, env, store, log, k);
    Meaning.MeanRound(h, cond, body, orelse, loops, env + own, store + own, log, k);
  }

  lemma LastRoundBound(h: Host, cond: Expr, body: seq<Stmt>, orelse: OptBlock, own: Loops, loops: Loops, env: Scope,
                       store: Scope,
                       log: Log, k: nat)
    requires var c := RunExpr(h, cond, store + (own + loops), log);
      && !(c.Done? && c.v == CtValue.Bool(true) && k > 0)
      && var after := EnvAfter(AccountBlock(body, own + loops, env), env);
        && EnvAfter(AccountBlock(body, loops, env + own), env + own) == after + own
        && SameRunBound(MeanOpt(h, orelse, own + loops, after, store, c.log, k),
                        MeanOpt(h, orelse, loops, after + own, store + own, c.log, k), own)
    ensures SameRunBound(MeanWhile(h, cond, body, orelse, own + loops, env, store, log, k),
                         MeanWhile(h, cond, body, orelse, loops, env + own, store + own, log, k), own)
  {
    Associates(store, own, loops);
  }

  lemma {:induction false} ForBound(h: Host, name: string, vs: seq<CtValue>, body: seq<Stmt>, orelse: OptBlock,
                                    own: Loops,
                                    loops: Loops, env: Scope, store: Scope, log: Log, k: nat)
    requires name !in own && SparedInBlock(body, own.Keys) && SparedInOpt(orelse, own.Keys)
    ensures SameRunBound(MeanFor(h, name, vs, body, orelse, own + loops, env, store, log, k),
                         MeanFor(h, name, vs, body, orelse, loops, env + own, store + own, log, k), own)
    decreases k, BlockSize(body) + OptSize(orelse), 1, |vs|
  {
    if vs == [] {
      AfterBlock(body, own, loops, env);
      OptBound(h, orelse, own, loops, EnvAfter(AccountBlock(body, own + loops, env), env), store, log, k);
    } else {
      UpdateFirst(store, name, vs[0], own);
      BlockBound(h, body, own, loops, env, store[name := vs[0]], log, k);
      var r := MeanBlock(h, body, own + loops, env, store[name := vs[0]], log, k);
      if r.outcome.Normal? || r.outcome.Continued? {
        ForBound(h, name, vs[1..], body, orelse, own, loops, env, r.store, r.log, k);
      }
    }
  }

  lemma {:induction false} TryBound(h: Host, body: seq<Stmt>, caught: Option<string>, handler: OptBlock,
                                    orelse: OptBlock,
                                    finalbody: OptBlock, own: Loops, loops: Loops, env: Scope, store: Scope, log: Log,
                                      k: nat)
    requires SparedName(caught, own.Keys) && SparedInBlock(body, own.Keys) && SparedInOpt(handler, own.Keys)
    requires SparedInOpt(orelse, own.Keys) && SparedInOpt(finalbody, own.Keys)
    ensures SameRunBound(MeanTry(h, body, caught, handler, orelse, finalbody, own + loops, env, store, log, k),
                         MeanTry(h, body, caught, handler, orelse, finalbody, loops, env + own, store + own, log, k),
                           own)
    decreases k, BlockSize(body) + OptSize(handler) + OptSize(orelse) + OptSize(finalbody), 2, 0
  {
    BlockBound(h, body, own, loops, env, store, log, k);
    var b := MeanBlock(h, body, own + loops, env, store, log, k);
    var env1 := EnvAfter(AccountBlock(body, own + loops, env), env);
    var env2 := EnvAfter(AccountOpt(handler, own + loops, env1), env1);
    var env3 := EnvAfter(AccountOpt(orelse, own + loops, env2), env2);
    ClausesBound(h, b, caught, handler, orelse, own, loops, env1, env2, k);
    var c := MeanClauses(h, b, caught, handler, orelse, own + loops, env1, env2, k);
    OptBound(h, finalbody, own, loops, env3, c.store, c.log, k);
    TryPartsBound(h, body, caught, handler, orelse, finalbody, own, loops, env, store, log, k);
  }

  lemma TryPartsBound(h: Host, body: seq<Stmt>, caught: Option<string>, handler: OptBlock, orelse: OptBlock,
                      finalbody: OptBlock,
                      own: Loops, loops: Loops, env: Scope, store: Scope, log: Log, k: nat)
    requires SparedInBlock(body, own.Keys) && SparedInOpt(handler, own.Keys) && SparedInOpt(orelse, own.Keys)
    requires var b := MeanBlock(h, body, own + loops, env, store, log, k);
      var env1 := EnvAfter(AccountBlock(body, own + loops, env), env);
      var env2 := EnvAfter(AccountOpt(handler, own + loops, env1), env1);
      var env3 := EnvAfter(AccountOpt(orelse, own + loops, env2), env2);
      var c := MeanClauses(h, b, caught, handler, orelse, own + loops, env1, env2, k);
      && SameRunBound(b, MeanBlock(h, body, loops, env + own, store + own, log, k), own)
      && SameRunBound(c, MeanClauses(h, b.(store := b.store + own), caught, handler, orelse, loops, env1 + own,
                                     env2 + own, k), own)
      && SameRunBound(MeanOpt(h, finalbody, own + loops, env3, c.store, c.log, k),
                      MeanOpt(h, finalbody, loops, env3 + own, c.store + own, c.log, k), own)
    ensures SameRunBound(MeanTry(h, body, caught, handler, orelse, finalbody, own + loops, env, store, log, k),
                         MeanTry(h, body, caught, handler, orelse, finalbody, loops, env + own, store + own, log, k),
                           own)
  {
    var env1 := EnvAfter(AccountBlock(body, own + loops, env), env);
    var env2 := EnvAfter(AccountOpt(handler, own + loops, env1), env1);
    AfterBlock(body, own, loops, env);
    AfterOpt(handler, own, loops, env1);
    AfterOpt(orelse, own, loops, env2);
  }

  lemma {:induction false} ClausesBound(h: Host, b: Run, caught: Option<string>, handler: OptBlock, orelse: OptBlock,
                                        own: Loops,
                                        loops: Loops, handlerEnv: Scope, elseEnv: Scope, k: nat)
    requires SparedName(caught, own.Keys) && SparedInOpt(handler, own.Keys) && SparedInOpt(orelse, own.Keys)
    ensures SameRunBound(MeanClauses(h, b, caught, handler, orelse, own + loops, handlerEnv, elseEnv, k),
                         MeanClauses(h, b.(store := b.store + own), caught, handler, orelse, loops, handlerEnv + own,
                                     elseEnv + own, k),
                         own)
    decreases k, OptSize(handler) + OptSize(orelse), 1, 0
  {
    if b.outcome.Raised? && handler.Block? {
      if caught.Some? { UpdateFirst(b.store, caught.value, b.outcome.error, own); }
      OptBound(h, handler, own, loops, handlerEnv, Caught(b, caught), b.log, k);
    } else if b.outcome.Normal? {
      OptBound(h, orelse, own, loops, elseEnv, b.store, b.log, k);
    }
  }

  lemma {:induction false} IterationsBound(h: Host, name: string, vs: seq<CtValue>, body: seq<Stmt>, own: Loops,
                                           loops: Loops,
                                           env: Scope, store: Scope, log: Log, k: nat)
    requires name !in own && SparedInBlock(body, own.Keys)
    ensures SameRunBound(MeanIterations(h, name, vs, body, own + loops, env, store, log, k),
                         MeanIterations(h, name, vs, body, loops, env + own, store + own, log, k), own)
    decreases k, BlockSize(body), 1, |vs|
  {
    if vs != [] {
      EnterBeside(own, loops, name, vs[0]);
      var inner := Enter(loops, name, vs[0]);
      BlockBound(h, body, own, inner, env, store, log, k);
      AfterBlock(body, own, inner, env);
      var r := MeanBlock(h, body, own + inner, env, store, log, k);
      if r.outcome.Normal? {
        IterationsBound(h, name, vs[1..], body, own, loops, EnvAfter(AccountBlock(body, own + inner, env), env),
                        r.store, r.log, k);
      }
    }
  }

  lemma {:induction false} WithBound(h: Host, items: seq<WithItem>, body: seq<Stmt>, own: Loops, loops: Loops,
                                     env: Scope,
                                     store: Scope, log: Log, k: nat)
    requires (forall item <- items :: SparedName(item.name, own.Keys)) && SparedInBlock(body, own.Keys)
    ensures SameRunBound(MeanWith(h, items, body, own + loops, env, store, log, k),
                         MeanWith(h, items, body, loops, env + own, store + own, log, k), own)
    decreases k, BlockSize(body), 1, |items|
  {
    if items == [] {
      BlockBound(h, body, own, loops, env, store, log, k);
    } else {
      Associates(store, own, loops);
      var c := RunExpr(h, items[0].context, store + (own + loops), log);
      if c.Done? {
        var a := Ask(h, Perform(Method("__enter__")), [c.v], c.log);
        if a.Done? {
          assert SparedName(items[0].name, own.Keys);
          assert items[0] in items && forall item <- items[1..] :: item in items;
          var bound := if items[0].name.Some? then store[items[0].name.value := a.v] else store;
          if items[0].name.Some? { UpdateFirst(store, items[0].name.value, a.v, own); }
          WithBound(h, items[1..], body, own, loops, env, bound, a.log, k);
        }
      }
    }
  }

  /** If a body binds none of the variables of the loops around it, its meaning is that of a run in which these
      variables are ordinary ones, bound before the body starts. */
  lemma LoopVariablesAreLexical(h: Host, body: seq<Stmt>, loops: Loops, env: Scope, store: Scope, log: Log, k: nat)
    requires SparedInBlock(body, loops.Keys)
    ensures var r := MeanBlock(h, body, loops, env, store, log, k);
      MeanBlock(h, body, map[], env + loops, store + loops, log, k) == r.(store := r.store + loops)
  {
    assert loops + map[] == loops;
    BlockBound(h, body, loops, map[], env, store, log, k);
  }

  /** One iteration of a `comptime for` binds its variable to the run-time form of the value, for the body and no
      longer. */
  lemma IterationBindsVariable(h: Host, name: string, v: CtValue, body: seq<Stmt>, env: Scope, store: Scope, log: Log,
                               k: nat)
    requires SparedInBlock(body, {name}) && Materialize(v).Some?
    ensures var r := MeanBlock(h, body, Enter(map[], name, v), env, store, log, k);
      MeanBlock(h, body, map[], env[name := Canonical(v)], store[name := Canonical(v)], log, k)
        == r.(store := r.store[name := Canonical(v)])
  {
    var loops: Loops := map[name := Canonical(v)];
    assert Enter(map[], name, v) == loops && loops.Keys == {name};
    assert env + loops == env[name := Canonical(v)] && store + loops == store[name := Canonical(v)];
    LoopVariablesAreLexical(h, body, loops, env, store, log, k);
    var r := MeanBlock(h, body, loops, env, store, log, k);
    assert r.store + loops == r.store[name := Canonical(v)];
  }
}
