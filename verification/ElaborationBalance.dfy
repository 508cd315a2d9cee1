/** Managers are entered and exited like brackets, however the statements under them end. */
module ElaborationBalance {
  import opened Wrappers
  import opened CtValues
  import opened ComptimeSyntax
  import opened ConstantFolding
  import opened ElaborationRules
  import opened ElaborationChoice
  import opened ElaborationFuel
  import opened ElaborationRuns
  import opened ElaborationMeaning

  // ----- managers entered and not yet exited -----

  predicate IsEnter(request: Request) {
    request == Perform(Method("__enter__"))
  }

  predicate IsExit(request: Request) {
    request == Perform(Method("__exit__"))
  }

  /** A manager whose `__enter__` has answered is open, innermost last. Exiting any other than the innermost, or
      exiting it twice, is out of order. */
  function Step(open: Option<seq<CtValue>>, event: Event): Option<seq<CtValue>> {
    if open.None? || |event.args| != 1 then open
    else if IsEnter(event.request) && event.reply.Answer? then Some(open.value + event.args)
    else if IsExit(event.request) then
      if open.value != [] && open.value[|open.value| - 1] == event.args[0] then Some(open.value[..|open.value| - 1])
        else None
    else open
  }

  /** The managers open at the end of an exchange, if it was always in order. */
  function Open(log: Log): Option<seq<CtValue>> {
    if log == [] then Some([]) else Step(Open(log[..|log| - 1]), log[|log| - 1])
  }

  lemma OpenAppend(log: Log, event: Event)
    ensures Open(log + [event]) == Step(Open(log), event)
  {
    assert (log + [event])[..|log|] == log;
  }

  // ----- programs that leave the protocol to `with` -----

  predicate Unmanaged(e: Expr)
    decreases e, 0
  {
    match e
    case TupleLit(items) => AllUnmanaged(items)
    case ListLit(items) => AllUnmanaged(items)
    case Neg(operand) => Unmanaged(operand)
    case Not(operand) => Unmanaged(operand)
    case Infix(_, left, right) => Unmanaged(left) && Unmanaged(right)
    case Apply(operation, args) => !IsEnter(Perform(operation)) && !IsExit(Perform(operation)) && AllUnmanaged(args)
    case _ => true
  }

  predicate AllUnmanaged(es: seq<Expr>)
    decreases es, 1
  {
    es != [] ==> Unmanaged(es[0]) && AllUnmanaged(es[1..])
  }

  /** No explicit call of `__enter__` or `__exit__`. */
  predicate UnmanagedStmt(st: Stmt)
    decreases st, 0
  {
    match st
    case Comptime(_, _) => true
    case ComptimeIf(branches, orelse) => UnmanagedBranches(branches) && UnmanagedOpt(orelse)
    case ComptimeFor(_, _, body) => UnmanagedBlock(body)
    case VarDecl(_, value) => Unmanaged(value)
    case Assign(_, value) => Unmanaged(value)
    case ExprStmt(value) => Unmanaged(value)
    case If(branches, orelse) => UnmanagedBranches(branches) && UnmanagedOpt(orelse)
    case While(cond, body, orelse) => Unmanaged(cond) && UnmanagedBlock(body) && UnmanagedOpt(orelse)
    case For(_, iter, body, orelse) => Unmanaged(iter) && UnmanagedBlock(body) && UnmanagedOpt(orelse)
    case Try(body, _, handler, orelse, finalbody) =>
      UnmanagedBlock(body) && UnmanagedOpt(handler) && UnmanagedOpt(orelse) && UnmanagedOpt(finalbody)
    case With(_, items, body) => UnmanagedItems(items) && UnmanagedBlock(body)
    case Return(value) => Unmanaged(value)
    case Raise(value) => Unmanaged(value)
    case _ => true
  }

  predicate UnmanagedBlock(body: seq<Stmt>)
    decreases body, 1
  {
    body != [] ==> UnmanagedStmt(body[0]) && UnmanagedBlock(body[1..])
  }

  predicate UnmanagedOpt(o: OptBlock)
    decreases o, 2
  {
    o.Block? ==> UnmanagedBlock(o.body)
  }

  predicate UnmanagedBranches(branches: seq<Branch>)
    decreases branches, 1
  {
    branches != [] ==>
      Unmanaged(branches[0].cond) && UnmanagedBlock(branches[0].body) && UnmanagedBranches(branches[1..])
  }

  predicate UnmanagedItems(items: seq<WithItem>) {
    items != [] ==> Unmanaged(items[0].context) && UnmanagedItems(items[1..])
  }

  lemma {:induction false} SelectedUnmanaged(branches: seq<Branch>, orelse: OptBlock, scope: Scope)
    requires UnmanagedBranches(branches) && UnmanagedOpt(orelse)
    requires Chosen(branches, orelse, scope).Ok?
    ensures UnmanagedBlock(Chosen(branches, orelse, scope).value)
  {
    SelectsChosen(branches, orelse, scope);
    if branches != [] && Fails(branches[0].cond, scope) {
      SelectsChosen(branches[1..], orelse, scope);
      SelectedUnmanaged(branches[1..], orelse, scope);
    }
  }

  // ----- expressions -----

  lemma AskKeepsOpen(h: Host, request: Request, args: seq<CtValue>, log: Log)
    requires !IsEnter(request) && !IsExit(request)
    ensures Open(Ask(h, request, args, log).log) == Open(log)
  {
    OpenAppend(log, Event(request, args, h.respond(request, args, log)));
  }

  lemma {:induction false} ExprKeepsOpen(h: Host, e: Expr, store: Scope, log: Log)
    requires Unmanaged(e)
    ensures Open(RunExpr(h, e, store, log).log) == Open(log)
    decreases e, 0
  {
    match e
    case TupleLit(items) => ExprsKeepOpen(h, items, store, log);
    case ListLit(items) => ExprsKeepOpen(h, items, store, log);
    case Neg(operand) =>
      ExprKeepsOpen(h, operand, store, log);
      var r := RunExpr(h, operand, store, log);
      if r.Done? { AskKeepsOpen(h, Negate, [r.v], r.log); }
    case Not(operand) =>
      ExprKeepsOpen(h, operand, store, log);
      var r := RunExpr(h, operand, store, log);
      if r.Done? { AskKeepsOpen(h, Invert, [r.v], r.log); }
    case Infix(op, left, right) =>
      ExprKeepsOpen(h, left, store, log);
      var l := RunExpr(h, left, store, log);
      ExprKeepsOpen(h, right, store, l.log);
      var r := RunExpr(h, right, store, l.log);
      if l.Done? && r.Done? { AskKeepsOpen(h, Compute(op), [l.v, r.v], r.log); }
    case Apply(operation, args) =>
      ExprsKeepOpen(h, args, store, log);
      var r := RunExprs(h, args, store, log);
      if r.Done? { AskKeepsOpen(h, Perform(operation), r.v, r.log); }
    case _ =>
  }

  lemma {:induction false} ExprsKeepOpen(h: Host, es: seq<Expr>, store: Scope, log: Log)
    requires AllUnmanaged(es)
    ensures Open(RunExprs(h, es, store, log).log) == Open(log)
    decreases es, 1
  {
    if es != [] {
      ExprKeepsOpen(h, es[0], store, log);
      ExprsKeepOpen(h, es[1..], store, RunExpr(h, es[0], store, log).log);
    }
  }

  lemma IterKeepsOpen(h: Host, e: Expr, store: Scope, log: Log)
    requires Unmanaged(e)
    ensures Open(RunIter(h, e, store, log).log) == Open(log)
  {
    ExprKeepsOpen(h, e, store, log);
    var r := RunExpr(h, e, store, log);
    if r.Done? { AskKeepsOpen(h, Iterate, [r.v], r.log); }
  }

  // ----- statements -----

  /** A completed run leaves open exactly the managers that were open before it. */
  predicate Balanced(r: Run, log: Log) {
    Completed(r.outcome) ==> Open(r.log) == Open(log)
  }

  lemma {:induction false} StmtIsBalanced(h: Host, st: Stmt, loops: Loops, env: Scope, store: Scope, log: Log, k: nat)
    requires UnmanagedStmt(st)
    ensures Balanced(Mean(h, st, loops, env, store, log, k), log)
    decreases k, Size(st), 1, 0
  {
    match st
    case ComptimeIf(branches, orelse) =>
      var taken := Chosen(branches, orelse, env + loops);
      if taken.Ok? {
        SelectedUnmanaged(branches, orelse, env + loops);
        BlockIsBalanced(h, taken.value, loops, env, store, log, k);
      }
    case ComptimeFor(name, iter, body) =>
      var vs := LoopValues(iter, env + loops);
      if vs.Ok? { IterationsAreBalanced(h, name, vs.value, body, loops, env, store, log, k); }
    case VarDecl(_, value) => ExprKeepsOpen(h, value, store + loops, log);
    case Assign(_, value) => ExprKeepsOpen(h, value, store + loops, log);
    case ExprStmt(value) => ExprKeepsOpen(h, value, store + loops, log);
    case Return(value) => ExprKeepsOpen(h, value, store + loops, log);
    case Raise(value) => ExprKeepsOpen(h, value, store + loops, log);
    case If(branches, orelse) => BranchesAreBalanced(h, branches, orelse, loops, env, store, log, k);
    case While(cond, body, orelse) => WhileIsBalanced(h, cond, body, orelse, loops, env, store, log, k);
    case For(name, iter, body, orelse) =>
      IterKeepsOpen(h, iter, store + loops, log);
      var r := RunIter(h, iter, store + loops, log);
      if r.Done? { ForIsBalanced(h, name, r.v, body, orelse, loops, env, store, r.log, k); }
    case Try(body, caught, handler, orelse, finalbody) =>
      TryIsBalanced(h, body, caught, handler, orelse, finalbody, loops, env, store, log, k);
    case With(_, items, body) => WithIsBalanced(h, items, body, loops, env, store, log, k);
    case _ =>
  }

  lemma {:induction false} BlockIsBalanced(h: Host, body: seq<Stmt>, loops: Loops, env: Scope, store: Scope, log: Log,
                                           k: nat)
    requires UnmanagedBlock(body)
    ensures Balanced(MeanBlock(h, body, loops, env, store, log, k), log)
    decreases k, BlockSize(body), 0, 0
  {
    if body != [] {
      StmtIsBalanced(h, body[0], loops, env, store, log, k);
      var r := Mean(h, body[0], loops, env, store, log, k);
      BlockIsBalanced(h, body[1..], loops, EnvAfter(AccountStmt(body[0], loops, env), env), r.store, r.log, k);
    }
  }

  lemma {:induction false} OptIsBalanced(h: Host, o: OptBlock, loops: Loops, env: Scope, store: Scope, log: Log, k: nat)
    requires UnmanagedOpt(o)
    ensures Balanced(MeanOpt(h, o, loops, env, store, log, k), log)
    decreases k, OptSize(o), 0, 0
  {
    if o.Block? { BlockIsBalanced(h, o.body, loops, env, store, log, k); }
  }

  lemma {:induction false} BranchesAreBalanced(h: Host, branches: seq<Branch>, orelse: OptBlock, loops: Loops,
                                               env: Scope, store: Scope, log: Log, k: nat)
    requires UnmanagedBranches(branches) && UnmanagedOpt(orelse)
    ensures Balanced(MeanBranches(h, branches, orelse, loops, env, store, log, k), log)
    decreases k, BranchesSize(branches) + OptSize(orelse), 1, 0
  {
    if branches == [] {
      OptIsBalanced(h, orelse, loops, env, store, log, k);
    } else {
      ExprKeepsOpen(h, branches[0].cond, store + loops, log);
      var l := RunExpr(h, branches[0].cond, store + loops, log).log;
      BlockIsBalanced(h, branches[0].body, loops, env, store, l, k);
      BranchesAreBalanced(h, branches[1..], orelse, loops, EnvAfter(AccountBlock(branches[0].body, loops, env), env),
                          store, l, k);
    }
  }

  lemma NextRoundIsBalanced(h: Host, cond: Expr, body: seq<Stmt>, orelse: OptBlock, loops: Loops, env: Scope,
                            store: Scope, log: Log, k: nat)
    requires var c := RunExpr(h, cond, store + loops, log);
      && c.Done? && c.v == CtValue.Bool(true) && k > 0 && Open(c.log) == Open(log)
      && var r := MeanBlock(h, body, loops, env, store, c.log, k - 1);
        Balanced(r, c.log) && Balanced(MeanWhile(h, cond, body, orelse, loops, env, r.store, r.log, k - 1), r.log)
    ensures Balanced(MeanWhile(h, cond, body, orelse, loops, env, store, log, k), log)
  {
    MeanRound(h, cond, body, orelse, loops, env, store, log, k);
  }

  lemma {:induction false} WhileIsBalanced(h: Host, cond: Expr, body: seq<Stmt>, orelse: OptBlock, loops: Loops,
                                           env: Scope, store: Scope, log: Log, k: nat)
    requires Unmanaged(cond) && UnmanagedBlock(body) && UnmanagedOpt(orelse)
    ensures Balanced(MeanWhile(h, cond, body, orelse, loops, env, store, log, k), log)
    decreases k, BlockSize(body) + OptSize(orelse), 2, 0
  {
    ExprKeepsOpen(h, cond, store + loops, log);
    var c := RunExpr(h, cond, store + loops, log);
    if c.Done? && c.v == CtValue.Bool(true) && k > 0 {
      BlockIsBalanced(h, body, loops, env, store, c.log, k - 1);
      var r := MeanBlock(h, body, loops, env, store, c.log, k - 1);
      WhileIsBalanced(h, cond, body, orelse, loops, env, r.store, r.log, k - 1);
      NextRoundIsBalanced(h, cond, body, orelse, loops, env, store, log, k);
    } else {
      LastRoundIsBalanced(h, cond, body, orelse, loops, env, store, log, k);
    }
  }

  lemma {:induction false} LastRoundIsBalanced(h: Host, cond: Expr, body: seq<Stmt>, orelse: OptBlock, loops: Loops,
                                               env: Scope, store: Scope, log: Log, k: nat)
    requires Unmanaged(cond) && UnmanagedOpt(orelse)
    requires var c := RunExpr(h, cond, store + loops, log); !(c.Done? && c.v == CtValue.Bool(true) && k > 0)
    ensures Balanced(MeanWhile(h, cond, body, orelse, loops, env, store, log, k), log)
    decreases k, OptSize(orelse), 1, 0
  {
    ExprKeepsOpen(h, cond, store + loops, log);
    var c := RunExpr(h, cond, store + loops, log);
    OptIsBalanced(h, orelse, loops, EnvAfter(AccountBlock(body, loops, env), env), store, c.log, k);
  }

  lemma {:induction false} ForIsBalanced(h: Host, name: string, vs: seq<CtValue>, body: seq<Stmt>, orelse: OptBlock,
                                         loops: Loops, env: Scope, store: Scope, log: Log, k: nat)
    requires UnmanagedBlock(body) && UnmanagedOpt(orelse)
    ensures Balanced(MeanFor(h, name, vs, body, orelse, loops, env, store, log, k), log)
    decreases k, BlockSize(body) + OptSize(orelse), 1, |vs|
  {
    if vs == [] {
      OptIsBalanced(h, orelse, loops, EnvAfter(AccountBlock(body, loops, env), env), store, log, k);
    } else {
      BlockIsBalanced(h, body, loops, env, store[name := vs[0]], log, k);
      var r := MeanBlock(h, body, loops, env, store[name := vs[0]], log, k);
      ForIsBalanced(h, name, vs[1..], body, orelse, loops, env, r.store, r.log, k);
      MeanVisit(h, name, vs, body, orelse, loops, env, store, log, k);
    }
  }

  lemma {:induction false} TryIsBalanced(h: Host, body: seq<Stmt>, caught: Option<string>, handler: OptBlock,
                                         orelse: OptBlock, finalbody: OptBlock,
                                         loops: Loops, env: Scope, store: Scope, log: Log, k: nat)
    requires UnmanagedBlock(body) && UnmanagedOpt(handler) && UnmanagedOpt(orelse) && UnmanagedOpt(finalbody)
    ensures Balanced(MeanTry(h, body, caught, handler, orelse, finalbody, loops, env, store, log, k), log)
    decreases k, BlockSize(body) + OptSize(handler) + OptSize(orelse) + OptSize(finalbody), 2, 0
  {
    BlockIsBalanced(h, body, loops, env, store, log, k);
    var b := MeanBlock(h, body, loops, env, store, log, k);
    var env1 := EnvAfter(AccountBlock(body, loops, env), env);
    var env2 := EnvAfter(AccountOpt(handler, loops, env1), env1);
    var env3 := EnvAfter(AccountOpt(orelse, loops, env2), env2);
    ClausesAreBalanced(h, b, caught, handler, orelse, loops, env1, env2, log, k);
    var c := MeanClauses(h, b, caught, handler, orelse, loops, env1, env2, k);
    OptIsBalanced(h, finalbody, loops, env3, c.store, c.log, k);
  }

  lemma {:induction false} ClausesAreBalanced(h: Host, b: Run, caught: Option<string>, handler: OptBlock,
                                              orelse: OptBlock,
                                              loops: Loops, handlerEnv: Scope, elseEnv: Scope, log: Log, k: nat)
    requires UnmanagedOpt(handler) && UnmanagedOpt(orelse) && Balanced(b, log)
    ensures Balanced(MeanClauses(h, b, caught, handler, orelse, loops, handlerEnv, elseEnv, k), log)
    decreases k, OptSize(handler) + OptSize(orelse), 1, 0
  {
    if b.outcome.Raised? { OptIsBalanced(h, handler, loops, handlerEnv, Caught(b, caught), b.log, k); }
    OptIsBalanced(h, orelse, loops, elseEnv, b.store, b.log, k);
  }

  lemma {:induction false} IterationsAreBalanced(h: Host, name: string, vs: seq<CtValue>, body: seq<Stmt>,
                                                 loops: Loops, env: Scope, store: Scope, log: Log, k: nat)
    requires UnmanagedBlock(body)
    ensures Balanced(MeanIterations(h, name, vs, body, loops, env, store, log, k), log)
    decreases k, BlockSize(body), 1, |vs|
  {
    if vs != [] {
      var inner := Enter(loops, name, vs[0]);
      BlockIsBalanced(h, body, inner, env, store, log, k);
      var r := MeanBlock(h, body, inner, env, store, log, k);
      IterationsAreBalanced(h, name, vs[1..], body, loops, EnvAfter(AccountBlock(body, inner, env), env), r.store,
                            r.log, k);
    }
  }

  lemma {:induction false} WithIsBalanced(h: Host, items: seq<WithItem>, body: seq<Stmt>, loops: Loops, env: Scope,
                                          store: Scope, log: Log, k: nat)
    requires UnmanagedItems(items) && UnmanagedBlock(body)
    ensures Balanced(MeanWith(h, items, body, loops, env, store, log, k), log)
    decreases k, BlockSize(body), 1, |items|
  {
    if items == [] {
      BlockIsBalanced(h, body, loops, env, store, log, k);
    } else {
      MeanItem(h, items, body, loops, env, store, log, k);
      EnteringOpens(h, items[0].context, store + loops, log);
      var a := Entered(h, items[0].context, store + loops, log);
      if a.Done? {
        var bound := Bound(store, items[0].name, a.v.1);
        WithIsBalanced(h, items[1..], body, loops, env, bound, a.log, k);
        var rest := MeanWith(h, items[1..], body, loops, env, bound, a.log, k);
        if Completed(rest.outcome) { ReleasingCloses(h, a.v.0, rest, Open(log)); }
      }
    }
  }

  /** A manager is open exactly from the time its `__enter__` has answered. */
  lemma EnteringOpens(h: Host, context: Expr, store: Scope, log: Log)
    requires Unmanaged(context)
    ensures var a := Entered(h, context, store, log);
      if a.Done? then Open(a.log) == (if Open(log).Some? then Some(Open(log).value + [a.v.0]) else None)
      else Open(a.log) == Open(log)
  {
    ExprKeepsOpen(h, context, store, log);
    var c := RunExpr(h, context, store, log);
    if c.Done? { EnterOpens(h, c.v, c.log); }
  }

  lemma EnterSteps(open: Option<seq<CtValue>>, event: Event)
    requires event.request == Perform(Method("__enter__")) && |event.args| == 1
    ensures Step(open, event) == if event.reply.Answer? && open.Some? then Some(open.value + event.args) else open
  {
    assert IsEnter(event.request) && !IsExit(event.request);
    assert event.args == [event.args[0]];
  }

  lemma EnterOpens(h: Host, manager: CtValue, log: Log)
    ensures var a := Ask(h, Perform(Method("__enter__")), [manager], log);
      if a.Done? then Open(a.log) == (if Open(log).Some? then Some(Open(log).value + [manager]) else None)
      else Open(a.log) == Open(log)
  {
    var enter := Perform(Method("__enter__"));
    var reply := h.respond(enter, [manager], log);
    var event := Event(enter, [manager], reply);
    assert Ask(h, enter, [manager], log).log == log + [event];
    OpenAppend(log, event);
    EnterSteps(Open(log), event);
  }

  lemma ReleasingCloses(h: Host, manager: CtValue, r: Run, open: Option<seq<CtValue>>)
    requires Completed(r.outcome)
    requires Open(r.log) == if open.Some? then Some(open.value + [manager]) else None
    ensures Open(Released(h, manager, r).log) == open
  {
    var exit := Perform(Method("__exit__"));
    OpenAppend(r.log, Event(exit, [manager], h.respond(exit, [manager], r.log)));
    if open.Some? { assert (open.value + [manager])[..|open.value|] == open.value; }
  }

  /** In a run of elaborated code that completes, whatever its outcome, every manager whose `__enter__` answered has had
      `__exit__` called exactly once, innermost first, and no other manager has been exited. */
  lemma WithStatementsAreBalanced(h: Host, body: seq<Stmt>, env: Scope, fuel: nat, store: Scope, k: nat)
    requires PlainBlock(body) && UnmanagedBlock(body) && ElabBlock(body, env, fuel).Ok?
    ensures var r := ExecBlock(h, ElabBlock(body, env, fuel).value.out, store, [], k);
      Completed(r.outcome) ==> Open(r.log) == Some([])
  {
    ElaborationPreservesMeaning(h, body, env, fuel, store, [], k);
    BlockIsBalanced(h, body, map[], env, store, [], k);
  }
}
