/** What elaborated code does when it runs, and, as a reference, what the source means when compile-time constructs
    are resolved in place as the run reaches them.

    Operators and calls are answered by an arbitrary host that sees everything asked so far, so objects with
    state are covered. A run is cut off (`Timeout`) once its loops have gone `k` rounds deep. */
module ElaborationRuns {
  import opened Wrappers
  import opened CtValues
  import opened ComptimeSyntax
  import opened ConstantFolding
  import opened ElaborationRules
  import opened ElaborationChoice
  import opened ElaborationFuel

  // ----- the host -----

  datatype Request = Negate | Invert | Compute(op: InfixOp) | Perform(operation: Operation) | Iterate

  datatype Reply = Answer(v: CtValue) | Failure(error: CtValue)

  datatype Event = Event(request: Request, args: seq<CtValue>, reply: Reply)

  type Log = seq<Event>

  datatype Host = Host(respond: (Request, seq<CtValue>, Log) -> Reply)

  /** `Lost` marks an undefined name or a value of the wrong kind, which the checker rejects beforehand. */
  datatype Evaluated<T> = Done(v: T, log: Log) | Threw(error: CtValue, log: Log) | Lost(log: Log)

  function Ask(h: Host, request: Request, args: seq<CtValue>, log: Log): (r: Evaluated<CtValue>)
    ensures !r.Lost?
  {
    var reply := h.respond(request, args, log);
    var after := log + [Event(request, args, reply)];
    match reply case Answer(v) => Done(v, after) case Failure(e) => Threw(e, after)
  }

  function RunExpr(h: Host, e: Expr, store: Scope, log: Log): Evaluated<CtValue>
    decreases e, 0
  {
    match e
    case IntLit(i) => Done(CtValue.Int(i), log)
    case FloatLit(bits) => Done(CtValue.Float(bits), log)
    case BoolLit(b) => Done(CtValue.Bool(b), log)
    case StrLit(s) => Done(CtValue.Str(s), log)
    case Identifier(name) => if name in store then Done(store[name], log) else Lost(log)
    case TupleLit(items) =>
      (match RunExprs(h, items, store, log)
       case Done(vs, l) => Done(CtValue.Tuple(vs), l) case Threw(v, l) => Threw(v, l) case Lost(l) => Lost(l))
    case ListLit(items) =>
      (match RunExprs(h, items, store, log)
       case Done(vs, l) => Done(CtValue.List(vs), l) case Threw(v, l) => Threw(v, l) case Lost(l) => Lost(l))
    case Neg(operand) =>
      (match RunExpr(h, operand, store, log) case Done(v, l) => Ask(h, Negate, [v], l) case other => other)
    case Not(operand) =>
      (match RunExpr(h, operand, store, log) case Done(v, l) => Ask(h, Invert, [v], l) case other => other)
    case Infix(op, left, right) =>
      (match RunExpr(h, left, store, log)
       case Done(a, l) =>
         if op.And? || op.Or? then
           if !a.Bool? then Lost(l) else if a.b == op.Or? then Done(a, l) else RunExpr(h, right, store, l)
         else
           (match RunExpr(h, right, store, l) case Done(b, m) => Ask(h, Compute(op), [a, b], m) case other => other)
       case other => other)
    case Apply(operation, args) =>
      (match RunExprs(h, args, store, log)
       case Done(vs, l) => Ask(h, Perform(operation), vs, l) case Threw(v, l) => Threw(v, l) case Lost(l) => Lost(l))
  }

  function RunExprs(h: Host, es: seq<Expr>, store: Scope, log: Log): Evaluated<seq<CtValue>>
    decreases es, 1
  {
    if es == [] then Done([], log)
    else
      match RunExpr(h, es[0], store, log)
      case Threw(v, l) => Threw(v, l)
      case Lost(l) => Lost(l)
      case Done(v, l) =>
        match RunExprs(h, es[1..], store, l)
        case Done(vs, m) => Done([v] + vs, m)
        case other => other
  }

  /** The values a run-time loop visits: those of a literal collection, or what the host says. */
  function RunIter(h: Host, e: Expr, store: Scope, log: Log): Evaluated<seq<CtValue>> {
    match RunExpr(h, e, store, log)
    case Threw(v, l) => Threw(v, l)
    case Lost(l) => Lost(l)
    case Done(v, l) =>
      if v.Tuple? || v.List? then Done(v.items, l)
      else
        match Ask(h, Iterate, [v], l)
        case Threw(error, m) => Threw(error, m)
        case Lost(m) => Lost(m)
        case Done(w, m) => if w.Tuple? || w.List? then Done(w.items, m) else Lost(m)
  }

  // ----- runs of elaborated code -----

  datatype Outcome = Normal | Broke | Continued | Returned(v: CtValue) | Raised(error: CtValue) | Timeout | Stuck

  predicate Completed(o: Outcome) {
    !o.Timeout? && !o.Stuck?
  }

  datatype Run = Run(outcome: Outcome, store: Scope, log: Log)

  /** A statement that stores a value, discards it or leaves with it. */
  function Stored(r: Evaluated<CtValue>, name: string, store: Scope): Run {
    match r
    case Done(v, l) => Run(Normal, store[name := v], l)
    case Threw(e, l) => Run(Raised(e), store, l)
    case Lost(l) => Run(Stuck, store, l)
  }

  function Discarded(r: Evaluated<CtValue>, store: Scope): Run {
    match r
    case Done(v, l) => Run(Normal, store, l)
    case Threw(e, l) => Run(Raised(e), store, l)
    case Lost(l) => Run(Stuck, store, l)
  }

  function Left(r: Evaluated<CtValue>, raising: bool, store: Scope): Run {
    match r
    case Done(v, l) => Run(if raising then Raised(v) else Returned(v), store, l)
    case Threw(e, l) => Run(Raised(e), store, l)
    case Lost(l) => Run(Stuck, store, l)
  }

  /** The outcome of a `finally` block replaces the one it interrupted unless it is normal. */
  function Resumed(before: Run, cleanup: Run): Run {
    if cleanup.outcome.Normal? then cleanup.(outcome := before.outcome) else cleanup
  }

  /** The state an exception handler starts in. */
  function Caught(r: Run, caught: Option<string>): Scope
    requires r.outcome.Raised?
  {
    if caught.Some? then r.store[caught.value := r.outcome.error] else r.store
  }

  function Exec(h: Host, st: Stmt, store: Scope, log: Log, k: nat): Run
    decreases k, Size(st), 1, 0
  {
    match st
    case Comptime(name, value) => Stored(RunExpr(h, value, store, log), name, store)
    case VarDecl(name, value) => Stored(RunExpr(h, value, store, log), name, store)
    case Assign(name, value) => Stored(RunExpr(h, value, store, log), name, store)
    case ExprStmt(value) => Discarded(RunExpr(h, value, store, log), store)
    case If(branches, orelse) => ExecBranches(h, branches, orelse, store, log, k)
    case While(cond, body, orelse) => ExecWhile(h, cond, body, orelse, store, log, k)
    case For(name, iter, body, orelse) =>
      (match RunIter(h, iter, store, log)
       case Done(vs, l) => ExecFor(h, name, vs, body, orelse, store, l, k)
       case Threw(e, l) => Run(Raised(e), store, l)
       case Lost(l) => Run(Stuck, store, l))
    case Try(body, caught, handler, orelse, finalbody) =>
      var b := ExecBlock(h, body, store, log, k);
      var c := ExecClauses(h, b, caught, handler, orelse, k);
      if !Completed(c.outcome) then c else Resumed(c, ExecOpt(h, finalbody, c.store, c.log, k))
    case Return(value) => Left(RunExpr(h, value, store, log), false, store)
    case Raise(value) => Left(RunExpr(h, value, store, log), true, store)
    case Break => Run(Broke, store, log)
    case Continue => Run(Continued, store, log)
    case Pass => Run(Normal, store, log)
    case _ => Run(Stuck, store, log)  // compile-time and `with` statements have no run-time form
  }

  function ExecBlock(h: Host, body: seq<Stmt>, store: Scope, log: Log, k: nat): Run
    decreases k, BlockSize(body), 0, 0
  {
    if body == [] then Run(Normal, store, log)
    else
      var r := Exec(h, body[0], store, log, k);
      if r.outcome.Normal? then ExecBlock(h, body[1..], r.store, r.log, k) else r
  }

  function ExecOpt(h: Host, o: OptBlock, store: Scope, log: Log, k: nat): Run
    decreases k, OptSize(o), 0, 0
  {
    match o case NoBlock => Run(Normal, store, log) case Block(body) => ExecBlock(h, body, store, log, k)
  }

  /** The `except` or `else` clause that follows the body of a `try`. */
  function ExecClauses(h: Host, b: Run, caught: Option<string>, handler: OptBlock, orelse: OptBlock, k: nat): Run
    decreases k, OptSize(handler) + OptSize(orelse), 1, 0
  {
    if b.outcome.Raised? && handler.Block? then ExecOpt(h, handler, Caught(b, caught), b.log, k)
    else if b.outcome.Normal? then ExecOpt(h, orelse, b.store, b.log, k)
    else b
  }

  function ExecBranches(h: Host, branches: seq<Branch>, orelse: OptBlock, store: Scope, log: Log, k: nat): Run
    decreases k, BranchesSize(branches) + OptSize(orelse), 1, 0
  {
    if branches == [] then ExecOpt(h, orelse, store, log, k)
    else
      match RunExpr(h, branches[0].cond, store, log)
      case Threw(e, l) => Run(Raised(e), store, l)
      case Lost(l) => Run(Stuck, store, l)
      case Done(v, l) =>
        if !v.Bool? then Run(Stuck, store, l)
        else if v.b then ExecBlock(h, branches[0].body, store, l, k)
        else ExecBranches(h, branches[1..], orelse, store, l, k)
  }

  function ExecWhile(h: Host, cond: Expr, body: seq<Stmt>, orelse: OptBlock, store: Scope, log: Log, k: nat): Run
    decreases k, BlockSize(body) + OptSize(orelse), 1, 0
  {
    match RunExpr(h, cond, store, log)
    case Threw(e, l) => Run(Raised(e), store, l)
    case Lost(l) => Run(Stuck, store, l)
    case Done(v, l) =>
      if !v.Bool? then Run(Stuck, store, l)
      else if !v.b then ExecOpt(h, orelse, store, l, k)
      else if k == 0 then Run(Timeout, store, l)
      else
        var r := ExecBlock(h, body, store, l, k - 1);
        if r.outcome.Normal? || r.outcome.Continued? then ExecWhile(h, cond, body, orelse, r.store, r.log, k - 1)
        else if r.outcome.Broke? then r.(outcome := Normal)
        else r
  }

  function ExecFor(h: Host, name: string, vs: seq<CtValue>, body: seq<Stmt>, orelse: OptBlock, store: Scope, log: Log,
                   k: nat): Run
    decreases k, BlockSize(body) + OptSize(orelse), 1, |vs|
  {
    if vs == [] then ExecOpt(h, orelse, store, log, k)
    else
      var r := ExecBlock(h, body, store[name := vs[0]], log, k);
      if r.outcome.Normal? || r.outcome.Continued? then ExecFor(h, name, vs[1..], body, orelse, r.store, r.log, k)
      else if r.outcome.Broke? then r.(outcome := Normal)
      else r
  }

  // ----- the reference meaning of the source -----

  function EnvAfter(account: Result<Account, Error>, env: Scope): Scope {
    if account.Ok? then account.value.env else env
  }

  /** `env` is the compile-time environment, which follows the order of the source text whatever path the run takes;
      loop variables take precedence over it and over the store. */
  function Mean(h: Host, st: Stmt, loops: Loops, env: Scope, store: Scope, log: Log, k: nat): Run
    decreases k, Size(st), 1, 0
  {
    match st
    case Comptime(name, value) =>
      (match Eval(value, env + loops)
       case Ok(v) => Run(Normal, if Materialize(v).Some? then store[name := Canonical(v)] else store, log)
       case Err(_) => Run(Stuck, store, log))
    case ComptimeIf(branches, orelse) =>
      var taken := Chosen(branches, orelse, env + loops);
      if taken.Ok? then MeanBlock(h, taken.value, loops, env, store, log, k)
      else Run(Stuck, store, log)
    case ComptimeFor(name, iter, body) =>
      (match LoopValues(iter, env + loops)
       case Ok(vs) => MeanIterations(h, name, vs, body, loops, env, store, log, k)
       case Err(_) => Run(Stuck, store, log))
    case VarDecl(name, value) => Stored(RunExpr(h, value, store + loops, log), name, store)
    case Assign(name, value) => Stored(RunExpr(h, value, store + loops, log), name, store)
    case ExprStmt(value) => Discarded(RunExpr(h, value, store + loops, log), store)
    case If(branches, orelse) => MeanBranches(h, branches, orelse, loops, env, store, log, k)
    case While(cond, body, orelse) => MeanWhile(h, cond, body, orelse, loops, env, store, log, k)
    case For(name, iter, body, orelse) =>
      (match RunIter(h, iter, store + loops, log)
       case Done(vs, l) => MeanFor(h, name, vs, body, orelse, loops, env, store, l, k)
       case Threw(e, l) => Run(Raised(e), store, l)
       case Lost(l) => Run(Stuck, store, l))
    case Try(body, caught, handler, orelse, finalbody) =>
      MeanTry(h, body, caught, handler, orelse, finalbody, loops, env, store, log, k)
    case With(_, items, body) => MeanWith(h, items, body, loops, env, store, log, k)
    case Return(value) => Left(RunExpr(h, value, store + loops, log), false, store)
    case Raise(value) => Left(RunExpr(h, value, store + loops, log), true, store)
    case Break => Run(Broke, store, log)
    case Continue => Run(Continued, store, log)
    case Pass => Run(Normal, store, log)
  }

  function MeanBlock(h: Host, body: seq<Stmt>, loops: Loops, env: Scope, store: Scope, log: Log, k: nat): Run
    decreases k, BlockSize(body), 0, 0
  {
    if body == [] then Run(Normal, store, log)
    else
      var r := Mean(h, body[0], loops, env, store, log, k);
      if r.outcome.Normal? then
        MeanBlock(h, body[1..], loops, EnvAfter(AccountStmt(body[0], loops, env), env), r.store, r.log, k)
      else r
  }

  function MeanOpt(h: Host, o: OptBlock, loops: Loops, env: Scope, store: Scope, log: Log, k: nat): Run
    decreases k, OptSize(o), 0, 0
  {
    match o case NoBlock => Run(Normal, store, log) case Block(body) => MeanBlock(h, body, loops, env, store, log, k)
  }

  function MeanBranches(h: Host, branches: seq<Branch>, orelse: OptBlock, loops: Loops, env: Scope, store: Scope,
                        log: Log, k: nat): Run
    decreases k, BranchesSize(branches) + OptSize(orelse), 1, 0
  {
    if branches == [] then MeanOpt(h, orelse, loops, env, store, log, k)
    else
      match RunExpr(h, branches[0].cond, store + loops, log)
      case Threw(e, l) => Run(Raised(e), store, l)
      case Lost(l) => Run(Stuck, store, l)
      case Done(v, l) =>
        if !v.Bool? then Run(Stuck, store, l)
        else if v.b then MeanBlock(h, branches[0].body, loops, env, store, l, k)
        else MeanBranches(h, branches[1..], orelse, loops, EnvAfter(AccountBlock(branches[0].body, loops, env), env),
                          store, l, k)
  }

  function MeanWhile(h: Host, cond: Expr, body: seq<Stmt>, orelse: OptBlock, loops: Loops, env: Scope, store: Scope,
                     log: Log, k: nat): Run
    decreases k, BlockSize(body) + OptSize(orelse), 1, 0
  {
    match RunExpr(h, cond, store + loops, log)
    case Threw(e, l) => Run(Raised(e), store, l)
    case Lost(l) => Run(Stuck, store, l)
    case Done(v, l) =>
      if !v.Bool? then Run(Stuck, store, l)
      else if !v.b then MeanOpt(h, orelse, loops, EnvAfter(AccountBlock(body, loops, env), env), store, l, k)
      else if k == 0 then Run(Timeout, store, l)
      else
        var r := MeanBlock(h, body, loops, env, store, l, k - 1);
        if r.outcome.Normal? || r.outcome.Continued?
          then MeanWhile(h, cond, body, orelse, loops, env, r.store, r.log, k - 1)
        else if r.outcome.Broke? then r.(outcome := Normal)
        else r
  }

  function MeanFor(h: Host, name: string, vs: seq<CtValue>, body: seq<Stmt>, orelse: OptBlock,
                   loops: Loops, env: Scope, store: Scope, log: Log, k: nat): Run
    decreases k, BlockSize(body) + OptSize(orelse), 1, |vs|
  {
    if vs == [] then MeanOpt(h, orelse, loops, EnvAfter(AccountBlock(body, loops, env), env), store, log, k)
    else
      var r := MeanBlock(h, body, loops, env, store[name := vs[0]], log, k);
      if r.outcome.Normal? || r.outcome.Continued?
        then MeanFor(h, name, vs[1..], body, orelse, loops, env, r.store, r.log, k)
      else if r.outcome.Broke? then r.(outcome := Normal)
      else r
  }

  function MeanTry(h: Host, body: seq<Stmt>, caught: Option<string>, handler: OptBlock, orelse: OptBlock,
                   finalbody: OptBlock,
                   loops: Loops, env: Scope, store: Scope, log: Log, k: nat): Run
    decreases k, BlockSize(body) + OptSize(handler) + OptSize(orelse) + OptSize(finalbody), 2, 0
  {
    var b := MeanBlock(h, body, loops, env, store, log, k);
    var env1 := EnvAfter(AccountBlock(body, loops, env), env);
    var env2 := EnvAfter(AccountOpt(handler, loops, env1), env1);
    var env3 := EnvAfter(AccountOpt(orelse, loops, env2), env2);
    var c := MeanClauses(h, b, caught, handler, orelse, loops, env1, env2, k);
    if !Completed(c.outcome) then c else Resumed(c, MeanOpt(h, finalbody, loops, env3, c.store, c.log, k))
  }

  function MeanClauses(h: Host, b: Run, caught: Option<string>, handler: OptBlock, orelse: OptBlock,
                       loops: Loops, handlerEnv: Scope, elseEnv: Scope, k: nat): Run
    decreases k, OptSize(handler) + OptSize(orelse), 1, 0
  {
    if b.outcome.Raised? && handler.Block? then MeanOpt(h, handler, loops, handlerEnv, Caught(b, caught), b.log, k)
    else if b.outcome.Normal? then MeanOpt(h, orelse, loops, elseEnv, b.store, b.log, k)
    else b
  }

  /** The iterations of a `comptime for`, one after the other, each seeing what the one before it left behind. */
  function MeanIterations(h: Host, name: string, vs: seq<CtValue>, body: seq<Stmt>,
                          loops: Loops, env: Scope, store: Scope, log: Log, k: nat): Run
    decreases k, BlockSize(body), 1, |vs|
  {
    if vs == [] then Run(Normal, store, log)
    else
      var inner := Enter(loops, name, vs[0]);
      var r := MeanBlock(h, body, inner, env, store, log, k);
      if r.outcome.Normal? then MeanIterations(h, name, vs[1..], body, loops,
                                               EnvAfter(AccountBlock(body, inner, env), env), r.store, r.log, k)
      else r
  }

  /** A `with` statement holds each manager it has entered until the rest of the statement is over, however it ends. */
  function MeanWith(h: Host, items: seq<WithItem>, body: seq<Stmt>, loops: Loops, env: Scope, store: Scope, log: Log,
                    k: nat): Run
    decreases k, BlockSize(body), 1, |items|
  {
    if items == [] then MeanBlock(h, body, loops, env, store, log, k)
    else
      match RunExpr(h, items[0].context, store + loops, log)
      case Threw(e, l) => Run(Raised(e), store, l)
      case Lost(l) => Run(Stuck, store, l)
      case Done(manager, l) =>
        match Ask(h, Perform(Method("__enter__")), [manager], l)
        case Threw(e, m) => Run(Raised(e), store, m)
        case Lost(m) => Run(Stuck, store, m)
        case Done(v, m) =>
          var bound := if items[0].name.Some? then store[items[0].name.value := v] else store;
          Released(h, manager, MeanWith(h, items[1..], body, loops, env, bound, m, k))
  }

  function Released(h: Host, manager: CtValue, r: Run): Run {
    if !Completed(r.outcome) then r
    else
      match Ask(h, Perform(Method("__exit__")), [manager], r.log)
      case Done(_, l) => r.(log := l)
      case Threw(e, l) => Run(Raised(e), r.store, l)
      case Lost(l) => Run(Stuck, r.store, l)
  }
}
