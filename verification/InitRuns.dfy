/** Runs of a function as far as variables being assigned goes. */
module InitRuns {
  import opened InitRules

  /** Scopes at run time; a variable is mapped to whether it has been assigned. */
  type Store = seq<map<string, bool>>

  /** What decides a run: the arm an `if` takes and the rounds a loop makes. */
  datatype Choice = Plain | Arm(index: nat, body: seq<Choice>) | Rounds(rounds: seq<seq<Choice>>, orelse: seq<Choice>)

  /** `Fault` is the read of a variable that has not been assigned; `NotARun` marks choices that do not fit. */
  datatype Outcome = Normal(store: Store) | Broke(store: Store) | Continued(store: Store) | Exited | Fault | NotARun

  predicate Running(o: Outcome) {
    o.Normal? || o.Broke? || o.Continued?
  }

  predicate Assigned(name: string, d: Store) {
    Depth(d, name) > 0 && d[Depth(d, name) - 1][name]
  }

  predicate CanRead(e: Expr, d: Store) {
    e.Reads? ==> forall n <- e.names :: Assigned(n, d)
  }

  predicate MayBe(cond: Expr, b: bool) {
    cond != Literal(!b)
  }

  /** Assignment goes to the innermost variable of that name, or makes one in the function's own scope. */
  function Set(d: Store, name: string): Store
    requires d != []
  {
    var i := if Depth(d, name) > 0 then Depth(d, name) - 1 else 0;
    d[i := d[i][name := true]]
  }

  function Make(d: Store, name: string, b: bool): Store
    requires d != []
  {
    d[|d| - 1 := d[|d| - 1][name := b]]
  }

  function RunStmt(st: Stmt, c: Choice, d: Store): (o: Outcome)
    requires d != []
    ensures Running(o) ==> |o.store| == |d|
    decreases Size(st), 0, 0
  {
    match st
    case VarUninit(name) => Normal(Make(d, name, false))
    case VarInit(name, value) => if CanRead(value, d) then Normal(Make(d, name, true)) else Fault
    case Assign(name, value) => if CanRead(value, d) then Normal(Set(d, name)) else Fault
    case Eval(value) => if CanRead(value, d) then Normal(d) else Fault
    case Return(value) => if CanRead(value, d) then Exited else Fault
    case Raise(value) => if CanRead(value, d) then Exited else Fault
    case Break => Broke(d)
    case Continue => Continued(d)
    case Pass => Normal(d)
    case If(branches, orelse) => if c.Arm? then RunArm(branches, orelse, c.index, c.body, d) else NotARun
    case While(cond, body, orelse) => if c.Rounds? then RunLoop(cond, body, orelse, c.rounds, c.orelse, d) else NotARun
  }

  function RunBlock(body: seq<Stmt>, cs: seq<Choice>, d: Store): (o: Outcome)
    requires d != []
    ensures Running(o) ==> |o.store| == |d|
    decreases BlockSize(body), 0, 0
  {
    if body == [] then Normal(d)
    else if cs == [] then NotARun
    else
      var o := RunStmt(body[0], cs[0], d);
      if o.Normal? then RunBlock(body[1..], cs[1..], o.store) else o
  }

  function Popped(o: Outcome): Outcome
    requires Running(o) ==> o.store != []
  {
    match o
    case Normal(d) => Normal(d[..|d| - 1])
    case Broke(d) => Broke(d[..|d| - 1])
    case Continued(d) => Continued(d[..|d| - 1])
    case _ => o
  }

  function RunScoped(body: seq<Stmt>, cs: seq<Choice>, d: Store): (o: Outcome)
    ensures Running(o) ==> |o.store| == |d|
    decreases BlockSize(body), 1, 0
  {
    Popped(RunBlock(body, cs, d + [map[]]))
  }

  /** Conditions are evaluated in turn up to the arm taken; `index` past the last branch means `else`, or nothing. */
  function RunArm(branches: seq<Branch>, orelse: OptBlock, index: nat, cs: seq<Choice>, d: Store): (o: Outcome)
    ensures Running(o) ==> |o.store| == |d|
    decreases BranchesSize(branches) + OptSize(orelse), 2, 0
  {
    if branches == [] then
      if index != 0 then NotARun else match orelse case NoBlock => Normal(d) case Block(body) => RunScoped(body, cs, d)
    else if !CanRead(branches[0].cond, d) then Fault
    else if index == 0 then
      if MayBe(branches[0].cond, true) then RunScoped(branches[0].body, cs, d) else NotARun
    else if MayBe(branches[0].cond, false) then RunArm(branches[1..], orelse, index - 1, cs, d)
    else NotARun
  }

  function RunLoop(cond: Expr, body: seq<Stmt>, orelse: OptBlock, rounds: seq<seq<Choice>>, after: seq<Choice>,
                   d: Store): (o: Outcome)
    ensures Running(o) ==> |o.store| == |d|
    decreases BlockSize(body) + OptSize(orelse), 2, |rounds|
  {
    if !CanRead(cond, d) then Fault
    else if rounds == [] then
      if !MayBe(cond, false) then NotARun
      else match orelse case NoBlock => Normal(d) case Block(b) => RunScoped(b, after, d)
    else if !MayBe(cond, true) then NotARun
    else
      var o := RunScoped(body, rounds[0], d);
      if o.Normal? || o.Continued? then RunLoop(cond, body, orelse, rounds[1..], after, o.store)
      else if o.Broke? then Normal(o.store)
      else o
  }

  function Enter(parameters: seq<string>, d: Store): (r: Store)
    requires d != []
    ensures |r| == |d|
  {
    if parameters == [] then d else Enter(parameters[1..], Make(d, parameters[0], true))
  }

  function RunFunction(parameters: seq<string>, body: seq<Stmt>, cs: seq<Choice>): Outcome {
    RunBlock(body, cs, Enter(parameters, [map[]]))
  }
}
