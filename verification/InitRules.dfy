/** The checker's flow of possibly uninitialized variables, as functions. */
module InitRules {
  import opened Wrappers

  /** A literal Bool, or an expression known by the names it reads. */
  datatype Expr = Literal(b: bool) | Reads(names: seq<string>)

  datatype Branch = Branch(cond: Expr, body: seq<Stmt>)

  datatype OptBlock = NoBlock | Block(body: seq<Stmt>)

  datatype Stmt =
    | VarUninit(name: string)
    | VarInit(name: string, value: Expr)
    | Assign(name: string, value: Expr)
    | Eval(value: Expr)
    | If(branches: seq<Branch>, orelse: OptBlock)
    | While(cond: Expr, body: seq<Stmt>, orelse: OptBlock)
    | Return(value: Expr)
    | Raise(value: Expr)
    | Break
    | Continue
    | Pass

  datatype Error = Undefined | MaybeUninitialized | Redeclaration

  /** Scopes of one function, outermost first, each giving names their binding identities. */
  type Scopes = seq<map<string, nat>>

  datatype State = State(scopes: Scopes, uninit: set<nat>, next: nat)

  /** How many scopes are left when the innermost one that knows the name is the last; 0 if none does. */
  function Depth<T>(scopes: seq<map<string, T>>, name: string): (k: nat)
    ensures k <= |scopes|
    ensures k > 0 ==> name in scopes[k - 1]
    ensures forall i :: k <= i < |scopes| ==> name !in scopes[i]
  {
    if scopes == [] then 0
    else if name in scopes[|scopes| - 1] then |scopes|
    else Depth(scopes[..|scopes| - 1], name)
  }

  predicate Resolves(scopes: Scopes, name: string) {
    Depth(scopes, name) > 0
  }

  function Owner(scopes: Scopes, name: string): nat
    requires Resolves(scopes, name)
  {
    scopes[Depth(scopes, name) - 1][name]
  }

  function CheckName(name: string, s: State): Result<(), Error> {
    if !Resolves(s.scopes, name) then Err(Undefined)
    else if Owner(s.scopes, name) in s.uninit then Err(MaybeUninitialized)
    else Ok(())
  }

  function CheckNames(names: seq<string>, s: State): Result<(), Error> {
    if names == [] then Ok(())
    else
      var _ :- CheckName(names[0], s);
      CheckNames(names[1..], s)
  }

  function CheckExpr(e: Expr, s: State): Result<(), Error> {
    match e case Literal(_) => Ok(()) case Reads(names) => CheckNames(names, s)
  }

  /** A new binding in scope `i`. */
  function Bind(s: State, i: nat, name: string): State
    requires i < |s.scopes|
  {
    var scope: map<string, nat> := s.scopes[i][name := s.next];
    s.(scopes := s.scopes[i := scope], next := s.next + 1)
  }

  function Declare(s: State, name: string): Result<State, Error>
    requires s.scopes != []
  {
    var last := |s.scopes| - 1;
    if name in s.scopes[last] then Err(Redeclaration) else Ok(Bind(s, last, name))
  }

  /** Assigning to a name no scope knows introduces it in the function's own scope. */
  function DeclareImplicit(s: State, name: string): Result<State, Error>
    requires s.scopes != []
  {
    if name in s.scopes[0] then Err(Redeclaration) else Ok(Bind(s, 0, name))
  }

  // ----- names introduced in branches -----

  function Predeclare(body: seq<Stmt>, s: State): (r: Result<State, Error>)
    requires s.scopes != []
    ensures r.Ok? ==> |r.value.scopes| == |s.scopes|
    decreases body, 1
  {
    if body == [] then Ok(s)
    else
      var first :- PredeclareIn(body[0], s);
      Predeclare(body[1..], first)
  }

  function PredeclareIn(st: Stmt, s: State): (r: Result<State, Error>)
    requires s.scopes != []
    ensures r.Ok? ==> |r.value.scopes| == |s.scopes|
    decreases st, 0
  {
    match st
    case Assign(name, value) =>
      if Resolves(s.scopes, name) then Ok(s)
      else
        var _ :- CheckExpr(value, s);
        var declared :- DeclareImplicit(s, name);
        Ok(declared.(uninit := declared.uninit + {s.next}))
    case If(branches, orelse) =>
      var b :- PredeclareBranches(branches, s);
      PredeclareOpt(orelse, b)
    case While(_, body, _) => Predeclare(body, s)
    case _ => Ok(s)
  }

  function PredeclareBranches(branches: seq<Branch>, s: State): (r: Result<State, Error>)
    requires s.scopes != []
    ensures r.Ok? ==> |r.value.scopes| == |s.scopes|
    decreases branches, 1
  {
    if branches == [] then Ok(s)
    else
      var first :- Predeclare(branches[0].body, s);
      PredeclareBranches(branches[1..], first)
  }

  function PredeclareOpt(o: OptBlock, s: State): (r: Result<State, Error>)
    requires s.scopes != []
    ensures r.Ok? ==> |r.value.scopes| == |s.scopes|
    decreases o, 2
  {
    match o case NoBlock => Ok(s) case Block(body) => Predeclare(body, s)
  }

  // ----- sizes -----

  function Size(st: Stmt): nat
    decreases st, 0
  {
    match st
    case If(branches, orelse) => 1 + BranchesSize(branches) + OptSize(orelse)
    case While(_, body, orelse) => 1 + BlockSize(body) + OptSize(orelse)
    case _ => 1
  }

  function BlockSize(body: seq<Stmt>): nat
    decreases body, 1
  {
    if body == [] then 0 else 1 + Size(body[0]) + BlockSize(body[1..])
  }

  function OptSize(o: OptBlock): nat
    decreases o, 2
  {
    match o case NoBlock => 0 case Block(body) => 1 + BlockSize(body)
  }

  function BranchesSize(branches: seq<Branch>): nat
    decreases branches, 1
  {
    if branches == [] then 0 else 1 + BlockSize(branches[0].body) + BranchesSize(branches[1..])
  }

  // ----- statements -----

  function CheckStmt(st: Stmt, s: State): (r: Result<State, Error>)
    requires s.scopes != []
    ensures r.Ok? ==> |r.value.scopes| == |s.scopes|
    decreases Size(st), 0
  {
    match st
    case VarUninit(name) =>
      var declared :- Declare(s, name);
      Ok(declared.(uninit := declared.uninit + {s.next}))
    case VarInit(name, value) =>
      var _ :- CheckExpr(value, s);
      Declare(s, name)
    case Assign(name, value) =>
      var _ :- CheckExpr(value, s);
      if Resolves(s.scopes, name) then Ok(s.(uninit := s.uninit - {Owner(s.scopes, name)}))
      else
        var declared :- DeclareImplicit(s, name);
        Ok(declared.(uninit := declared.uninit - {s.next}))
    case Eval(value) => var _ :- CheckExpr(value, s); Ok(s)
    case Return(value) => var _ :- CheckExpr(value, s); Ok(s)
    case Raise(value) => var _ :- CheckExpr(value, s); Ok(s)
    case If(branches, orelse) =>
      var b :- PredeclareBranches(branches, s);
      var before :- PredeclareOpt(orelse, b);
      CheckBranches(branches, orelse, before, before.uninit, true, {})
    case While(cond, body, orelse) =>
      var before :- Predeclare(body, s);
      var _ :- CheckExpr(cond, before);
      var after :- CheckScoped(body, before);
      CheckOpt(orelse, after.(uninit := before.uninit))
    case _ => Ok(s)
  }

  function CheckBlock(body: seq<Stmt>, s: State): (r: Result<State, Error>)
    requires s.scopes != []
    ensures r.Ok? ==> |r.value.scopes| == |s.scopes|
    decreases BlockSize(body), 0
  {
    if body == [] then Ok(s)
    else
      var first :- CheckStmt(body[0], s);
      CheckBlock(body[1..], first)
  }

  function Push(s: State): State {
    s.(scopes := s.scopes + [map[]])
  }

  /** Leaving a scope forgets its bindings. */
  function Pop(s: State): State
    requires s.scopes != []
  {
    var last := |s.scopes| - 1;
    s.(scopes := s.scopes[..last], uninit := s.uninit - s.scopes[last].Values)
  }

  function CheckScoped(body: seq<Stmt>, s: State): (r: Result<State, Error>)
    requires s.scopes != []
    ensures r.Ok? ==> |r.value.scopes| == |s.scopes|
    decreases BlockSize(body), 1
  {
    var inner :- CheckBlock(body, Push(s));
    Ok(Pop(inner))
  }

  function CheckOpt(o: OptBlock, s: State): (r: Result<State, Error>)
    requires s.scopes != []
    ensures r.Ok? ==> |r.value.scopes| == |s.scopes|
    decreases OptSize(o), 1
  {
    match o case NoBlock => Ok(s) case Block(body) => CheckScoped(body, s)
  }

  /** Every branch starts from the state `before` the statement. Its state at the end counts towards `exits` if the
      branch can be reached and its condition is not literally false. */
  function CheckBranches(branches: seq<Branch>, orelse: OptBlock, s: State, before: set<nat>, reachable: bool,
                         exits: set<nat>)
    : (r: Result<State, Error>)
    requires s.scopes != []
    ensures r.Ok? ==> |r.value.scopes| == |s.scopes|
    decreases BranchesSize(branches) + OptSize(orelse), 2
  {
    var start := s.(uninit := before);
    if branches == [] then
      var after :- CheckOpt(orelse, start);
      Ok(after.(uninit := exits + if reachable then after.uninit else {}))
    else
      var cond := branches[0].cond;
      var _ :- CheckExpr(cond, start);
      var after :- CheckScoped(branches[0].body, start);
      CheckBranches(branches[1..], orelse, after, before, reachable && cond != Literal(true),
                    exits + if reachable && cond != Literal(false) then after.uninit else {})
  }

  /** A function whose parameters are initialized. */
  function CheckFunction(parameters: seq<string>, body: seq<Stmt>): Result<State, Error> {
    var s :- DeclareAll(parameters, State([map[]], {}, 0));
    CheckBlock(body, s)
  }

  function DeclareAll(parameters: seq<string>, s: State): (r: Result<State, Error>)
    requires s.scopes != []
    ensures r.Ok? ==> |r.value.scopes| == |s.scopes|
  {
    if parameters == [] then Ok(s)
    else
      var first :- Declare(s, parameters[0]);
      DeclareAll(parameters[1..], first)
  }
}
