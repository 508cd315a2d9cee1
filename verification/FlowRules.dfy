/** What the explicit-destruction pass computes, as functions on a snapshot of its environment. */
module FlowRules {
  import opened Wrappers
  import opened LinearPaths
  import opened Obligations
  import opened FlowSyntax

  /** A tracked variable. `explicitType` is set, together with `message`, for variables of linear type. */
  datatype Variable = Variable(name: string, explicitType: Option<string>, message: Option<string>, residue: Residue)

  /** Variables are never removed from `vars`; leaving a scope only drops the names bound to them. */
  datatype State = State(scopes: seq<map<string, nat>>, vars: seq<Variable>)

  const DEFAULT: State := State([], [])

  /** `Panic` is a failed `expect` on an empty scope stack. */
  datatype Verdict<+T> = Accept(value: T) | Reject(problem: Problem) | Panic {
    predicate IsFailure() {
      !Accept?
    }

    function PropagateFailure<U>(): Verdict<U>
      requires !Accept?
    {
      match this
      case Reject(problem) => Reject(problem)
      case Panic => Panic
    }

    function Extract(): T
      requires Accept?
    {
      value
    }
  }

  ghost predicate Valid(s: State) {
    forall i, n :: 0 <= i < |s.scopes| && n in s.scopes[i] ==> s.scopes[i][n] < |s.vars|
  }

  ghost predicate SameDeclaration(a: Variable, b: Variable) {
    a.name == b.name && a.explicitType == b.explicitType && a.message == b.message
  }

  ghost predicate KeepsVars(s: State, t: State) {
    |s.vars| <= |t.vars| && forall i :: 0 <= i < |s.vars| ==> SameDeclaration(s.vars[i], t.vars[i])
  }

  /** The scopes are untouched and every variable is still there. */
  ghost predicate SameShape(s: State, t: State) {
    t.scopes == s.scopes && KeepsVars(s, t)
  }

  /** As `SameShape`, except that the innermost scope may bind further names. */
  ghost predicate Grown(s: State, t: State) {
    && |t.scopes| == |s.scopes|
    && (forall i :: 0 <= i < |s.scopes| - 1 ==> t.scopes[i] == s.scopes[i])
    && KeepsVars(s, t)
  }

  // ----- the environment -----

  function Push(s: State): State {
    s.(scopes := s.scopes + [map[]])
  }

  function ExplicitName(types: Registry, ty: Option<string>): Option<string> {
    if ty.Some? && ty.value in types then ty else None
  }

  function NewVariable(types: Registry, name: string, explicit: Option<string>, live: bool): Variable {
    var message := if explicit.Some? && explicit.value in types then Some(types[explicit.value].message) else None;
    Variable(name, explicit, message, if live then WHOLE else Residue({}, {}))
  }

  function Declare(s: State, v: Variable): Verdict<State> {
    if s.scopes == [] then Panic
    else
      var last := |s.scopes| - 1;
      var scope: map<string, nat> := s.scopes[last][v.name := |s.vars|];
      Accept(State(s.scopes[last := scope], s.vars + [v]))
  }

  /** The innermost of the scopes that bind `name`. */
  function InnermostScope<V>(scopes: seq<map<string, V>>, name: string): (i: Option<nat>)
    ensures i.Some? ==> i.value < |scopes| && name in scopes[i.value]
  {
    if scopes == [] then None
    else
      var last := |scopes| - 1;
      if name in scopes[last] then Some(last) else InnermostScope(scopes[..last], name)
  }

  function Lookup(scopes: seq<map<string, nat>>, name: string): Option<nat> {
    match InnermostScope(scopes, name)
    case None => None
    case Some(i) => Some(scopes[i][name])
  }

  predicate Abandons(v: Variable) {
    v.residue.obligations != {} && v.message.Some?
  }

  predicate ScopeAbandons(s: State, scope: map<string, nat>) {
    exists n :: n in scope && scope[n] < |s.vars| && Abandons(s.vars[scope[n]])
  }

  predicate AnyAbandons(s: State) {
    exists i :: 0 <= i < |s.vars| && Abandons(s.vars[i])
  }

  function PopChecked(s: State): Verdict<State> {
    if s.scopes == [] then Panic
    else
      var last := |s.scopes| - 1;
      if ScopeAbandons(s, s.scopes[last]) then Reject(Abandoned)
      else Accept(s.(scopes := s.scopes[..last]))
  }

  function SetResidue(s: State, id: nat, r: Residue): State
    requires id < |s.vars|
  {
    s.(vars := s.vars[id := s.vars[id].(residue := r)])
  }

  predicate Consistent(before: State, after: State) {
    forall i :: 0 <= i < |before.vars| && i < |after.vars| && before.vars[i].message.Some? ==>
      before.vars[i].residue == after.vars[i].residue
  }

  function EnsureSame(before: State, after: State): Verdict<()> {
    if Consistent(before, after) then Accept(()) else Reject(Inconsistent)
  }

  /** The last exit stands for all of them once the others are found to agree with it. */
  function Join(exits: seq<State>): Verdict<State> {
    if exits == [] then Accept(DEFAULT)
    else
      var first := exits[|exits| - 1];
      if forall i :: 0 <= i < |exits| - 1 ==> Consistent(first, exits[i]) then Accept(first)
      else Reject(Inconsistent)
  }

  // ----- places -----

  /** A root variable and the fields followed from it. Indexed projections are not stable places. */
  function ObligationPlace(e: Expr, s: State): Option<(nat, Path)> {
    match e
    case Identifier(name) =>
      (match Lookup(s.scopes, name)
       case Some(id) => Some((id, []))
       case None => None)
    case Member(receiver, field) =>
      (match ObligationPlace(receiver, s)
       case Some((id, path)) => Some((id, path + [field]))
       case None => None)
    case _ => None
  }

  function RootId(e: Expr, s: State): Option<nat> {
    match e
    case Identifier(name) => Lookup(s.scopes, name)
    case Member(receiver, _) => RootId(receiver, s)
    case Index(receiver, _) => RootId(receiver, s)
    case _ => None
  }

  predicate ContainsIndex(e: Expr) {
    match e
    case Index(_, _) => true
    case Member(receiver, _) => ContainsIndex(receiver)
    case _ => false
  }

  lemma {:induction false} PlaceIsValid(e: Expr, s: State)
    requires Valid(s)
    ensures ObligationPlace(e, s).Some? ==> ObligationPlace(e, s).value.0 < |s.vars|
    ensures RootId(e, s).Some? ==> RootId(e, s).value < |s.vars|
  {
    match e
    case Identifier(name) =>
    case Member(receiver, _) => PlaceIsValid(receiver, s);
    case Index(receiver, _) => PlaceIsValid(receiver, s);
    case _ =>
  }

  function FromResult(s: State, id: nat, r: Result<Residue, Problem>): Verdict<State>
    requires id < |s.vars|
  {
    match r
    case Ok(residue) => Accept(SetResidue(s, id, residue))
    case Err(problem) => Reject(problem)
  }

  function MoveRoot(types: Registry, e: Expr, s: State): (r: Verdict<State>)
    requires Valid(s)
    ensures r.Accept? ==> Valid(r.value) && SameShape(s, r.value) && |r.value.vars| == |s.vars|
  {
    PlaceIsValid(e, s);
    var root := RootId(e, s);
    if ContainsIndex(e) && root.Some? && s.vars[root.value].explicitType.Some? then Reject(IndexedProjection)
    else match ObligationPlace(e, s) {
      case None => Accept(s)
      case Some((id, path)) =>
        match s.vars[id].explicitType {
          case None => Accept(s)
          case Some(root) => FromResult(s, id, MoveOut(types, root, s.vars[id].residue, path))
        }
    }
  }

  predicate DestructorAt(types: Registry, root: string, path: Path, name: string) {
    var ty := TypeAtPath(types, root, path);
    ty.Some? && ty.value in types && name in types[ty.value].destructors
  }

  /** The place a destructor call consumes, if `receiver^.name()` is one. */
  function DestroyedPlace(types: Registry, receiver: Expr, name: string, s: State): Option<(nat, Path)>
    requires Valid(s)
  {
    if receiver.Transfer? then
      PlaceIsValid(receiver.inner, s);
      match ObligationPlace(receiver.inner, s) {
        case Some((id, path)) =>
          var ty := s.vars[id].explicitType;
          if ty.Some? && ty.value in types && DestructorAt(types, ty.value, path, name) then Some((id, path)) else None
        case None => None
      }
    else None
  }

  function ReinitializePlace(types: Registry, place: Expr, s: State): (t: State)
    requires Valid(s)
    ensures Valid(t) && SameShape(s, t)
  {
    PlaceIsValid(place, s);
    match ObligationPlace(place, s)
    case None => s
    case Some((id, path)) =>
      match s.vars[id].explicitType
      case None => s
      case Some(root) => SetResidue(s, id, Reinitialize(types, root, s.vars[id].residue, path))
  }

  // ----- expressions -----

  function CheckExpr(types: Registry, e: Expr, s: State): (r: Verdict<State>)
    requires Valid(s)
    ensures r.Accept? ==> Valid(r.value) && SameShape(s, r.value) && |r.value.vars| == |s.vars|
    decreases e, 1
  {
    match e
    case Transfer(inner) => MoveRoot(types, inner, s)
    case MethodCall(receiver, name, args) =>
      var s1 :- CheckExprs(types, args, s);
      (match DestroyedPlace(types, receiver, name, s1)
       case Some((id, path)) =>
         PlaceIsValid(receiver.inner, s1);
         FromResult(s1, id, Destroy(types, s1.vars[id].explicitType.value, s1.vars[id].residue, path))
       case None => CheckExpr(types, receiver, s1))
    case Call(args) => CheckExprs(types, args, s)
    case Prefix(operand) => CheckExpr(types, operand, s)
    case Infix(left, right) =>
      var s1 :- CheckExpr(types, left, s);
      CheckExpr(types, right, s1)
    case Member(receiver, _) => CheckExpr(types, receiver, s)
    case Index(receiver, index) =>
      var s1 :- CheckExpr(types, receiver, s);
      CheckExpr(types, index, s1)
    case _ => Accept(s)
  }

  function CheckExprs(types: Registry, es: seq<Expr>, s: State): (r: Verdict<State>)
    requires Valid(s)
    ensures r.Accept? ==> Valid(r.value) && SameShape(s, r.value) && |r.value.vars| == |s.vars|
    decreases es, 0
  {
    if es == [] then Accept(s)
    else
      var s1 :- CheckExpr(types, es[0], s);
      CheckExprs(types, es[1..], s1)
  }

  // ----- statements -----

  function Bind(types: Registry, name: string, ty: Option<string>, s: State): (r: Verdict<State>)
    requires Valid(s)
    ensures r.Accept? ==> Valid(r.value) && Grown(s, r.value)
  {
    var explicit := ExplicitName(types, ty);
    Declare(s, NewVariable(types, name, explicit, explicit.Some?))
  }

  function Overwrite(name: string, s: State): (r: Verdict<State>)
    requires Valid(s)
    ensures r.Accept? ==> Valid(r.value) && SameShape(s, r.value)
  {
    match Lookup(s.scopes, name)
    case None => Accept(s)
    case Some(id) =>
      if Abandons(s.vars[id]) then Reject(Overwritten)
      else Accept(SetResidue(s, id, if s.vars[id].explicitType.Some? then WHOLE else Residue({}, {})))
  }

  function CheckExit(s: State): Verdict<Option<State>> {
    if AnyAbandons(s) then Reject(Abandoned) else Accept(None)
  }

  /** `Accept(None)` means that control does not continue past the statement. */
  function CheckStmt(types: Registry, st: Stmt, s: State): (r: Verdict<Option<State>>)
    requires Valid(s)
    ensures r.Accept? && r.value.Some? ==>
              Valid(r.value.value) && (Grown(s, r.value.value) || r.value.value.scopes == [])
    decreases st, 1
  {
    match st
    case VarDecl(name, ty, value) =>
      var s1 :- CheckExpr(types, value, s);
      var s2 :- Bind(types, name, ty, s1);
      Accept(Some(s2))
    case Assign(name, value) =>
      var s1 :- CheckExpr(types, value, s);
      var s2 :- Overwrite(name, s1);
      Accept(Some(s2))
    case SetPlace(place, value) =>
      var s1 :- CheckExpr(types, place, s);
      var s2 :- CheckExpr(types, value, s1);
      Accept(Some(ReinitializePlace(types, place, s2)))
    case ExprStmt(value) =>
      var s1 :- CheckExpr(types, value, s);
      Accept(Some(s1))
    case Return(result) =>
      var s1 :- (if result.Some? then CheckExpr(types, result.value, s) else Accept(s));
      CheckExit(s1)
    case Raise(value) =>
      var s1 :- CheckExpr(types, value, s);
      CheckExit(s1)
    case If(_, _) =>
      var joined :- CheckIf(types, st, s);
      Accept(Some(joined))
    case While(_, _, _) => CheckWhile(types, st, s)
    case For(_, _, _, _, _) => CheckFor(types, st, s)
    case Pass => Accept(Some(s))
  }

  function CheckWhile(types: Registry, st: Stmt, s: State): (r: Verdict<Option<State>>)
    requires Valid(s) && st.While?
    ensures r.Accept? ==> r.value.Some? && Valid(r.value.value) && SameShape(s, r.value.value)
    decreases st, 0
  {
    var s1 :- CheckExpr(types, st.cond, s);
    var _ :- CheckPass(types, st.body, s1);
    CheckOrElse(types, st.orelse, s1)
  }

  function CheckFor(types: Registry, st: Stmt, s: State): (r: Verdict<Option<State>>)
    requires Valid(s) && st.For?
    ensures r.Accept? ==> r.value.Some? && Valid(r.value.value) && SameShape(s, r.value.value)
    decreases st, 0
  {
    var s1 :- CheckExpr(types, st.iter, s);
    var _ :- CheckBoundPass(types, st.name, st.ty, st.body, s1);
    CheckOrElse(types, st.orelse, s1)
  }

  function CheckIf(types: Registry, st: Stmt, s: State): (r: Verdict<State>)
    requires Valid(s) && st.If?
    ensures r.Accept? ==> Valid(r.value) && (SameShape(s, r.value) || r.value.scopes == [])
    decreases st, 0, 1
  {
    var exits :- IfExits(types, st, s);
    Join(exits)
  }

  /** The states in which an `if` is left: by its arms, then by its `else` or by falling through. */
  function IfExits(types: Registry, st: Stmt, s: State): (r: Verdict<seq<State>>)
    requires Valid(s) && st.If?
    ensures r.Accept? ==> forall i :: 0 <= i < |r.value| ==> Valid(r.value[i]) && SameShape(s, r.value[i])
    decreases st, 0, 0
  {
    var exits :- CheckBranches(types, st.branches, s);
    match st.orelse
    case NoElse => Accept(exits + [s])
    case Else(body) =>
      var last :- CheckScoped(types, body, s);
      Accept(if last.Some? then exits + [last.value] else exits)
  }

  /** One pass through a `while` body must leave every linear variable as it found it. */
  function CheckPass(types: Registry, body: seq<Stmt>, s: State): Verdict<()>
    requires Valid(s)
    decreases body, 2
  {
    var after :- CheckScoped(types, body, s);
    if after.Some? then EnsureSame(s, after.value) else Accept(())
  }

  /** One pass through a `for` body, with the loop variable bound in the scope of the body. */
  function CheckBoundPass(types: Registry, name: string, ty: Option<string>, body: seq<Stmt>, s: State): Verdict<()>
    requires Valid(s)
    decreases body, 2
  {
    var entered :- Bind(types, name, ty, Push(s));
    var after :- CheckBlock(types, body, entered);
    if after.None? then Accept(())
    else
      var popped :- PopChecked(after.value);
      EnsureSame(s, popped)
  }

  /** The `else` of a loop, entered when the loop ends; a diverging one is ignored. */
  function CheckOrElse(types: Registry, orelse: OrElse, s: State): (r: Verdict<Option<State>>)
    requires Valid(s)
    ensures r.Accept? ==> r.value.Some? && Valid(r.value.value) && SameShape(s, r.value.value)
    decreases orelse, 2
  {
    match orelse
    case NoElse => Accept(Some(s))
    case Else(body) =>
      var after :- CheckScoped(types, body, s);
      Accept(if after.Some? then after else Some(s))
  }

  /** The states in which the arms of an `if` are left, in source order. */
  function CheckBranches(types: Registry, branches: seq<Branch>, base: State): (r: Verdict<seq<State>>)
    requires Valid(base)
    ensures r.Accept? ==> forall i :: 0 <= i < |r.value| ==> Valid(r.value[i]) && SameShape(base, r.value[i])
    decreases branches, 0
  {
    if branches == [] then Accept([])
    else
      var exit :- CheckArm(types, branches[0], base);
      var rest :- CheckBranches(types, branches[1..], base);
      Accept((if exit.Some? then [exit.value] else []) + rest)
  }

  /** Every arm starts from the state before the `if`. */
  function CheckArm(types: Registry, branch: Branch, base: State): (r: Verdict<Option<State>>)
    requires Valid(base)
    ensures r.Accept? && r.value.Some? ==> Valid(r.value.value) && SameShape(base, r.value.value)
    decreases branch, 0
  {
    var s1 :- CheckExpr(types, branch.cond, base);
    CheckScoped(types, branch.body, s1)
  }

  function CheckBlock(types: Registry, body: seq<Stmt>, s: State): (r: Verdict<Option<State>>)
    requires Valid(s)
    ensures r.Accept? && r.value.Some? ==>
              Valid(r.value.value) && (Grown(s, r.value.value) || r.value.value.scopes == [])
    decreases body, 0
  {
    if body == [] then Accept(Some(s))
    else
      var next :- CheckStmt(types, body[0], s);
      if next.None? then Accept(None) else CheckBlock(types, body[1..], next.value)
  }

  /** A block in a scope of its own. */
  function CheckScoped(types: Registry, body: seq<Stmt>, s: State): (r: Verdict<Option<State>>)
    requires Valid(s)
    ensures r.Accept? && r.value.Some? ==> Valid(r.value.value) && SameShape(s, r.value.value)
    decreases body, 1
  {
    var after :- CheckBlock(types, body, Push(s));
    if after.None? then Accept(None)
    else
      var popped :- PopChecked(after.value);
      Accept(Some(popped))
  }

  // ----- functions -----

  function DeclareParams(types: Registry, params: seq<Param>, s: State): (r: Verdict<State>)
    requires Valid(s)
    ensures r.Accept? ==> Valid(r.value)
    decreases |params|
  {
    if params == [] then Accept(s)
    else
      var p := params[0];
      var explicit := ExplicitName(types, p.ty);
      var live := explicit.Some? && (p.convention == Some(Var) || p.convention == Some(Deinit));
      var s1 :- Declare(s, NewVariable(types, p.name, explicit, live));
      DeclareParams(types, params[1..], s1)
  }

  function CheckFunction(types: Registry, f: Function): Verdict<()> {
    var s :- DeclareParams(types, f.params, Push(DEFAULT));
    var normal :- CheckBlock(types, f.body, s);
    if normal.Some? && AnyAbandons(normal.value) then Reject(Abandoned) else Accept(())
  }
}
