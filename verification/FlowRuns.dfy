/** What a function concretely does to the linear values its variables hold, over every run.

    A run is fixed by the arms taken, the number of rounds of each loop and the values produced. `Outside`
    marks runs the pass promises nothing about: those the later ownership pass or the type checker rejects,
    and a few forms of field assignment. */
module FlowRuns {
  import opened Wrappers
  import opened LinearPaths
  import opened LinearValues
  import opened FlowSyntax
  import FlowRules

  /** A variable in scope; `ty` is its linear type, if it has one. */
  datatype Slot = Slot(ty: Option<string>, value: Value)

  type Frames = seq<map<string, Slot>>

  datatype Fault =
    | AbandonedValue      // a scope or the function was left with a destructor still owed
    | OverwrittenValue    // a variable was assigned while it owed a destructor
    | DestroyedMissing    // a destructor ran on a value that was gone or incomplete

  datatype Reason =
    | NotARun             // the choices do not fit the statements
    | MovesUnavailable    // transfer of a moved or partly moved place
    | MovesNonPlace       // transfer of an indexed projection or a temporary
    | TransferInCondition
    | Redeclares
    | BorrowsLinear       // a linear parameter that is not passed by ownership
    | FieldOfMissing      // assignment to a field of a moved-out value
    | OverwritesField     // assignment to a field that still owes a destructor
    | CompletesAncestor   // assignment to a field that makes an enclosing value intact, but not the variable

  datatype Outcome =
    | Normal(frames: Frames)
    | Exited
    | Broken(fault: Fault)
    | Outside(reason: Reason)

  /** `Leaf` carries the value a declaration or assignment stores. */
  datatype Choice =
    | Leaf(stored: Value)
    | Arm(index: nat, body: seq<Choice>)
    | Loop(rounds: seq<Round>, orelse: seq<Choice>)

  datatype Round = Round(item: Value, body: seq<Choice>)

  datatype Place = Place(level: nat, name: string, path: Path)

  function PlaceOf(e: Expr, fs: Frames): (p: Option<Place>)
    ensures p.Some? ==> p.value.level < |fs| && p.value.name in fs[p.value.level]
  {
    match e
    case Identifier(name) =>
      (match FlowRules.InnermostScope(fs, name)
       case Some(level) => Some(Place(level, name, []))
       case None => None)
    case Member(receiver, field) =>
      (match PlaceOf(receiver, fs)
       case Some(p) => Some(p.(path := p.path + [field]))
       case None => None)
    case _ => None
  }

  predicate IsPlace(e: Expr) {
    match e
    case Identifier(_) => true
    case Member(receiver, _) => IsPlace(receiver)
    case _ => false
  }

  predicate HasTransfer(e: Expr) {
    match e
    case Transfer(_) => true
    case Member(receiver, _) => HasTransfer(receiver)
    case Index(receiver, index) => HasTransfer(receiver) || HasTransfer(index)
    case Prefix(operand) => HasTransfer(operand)
    case Infix(left, right) => HasTransfer(left) || HasTransfer(right)
    case Call(args) => exists i :: 0 <= i < |args| && HasTransfer(args[i])
    case MethodCall(receiver, _, args) => HasTransfer(receiver) || exists i :: 0 <= i < |args| && HasTransfer(args[i])
    case _ => false
  }

  ghost predicate SlotOwes(types: Registry, slot: Slot) {
    slot.ty.Some? && OwesAnything(types, slot.ty.value, slot.value)
  }

  ghost predicate FrameOwes(types: Registry, frame: map<string, Slot>) {
    exists n :: n in frame && SlotOwes(types, frame[n])
  }

  ghost predicate AnyOwes(types: Registry, fs: Frames) {
    exists i :: 0 <= i < |fs| && FrameOwes(types, fs[i])
  }

  function SetSlot(fs: Frames, level: nat, name: string, value: Value): Frames
    requires level < |fs| && name in fs[level]
  {
    var slot := fs[level][name].(value := value);
    var frame: map<string, Slot> := fs[level][name := slot];
    fs[level := frame]
  }

  /** The subobject at the place leaves the variable. */
  ghost function TakeOut(types: Registry, fs: Frames, p: Place, otherwise: Outcome): (r: Outcome)
    requires p.level < |fs| && p.name in fs[p.level]
    ensures r.Normal? ==> |r.frames| == |fs| || r == otherwise
  {
    var slot := fs[p.level][p.name];
    if slot.ty.None? then Normal(fs)
    else if WholeAt(slot.value, p.path) then Normal(SetSlot(fs, p.level, p.name, Replace(slot.value, p.path, Gone)))
    else otherwise
  }

  ghost function TransferOut(types: Registry, e: Expr, fs: Frames): (r: Outcome)
    ensures r.Normal? ==> |r.frames| == |fs|
  {
    if !IsPlace(e) then Outside(MovesNonPlace)
    else match PlaceOf(e, fs) {
      case None => Normal(fs)
      case Some(p) => TakeOut(types, fs, p, Outside(MovesUnavailable))
    }
  }

  /** The place a call `place^.name()` destroys, when the type of the place has such a destructor. */
  function DestroyedPlace(types: Registry, receiver: Expr, name: string, fs: Frames): (p: Option<Place>)
    ensures p.Some? ==> p.value.level < |fs| && p.value.name in fs[p.value.level]
  {
    if receiver.Transfer? then
      match PlaceOf(receiver.inner, fs) {
        case Some(p) =>
          var ty := fs[p.level][p.name].ty;
          if ty.Some? && FlowRules.DestructorAt(types, ty.value, p.path, name) then Some(p) else None
        case None => None
      }
    else None
  }

  ghost function EvalExpr(types: Registry, e: Expr, fs: Frames): (r: Outcome)
    ensures r.Normal? ==> |r.frames| == |fs|
    decreases e, 1
  {
    match e
    case Transfer(inner) => TransferOut(types, inner, fs)
    case MethodCall(receiver, name, args) =>
      (match EvalExprs(types, args, fs)
       case Normal(fs1) =>
         (match DestroyedPlace(types, receiver, name, fs1)
          case Some(p) => TakeOut(types, fs1, p, Broken(DestroyedMissing))
          case None => EvalExpr(types, receiver, fs1))
       case stopped => stopped)
    case Call(args) => EvalExprs(types, args, fs)
    case Prefix(operand) => EvalExpr(types, operand, fs)
    case Infix(left, right) =>
      (match EvalExpr(types, left, fs)
       case Normal(fs1) => EvalExpr(types, right, fs1)
       case stopped => stopped)
    case Member(receiver, _) => EvalExpr(types, receiver, fs)
    case Index(receiver, index) =>
      (match EvalExpr(types, receiver, fs)
       case Normal(fs1) => EvalExpr(types, index, fs1)
       case stopped => stopped)
    case _ => Normal(fs)
  }

  ghost function EvalExprs(types: Registry, es: seq<Expr>, fs: Frames): (r: Outcome)
    ensures r.Normal? ==> |r.frames| == |fs|
    decreases es, 0
  {
    if es == [] then Normal(fs)
    else
      match EvalExpr(types, es[0], fs)
      case Normal(fs1) => EvalExprs(types, es[1..], fs1)
      case stopped => stopped
  }

  /** A condition is evaluated for its truth value only. */
  ghost function EvalCondition(types: Registry, e: Expr, fs: Frames): (r: Outcome)
    ensures r.Normal? ==> |r.frames| == |fs|
  {
    if HasTransfer(e) then Outside(TransferInCondition) else EvalExpr(types, e, fs)
  }

  ghost predicate Fits(types: Registry, ty: Option<string>, v: Value) {
    ty.Some? ==> Whole(v) && WellTyped(types, ty.value, v)
  }

  ghost function Bind(types: Registry, name: string, ty: Option<string>, stored: Value, fs: Frames): (r: Outcome)
    requires |fs| > 0
    ensures r.Normal? ==> |r.frames| == |fs|
  {
    var last := |fs| - 1;
    var linear := FlowRules.ExplicitName(types, ty);
    if name in fs[last] then Outside(Redeclares)
    else if !Fits(types, linear, stored) then Outside(NotARun)
    else
      var frame: map<string, Slot> := fs[last][name := Slot(linear, stored)];
      Normal(fs[last := frame])
  }

  ghost function Overwrite(types: Registry, name: string, stored: Value, fs: Frames): (r: Outcome)
    ensures r.Normal? ==> |r.frames| == |fs|
  {
    match FlowRules.InnermostScope(fs, name)
    case None => Normal(fs)
    case Some(level) =>
      var slot := fs[level][name];
      if SlotOwes(types, slot) then Broken(OverwrittenValue)
      else if !Fits(types, slot.ty, stored) then Outside(NotARun)
      else Normal(SetSlot(fs, level, name, stored))
  }

  /** What a value of linear type `ty` becomes when `stored` is assigned below it. An ordinary field the value does not
      show stays out of account. */
  ghost function Fill(types: Registry, ty: string, value: Value, path: Path, stored: Value): (r: Result<Value, Reason>)
    ensures r.Ok? ==>
      r.value == if At(value, path).Some? then Replace(value, path, stored) else value
  {
    var fieldTy := TypeAtPath(types, ty, path);
    if exists k :: 0 <= k < |path| && HoleAt(value, path[..k]) then Err(FieldOfMissing)
    else if !Whole(stored) || !Fits(types, fieldTy, stored) then Err(NotARun)
    else if At(value, path).None? then if fieldTy.None? then Ok(value) else Err(NotARun)
    else if fieldTy.Some? && OwesAnything(types, fieldTy.value, At(value, path).value) then Err(OverwritesField)
    else if Completes(types, ty, value, path, stored) then Err(CompletesAncestor)
    else Ok(Replace(value, path, stored))
  }

  /** Filling a hole at or below `path` makes an enclosing linear value intact, but not the whole of `value`. */
  ghost predicate Completes(types: Registry, ty: string, value: Value, path: Path, stored: Value)
    requires At(value, path).Some?
  {
    var after := Replace(value, path, stored);
    && !WholeAt(value, path) && !Whole(after)
    && exists k :: 0 <= k < |path| && Linear(types, ty, path[..k]) && WholeAt(after, path[..k])
  }

  ghost function WriteField(types: Registry, place: Expr, stored: Value, fs: Frames): (r: Outcome)
    ensures r.Normal? ==> |r.frames| == |fs|
  {
    match PlaceOf(place, fs)
    case None => Normal(fs)
    case Some(p) =>
      var slot := fs[p.level][p.name];
      if slot.ty.None? then Normal(fs)
      else
        match Fill(types, slot.ty.value, slot.value, p.path, stored)
        case Ok(value) => Normal(SetSlot(fs, p.level, p.name, value))
        case Err(reason) => Outside(reason)
  }

  ghost function Exit(types: Registry, r: Outcome): Outcome {
    match r
    case Normal(fs) => if AnyOwes(types, fs) then Broken(AbandonedValue) else Exited
    case stopped => stopped
  }

  ghost function Leave(types: Registry, r: Outcome): (left: Outcome)
    requires r.Normal? ==> |r.frames| > 0
    ensures left.Normal? ==> r.Normal? && |left.frames| == |r.frames| - 1
  {
    match r
    case Normal(fs) =>
      var last := |fs| - 1;
      if FrameOwes(types, fs[last]) then Broken(AbandonedValue) else Normal(fs[..last])
    case stopped => stopped
  }

  ghost function ExecStmt(types: Registry, st: Stmt, c: Choice, fs: Frames): (r: Outcome)
    requires |fs| > 0
    ensures r.Normal? ==> |r.frames| == |fs|
    decreases st, 1
  {
    match st
    case VarDecl(name, ty, value) =>
      (match EvalExpr(types, value, fs)
       case Normal(fs1) => if c.Leaf? then Bind(types, name, ty, c.stored, fs1) else Outside(NotARun)
       case stopped => stopped)
    case Assign(name, value) =>
      (match EvalExpr(types, value, fs)
       case Normal(fs1) => if c.Leaf? then Overwrite(types, name, c.stored, fs1) else Outside(NotARun)
       case stopped => stopped)
    case SetPlace(place, value) =>
      (match EvalExprs(types, [place, value], fs)
       case Normal(fs1) => if c.Leaf? then WriteField(types, place, c.stored, fs1) else Outside(NotARun)
       case stopped => stopped)
    case ExprStmt(value) => EvalExpr(types, value, fs)
    case Return(result) => Exit(types, if result.Some? then EvalExpr(types, result.value, fs) else Normal(fs))
    case Raise(value) => Exit(types, EvalExpr(types, value, fs))
    case If(branches, orelse) =>
      if !c.Arm? then Outside(NotARun)
      else if c.index < |branches| then ExecArm(types, branches, c.index, c.body, fs)
      else
        (match EvalConditions(types, branches, |branches|, fs)
         case Normal(fs1) => ExecOrElse(types, orelse, c.body, fs1)
         case stopped => stopped)
    case While(cond, body, orelse) =>
      if !c.Loop? then Outside(NotARun)
      else
        (match ExecRounds(types, cond, body, c.rounds, fs)
         case Normal(fs1) => ExecOrElse(types, orelse, c.orelse, fs1)
         case stopped => stopped)
    case For(name, ty, iter, body, orelse) =>
      if !c.Loop? then Outside(NotARun)
      else
        (match EvalExpr(types, iter, fs)
         case Normal(fs1) =>
           (match ExecBoundRounds(types, name, ty, body, c.rounds, fs1)
            case Normal(fs2) => ExecOrElse(types, orelse, c.orelse, fs2)
            case stopped => stopped)
         case stopped => stopped)
    case Pass => Normal(fs)
  }

  /** The conditions tested before arm `n` is reached, in order. */
  ghost function EvalConditions(types: Registry, branches: seq<Branch>, n: nat, fs: Frames): (r: Outcome)
    requires n <= |branches|
    ensures r.Normal? ==> |r.frames| == |fs|
  {
    if n == 0 then Normal(fs)
    else
      match EvalConditions(types, branches, n - 1, fs)
      case Normal(fs1) => EvalCondition(types, branches[n - 1].cond, fs1)
      case stopped => stopped
  }

  ghost function ExecArm(types: Registry, branches: seq<Branch>, index: nat, cs: seq<Choice>, fs: Frames): (r: Outcome)
    requires |fs| > 0 && index < |branches|
    ensures r.Normal? ==> |r.frames| == |fs|
    decreases branches, 0
  {
    match EvalConditions(types, branches, index + 1, fs)
    case Normal(fs1) => ExecScoped(types, branches[index].body, cs, fs1)
    case stopped => stopped
  }

  ghost function ExecOrElse(types: Registry, orelse: OrElse, cs: seq<Choice>, fs: Frames): (r: Outcome)
    requires |fs| > 0
    ensures r.Normal? ==> |r.frames| == |fs|
    decreases orelse, 2
  {
    match orelse
    case NoElse => Normal(fs)
    case Else(body) => ExecScoped(types, body, cs, fs)
  }

  /** Each round tests the condition and runs the body; the condition is tested once more to leave. */
  ghost function ExecRounds(types: Registry, cond: Expr, body: seq<Stmt>, rounds: seq<Round>, fs: Frames): (r: Outcome)
    requires |fs| > 0
    ensures r.Normal? ==> |r.frames| == |fs|
    decreases body, 2, |rounds|
  {
    match EvalCondition(types, cond, fs)
    case Normal(fs1) =>
      if rounds == [] then Normal(fs1)
      else
        (match ExecScoped(types, body, rounds[0].body, fs1)
         case Normal(fs2) => ExecRounds(types, cond, body, rounds[1..], fs2)
         case stopped => stopped)
    case stopped => stopped
  }

  ghost function ExecBoundRounds(types: Registry, name: string, ty: Option<string>, body: seq<Stmt>, rounds: seq<Round>,
                                 fs: Frames): (r: Outcome)
    requires |fs| > 0
    ensures r.Normal? ==> |r.frames| == |fs|
    decreases body, 2, |rounds|
  {
    if rounds == [] then Normal(fs)
    else
      match ExecBoundRound(types, name, ty, body, rounds[0], fs)
      case Normal(fs1) => ExecBoundRounds(types, name, ty, body, rounds[1..], fs1)
      case stopped => stopped
  }

  ghost function ExecBoundRound(types: Registry, name: string, ty: Option<string>, body: seq<Stmt>, round: Round,
                                fs: Frames): (r: Outcome)
    requires |fs| > 0
    ensures r.Normal? ==> |r.frames| == |fs|
    decreases body, 1
  {
    match Bind(types, name, ty, round.item, fs + [map[]])
    case Normal(fs1) => Leave(types, ExecBlock(types, body, round.body, fs1))
    case stopped => stopped
  }

  ghost function ExecBlock(types: Registry, body: seq<Stmt>, cs: seq<Choice>, fs: Frames): (r: Outcome)
    requires |fs| > 0
    ensures r.Normal? ==> |r.frames| == |fs|
    decreases body, 0
  {
    if body == [] then Normal(fs)
    else if cs == [] then Outside(NotARun)
    else
      match ExecStmt(types, body[0], cs[0], fs)
      case Normal(fs1) => ExecBlock(types, body[1..], cs[1..], fs1)
      case stopped => stopped
  }

  ghost function ExecScoped(types: Registry, body: seq<Stmt>, cs: seq<Choice>, fs: Frames): (r: Outcome)
    requires |fs| > 0
    ensures r.Normal? ==> |r.frames| == |fs|
    decreases body, 1
  {
    Leave(types, ExecBlock(types, body, cs, fs + [map[]]))
  }

  /** Linear parameters must be passed by ownership, and start out whole. */
  ghost function BindParams(types: Registry, params: seq<Param>, args: seq<Value>, fs: Frames): (r: Outcome)
    requires |fs| > 0
    ensures r.Normal? ==> |r.frames| == |fs|
    decreases |params|
  {
    if params == [] then Normal(fs)
    else if args == [] then Outside(NotARun)
    else
      var p := params[0];
      var linear := FlowRules.ExplicitName(types, p.ty);
      if linear.Some? && p.convention != Some(Var) && p.convention != Some(Deinit) then Outside(BorrowsLinear)
      else
        match Bind(types, p.name, p.ty, args[0], fs)
        case Normal(fs1) => BindParams(types, params[1..], args[1..], fs1)
        case stopped => stopped
  }

  ghost function ExecFunction(types: Registry, f: Function, args: seq<Value>, cs: seq<Choice>): Outcome {
    match BindParams(types, f.params, args, [map[]])
    case Normal(fs) => Exit(types, ExecBlock(types, f.body, cs, fs))
    case stopped => stopped
  }
}
