/** The syntax that the checked program indexes: expressions with their operands in the order they are visited, and
    the statements they occur in. */
module CheckedSyntax {
  /** A source file and an offset in it. Different nodes may share one. */
  datatype Span = Span(source: string, offset: nat)

  datatype OptExpr = Absent | Present(e: Expr)

  datatype Entry = Entry(key: Expr, value: OptExpr)

  datatype Clause = ForClause(iter: Expr) | IfClause(condition: Expr)

  datatype Subscript = IndexArg(value: Expr) | SliceArg(lower: OptExpr, upper: OptExpr, step: OptExpr)

  datatype Part = Text(text: string) | Hole(e: Expr)

  datatype Expr = Expr(span: Span, kind: ExprKind)

  /** Operators, names and literal values play no part in the arena and are left to `text`. */
  datatype ExprKind =
    | Atom(text: string)
    | Identifier(text: string)
    | TypeValue(text: string)
    | TypeApply(text: string)
    | Prefix(value: Expr)
    | Transfer(value: Expr)
    | Spread(value: Expr)
    | Named(value: Expr)
    | Infix(left: Expr, right: Expr)
    | Index(target: Expr, index: Expr)
    | Call(args: seq<Expr>, kwargs: seq<Expr>)
    | Invoke(callee: Expr, args: seq<Expr>, kwargs: seq<Expr>)
    | Member(target: Expr)
    | MethodCall(target: Expr, args: seq<Expr>, kwargs: seq<Expr>)
    | ListLit(values: seq<Expr>)
    | TupleLit(values: seq<Expr>)
    | BraceLit(entries: seq<Entry>)
    | Comprehension(key: OptExpr, result: Expr, clauses: seq<Clause>)
    | IfExpr(cond: Expr, thenBranch: Expr, elseBranch: Expr)
    | Compare(first: Expr, rest: seq<Expr>)
    | Slice(target: Expr, lower: OptExpr, upper: OptExpr, step: OptExpr)
    | MultiIndex(target: Expr, subscripts: seq<Subscript>)
    | TString(parts: seq<Part>)

  datatype OptBlock = NoBlock | Block(body: seq<Stmt>)

  datatype Branch = Branch(cond: Expr, body: seq<Stmt>)

  datatype Method = Method(defaults: seq<OptExpr>, where_: OptExpr, body: OptBlock)

  datatype Stmt = Stmt(span: Span, kind: StmtKind)

  datatype StmtKind =
    | VarDecl(name: string, value: Expr)
    | RefDecl(name: string, value: Expr)
    | Assign(value: Expr)
    | AugAssign(place: Expr, value: Expr)
    | SetPlace(place: Expr, value: Expr)
    | Unpack(targets: seq<Expr>, value: Expr)
    | Def(name: string, defaults: seq<OptExpr>, where_: OptExpr, body: seq<Stmt>)
    | Struct(name: string, conditions: seq<Expr>, associated: seq<Expr>, methods: seq<Method>)
    | Trait(name: string, methods: seq<Method>)
    | Comptime(name: string, value: Expr)
    | ComptimeIf(branches: seq<Branch>, orelse: OptBlock)
    | ComptimeFor(iter: Expr, body: seq<Stmt>)
    | If(branches: seq<Branch>, orelse: OptBlock)
    | While(cond: Expr, body: seq<Stmt>, orelse: OptBlock)
    | For(iter: Expr, body: seq<Stmt>, orelse: OptBlock)
    | Try(body: seq<Stmt>, handler: OptBlock, orelse: OptBlock, finalbody: OptBlock)
    | With(contexts: seq<Expr>, body: seq<Stmt>)
    | Return(result: OptExpr)
    | Raise(value: Expr)
    | ExprStmt(value: Expr)
    | Simple

  // ----- operands -----

  function Given(o: OptExpr): (r: seq<Expr>)
    ensures forall c <- r :: c < o
  {
    match o case Absent => [] case Present(e) => [e]
  }

  function AllGiven(os: seq<OptExpr>): seq<Expr> {
    if os == [] then [] else Given(os[0]) + AllGiven(os[1..])
  }

  function EntryOperands(entries: seq<Entry>): (r: seq<Expr>)
    ensures forall c <- r :: exists k :: 0 <= k < |entries| && c < entries[k]
  {
    if entries == [] then []
    else
      [entries[0].key] + Given(entries[0].value) + EntryOperands(entries[1..])
  }

  function ClauseOperands(clauses: seq<Clause>): (r: seq<Expr>)
    ensures forall c <- r :: exists k :: 0 <= k < |clauses| && c < clauses[k]
  {
    if clauses == [] then []
    else
      [if clauses[0].ForClause? then clauses[0].iter else clauses[0].condition] + ClauseOperands(clauses[1..])
  }

  function OperandsOfSubscript(s: Subscript): (r: seq<Expr>)
    ensures forall c <- r :: c < s
  {
    match s
    case IndexArg(value) => [value]
    case SliceArg(lower, upper, step) => Given(lower) + Given(upper) + Given(step)
  }

  function SubscriptOperands(subscripts: seq<Subscript>): (r: seq<Expr>)
    ensures forall c <- r :: exists k :: 0 <= k < |subscripts| && c < subscripts[k]
  {
    if subscripts == [] then [] else OperandsOfSubscript(subscripts[0]) + SubscriptOperands(subscripts[1..])
  }

  function PartOperands(parts: seq<Part>): (r: seq<Expr>)
    ensures forall c <- r :: exists k :: 0 <= k < |parts| && c < parts[k]
  {
    if parts == [] then []
    else
      (if parts[0].Hole? then [parts[0].e] else []) + PartOperands(parts[1..])
  }

  /** The operands of an expression in the order they are visited. */
  function Operands(e: Expr): (r: seq<Expr>)
    ensures forall k :: 0 <= k < |r| ==> r[k] < e
  {
    var r := OperandsOf(e.kind);
    assert e.kind < e && forall k :: 0 <= k < |r| ==> r[k] in r;
    r
  }

  function OperandsOf(kind: ExprKind): (r: seq<Expr>)
    ensures forall c <- r :: c < kind
  {
    match kind
    case Prefix(value) => [value]
    case Transfer(value) => [value]
    case Spread(value) => [value]
    case Named(value) => [value]
    case Infix(left, right) => [left, right]
    case Index(target, index) => [target, index]
    case Call(args, kwargs) => args + kwargs
    case Invoke(callee, args, kwargs) => [callee] + args + kwargs
    case Member(target) => [target]
    case MethodCall(target, args, kwargs) => [target] + args + kwargs
    case ListLit(values) => values
    case TupleLit(values) => values
    case BraceLit(entries) => EntryOperands(entries)
    case Comprehension(key, result, clauses) => ClauseOperands(clauses) + Given(key) + [result]
    case IfExpr(cond, thenBranch, elseBranch) => [cond, thenBranch, elseBranch]
    case Compare(first, rest) => [first] + rest
    case Slice(target, lower, upper, step) => [target] + Given(lower) + Given(upper) + Given(step)
    case MultiIndex(target, subscripts) => [target] + SubscriptOperands(subscripts)
    case TString(parts) => PartOperands(parts)
    case _ => []
  }
}
