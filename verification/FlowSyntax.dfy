/** The statements and expressions the explicit-destruction pass walks. */
module FlowSyntax {
  import opened Wrappers

  /** Keyword argument values follow the positional ones in `args`, the order in which they are visited. */
  datatype Expr =
    | Literal
    | Identifier(name: string)
    | Member(receiver: Expr, field: string)
    | Index(receiver: Expr, index: Expr)
    | Transfer(inner: Expr)
    | Prefix(operand: Expr)
    | Infix(left: Expr, right: Expr)
    | Call(args: seq<Expr>)
    | MethodCall(receiver: Expr, name: string, args: seq<Expr>)

  datatype OrElse = NoElse | Else(body: seq<Stmt>)

  datatype Branch = Branch(cond: Expr, body: seq<Stmt>)

  /** `ty` is the struct type the checker recorded for the binding, if it is a struct. */
  datatype Stmt =
    | VarDecl(name: string, ty: Option<string>, value: Expr)
    | Assign(name: string, value: Expr)
    | SetPlace(place: Expr, value: Expr)
    | ExprStmt(value: Expr)
    | Return(result: Option<Expr>)
    | Raise(value: Expr)
    | If(branches: seq<Branch>, orelse: OrElse)
    | While(cond: Expr, body: seq<Stmt>, orelse: OrElse)
    | For(name: string, ty: Option<string>, iter: Expr, body: seq<Stmt>, orelse: OrElse)
    | Pass

  datatype Convention = Var | Deinit | Mut | Ref | Read | Out

  datatype Param = Param(name: string, ty: Option<string>, convention: Option<Convention>)

  datatype Function = Function(params: seq<Param>, body: seq<Stmt>)
}
