/** Which functions compile-time execution may run: a depth-first walk of the call graph that classifies bodies and
    collects the helpers they need, adding functions on a cycle before they are known to be safe. */
module CtfeSafety {

  /** Expressions as the classifier sees them. `Compound` covers the forms that are safe exactly when their parts are
      (prefix, transfer, spread, infix, tuple and list literals, index, member, conditional, comparison, slice and
      multiple subscript), with the parts in the order they are visited. */
  datatype Expr =
    | Atom
    | Compound(parts: seq<Expr>)
    | Call(name: string, params: seq<ParamArg>, args: seq<Expr>, kwargs: seq<Expr>)
    | UnsafeExpr

  datatype ParamArg =
    | ValueArg(value: Expr)
    | TypeArg
    | NamedArg(inner: ParamArg)

  datatype Branch = Branch(cond: Expr, body: seq<Stmt>)

  datatype OrElse = NoElse | Else(body: seq<Stmt>)

  /** `Simple` covers declarations, assignments, expression statements, `return` and `pass`, with the expressions
      they visit. */
  datatype Stmt =
    | Simple(exprs: seq<Expr>)
    | If(branches: seq<Branch>, orelse: OrElse)
    | While(cond: Expr, body: seq<Stmt>, orelse: OrElse)
    | For(iter: Expr, body: seq<Stmt>, orelse: OrElse)
    | UnsafeStmt

  type Functions = map<string, seq<Stmt>>

  predicate Builtin(name: string) {
    name in {"is_same_type", "range", "abs", "min", "max", "round", "Int", "UInt", "Float64"}
  }

  // ----- what a body contains, as far as the classifier looks -----

  /** No unsafe form occurs; calls are judged by their shape only. The `else` of a loop is not looked at. */
  predicate SafeForm(e: Expr)
    decreases e, 0
  {
    match e
    case Atom => true
    case Compound(parts) => SafeForms(parts)
    case Call(_, params, args, kwargs) => kwargs == [] && SafeParams(params) && SafeForms(args)
    case UnsafeExpr => false
  }

  predicate SafeForms(es: seq<Expr>)
    decreases es, 1
  {
    es == [] || (SafeForm(es[0]) && SafeForms(es[1..]))
  }

  predicate SafeParam(p: ParamArg)
    decreases p, 0
  {
    match p
    case ValueArg(value) => SafeForm(value)
    case TypeArg => true
    case NamedArg(ValueArg(value)) => SafeForm(value)
    case NamedArg(TypeArg) => true
    case NamedArg(NamedArg(_)) => false
  }

  predicate SafeParams(ps: seq<ParamArg>)
    decreases ps, 1
  {
    ps == [] || (SafeParam(ps[0]) && SafeParams(ps[1..]))
  }

  predicate SafeStmtForm(st: Stmt)
    decreases st, 0
  {
    match st
    case Simple(exprs) => SafeForms(exprs)
    case If(branches, orelse) => SafeBranchForms(branches) && (orelse.Else? ==> SafeBlockForm(orelse.body))
    case While(cond, body, _) => SafeForm(cond) && SafeBlockForm(body)
    case For(iter, body, _) => SafeForm(iter) && SafeBlockForm(body)
    case UnsafeStmt => false
  }

  predicate SafeBlockForm(body: seq<Stmt>)
    decreases body, 1
  {
    body == [] || (SafeStmtForm(body[0]) && SafeBlockForm(body[1..]))
  }

  predicate SafeBranchForms(branches: seq<Branch>)
    decreases branches, 1
  {
    branches == [] || (SafeForm(branches[0].cond) && SafeBlockForm(branches[0].body) && SafeBranchForms(branches[1..]))
  }

  /** The functions called, builtins aside. */
  function Callees(e: Expr): set<string>
    decreases e, 0
  {
    match e
    case Atom => {}
    case Compound(parts) => AllCallees(parts)
    case Call(name, params, args, _) => ParamCallees(params) + AllCallees(args) + if Builtin(name) then {} else {name}
    case UnsafeExpr => {}
  }

  function AllCallees(es: seq<Expr>): set<string>
    decreases es, 1
  {
    if es == [] then {} else Callees(es[0]) + AllCallees(es[1..])
  }

  function ParamCallee(p: ParamArg): set<string>
    decreases p, 0
  {
    match p
    case ValueArg(value) => Callees(value)
    case NamedArg(ValueArg(value)) => Callees(value)
    case _ => {}
  }

  function ParamCallees(ps: seq<ParamArg>): set<string>
    decreases ps, 1
  {
    if ps == [] then {} else ParamCallee(ps[0]) + ParamCallees(ps[1..])
  }

  function StmtCallees(st: Stmt): set<string>
    decreases st, 0
  {
    match st
    case Simple(exprs) => AllCallees(exprs)
    case If(branches, orelse) => BranchCallees(branches) + if orelse.Else? then BlockCallees(orelse.body) else {}
    case While(cond, body, _) => Callees(cond) + BlockCallees(body)
    case For(iter, body, _) => Callees(iter) + BlockCallees(body)
    case UnsafeStmt => {}
  }

  function BlockCallees(body: seq<Stmt>): set<string>
    decreases body, 1
  {
    if body == [] then {} else StmtCallees(body[0]) + BlockCallees(body[1..])
  }

  function BranchCallees(branches: seq<Branch>): set<string>
    decreases branches, 1
  {
    if branches == [] then {}
    else Callees(branches[0].cond) + BlockCallees(branches[0].body) + BranchCallees(branches[1..])
  }

  // ----- the call graph -----

  ghost predicate Calls(fns: Functions, a: string, b: string) {
    a in fns && b in BlockCallees(fns[a])
  }

  ghost predicate IsPath(fns: Functions, p: seq<string>) {
    p != [] && forall i :: 0 <= i < |p| - 1 ==> Calls(fns, p[i], p[i + 1])
  }

  ghost predicate Reaches(fns: Functions, a: string, b: string) {
    exists p :: IsPath(fns, p) && p[0] == a && p[|p| - 1] == b
  }

  ghost predicate Bad(fns: Functions, name: string) {
    name !in fns || !SafeBlockForm(fns[name])
  }

  ghost predicate ReachesBad(fns: Functions, name: string) {
    exists b :: Reaches(fns, name, b) && Bad(fns, b)
  }

  lemma ReachesSelf(fns: Functions, a: string)
    ensures Reaches(fns, a, a)
  {
    assert IsPath(fns, [a]) && [a][0] == a && [a][|[a]| - 1] == a;
  }

  lemma ReachesStep(fns: Functions, a: string, b: string, c: string)
    requires Reaches(fns, a, b) && Calls(fns, b, c)
    ensures Reaches(fns, a, c)
  {
    var p :| IsPath(fns, p) && p[0] == a && p[|p| - 1] == b;
    var q := p + [c];
    assert IsPath(fns, q) && q[0] == a && q[|q| - 1] == c;
  }

  lemma BadThrough(fns: Functions, a: string, b: string)
    requires Calls(fns, a, b) && ReachesBad(fns, b)
    ensures ReachesBad(fns, a)
  {
    var c :| Reaches(fns, b, c) && Bad(fns, c);
    var p :| IsPath(fns, p) && p[0] == b && p[|p| - 1] == c;
    var q := [a] + p;
    assert IsPath(fns, q) && q[0] == a && q[|q| - 1] == c;
    assert Reaches(fns, a, c);
  }

  /** A set closed under calls contains everything reachable from its members. */
  lemma {:induction false} ClosedUnderPaths(fns: Functions, needed: set<string>, p: seq<string>)
    requires IsPath(fns, p) && p[0] in needed
    requires forall n, c :: n in needed && Calls(fns, n, c) ==> c in needed
    ensures p[|p| - 1] in needed
    decreases |p|
  {
    if |p| > 1 {
      assert Calls(fns, p[0], p[1]);
      ClosedUnderPaths(fns, needed, p[1..]);
    }
  }

  // ----- the classifier -----

  class Classifier {
    const fns: Functions
    var visiting: set<string>
    var needed: set<string>

    constructor (fns: Functions)
      ensures this.fns == fns && visiting == {} && needed == {}
    {
      this.fns := fns;
      visiting := {};
      needed := {};
    }

    /** Every collected function is reachable from `root`, and is either still being walked or known to be safe with
        all of its callees collected. */
    ghost predicate Justified(root: string)
      reads this
    {
      forall n :: n in needed ==>
        && Reaches(fns, root, n)
        && (n in visiting || (n in fns && SafeBlockForm(fns[n]) && BlockCallees(fns[n]) <= needed))
    }

    method SafeFn(name: string, ghost root: string) returns (safe: bool)
      requires Justified(root) && Reaches(fns, root, name)
      modifies this
      ensures visiting == old(visiting)
      ensures safe ==> Justified(root) && old(needed) <= needed && name in needed
      ensures !safe ==> ReachesBad(fns, name)
      decreases fns.Keys - visiting, 0
    {
      if name in needed {
        return true;
      }
      if name in visiting {
        needed := needed + {name};
        return true;
      }
      visiting := visiting + {name};
      if name !in fns {
        visiting := visiting - {name};
        ReachesSelf(fns, name);
        return false;
      }
      forall c | c in BlockCallees(fns[name])
        ensures Reaches(fns, root, c)
      {
        ReachesStep(fns, root, name, c);
      }
      safe := SafeBlock(fns[name], root);
      visiting := visiting - {name};
      if safe {
        needed := needed + {name};
      } else if SafeBlockForm(fns[name]) {
        ghost var c :| c in BlockCallees(fns[name]) && ReachesBad(fns, c);
        BadThrough(fns, name, c);
      } else {
        ReachesSelf(fns, name);
      }
    }

    method SafeExpr(e: Expr, ghost root: string) returns (safe: bool)
      requires Justified(root) && forall c :: c in Callees(e) ==> Reaches(fns, root, c)
      modifies this
      ensures visiting == old(visiting)
      ensures safe ==> Justified(root) && old(needed) <= needed && SafeForm(e) && Callees(e) <= needed
      ensures !safe ==> !SafeForm(e) || exists c :: c in Callees(e) && ReachesBad(fns, c)
      decreases fns.Keys - visiting, 1, e, 0
    {
      match e {
        case Atom => return true;
        case UnsafeExpr => return false;
        case Compound(parts) => safe := SafeExprs(parts, root);
        case Call(name, params, args, kwargs) =>
          if kwargs != [] {
            return false;
          }
          safe := SafeParamArgs(params, root);
          if !safe {
            return;
          }
          safe := SafeExprs(args, root);
          if !safe || Builtin(name) {
            return;
          }
          safe := SafeFn(name, root);
      }
    }

    method SafeExprs(es: seq<Expr>, ghost root: string) returns (safe: bool)
      requires Justified(root) && forall c :: c in AllCallees(es) ==> Reaches(fns, root, c)
      modifies this
      ensures visiting == old(visiting)
      ensures safe ==> Justified(root) && old(needed) <= needed && SafeForms(es) && AllCallees(es) <= needed
      ensures !safe ==> !SafeForms(es) || exists c :: c in AllCallees(es) && ReachesBad(fns, c)
      decreases fns.Keys - visiting, 1, es, 1
    {
      if es == [] {
        return true;
      }
      safe := SafeExpr(es[0], root);
      if safe {
        safe := SafeExprs(es[1..], root);
      }
    }

    method SafeParamArg(p: ParamArg, ghost root: string) returns (safe: bool)
      requires Justified(root) && forall c :: c in ParamCallee(p) ==> Reaches(fns, root, c)
      modifies this
      ensures visiting == old(visiting)
      ensures safe ==> Justified(root) && old(needed) <= needed && SafeParam(p) && ParamCallee(p) <= needed
      ensures !safe ==> !SafeParam(p) || exists c :: c in ParamCallee(p) && ReachesBad(fns, c)
      decreases fns.Keys - visiting, 1, p, 0
    {
      match p {
        case ValueArg(value) => safe := SafeExpr(value, root);
        case TypeArg => safe := true;
        case NamedArg(ValueArg(value)) => safe := SafeExpr(value, root);
        case NamedArg(TypeArg) => safe := true;
        case NamedArg(NamedArg(_)) => safe := false;
      }
    }

    method SafeParamArgs(ps: seq<ParamArg>, ghost root: string) returns (safe: bool)
      requires Justified(root) && forall c :: c in ParamCallees(ps) ==> Reaches(fns, root, c)
      modifies this
      ensures visiting == old(visiting)
      ensures safe ==> Justified(root) && old(needed) <= needed && SafeParams(ps) && ParamCallees(ps) <= needed
      ensures !safe ==> !SafeParams(ps) || exists c :: c in ParamCallees(ps) && ReachesBad(fns, c)
      decreases fns.Keys - visiting, 1, ps, 1
    {
      if ps == [] {
        return true;
      }
      safe := SafeParamArg(ps[0], root);
      if safe {
        safe := SafeParamArgs(ps[1..], root);
      }
    }

    method SafeStmt(st: Stmt, ghost root: string) returns (safe: bool)
      requires Justified(root) && forall c :: c in StmtCallees(st) ==> Reaches(fns, root, c)
      modifies this
      ensures visiting == old(visiting)
      ensures safe ==> Justified(root) && old(needed) <= needed && SafeStmtForm(st) && StmtCallees(st) <= needed
      ensures !safe ==> !SafeStmtForm(st) || exists c :: c in StmtCallees(st) && ReachesBad(fns, c)
      decreases fns.Keys - visiting, 1, st, 0
    {
      match st {
        case Simple(exprs) => safe := SafeExprs(exprs, root);
        case If(branches, orelse) =>
          safe := SafeBranches(branches, root);
          if safe && orelse.Else? {
            safe := SafeBlock(orelse.body, root);
          }
        case While(cond, body, _) =>
          safe := SafeExpr(cond, root);
          if safe {
            safe := SafeBlock(body, root);
          }
        case For(iter, body, _) =>
          safe := SafeExpr(iter, root);
          if safe {
            safe := SafeBlock(body, root);
          }
        case UnsafeStmt => safe := false;
      }
    }

    method SafeBlock(body: seq<Stmt>, ghost root: string) returns (safe: bool)
      requires Justified(root) && forall c :: c in BlockCallees(body) ==> Reaches(fns, root, c)
      modifies this
      ensures visiting == old(visiting)
      ensures safe ==> Justified(root) && old(needed) <= needed && SafeBlockForm(body) && BlockCallees(body) <= needed
      ensures !safe ==> !SafeBlockForm(body) || exists c :: c in BlockCallees(body) && ReachesBad(fns, c)
      decreases fns.Keys - visiting, 1, body, 1
    {
      if body == [] {
        return true;
      }
      safe := SafeStmt(body[0], root);
      if safe {
        safe := SafeBlock(body[1..], root);
      }
    }

    method SafeBranches(branches: seq<Branch>, ghost root: string) returns (safe: bool)
      requires Justified(root) && forall c :: c in BranchCallees(branches) ==> Reaches(fns, root, c)
      modifies this
      ensures visiting == old(visiting)
      ensures safe ==>
        Justified(root) && old(needed) <= needed && SafeBranchForms(branches) && BranchCallees(branches) <= needed
      ensures !safe ==> !SafeBranchForms(branches) || exists c :: c in BranchCallees(branches) && ReachesBad(fns, c)
      decreases fns.Keys - visiting, 1, branches, 1
    {
      if branches == [] {
        return true;
      }
      safe := SafeExpr(branches[0].cond, root);
      if safe {
        safe := SafeBlock(branches[0].body, root);
        if safe {
          safe := SafeBranches(branches[1..], root);
        }
      }
    }
  }

  /** Started from empty sets, the classifier accepts a function exactly when everything reachable from it in the call
      graph is known and made of safe forms, and then it has collected exactly the reachable functions. */
  method Classify(fns: Functions, root: string) returns (safe: bool, needed: set<string>)
    ensures safe <==> !ReachesBad(fns, root)
    ensures safe ==> forall n :: n in needed <==> Reaches(fns, root, n)
    ensures safe ==> forall n :: n in needed ==> n in fns && SafeBlockForm(fns[n]) && BlockCallees(fns[n]) <= needed
  {
    var c := new Classifier(fns);
    ReachesSelf(fns, root);
    safe := c.SafeFn(root, root);
    needed := c.needed;
    if safe {
      forall n | Reaches(fns, root, n)
        ensures n in needed
      {
        var p :| IsPath(fns, p) && p[0] == root && p[|p| - 1] == n;
        ClosedUnderPaths(fns, needed, p);
      }
    }
  }
}
