/** Compile-time elaboration of statements: branches are selected, loops are unrolled and `with` statements are
    written out, in one pass that updates the compile-time environment and spends fuel. */
module Elaborate {
  import opened Wrappers
  import opened CtValues
  import opened ComptimeSyntax
  import opened ConstantFolding
  import opened ElaborationRules

  /** `out` followed by what `r` produces. */
  function Prefixed<T>(out: seq<T>, r: Result<Elaborated<seq<T>>, Error>): Result<Elaborated<seq<T>>, Error> {
    if r.Ok? then Ok(Elaborated(out + r.value.out, r.value.env, r.value.fuel)) else r
  }

  lemma PrefixedTwice<T>(a: seq<T>, b: seq<T>, r: Result<Elaborated<seq<T>>, Error>)
    ensures Prefixed(a, Prefixed(b, r)) == Prefixed(a + b, r)
  {
    if r.Ok? { assert a + (b + r.value.out) == (a + b) + r.value.out; }
  }

  lemma PrefixedNothing<T>(r: Result<Elaborated<seq<T>>, Error>)
    ensures Prefixed([], r) == r
  {
    if r.Ok? { assert [] + r.value.out == r.value.out; }
  }

  function Counted(out: seq<CtValue>, r: Result<seq<CtValue>, Error>): Result<seq<CtValue>, Error> {
    if r.Ok? then Ok(out + r.value) else r
  }

  method EvalRange(start: I64, stop: I64, step: I64) returns (r: Result<seq<CtValue>, Error>)
    requires step != 0
    ensures r == RangeFrom(start, stop, step)
  {
    var out: seq<CtValue> := [];
    var i: I64 := start;
    assert forall s: seq<CtValue> :: [] + s == s;
    while (step > 0 && i < stop) || (step < 0 && i > stop)
      invariant RangeFrom(start, stop, step) == Counted(out, RangeFrom(i, stop, step))
      decreases if step > 0 then stop - i else i - stop
    {
      ghost var rest := RangeFrom(i, stop, step);
      if !InI64(i + step) { return Err(Overflow); }
      assert rest == Counted([Int(i)], RangeFrom(i + step, stop, step));
      assert rest.Ok? ==> out + rest.value == (out + [Int(i)]) + RangeFrom(i + step, stop, step).value;
      out := out + [Int(i)];
      i := i + step;
    }
    assert out + [] == out;
    r := Ok(out);
  }

  method EvalArguments(args: seq<Expr>, env: Scope) returns (r: Result<seq<I64>, Error>)
    ensures r == EvalInts(args, env)
  {
    var vals: seq<I64> := [];
    assert args[0..] == args;
    assert forall s: seq<I64> :: [] + s == s;
    for k := 0 to |args|
      invariant EvalInts(args, env) ==
        (var rest := EvalInts(args[k..], env); if rest.Ok? then Ok(vals + rest.value) else rest)
    {
      assert args[k..][0] == args[k] && args[k..][1..] == args[k + 1..];
      ghost var rest := EvalInts(args[k + 1..], env);
      var v :- Eval(args[k], env);
      var i :- AsInt(v);
      assert rest.Ok? ==> vals + ([i] + rest.value) == (vals + [i]) + rest.value;
      vals := vals + [i];
    }
    assert args[|args|..] == [];
    assert vals + [] == vals;
    r := Ok(vals);
  }

  method EvalLoop(iter: Expr, env: Scope) returns (r: Result<seq<CtValue>, Error>)
    ensures r == EvalIter(iter, env)
  {
    if iter.Apply? && iter.operation.Range? {
      var vals :- EvalArguments(iter.args, env);
      var start: I64, stop: I64, step: I64 := 0, 0, 1;
      if |vals| == 1 { stop := vals[0]; }
      else if |vals| == 2 { start, stop := vals[0], vals[1]; }
      else if |vals| == 3 { start, stop, step := vals[0], vals[1], vals[2]; }
      else { return Err(BadRange); }
      if step == 0 { return Err(BadRange); }
      r := EvalRange(start, stop, step);
    } else {
      var v :- Eval(iter, env);
      r := AsSequence(v);
    }
  }

  class Elaborator {
    var env: Scope
    var fuel: nat

    constructor (env: Scope, fuel: nat)
      ensures this.env == env && this.fuel == fuel
    {
      this.env := env;
      this.fuel := fuel;
    }

    /** The result and the state are those of the specification, given what they were before. */
    ghost predicate Follows<T>(r: Result<T, Error>, e: Result<Elaborated<T>, Error>)
      reads this
    {
      if e.Err? then r == Err(e.error) else r == Ok(e.value.out) && env == e.value.env && fuel == e.value.fuel
    }

    method Burn() returns (r: Result<(), Error>)
      modifies this
      ensures env == old(env)
      ensures if old(fuel) == 0 then r == Err(QuotaExceeded) && fuel == 0 else r == Ok(()) && fuel == old(fuel) - 1
    {
      if fuel == 0 { return Err(QuotaExceeded); }
      fuel := fuel - 1;
      r := Ok(());
    }

    method Block(stmts: seq<Stmt>) returns (r: Result<seq<Stmt>, Error>)
      modifies this
      ensures Follows(r, ElabBlock(stmts, old(env), old(fuel)))
      decreases BlockSize(stmts), 0, 0
    {
      var out: seq<Stmt> := [];
      ghost var all := ElabBlock(stmts, env, fuel);
      PrefixedNothing(all);
      assert stmts[0..] == stmts;
      for i := 0 to |stmts|
        invariant all == Prefixed(out, ElabBlock(stmts[i..], env, fuel))
        invariant BlockSize(stmts[i..]) <= BlockSize(stmts)
      {
        assert stmts[i..][0] == stmts[i] && stmts[i..][1..] == stmts[i + 1..];
        var added :- Statement(stmts[i]);
        PrefixedTwice(out, added, ElabBlock(stmts[i + 1..], env, fuel));
        out := out + added;
      }
      assert stmts[|stmts|..] == [];
      assert out + [] == out;
      r := Ok(out);
    }

    method Statement(st: Stmt) returns (r: Result<seq<Stmt>, Error>)
      modifies this
      ensures Follows(r, ElabStmt(st, old(env), old(fuel)))
      decreases Size(st), 1, 0
    {
      match st
      case Comptime(name, value) =>
        var v :- Eval(value, env);
        env := env[name := v];
        match Materialize(v) {
          case Some(e) => r := Ok([Comptime(name, e)]);
          case None => r := Ok([]);
        }
      case ComptimeIf(branches, orelse) => r := CompileIf(branches, orelse);
      case ComptimeFor(name, iter, body) =>
        var vs :- EvalLoop(iter, env);
        r := Unroll(name, vs, body);
      case If(branches, orelse) =>
        var bs :- Branches(branches);
        var o :- Optional(orelse);
        r := Ok([If(bs, o)]);
      case While(cond, body, orelse) =>
        var b :- Block(body);
        var o :- Optional(orelse);
        r := Ok([While(cond, b, o)]);
      case For(name, iter, body, orelse) =>
        var b :- Block(body);
        var o :- Optional(orelse);
        r := Ok([For(name, iter, b, o)]);
      case Try(body, caught, handler, orelse, finalbody) =>
        var b :- Block(body);
        ghost var clauses := ElabThree(handler, orelse, finalbody, env, fuel);
        var c :- Clauses(handler, orelse, finalbody);
        r := Ok([Try(b, caught, c.0, c.1, c.2)]);
      case With(span, items, body) =>
        var nested :- Block(body);
        nested := Enclose(span, items, nested);
        r := Ok(nested);
      case _ => r := Ok([st]);
    }

    method CompileIf(branches: seq<Branch>, orelse: OptBlock) returns (r: Result<seq<Stmt>, Error>)
      modifies this
      ensures Follows(r, ElabStmt(ComptimeIf(branches, orelse), old(env), old(fuel)))
      decreases Size(ComptimeIf(branches, orelse)), 0, 0
    {
      assert branches[0..] == branches;
      for i := 0 to |branches|
        invariant env == old(env) && fuel == old(fuel)
        invariant Select(branches, orelse, env) == Select(branches[i..], orelse, env)
      {
        assert branches[i..][0] == branches[i] && branches[i..][1..] == branches[i + 1..];
        var v :- Eval(branches[i].cond, env);
        var holds :- AsBool(v);
        if holds {
          SelectedSize(branches, orelse, env);
          r := Block(branches[i].body);
          return;
        }
      }
      assert branches[|branches|..] == [];
      SelectedSize(branches, orelse, env);
      match orelse {
        case Block(body) => r := Block(body);
        case NoBlock => r := Ok([]);
      }
    }

    method Unroll(name: string, vs: seq<CtValue>, body: seq<Stmt>) returns (r: Result<seq<Stmt>, Error>)
      modifies this
      ensures Follows(r, ElabIterations(name, vs, body, old(env), old(fuel)))
      decreases BlockSize(body), 1, 0
    {
      var out: seq<Stmt> := [];
      ghost var all := ElabIterations(name, vs, body, env, fuel);
      PrefixedNothing(all);
      assert vs[0..] == vs;
      for i := 0 to |vs|
        invariant all == Prefixed(out, ElabIterations(name, vs[i..], body, env, fuel))
      {
        assert vs[i..][0] == vs[i] && vs[i..][1..] == vs[i + 1..];
        var _ :- Burn();
        SubstBlockSize(body, map[name := vs[i]]);
        var added :- Block(SubstBlock(body, map[name := vs[i]]));
        PrefixedTwice(out, added, ElabIterations(name, vs[i + 1..], body, env, fuel));
        out := out + added;
      }
      assert vs[|vs|..] == [];
      assert out + [] == out;
      r := Ok(out);
    }

    method Branches(branches: seq<Branch>) returns (r: Result<seq<Branch>, Error>)
      modifies this
      ensures Follows(r, ElabBranches(branches, old(env), old(fuel)))
      decreases BranchesSize(branches), 1, 0
    {
      var out: seq<Branch> := [];
      ghost var all := ElabBranches(branches, env, fuel);
      PrefixedNothing(all);
      assert branches[0..] == branches;
      for i := 0 to |branches|
        invariant all == Prefixed(out, ElabBranches(branches[i..], env, fuel))
        invariant BranchesSize(branches[i..]) <= BranchesSize(branches)
      {
        assert branches[i..][0] == branches[i] && branches[i..][1..] == branches[i + 1..];
        var b :- Block(branches[i].body);
        var one := [Branch(branches[i].cond, b)];
        PrefixedTwice(out, one, ElabBranches(branches[i + 1..], env, fuel));
        out := out + one;
      }
      assert branches[|branches|..] == [];
      assert out + [] == out;
      r := Ok(out);
    }

    method Optional(o: OptBlock) returns (r: Result<OptBlock, Error>)
      modifies this
      ensures Follows(r, ElabOpt(o, old(env), old(fuel)))
      decreases OptSize(o), 1, 0
    {
      match o
      case NoBlock => r := Ok(NoBlock);
      case Block(body) =>
        var b :- Block(body);
        r := Ok(OptBlock.Block(b));
    }

    method Clauses(handler: OptBlock, orelse: OptBlock, finalbody: OptBlock)
      returns (r: Result<(OptBlock, OptBlock, OptBlock), Error>)
      modifies this
      ensures Follows(r, ElabThree(handler, orelse, finalbody, old(env), old(fuel)))
      decreases OptSize(handler) + OptSize(orelse) + OptSize(finalbody), 2, 0
    {
      var h :- Optional(handler);
      ghost var two := ElabTwo(orelse, finalbody, env, fuel);
      var o :- Optional(orelse);
      var f :- Optional(finalbody);
      assert two.Ok? && two.value.out == (o, f);
      r := Ok((h, o, f));
    }
  }

  /** Items are wrapped around the body from the last to the first. */
  method Enclose(span: nat, items: seq<WithItem>, body: seq<Stmt>) returns (r: seq<Stmt>)
    ensures r == Desugar(span, items, 0, body)
  {
    r := body;
    for index := |items| downto 0
      invariant r == Desugar(span, items, index, body)
    {
      var manager := ManagerName(span, index);
      r := [VarDecl(manager, items[index].context), EnterStmt(manager, items[index].name), Leave(manager, r)];
    }
  }
}
