/** What compile-time branching and looping mean, without reference to how the elaborator finds it out: which branch of
    a `comptime if` is taken, and which values a `comptime for` runs over. */
module ElaborationChoice {
  import opened Wrappers
  import opened CtValues
  import opened ComptimeSyntax
  import opened ConstantFolding
  import opened ElaborationRules

  // ----- branches -----

  predicate Holds(e: Expr, env: Scope) {
    Eval(e, env) == Ok(CtValue.Bool(true))
  }

  predicate Fails(e: Expr, env: Scope) {
    Eval(e, env) == Ok(CtValue.Bool(false))
  }

  /** Every condition before the `k`th is false, and the `k`th is true, or there is none. */
  ghost predicate Decides(branches: seq<Branch>, env: Scope, k: nat) {
    && k <= |branches|
    && (forall i :: 0 <= i < k ==> Fails(branches[i].cond, env))
    && (k < |branches| ==> Holds(branches[k].cond, env))
  }

  /** A condition that is reached is neither true nor false. */
  ghost predicate Undecided(branches: seq<Branch>, env: Scope, k: nat) {
    && k < |branches|
    && (forall i :: 0 <= i < k ==> Fails(branches[i].cond, env))
    && !Fails(branches[k].cond, env) && !Holds(branches[k].cond, env)
  }

  function Otherwise(orelse: OptBlock): seq<Stmt> {
    match orelse
    case NoBlock => []
    case Block(body) => body
  }

  /** The first branch from the `k`th on whose condition does not fail. */
  function FirstStanding(branches: seq<Branch>, env: Scope, k: nat): (n: nat)
    requires k <= |branches|
    ensures k <= n <= |branches|
    ensures forall i :: k <= i < n ==> Fails(branches[i].cond, env)
    ensures n < |branches| ==> !Fails(branches[n].cond, env)
    decreases |branches| - k
  {
    if k < |branches| && Fails(branches[k].cond, env) then FirstStanding(branches, env, k + 1) else k
  }

  /** The block a `comptime if` stands for. */
  function Chosen(branches: seq<Branch>, orelse: OptBlock, env: Scope): (r: Result<seq<Stmt>, Error>)
    ensures r.Ok? <==> exists k: nat :: Decides(branches, env, k)
    ensures forall k: nat :: Decides(branches, env, k) ==>
              r == Ok(if k < |branches| then branches[k].body else Otherwise(orelse))
    ensures r.Ok? ==> BlockSize(r.value) <= BranchesSize(branches) + OptSize(orelse)
  {
    var n := FirstStanding(branches, env, 0);
    assert forall k: nat :: Decides(branches, env, k) ==> k == n;
    if n == |branches| then
      assert Decides(branches, env, n);
      Ok(Otherwise(orelse))
    else
      BranchSize(branches, n);
      if Holds(branches[n].cond, env) then
        assert Decides(branches, env, n);
        Ok(branches[n].body)
      else
        var v :- Eval(branches[n].cond, env);
        Err(NotBool)
  }

  lemma {:induction false} BranchSize(branches: seq<Branch>, k: nat)
    requires k < |branches|
    ensures BlockSize(branches[k].body) <= BranchesSize(branches)
    decreases k
  {
    if k > 0 { BranchSize(branches[1..], k - 1); }
  }

  lemma {:induction false} StandingInTail(branches: seq<Branch>, env: Scope, k: nat)
    requires 0 < k <= |branches|
    ensures FirstStanding(branches, env, k) == FirstStanding(branches[1..], env, k - 1) + 1
    decreases |branches| - k
  {
    if k < |branches| {
      assert branches[1..][k - 1] == branches[k];
      if Fails(branches[k].cond, env) { StandingInTail(branches, env, k + 1); }
    }
  }

  /** The elaborator keeps the block that is meant, and reports the first condition that is neither true nor false. */
  lemma {:induction false} SelectsChosen(branches: seq<Branch>, orelse: OptBlock, env: Scope)
    ensures Select(branches, orelse, env) == Chosen(branches, orelse, env)
    decreases |branches|
  {
    if branches != [] {
      var v := Eval(branches[0].cond, env);
      if Fails(branches[0].cond, env) {
        SelectsChosen(branches[1..], orelse, env);
        StandingInTail(branches, env, 1);
      } else if v.Ok? {
        assert AsBool(v.value).Ok? ==> v == Ok(CtValue.Bool(AsBool(v.value).value));
      }
    }
  }

  /** A `comptime if` elaborates as its first true branch, or as its `else` if all conditions are false; it cannot be
      elaborated if a condition before that is neither. */
  lemma BranchElaboratedExactly(branches: seq<Branch>, orelse: OptBlock, env: Scope, fuel: nat, k: nat)
    ensures Decides(branches, env, k) ==>
              ElabStmt(ComptimeIf(branches, orelse), env, fuel)
                == ElabBlock(if k < |branches| then branches[k].body else Otherwise(orelse), env, fuel)
    ensures Undecided(branches, env, k) ==> ElabStmt(ComptimeIf(branches, orelse), env, fuel).Err?
  {
    SelectsChosen(branches, orelse, env);
    if Undecided(branches, env, k) {
      forall j: nat ensures !Decides(branches, env, j) {}
    }
  }

  // ----- ranges -----

  /** The term `start + k * step` of a progression, reached step by step. */
  function Term(start: int, step: int, k: nat): int
    decreases k
  {
    if k == 0 then start else Term(start + step, step, k - 1)
  }

  lemma {:induction false} TermIsLinear(start: int, step: int, k: nat)
    ensures Term(start, step, k) == start + k * step
    decreases k
  {
    if k > 0 {
      TermIsLinear(start + step, step, k - 1);
      assert (k - 1) * step + step == k * step;
    }
  }

  ghost predicate TermsBefore(i: int, stop: int, step: int, vs: seq<CtValue>) {
    forall k: nat :: k < |vs| ==>
      Before(Term(i, step, k), stop, step) && InI64(Term(i, step, k)) && vs[k] == Int(Term(i, step, k))
  }

  ghost predicate LeavesI64(i: int, stop: int, step: int, n: nat) {
    Before(Term(i, step, n), stop, step) && !InI64(Term(i, step, n + 1))
  }

  /** A range yields exactly the terms strictly before `stop`. The counter is also stepped once past the last term,
      and the range fails exactly when that or an earlier step leaves 64 bits. */
  lemma {:induction false} RangeIsProgression(i: I64, stop: I64, step: I64)
    requires step != 0
    ensures var r := RangeFrom(i, stop, step);
      if r.Ok? then
        TermsBefore(i, stop, step, r.value) && !Before(Term(i, step, |r.value|), stop, step) &&
          InI64(Term(i, step, |r.value|))
      else
        r == Err(Overflow) && exists n: nat :: LeavesI64(i, stop, step, n)
    decreases if step > 0 then stop - i else i - stop
  {
    var r := RangeFrom(i, stop, step);
    if Before(i, stop, step) {
      if InI64(i + step) {
        var next: I64 := i + step;
        RangeIsProgression(next, stop, step);
        var rest := RangeFrom(next, stop, step);
        if rest.Ok? {
          assert r == Ok([Int(i)] + rest.value);
          forall k: nat | k < |r.value|
            ensures Before(Term(i, step, k), stop, step) && InI64(Term(i, step, k)) &&
              r.value[k] == Int(Term(i, step, k))
          {
            assert k > 0 ==> r.value[k] == rest.value[k - 1] && Term(i, step, k) == Term(next, step, k - 1);
          }
        } else {
          var n: nat :| LeavesI64(next, stop, step, n);
          assert LeavesI64(i, stop, step, n + 1);
        }
      } else {
        assert Term(i, step, 1) == Term(i + step, step, 0);
        assert LeavesI64(i, stop, step, 0);
      }
    }
  }

  /** Hence a range with an overflowing last step fails, although all its terms are in range. */
  lemma RangeNeedsOneStepMore()
    ensures RangeFrom(I64_MAX - 1, I64_MAX, 2) == Err(Overflow)
    ensures Before(I64_MAX - 1, I64_MAX, 2) && !Before(I64_MAX - 1 + 2, I64_MAX, 2)
  {
  }

  lemma TermsAdvance(start: int, step: int, j: nat, k: nat)
    requires j <= k
    ensures step > 0 ==> start + j * step <= start + k * step
    ensures step < 0 ==> start + j * step >= start + k * step
  {
    assert k * step == j * step + (k - j) * step;
    if step > 0 { assert (k - j) * step >= 0; }
    if step < 0 { assert (k - j) * step <= 0; }
  }

  // ----- loops -----

  /** The first `n` from `k` on whose term is not before `stop`. */
  function FirstPast(start: int, stop: int, step: int, k: nat): (n: nat)
    requires step != 0
    ensures k <= n && !Before(start + n * step, stop, step)
    ensures forall j: nat :: k <= j < n ==> Before(start + j * step, stop, step)
    decreases if step > 0 then stop - (start + k * step) else start + k * step - stop
  {
    if Before(start + k * step, stop, step) then
      assert (k + 1) * step == k * step + step;
      FirstPast(start, stop, step, k + 1)
    else k
  }

  lemma TermsInRange(start: I64, stop: I64, step: I64, k: nat)
    requires step != 0 && k < FirstPast(start, stop, step, 0)
    ensures InI64(start + k * step)
  {
    TermsAdvance(start, step, 0, k);
    assert Before(start + k * step, stop, step);
  }

  /** The terms before `stop`, provided the counter stays within 64 bits when it passes `stop`. */
  function Progression(start: I64, stop: I64, step: I64): Result<seq<CtValue>, Error>
    requires step != 0
  {
    var n := FirstPast(start, stop, step, 0);
    if !InI64(start + n * step) then Err(Overflow)
    else Ok(seq(n, k requires 0 <= k < n => TermsInRange(start, stop, step, k); CtValue.Int(start + k * step)))
  }

  lemma RangeIsAllTerms(start: I64, stop: I64, step: I64)
    requires step != 0
    ensures RangeFrom(start, stop, step) == Progression(start, stop, step)
  {
    var n, r := FirstPast(start, stop, step, 0), RangeFrom(start, stop, step);
    forall k: nat ensures Term(start, step, k) == start + k * step { TermIsLinear(start, step, k); }
    RangeIsProgression(start, stop, step);
    if r.Ok? {
      var m := |r.value|;
      assert m < n ==> Before(start + m * step, stop, step);
      forall k: nat | k < m ensures Before(start + k * step, stop, step) {
        assert Before(Term(start, step, k), stop, step);
      }
      assert m == n;
      assert Progression(start, stop, step).value == r.value;
    } else {
      var m: nat :| LeavesI64(start, stop, step, m);
      LastTermOverflows(start, stop, step, m);
    }
  }

  lemma LastTermOverflows(start: I64, stop: I64, step: I64, m: nat)
    requires step != 0 && Before(start + m * step, stop, step) && !InI64(start + (m + 1) * step)
    ensures !InI64(start + FirstPast(start, stop, step, 0) * step)
  {
    var n := FirstPast(start, stop, step, 0);
    assert (m + 1) * step == m * step + step;
    TermsAdvance(start, step, 0, m);
    if n <= m { TermsAdvance(start, step, n, m); }
    assert m + 1 < n ==> Before(start + (m + 1) * step, stop, step);
  }

  /** `range(stop)`, `range(start, stop)` and `range(start, stop, step)` with a step that is not 0. */
  function RangeOf(bounds: seq<I64>): Result<seq<CtValue>, Error> {
    match |bounds|
    case 1 => Progression(0, bounds[0], 1)
    case 2 => Progression(bounds[0], bounds[1], 1)
    case 3 => if bounds[2] == 0 then Err(BadRange) else Progression(bounds[0], bounds[1], bounds[2])
    case _ => Err(BadRange)
  }

  /** The values a `comptime for` runs over. */
  function LoopValues(iter: Expr, env: Scope): Result<seq<CtValue>, Error> {
    if iter.Apply? && iter.operation.Range? then
      var bounds :- EvalInts(iter.args, env);
      RangeOf(bounds)
    else
      match Eval(iter, env)
      case Ok(Tuple(items)) => Ok(items)
      case Ok(List(items)) => Ok(items)
      case Ok(_) => Err(BadRange)
      case Err(e) => Err(e)
  }

  /** The elaborator runs over the values that are meant. */
  lemma IteratesLoopValues(iter: Expr, env: Scope)
    ensures EvalIter(iter, env) == LoopValues(iter, env)
  {
    if iter.Apply? && iter.operation.Range? && EvalInts(iter.args, env).Ok? {
      var bounds := EvalInts(iter.args, env).value;
      if |bounds| == 1 { RangeIsAllTerms(0, bounds[0], 1); }
      if |bounds| == 2 { RangeIsAllTerms(bounds[0], bounds[1], 1); }
      if |bounds| == 3 && bounds[2] != 0 { RangeIsAllTerms(bounds[0], bounds[1], bounds[2]); }
    }
  }

  /** The bounds of a range are the integers its arguments evaluate to. */
  lemma {:induction false} BoundsExactly(es: seq<Expr>, env: Scope, bounds: seq<I64>)
    ensures EvalInts(es, env) == Ok(bounds) <==>
            |bounds| == |es| && forall k :: 0 <= k < |es| ==> Eval(es[k], env) == Ok(CtValue.Int(bounds[k]))
  {
    if es != [] && bounds != [] {
      BoundsExactly(es[1..], env, bounds[1..]);
      assert bounds == [bounds[0]] + bounds[1..];
      if |bounds| == |es| {
        assert (forall k :: 0 <= k < |es| ==> Eval(es[k], env) == Ok(CtValue.Int(bounds[k]))) <==>
          && Eval(es[0], env) == Ok(CtValue.Int(bounds[0]))
          && (forall k :: 0 <= k < |es[1..]| ==> Eval(es[1..][k], env) == Ok(CtValue.Int(bounds[1..][k]))) by {
          assert forall k :: 1 <= k < |es| ==> es[k] == es[1..][k - 1] && bounds[k] == bounds[1..][k - 1];
        }
      }
    }
  }
}
