/** The operand list of an expression loses nothing and keeps its order: putting the operands back, one after the
    other, into the form of the expression gives the expression again. */
module CheckedOperands {
  import opened CheckedSyntax

  const HOLE: Expr := Expr(Span("", 0), Atom(""))

  /** What is put into a place, and what is left for the places after it. */
  function Next(es: seq<Expr>): (Expr, seq<Expr>) {
    if es == [] then (HOLE, []) else (es[0], es[1..])
  }

  function FillAll(places: seq<Expr>, es: seq<Expr>): (seq<Expr>, seq<Expr>) {
    if places == [] then ([], es)
    else
      var (e, rest) := Next(es);
      var (others, left) := FillAll(places[1..], rest);
      ([e] + others, left)
  }

  function FillOpt(place: OptExpr, es: seq<Expr>): (OptExpr, seq<Expr>) {
    if place.Absent? then (Absent, es)
    else
      var (e, rest) := Next(es);
      (Present(e), rest)
  }

  function FillEntries(places: seq<Entry>, es: seq<Expr>): (seq<Entry>, seq<Expr>) {
    if places == [] then ([], es)
    else
      var (key, rest) := Next(es);
      var (value, rest1) := FillOpt(places[0].value, rest);
      var (others, left) := FillEntries(places[1..], rest1);
      ([Entry(key, value)] + others, left)
  }

  function FillClauses(places: seq<Clause>, es: seq<Expr>): (seq<Clause>, seq<Expr>) {
    if places == [] then ([], es)
    else
      var (e, rest) := Next(es);
      var (others, left) := FillClauses(places[1..], rest);
      ([if places[0].ForClause? then ForClause(e) else IfClause(e)] + others, left)
  }

  datatype Bounds = Bounds(lower: OptExpr, upper: OptExpr, step: OptExpr)

  function FillBounds(places: Bounds, es: seq<Expr>): (Bounds, seq<Expr>) {
    var (lower, rest) := FillOpt(places.lower, es);
    var (upper, rest1) := FillOpt(places.upper, rest);
    var (step, rest2) := FillOpt(places.step, rest1);
    (Bounds(lower, upper, step), rest2)
  }

  function FillSubscript(place: Subscript, es: seq<Expr>): (Subscript, seq<Expr>) {
    match place
    case IndexArg(_) =>
      var (e, rest) := Next(es);
      (IndexArg(e), rest)
    case SliceArg(lower, upper, step) =>
      var (bounds, rest) := FillBounds(Bounds(lower, upper, step), es);
      (SliceArg(bounds.lower, bounds.upper, bounds.step), rest)
  }

  function FillSubscripts(places: seq<Subscript>, es: seq<Expr>): (seq<Subscript>, seq<Expr>) {
    if places == [] then ([], es)
    else
      var (s, rest) := FillSubscript(places[0], es);
      var (others, left) := FillSubscripts(places[1..], rest);
      ([s] + others, left)
  }

  function FillParts(places: seq<Part>, es: seq<Expr>): (seq<Part>, seq<Expr>) {
    if places == [] then ([], es)
    else if places[0].Text? then
      var (others, left) := FillParts(places[1..], es);
      ([places[0]] + others, left)
    else
      var (e, rest) := Next(es);
      var (others, left) := FillParts(places[1..], rest);
      ([Hole(e)] + others, left)
  }

  /** Each place of the form takes the next operand: in textual order, except that a comprehension is filled from its
      clauses on. What stood in the places does not matter. */
  function Filled(kind: ExprKind, es: seq<Expr>): ExprKind {
    var (a, rest) := Next(es);
    var (b, rest1) := Next(rest);
    var (c, _) := Next(rest1);
    match kind
    case Prefix(_) => Prefix(a)
    case Transfer(_) => Transfer(a)
    case Spread(_) => Spread(a)
    case Named(_) => Named(a)
    case Infix(_, _) => Infix(a, b)
    case Index(_, _) => Index(a, b)
    case Call(args, kwargs) =>
      var (xs, left) := FillAll(args, es);
      Call(xs, FillAll(kwargs, left).0)
    case Invoke(_, args, kwargs) =>
      var (xs, left) := FillAll(args, rest);
      Invoke(a, xs, FillAll(kwargs, left).0)
    case Member(_) => Member(a)
    case MethodCall(_, args, kwargs) =>
      var (xs, left) := FillAll(args, rest);
      MethodCall(a, xs, FillAll(kwargs, left).0)
    case ListLit(values) => ListLit(FillAll(values, es).0)
    case TupleLit(values) => TupleLit(FillAll(values, es).0)
    case BraceLit(entries) => BraceLit(FillEntries(entries, es).0)
    case Comprehension(key, _, clauses) =>
      var (cs, left) := FillClauses(clauses, es);
      var (k, left1) := FillOpt(key, left);
      Comprehension(k, Next(left1).0, cs)
    case IfExpr(_, _, _) => IfExpr(a, b, c)
    case Compare(_, others) => Compare(a, FillAll(others, rest).0)
    case Slice(_, lower, upper, step) =>
      var bounds := FillBounds(Bounds(lower, upper, step), rest).0;
      Slice(a, bounds.lower, bounds.upper, bounds.step)
    case MultiIndex(_, subscripts) => MultiIndex(a, FillSubscripts(subscripts, rest).0)
    case TString(parts) => TString(FillParts(parts, es).0)
    case _ => kind
  }

  /** The expression with a hole in every place. */
  function Form(kind: ExprKind): ExprKind {
    Filled(kind, [])
  }

  lemma {:induction false} AllRefilled(es: seq<Expr>, after: seq<Expr>)
    ensures FillAll(FillAll(es, []).0, es + after) == (es, after)
  {
    if es == [] {
      assert es + after == after;
    } else {
      AllRefilled(es[1..], after);
      assert (es + after)[1..] == es[1..] + after;
      assert FillAll(es, []).0 == [HOLE] + FillAll(es[1..], []).0;
      assert es == [es[0]] + es[1..];
    }
  }

  lemma {:induction false} NothingLeft(places: seq<Expr>)
    ensures FillAll(places, []).1 == []
  {
    if places != [] { NothingLeft(places[1..]); }
  }

  lemma OptRefilled(o: OptExpr, after: seq<Expr>)
    ensures FillOpt(FillOpt(o, []).0, Given(o) + after) == (o, after)
  {
    assert o.Absent? ==> Given(o) + after == after;
    assert o.Present? ==> (Given(o) + after)[1..] == after;
  }

  lemma {:induction false} EntriesRefilled(entries: seq<Entry>, after: seq<Expr>)
    ensures FillEntries(FillEntries(entries, []).0, EntryOperands(entries) + after) == (entries, after)
  {
    if entries == [] {
      assert EntryOperands(entries) + after == after;
    } else {
      var later := EntryOperands(entries[1..]) + after;
      EntriesRefilled(entries[1..], after);
      OptRefilled(entries[0].value, later);
      assert EntryOperands(entries) + after == [entries[0].key] + (Given(entries[0].value) + later);
      assert FillEntries(entries, []).0[1..] == FillEntries(entries[1..], []).0;
      assert entries == [entries[0]] + entries[1..];
    }
  }

  lemma {:induction false} ClausesRefilled(clauses: seq<Clause>, after: seq<Expr>)
    ensures FillClauses(FillClauses(clauses, []).0, ClauseOperands(clauses) + after) == (clauses, after)
  {
    if clauses == [] {
      assert ClauseOperands(clauses) + after == after;
    } else {
      ClausesRefilled(clauses[1..], after);
      assert (ClauseOperands(clauses) + after)[1..] == ClauseOperands(clauses[1..]) + after;
      assert FillClauses(clauses, []).0[1..] == FillClauses(clauses[1..], []).0;
      assert clauses == [clauses[0]] + clauses[1..];
    }
  }

  function OperandsOfBounds(b: Bounds): seq<Expr> {
    Given(b.lower) + Given(b.upper) + Given(b.step)
  }

  lemma BoundsRefilled(b: Bounds, after: seq<Expr>)
    ensures FillBounds(FillBounds(b, []).0, OperandsOfBounds(b) + after) == (b, after)
    ensures FillBounds(b, []).1 == []
  {
    var third := Given(b.step) + after;
    var second := Given(b.upper) + third;
    OptRefilled(b.step, after);
    OptRefilled(b.upper, third);
    OptRefilled(b.lower, second);
    Regrouped(Given(b.lower), Given(b.upper), Given(b.step), after);
    BoundsFilledInTurn(FillBounds(b, []).0, b, Given(b.lower) + second, second, third, after);
  }

  lemma Regrouped(a: seq<Expr>, b: seq<Expr>, c: seq<Expr>, d: seq<Expr>)
    ensures a + b + c + d == a + (b + (c + d))
  {
  }

  lemma BoundsFilledInTurn(places: Bounds, b: Bounds, first: seq<Expr>, second: seq<Expr>, third: seq<Expr>,
                           after: seq<Expr>)
    requires FillOpt(places.lower, first) == (b.lower, second)
    requires FillOpt(places.upper, second) == (b.upper, third)
    requires FillOpt(places.step, third) == (b.step, after)
    ensures FillBounds(places, first) == (b, after)
  {
  }

  lemma SubscriptRefilled(s: Subscript, after: seq<Expr>)
    ensures FillSubscript(FillSubscript(s, []).0, OperandsOfSubscript(s) + after) == (s, after)
    ensures FillSubscript(s, []).1 == []
  {
    match s
    case IndexArg(value) => assert ([value] + after)[1..] == after;
    case SliceArg(lower, upper, step) => BoundsRefilled(Bounds(lower, upper, step), after);
  }

  lemma {:induction false} SubscriptsRefilled(subscripts: seq<Subscript>, after: seq<Expr>)
    ensures FillSubscripts(FillSubscripts(subscripts, []).0, SubscriptOperands(subscripts) + after)
      == (subscripts, after)
  {
    if subscripts == [] {
      assert SubscriptOperands(subscripts) + after == after;
    } else {
      SubscriptsRefilled(subscripts[1..], after);
      FirstSubscriptRefilled(subscripts, after);
    }
  }

  lemma FirstSubscriptRefilled(subscripts: seq<Subscript>, after: seq<Expr>)
    requires subscripts != []
    requires var tail := subscripts[1..];
             FillSubscripts(FillSubscripts(tail, []).0, SubscriptOperands(tail) + after) == (tail, after)
    ensures FillSubscripts(FillSubscripts(subscripts, []).0, SubscriptOperands(subscripts) + after)
      == (subscripts, after)
  {
    var tail := subscripts[1..];
    var later := SubscriptOperands(tail) + after;
    SubscriptRefilled(subscripts[0], later);
    assert SubscriptOperands(subscripts) + after == OperandsOfSubscript(subscripts[0]) + later;
    var places := FillSubscripts(subscripts, []).0;
    assert places == [FillSubscript(subscripts[0], []).0] + FillSubscripts(tail, []).0;
    assert places[1..] == FillSubscripts(tail, []).0;
    assert subscripts == [subscripts[0]] + tail;
  }

  lemma {:induction false} PartsRefilled(parts: seq<Part>, after: seq<Expr>)
    ensures FillParts(FillParts(parts, []).0, PartOperands(parts) + after) == (parts, after)
  {
    if parts == [] {
      assert PartOperands(parts) + after == after;
    } else {
      PartsRefilled(parts[1..], after);
      assert FillParts(parts, []).0[1..] == FillParts(parts[1..], []).0;
      assert parts == [parts[0]] + parts[1..];
      if parts[0].Hole? {
        assert (PartOperands(parts) + after)[1..] == PartOperands(parts[1..]) + after;
      } else {
        assert PartOperands(parts) + after == PartOperands(parts[1..]) + after;
      }
    }
  }

  lemma CallRefilled(args: seq<Expr>, kwargs: seq<Expr>)
    ensures FillAll(FillAll(args, []).0, args + kwargs) == (args, kwargs)
    ensures FillAll(FillAll(kwargs, []).0, kwargs).0 == kwargs
    ensures FillAll(args, []).1 == []
  {
    NothingLeft(args);
    AllRefilled(args, kwargs);
    AllRefilled(kwargs, []);
    assert kwargs + [] == kwargs;
  }

  /** An expression is recovered from its form and its operands: none is left out, and their order is that of the places
      they come from. */
  lemma OperandsRefill(kind: ExprKind)
    ensures Filled(Form(kind), OperandsOf(kind)) == kind
  {
    match kind
    case Call(args, kwargs) => CallRefilled(args, kwargs);
    case Comprehension(key, result, clauses) => ComprehensionRefilled(key, result, clauses);
    case _ => if IsLiteral(kind) { LiteralRefilled(kind); } else { HeadedRefill(kind); }
  }

  predicate IsLiteral(kind: ExprKind) {
    kind.ListLit? || kind.TupleLit? || kind.BraceLit? || kind.TString?
  }

  lemma LiteralRefilled(kind: ExprKind)
    requires IsLiteral(kind)
    ensures Filled(Form(kind), OperandsOf(kind)) == kind
  {
    assert OperandsOf(kind) + [] == OperandsOf(kind);
    if kind.ListLit? || kind.TupleLit? { AllRefilled(kind.values, []); }
    if kind.BraceLit? { EntriesRefilled(kind.entries, []); }
    if kind.TString? { PartsRefilled(kind.parts, []); }
  }

  lemma ComprehensionRefilled(key: OptExpr, result: Expr, clauses: seq<Clause>)
    ensures var kind := Comprehension(key, result, clauses); Filled(Form(kind), OperandsOf(kind)) == kind
  {
    ClausesRefilled(clauses, Given(key) + [result]);
    OptRefilled(key, [result]);
    assert OperandsOf(Comprehension(key, result, clauses)) == ClauseOperands(clauses) + (Given(key) + [result]);
  }

  /** The forms that begin with an operand. */
  lemma HeadedRefill(kind: ExprKind)
    requires !kind.Call? && !kind.Comprehension? && !IsLiteral(kind)
    ensures Filled(Form(kind), OperandsOf(kind)) == kind
  {
    match kind
    case Invoke(callee, args, kwargs) => InvokeRefilled(callee, args, kwargs);
    case MethodCall(target, args, kwargs) => MethodCallRefilled(target, args, kwargs);
    case Compare(first, rest) =>
      AllRefilled(rest, []);
      assert OperandsOf(kind)[1..] == rest == rest + [];
    case Slice(target, lower, upper, step) => SliceRefilled(target, lower, upper, step);
    case MultiIndex(target, subscripts) =>
      SubscriptsRefilled(subscripts, []);
      assert OperandsOf(kind)[1..] == SubscriptOperands(subscripts) + [];
    case _ => FixedRefilled(kind);
  }

  lemma InvokeRefilled(callee: Expr, args: seq<Expr>, kwargs: seq<Expr>)
    ensures var kind := Invoke(callee, args, kwargs); Filled(Form(kind), OperandsOf(kind)) == kind
  {
    CallRefilled(args, kwargs);
    assert OperandsOf(Invoke(callee, args, kwargs))[1..] == args + kwargs;
  }

  lemma MethodCallRefilled(target: Expr, args: seq<Expr>, kwargs: seq<Expr>)
    ensures var kind := MethodCall(target, args, kwargs); Filled(Form(kind), OperandsOf(kind)) == kind
  {
    CallRefilled(args, kwargs);
    assert OperandsOf(MethodCall(target, args, kwargs))[1..] == args + kwargs;
  }

  lemma SliceRefilled(target: Expr, lower: OptExpr, upper: OptExpr, step: OptExpr)
    ensures var kind := Slice(target, lower, upper, step); Filled(Form(kind), OperandsOf(kind)) == kind
  {
    var kind := Slice(target, lower, upper, step);
    BoundsRefilled(Bounds(lower, upper, step), []);
    assert OperandsOf(kind)[1..] == OperandsOfBounds(Bounds(lower, upper, step)) + [];
  }

  /** The forms with one, two or three places, and those with none. */
  lemma FixedRefilled(kind: ExprKind)
    requires |OperandsOf(kind)| <= 3
    requires !kind.Call? && !kind.Comprehension? && !IsLiteral(kind)
    requires !kind.Invoke? && !kind.MethodCall? && !kind.Compare? && !kind.Slice? && !kind.MultiIndex?
    ensures Filled(Form(kind), OperandsOf(kind)) == kind
  {
    var es := OperandsOf(kind);
    assert |es| > 1 ==> Next(es).1 == es[1..] && Next(es[1..]).0 == es[1];
    assert |es| > 2 ==> Next(es[1..]).1 == es[1..][1..] && Next(es[1..][1..]).0 == es[2];
  }
}
