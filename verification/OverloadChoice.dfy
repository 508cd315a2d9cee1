/** Choosing among the overloads that fit a call: the packed rank of a candidate, and the ways the best is selected. */
module OverloadChoice {
  import opened Wrappers

  // ----- rank -----

  /** What ranks a candidate: fewer conversions first, then fixed before variadic, shorter, and concrete before
      generic. */
  datatype Key = Key(conversions: nat, variadic: bool, length: nat, generic: bool)

  const CONVERSION_RANK: nat := 0x100_0000
  const VARIADIC_RANK: nat := 0x1_0000
  const SIGNATURE_LENGTH_RANK: nat := 0x100

  function Bit(b: bool): nat {
    if b then 1 else 0
  }

  function OverloadRank(k: Key): nat {
    k.conversions * CONVERSION_RANK + Bit(k.variadic) * VARIADIC_RANK +
    k.length * SIGNATURE_LENGTH_RANK + Bit(k.generic)
  }

  predicate Before(a: Key, b: Key) {
    a.conversions < b.conversions || (a.conversions == b.conversions &&
      (Bit(a.variadic) < Bit(b.variadic) || (a.variadic == b.variadic &&
        (a.length < b.length || (a.length == b.length && Bit(a.generic) < Bit(b.generic))))))
  }

  /** Below 256 parameters the rank orders candidates as their keys do, field by field. */
  lemma RankIsLexicographic(a: Key, b: Key)
    requires a.length < 256 && b.length < 256
    ensures OverloadRank(a) < OverloadRank(b) <==> Before(a, b)
    ensures OverloadRank(a) == OverloadRank(b) <==> a == b
  {
    RestIsSmall(a);
    RestIsSmall(b);
  }

  lemma RestIsSmall(k: Key)
    requires k.length < 256
    ensures OverloadRank(k) - k.conversions * CONVERSION_RANK < CONVERSION_RANK
  {
  }

  ghost predicate OrdersBelow(limit: nat) {
    forall a: Key, b: Key :: a.length < limit && b.length < limit ==>
      (OverloadRank(a) < OverloadRank(b) <==> Before(a, b))
  }

  /** And 256 is exactly where that ends: a fixed overload of 256 parameters ties with an empty variadic one. */
  lemma RankIsLexicographicExactly(limit: nat)
    ensures OrdersBelow(limit) <==> limit <= 256
  {
    if limit <= 256 {
      forall a: Key, b: Key | a.length < limit && b.length < limit ensures OverloadRank(a) < OverloadRank(b) <==>
        Before(a, b) {
        RankIsLexicographic(a, b);
      }
    } else {
      var fixed, variadic := Key(0, false, 256, false), Key(0, true, 0, false);
      assert Before(fixed, variadic) && OverloadRank(fixed) == OverloadRank(variadic);
    }
  }

  // ----- selection -----

  datatype Candidate<T> = Candidate(value: T, rank: nat)

  datatype Failure = NoMatch | Ambiguous

  /** One candidate, occurring once, ranks strictly before all others. */
  predicate Best<T(==)>(cands: multiset<Candidate<T>>, c: Candidate<T>) {
    cands[c] == 1 && forall d <- cands :: d == c || c.rank < d.rank
  }

  /** The selected candidate is the only best one; without one there is no match or no single best match. */
  ghost predicate Selects<T(!new)>(cands: multiset<Candidate<T>>, r: Result<Candidate<T>, Failure>) {
    match r
    case Ok(c) => Best(cands, c)
    case Err(NoMatch) => cands == multiset{}
    case Err(Ambiguous) => cands != multiset{} && forall c :: !Best(cands, c)
  }

  /** Selection depends only on which candidates there are: any two selections agree, whatever the order. */
  lemma SelectionIsUnique<T(!new)>(a: seq<Candidate<T>>, b: seq<Candidate<T>>,
                                   r: Result<Candidate<T>, Failure>, s: Result<Candidate<T>, Failure>)
    requires multiset(a) == multiset(b)
    requires Selects(multiset(a), r) && Selects(multiset(b), s)
    ensures r == s
  {
    assert forall c :: Best(multiset(a), c) ==> c in multiset(a);
  }

  /** The candidates of a rank. */
  function WithRank<T>(cands: seq<Candidate<T>>, rank: nat): seq<Candidate<T>> {
    if cands == [] then []
    else (if cands[0].rank == rank then [cands[0]] else []) + WithRank(cands[1..], rank)
  }

  lemma {:induction false} WithRankExact<T>(cands: seq<Candidate<T>>, rank: nat, c: Candidate<T>)
    ensures multiset(WithRank(cands, rank))[c] == if c.rank == rank then multiset(cands)[c] else 0
  {
    if cands != [] {
      assert cands == [cands[0]] + cands[1..];
      WithRankExact(cands[1..], rank, c);
    }
  }

  lemma {:induction false} WithRankIn<T>(cands: seq<Candidate<T>>, rank: nat)
    ensures forall c <- WithRank(cands, rank) :: c in cands && c.rank == rank
  {
    if cands != [] { WithRankIn(cands[1..], rank); }
  }

  /** `select_callable_overload` and `select_method_overload`: the least rank, and the candidates that have it. */
  method SelectOverload<T(==, !new)>(matches: seq<Candidate<T>>) returns (r: Result<Candidate<T>, Failure>)
    ensures Selects(multiset(matches), r)
  {
    if matches == [] { return Err(NoMatch); }
    var best := matches[0].rank;
    for k := 1 to |matches|
      invariant exists c <- matches :: c.rank == best
      invariant forall j :: 0 <= j < k ==> best <= matches[j].rank
    {
      assert matches[k] in matches;
      if matches[k].rank < best { best := matches[k].rank; }
    }
    var bestMatches := WithRank(matches, best);
    WithRankIn(matches, best);
    var leader :| leader in matches && leader.rank == best;
    WithRankExact(matches, best, leader);
    if |bestMatches| == 1 {
      r := Ok(bestMatches[0]);
      OneOfRankIsBest(matches, best);
    } else {
      r := Err(Ambiguous);
      SeveralOfRankAreAmbiguous(matches, best);
    }
  }

  lemma OneOfRankIsBest<T>(matches: seq<Candidate<T>>, best: nat)
    requires forall j :: 0 <= j < |matches| ==> best <= matches[j].rank
    requires |WithRank(matches, best)| == 1
    ensures Best(multiset(matches), WithRank(matches, best)[0])
  {
    var c := WithRank(matches, best)[0];
    assert WithRank(matches, best) == [c];
    WithRankIn(matches, best);
    WithRankExact(matches, best, c);
    forall d <- multiset(matches) ensures d == c || c.rank < d.rank {
      WithRankExact(matches, best, d);
      var j :| 0 <= j < |matches| && matches[j] == d;
    }
  }

  lemma SeveralOfRankAreAmbiguous<T(!new)>(matches: seq<Candidate<T>>, best: nat)
    requires forall j :: 0 <= j < |matches| ==> best <= matches[j].rank
    requires |WithRank(matches, best)| >= 2
    ensures forall c :: !Best(multiset(matches), c)
  {
    var several := WithRank(matches, best);
    WithRankIn(matches, best);
    assert several[0] in several && several[1] in several;
    assert several[0] in multiset(matches) && several[1] in multiset(matches);
    forall c ensures !Best(multiset(matches), c) {
      WithRankExact(matches, best, c);
      CountsFirstTwo(several, c);
    }
  }

  lemma CountsFirstTwo<T>(s: seq<Candidate<T>>, c: Candidate<T>)
    requires |s| >= 2
    ensures multiset(s)[c] >= Bit(s[0] == c) + Bit(s[1] == c)
  {
    assert s == [s[0]] + ([s[1]] + s[2..]);
  }

  // ----- the variant for subscripts -----

  predicate Sorted<T>(cands: seq<Candidate<T>>) {
    |cands| >= 2 ==> cands[0].rank <= cands[1].rank && Sorted(cands[1..])
  }

  /** `c` goes before those that rank no better. */
  function Insert<T>(c: Candidate<T>, sorted: seq<Candidate<T>>): (r: seq<Candidate<T>>)
    requires Sorted(sorted)
    ensures Sorted(r) && r != [] && (r[0] == c || (sorted != [] && r[0] == sorted[0]))
    ensures multiset(r) == multiset(sorted) + multiset{c}
  {
    if sorted == [] || c.rank <= sorted[0].rank then
      assert ([c] + sorted)[1..] == sorted;
      [c] + sorted
    else
      assert sorted == [sorted[0]] + sorted[1..];
      var rest := Insert(c, sorted[1..]);
      assert ([sorted[0]] + rest)[1..] == rest;
      [sorted[0]] + rest
  }

  /** A stable sort. */
  function SortByRank<T>(matches: seq<Candidate<T>>): (r: seq<Candidate<T>>)
    ensures Sorted(r) && multiset(r) == multiset(matches)
  {
    if matches == [] then []
    else
      assert matches == [matches[0]] + matches[1..];
      Insert(matches[0], SortByRank(matches[1..]))
  }

  lemma {:induction false} FirstIsLeast<T>(sorted: seq<Candidate<T>>)
    requires Sorted(sorted)
    ensures forall d <- sorted :: sorted[0].rank <= d.rank
  {
    if |sorted| >= 2 {
      FirstIsLeast(sorted[1..]);
      assert forall d <- sorted :: d == sorted[0] || d in sorted[1..];
    }
  }

  /** The tie handling of `resolve_struct_subscript`: after sorting, only the first two are compared. */
  method SelectSubscript<T(==, !new)>(matches: seq<Candidate<T>>) returns (r: Result<Candidate<T>, Failure>)
    ensures Selects(multiset(matches), r)
  {
    var sorted := SortByRank(matches);
    if sorted == [] {
      assert multiset(matches) == multiset{};
      return Err(NoMatch);
    }
    if |sorted| > 1 && sorted[1].rank == sorted[0].rank {
      TiedFirstIsAmbiguous(sorted);
      r := Err(Ambiguous);
    } else {
      AloneFirstIsBest(sorted);
      r := Ok(sorted[0]);
    }
  }

  lemma TiedFirstIsAmbiguous<T(!new)>(sorted: seq<Candidate<T>>)
    requires Sorted(sorted) && |sorted| > 1 && sorted[1].rank == sorted[0].rank
    ensures multiset(sorted) != multiset{} && forall c :: !Best(multiset(sorted), c)
  {
    FirstIsLeast(sorted);
    assert sorted[0] in multiset(sorted) && sorted[1] in multiset(sorted);
    forall c ensures !Best(multiset(sorted), c) {
      CountsFirstTwo(sorted, c);
      assert c in multiset(sorted) ==> c in sorted;
    }
  }

  lemma AloneFirstIsBest<T>(sorted: seq<Candidate<T>>)
    requires Sorted(sorted) && sorted != [] && (|sorted| > 1 ==> sorted[1].rank != sorted[0].rank)
    ensures Best(multiset(sorted), sorted[0])
  {
    assert sorted == [sorted[0]] + sorted[1..];
    if |sorted| > 1 { FirstIsLeast(sorted[1..]); }
    assert forall d <- sorted[1..] :: sorted[0].rank < d.rank;
    assert sorted[0] !in sorted[1..];
  }
}
