/** Binding the arguments of a call to the parameters of a declaration. */
module CallBinding {
  import opened Wrappers

  datatype ArgSlot = Positional(index: nat) | Keyword(index: nat) | Default

  datatype MatchError =
    | TooManyPositional(expected: nat, got: nat)
    | UnknownKeyword(name: string)
    | PositionalOnly(name: string)
    | Duplicate(name: string)
    | Missing(name: string)

  datatype CallVariadics = CallVariadics(positional: bool, keyword: bool)

  datatype CallSlots = CallSlots(slots: seq<ArgSlot>, positionalOverflow: seq<nat>, keywordOverflow: seq<nat>)

  /** What a declaration accepts. `positionalOnly` and `keywordOnly` are the parameter indices at which the `/` and
      `*` markers stand. */
  datatype Signature = Signature(
    names: seq<string>, required: seq<bool>, positionalOnly: Option<nat>, keywordOnly: Option<nat>,
      variadics: CallVariadics)

  function Min(a: nat, b: nat): nat {
    if a < b then a else b
  }

  /** How many positional arguments go to parameters. */
  function PositionalLimit(sig: Signature): nat {
    Min(if sig.keywordOnly.Some? then sig.keywordOnly.value else |sig.names|, |sig.names|)
  }

  /** There is a parameter at `p`, and no keyword-only marker stands at or before it. */
  predicate TakesPositional(sig: Signature, p: nat) {
    p < |sig.names| && (sig.keywordOnly.Some? ==> p < sig.keywordOnly.value)
  }

  /** A positional argument goes to the parameter at `p`. */
  predicate TakenByPosition(sig: Signature, npos: nat, p: nat) {
    p < npos && TakesPositional(sig, p)
  }

  /** The limit counts the parameters that take positional arguments. */
  lemma LimitCountsPositionals(sig: Signature, p: nat)
    ensures p < PositionalLimit(sig) <==> TakesPositional(sig, p)
  {
  }

  /** The first parameter of that name. */
  function Position(names: seq<string>, name: string): (p: Option<nat>)
    ensures p.None? <==> name !in names
    ensures p.Some? ==> p.value < |names| && names[p.value] == name && name !in names[..p.value]
  {
    if names == [] then None
    else if names[0] == name then Some(0)
    else
      match Position(names[1..], name)
      case None => None
      case Some(i) => Some(i + 1)
  }

  // ----- what a legal binding is -----

  /** A positional argument goes to the parameter of the same index if no keyword-only marker stands at or before it,
      and otherwise to the collector, in order. */
  ghost predicate PositionalsBound(sig: Signature, npos: nat, b: CallSlots) {
    && (forall p :: 0 <= p < |b.slots| ==> (b.slots[p].Positional? <==> TakenByPosition(sig, npos, p)))
    && (forall p :: 0 <= p < |b.slots| && b.slots[p].Positional? ==> b.slots[p].index == p)
    && (forall i: nat :: i in b.positionalOverflow <==> i < npos && !TakesPositional(sig, i))
    && (b.positionalOverflow != [] ==> sig.variadics.positional)
    && Ascending(b.positionalOverflow, npos)
  }

  /** Keywords go to the parameter they name, which must accept a keyword, the others to the collector, in order; each
      is used exactly once, and no name is used twice. */
  ghost predicate KeywordsBound(sig: Signature, keywords: seq<string>, b: CallSlots) {
    && (forall p :: 0 <= p < |b.slots| && b.slots[p].Keyword? ==>
          && b.slots[p].index < |keywords| && Position(sig.names, keywords[b.slots[p].index]) == Some(p)
          && (sig.positionalOnly.Some? ==> sig.positionalOnly.value <= p))
    && (forall k :: 0 <= k < |keywords| ==>
          match Position(sig.names, keywords[k])
          case Some(p) => p < |b.slots| && b.slots[p] == Keyword(k) && k !in b.keywordOverflow
          case None => k in b.keywordOverflow)
    && (b.keywordOverflow != [] ==> sig.variadics.keyword)
    && Ascending(b.keywordOverflow, |keywords|)
    && (forall j, k :: 0 <= j < k < |keywords| ==> keywords[j] != keywords[k])
  }

  ghost predicate Ascending(indices: seq<nat>, bound: nat) {
    && (forall i :: 0 <= i < |indices| ==> indices[i] < bound)
    && (forall i, j :: 0 <= i < j < |indices| ==> indices[i] < indices[j])
  }

  /** The one meaning of a call: every argument used once and where the signature allows it, and defaults only for
      parameters that have one. */
  ghost predicate Legal(sig: Signature, npos: nat, keywords: seq<string>, b: CallSlots)
    requires |sig.required| == |sig.names|
  {
    && |b.slots| == |sig.names|
    && PositionalsBound(sig, npos, b)
    && KeywordsBound(sig, keywords, b)
    && forall p :: 0 <= p < |b.slots| && b.slots[p] == Default ==> !sig.required[p]
  }

  lemma {:induction false} AscendingUnique(a: seq<nat>, b: seq<nat>, bound: nat)
    requires Ascending(a, bound) && Ascending(b, bound)
    requires forall i :: i in a <==> i in b
    ensures a == b
    decreases |a|
  {
    assert a == [] || a[0] in a;
    assert b == [] || b[0] in b;
    if a != [] && b != [] {
      assert a[0] in b && b[0] in a;
      assert a[0] == b[0];
      forall i
        ensures i in a[1..] <==> i in b[1..]
      {
        assert i in a[1..] <==> i in a && i != a[0] by {
          assert a == [a[0]] + a[1..];
        }
        assert i in b[1..] <==> i in b && i != b[0] by {
          assert b == [b[0]] + b[1..];
        }
      }
      AscendingUnique(a[1..], b[1..], bound);
      assert a == [a[0]] + a[1..] && b == [b[0]] + b[1..];
    }
  }

  lemma SlotIsDetermined(sig: Signature, npos: nat, keywords: seq<string>, a: CallSlots, b: CallSlots, p: nat)
    requires |sig.required| == |sig.names|
    requires Legal(sig, npos, keywords, a) && Legal(sig, npos, keywords, b)
    requires p < |sig.names| && a.slots[p] != Default
    ensures b.slots[p] == a.slots[p]
  {
    match a.slots[p]
    case Positional(i) =>
    case Keyword(k) => assert Position(sig.names, keywords[k]) == Some(p);
  }

  /** There is at most one legal binding. */
  lemma LegalUnique(sig: Signature, npos: nat, keywords: seq<string>, a: CallSlots, b: CallSlots)
    requires |sig.required| == |sig.names|
    requires Legal(sig, npos, keywords, a) && Legal(sig, npos, keywords, b)
    ensures a == b
  {
    AscendingUnique(a.positionalOverflow, b.positionalOverflow, npos);
    forall k
      ensures k in a.keywordOverflow <==> k in b.keywordOverflow
    {
      UnknownOverflows(sig, keywords, a, k);
      UnknownOverflows(sig, keywords, b, k);
    }
    AscendingUnique(a.keywordOverflow, b.keywordOverflow, |keywords|);
    forall p | 0 <= p < |sig.names|
      ensures a.slots[p] == b.slots[p]
    {
      if a.slots[p] != Default {
        SlotIsDetermined(sig, npos, keywords, a, b, p);
      } else if b.slots[p] != Default {
        SlotIsDetermined(sig, npos, keywords, b, a, p);
      }
    }
  }

  lemma UnknownOverflows(sig: Signature, keywords: seq<string>, b: CallSlots, k: nat)
    requires KeywordsBound(sig, keywords, b)
    ensures k in b.keywordOverflow <==> k < |keywords| && keywords[k] !in sig.names
  {
    if k in b.keywordOverflow {
      var j :| 0 <= j < |b.keywordOverflow| && b.keywordOverflow[j] == k;
    }
  }

  // ----- errors -----

  /** What each error reports. */
  ghost predicate Explains(sig: Signature, npos: nat, keywords: seq<string>, error: MatchError)
    requires |sig.required| == |sig.names|
  {
    match error
    case TooManyPositional(expected, got) =>
      && !sig.variadics.positional && expected < npos && got == npos + |keywords|
      && forall p: nat :: p < expected <==> TakesPositional(sig, p)
    case UnknownKeyword(name) => name in keywords && name !in sig.names && !sig.variadics.keyword
    case PositionalOnly(name) =>
      name in keywords && name in sig.names && sig.positionalOnly.Some? &&
        Position(sig.names, name).value < sig.positionalOnly.value
    case Duplicate(name) =>
      || (exists j, k :: 0 <= j < k < |keywords| && keywords[j] == name && keywords[k] == name)
      || (name in keywords && name in sig.names && TakenByPosition(sig, npos, Position(sig.names, name).value))
    case Missing(name) =>
      exists p :: 0 <= p < |sig.names| && sig.names[p] == name && Lacks(sig, npos, keywords, p)
  }

  /** A required parameter for which the call has no argument. */
  ghost predicate Lacks(sig: Signature, npos: nat, keywords: seq<string>, p: nat)
    requires |sig.required| == |sig.names| && p < |sig.names|
  {
    && sig.required[p] && !TakenByPosition(sig, npos, p)
    && forall k :: 0 <= k < |keywords| ==> Position(sig.names, keywords[k]) != Some(p)
  }

  /** What is wrong with the keyword at `k`, if anything. */
  function KeywordError(sig: Signature, npos: nat, keywords: seq<string>, k: nat): Option<MatchError>
    requires k < |keywords|
  {
    var keyword := keywords[k];
    if keyword in keywords[..k] then Some(Duplicate(keyword))
    else
      match Position(sig.names, keyword)
      case None => if sig.variadics.keyword then None else Some(UnknownKeyword(keyword))
      case Some(p) =>
        if sig.positionalOnly.Some? && p < sig.positionalOnly.value then Some(PositionalOnly(keyword))
        else if TakenByPosition(sig, npos, p) then Some(Duplicate(keyword))
        else None
  }

  /** Which error is reported: too many positional arguments, or else that of the first keyword with one, or else the
      first parameter without an argument. */
  ghost predicate ReportedFirst(sig: Signature, npos: nat, keywords: seq<string>, error: MatchError)
    requires |sig.required| == |sig.names|
  {
    if !sig.variadics.positional && exists i :: 0 <= i < npos && !TakesPositional(sig, i) then error.TooManyPositional?
    else if exists k :: 0 <= k < |keywords| && KeywordError(sig, npos, keywords, k).Some? then
      exists k :: 0 <= k < |keywords| && KeywordError(sig, npos, keywords, k) == Some(error) &&
        forall j :: 0 <= j < k ==> KeywordError(sig, npos, keywords, j).None?
    else
      exists p :: 0 <= p < |sig.names| && Lacks(sig, npos, keywords, p) && error == Missing(sig.names[p]) &&
        forall q :: 0 <= q < p ==> !Lacks(sig, npos, keywords, q)
  }

  lemma LegalHasNoError(sig: Signature, npos: nat, keywords: seq<string>, b: CallSlots)
    requires |sig.required| == |sig.names|
    requires Legal(sig, npos, keywords, b)
    ensures (exists i :: 0 <= i < npos && !TakesPositional(sig, i)) ==> sig.variadics.positional
    ensures forall k :: 0 <= k < |keywords| ==>
              match Position(sig.names, keywords[k])
              case Some(p) =>
                (sig.positionalOnly.Some? ==> sig.positionalOnly.value <= p) && !TakenByPosition(sig, npos, p)
              case None => sig.variadics.keyword
    ensures forall p :: 0 <= p < |sig.names| ==> !Lacks(sig, npos, keywords, p)
  {
    if i :| 0 <= i < npos && !TakesPositional(sig, i) {
      assert i in b.positionalOverflow;
    }
    forall k | 0 <= k < |keywords| && Position(sig.names, keywords[k]).None?
      ensures sig.variadics.keyword
    {
      UnknownOverflows(sig, keywords, b, k);
    }
    forall p | 0 <= p < |sig.names|
      ensures !Lacks(sig, npos, keywords, p)
    {
      if b.slots[p].Keyword? {
        assert Position(sig.names, keywords[b.slots[p].index]) == Some(p);
      }
    }
  }

  /** A reported error is a real one: no binding is legal. */
  lemma ExplainedIsIllegal(sig: Signature, npos: nat, keywords: seq<string>, error: MatchError, b: CallSlots)
    requires |sig.required| == |sig.names|
    requires Explains(sig, npos, keywords, error)
    ensures !Legal(sig, npos, keywords, b)
  {
    assert error.TooManyPositional? ==> !TakesPositional(sig, error.expected);
    if Legal(sig, npos, keywords, b) {
      LegalHasNoError(sig, npos, keywords, b);
    }
  }

  // ----- the algorithm -----

  /** A slot that a keyword fills: the keyword is one of the first `count` and names that parameter, which it may. */
  predicate SlotFits(sig: Signature, keywords: seq<string>, count: nat, slot: Option<ArgSlot>, p: nat)
    requires count <= |keywords|
  {
    slot.Some? ==>
      && slot.value.Keyword? && slot.value.index < count
      && Position(sig.names, keywords[slot.value.index]) == Some(p)
      && (sig.positionalOnly.Some? ==> sig.positionalOnly.value <= p)
  }

  /** A keyword is in the slot of the parameter it names, or has overflowed if it names none. */
  predicate Placed(sig: Signature, keyword: string, k: nat, slots: seq<Option<ArgSlot>>, overflow: seq<nat>) {
    match Position(sig.names, keyword)
    case Some(p) => p < |slots| && slots[p] == Some(Keyword(k)) && k !in overflow
    case None => k in overflow
  }

  /** The slots after binding the positional arguments and the first `count` keywords. */
  ghost predicate Filled(sig: Signature, nregular: nat, keywords: seq<string>, count: nat, slots: seq<Option<ArgSlot>>,
                         overflow: seq<nat>)
    requires count <= |keywords|
  {
    && |slots| == |sig.names| && nregular <= |slots|
    && (forall p :: 0 <= p < nregular ==> slots[p] == Some(Positional(p)))
    && (forall p :: nregular <= p < |slots| ==> SlotFits(sig, keywords, count, slots[p], p))
    && (forall k :: 0 <= k < count ==> Placed(sig, keywords[k], k, slots, overflow))
    && (overflow != [] ==> sig.variadics.keyword)
    && Ascending(overflow, count)
    && forall j, k :: 0 <= j < k < count ==> keywords[j] != keywords[k]
  }

  lemma KeywordIsNew(keywords: seq<string>, k: nat)
    requires k < |keywords| && keywords[k] !in keywords[..k]
    ensures forall j :: 0 <= j < k ==> keywords[j] != keywords[k]
  {
    assert forall j :: 0 <= j < k ==> keywords[..k][j] == keywords[j];
  }

  lemma FilledUnknown(sig: Signature, nregular: nat, keywords: seq<string>, k: nat, slots: seq<Option<ArgSlot>>,
                      overflow: seq<nat>)
    requires k < |keywords| && Filled(sig, nregular, keywords, k, slots, overflow)
    requires keywords[k] !in keywords[..k] && Position(sig.names, keywords[k]).None? && sig.variadics.keyword
    ensures Filled(sig, nregular, keywords, k + 1, slots, overflow + [k])
  {
    KeywordIsNew(keywords, k);
    forall p | nregular <= p < |slots| ensures SlotFits(sig, keywords, k + 1, slots[p], p) {
      assert SlotFits(sig, keywords, k, slots[p], p);
    }
    forall j | 0 <= j < k + 1 ensures Placed(sig, keywords[j], j, slots, overflow + [k]) {
      assert j < k ==> Placed(sig, keywords[j], j, slots, overflow);
    }
  }

  lemma FilledKnown(sig: Signature, nregular: nat, keywords: seq<string>, k: nat, slots: seq<Option<ArgSlot>>,
                    overflow: seq<nat>, p: nat)
    requires k < |keywords| && Filled(sig, nregular, keywords, k, slots, overflow)
    requires keywords[k] !in keywords[..k] && Position(sig.names, keywords[k]) == Some(p)
    requires slots[p].None? && (sig.positionalOnly.Some? ==> sig.positionalOnly.value <= p)
    ensures Filled(sig, nregular, keywords, k + 1, slots[p := Some(Keyword(k))], overflow)
  {
    KeywordIsNew(keywords, k);
    var next := slots[p := Some(Keyword(k))];
    forall q | nregular <= q < |slots| ensures SlotFits(sig, keywords, k + 1, next[q], q) {
      assert SlotFits(sig, keywords, k, slots[q], q);
    }
    forall j | 0 <= j < k + 1 ensures Placed(sig, keywords[j], j, next, overflow) {
      assert j < k ==> Placed(sig, keywords[j], j, slots, overflow);
      assert j < k ==> Position(sig.names, keywords[j]) != Some(p);
    }
  }

  /** A slot that a keyword has filled is not filled by another. */
  lemma SlotTaken(sig: Signature, npos: nat, keywords: seq<string>, k: nat, slots: seq<Option<ArgSlot>>,
                  overflow: seq<nat>, p: nat)
    requires k < |keywords| && Filled(sig, Min(npos, PositionalLimit(sig)), keywords, k, slots, overflow)
    requires Position(sig.names, keywords[k]) == Some(p) && slots[p].Some? && keywords[k] !in keywords[..k]
    ensures TakenByPosition(sig, npos, p)
  {
    LimitCountsPositionals(sig, p);
    KeywordIsNew(keywords, k);
    assert SlotFits(sig, keywords, k, slots[p], p) || p < Min(npos, PositionalLimit(sig));
  }

  lemma SlotOpen(sig: Signature, npos: nat, keywords: seq<string>, k: nat, slots: seq<Option<ArgSlot>>,
                 overflow: seq<nat>, p: nat)
    requires k < |keywords| && Filled(sig, Min(npos, PositionalLimit(sig)), keywords, k, slots, overflow)
    requires Position(sig.names, keywords[k]) == Some(p) && slots[p].None?
    ensures !TakenByPosition(sig, npos, p)
  {
    LimitCountsPositionals(sig, p);
  }

  lemma KeywordIsReported(sig: Signature, npos: nat, keywords: seq<string>, k: nat)
    requires |sig.required| == |sig.names| && k < |keywords| && KeywordError(sig, npos, keywords, k).Some?
    requires sig.variadics.positional || npos <= PositionalLimit(sig)
    requires forall j :: 0 <= j < k ==> KeywordError(sig, npos, keywords, j).None?
    ensures var error := KeywordError(sig, npos, keywords, k).value;
      Explains(sig, npos, keywords, error) && ReportedFirst(sig, npos, keywords, error)
  {
    forall p: nat ensures p < PositionalLimit(sig) <==> TakesPositional(sig, p) { LimitCountsPositionals(sig, p); }
    if keywords[k] in keywords[..k] {
      var j :| 0 <= j < k && keywords[..k][j] == keywords[k];
      assert keywords[j] == keywords[k];
    }
  }

  /** Binds the arguments, or says why they cannot be bound. */
  method MatchCallSlots(sig: Signature, npos: nat, keywords: seq<string>) returns (r: Result<CallSlots, MatchError>)
    requires |sig.required| == |sig.names|
    ensures r.Ok? ==> Legal(sig, npos, keywords, r.value)
    ensures r.Err? ==> Explains(sig, npos, keywords, r.error) && ReportedFirst(sig, npos, keywords, r.error)
  {
    var limit := PositionalLimit(sig);
    if npos > limit && !sig.variadics.positional {
      forall p: nat ensures p < limit <==> TakesPositional(sig, p) { LimitCountsPositionals(sig, p); }
      assert !TakesPositional(sig, limit);
      return Err(TooManyPositional(limit, npos + |keywords|));
    }
    var nregular := Min(npos, limit);
    var positionalOverflow := if sig.variadics.positional then Range(limit, npos) else [];
    var slots := new Option<ArgSlot>[|sig.names|](_ => None);
    for p := 0 to nregular
      invariant forall q :: 0 <= q < slots.Length ==> slots[q] == if q < p then Some(Positional(q)) else None
    {
      slots[p] := Some(Positional(p));
    }
    var overflow: seq<nat> := [];
    for k := 0 to |keywords|
      invariant Filled(sig, nregular, keywords, k, slots[..], overflow)
      invariant forall j :: 0 <= j < k ==> KeywordError(sig, npos, keywords, j).None?
    {
      var keyword := keywords[k];
      if keyword in keywords[..k] {
        KeywordIsReported(sig, npos, keywords, k);
        return Err(Duplicate(keyword));
      }
      var parameter := Position(sig.names, keyword);
      if parameter.None? {
        if !sig.variadics.keyword {
          KeywordIsReported(sig, npos, keywords, k);
          return Err(UnknownKeyword(keyword));
        }
        FilledUnknown(sig, nregular, keywords, k, slots[..], overflow);
        overflow := overflow + [k];
      } else {
        var p := parameter.value;
        if sig.positionalOnly.Some? && p < sig.positionalOnly.value {
          KeywordIsReported(sig, npos, keywords, k);
          return Err(PositionalOnly(keyword));
        }
        if slots[p].Some? {
          SlotTaken(sig, npos, keywords, k, slots[..], overflow, p);
          KeywordIsReported(sig, npos, keywords, k);
          return Err(Duplicate(keyword));
        }
        SlotOpen(sig, npos, keywords, k, slots[..], overflow, p);
        FilledKnown(sig, nregular, keywords, k, slots[..], overflow, p);
        ghost var before := slots[..];
        slots[p] := Some(Keyword(k));
        assert slots[..] == before[p := Some(Keyword(k))];
      }
    }
    r := Complete(sig, npos, keywords, slots[..], positionalOverflow, overflow);
  }

  /** The indices from `low` up to `high`. */
  function Range(low: nat, high: nat): (r: seq<nat>)
    ensures Ascending(r, high)
    ensures forall i :: i in r <==> low <= i < high
    decreases high
  {
    if high <= low then [] else Range(low, high - 1) + [high - 1]
  }

  /** Defaults for the parameters left open. */
  method Complete(sig: Signature, npos: nat, keywords: seq<string>, slots: seq<Option<ArgSlot>>,
                  positionalOverflow: seq<nat>, overflow: seq<nat>) returns (r: Result<CallSlots, MatchError>)
    requires |sig.required| == |sig.names|
    requires Filled(sig, Min(npos, PositionalLimit(sig)), keywords, |keywords|, slots, overflow)
    requires npos > PositionalLimit(sig) ==> sig.variadics.positional
    requires positionalOverflow == Range(PositionalLimit(sig), npos)
    requires forall j :: 0 <= j < |keywords| ==> KeywordError(sig, npos, keywords, j).None?
    ensures r.Ok? ==> Legal(sig, npos, keywords, r.value)
    ensures r.Err? ==> Explains(sig, npos, keywords, r.error) && ReportedFirst(sig, npos, keywords, r.error)
  {
    forall p: nat ensures p < PositionalLimit(sig) <==> TakesPositional(sig, p) { LimitCountsPositionals(sig, p); }
    var matched: seq<ArgSlot> := [];
    for p := 0 to |slots|
      invariant |matched| == p
      invariant forall q :: 0 <= q < p ==>
        match slots[q] case Some(slot) => matched[q] == slot case None => matched[q] == Default && !sig.required[q]
      invariant forall q :: 0 <= q < p ==> !Lacks(sig, npos, keywords, q)
    {
      match slots[p] {
        case Some(slot) => matched := matched + [slot];
        case None =>
          if sig.required[p] {
            return Err(Missing(sig.names[p]));
          }
          matched := matched + [Default];
      }
    }
    var b := CallSlots(matched, positionalOverflow, overflow);
    FilledIsLegal(sig, npos, keywords, slots, b);
    r := Ok(b);
  }

  lemma FilledIsLegal(sig: Signature, npos: nat, keywords: seq<string>, slots: seq<Option<ArgSlot>>, b: CallSlots)
    requires |sig.required| == |sig.names|
    requires Filled(sig, Min(npos, PositionalLimit(sig)), keywords, |keywords|, slots, b.keywordOverflow)
    requires npos > PositionalLimit(sig) ==> sig.variadics.positional
    requires b.positionalOverflow == Range(PositionalLimit(sig), npos)
    requires |b.slots| == |slots| && forall q :: 0 <= q < |slots| ==>
               match slots[q]
               case Some(slot) => b.slots[q] == slot
               case None => b.slots[q] == Default && !sig.required[q]
    ensures Legal(sig, npos, keywords, b)
  {
    forall p | 0 <= p < |slots|
      ensures slots[p].Some? ==> b.slots[p] == slots[p].value
      ensures slots[p].None? ==> b.slots[p] == Default && !sig.required[p]
    {
    }
    forall p: nat ensures p < PositionalLimit(sig) <==> TakesPositional(sig, p) { LimitCountsPositionals(sig, p); }
    assert PositionalsBound(sig, npos, b);
    assert KeywordsBound(sig, keywords, b);
  }

  /** The algorithm answers exactly when a legal binding exists, and then with that one. */
  method Bind(sig: Signature, npos: nat, keywords: seq<string>) returns (r: Result<CallSlots, MatchError>)
    requires |sig.required| == |sig.names|
    ensures forall b :: r == Ok(b) <==> Legal(sig, npos, keywords, b)
  {
    r := MatchCallSlots(sig, npos, keywords);
    forall b
      ensures r == Ok(b) <==> Legal(sig, npos, keywords, b)
    {
      match r
      case Ok(found) => if Legal(sig, npos, keywords, b) { LegalUnique(sig, npos, keywords, found, b); }
      case Err(error) => ExplainedIsIllegal(sig, npos, keywords, error, b);
    }
  }

  // ----- the order of keywords -----

  /** `order` lists the old index of each keyword, `back` the new one. */
  ghost predicate Reorders(keywords: seq<string>, reordered: seq<string>, order: seq<nat>, back: seq<nat>) {
    && |keywords| == |reordered| == |order| == |back|
    && (forall k :: 0 <= k < |order| ==>
        order[k] < |keywords| && reordered[k] == keywords[order[k]] && back[order[k]] == k)
    && (forall j :: 0 <= j < |back| ==> back[j] < |keywords| && order[back[j]] == j)
  }

  function Renumber(slot: ArgSlot, back: seq<nat>): ArgSlot {
    if slot.Keyword? && slot.index < |back| then Keyword(back[slot.index]) else slot
  }

  /** The keywords that name no parameter, among the first `count`. */
  function Unknown(names: seq<string>, keywords: seq<string>, count: nat): (r: seq<nat>)
    requires count <= |keywords|
    ensures Ascending(r, count)
    ensures forall k: nat :: k in r <==> k < count && Position(names, keywords[k]).None?
  {
    if count == 0 then []
    else
      var before := Unknown(names, keywords, count - 1);
      if Position(names, keywords[count - 1]).None? then before + [count - 1] else before
  }

  /** The same binding, with keywords counted in the new order. */
  function Renumbered(sig: Signature, reordered: seq<string>, back: seq<nat>, b: CallSlots): CallSlots {
    CallSlots(seq(|b.slots|, p requires 0 <= p < |b.slots| => Renumber(b.slots[p], back)),
              b.positionalOverflow, Unknown(sig.names, reordered, |reordered|))
  }

  /** Writing the keywords of a call in another order binds every parameter to the same argument, and collects the
      same keywords. */
  lemma KeywordOrderIsIrrelevant(sig: Signature, npos: nat, keywords: seq<string>, reordered: seq<string>,
                                 order: seq<nat>, back: seq<nat>, b: CallSlots)
    requires |sig.required| == |sig.names|
    requires Reorders(keywords, reordered, order, back) && Legal(sig, npos, keywords, b)
    ensures Legal(sig, npos, reordered, Renumbered(sig, reordered, back, b))
    ensures forall k :: 0 <= k < |order| ==>
              (k in Renumbered(sig, reordered, back, b).keywordOverflow <==> order[k] in b.keywordOverflow)
  {
    RenumberedPositionals(sig, npos, keywords, b, Renumbered(sig, reordered, back, b), back);
    RenumberedKeywords(sig, keywords, reordered, order, back, b);
  }

  lemma RenumberedKeywords(sig: Signature, keywords: seq<string>, reordered: seq<string>, order: seq<nat>,
                           back: seq<nat>, b: CallSlots)
    requires Reorders(keywords, reordered, order, back) && KeywordsBound(sig, keywords, b)
    ensures KeywordsBound(sig, reordered, Renumbered(sig, reordered, back, b))
    ensures forall k :: 0 <= k < |order| ==>
              (k in Renumbered(sig, reordered, back, b).keywordOverflow <==> order[k] in b.keywordOverflow)
  {
    var c := Renumbered(sig, reordered, back, b);
    forall k | 0 <= k < |order|
      ensures k in c.keywordOverflow <==> order[k] in b.keywordOverflow
      ensures match Position(sig.names, reordered[k])
              case Some(p) => p < |c.slots| && c.slots[p] == Keyword(k)
              case None => true
    {
      UnknownOverflows(sig, keywords, b, order[k]);
    }
    forall p | 0 <= p < |c.slots| && c.slots[p].Keyword?
      ensures c.slots[p].index < |reordered| && Position(sig.names, reordered[c.slots[p].index]) == Some(p)
      ensures sig.positionalOnly.Some? ==> sig.positionalOnly.value <= p
    {
      assert b.slots[p].Keyword? && b.slots[p].index < |keywords|;
      assert order[back[b.slots[p].index]] == b.slots[p].index;
    }
    forall j, k | 0 <= j < k < |reordered|
      ensures reordered[j] != reordered[k]
    {
      assert back[order[j]] == j && back[order[k]] == k;
    }
    if c.keywordOverflow != [] {
      var k := c.keywordOverflow[0];
      assert k in c.keywordOverflow;
      assert order[k] in b.keywordOverflow;
    }
  }

  lemma RenumberedPositionals(sig: Signature, npos: nat, keywords: seq<string>, b: CallSlots, c: CallSlots,
                              back: seq<nat>)
    requires PositionalsBound(sig, npos, b)
    requires c.positionalOverflow == b.positionalOverflow && |c.slots| == |b.slots|
    requires forall p :: 0 <= p < |b.slots| ==> c.slots[p] == Renumber(b.slots[p], back)
    ensures PositionalsBound(sig, npos, c)
  {
  }

  // ----- markers -----

  datatype ParamKind = Regular | Variadic | KwVariadic

  function Regulars(params: seq<ParamKind>): nat {
    if params == [] then 0 else (if params[|params| - 1].Regular? then 1 else 0) + Regulars(params[..|params| - 1])
  }

  /** A marker's position, counted in regular parameters. */
  function RegularMarkerIndex(params: seq<ParamKind>, marker: Option<nat>): Option<nat>
    requires marker.Some? ==> marker.value <= |params|
  {
    match marker
    case None => None
    case Some(index) => Some(Regulars(params[..index]))
  }

  function EffectiveKeywordOnlyIndex(params: seq<ParamKind>, keywordOnly: Option<nat>, variadic: Option<nat>)
    : Option<nat>
    requires keywordOnly.Some? ==> keywordOnly.value <= |params|
    requires variadic.Some? ==> variadic.value <= |params|
  {
    match (RegularMarkerIndex(params, keywordOnly), RegularMarkerIndex(params, variadic))
    case (None, None) => None
    case (Some(a), None) => Some(a)
    case (None, Some(b)) => Some(b)
    case (Some(a), Some(b)) => Some(Min(a, b))
  }

  lemma {:induction false} RegularsMonotone(params: seq<ParamKind>, i: nat, j: nat)
    requires i <= j <= |params|
    ensures Regulars(params[..i]) <= Regulars(params[..j])
    ensures i < j && params[i].Regular? ==> Regulars(params[..i]) < Regulars(params[..j])
    decreases j
  {
    if i < j {
      assert params[..j][..j - 1] == params[..j - 1];
      RegularsMonotone(params, i, j - 1);
    }
  }

  /** A regular parameter lies beyond the effective boundary exactly if one of the two markers stands before it. */
  lemma EffectiveBoundary(params: seq<ParamKind>, keywordOnly: Option<nat>, variadic: Option<nat>, i: nat)
    requires keywordOnly.Some? ==> keywordOnly.value <= |params|
    requires variadic.Some? ==> variadic.value <= |params|
    requires i < |params| && params[i].Regular?
    ensures var boundary := EffectiveKeywordOnlyIndex(params, keywordOnly, variadic);
            (boundary.Some? && boundary.value <= Regulars(params[..i])) <==>
            ((keywordOnly.Some? && keywordOnly.value <= i) || (variadic.Some? && variadic.value <= i))
  {
    if keywordOnly.Some? { MarkerBoundary(params, keywordOnly.value, i); }
    if variadic.Some? { MarkerBoundary(params, variadic.value, i); }
  }

  lemma MarkerBoundary(params: seq<ParamKind>, marker: nat, i: nat)
    requires marker <= |params| && i < |params| && params[i].Regular?
    ensures Regulars(params[..marker]) <= Regulars(params[..i]) <==> marker <= i
  {
    if marker <= i {
      RegularsMonotone(params, marker, i);
    } else {
      RegularsMonotone(params, i, marker);
    }
  }
}
