/** Monomorphization: a worklist that turns calls of generic templates into calls of concrete specializations and
    generates each requested specialization once, under a fuel bound. */
module Monomorphize {
  import opened Wrappers
  import opened CtValues
  import opened SpecializationNames

  datatype Error = QuotaExceeded | NotComptime(message: string)

  /** An argument in `[...]`, carried but not interpreted here. */
  datatype ParamArg = ParamArg(text: string)

  /** Expressions as far as the pass looks at them: calls, and everything that only contains other expressions. */
  datatype Expr =
    | Node(children: seq<Expr>)
    | Call(name: string, params: seq<ParamArg>, args: seq<Expr>)

  /** A definition, or any other statement, with the expressions visited inside it. */
  datatype Stmt =
    | Def(name: string, body: seq<Expr>)
    | Other(body: seq<Expr>)

  datatype Job = Job(orig: string, vals: seq<CtValue>)

  /** The parts of elaboration the worklist relies on: evaluating the `[...]` arguments of a call to the values that
      select a specialization and the arguments that stay, and elaborating a template body for given values at
      a cost in fuel. */
  datatype Elaboration = Elaboration(
    templates: set<string>,
    resolve: (string, seq<ParamArg>, seq<Expr>) -> Result<(seq<CtValue>, seq<ParamArg>), Error>,
    generate: (string, seq<CtValue>) -> Result<(seq<Expr>, nat), Error>)

  function NameOf(job: Job): string {
    Mangled(job.orig, job.vals)
  }

  // ----- what rewriting an expression does -----

  datatype Rewritten<T> = Rewritten(value: T, jobs: seq<Job>)

  function Rewrite(el: Elaboration, e: Expr): Result<Rewritten<Expr>, Error>
    decreases e, 0
  {
    match e
    case Node(children) =>
      var r :- RewriteAll(el, children);
      Ok(Rewritten(Node(r.value), r.jobs))
    case Call(name, params, args) =>
      var r :- RewriteAll(el, args);
      if name !in el.templates then Ok(Rewritten(Call(name, params, r.value), r.jobs))
      else
        var resolved :- el.resolve(name, params, r.value);
        var job := Job(name, resolved.0);
        Ok(Rewritten(Call(NameOf(job), resolved.1, r.value), r.jobs + [job]))
  }

  function RewriteAll(el: Elaboration, es: seq<Expr>): Result<Rewritten<seq<Expr>>, Error>
    decreases es, 1
  {
    if es == [] then Ok(Rewritten([], []))
    else
      var first :- Rewrite(el, es[0]);
      var rest :- RewriteAll(el, es[1..]);
      Ok(Rewritten([first.value] + rest.value, first.jobs + rest.jobs))
  }

  function CallNames(e: Expr): set<string>
    decreases e, 0
  {
    match e
    case Node(children) => AllCallNames(children)
    case Call(name, _, args) => {name} + AllCallNames(args)
  }

  function AllCallNames(es: seq<Expr>): set<string>
    decreases es, 1
  {
    if es == [] then {} else CallNames(es[0]) + AllCallNames(es[1..])
  }

  function Names(jobs: seq<Job>): set<string> {
    set i | 0 <= i < |jobs| :: NameOf(jobs[i])
  }

  /** Requests in the order they are first made; a repeated one is not queued again. */
  function Request(requested: seq<Job>, jobs: seq<Job>): seq<Job>
    decreases |jobs|
  {
    if jobs == [] then requested
    else Request(if NameOf(jobs[0]) in Names(requested) then requested else requested + [jobs[0]], jobs[1..])
  }

  lemma {:induction false} RequestAppend(requested: seq<Job>, a: seq<Job>, b: seq<Job>)
    ensures Request(requested, a + b) == Request(Request(requested, a), b)
    decreases |a|
  {
    if a == [] {
      assert a + b == b;
    } else {
      assert (a + b)[0] == a[0] && (a + b)[1..] == a[1..] + b;
      RequestAppend(if NameOf(a[0]) in Names(requested) then requested else requested + [a[0]], a[1..], b);
    }
  }

  ghost predicate DistinctNames(jobs: seq<Job>) {
    forall i, j :: 0 <= i < j < |jobs| ==> NameOf(jobs[i]) != NameOf(jobs[j])
  }

  lemma NewNameIsDistinct(requested: seq<Job>, job: Job)
    requires DistinctNames(requested) && NameOf(job) !in Names(requested)
    ensures DistinctNames(requested + [job])
  {
    assert forall i :: 0 <= i < |requested| ==> NameOf(requested[i]) in Names(requested);
  }

  lemma RequestExtends(requested: seq<Job>, jobs: seq<Job>)
    requires DistinctNames(requested)
    ensures var r := Request(requested, jobs);
            && requested <= r && DistinctNames(r)
            && Names(r) == Names(requested) + Names(jobs)
            && forall i :: |requested| <= i < |r| ==> r[i] in jobs
  {
    RequestStaysDistinct(requested, jobs);
    RequestNames(requested, jobs);
    RequestAddsJobs(requested, jobs);
  }

  lemma {:induction false} RequestStaysDistinct(requested: seq<Job>, jobs: seq<Job>)
    requires DistinctNames(requested)
    ensures requested <= Request(requested, jobs) && DistinctNames(Request(requested, jobs))
    decreases |jobs|
  {
    if jobs != [] {
      if NameOf(jobs[0]) !in Names(requested) { NewNameIsDistinct(requested, jobs[0]); }
      RequestStaysDistinct(if NameOf(jobs[0]) in Names(requested) then requested else requested + [jobs[0]], jobs[1..]);
    }
  }

  lemma {:induction false} RequestNames(requested: seq<Job>, jobs: seq<Job>)
    ensures Names(Request(requested, jobs)) == Names(requested) + Names(jobs)
    decreases |jobs|
  {
    if jobs == [] {
      assert Names(jobs) == {};
    } else {
      NamesOfOne(jobs[0]);
      NamesAppend(requested, [jobs[0]]);
      NamesAppend([jobs[0]], jobs[1..]);
      assert [jobs[0]] + jobs[1..] == jobs;
      RequestNames(if NameOf(jobs[0]) in Names(requested) then requested else requested + [jobs[0]], jobs[1..]);
    }
  }

  lemma {:induction false} RequestAddsJobs(requested: seq<Job>, jobs: seq<Job>)
    ensures var r := Request(requested, jobs); forall i :: |requested| <= i < |r| ==> r[i] in jobs
    ensures requested <= Request(requested, jobs)
    decreases |jobs|
  {
    if jobs != [] {
      var next := if NameOf(jobs[0]) in Names(requested) then requested else requested + [jobs[0]];
      RequestAddsJobs(next, jobs[1..]);
      var r := Request(requested, jobs);
      forall i | |requested| <= i < |r| ensures r[i] in jobs {
        assert i < |next| ==> r[i] == next[i] == jobs[0];
        assert i >= |next| ==> r[i] in jobs[1..];
      }
    }
  }

  /** After rewriting, the names called are those of the requested specializations and the callees written in the
      source that are not templates; every request is for a template. */
  lemma {:induction false} RewriteClosed(el: Elaboration, e: Expr)
    requires Rewrite(el, e).Ok?
    ensures var r := Rewrite(el, e).value;
            && CallNames(r.value) == Names(r.jobs) + (CallNames(e) - el.templates)
            && (forall i :: 0 <= i < |r.jobs| ==> r.jobs[i].orig in el.templates)
    decreases e, 0
  {
    match e
    case Node(children) => RewriteAllClosed(el, children);
    case Call(name, params, args) =>
      RewriteAllClosed(el, args);
      var r := Rewrite(el, e).value;
      var inner := RewriteAll(el, args).value;
      if name in el.templates {
        assert r.jobs == inner.jobs + [r.jobs[|inner.jobs|]];
        NamesAppend(inner.jobs, [r.jobs[|inner.jobs|]]);
        NamesOfOne(r.jobs[|inner.jobs|]);
      }
  }

  lemma {:induction false} RewriteAllClosed(el: Elaboration, es: seq<Expr>)
    requires RewriteAll(el, es).Ok?
    ensures var r := RewriteAll(el, es).value;
            && AllCallNames(r.value) == Names(r.jobs) + (AllCallNames(es) - el.templates)
            && (forall i :: 0 <= i < |r.jobs| ==> r.jobs[i].orig in el.templates)
    decreases es, 1
  {
    if es != [] {
      RewriteClosed(el, es[0]);
      RewriteAllClosed(el, es[1..]);
      var first := Rewrite(el, es[0]).value;
      var rest := RewriteAll(el, es[1..]).value;
      NamesAppend(first.jobs, rest.jobs);
      assert ([first.value] + rest.value)[1..] == rest.value;
    }
  }

  lemma NamesOfOne(job: Job)
    ensures Names([job]) == {NameOf(job)}
  {
    assert NameOf([job][0]) == NameOf(job);
  }

  lemma NamesAppend(a: seq<Job>, b: seq<Job>)
    ensures Names(a + b) == Names(a) + Names(b)
  {
    forall n | n in Names(a) + Names(b)
      ensures n in Names(a + b)
    {
      if n in Names(a) {
        var i :| 0 <= i < |a| && NameOf(a[i]) == n;
        assert (a + b)[i] == a[i];
      } else {
        var i :| 0 <= i < |b| && NameOf(b[i]) == n;
        assert (a + b)[|a| + i] == b[i];
      }
    }
  }

  // ----- what a rewritten expression looks like -----

  /** `result` is `source` with every call of a template, at any depth, turned into a call of the specialization for the
      values that resolving its arguments chose, with exactly the bracket arguments that it kept. Nothing else has
      changed. */
  predicate RewrittenFrom(el: Elaboration, source: Expr, result: Expr)
    decreases source, 0
  {
    match source
    case Node(children) => result.Node? && AllRewrittenFrom(el, children, result.children)
    case Call(name, params, args) =>
      && result.Call? && AllRewrittenFrom(el, args, result.args)
      && if name !in el.templates then result.name == name && result.params == params
         else
           var resolved := el.resolve(name, params, result.args);
           resolved.Ok? && result.name == Mangled(name, resolved.value.0) && result.params == resolved.value.1
  }

  predicate AllRewrittenFrom(el: Elaboration, sources: seq<Expr>, results: seq<Expr>)
    decreases sources, 1
  {
    |sources| == |results| && forall i :: 0 <= i < |sources| ==> RewrittenFrom(el, sources[i], results[i])
  }

  /** The requests made by the template calls of `source`, those in the arguments of a call before its own. */
  function Requests(el: Elaboration, source: Expr, result: Expr): seq<Job>
    requires RewrittenFrom(el, source, result)
    decreases source, 0
  {
    match source
    case Node(children) => AllRequests(el, children, result.children)
    case Call(name, params, args) =>
      AllRequests(el, args, result.args) +
      if name in el.templates then [Job(name, el.resolve(name, params, result.args).value.0)] else []
  }

  function AllRequests(el: Elaboration, sources: seq<Expr>, results: seq<Expr>): seq<Job>
    requires AllRewrittenFrom(el, sources, results)
    decreases sources, 1
  {
    if sources == [] then []
    else Requests(el, sources[0], results[0]) + AllRequests(el, sources[1..], results[1..])
  }

  lemma {:induction false} RewriteIsFrom(el: Elaboration, e: Expr)
    requires Rewrite(el, e).Ok?
    ensures var r := Rewrite(el, e).value; RewrittenFrom(el, e, r.value) && r.jobs == Requests(el, e, r.value)
    decreases e, 0
  {
    match e
    case Node(children) => RewriteAllIsFrom(el, children);
    case Call(_, _, args) => RewriteAllIsFrom(el, args);
  }

  /** Rewriting gives an expression of the same shape, with names and brackets changed exactly at the calls of
      templates, and makes the requests of these calls in order. */
  lemma {:induction false} RewriteAllIsFrom(el: Elaboration, es: seq<Expr>)
    requires RewriteAll(el, es).Ok?
    ensures var r := RewriteAll(el, es).value;
      AllRewrittenFrom(el, es, r.value) && r.jobs == AllRequests(el, es, r.value)
    decreases es, 1
  {
    if es != [] {
      RewriteIsFrom(el, es[0]);
      RewriteAllIsFrom(el, es[1..]);
      var first, rest, all := Rewrite(el, es[0]).value, RewriteAll(el, es[1..]).value, RewriteAll(el, es).value;
      assert all.value[1..] == rest.value;
      forall i | 0 <= i < |es| ensures RewrittenFrom(el, es[i], all.value[i]) {
        if i > 0 { assert es[i] == es[1..][i - 1] && all.value[i] == rest.value[i - 1]; }
      }
    }
  }

  lemma {:induction false} UnchangedIsFrom(el: Elaboration, e: Expr)
    requires el.templates == {}
    ensures RewrittenFrom(el, e, e)
    decreases e, 0
  {
    match e
    case Node(children) =>
      forall i | 0 <= i < |children| ensures RewrittenFrom(el, children[i], children[i]) {
        UnchangedIsFrom(el, children[i]);
      }
    case Call(_, _, args) =>
      forall i | 0 <= i < |args| ensures RewrittenFrom(el, args[i], args[i]) { UnchangedIsFrom(el, args[i]); }
  }

  // ----- rebuilding the program -----

  function Reversed<T>(s: seq<T>): seq<T> {
    if s == [] then [] else Reversed(s[1..]) + [s[0]]
  }

  /** The specializations of `orig` among those generated, in generation order. */
  function SpecsOf(jobs: seq<Job>, specs: seq<Stmt>, orig: string): seq<Stmt>
    requires |jobs| == |specs|
  {
    if jobs == [] then []
    else
      var last := |jobs| - 1;
      SpecsOf(jobs[..last], specs[..last], orig) + if jobs[last].orig == orig then [specs[last]] else []
  }

  function Count(stmts: seq<Stmt>, name: string): nat {
    if stmts == [] then 0
    else (if stmts[0].Def? && stmts[0].name == name then 1 else 0) + Count(stmts[1..], name)
  }

  function Rebuild(templates: set<string>, program: seq<Stmt>, generated: map<string, seq<Stmt>>): seq<Stmt>
    decreases |program|
  {
    if program == [] then []
    else
      var st := program[0];
      if st.Def? && st.name in templates then
        (if st.name in generated then Reversed(generated[st.name]) else []) +
        Rebuild(templates, program[1..], generated - {st.name})
      else [st] + Rebuild(templates, program[1..], generated)
  }

  lemma {:induction false} CountAppend(a: seq<Stmt>, b: seq<Stmt>, name: string)
    ensures Count(a + b, name) == Count(a, name) + Count(b, name)
    decreases |a|
  {
    if a == [] {
      assert a + b == b;
    } else {
      assert (a + b)[0] == a[0] && (a + b)[1..] == a[1..] + b;
      CountAppend(a[1..], b, name);
    }
  }

  lemma {:induction false} CountReversed(s: seq<Stmt>, name: string)
    ensures Count(Reversed(s), name) == Count(s, name)
  {
    if s != [] {
      CountReversed(s[1..], name);
      CountAppend(Reversed(s[1..]), [s[0]], name);
    }
  }

  lemma {:induction false} ReversedContents<T>(s: seq<T>)
    ensures |Reversed(s)| == |s| && forall x :: x in Reversed(s) <==> x in s
  {
    if s != [] {
      ReversedContents(s[1..]);
      assert s == [s[0]] + s[1..];
    }
  }

  ghost predicate Specializes(jobs: seq<Job>, specs: seq<Stmt>) {
    |jobs| == |specs| && forall i :: 0 <= i < |jobs| ==> specs[i].Def? && specs[i].name == NameOf(jobs[i])
  }

  /** The name is requested as a specialization of `orig`. */
  ghost predicate AskedOf(jobs: seq<Job>, orig: string, name: string) {
    exists i :: 0 <= i < |jobs| && NameOf(jobs[i]) == name && jobs[i].orig == orig
  }

  lemma AskedLast(jobs: seq<Job>, orig: string, name: string)
    requires jobs != []
    ensures var last := |jobs| - 1;
      AskedOf(jobs, orig, name) <==>
        AskedOf(jobs[..last], orig, name) || (NameOf(jobs[last]) == name && jobs[last].orig == orig)
  {
    var last := |jobs| - 1;
    assert forall i :: 0 <= i < last ==> jobs[..last][i] == jobs[i];
  }

  lemma SpecializesPrefix(jobs: seq<Job>, specs: seq<Stmt>)
    requires Specializes(jobs, specs) && DistinctNames(jobs) && jobs != []
    ensures var last := |jobs| - 1;
      && Specializes(jobs[..last], specs[..last]) && DistinctNames(jobs[..last])
      && forall orig :: !AskedOf(jobs[..last], orig, NameOf(jobs[last]))
  {
    var last := |jobs| - 1;
    assert forall i :: 0 <= i < last ==> jobs[..last][i] == jobs[i] && specs[..last][i] == specs[i];
  }

  /** Each requested name is defined once among the specializations of its template, and nowhere else. */
  lemma {:induction false} SpecsOfCount(jobs: seq<Job>, specs: seq<Stmt>, orig: string, name: string)
    requires Specializes(jobs, specs) && DistinctNames(jobs)
    ensures Count(SpecsOf(jobs, specs, orig), name) == if AskedOf(jobs, orig, name) then 1 else 0
    decreases |jobs|
  {
    if jobs != [] {
      var last := |jobs| - 1;
      var tail := if jobs[last].orig == orig then [specs[last]] else [];
      SpecializesPrefix(jobs, specs);
      AskedLast(jobs, orig, name);
      SpecsOfCount(jobs[..last], specs[..last], orig, name);
      assert [specs[last]][1..] == [];
      CountAppend(SpecsOf(jobs[..last], specs[..last], orig), tail, name);
    }
  }

  lemma {:induction false} SpecsOfContents(jobs: seq<Job>, specs: seq<Stmt>, orig: string, st: Stmt)
    requires |jobs| == |specs|
    ensures st in SpecsOf(jobs, specs, orig) <==> exists i :: 0 <= i < |jobs| && jobs[i].orig == orig && specs[i] == st
    decreases |jobs|
  {
    if jobs != [] {
      var last := |jobs| - 1;
      SpecsOfContents(jobs[..last], specs[..last], orig, st);
      if exists i :: 0 <= i < |jobs| && jobs[i].orig == orig && specs[i] == st {
        var i :| 0 <= i < |jobs| && jobs[i].orig == orig && specs[i] == st;
        if i < last {
          assert jobs[..last][i] == jobs[i] && specs[..last][i] == specs[i];
        }
      }
      if st in SpecsOf(jobs[..last], specs[..last], orig) {
        var i :| 0 <= i < last && jobs[..last][i].orig == orig && specs[..last][i] == st;
        assert jobs[i].orig == orig && specs[i] == st;
      }
    }
  }

  // ----- order -----

  function TemplatesIn(templates: set<string>, program: seq<Stmt>): set<string> {
    set i | 0 <= i < |program| && program[i].Def? && program[i].name in templates :: program[i].name
  }

  lemma {:induction false} RebuildAppend(templates: set<string>, a: seq<Stmt>, b: seq<Stmt>,
                                         generated: map<string, seq<Stmt>>)
    ensures Rebuild(templates, a + b, generated)
         == Rebuild(templates, a, generated) + Rebuild(templates, b, generated - TemplatesIn(templates, a))
    decreases |a|
  {
    if a == [] {
      assert a + b == b && generated - TemplatesIn(templates, a) == generated;
    } else {
      assert (a + b)[0] == a[0] && (a + b)[1..] == a[1..] + b;
      var mine := Mine(templates, a[0]);
      TemplatesInFirst(templates, a);
      RebuildAppend(templates, a[1..], b, generated - mine);
      assert generated - mine - TemplatesIn(templates, a[1..]) == generated - TemplatesIn(templates, a);
      RebuildFirst(templates, a, generated);
      RebuildFirst(templates, a + b, generated);
      Regrouped(Here(templates, a[0], generated), Rebuild(templates, a[1..], generated - mine),
                Rebuild(templates, b, generated - TemplatesIn(templates, a)));
    }
  }

  lemma Regrouped(x: seq<Stmt>, y: seq<Stmt>, z: seq<Stmt>)
    ensures x + (y + z) == (x + y) + z
  {
  }

  function Mine(templates: set<string>, st: Stmt): set<string> {
    if st.Def? && st.name in templates then {st.name} else {}
  }

  /** What becomes of a single statement. */
  function Here(templates: set<string>, st: Stmt, generated: map<string, seq<Stmt>>): seq<Stmt> {
    if !(st.Def? && st.name in templates) then [st]
    else if st.name in generated then Reversed(generated[st.name])
    else []
  }

  lemma RebuildFirst(templates: set<string>, program: seq<Stmt>, generated: map<string, seq<Stmt>>)
    requires program != []
    ensures Rebuild(templates, program, generated) ==
            Here(templates, program[0], generated) + Rebuild(templates, program[1..],
                                                             generated - Mine(templates, program[0]))
  {
    assert generated - {} == generated;
  }

  lemma TemplatesInFirst(templates: set<string>, a: seq<Stmt>)
    requires a != []
    ensures TemplatesIn(templates, a) ==
            Mine(templates, a[0]) + TemplatesIn(templates, a[1..])
  {
    assert forall i :: 0 < i < |a| ==> a[i] == a[1..][i - 1];
    assert forall i :: 0 <= i < |a| - 1 ==> a[1..][i] == a[i + 1];
  }

  lemma {:induction false} ReversedAt<T>(s: seq<T>, k: nat)
    requires k < |s|
    ensures |Reversed(s)| == |s| && Reversed(s)[k] == s[|s| - 1 - k]
  {
    ReversedContents(s);
    ReversedContents(s[1..]);
    if k < |s| - 1 { ReversedAt(s[1..], k); }
  }

  /** The specializations of a template stand where its first definition stood, between what comes of the statements
      before it and of those after it, the one generated last coming first. */
  lemma TemplateIsReplacedInPlace(templates: set<string>, before: seq<Stmt>, st: Stmt, after: seq<Stmt>,
                                  generated: map<string, seq<Stmt>>, k: nat)
    requires st.Def? && st.name in templates && st.name !in TemplatesIn(templates, before)
    requires st.name in generated && k < |generated[st.name]|
    ensures var out, head, specs := Rebuild(templates, before + [st] + after, generated),
      Rebuild(templates, before, generated),
                                    generated[st.name];
      && |head| + |specs| <= |out| && out[..|head|] == head && out[|head| + k] == specs[|specs| - 1 - k]
      && out[|head| + |specs|..] == Rebuild(templates, after, generated - (TemplatesIn(templates, before) + {st.name}))
  {
    var rest := generated - TemplatesIn(templates, before);
    assert before + [st] + after == before + ([st] + after);
    RebuildAppend(templates, before, [st] + after, generated);
    assert ([st] + after)[1..] == after;
    assert rest - {st.name} == generated - (TemplatesIn(templates, before) + {st.name});
    ReversedAt(generated[st.name], k);
  }

  /** Any other statement stays where it stood. */
  lemma StatementStaysInPlace(templates: set<string>, before: seq<Stmt>, st: Stmt, after: seq<Stmt>,
                              generated: map<string, seq<Stmt>>)
    requires !(st.Def? && st.name in templates)
    ensures Rebuild(templates, before + [st] + after, generated)
         == Rebuild(templates, before, generated) + [st]
          + Rebuild(templates, after, generated - TemplatesIn(templates, before))
  {
    assert before + [st] + after == before + ([st] + after);
    RebuildAppend(templates, before, [st] + after, generated);
    assert ([st] + after)[1..] == after;
  }

  /** Specializations of one template are filed in the order of their requests. */
  lemma {:induction false} FiledInOrder(jobs: seq<Job>, specs: seq<Stmt>, orig: string, k: nat, l: nat)
    returns (i: nat, j: nat)
    requires |jobs| == |specs| && k < l < |SpecsOf(jobs, specs, orig)|
    ensures i < j < |jobs| && jobs[i].orig == orig && jobs[j].orig == orig
    ensures specs[i] == SpecsOf(jobs, specs, orig)[k] && specs[j] == SpecsOf(jobs, specs, orig)[l]
    decreases |jobs|
  {
    var last := |jobs| - 1;
    var all := SpecsOf(jobs[..last], specs[..last], orig);
    if l < |all| {
      i, j := FiledInOrder(jobs[..last], specs[..last], orig, k, l);
    } else {
      assert all[k] in all;
      SpecsOfContents(jobs[..last], specs[..last], orig, all[k]);
      var p :| 0 <= p < last && jobs[..last][p].orig == orig && specs[..last][p] == all[k];
      i, j := p, last;
    }
  }

  ghost predicate DefinesTemplate(program: seq<Stmt>, orig: string) {
    exists i :: 0 <= i < |program| && program[i].Def? && program[i].name == orig
  }

  /** How often a name is defined in the rebuilt program. */
  lemma {:induction false} RebuildCount(templates: set<string>, program: seq<Stmt>, generated: map<string, seq<Stmt>>,
                                        orig: string, name: string)
    requires orig in templates
    requires forall o :: o in generated && o != orig ==> Count(generated[o], name) == 0
    requires forall i :: 0 <= i < |program| && program[i].Def? && program[i].name == name ==> name in templates
    ensures Count(Rebuild(templates, program, generated), name) ==
            if DefinesTemplate(program, orig) && orig in generated then Count(generated[orig], name) else 0
    decreases |program|
  {
    if program != [] {
      var st := program[0];
      assert forall i :: 0 < i < |program| ==> program[i] == program[1..][i - 1];
      assert DefinesTemplate(program, orig) <==> (st.Def? && st.name == orig) || DefinesTemplate(program[1..], orig);
      if st.Def? && st.name in templates {
        var here := if st.name in generated then Reversed(generated[st.name]) else [];
        CountAppend(here, Rebuild(templates, program[1..], generated - {st.name}), name);
        if st.name in generated {
          CountReversed(generated[st.name], name);
        }
        RebuildCount(templates, program[1..], generated - {st.name}, orig, name);
      } else {
        CountAppend([st], Rebuild(templates, program[1..], generated), name);
        assert [st][1..] == [];
        RebuildCount(templates, program[1..], generated, orig, name);
      }
    }
  }

  lemma {:induction false} RebuildContents(templates: set<string>, program: seq<Stmt>,
                                           generated: map<string, seq<Stmt>>, st: Stmt)
    requires st in Rebuild(templates, program, generated)
    ensures (st in program && !(st.Def? && st.name in templates)) || exists o :: o in generated && st in generated[o]
    decreases |program|
  {
    var first := program[0];
    if first.Def? && first.name in templates {
      if first.name in generated && st in Reversed(generated[first.name]) {
        ReversedContents(generated[first.name]);
      } else {
        RebuildContents(templates, program[1..], generated - {first.name}, st);
      }
    } else if st != first {
      RebuildContents(templates, program[1..], generated, st);
    }
  }

  lemma {:induction false} RebuildOthers(templates: set<string>, program: seq<Stmt>, generated: map<string, seq<Stmt>>,
                                         name: string)
    requires name !in templates
    requires forall o :: o in generated ==> Count(generated[o], name) == 0
    ensures Count(Rebuild(templates, program, generated), name) == Count(program, name)
    decreases |program|
  {
    if program != [] {
      var st := program[0];
      if st.Def? && st.name in templates {
        var here := if st.name in generated then Reversed(generated[st.name]) else [];
        CountAppend(here, Rebuild(templates, program[1..], generated - {st.name}), name);
        if st.name in generated {
          CountReversed(generated[st.name], name);
        }
        RebuildOthers(templates, program[1..], generated - {st.name}, name);
      } else {
        CountAppend([st], Rebuild(templates, program[1..], generated), name);
        assert [st][1..] == [];
        RebuildOthers(templates, program[1..], generated, name);
      }
    }
  }

  /** Call sites are rewritten in every statement except the templates themselves. */
  function RewriteProgram(el: Elaboration, program: seq<Stmt>): Result<Rewritten<seq<Stmt>>, Error>
    decreases |program|
  {
    if program == [] then Ok(Rewritten([], []))
    else
      var st := program[0];
      if st.Def? && st.name in el.templates then
        var rest :- RewriteProgram(el, program[1..]);
        Ok(Rewritten([st] + rest.value, rest.jobs))
      else
        var body :- RewriteAll(el, st.body);
        var rest :- RewriteProgram(el, program[1..]);
        Ok(Rewritten([st.(body := body.value)] + rest.value, body.jobs + rest.jobs))
  }

  lemma {:induction false} RewriteProgramClosed(el: Elaboration, program: seq<Stmt>)
    requires RewriteProgram(el, program).Ok?
    ensures var r := RewriteProgram(el, program).value;
            && |r.value| == |program|
            && (forall i :: 0 <= i < |program| ==>
                r.value[i].Def? == program[i].Def? && (program[i].Def? ==> r.value[i].name == program[i].name))
            && (forall n :: Count(r.value, n) == Count(program, n))
            && (forall i :: 0 <= i < |program| && !(program[i].Def? && program[i].name in el.templates) ==>
                  Resolved(el, Names(r.jobs), program[i].body, r.value[i].body) &&
                    AllRewrittenFrom(el, program[i].body, r.value[i].body))
            && (forall i :: 0 <= i < |r.jobs| ==> r.jobs[i].orig in el.templates)
    decreases |program|
  {
    if program != [] {
      RewriteProgramClosed(el, program[1..]);
      var r := RewriteProgram(el, program).value;
      var rest := RewriteProgram(el, program[1..]).value;
      assert r.value[1..] == rest.value;
      assert forall i :: 0 < i < |program| ==> program[i] == program[1..][i - 1] && r.value[i] == rest.value[i - 1];
      var st := program[0];
      if !(st.Def? && st.name in el.templates) {
        var body := RewriteAll(el, st.body).value;
        RewriteAllClosed(el, st.body);
        RewriteAllIsFrom(el, st.body);
        NamesAppend(body.jobs, rest.jobs);
      }
    }
  }

  // ----- the worklist -----

  /** Every call inside `body`, rewritten from `source`, names a specialization in `done` or, as in the source,
      something that is no template. */
  ghost predicate Resolved(el: Elaboration, done: set<string>, source: seq<Expr>, body: seq<Expr>) {
    AllCallNames(body) <= done + (AllCallNames(source) - el.templates)
  }

  /** The body of the template as elaborated for the values of the job. */
  ghost function Source(el: Elaboration, job: Job): seq<Expr> {
    match el.generate(job.orig, job.vals) case Ok(made) => made.0 case Err(_) => []
  }

  /** `body` is the template body elaborated for the values of the job, with its own call sites rewritten. */
  ghost predicate Elaborated(el: Elaboration, job: Job, body: seq<Expr>) {
    var made := el.generate(job.orig, job.vals);
    made.Ok? && RewriteAll(el, made.value.0).Ok? && body == RewriteAll(el, made.value.0).value.value
  }

  /** The first requests have been generated: one definition each, with its elaborated body resolved, filed under its
      template in generation order. */
  ghost predicate Filed(el: Elaboration, requested: seq<Job>, done: set<string>, generated: map<string, seq<Stmt>>,
                        specs: seq<Stmt>) {
    && |specs| <= |requested|
    && Specializes(requested[..|specs|], specs)
    && (forall i :: 0 <= i < |specs| ==> Resolved(el, done, Source(el, requested[i]), specs[i].body))
    && (forall i :: 0 <= i < |specs| ==> Elaborated(el, requested[i], specs[i].body))
    && (forall o :: o in generated <==> SpecsOf(requested[..|specs|], specs, o) != [])
    && (forall o :: o in generated ==> generated[o] == SpecsOf(requested[..|specs|], specs, o))
  }

  lemma FileOne(el: Elaboration, requested: seq<Job>, done: set<string>, generated: map<string, seq<Stmt>>,
                specs: seq<Stmt>,
                later: seq<Job>, laterDone: set<string>, body: seq<Expr>)
    requires Filed(el, requested, done, generated, specs)
    requires requested <= later && done <= laterDone && |specs| < |requested|
    requires Resolved(el, laterDone, Source(el, requested[|specs|]), body) && Elaborated(el, requested[|specs|], body)
    ensures var job := requested[|specs|];
            var def := Def(NameOf(job), body);
            var filed := if job.orig in generated then generated[job.orig] else [];
            Filed(el, later, laterDone, generated[job.orig := filed + [def]], specs + [def])
  {
    var k := |specs|;
    var job := requested[k];
    var def := Def(NameOf(job), body);
    var next := specs + [def];
    assert later[..k] == requested[..k] && later[..k + 1][..k] == requested[..k] && next[..k] == specs;
    assert later[..k + 1][k] == job;
    forall o
      ensures SpecsOf(later[..k + 1], next, o) ==
              SpecsOf(requested[..k], specs, o) + if job.orig == o then [def] else []
    {
    }
    forall i | 0 <= i < k + 1
      ensures next[i].Def? && next[i].name == NameOf(later[..k + 1][i])
      ensures Resolved(el, laterDone, Source(el, later[i]), next[i].body)
      ensures Elaborated(el, later[i], next[i].body)
    {
      if i < k {
        assert later[..k + 1][i] == requested[..k][i];
        assert Resolved(el, done, Source(el, requested[i]), specs[i].body) &&
          Elaborated(el, requested[i], specs[i].body);
      }
    }
  }

  /** Why generating a requested specialization fails with `fuel` left for it: its template body cannot be elaborated,
      is too costly, or contains a call that cannot be rewritten. */
  ghost predicate JobFails(el: Elaboration, job: Job, fuel: nat, error: Error) {
    match el.generate(job.orig, job.vals)
    case Err(e) => error == e
    case Ok((body, cost)) => (cost > fuel && error == QuotaExceeded) || RewriteAll(el, body) == Err(error)
  }

  /** Why draining the queue fails: fuel has run out, or one of the requests cannot be generated. */
  ghost predicate DrainFails(el: Elaboration, requested: seq<Job>, fuel: nat, error: Error) {
    || (fuel == 0 && error == QuotaExceeded)
    || exists i :: 0 <= i < |requested| && JobFails(el, requested[i], fuel, error)
  }

  class Mono {
    const elaboration: Elaboration
    var queue: seq<Job>
    var done: set<string>
    var generated: map<string, seq<Stmt>>
    var fuel: nat

    /** Every request made so far, in order. */
    ghost var requested: seq<Job>

    constructor (elaboration: Elaboration, fuel: nat)
      ensures this.elaboration == elaboration && this.fuel == fuel
      ensures Valid() && requested == [] && queue == []
    {
      this.elaboration := elaboration;
      this.fuel := fuel;
      queue := [];
      done := {};
      generated := map[];
      requested := [];
    }

    /** Requests not yet generated are queued in order, and `done` holds the names of all of them. */
    ghost predicate Valid()
      reads this
    {
      && DistinctNames(requested)
      && done == Names(requested)
      && |queue| <= |requested| && queue == requested[|requested| - |queue|..]
      && forall i :: 0 <= i < |requested| ==> requested[i].orig in elaboration.templates
    }

    method Enqueue(job: Job)
      requires Valid() && job.orig in elaboration.templates
      modifies this`queue, this`done, this`requested
      ensures Valid()
      ensures requested == Request(old(requested), [job]) && old(requested) <= requested
      ensures |requested| - |queue| == old(|requested| - |queue|)
    {
      assert [job][1..] == [];
      RequestExtends(requested, [job]);
      NamesOfOne(job);
      var name := Mangle(job.orig, job.vals);
      if name !in done {
        done := done + {name};
        queue := queue + [job];
        requested := requested + [job];
      }
    }

    method MonoExpr(e: Expr) returns (r: Result<Expr, Error>)
      requires Valid()
      modifies this`queue, this`done, this`requested
      ensures Valid() && old(requested) <= requested
      ensures |requested| - |queue| == old(|requested| - |queue|)
      ensures match Rewrite(elaboration, e)
              case Ok(rewritten) => r == Ok(rewritten.value) && requested == Request(old(requested), rewritten.jobs)
              case Err(error) => r == Err(error)
      decreases e, 0
    {
      match e {
        case Node(children) =>
          var rs := MonoExprs(children);
          if rs.Err? {
            return Err(rs.error);
          }
          r := Ok(Node(rs.value));
        case Call(name, params, args) =>
          var rs := MonoExprs(args);
          if rs.Err? {
            return Err(rs.error);
          }
          if name !in elaboration.templates {
            return Ok(Call(name, params, rs.value));
          }
          var resolved := elaboration.resolve(name, params, rs.value);
          if resolved.Err? {
            return Err(resolved.error);
          }
          var job := Job(name, resolved.value.0);
          RequestAppend(old(requested), RewriteAll(elaboration, args).value.jobs, [job]);
          Enqueue(job);
          var mangled := Mangle(job.orig, job.vals);
          r := Ok(Call(mangled, resolved.value.1, rs.value));
      }
    }

    method MonoExprs(es: seq<Expr>) returns (r: Result<seq<Expr>, Error>)
      requires Valid()
      modifies this`queue, this`done, this`requested
      ensures Valid() && old(requested) <= requested
      ensures |requested| - |queue| == old(|requested| - |queue|)
      ensures match RewriteAll(elaboration, es)
              case Ok(rewritten) => r == Ok(rewritten.value) && requested == Request(old(requested), rewritten.jobs)
              case Err(error) => r == Err(error)
      decreases es, 1
    {
      if es == [] {
        return Ok([]);
      }
      var first := MonoExpr(es[0]);
      if first.Err? {
        return Err(first.error);
      }
      var rest := MonoExprs(es[1..]);
      if rest.Err? {
        return Err(rest.error);
      }
      RequestAppend(old(requested), Rewrite(elaboration, es[0]).value.jobs,
                    RewriteAll(elaboration, es[1..]).value.jobs);
      r := Ok([first.value] + rest.value);
    }

    ghost predicate Drained(specs: seq<Stmt>)
      reads this
    {
      |specs| == |requested| - |queue| && Filed(elaboration, requested, done, generated, specs)
    }

    method Generate(ghost specs: seq<Stmt>) returns (r: Result<(), Error>, ghost next: seq<Stmt>)
      requires Valid() && Drained(specs) && queue != [] && fuel > 0
      modifies this
      ensures r.Ok? ==> Valid() && Drained(next) && |next| == |specs| + 1 && fuel < old(fuel)
      ensures r.Ok? ==> old(done) <= done
      ensures old(requested) <= requested
      ensures r.Err? ==> JobFails(elaboration, old(queue)[0], fuel, r.error)
    {
      fuel := fuel - 1;
      var job := queue[0];
      queue := queue[1..];
      next := specs;
      var body := elaboration.generate(job.orig, job.vals);
      if body.Err? {
        return Err(body.error), next;
      }
      if body.value.1 > fuel {
        return Err(QuotaExceeded), next;
      }
      fuel := fuel - body.value.1;
      ghost var before, doneBefore := requested, done;
      assert before[|specs|] == job;
      var rewritten := MonoExprs(body.value.0);
      if rewritten.Err? {
        return Err(rewritten.error), next;
      }
      ghost var made := RewriteAll(elaboration, body.value.0).value;
      RequestExtends(before, made.jobs);
      RewriteAllClosed(elaboration, body.value.0);
      next := File(job, rewritten.value, before, doneBefore, specs);
      r := Ok(());
    }

    /** Files a generated body under its template. */
    method File(job: Job, body: seq<Expr>, ghost before: seq<Job>, ghost doneBefore: set<string>,
                ghost specs: seq<Stmt>)
      returns (ghost next: seq<Stmt>)
      requires Valid() && Filed(elaboration, before, doneBefore, generated, specs)
      requires before <= requested && doneBefore <= done
      requires |specs| < |before| && before[|specs|] == job && |specs| + 1 == |requested| - |queue|
      requires Resolved(elaboration, done, Source(elaboration, job), body) && Elaborated(elaboration, job, body)
      modifies this`generated
      ensures Valid() && Drained(next) && |next| == |specs| + 1
    {
      var name := Mangle(job.orig, job.vals);
      var def := Def(name, body);
      next := specs + [def];
      FileOne(elaboration, before, doneBefore, generated, specs, requested, done, body);
      var filed := if job.orig in generated then generated[job.orig] else [];
      generated := generated[job.orig := filed + [def]];
    }

    /** Generates every requested specialization, including those requested on the way, or fails with one of them or for
        want of fuel. */
    method Drain() returns (r: Result<(), Error>, ghost specs: seq<Stmt>)
      requires Valid() && Drained([])
      modifies this
      ensures r.Ok? ==> Valid() && Drained(specs) && queue == []
      ensures r.Ok? ==> old(done) <= done && fuel + |specs| <= old(fuel)
      ensures old(requested) <= requested
      ensures r.Err? ==> DrainFails(elaboration, requested, fuel, r.error)
    {
      specs := [];
      while queue != []
        invariant Valid() && Drained(specs) && old(done) <= done && old(requested) <= requested
        invariant fuel + |specs| <= old(fuel)
        decreases fuel
      {
        if fuel == 0 {
          return Err(QuotaExceeded), specs;
        }
        ghost var job, position := queue[0], |requested| - |queue|;
        assert requested[position] == job;
        var step;
        step, specs := Generate(specs);
        if step.Err? {
          assert requested[position] == job;
          return Err(step.error), specs;
        }
      }
      r := Ok(());
    }

    /** Rewrites the call sites of the program itself. */
    method MonoProgram(program: seq<Stmt>) returns (r: Result<seq<Stmt>, Error>)
      requires Valid()
      modifies this`queue, this`done, this`requested
      ensures Valid() && |requested| - |queue| == old(|requested| - |queue|)
      ensures match RewriteProgram(elaboration, program)
              case Ok(rewritten) => r == Ok(rewritten.value) && requested == Request(old(requested), rewritten.jobs)
              case Err(error) => r == Err(error)
      decreases |program|
    {
      if program == [] {
        return Ok([]);
      }
      var st := program[0];
      if !(st.Def? && st.name in elaboration.templates) {
        var body := MonoExprs(st.body);
        if body.Err? {
          return Err(body.error);
        }
        st := st.(body := body.value);
      }
      ghost var between := requested;
      var rest := MonoProgram(program[1..]);
      if rest.Err? {
        return Err(rest.error);
      }
      if !(st.Def? && st.name in elaboration.templates) {
        RequestAppend(old(requested), RewriteAll(elaboration, program[0].body).value.jobs,
                      RewriteProgram(elaboration, program[1..]).value.jobs);
      }
      r := Ok([st] + rest.value);
    }

    /** Replaces the first definition of each template by its specializations, latest first, and drops the rest. */
    method Assemble(program: seq<Stmt>) returns (out: seq<Stmt>)
      ensures out == Rebuild(elaboration.templates, program, generated)
    {
      out := [];
      var remaining := generated;
      assert program[0..] == program;
      for i := 0 to |program|
        invariant out + Rebuild(elaboration.templates, program[i..], remaining)
          == Rebuild(elaboration.templates, program, generated)
      {
        var st := program[i];
        assert program[i..][0] == st && program[i..][1..] == program[i + 1..];
        if st.Def? && st.name in elaboration.templates {
          var here := if st.name in remaining then Reversed(remaining[st.name]) else [];
          remaining := remaining - {st.name};
          assert out + (here + Rebuild(elaboration.templates, program[i + 1..], remaining)) ==
                 (out + here) + Rebuild(elaboration.templates, program[i + 1..], remaining);
          out := out + here;
        } else {
          assert out + ([st] + Rebuild(elaboration.templates, program[i + 1..], remaining)) ==
                 (out + [st]) + Rebuild(elaboration.templates, program[i + 1..], remaining);
          out := out + [st];
        }
      }
    }

    /** On success every call in the result names a specialization that is defined there or a callee of the source that
        is no template, each requested specialization is defined exactly once, no template is left, everything else is
        kept, and every specialization was paid for. */
    method Monomorphize(program: seq<Stmt>) returns (r: Result<seq<Stmt>, Error>, ghost specs: seq<Stmt>)
      requires Valid() && requested == [] && queue == [] && generated == map[]
      requires SourceNames(elaboration.templates, program)
      modifies this
      ensures r.Ok? ==> Valid() && queue == []
      ensures r.Ok? ==> Complete(elaboration, program, requested, done, r.value)
      ensures r.Ok? ==> fuel + |requested| <= old(fuel)
      ensures r.Err? ==>
                || RewriteProgram(elaboration, program) == Err(r.error)
                || DrainFails(elaboration, requested, fuel, r.error)
      ensures r.Ok? && elaboration.templates == {} ==> r.value == program
      ensures r.Ok? && elaboration.templates != {} ==>
                && Drained(specs) && RewriteProgram(elaboration, program).Ok?
                && r.value == Rebuild(elaboration.templates, RewriteProgram(elaboration, program).value.value,
                                      generated)
    {
      specs := [];
      if elaboration.templates == {} {
        assert done == {};
        NothingToSpecialize(elaboration, program);
        return Ok(program), [];
      }
      var rewritten := MonoProgram(program);
      if rewritten.Err? {
        return Err(rewritten.error), [];
      }
      ghost var made := RewriteProgram(elaboration, program).value;
      RequestExtends([], made.jobs);
      NothingFiled(elaboration, requested, done);
      var drained;
      drained, specs := Drain();
      if drained.Err? {
        return Err(drained.error), specs;
      }
      var out := Assemble(rewritten.value);
      RebuiltIsComplete(elaboration, program, requested, done, generated, specs);
      r := Ok(out);
    }
  }

  lemma NothingFiled(el: Elaboration, requested: seq<Job>, done: set<string>)
    ensures Filed(el, requested, done, map[], [])
  {
  }

  lemma NothingToSpecialize(el: Elaboration, program: seq<Stmt>)
    requires el.templates == {}
    ensures Complete(el, program, [], {}, program)
  {
    forall st | st in program
      ensures Accounted(el, program, [], {}, st)
    {
      var i :| 0 <= i < |program| && program[i] == st;
      forall e <- st.body ensures RewrittenFrom(el, e, e) { UnchangedIsFrom(el, e); }
      assert FromProgram(el, program, {}, st, i);
    }
  }

  /** Names written in source contain no `$`, and every template is one of the program's definitions. */
  ghost predicate SourceNames(templates: set<string>, program: seq<Stmt>) {
    && (forall t :: t in templates ==> '$' !in t && DefinesTemplate(program, t))
    && (forall i :: 0 <= i < |program| && program[i].Def? ==> '$' !in program[i].name)
  }

  /** The statement is the program's `i`-th, with its call sites rewritten. */
  ghost predicate FromProgram(el: Elaboration, program: seq<Stmt>, done: set<string>, st: Stmt, i: nat) {
    && i < |program| && st.Def? == program[i].Def? &&
      (st.Def? ==> st.name == program[i].name && st.name !in el.templates)
    && Resolved(el, done, program[i].body, st.body) && AllRewrittenFrom(el, program[i].body, st.body)
  }

  /** The statement is the specialization asked for by the `i`-th request. */
  ghost predicate FromRequest(el: Elaboration, requested: seq<Job>, done: set<string>, st: Stmt, i: nat) {
    && i < |requested| && st.Def? && st.name == NameOf(requested[i])
    && Elaborated(el, requested[i], st.body)
    && Resolved(el, done, Source(el, requested[i]), st.body) && AllRewrittenFrom(el, Source(el, requested[i]), st.body)
  }

  /** Where a statement of the result comes from. Either way its calls name specializations that were requested, or
      callees of its source that are no templates. */
  ghost predicate Accounted(el: Elaboration, program: seq<Stmt>, requested: seq<Job>, done: set<string>, st: Stmt) {
    (exists i :: FromProgram(el, program, done, st, i)) || (exists i :: FromRequest(el, requested, done, st, i))
  }

  ghost predicate Complete(el: Elaboration, program: seq<Stmt>, requested: seq<Job>, done: set<string>,
                           out: seq<Stmt>) {
    && (forall st :: st in out ==> Accounted(el, program, requested, done, st))
    && (forall n :: n in done ==> Count(out, n) == 1)
    && (forall n :: n !in done && n !in el.templates ==> Count(out, n) == Count(program, n))
    && (forall n :: n !in done && n in el.templates ==> Count(out, n) == 0)
  }

  /** A name that a statement of the source calls. */
  ghost predicate SourceCallee(el: Elaboration, program: seq<Stmt>, requested: seq<Job>, name: string) {
    || (exists i :: 0 <= i < |program| && name in AllCallNames(program[i].body))
    || (exists i :: 0 <= i < |requested| && name in AllCallNames(Source(el, requested[i])))
  }

  /** Every name called in the result is that of a specialization defined there exactly once, or that of a callee in the
      source that is no template, which is defined as often as it was in the program. */
  lemma CallsAreDefined(el: Elaboration, program: seq<Stmt>, requested: seq<Job>, done: set<string>, out: seq<Stmt>,
                        st: Stmt, name: string)
    requires Complete(el, program, requested, done, out) && st in out && name in AllCallNames(st.body)
    ensures || (name in done && Count(out, name) == 1)
            || (name !in el.templates && SourceCallee(el, program, requested, name) &&
                Count(out, name) == Count(program, name))
  {
    assert Accounted(el, program, requested, done, st);
  }

  /** Names of specializations and names written in source only meet in a template specialized without arguments. */
  lemma SpecializationNamesAreNew(templates: set<string>, program: seq<Stmt>, job: Job, i: nat)
    requires SourceNames(templates, program) && job.orig in templates
    requires i < |program| && program[i].Def? && program[i].name == NameOf(job)
    ensures program[i].name in templates
  {
    MangledInjective(program[i].name, [], job.orig, job.vals);
    assert Mangled(program[i].name, []) == program[i].name;
  }

  /** All requests have been generated; what is known when the program is put together. */
  ghost predicate Finished(el: Elaboration, program: seq<Stmt>, requested: seq<Job>, done: set<string>,
                           generated: map<string, seq<Stmt>>, specs: seq<Stmt>) {
    && SourceNames(el.templates, program)
    && RewriteProgram(el, program).Ok?
    && DistinctNames(requested) && done == Names(requested)
    && Names(RewriteProgram(el, program).value.jobs) <= done
    && (forall i :: 0 <= i < |requested| ==> requested[i].orig in el.templates)
    && |specs| == |requested|
    && Filed(el, requested, done, generated, specs)
  }

  lemma GeneratedFrom(el: Elaboration, program: seq<Stmt>, requested: seq<Job>, done: set<string>,
                      generated: map<string, seq<Stmt>>, specs: seq<Stmt>, o: string, st: Stmt) returns (i: nat)
    requires Finished(el, program, requested, done, generated, specs)
    requires o in generated && st in generated[o]
    ensures i < |specs| && requested[i].orig == o && specs[i] == st
    ensures FromRequest(el, requested, done, st, i) && st.name in done
  {
    assert requested[..|specs|] == requested;
    SpecsOfContents(requested, specs, o, st);
    i :| 0 <= i < |requested| && requested[i].orig == o && specs[i] == st;
    assert st.name == NameOf(requested[i]) && Elaborated(el, requested[i], st.body);
    RewriteAllIsFrom(el, Source(el, requested[i]));
  }

  lemma RebuiltStatement(el: Elaboration, program: seq<Stmt>, requested: seq<Job>, done: set<string>,
                         generated: map<string, seq<Stmt>>, specs: seq<Stmt>, st: Stmt)
    requires Finished(el, program, requested, done, generated, specs)
    requires st in Rebuild(el.templates, RewriteProgram(el, program).value.value, generated)
    ensures Accounted(el, program, requested, done, st)
  {
    var made := RewriteProgram(el, program).value;
    RewriteProgramClosed(el, program);
    RebuildContents(el.templates, made.value, generated, st);
    if st in made.value && !(st.Def? && st.name in el.templates) {
      var i :| 0 <= i < |made.value| && made.value[i] == st;
      assert Resolved(el, Names(made.jobs), program[i].body, made.value[i].body);
      assert FromProgram(el, program, done, st, i);
    } else {
      var o :| o in generated && st in generated[o];
      var i := GeneratedFrom(el, program, requested, done, generated, specs, o, st);
    }
  }

  /** How often `name` is defined among the specializations filed under `o`. */
  lemma GeneratedCount(el: Elaboration, program: seq<Stmt>, requested: seq<Job>, done: set<string>,
                       generated: map<string, seq<Stmt>>, specs: seq<Stmt>, o: string, name: string)
    requires Finished(el, program, requested, done, generated, specs) && o in generated
    ensures Count(generated[o], name) ==
            if AskedOf(requested, o, name) then 1 else 0
  {
    assert requested[..|specs|] == requested;
    SpecsOfCount(requested, specs, o, name);
  }

  lemma RebuiltOnce(el: Elaboration, program: seq<Stmt>, requested: seq<Job>, done: set<string>,
                    generated: map<string, seq<Stmt>>, specs: seq<Stmt>, i: nat)
    requires Finished(el, program, requested, done, generated, specs) && i < |requested|
    ensures Count(Rebuild(el.templates, RewriteProgram(el, program).value.value, generated), NameOf(requested[i])) == 1
  {
    var made := RewriteProgram(el, program).value.value;
    var orig, name := requested[i].orig, NameOf(requested[i]);
    RewriteProgramClosed(el, program);
    forall o | o in generated && o != orig
      ensures Count(generated[o], name) == 0
    {
      GeneratedCount(el, program, requested, done, generated, specs, o, name);
    }
    forall j | 0 <= j < |made| && made[j].Def? && made[j].name == name
      ensures name in el.templates
    {
      SpecializationNamesAreNew(el.templates, program, requested[i], j);
    }
    assert requested[..|specs|] == requested;
    SpecsOfContents(requested, specs, orig, specs[i]);
    GeneratedCount(el, program, requested, done, generated, specs, orig, name);
    assert DefinesTemplate(made, orig) by {
      var j :| 0 <= j < |program| && program[j].Def? && program[j].name == orig;
      assert made[j].Def? && made[j].name == orig;
    }
    RebuildCount(el.templates, made, generated, orig, name);
  }

  lemma RebuiltIsComplete(el: Elaboration, program: seq<Stmt>, requested: seq<Job>, done: set<string>,
                          generated: map<string, seq<Stmt>>, specs: seq<Stmt>)
    requires Finished(el, program, requested, done, generated, specs)
    ensures Complete(el, program, requested, done,
                     Rebuild(el.templates, RewriteProgram(el, program).value.value, generated))
  {
    var out := Rebuild(el.templates, RewriteProgram(el, program).value.value, generated);
    forall st | st in out
      ensures Accounted(el, program, requested, done, st)
    {
      RebuiltStatement(el, program, requested, done, generated, specs, st);
    }
    forall n | n in done
      ensures Count(out, n) == 1
    {
      var i :| 0 <= i < |requested| && NameOf(requested[i]) == n;
      RebuiltOnce(el, program, requested, done, generated, specs, i);
    }
    forall n | n !in done
      ensures Count(out, n) == if n in el.templates then 0 else Count(program, n)
    {
      RebuiltRest(el, program, requested, done, generated, specs, n);
    }
  }

  /** Names that were not requested keep their definitions, unless they are templates. */
  lemma RebuiltRest(el: Elaboration, program: seq<Stmt>, requested: seq<Job>, done: set<string>,
                    generated: map<string, seq<Stmt>>, specs: seq<Stmt>, n: string)
    requires Finished(el, program, requested, done, generated, specs) && n !in done
    ensures Count(Rebuild(el.templates, RewriteProgram(el, program).value.value, generated), n) ==
            if n in el.templates then 0 else Count(program, n)
  {
    var made := RewriteProgram(el, program).value.value;
    RewriteProgramClosed(el, program);
    forall o | o in generated
      ensures Count(generated[o], n) == 0
    {
      GeneratedCount(el, program, requested, done, generated, specs, o, n);
    }
    if n in el.templates {
      RebuildCount(el.templates, made, generated, n, n);
    } else {
      RebuildOthers(el.templates, made, generated, n);
    }
  }

  /** The recorded names are in bijection with the requests, and two requests share a specialization exactly when they
      ask for the same template with the same values. */
  lemma {:induction false} RequestsMatchNames(templates: set<string>, requested: seq<Job>)
    requires DistinctNames(requested)
    requires forall t :: t in templates ==> '$' !in t
    requires forall i :: 0 <= i < |requested| ==> requested[i].orig in templates
    ensures |Names(requested)| == |requested|
    ensures forall a: Job, b: Job :: a.orig in templates && b.orig in templates ==> (NameOf(a) == NameOf(b) <==> a == b)
    decreases |requested|
  {
    forall a: Job, b: Job | a.orig in templates && b.orig in templates
      ensures NameOf(a) == NameOf(b) <==> a == b
    {
      MangledInjective(a.orig, a.vals, b.orig, b.vals);
    }
    if requested == [] {
      assert Names(requested) == {};
    } else {
      var last := |requested| - 1;
      RequestsMatchNames(templates, requested[..last]);
      NamesOfOne(requested[last]);
      NamesAppend(requested[..last], [requested[last]]);
      assert requested[..last] + [requested[last]] == requested;
      assert NameOf(requested[last]) !in Names(requested[..last]);
    }
  }
}
