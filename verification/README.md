# Mojito front end: verified model

Mojito compiles a subset of Mojo. This project models the analyses and transformations of its front end and proves what
they guarantee. Each pass that works by updating state is written as methods on that state and proved equal to a
functional account of its rules; the guarantees are then proved about those rules, for all programs and all runs.

| part | modules |
|---|---|
| linear values: who still owes a destructor | LinearPaths, Obligations, LinearValues, FlowSyntax, FlowRules, FlowRuns, FlowSoundness, FlowAcceptance, FlowLimits, ExplicitDestroy |
| compile-time elaboration: selection, unrolling, `with` | ComptimeSyntax, CtValues, ConstantFolding, FoldingMeaning, ElaborationRules, ElaborationChoice, ElaborationFuel, ElaborationRuns, ElaborationMeaning, ElaborationScoping, ElaborationOutput, ElaborationBalance, Elaborate |
| specialization of generic functions | SpecializationNames, Monomorphize |
| which functions may run at compile time | CtfeSafety, CtfeForms, CtfeLoopElse |
| binding arguments and choosing overloads | CallBinding, OverloadChoice |
| traits: table, conformance, default methods | TraitTable, TraitConformance, TraitChecker, TraitDefaults |
| definite initialization | InitRules, InitRuns, InitSoundness, InitExactness, InitStaying, InitAcceptance, InitScoping, InitLimits, DefiniteInit |
| the checked program's arenas | CheckedSyntax, CheckedArena, CheckedProgram, CheckedDeclarations, CheckedOperands, CheckedOccurrences, CheckedNesting |

How the parts are tied together:

* Linear values. `Obligations` gives the incremental set its declarative meaning; `LinearValues` relates that meaning to
  concrete values with holes; `FlowRuns` says what a function does to such values, over every choice of branches and
  rounds; `FlowSoundness` shows that acceptance rules out every fault and `FlowAcceptance` that, in the code it names, only
  faults and runs that do not agree are rejected; `ExplicitDestroy` is the pass itself.
* Elaboration. `ElaborationRuns` has two interpreters over an arbitrary host that answers operators and calls from the
  whole exchange so far: one for elaborated code, one that resolves the source in place, with its own account in
  `ElaborationChoice` of which branch is meant and which values are run over. The main theorem relates the two
  for every block, store, fuel and depth of looping. Only names starting with `$` may differ between the stores.
* Traits. `TraitChecker` keeps, over any sequence of registrations, a table in which parents come first and are included,
  and in which every declared conformance is implemented.

## Where the code departs from what one would expect

Each of these is a lemma with a concrete program or an exact condition, listed below.

* Joining the exits of an exhaustive `if` that never falls through yields an environment without scopes; nested in another
  block this makes the linear-value pass panic.
* Variables that different arms of an `if` declare are compared when they get the same number, so that whether a function is
  accepted can depend on the order of its arms.
* What follows a loop whose `else` leaves is checked as if control could get there.
* Assigning a linear field neither checks for a destructor still owed there nor merges obligations of nested ancestors.
* Transferring a partly moved value leaves obligations recorded inside it; only the later ownership pass prevents this.
* The checker's constant folders cut exponents to 32 bits where the elaborator refuses them.
* A constant declared in an arm of a run-time `if` is known after it, whether or not the arm is taken.
* A compile-time range is stepped once past its last term without an overflow check.
* A nested `comptime for` that reuses its enclosing loop's variable sees nothing of its own values, unless the value of the
  enclosing iteration has no run-time form.
* The `else` clause of a loop is not looked at when functions are classified for compile-time execution. When
  initialization is tracked it is checked as if no `break` could skip it, and the names it introduces are not predeclared
  where it need not run.
* The value of a name introduced in an arm may not read a name introduced with it, even one assigned just before.
* The packed overload rank stops being lexicographic at 256 parameters.
* A user trait may take a built-in name, and then conformance to the traits it refines is not verified; exactly these
  traits can be conformed to without being implemented.
* One default method inherited along two paths counts as ambiguous.

## Model

| member | source | states |
|---|---|---|
| LinearPaths.OwedIsAntichain | src/explicit_destroy.rs:653-679 | Two different paths owed a destructor are never nested: no subobject is owed twice. |
| Obligations.MoveOutExact | src/explicit_destroy.rs:653-679 | A transfer never meets an invalid residual, and the incrementally kept obligations equal those recomputed from what has moved out if and only if no separately owed path lies strictly inside the transferred place. |
| Obligations.MoveOutOfWholePlace | src/explicit_destroy.rs:653-679 | For a transfer the ownership pass allows (nothing moved at, above or below the place) the obligations stay exact. |
| Obligations.PartlyMovedTransferIsInexact | src/explicit_destroy.rs:653-679 | A concrete partly moved value whose transfer leaves an obligation recorded inside the moved place. |
| Obligations.DestroyExact | src/explicit_destroy.rs:753-800 | A destructor call is accepted if and only if its place is a linear subobject with nothing moved out at, above or below it; obligations then stay exact, and the two rejections are told apart by whether a part had moved. |
| Obligations.DestroyLeavesTheRest | src/explicit_destroy.rs:764-800 | After a destructor call nothing nested with the place is owed, everything not nested with it that was owed still is, and what is newly owed is a sibling released by breaking up an intact ancestor. |
| Obligations.ReinitializeExact | src/explicit_destroy.rs:802-823 | An assignment to a place of any depth inside values that are still there forgets exactly the moves at and below it, and keeps the obligations exact if and only if it completes the variable, or completes no enclosing linear value and nothing was still owed below a linear place, or leaves an intact ordinary place intact. |
| Obligations.CompletedAncestorIsNotMerged | src/explicit_destroy.rs:802-823 | Once `a.b` and `c` have been moved out and `a.b` is assigned again, `a` is intact and owed but recorded only through `a.b`, and a destructor call on `a` is rejected as incomplete. |
| Obligations.StepKeepsExact | src/explicit_destroy.rs:653-823 | Every permitted transfer, destructor call or assignment keeps the obligations exact and never reports an invalid residual. |
| Obligations.IncrementalIsRecomputed | src/explicit_destroy.rs:653-823 | After any permitted sequence of operations the obligation set is the one recomputed from the moved set alone, its members are pairwise unnested, and the invalid-residual error is unreachable. |
| Obligations.SecondDestructorFails | src/explicit_destroy.rs:764-800 | Once a place has been destroyed, from whatever state, a destructor call on it fails however many other operations come between, assignments elsewhere and below it included, unless the place or a value that encloses it is reassigned. |
| LinearValues.OwesIsOwed | src/explicit_destroy.rs:727-751 | The destructors a concrete value with holes still owes are those computed from the set of moved paths, whatever the value. |
| FlowSoundness.ExprSound | src/explicit_destroy.rs:434-588 | If an expression is accepted, running it from a matching store gives a store matching the new state, or leaves the fragment; every destructor call in it finds its value there and whole. |
| FlowSoundness.StmtSound | src/explicit_destroy.rs:201-432 | If a statement is accepted, every run of it ends in a store that the resulting state describes, or exits with nothing owed, or leaves the fragment. |
| FlowSoundness.BlockSound | src/explicit_destroy.rs:177-199 | The same for blocks, over all branch choices and all numbers of loop rounds. |
| FlowSoundness.AcceptedFunctionsAreSound | src/explicit_destroy.rs:144-175 | No run of an accepted function abandons a linear value, overwrites one or destroys a missing one, by fall-through, return or raise; each run exits cleanly or is outside the stated fragment. |
| FlowAcceptance.AcceptedExactly | src/explicit_destroy.rs:144-432 | In a function none of whose runs leaves the fragment, with no linear variables declared in the arms of an `if`, nothing behind an exhaustive `if` that leaves and no loop `else` that leaves, acceptance means exactly that no run abandons, overwrites or destroys twice and that runs which meet again after an `if` or a loop round have lost the same parts of the same values. |
| FlowAcceptance.AcceptedFunctionsAreSteady | src/explicit_destroy.rs:848-868 | In any accepted function, runs that meet after an `if`, or come back to the head of a loop, have lost the same parts of the same values. |
| FlowAcceptance.ExprAccepted | src/explicit_destroy.rs:434-588 | An expression whose evaluation goes through from a matching store is accepted, and the state afterwards matches the store afterwards. |
| FlowAcceptance.OverwriteAcceptedExactly | src/explicit_destroy.rs:220-233 | Assigning a variable is accepted if and only if its value owes no destructor at that moment, destroyed and transferred values included, and is otherwise reported as overwritten. |
| FlowAcceptance.PopAcceptedExactly | src/explicit_destroy.rs:82-85 | A scope is left without complaint if and only if no value in it owes a destructor, and otherwise a value is reported as abandoned. |
| FlowAcceptance.ExitAcceptedExactly | src/explicit_destroy.rs:235-244 | The function is left without complaint if and only if no value in any scope owes a destructor. |
| FlowAcceptance.ConsistentIsSameHoles | src/explicit_destroy.rs:848-858 | Two states that describe runs are consistent if and only if the runs have lost the same parts of the same values. |
| FlowAcceptance.IndexedTransferIsRejected | src/explicit_destroy.rs:658-666 | A transfer is refused as an indexed projection if and only if it goes through an index and starts from a variable of linear type. |
| FlowAcceptance.BorrowedParametersOweNothing | src/explicit_destroy.rs:153-162 | A function that does nothing is accepted if and only if none of its linear parameters is passed by `var` or `deinit`. |
| FlowLimits.FieldOverwriteExactly | src/explicit_destroy.rs:802-823 | A run that assigns a linear place loses a value that still owes a destructor if and only if an obligation is recorded at, above or below the place. |
| FlowLimits.FieldOverwriteIsAccepted | src/explicit_destroy.rs:407-411 | The pass accepts every assignment to a place whose expressions transfer nothing, also the one whose run, exactly if an obligation is recorded at, above or below the place, loses a value. |
| FlowLimits.AcceptedFunctionOverwritesField | src/explicit_destroy.rs:802-823 | A function that assigns `p.a` over an intact field and then destroys `p` is accepted, and its run drops the old value. |
| FlowLimits.PanicsExactlyOnEmptyStack | src/explicit_destroy.rs:860-868 | The pass panics only on functions in which something is declared, or an inner block ends, after an `if` whose arms all leave; it accepts none of those functions. |
| FlowLimits.NestedExhaustiveReturnPanics | src/explicit_destroy.rs:860-868 | With any linear types registered, a function that merely nests an exhaustive `if` of returns in another branch makes the pass panic, because joining no exits yields an environment without scopes. |
| FlowLimits.LeavingElseIsIgnored | src/explicit_destroy.rs:292-304 | What follows an accepted loop is checked as if its `else` had not been there when that `else` leaves. |
| FlowLimits.ArmLocalsAreCompared | src/explicit_destroy.rs:848-868 | A function whose arms declare one variable each, one of them linear and destroyed in its arm, is rejected as inconsistent with the linear arm last and accepted with the arms exchanged. |
| ExplicitDestroy.Env.ExposePath | src/explicit_destroy.rs:727-751 | Breaking up the intact ancestors of a path, in place, outermost first, is the specified decomposition. |
| ExplicitDestroy.Env.MoveRoot | src/explicit_destroy.rs:653-679 | The in-place transfer leaves the specified state and reports the specified problem. |
| ExplicitDestroy.Env.ConsumeDestructor | src/explicit_destroy.rs:764-800 | The in-place destructor call leaves the specified state and reports the specified problem. |
| ExplicitDestroy.Env.ReinitializePlace | src/explicit_destroy.rs:802-823 | The in-place reinitialization leaves the specified state. |
| ExplicitDestroy.Env.PopChecked | src/explicit_destroy.rs:82-95 | Leaving a scope is rejected exactly if one of its variables still owes a destructor, and otherwise removes that scope. |
| ExplicitDestroy.EnsureSame | src/explicit_destroy.rs:848-858 | Loop back-edges and joins are accepted exactly for the pairs of states the rules call consistent. |
| ExplicitDestroy.Join | src/explicit_destroy.rs:860-868 | Joining branch exits answers as specified, including for no exits at all. |
| ExplicitDestroy.CheckStmt | src/explicit_destroy.rs:201-432 | The statement pass over a mutable environment gives the verdict and the state of the rules that the soundness theorem is about. |
| ExplicitDestroy.CheckBlock | src/explicit_destroy.rs:177-199 | The same for blocks, with and without a scope of their own. |
| ExplicitDestroy.CheckFunction | src/explicit_destroy.rs:144-175 | The pass over a function answers accept, reject or panic exactly as the rules do. |
| SpecializationNames.EncodeSpecializationValue | src/comptime.rs:2841-2872 | Appending to the buffer adds exactly the encoding of the value. |
| SpecializationNames.DecodeEncoded | src/comptime.rs:2841-2872 | For every nested compile-time value and every following text, decoding gives back the value and that text. |
| SpecializationNames.Mangle | src/comptime.rs:2832-2839 | The name built is the template name followed by one `$`-introduced encoding per value. |
| SpecializationNames.MangledInjective | src/comptime.rs:2832-2872 | For template names without `$`, two requests have the same name if and only if template and values are equal. |
| SpecializationNames.NamesAsWritten | src/comptime.rs:2832-2872 | Names written out in full for a negative number, a pair of a truth value and a text, and a float by its bits. |
| SpecializationNames.DollarNamesCollide | src/comptime.rs:2832-2839 | With `$` in a template name two different requests collide. |
| Monomorphize.Mono.Enqueue | src/comptime.rs:2418-2432 | A request is queued if and only if its name has not been seen, and then the name is recorded. |
| Monomorphize.Mono.MonoExpr | src/comptime.rs:2380-2439 | Rewriting calls in place gives the specified expression and adds its requests in order, repeated ones once. |
| Monomorphize.RewriteAllIsFrom | src/comptime.rs:2410-2439 | A rewritten expression has the nodes, arguments and order of its source; a call of no template keeps its brackets, a call of a template has exactly the brackets that resolving it keeps and the name of the request with the values it chose; and the requests are those of the template calls. |
| Monomorphize.RewriteClosed | src/comptime.rs:2410-2439 | After rewriting, the names called are exactly those of the requested specializations and the callees of the source that are no templates, and every request is for a template. |
| Monomorphize.Mono.Drain | src/comptime.rs:2109-2121 | Draining the queue ends with it empty, every request generated once, and at least one unit of fuel spent on each; or it fails because fuel has run out or because a request cannot be generated, or its body not rewritten, with that error. |
| Monomorphize.Mono.Assemble | src/comptime.rs:2122-2141 | Rebuilding replaces each template where it stood by its specializations, latest first, and drops unused templates. |
| Monomorphize.Mono.Monomorphize | src/comptime.rs:2092-2141 | On success each statement of the result is one of the program or the specialization of one request, calling only requested specializations and callees of its source that are no templates; every requested specialization is defined exactly once, no template remains, all else is kept, and fuel covers the requests. A failure is that of rewriting the program, of one of the requests, or of fuel. |
| Monomorphize.RebuiltIsComplete | src/comptime.rs:2122-2141 | The rebuilt program is closed: the statement of the previous row for the specification of the rebuild. |
| Monomorphize.TemplateIsReplacedInPlace | src/comptime.rs:2122-2141 | The specializations of a template stand where its first definition stood, between what comes of the statements before and after it, the one generated last coming first. |
| Monomorphize.StatementStaysInPlace | src/comptime.rs:2122-2141 | Every other statement stays where it stood. |
| Monomorphize.FiledInOrder | src/comptime.rs:2109-2121 | The specializations of one template are filed in the order of their requests. |
| Monomorphize.CallsAreDefined | src/comptime.rs:2410-2439 | Every name called anywhere in the result is that of a specialization defined there exactly once, or a callee of the source that is no template and keeps the definitions it had. |
| Monomorphize.SpecsOfCount | src/comptime.rs:2109-2121 | Each requested name is defined once among the specializations of its template, and nowhere else. |
| Monomorphize.RequestsMatchNames | src/comptime.rs:2418-2432 | Recorded names are in bijection with requests, and two requests share a specialization exactly when template and values agree. |
| Monomorphize.SpecializationNamesAreNew | src/comptime.rs:2832-2872 | A specialization and a source definition have the same name only for a template specialized without values. |
| CtfeSafety.Classify | src/comptime.rs:1649-1672 | From empty sets, a function is accepted if and only if everything reachable from it in the call graph is known and made of safe forms; then exactly the reachable functions have been collected, a set closed under callees. |
| CtfeSafety.Classifier.SafeFn | src/comptime.rs:1649-1672 | The depth-first walk, which counts functions on a cycle optimistically, restores the visiting set, only grows the collected set, and on failure points at a reachable unsafe function; it ends because unvisited functions run out. |
| CtfeSafety.Classifier.SafeStmt | src/comptime.rs:1685-1736 | Statements are walked form by form with the same guarantee for their callees. |
| CtfeSafety.Classifier.SafeExpr | src/comptime.rs:1738-1846 | Expressions are walked form by form with the same guarantee for their callees. |
| CtfeForms.BlockForm | src/comptime.rs:1685-1846 | A body is of safe form if and only if nothing anywhere in it is unsafe by itself, calls with keyword arguments included, and its callees are exactly the functions called anywhere in it, builtins aside. |
| CtfeLoopElse.AcceptedIsWhollySafe | src/comptime.rs:1685-1736 | An accepted function is wholly safe, loop `else` clauses included, if and only if what every function reachable in the walked call graph has in loop `else` clauses is made of safe forms and calls only wholly safe functions. |
| CtfeLoopElse.AcceptedWithoutElse | src/comptime.rs:1649-1672 | Where no reachable function has a loop `else`, acceptance and whole safety are the same. |
| CtfeLoopElse.LoopElseEscapes | src/comptime.rs:1685-1736 | A function whose only statement run is an unsafe one in a loop `else` is classified as safe, although it is not wholly safe. |
| ComptimeSyntax.LiteralRoundTrip | src/ct.rs:102-126 | Reading back the literal of a materializable value gives the value if and only if it contains no unsigned integer. |
| ComptimeSyntax.MaterializedIsCanonical | src/comptime.rs:322-340 | Reading back the literal of any materializable value gives its run-time form, in which unsigned integers have become signed. |
| FoldingMeaning.FoldsExactly | src/comptime.rs:721-860 | The evaluator answers with a value if and only if the expression folds to it, by a relation that mentions neither the evaluator nor its errors: unbounded integers that must fit into 64 bits at every step, Euclidean division, connectives that look at the right operand only if the left one leaves it open. |
| FoldingMeaning.OperationExactly | src/comptime.rs:1206-1246 | An integer operation gives exactly the number meant: quotient and remainder are those of the division equation with a remainder that is never negative, and a power is the product of that many copies. |
| ConstantFolding.InfixAgrees | src/ct.rs:57-100 | The elaborator, the dependent folder and the unchecked folder agree on every integer operation that stays in range, including Euclidean division and remainder of negative operands. |
| ConstantFolding.DependentFolderAgrees | src/comptime.rs:342-366 | A compiled dependent expression evaluates exactly when the elaborator folds its source, to the same integer. |
| ConstantFolding.CheckerFolderAgrees | src/checker.rs:1867-1894 | Whenever the elaborator folds an integer expression the checker folds it to the same integer, and an expression the checker folds is folded by the elaborator if and only if no exponent in it reaches 2^32. |
| ConstantFolding.AssociatedFolderAgrees | src/checker.rs:1954-2036 | The folder for associated members and the integer folder give the same integer or the same error. |
| ConstantFolding.HugeExponentDisagrees | src/checker.rs:1867-1894 | For every exponent of 2^32 or more the elaborator refuses while the checker folds with the exponent cut to 32 bits; a multiple of 2^32 gives 1. |
| ElaborationFuel.SubstBlockTwice | src/comptime/rewrite.rs:612-711 | Writing an inner loop value into an already rewritten block is one rewriting, in which the enclosing loop of the same name wins. |
| ElaborationFuel.EvalSubst | src/comptime/rewrite.rs:488-600 | Folding an expression with loop values written in is folding it with the loop variables looked up. |
| ElaborationFuel.BlockIsAccounted | src/comptime.rs:406-488 | With enough fuel a block elaborates in the environment of the reference account, having spent one unit per unrolled iteration; with less it exceeds the quota; it fails whenever the account does. |
| ElaborationFuel.ElaboratesWithinQuota | src/comptime.rs:50-50 | A program elaborates if and only if its constructs resolve in place and its loops, nested ones included, come to at most 100,000 iterations, and that is the fuel spent. |
| ElaborationChoice.Chosen | src/comptime.rs:467-476 | The block a `comptime if` stands for: that of the first condition that is true if all before it are false, the `else` if all are false, and none if a condition that is reached is neither. |
| ElaborationChoice.BranchElaboratedExactly | src/comptime.rs:467-476 | A `comptime if` elaborates as the block of its first true condition, all earlier ones being false, or as its `else` if all are false; it fails if a condition reached is neither. |
| ElaborationChoice.SelectsChosen | src/comptime.rs:467-476 | The elaborator keeps exactly the block that is meant. |
| ElaborationChoice.IteratesLoopValues | src/comptime.rs:1249-1286 | A `comptime for` runs over all terms of the range from its first to its last bound, or over the items of a tuple or list, with the errors of each form. |
| ElaborationChoice.RangeIsAllTerms | src/comptime.rs:1277-1283 | Stepping the counter gives start + k * step for every k below the first that is not before stop, and fails if and only if that first one past stop leaves 64 bits. |
| ElaborationChoice.RangeIsProgression | src/comptime.rs:1249-1286 | A range yields exactly start, start + step, ... strictly before stop, for either sign, and fails exactly if stepping the counter, once past the last term included, leaves 64 bits. |
| ElaborationChoice.TermIsLinear | src/comptime.rs:1278-1282 | The k-th counter value reached by repeated addition is start + k * step. |
| ElaborationChoice.RangeNeedsOneStepMore | src/comptime.rs:1278-1282 | A range whose terms all fit can fail on the step after its last term. |
| ElaborationMeaning.ExprMeaning | src/comptime/rewrite.rs:488-600 | Running a rewritten expression is running the source expression with loop variables taking precedence over the store. |
| ElaborationMeaning.ManagerNamesDiffer | src/comptime.rs:568-572 | Two manager variables have the same name if and only if they belong to the same item of the same `with` statement. |
| ElaborationMeaning.BlockSpares | src/comptime.rs:418-703 | Elaborated code assigns no manager variable but those of its own `with` statements. |
| ElaborationMeaning.WithSimulates | src/comptime.rs:568-624 | What a `with` of any number of items is written out to behaves, for every outcome of its body, like a bracket that holds each manager from its entry to its exit. |
| ElaborationMeaning.TrySimulates | src/comptime.rs:544-566 | Elaborating the clauses of a `try` separately, in source order, keeps its behaviour for every outcome. |
| ElaborationMeaning.StmtSimulates | src/comptime.rs:435-703 | Every statement elaborates to code that runs like the source resolved in place. |
| ElaborationMeaning.ElaborationPreservesMeaning | src/comptime.rs:418-703 | Running what a block elaborates to gives the same outcome, the same exchange with the host and the same values of all source names as an interpreter that resolves `comptime` constructs and `with` in place, threading constants in source order through untaken branches. |
| ElaborationScoping.LoopVariablesAreLexical | src/comptime.rs:478-488 | For a body that binds none of the loop variables around it, the in-place interpreter does what it does when these are ordinary variables bound beforehand: same outcome, same exchange with the host, same store but for these variables. |
| ElaborationScoping.IterationBindsVariable | src/comptime.rs:478-488 | One iteration over a value with a run-time form binds the variable to that form for the body, at run time and at compile time. |
| ElaborationOutput.ElaboratesToRunnable | src/comptime.rs:418-703 | Elaborated code contains no `comptime if`, `comptime for` or `with` at any depth, and every constant left in it is a literal. |
| ElaborationOutput.InnerLoopVariableIsCaptured | src/comptime.rs:478-488 | A nested loop that reuses the variable of an enclosing one unrolls without regard to its own values, for every body, if and only if the value of the enclosing iteration has a run-time form. |
| ElaborationOutput.UnwrittenLoopIsUnaffected | src/comptime.rs:478-488 | In an iteration for a value without a run-time form a nested loop over the same name is left as it stood. |
| ElaborationOutput.CapturedLoopWritesOuterValue | src/comptime.rs:478-488 | For instance, `comptime for i in [2]` inside `comptime for i in [1]` writes 1. |
| ElaborationOutput.ConstantsOutliveTheirArm | src/comptime.rs:502-509 | A constant declared in an arm of an `if` is known to the statements after it. |
| ElaborationBalance.WithIsBalanced | src/comptime.rs:568-624 | Entering, running and leaving a `with` statement leaves open exactly the managers that were open before, however its body ends. |
| ElaborationBalance.WithStatementsAreBalanced | src/comptime.rs:568-624 | In every completed run of elaborated code each manager whose `__enter__` answered has had `__exit__` called exactly once, innermost first, and no other has been exited. |
| Elaborate.EvalRange | src/comptime.rs:1277-1283 | The counting loop yields the specified progression or fails as specified. |
| Elaborate.EvalLoop | src/comptime.rs:1249-1286 | The values of a compile-time loop, from one to three range arguments or a collection, with the errors of each form. |
| Elaborate.Elaborator.Burn | src/comptime.rs:406-414 | Burning fuel fails at zero and otherwise takes exactly one unit. |
| Elaborate.Elaborator.Block | src/comptime.rs:418-433 | The pass over a block updates environment and fuel and returns the statements exactly as the rules say. |
| Elaborate.Elaborator.Statement | src/comptime.rs:435-703 | The same for every kind of statement. |
| Elaborate.Elaborator.Unroll | src/comptime.rs:478-488 | Unrolling burns before each copy, rewrites the body with the value and continues in the environment the copy left. |
| Elaborate.Enclose | src/comptime.rs:568-624 | Wrapping items from the last to the first gives the nested form of the rules. |
| CallBinding.MatchCallSlots | src/call.rs:42-105 | A returned binding is legal: every argument is used once, a parameter takes the positional argument at its place if no keyword-only marker stands at or before it, keywords go by name, defaults only where optional, collectors get the rest. A reported error is the first that occurs: too many positionals, else the first bad keyword, else the first missing parameter. |
| CallBinding.Bind | src/call.rs:42-105 | The algorithm returns a binding if and only if it is a legal one. |
| CallBinding.LegalUnique | src/call.rs:42-105 | There is at most one legal binding of a call. |
| CallBinding.ExplainedIsIllegal | src/call.rs:42-105 | Each reported error rules out every binding. |
| CallBinding.LimitCountsPositionals | src/call.rs:47-58 | A parameter lies below the positional limit if and only if no keyword-only marker stands at or before it. |
| CallBinding.KeywordOrderIsIrrelevant | src/call.rs:71-90 | Reordering the keywords of a call binds every parameter to the same argument and collects the same keywords. |
| CallBinding.EffectiveBoundary | src/call.rs:108-131 | A regular parameter lies past the effective keyword-only boundary if and only if a keyword-only marker or a variadic parameter stands before it. |
| OverloadChoice.RankIsLexicographic | src/checker.rs:405-414 | Below 256 parameters the packed rank orders candidates exactly as conversions, variadic, length, generic do in turn, and equal ranks mean equal keys. |
| OverloadChoice.RankIsLexicographicExactly | src/checker.rs:405-414 | The packed rank is lexicographic below a signature length if and only if that length is at most 256; a fixed overload of 256 parameters ties with an empty variadic one. |
| OverloadChoice.SelectOverload | src/checker.rs:464-501 | Filtering by the least rank selects a candidate if and only if it is the single best one, and tells no match from a tie. |
| OverloadChoice.SelectSubscript | src/checker.rs:7886-7895 | Sorting and comparing the first two meets the same specification. |
| OverloadChoice.SelectionIsUnique | src/checker.rs:464-501 | Any two selections over the same candidates, in whatever order and by either method, agree. |
| TraitTable.MergedMembersExact | src/checker.rs:91-110 | Merging requirements on compile-time members asks exactly what either side asked. |
| TraitTable.NewTraitExact | src/checker.rs:3670-3843 | A registered trait requires exactly the methods and members that its parents or its own declaration do. |
| TraitTable.NewTraitAccepted | src/checker.rs:3670-3843 | A trait is registered if and only if its name is new, its parents are known traits that are not built in and agree on every member, and its own members and methods fit them and each other. |
| TraitTable.RequirementExact | src/checker.rs:1900-1935 | An annotation asks a member to be a type with bounds if it names traits, all of them known, and else a value of that type. |
| TraitTable.NewTraitIncludesParents | src/checker.rs:3688-3730 | A registered trait includes every requirement of each of its parents. |
| TraitConformance.RegisteringKeepsLayers | src/checker.rs:3670-3843 | Registering keeps the table layered: parents come earlier and are included. |
| TraitConformance.RefinesIsReachability | src/checker.rs:5321-5328 | The recursive refinement query terminates and equals reachability along declared parents. |
| TraitConformance.RefinementIsAcyclic | src/checker.rs:5321-5328 | No trait refines itself, and a trait includes the requirements of every trait it refines. |
| TraitConformance.ConformanceIsInherited | src/checker.rs:4095-4183 | A struct that passes the check for a trait passes it for every trait that one refines. |
| TraitConformance.NominalConformanceIsReal | src/checker.rs:5184-5247 | A struct said to conform to a user trait that no trait with a built-in name refines implements all of its flattened requirements. |
| TraitConformance.NominalConformanceIsRealExactly | src/checker.rs:5184-5247 | Every struct that conforms to a user trait by name implements it, whatever structs there are, if and only if the trait asks for nothing or no trait with a built-in name refines it. |
| TraitConformance.BuiltInNamesEscape | src/checker.rs:3679-3690 | A user trait registered under a built-in name lets an empty struct conform to a trait whose methods it lacks. |
| TraitConformance.RegisteringKeepsBacking | src/checker.rs:3670-3843 | Registering further traits leaves every verified conformance backed by implementations. |
| TraitChecker.TraitChecker.CheckTrait | src/checker.rs:3670-3843 | Registration in place inserts exactly the specified entry or reports its error and changes nothing, and keeps the table invariant either way. |
| TraitChecker.TraitChecker.VerifyConformance | src/checker.rs:4095-4183 | The check succeeds if and only if for every method required some method of the struct may stand for it in every call, and every member meets its requirement. |
| TraitConformance.SatisfiesIsStandingFor | src/checker.rs:236-242 | A method satisfies a requirement if and only if it takes and gives the same once the struct is put for `Self`, and every way a call of it can end is one the requirement allows. |
| TraitConformance.StandingIsTransitive | src/checker.rs:236-242 | What may stand for a method that may stand for a third may stand for the third. |
| TraitConformance.RaisingNeverStandsForPlain | src/checker.rs:236-242 | A method that may raise never stands for one that may not. |
| TraitChecker.TraitChecker.CheckStruct | src/checker.rs:4037-4040 | Accepts exactly the new names whose declared traits are all known and, with the struct in the table, satisfied; then every declared conformance in the program is still backed. |
| TraitChecker.MergeInherited | src/checker.rs:3688-3701 | Merging a parent entry by entry, in any order, gives the merge or the conflict of the specification. |
| TraitDefaults.DefaultsExact | src/checker.rs:592-642 | Gathering defaults terminates on any refinement graph, succeeds if and only if no cycle is reached and no two parents of a trait reached provide the same method, and then finds exactly the methods that some trait reached has a default for. |
| TraitDefaults.OwnDefaultWins | src/checker.rs:610-642 | A trait's own default overrides inherited ones; otherwise the default is that of the parent providing it. |
| TraitDefaults.InheritedExact | src/checker.rs:662-683 | A struct is given exactly the defaults reachable through its conformances that it does not define, and is rejected if and only if a cycle is reached or a method it needs is offered twice. |
| TraitDefaults.Expander.Gather | src/checker.rs:592-642 | The recursive walk with its visiting set gives the specified result and restores the set on success. |
| TraitDefaults.ExpandStruct | src/checker.rs:662-683 | Explicit methods stay where they are and each inherited default is appended once. |
| TraitDefaults.DiamondIsRejected | src/checker.rs:604-613 | A default inherited along two ways is rejected although it is one method. |
| InitSoundness.PredeclareResolves | src/checker.rs:6360-6386 | After predeclaration every name a branch or loop body assigns is bound, and the names added are all possibly uninitialized. |
| InitSoundness.StmtIsSound | src/checker.rs:2100-2278 | For every run of an accepted statement, the uninitialized set afterwards still contains every variable not assigned, if no `break` skips a loop `else` in it that assigns from outside it, and a loop `else` that need not run assigns only names known by then. |
| InitSoundness.ArmIsSound | src/checker.rs:2895-2930 | The union of reachable exits, with literal conditions pruned, covers every arm a run can take. |
| InitSoundness.RoundsAreSound | src/checker.rs:2934-2945 | After any number of rounds the set from before the loop still covers every variable not assigned, and then the `else` runs. |
| InitSoundness.AcceptedFunctionsReadAssigned | src/checker.rs:6739-6755 | No run of an accepted function reads a variable before it is assigned, if no `break` skips an `else` of its loop that assigns from outside it, and an `else` that need not run assigns only names known by then. |
| InitSoundness.WithoutLoopElse | src/checker.rs:6739-6755 | In particular no run of an accepted function without loop `else` does. |
| InitAcceptance.AcceptedExactly | src/checker.rs:2074-2278 | A function that declares no name twice in a scope is accepted if and only if no run of it reads a variable before it is assigned, in code without literal conditions, without statements behind one that may leave, whose loop `else` clauses are covered, and in which names introduced by an `if` or a loop get values that read nothing. |
| InitScoping.DeclarationsExactly | src/checker.rs:5548-5563 | Declarations in one scope are accepted if and only if none of the names is declared there already, and are otherwise reported as redeclarations. |
| InitScoping.InnerDeclarationsShadow | src/checker.rs:5548-5563 | A block may redeclare any names of the scopes around it, and leaving it restores their bindings and flags. |
| InitScoping.EarlyReadIsRejected | src/checker.rs:6360-6368 | A function is rejected although no run reads an unassigned variable, because the value of a name introduced in an arm is looked at before the arm. |
| InitExactness.ArmReaches | src/checker.rs:2904-2930 | A variable that the exits of an `if` flag is unassigned after some arm that literal conditions let a run take. |
| InitExactness.UnreachableAddsNothing | src/checker.rs:2915-2927 | What follows a literally true condition adds nothing to the uninitialized set. |
| InitExactness.FlaggedExactly | src/checker.rs:2130-2142 | After an accepted body that is not left early, a variable is flagged exactly if some run ends with it unassigned. |
| InitExactness.ReadAcceptedExactly | src/checker.rs:6746-6753 | A read after such a body is accepted exactly if no run reads an unassigned or unknown name there. |
| InitStaying.FlaggedAsIfStaying | src/checker.rs:2130-2142 | After any accepted body whose loop `else` clauses that need not run assign only known names, a variable is flagged exactly if some run ends with it unassigned when control goes on behind every statement that leaves. |
| InitStaying.ReadAcceptedAsIfStaying | src/checker.rs:6746-6753 | A read after any such body is accepted exactly if no run reads an unassigned or unknown name there when control goes on behind every statement that leaves. |
| InitExactness.ReturningBranchesStillCount | src/checker.rs:2918-2920 | A function is rejected although none of its runs reads an unassigned variable, because a branch that returns counts as an exit. |
| InitLimits.SkippedElseFaults | src/checker.rs:2940-2944 | In an accepted function that ends in a loop with an `else` and a read, a `break` of that loop that can be reached where the name read is unassigned gives a run that reads it unassigned. |
| InitLimits.UnsettledArmFaults | src/checker.rs:6360-6386 | In an accepted function that ends in an `if` none of whose arms need be taken and in the read of a name unknown before, some run reads it unassigned: an `else` of a loop in an arm introduced it. |
| InitLimits.LoopElseIsUnsound | src/checker.rs:2940-2944 | An accepted function with a loop `else` that a `break` skips reads an unassigned variable. |
| InitLimits.ElseInArmIsUnsound | src/checker.rs:6375-6380 | An accepted function with a loop `else` in an arm that is not taken reads an unassigned variable. |
| DefiniteInit.Checker.CheckStatement | src/checker.rs:2100-2278 | The pass over a statement updates scopes and the uninitialized set in place exactly as the rules say. |
| DefiniteInit.Checker.CheckIf | src/checker.rs:2888-2932 | The branch loop collects the exits of the rules. |
| DefiniteInit.Checker.PredeclareStatement | src/checker.rs:6360-6386 | Names assigned in branches are introduced in place, in source order, as the rules say. |
| DefiniteInit.Check | src/checker.rs:2074-2084 | The whole pass accepts exactly what the rules accept, and what it accepts never reads an unassigned variable, under the same condition on loop `else`. |
| CheckedProgram.Builder.Expression | src/checked.rs:446-653 | Adding an expression leaves earlier nodes alone, appends its tree operands first, returns the number n + size - 1 and keeps the index exact. |
| CheckedProgram.Builder.Push | src/checked.rs:633-653 | A node is appended and listed last under its location, and no other listing changes. |
| CheckedProgram.Builder.Block | src/checked.rs:655-792 | The expressions of a block are added in the order they are visited. |
| CheckedProgram.AtIsExact | src/checked.rs:650-653 | The index lists exactly the nodes at a location, each once, in ascending order. |
| CheckedProgram.BuildCheckedExpressions | src/checked.rs:412-813 | The arena of a program holds the trees of all its expressions in order, and its index is exact for every location. |
| CheckedProgram.ArenaRebuilds | src/checked.rs:446-653 | From the arena alone every visited expression is rebuilt from its root number; children are numbered below parents and nodes by position. |
| CheckedOperands.OperandsRefill | src/checked.rs:446-632 | Putting the operands of an expression back one after the other into its form gives the expression again: none is left out and their order is that of their places. |
| CheckedOccurrences.VisitedOccur | src/checked.rs:655-792 | The arena is given exactly the expressions that occur in the program outside other expressions. |
| CheckedNesting.ForestExactly | src/checked.rs:823-887 | The outermost declarations of a block are exactly those of the statements in it, at any depth of control flow, that no other declaration is around. |
| CheckedNesting.ContentsExactly | src/checked.rs:823-887 | A declaration directly contains exactly the declarations nearest below it, and a trait contains none. |
| CheckedArena.PostOrderRebuilds | src/checked.rs:446-653 | A tree laid out operands first is rebuilt from its last node whatever surrounds it. |
| CheckedArena.PostOrdersAreBackward | src/checked.rs:633-653 | Nodes laid out operands first are numbered by position and refer only backwards within their own part. |
| CheckedArena.PreOrderRegrows | src/checked.rs:819-887 | A tree laid out containers first is regrown from its first node, and its subtree is exactly the run of nodes starting there. |
| CheckedDeclarations.Declarations.Declaration | src/checked.rs:866-884 | A declaration entered first and told of its children afterwards is the tree laid out containers first. |
| CheckedDeclarations.Declarations.Block | src/checked.rs:823-887 | A block adds the forest of its declarations, control flow adding none of its own, and returns the numbers of its outermost ones. |
| CheckedDeclarations.BuildCheckedDeclarations | src/checked.rs:815-891 | The declarations of a program are its forest laid out containers first. |
| CheckedDeclarations.DeclarationsRegrow | src/checked.rs:815-891 | Every outermost declaration is regrown with all nested ones from its number, and these occupy exactly the nodes that follow it. |

## Left out

Linear values

- FlowAcceptance.AcceptedExactly: excludes linear variables declared in the arms of an `if`, because variables of different arms that share a number are compared, as `ArmLocalsAreCompared` shows; a loop `else` that leaves and statements behind an exhaustive `if` that leaves, because the pass goes on there as if control did; and functions with a run outside the fragment, those with a borrowed linear parameter among them. Every linear type must have a whole value, so that there are runs at all.
- `break` and `continue`, `try`, comprehensions, conditional and chained-comparison expressions, nested functions and discarded temporaries in the linear-value pass.
- Variables introduced without `var`, borrowed linear parameters and the raising edges of calls in the linear-value pass.
- The names and messages carried by its errors; only the kind of problem is kept.
- FlowSoundness.AcceptedFunctionsAreSound: some runs are outside it, because the pass promises nothing about them. The ownership pass rejects transfers of a moved or partly moved place and the checker a second declaration of a name in one scope. Nothing rejects a transfer inside a condition, `^` on an expression that is no place (the arguments of a call under `^` are not looked at), an assignment to a field of a value that is gone, one over a place that still owes a destructor, or one that completes an enclosing value but not the variable. A linear parameter that is not owned is outside, too.
- FlowLimits.PanicsExactlyOnEmptyStack: is about the walk itself, which is skipped when no linear type is registered.

Compile-time elaboration

- Types, reflection, compile-time execution of functions and type predicates in the evaluator; a call is not a compile-time value here.
- Nested `def` and `struct` bodies, generic templates and trait default bodies, which elaboration treats separately, and the materialization of module-level constants.
- Source stamps and annotations of statements; assignments to places other than names.
- ElaborationMeaning.ElaborationPreservesMeaning: source names must not start with `$` and a `with` must not share its offset with one inside it, both of which parsing ensures; operators and calls are answered by a host rather than computed.
- ElaborationBalance.WithStatementsAreBalanced: programs that call `__enter__` or `__exit__` themselves are excluded, because such calls are not brackets.

Specialization

- How the values of a request are found from a call, and how a body is generated from a template: both are arbitrary functions here, which may fail or use fuel.
- Call forms that the rewriting does not visit, request sites in error messages, and any claim that callees are always emitted before callers.

Compile-time execution

- The virtual machine that executes classified functions.

Calls and overloads

- How candidates and their conversion counts are found; the bound of machine integers on a rank, which needs 2^40 conversions to be met.

Traits

- Signature checks on markers, collectors, origins and `where` clauses of trait methods; generic structs, conditional and callable conformances; the meaning of built-in traits, which is a parameter that does not change as structs are registered, although for a struct `Writable`, `Writer`, `Hasher` and `Indexer` depend on the traits it declares and others on its fields and methods.
- TraitConformance.NominalConformanceIsReal: asks that no trait with a built-in name refines the one in question, which `NominalConformanceIsRealExactly` shows to be necessary.
- Which of several missing requirements is reported first, and the order in which inherited default methods are appended, both of which depend on hashing.

Initialization

- `for`, `try`, comprehensions, named bindings in expressions and captured variables of nested functions.
- InitSoundness.AcceptedFunctionsReadAssigned: excludes loops with a `break` whose `else` assigns a name from outside it, and an `else` in an arm or a loop that introduces a name; `SkippedElseFaults` and `UnsettledArmFaults` show how such code reads unassigned variables. A `break` that is never reached, or an assignment that nothing reads, is excluded with them, and a name first introduced by the `else` of an earlier loop is not counted as known.
- InitAcceptance.AcceptedExactly: excludes literal conditions and statements behind one that may leave, because arms and statements that no run reaches are checked all the same, and values of introduced names that read something, because `EarlyReadIsRejected` shows that they make the statement false.
- InitExactness.ReadAcceptedExactly: excludes bodies that a return, raise, break or continue can leave outside a loop, and loops on a literal True, because they make the statement false, as `ReturningBranchesStillCount` shows; `InitStaying` says what holds of them instead. Reads inside branches and loops, where dead arms are checked too, are covered by soundness only.

Arenas

- Operators, names and literal values of expressions, and all fact tables but types and variant projections; numbers are not cut to 32 bits.

Elsewhere

- Strings are sequences of bytes; spans are offsets; nothing of the lexer, parser, module linker, intermediate representation, ownership pass or virtual machine is modelled.
