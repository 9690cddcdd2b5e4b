# A verified model of the Axiom SQL front end

This project models the stateful and the meaning-carrying parts of Axiom's SQL front end and proves
properties of them with Dafny 4.11. `dafny verify dfyconfig.toml` checks everything.

| group | modules |
|---|---|
| expression resolution | `Values`, `Exprs`, `Resolver`, `SourceMeaning`, `ResolvedTypes`, `Inlining`, `InliningMeaning`, `InliningLimits`, `ExprResolver`, `InPredicate`, `CommonTypes` |
| plans and graph patterns | `Dynamic`, `PlanExprs`, `GraphPatterns`, `GraphSerde`, `GraphMatchBuilder`, `GraphOutputs` |
| protocols as steps | `Interrupts`, `SessionCache`, `QueryLifecycle` |
| live display | `StageDepths`, `ProgressBar` |
| allocators and stores | `NameAllocator`, `SessionConfig`, `StdinReader`, `QueryIds` |

`Wrappers` holds the option and result types. Code that updates an object in place is a class whose
methods are proved against a specification function of the old state; the properties are then proved
of that function over every input or every run. Concurrent code is a state machine whose steps
interleave freely.

## How the parts are modelled

**Expression resolution.** `SourceMeaning.MeaningOf` says what an unresolved expression means, and when it
is rejected, without resolving it. `Resolver.Resolve` is one function with a flag: with it, SQL functions are
inlined as the source does; without it, a call stays a node that evaluates its arguments once and its
body over their values. The second form is the reference. `InliningMeaning.InliningPreservesMeaning`
relates the two over every row. Signature lookup, coercion tables and the engine's functions and casts
are parameters. The two are compared wherever the calls settle the outcome
(`InliningMeaning.Comparable`): in particular over every row for which the arguments of the calls that
are reached have values, whatever the bodies do. A branch of IF that is not taken, an input of COALESCE
after the first that is not NULL, and the inputs of AND and OR besides one that absorbs them are not
reached. Every IN is included; one that is reached must keep its meaning where it replaces a cast that
only the inlined operand has (`InliningMeaning.KeepsIn`), which holds by integer types alone when no
such cast narrows or none is replaced by a wider one (`InliningMeaning.FitsIn`). `ExprResolver` has the
methods, with the guard of functions being inlined as a field and the inputs of a call as an array that
is coerced in place.

**Serialization.** `PlanExprs.Constructible` holds what the expression constructors check: types of the
inputs of each special form, field names and positions, frame bounds, captures of lambdas. Types,
variants and plans are serialized by codecs taken as parameters.

**Builders.** A `GraphMatchBuilder` call that the source rejects yields `None`; what the builder holds
after that is not described. `GraphOutputs` evaluates expressions over an arbitrary engine, and shows
exactness with an engine whose values record how they were computed.

**Protocols.** Every atomic action is a step. A run is any sequence of enabled steps from the start.

## Where code and documentation differ

The model follows the code.

- `NameAllocator.h:26` says a unique hint is returned as it is. The code strips a numeric suffix first:
  `NameAllocator.UniqueHintReturned` says exactly when the hint comes back.
- `applyCoercion` replaces the target of an existing CAST. For IN this loses the inner cast;
  `InPredicate.PeelingExact` says exactly when that does not change the values, and
  `InPredicate.InPeelsCasts` is an input where it does. It also tells an argument that is a cast or a
  subquery from the parameter bound to it, and an inlined body that is a cast from its call.
  `InliningMeaning.CoercedOperandExact` says exactly when the operand keeps its outcome;
  `InliningLimits.ArgumentCastDiffers` and `InliningLimits.InlinedCastDiffers` are inputs of either kind
  for which the inlined form is true and the call fails. `Inlining.CoercionCommutes` says exactly when
  coercing and binding commute, `InPredicate.CoercedInDoesNotCommute` is an input for which they do not.
- Without a coercer the array form of IN widens literals that the list form would compare as they are:
  `InPredicate.WithoutCoercer` says exactly when the two forms agree.
- A subquery passed as an argument of a SQL function is rejected by the check meant for bodies
  (`InliningLimits.SubqueryArgumentRejected`).
- A guard for RETURNS NULL ON NULL INPUT hides the error of an argument exactly when another argument
  is NULL (`InliningMeaning.NullGuardExact`, an input in `InliningLimits.NullGuardSkipsArgument`).
- The processed sequence of a new interrupt handler starts at 0 while the signal count is process-wide,
  so with nothing signalled they differ; `Interrupts.NoInterruptLost` says when they agree.
- `GraphPattern.h` documents the wildcard label as matching every element; it rejects an element without
  labels (`GraphPatterns.WildcardNeedsLabel`, `GraphPatterns.WildcardAsNames`).
- Output reads share a key when pattern names contain dots: `GraphOutputs.PreservedExactly` gives the
  exact condition, `GraphOutputs.KeysCollide` an input that violates it.
- A configuration prefix with a dot answers to no qualified name (`SessionConfig.ResolvesBack`), and its
  properties can show another property's override (`SessionConfig.DottedPrefixLeaks`);
  `SessionConfig.ReadsAgreeExactly` says exactly when the reads agree nevertheless.
- `isSemicolonInLineComment` does not look for block comments: a `--` inside one keeps a `;` outside it
  from ending the command. `StdinReader.TerminatesExactly` gives the exact condition,
  `StdinReader.DashesInBlockComment` an input.
- A statement other than SELECT whose plan yields no batch completes successfully and then fails the
  check of the materialized result (`QueryLifecycle.PlanMaterializes`).
- `QueryIdGenerator.h` calls the ids unique. They can repeat when the clock goes back. Whatever the clock
  does, two ids are the same exactly when they show the same second and as many ids were made
  since the last reset of the counter before each (`QueryIds.RepeatsExactly`); without a reset in between
  they differ (`QueryIds.NoRepeatWithoutReset`). `QueryIds.GoingBackRepeats` is a clock that repeats one.

## Model

| member | source | states |
|---|---|---|
| SourceMeaning.ResolvedMeans | axiom/logical_plan/ExprResolver.cpp:1071-1215 | an expression resolves, calls kept, exactly when it has a meaning, and evaluates to it: AND, OR, IF, COALESCE, TRY, IN, casts and TRY_CAST, fields by name or number, one-based subscripts, calls over cast arguments with the result cast to the declared type |
| SourceMeaning.InlinedMeans | axiom/logical_plan/ExprResolver.cpp:951-1215 | an inlined expression evaluates to what the expression means, wherever the calls settle that and IN keeps its meaning |
| SourceMeaning.ConjunctionTruth | axiom/logical_plan/ExprResolver.cpp:418-433 | AND is true exactly when all inputs are true, false exactly when one is false, and fails exactly when none is false and one fails |
| SourceMeaning.DisjunctionTruth | axiom/logical_plan/ExprResolver.cpp:418-433 | OR is false exactly when all inputs are false, true exactly when one is true, and fails exactly when none is true and one fails |
| CommonTypes.CommonTypeIsLeast | axiom/logical_plan/ExprResolver.cpp:350-363 | the common type of IN is above every input's type and below every other such type, and is missing exactly when there is none |
| CommonTypes.InComparesNumbers | axiom/logical_plan/ExprResolver.cpp:341-373 | IN over integer operands of any widths resolves, does not fail, and compares their numbers |
| CommonTypes.ConstantInComparesNumbers | axiom/logical_plan/ExprResolver.cpp:804-883 | IN over integer literals does so too, in whichever form it resolves to |
| InliningMeaning.InliningPreservesMeaning | axiom/logical_plan/ExprResolver.cpp:951-1068 | an inlined expression has the type of the calls and, over every row where the calls settle the outcome and IN keeps its meaning, their outcome: errors, TRY and lazy bodies included, at any depth of nesting |
| InliningMeaning.InliningOverValues | axiom/logical_plan/ExprResolver.cpp:951-1068 | where the arguments of all calls that are reached have values, inlining gives what the bodies give over those values, value or error, whatever the bodies do; inputs that others settle are not reached |
| InliningMeaning.InliningByRanks | axiom/logical_plan/ExprResolver.cpp:242-275 | it does so over every typed row if each coerced IN operand that inlining makes a cast meets a condition on integer types alone |
| InliningMeaning.InlinedAgrees | axiom/logical_plan/ExprResolver.cpp:1010-1068 | a body inlined over its arguments and a row agrees with the body over the arguments' outcomes |
| InliningMeaning.CoercedOperandExact | axiom/logical_plan/ExprResolver.cpp:242-275 | a coerced IN operand that inlining makes a cast has the outcome of the reference's if and only if replacing the cast changes nothing |
| ResolvedTypes.ResolvedIsTyped | axiom/logical_plan/ExprResolver.cpp:1071-1215 | over a typed row and an engine that keeps to its signatures, whatever resolves evaluates to a value of its type or fails |
| InliningMeaning.NullGuardExact | axiom/logical_plan/ExprResolver.cpp:1062-1066 | when an argument fails, the null guard fails too if and only if no argument is NULL, for any number of arguments and any body |
| Inlining.CoercionCommutes | axiom/logical_plan/ExprResolver.cpp:242-275 | coercing an operand commutes with binding its names if and only if it needs no coercion or is not a bare parameter bound to a cast or a subquery |
| Inlining.ListInCommutes | axiom/logical_plan/ExprResolver.cpp:341-373 | IN over any operands that coerce alike resolves over arguments to what it resolves to over parameters |
| Inlining.ResolveCommutes | axiom/logical_plan/ExprResolver.cpp:1010-1031 | resolving a body under arguments is resolving it under parameters and substituting the arguments, unless an IN coerces a parameter bound to a cast |
| Inlining.EvalSubst | axiom/logical_plan/ExprResolver.cpp:1010-1031 | evaluating after substitution is evaluating over the outcomes of what was substituted |
| Inlining.UsedIsContained | axiom/logical_plan/ExprResolver.cpp:1010-1046 | what every looked-up name is bound to occurs in the resolved form, through any depth of inlining, but for the cast that IN may take off it, so no argument is dropped |
| Inlining.ReferenceInlines | axiom/logical_plan/ExprResolver.cpp:951-1068 | whatever resolves with calls and without subqueries also resolves inlined, with the same type |
| InliningMeaning.SqlCallAgrees | axiom/logical_plan/ExprResolver.cpp:1048-1068 | a body over its argument outcomes, cast and null-guarded, agrees with the inlined body |
| InliningLimits.ArgumentErrorsShow | axiom/logical_plan/ExprResolver.cpp:1040-1046 | a strict body fails for every failing argument if and only if the parameter is used |
| InliningLimits.SubqueryArgumentRejected | axiom/logical_plan/ExprResolver.cpp:1033-1038 | a call with a subquery argument never resolves inlined |
| InliningLimits.LazyBodySkipsArgument | axiom/logical_plan/ExprResolver.cpp:1040-1046 | with a lazy body a failing argument may go unevaluated |
| InliningLimits.ArgumentCastDiffers | axiom/logical_plan/ExprResolver.cpp:242-252 | a call whose argument is a cast that IN in the body replaces: the call fails and its inlined form is true |
| InliningLimits.InlinedCastDiffers | axiom/logical_plan/ExprResolver.cpp:242-252 | an IN over a call whose body is a cast that IN replaces: the call fails and the inlined form is true |
| InliningLimits.ChainsNeverRepeat | axiom/logical_plan/ExprResolver.cpp:958-988 | no successful chain of nested bodies repeats a function name or uses one being inlined |
| ExprResolver.ExprResolver.ResolveScalarTypes | axiom/logical_plan/ExprResolver.cpp:1071-1215 | the resolution method, with the loops and in-place coercions it calls, computes the resolution whose meaning is stated above, and restores the guard on success and on failure |
| ExprResolver.ExprResolver.ResolveScalarInputs | axiom/logical_plan/ExprResolver.cpp:1147-1151 | inputs resolve left to right, the first failure wins, the guard is restored and the used names are those of the inputs |
| ExprResolver.ExprResolver.InlineSqlFunction | axiom/logical_plan/ExprResolver.cpp:951-988 | inlining restores the guard whatever happens in the body |
| ExprResolver.ExprResolver.BindArguments | axiom/logical_plan/ExprResolver.cpp:990-1008 | arguments are cast to declared types and bound, or a duplicate name is reported exactly when there is one |
| ExprResolver.CoerceInPlace | axiom/logical_plan/ExprResolver.cpp:73-86 | the in-place coercion of a call's inputs is the specified one; with too few coercions it fails once it has cast the inputs that have one |
| ExprResolver.TryResolveSpecialForm | axiom/logical_plan/ExprResolver.cpp:410-505 | a special form is resolved over inputs coerced in place; any other name leaves the inputs as they were |
| ExprResolver.ConstantIn | axiom/logical_plan/ExprResolver.cpp:843-883 | IN over literals is the array form when each converts unchanged to the common type, else the list form |
| ExprResolver.ResolveInInPlace | axiom/logical_plan/ExprResolver.cpp:341-373 | IN folds one common type from the left and coerces its inputs in place to it |
| ExprResolver.MakeLiteralArray | axiom/logical_plan/ExprResolver.cpp:300-314 | the literals convert to one array or, when one does not convert unchanged, to nothing |
| InPredicate.ConstantInMatchesList | axiom/logical_plan/ExprResolver.cpp:804-883 | IN over literals evaluates like the list form, NULLs on either side included, whichever form it resolves to |
| InPredicate.MembershipIsDisjunction | axiom/logical_plan/ExprResolver.cpp:869-873 | membership in an array is the three-valued disjunction of the comparisons |
| InPredicate.CastExtendsConversion | axiom/logical_plan/Expr.cpp:225-265 | where a constant converts, CAST gives the same value |
| InPredicate.ComparedByParts | axiom/logical_plan/ExprResolver.cpp:869-873 | rows and arrays compare part by part: equal if all parts are, different if some differ, else not known |
| InPredicate.WithoutCoercer | axiom/logical_plan/ExprResolver.cpp:843-876 | without a coercer the two forms agree for all literals that the list form accepts, and exactly then |
| InPredicate.WithoutCoercerWidens | axiom/logical_plan/ExprResolver.cpp:843-876 | a wider value makes the array form widen literals the list form rejects |
| InPredicate.PeelingExact | axiom/logical_plan/ExprResolver.cpp:242-252 | replacing the target of an integer cast keeps every value exactly when the inner cast does not narrow, or the outer one does as much |
| InPredicate.InPeelsCasts | axiom/logical_plan/ExprResolver.cpp:242-252 | an IN whose peeled cast turns an overflow into an answer |
| Values.TryConvertSound | axiom/logical_plan/Expr.cpp:225-265 | a converted constant has the target type and denotes the same value, through nested rows; the unreachable branch is not reached |
| Values.TryConvertComposes | axiom/logical_plan/Expr.cpp:225-265 | converting in two steps is converting in one |
| Values.ConvertsExactly | axiom/logical_plan/Expr.cpp:225-265 | a typed constant converts exactly if the types are equivalent, it is NULL, it is an integer and the target as wide, or it is a row whose fields all convert |
| Values.ConvertConstant | axiom/logical_plan/Expr.cpp:225-265 | the loop over row fields computes the specified conversion |
| PlanExprs.RoundTrip | axiom/logical_plan/Expr.cpp:443-775 | creating what any well-formed expression serializes to gives it back, whatever it nests |
| PlanExprs.CreatedIsWellFormed | axiom/logical_plan/Expr.cpp:276-1180 | whatever can be created satisfies what the constructors check at every depth: input counts and types, switch and row shapes, fields, frame bounds, captures |
| GraphPatterns.MatchingReadsVisitedNames | axiom/logical_plan/GraphPattern.cpp:182-304 | a label expression matches by nothing but the names it visits and whether there is a label at all |
| GraphPatterns.WildcardAsNames | axiom/logical_plan/GraphPattern.cpp:182-304 | spelling out every wildcard as given names keeps what matches, for all label expressions, if and only if the element has no label or one of the names |
| GraphPatterns.DeMorgan | axiom/logical_plan/GraphPattern.cpp:229-304 | a negated conjunction of labels is the disjunction of the negations |
| GraphPatterns.CollectElementNames | axiom/logical_plan/GraphPattern.cpp:436-446 | the recursive loop adds exactly the names of the vertex and edge patterns at every depth |
| GraphPatterns.RepetitionsDoNotNest | axiom/logical_plan/GraphPattern.cpp:580-607 | in a term every constructor accepted, no repetition is inside another |
| GraphSerde.LabelRoundTrip | axiom/logical_plan/GraphPattern.cpp:156-180 | label expressions survive serialization |
| GraphSerde.TermRoundTrip | axiom/logical_plan/GraphPattern.cpp:467-624 | pattern terms survive serialization at any nesting |
| GraphSerde.PathRoundTrip | axiom/logical_plan/GraphPattern.cpp:631-662 | path patterns survive serialization |
| GraphSerde.CreatedLabelIsValid | axiom/logical_plan/GraphPattern.cpp:162-180 | created label expressions satisfy their constructors |
| GraphSerde.CreatedTermIsValid | axiom/logical_plan/GraphPattern.cpp:477-607 | whatever data a term can be created from, it satisfies every constructor's invariants at every depth |
| GraphSerde.CreatedPathIsValid | axiom/logical_plan/GraphPattern.cpp:645-662 | created paths hold only well-formed terms |
| GraphSerde.DeserializeTerms | axiom/logical_plan/GraphPattern.cpp:418-427 | the loop creates all terms in order or fails with the first that does |
| GraphMatchBuilder.BuilderRoundTrip | axiom/logical_plan/GraphMatchBuilder.cpp:56-363 | the calls that spell out any list of valid patterns rebuild exactly that list |
| GraphMatchBuilder.ImplicitPath | axiom/logical_plan/GraphMatchBuilder.cpp:127-135 | without a call that starts a path, terms form one unnamed path |
| GraphMatchBuilder.NamesAtEndOfSubpath | axiom/logical_plan/GraphMatchBuilder.cpp:347-363 | after any calls, a subpath about to end has kept exactly the names collected from its terms |
| GraphMatchBuilder.FinishedIsValid | axiom/logical_plan/GraphMatchBuilder.cpp:467-470 | finished patterns satisfy every constructor, and the known names are theirs |
| GraphMatchBuilder.TablesOfNames | axiom/logical_plan/GraphMatchBuilder.cpp:74-91 | after any calls a name is a vertex or an edge as its first pattern says, and its tables are those that all its patterns of that kind can match |
| GraphMatchBuilder.FilterKept | axiom/logical_plan/GraphMatchBuilder.cpp:369-382 | at most one filter is accepted, and it is what its text resolves to over the elements known at that call |
| GraphMatchBuilder.SubpathsNest | axiom/logical_plan/GraphMatchBuilder.cpp:137-363 | accepted calls nest subpaths properly, start paths outside them, and leave none open |
| GraphMatchBuilder.ModifiersFollow | axiom/logical_plan/GraphMatchBuilder.cpp:309-326 | only an edge or an ended subpath is repeated, and only an ended subpath made optional |
| GraphMatchBuilder.RunInv | axiom/logical_plan/GraphMatchBuilder.cpp:56-378 | every call keeps the invariant of names, built terms and the pending term |
| GraphMatchBuilder.GraphMatchBuilder.FlushPending | axiom/logical_plan/GraphMatchBuilder.cpp:93-135 | the pending term is built into the innermost open subpath, else the last path, or rejected |
| GraphMatchBuilder.GraphMatchBuilder.AddElementName | axiom/logical_plan/GraphMatchBuilder.cpp:74-91 | a name is added to all open subpaths and its tables are intersected with the ones known |
| GraphMatchBuilder.GraphMatchBuilder.EndSubpath | axiom/logical_plan/GraphMatchBuilder.cpp:347-363 | the innermost subpath becomes the pending term, its predicate resolved over its names |
| GraphOutputs.OutputsPreserved | axiom/logical_plan/GraphMatchBuilder.cpp:467-587 | on the direct and the rewritten path, every projected expression gives over the node's row what it gives over the match |
| GraphOutputs.PreservedExactly | axiom/logical_plan/GraphMatchBuilder.cpp:495-512 | it does so for every expression if and only if the keys tell the reads apart |
| GraphOutputs.DirectColumns | axiom/logical_plan/GraphMatchBuilder.cpp:520-540 | when the node's columns are the result, each item's alias, or else its property or path_length, names the column of what the item reads, and there are no others |
| GraphOutputs.DirectExactly | axiom/logical_plan/GraphMatchBuilder.cpp:515-540 | that is so only if all items read, distinctly, under distinct names; and then, unless a name is empty |
| GraphOutputs.EachReadProducedOnce | axiom/logical_plan/GraphMatchBuilder.cpp:495-512 | each distinct read is produced by exactly one node output |
| GraphOutputs.DotFreeNamesSeparate | axiom/logical_plan/GraphMatchBuilder.cpp:499 | pattern names without dots keep all keys apart |
| GraphOutputs.KeysCollide | axiom/logical_plan/GraphMatchBuilder.cpp:499 | two reads that share a key |
| GraphOutputs.RejectsUnknownNames | axiom/logical_plan/GraphMatchBuilder.cpp:541-562 | a rewritten projection is rejected exactly when it reads an unknown pattern name |
| GraphOutputs.OutputCollector.EndGraphMatch | axiom/logical_plan/GraphMatchBuilder.cpp:467-587 | the pass computes what the specification says |
| GraphOutputs.OutputCollector.CanBeDirect | axiom/logical_plan/GraphMatchBuilder.cpp:520-530 | the loop over two sets decides whether all reads and names are distinct |
| Interrupts.NoInterruptLost | axiom/cli/QueryInterruptHandler.cpp:47-175 | in every interleaving, once all is quiet, an armed source signalled since its arm is cancelled, and the processed sequence is the signal count exactly when there was nothing counted before or a signal since |
| Interrupts.AlwaysDelivers | axiom/cli/QueryInterruptHandler.cpp:149-175 | from any reachable state the internal steps lead to such a quiet state |
| Interrupts.InternalStepsEnd | axiom/cli/QueryInterruptHandler.cpp:149-175 | the internal steps cannot go on forever |
| Interrupts.NoStaleCancellation | axiom/cli/QueryInterruptHandler.cpp:134-173 | a source is cancelled only between the arm call that created it and the next disarm or arm, and only after a signal counted since that call's snapshot |
| Interrupts.ProcessedIsDecided | axiom/cli/QueryInterruptHandler.cpp:160-173 | once a count past an armed source's snapshot is published as processed, the source is cancelled |
| Interrupts.ProcessedNeverDecreases | axiom/cli/QueryInterruptHandler.cpp:171 | the processed sequence never decreases |
| Interrupts.QueryInterruptHandler.Arm | axiom/cli/QueryInterruptHandler.cpp:134-142 | arm takes a snapshot and a new source |
| Interrupts.QueryInterruptHandler.DrainOnce | axiom/cli/QueryInterruptHandler.cpp:149-175 | one pass of the drain loop is the specified sequence of steps |
| SessionCache.OneSessionPerConnector | axiom/connectors/ConnectorContext.cpp:54-82 | in every interleaving all returns for one id give one session, made from its properties, the only one ever built for it |
| SessionCache.WriterProvided | axiom/connectors/ConnectorContext.cpp:67-79 | the writer of a returned session is what the provider gave a caller of that id |
| SessionCache.FailedBuildRetryable | axiom/connectors/ConnectorContext.cpp:67-79 | a failed build leaves the entry as if never tried |
| SessionCache.NoDeadlock | axiom/connectors/ConnectorContext.cpp:54-82 | a caller can go on without failing, or the builder it waits for can |
| SessionCache.StepsEnd | axiom/connectors/ConnectorContext.cpp:54-82 | every step but a new call lowers a measure of the work left |
| SessionCache.EveryCallerReturns | axiom/connectors/ConnectorContext.cpp:54-82 | any run can be continued, without failures and new calls, until every caller that has not failed has its session |
| SessionCache.ConnectorContext.SessionFor | axiom/connectors/ConnectorContext.cpp:54-82 | an uninterrupted call returns the known session or builds and keeps one |
| QueryLifecycle.CompletedExactlyOnce | axiom/cli/SqlQueryRunner.cpp:844-934 | whichever way a query that installed its finalizer ends, the callback fired once, with the rows of the delivered batches and the message of what was thrown, never both cancelled and failed |
| QueryLifecycle.ReachableInv | axiom/cli/SqlQueryRunner.cpp:844-934 | every step of the query and its consumer keeps the finalizer's invariant |
| QueryLifecycle.CoRun | axiom/cli/SqlQueryRunner.cpp:844-934 | the generator delivers the chunks asked for and reports the one completion that fits its ending |
| QueryLifecycle.QueryFinalizer.CancelUnfinished | axiom/cli/SqlQueryRunner.cpp:680-686 | cancelling does nothing after an ending |
| QueryLifecycle.MaterializeResult | axiom/cli/SqlQueryRunner.cpp:800-826 | the last message, else all batches in order, else the last type; the check fails exactly for an empty stream |
| QueryLifecycle.MaterializedOnce | axiom/cli/SqlQueryRunner.cpp:800-826 | a stream materializes to one result |
| QueryLifecycle.PlanMaterializes | axiom/cli/SqlQueryRunner.cpp:1252-1259 | a plan statement materializes to exactly its batches, a SELECT without any to its type |
| QueryLifecycle.PlanStatement | axiom/cli/SqlQueryRunner.cpp:1252-1259 | batches become chunks, with a type chunk exactly for a SELECT without any |
| QueryLifecycle.RowsConserved | axiom/cli/SqlQueryRunner.cpp:906-913 | the reported row count is that of the materialized batches |
| StageDepths.StageDepths | axiom/cli/LiveProgressDisplay.cpp:247-281 | for any stage graph each stage is enqueued at most once and a reachable one gets its shortest distance from a root |
| StageDepths.OneDeeperExactly | axiom/cli/LiveProgressDisplay.cpp:241-246 | a producer is one deeper than a consumer exactly when that consumer is among its shallowest |
| StageDepths.TreeDepths | axiom/cli/LiveProgressDisplay.cpp:241-246 | in a tree each producer is one deeper than its consumer |
| StageDepths.DisplayOrder | axiom/cli/LiveProgressDisplay.cpp:426-431 | the display order is the stable sort by depth |
| StageDepths.StableOrderUnique | axiom/cli/LiveProgressDisplay.cpp:427-431 | there is only one such order |
| StageDepths.ConsumersFirst | axiom/cli/LiveProgressDisplay.cpp:424-431 | in a tree the display lists consumers before their producers |
| ProgressBar.Segments | axiom/cli/LiveProgressDisplay.cpp:163-196 | the adjusted segments are non-negative and sum to the width; '=' is the capped ceiling or one less, '>' the share of running splits as far as it fits, or all the rest when none is pending |
| ProgressBar.SharesCover | axiom/cli/LiveProgressDisplay.cpp:169-177 | shares rounded up cover the bar |
| ProgressBar.TwoSharesFit | axiom/cli/LiveProgressDisplay.cpp:169-177 | two shares miss the bar by at most one column |
| ProgressBar.FormatBouncingBar | axiom/cli/LiveProgressDisplay.cpp:199-211 | the bar always has the width, with one marker inside |
| ProgressBar.MovesOneColumn | axiom/cli/LiveProgressDisplay.cpp:205-208 | the marker moves by exactly one column a tick |
| ProgressBar.Bounces | axiom/cli/LiveProgressDisplay.cpp:205-208 | it goes back and forth between both ends |
| NameAllocator.NamesAreUnique | axiom/logical_plan/NameAllocator.cpp:28-53 | over any calls since a reset the names are non-empty, new and pairwise distinct |
| NameAllocator.NameAllocator.NewName | axiom/logical_plan/NameAllocator.cpp:28-53 | the loop ends with the first free number |
| NameAllocator.GeneratedInjective | axiom/logical_plan/NameAllocator.cpp:51 | different numbers give different names |
| NameAllocator.NumbersIncrease | axiom/logical_plan/NameAllocator.cpp:45-52 | over any calls the generated numbers only go up, whatever the hints |
| NameAllocator.PrefixExact | axiom/logical_plan/NameAllocator.cpp:31-43 | a hint loses exactly a trailing underscore with digits, and becomes "expr" when nothing is left |
| NameAllocator.UniqueHintReturned | axiom/logical_plan/NameAllocator.cpp:31-46 | an unallocated hint is returned as it is exactly when it has no numeric suffix to strip, or its prefix is taken and its suffix is the first free number from the next id on |
| NameAllocator.UniqueHintRenamed | axiom/logical_plan/NameAllocator.h:26-28 | a unique hint that is renamed |
| NameAllocator.RegenerationKeepsPrefix | axiom/logical_plan/NameAllocator.cpp:31-34 | generating from a generated name replaces its number |
| SessionConfig.RunInv | axiom/common/SessionConfig.cpp:109-143 | after any operations overrides name known properties and differ from their defaults |
| SessionConfig.LastWriteWins | axiom/common/SessionConfig.cpp:109-163 | a property has the value its last successful operation gave it |
| SessionConfig.SessionConfig.SetValue | axiom/common/SessionConfig.cpp:109-130 | set returns true exactly when the effective value changed, and fails without changing anything |
| SessionConfig.SessionConfig.ResetValue | axiom/common/SessionConfig.cpp:139-143 | reset returns true exactly when the effective value changed, and restores the default |
| SessionConfig.SessionConfig.EffectiveValues | axiom/common/SessionConfig.cpp:165-181 | the values under a prefix are the current ones |
| SessionConfig.SessionConfig.All | axiom/common/SessionConfig.cpp:183-202 | every property once, with its current value |
| SessionConfig.ReadsAgree | axiom/common/SessionConfig.cpp:155-202 | the three reads agree on every property whose prefix has no dot |
| SessionConfig.ReadsAgreeExactly | axiom/common/SessionConfig.cpp:155-202 | they agree after all operations exactly when the prefix has no dot, or the qualified name is also that of a property with the same default whose prefix has none |
| SessionConfig.ResolvesBack | axiom/common/ConfigRegistry.cpp:111-133 | a property answers to its qualified name, or to any, exactly when its prefix has no dot |
| SessionConfig.DottedPrefixLeaks | axiom/common/ConfigRegistry.cpp:113 | a dotted prefix shows another property's override |
| SessionConfig.ConfigRegistry.Add | axiom/common/ConfigRegistry.cpp:90-109 | a prefix is added with its properties by name, or rejected exactly for a taken prefix or a repeated name |
| SessionConfig.CombineProviders | axiom/common/ConfigRegistry.cpp:28-88 | combined providers keep all properties, each with its owner; a repeated name is rejected |
| SessionConfig.NormalizedOnce | axiom/common/SessionConfig.cpp:49-82 | a value normalized for its type stays as it is |
| SessionConfig.NormalizedExactly | axiom/common/SessionConfig.cpp:28-82 | which values each type takes and as what: booleans in lower case, digits after an optional minus, doubles by the parameter, any text |
| SessionConfig.AcceptedExactly | axiom/common/SessionConfig.cpp:85-130 | a value is accepted exactly for the name of a property of a dot-free prefix, if it fits the type and the provider, and becomes what the provider makes of it |
| StdinReader.FlagIsLexerState | axiom/cli/StdinReader.cpp:77-162 | at each prompt the block-comment flag is the state of a one-pass lexer over all the text read |
| StdinReader.TerminatesExactly | axiom/cli/StdinReader.cpp:135-154 | exactly when a line ends a command |
| StdinReader.EveryTerminatorOutside | axiom/cli/StdinReader.cpp:135-154 | every ';' that ends a command lies outside comments |
| StdinReader.DashesInBlockComment | axiom/cli/StdinReader.cpp:64-74 | a ';' outside comments that does not end the command |
| StdinReader.LexConcat | axiom/cli/StdinReader.cpp:41-59 | lexing goes on where it stopped |
| StdinReader.UpdateBlockCommentState | axiom/cli/StdinReader.cpp:41-59 | the scan of a line is the lexer's state at its end |
| StdinReader.IsSemicolonInLineComment | axiom/cli/StdinReader.cpp:64-74 | the scan finds a "--" exactly when there is one before the ';' |
| StdinReader.ReadCommand | axiom/cli/StdinReader.cpp:77-162 | the reading loop computes what the steps say, through Ctrl+C and end of input |
| StdinReader.CommandRead | axiom/cli/StdinReader.cpp:77-162 | what is returned, told of the lines since the last Ctrl+C: those that count, the first without leading spaces, each with a line end, up to the first ';' that ends one; or a first line that starts with a dot, trimmed; or at the end of the input all of them |
| QueryIds.StrictlyIncreasing | axiom/cli/QueryIdGenerator.cpp:55-87 | seconds and counters of successive ids strictly increase, across waits and midnights |
| QueryIds.CounterFits | axiom/cli/QueryIdGenerator.cpp:58-65 | the printed counter never exceeds 99,999, whatever the clock does |
| QueryIds.IdsDiffer | axiom/cli/QueryIdGenerator.cpp:86 | no two printed ids are the same while the clock does not go back |
| QueryIds.RepeatsExactly | axiom/cli/QueryIdGenerator.cpp:55-87 | under any clock two ids are the same if and only if they show the same second and as many ids were made since the last reset before each |
| QueryIds.NoRepeatWithoutReset | axiom/cli/QueryIdGenerator.cpp:58-83 | under any clock ids with no reset of the counter between them differ |
| QueryIds.QueryIdGenerator.CreateNextQueryId | axiom/cli/QueryIdGenerator.cpp:55-87 | the method, wait loop included, computes the specified next state and id |

## Left out

- Function rewrite hooks, constant folding, lambdas, aggregates and windows in the resolver: they rest on libraries outside the repository.
- Special forms SWITCH, EXISTS and NULLIF in the resolver: they resolve like the ones modelled; the model reports them as not modelled.
- InliningPreservesMeaning: says nothing where IN replaces a cast of the inlined operand and that changes the operand's outcome; the operands do differ there (InliningMeaning.CoercedOperandExact).
- InliningPreservesMeaning: where an argument fails, says nothing for a lazy body that does not, or for a null guard past a NULL; there the two do differ (InliningLimits.LazyBodySkipsArgument, InliningMeaning.NullGuardExact).
- Engine functions are assumed deterministic, their outcome given by their values: for an argument such as rand() and a body that uses its parameter twice, the inlined form calls it twice and the reference once.
- ResolveScalarTypes: hooks, constant folding, lambdas, aggregates and windows, and the forms SWITCH, EXISTS and NULLIF are not modelled; coercion is always enabled.
- TryResolveSpecialForm: reports SWITCH, EXISTS and NULLIF as not modelled.
- ConstantInMatchesList: comparison and membership are SQL's on values; collations and floating point are not modelled.
- Values.ConvertConstant: dates and other logical types are those of the type list in Values; decimals, maps and opaque types are not modelled.
- RoundTrip: types, variants, subquery plans and the reading of scalars from dynamic data are codecs taken as parameters; the type of a lambda as an input is not compared, and a plan is its column types and an uninterpreted rest.
- Object members in dynamic data are an enumeration of the names the serializers use.
- BuilderRoundTrip: predicates are what resolution gives where they stand, resolution being a parameter; the column types it derives from the graph's tables are not modelled.
- GraphMatchNode: its checks are not part of this model; neither are graph tables and property types.
- OutputsPreserved: expressions with lambdas are not modelled.
- Interrupts: the destructor, EINTR and memory orders weaker than sequential consistency are not modelled; the 64-bit count is unbounded.
- SessionCache: two callers of call_once are serialized by the flag; how a waiting caller sleeps is not modelled.
- QueryLifecycle: timing, tables and plan text in the telemetry, permission checks and the statement kinds behind a chunk stream are not modelled; inner generators do not fail while they are cleaned up.
- EXPLAIN statements: one chunk each; only easy members would be added.
- DisplayOrder: the library's stable sort is modelled by an insertion sort with the same contract.
- LiveProgressDisplay: terminal escapes, colours and number formatting are not modelled.
- CombineProviders: which two providers the message about a repeated name mentions is not modelled.
- SessionConfig: whether a text is a double, and what a provider accepts, are parameters; entries have an order of no significance.
- StdinReader: history, whitespace collapsing and the terminal are not modelled; string literals are not recognized, as in the source.
- QueryIds: the calendar is a parameter that gives each second a different text of one length; the random suffix is a constant.
- NewName: the 32-bit counter is unbounded.
- A failed builder call leaves a builder whose state is not described.
