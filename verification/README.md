# A verified model of go-mutants

go-mutants is a mutation tester for Go. It edits a program one place at a time, runs the tests against each edit, and
reports which edits the tests notice. Most of its work is deciding what need not be run. This project models the parts that
decide, and the parts that many callers share, and proves what the rest of the tool relies on.

`dafny verify dfyconfig.toml` checks everything.

## What is modelled

**A fragment of Go** (`GoValues`, `GoProgram`). Values, static types, expressions with short circuit, panics and calls, and
statements with `if`, `for`, `switch`, `return`, `break` and `continue`, in programs of mutually recursive functions.
Integers wrap at their width, floats have a negative zero and a NaN, and comparing interfaces can panic. Semantics follow
The Go Programming Language Specification, sections "Logical operators", "Comparison operators", "Integer overflow", "For
statements" and "Switch statements". A run has fuel for calls and loop turns; two runs are the same when flow and
final state agree for every fuel. An assignment to a field or an array element changes the variable it is a part of; one through
a pointer, a slice or a map changes the heap. Float arithmetic, slicing, conversion and external calls are arbitrary total functions
of their operands, so the theorems hold for any of them. `EditRuns` carries one edit through whole runs: an edit that is
harmless wherever it is evaluated is harmless to the program.

**The static proofs of discovery** (`Purity`, `Rules`, `Branch`, `Grammars`, `Probe`, `Orbit`, `LoopFrames`, `Termination`, `LoopVerdicts`,
`LoopMisjudged`, `MovingBounds`). The
expression grammars `inert`, `effectFree` and `panicFree`; the branch proof of a decreasing edit; the value, bool and
return probes; the verdict on whether an edited loop still ends. Each classifier is written as the code has it, and its
promise is proved against the evaluator over all programs and all runs. `Grammars` shows the other side: what the expression
grammars leave out over plain variables, they leave out because it can panic or have an effect.

**The workspace** (`Lifecycle`, `Progress`). Any number of `Exec`, `Module`, `Prepare` and `Close` calls interleave one lock operation,
check or write at a time over the lock on the object, the lock on the tree and the flags. The methods that touch the flags are
methods on a class, each tied to its step. `Progress` shows that nothing more is refused than has to be, that no call waits
for ever, and that every call returns.

**The shared listing** (`Listing`). Leaders and followers of one answer, their cancellations, late settles, and `Exec`
forgetting every answer, as a transition system over any number of calls and keys. The four operations of the code
are methods on a class, and each takes the table to where its step in the transition system takes it.

**The trace** (`Trace`, `TraceReader`, `TraceTotals`). The recorder, the bounded ring, the file that may refuse any write or break off in
the middle of one, and the strict reader, joined end to end.

**Narrowing and the chain of filters** (`Intervals`, `Coverage`, `Narrowing`, `Pipeline`, `SetKeys`). The interval index and
the file-grouped scan against a plain scan; the plan that picks tests and binaries; and the chain of selection, coverage,
probing, cache and execution that has to give each catalogued mutant one end.

**The outcome cache** (`Cache`, `CacheReuse`), **argument quoting** (`Argv`, after IEEE Std 1003.1-2017, Shell Command Language, sections
2.2.1 and 2.2.2) and **the queue of controls** (`Controls`).

Methods stand where the code loops or writes fields, and are proved against functions whose own properties are proved beside
them. Helper lemmas are not listed below.

## What turned out not to hold

Each of these has a lemma with the input, beside a lemma for when the code is right.

- A branch proof is given to a clause of any switch. Under a tag the edit can open the body it was to leave closed
  (`TaggedSwitchDefeatsProof`); under a constant tag the proofs are right exactly when the tag is `true` (`TagExact`).
- `panicFree` accepts conversions from or to a type parameter, and a slice converted to an array, or to a pointer to one,
  panics when it is too short (`ConversionExact`, `ConversionPanics`).
- When the return probe is refused, a returned pointer can still carry a value probe, which compares it before it becomes an
  interface (`TypedNilExact`).
- A moved comparison is read as if the variable stood on its left (`MoveExact`, `MirroredMoveMisjudged`). Editing the step in
  a loop's body counts as an edit elsewhere (`DeletedBodyStepMisjudged`). Editing a post statement beside a body step
  counts as editing the step (`PostEditMisjudged`). A post statement that resets the variable is not looked at
  (`ResettingPostMisjudged`). What the code takes the edited loop to be is true of its text exactly when the edit is
  `Described` (`EditDescribed`), and then the verdicts hold up to wrap-around (`VerdictSound`).
- The code looks for assignments to the names in a bound and finds none in three loops whose bound runs ahead of the
  variable: a store into a field of the bound (`StoredBoundMisjudged`), a map that the body fills (`MapBoundMisjudged`), and a
  package variable that a called function moves (`PackageBoundMisjudged`). `Described` rules them out by the text: nothing
  stores into a part of the bound, the bound is a scalar, and the test reads only variables that no pointer, closure or other
  function can reach.
- The verdicts ignore wrap-around: `i <= 127` over eight bits is called bounded and holds for ever (`LastValueMisjudged`).
  `VerdictExact` says for every step, width and bound whether the edited loop finds its test true for ever;
  `UnitBoundedExact` specialises it to steps by one, where the verdict fails exactly at the end of the type.
- A panic inside the write window of `Prepare` releases the tree before `prepareFailed` is set, so a waiting `Exec` runs on
  the instrumented tree (`PanicLetsCommandIn`). Every other run is safe (`NoCommandOnInstrumentedTree`).
- The cache takes an entry recorded without a memory bound for any bound (`UnboundedIsAccepted`), and an entry records nothing
  of the pass over the selected tests. `SurvivorExact`, `KilledExact` and `UnboundedExact` say when the entry is still
  what measuring again would give.
- The cache forgets too much as well. Its timeout is that of one process and its recorded time the sum over all of them, so an
  outcome over several binaries that together took longer is not found again under the very bounds it was made under
  (`TwoBinariesAreLost`, `FoundAgain`). `UsableExact` says for every entry and pair of bounds whether the record decides the
  outcome, and that usability differs from it in exactly four ways, three too strict and one too lax.
- The reader does not look at the time of an execution, and takes a negative one. Otherwise it takes exactly what can be
  recorded (`RecordableExact`).
- A write that fails after some bytes leaves the start of a line in the trace file, the next event joins it, and the reader
  refuses the whole stream. It takes the stream exactly when no failed write left bytes behind (`FileIsRead`).
- Two selections share a key when a test name holds one of the control bytes 0 to 2, which the listing of tests lets through
  (`SeparatorsCollide`).

## Model

| member | source | states |
|---|---|---|
| EditRuns.RunBlockAgrees | internal/discover/branch.go:44-68 | For every program with nested loops, switches and recursive calls: if each evaluation of an edit is harmless and the original run records no sign of it, the edited run has the same flow and final state |
| EditRuns.EvalAgrees | internal/discover/guard.go:248-253 | The same for expressions, through short circuit, panics, calls and the probed site itself |
| Purity.PanicFreeIsEffectFree | internal/discover/effects.go:36-208 | Every expression the panic-free grammar accepts is accepted by the effect-free grammar |
| Purity.EffectFreeKeepsState | internal/discover/effects.go:36-85 | Evaluating an effect-free expression in any state ends and leaves the state as it was, panic or not |
| Purity.PanicFreeIsSafe | internal/discover/effects.go:87-208 | A panic-free expression is free of panics once every conversion in it has a resolved target |
| Purity.SafeYieldsValue | internal/discover/effects.go:87-208 | Evaluating such an expression in any state yields a value, with no panic and no change |
| Grammars.SelectionExact | internal/discover/branch.go:130-270 | A selection from a variable is inert, and panic-free, exactly when no state makes it panic |
| Grammars.IntegerOperatorExact | internal/discover/branch.go:130-270 | An operator on two signed variables is inert, and panic-free, exactly when no state makes it panic, which is when it neither divides nor shifts |
| Grammars.EqualityExact | internal/discover/branch.go:192-223 | Comparing two variables of a comparable type is inert exactly when no state makes it panic |
| Grammars.UnaryExact | internal/discover/effects.go:36-208 | A unary operator is effect-free, and panic-free, exactly when it changes no state for any meaning of a receive |
| Grammars.BuiltinExact | internal/discover/effects.go:87-208 | A builtin of a variable is panic-free exactly when it panics in no state for any meaning of what the language leaves open |
| Grammars.CompositeExact | internal/discover/effects.go:87-208 | A composite literal of variables is panic-free exactly when no state makes it panic, which is when no map key can be an interface |
| Grammars.SliceConversionExact | internal/discover/branch.go:130-270 | A conversion of a slice is inert exactly when it never panics, whatever a type parameter stands for |
| Grammars.EffectFreeExact | internal/discover/effects.go:36-85 | An expression is effect-free exactly when nothing anywhere in it calls, receives, or runs a builtin for its effect |
| Branch.GatedBody | internal/discover/branch.go:70-100 | The climb finds the condition and owner reachable through parentheses and connectives, and nothing exactly when there is none |
| Branch.GateIsUnique | internal/discover/branch.go:70-100 | There is at most one such gate above an anchor |
| Branch.BranchProof | internal/discover/branch.go:44-68 | A proof is given exactly to decreasing rules whose gate has an inert condition |
| Branch.ProofIsGiven | internal/discover/branch.go:44-100 | Which edits do get a proof, spelled out: through parentheses and connectives to a body that is not empty, under an inert condition |
| Branch.InertYieldsValue | internal/discover/branch.go:130-270 | Evaluating an inert expression in any state yields a value, with no panic, no event and no change |
| Branch.PlainTypesCompare | internal/discover/branch.go:192-223 | Values of a type comparable without panic never panic when compared, nested structs and arrays included |
| Branch.ComparableExact | internal/discover/branch.go:192-223 | Among the types that Go compares, those the code takes for safe are exactly those no two values of which panic |
| Branch.RuleNarrows | internal/discover/branch.go:25-32 | Every decreasing rule turns an inert condition into an inert one that is true only where the original is |
| Branch.DecreasingExact | internal/discover/branch.go:25-32 | Of the rules that edit a condition, the decreasing ones are exactly those that narrow every quiet condition they match |
| Branch.NarrowerPlug | internal/discover/branch.go:70-84 | Narrowing passes through any stack of parentheses, conjunctions and disjunctions |
| Branch.BranchProofSound | internal/discover/branch.go:25-100 | For any program in which the switch over the gate has no tag or the tag `true`, and any run that never enters the gated body, the mutant's run has the same flow and final state |
| Branch.TagExact | internal/discover/branch.go:90-94 | Over every program, decreasing rule and run whose switch over the gate has a constant tag, the branch proofs are right exactly when the tag is true |
| Branch.TaggedSwitchIsProved | internal/discover/branch.go:90-94 | The code gives a proof to a clause of a switch with the tag false |
| Branch.TaggedSwitchDefeatsProof | internal/discover/branch.go:90-94 | The original run of that switch skips the body, the mutant's run takes it |
| Probe.ValueProbe | internal/discover/guard.go:154-183 | The climb stops at the nearest expression that meets every condition of a value probe |
| Probe.BoolProbe | internal/discover/guard.go:233-253 | Only the nearest wrappable predeclared bool is considered, and it is probed exactly when its statement is inert and it is panic-free |
| Probe.ValueSiteExact | internal/discover/guard.go:154-243 | Where a value and a bool probe may stand, by position, type, spelling and the statement around, at every level alike |
| Probe.EmitProbe | internal/discover/walk.go:632-675 | Without a new panic, the bool probe at the nearest bool if it is possible there, and otherwise the value probe at the nearest value site; none exactly when neither exists or the replacement introduces a panic |
| Probe.ReplacementIsSafe | internal/discover/effects.go:271-284 | The replacement of a safe anchor is safe and of the same type unless it introduces a panic |
| Probe.MutatedIsSafe | internal/discover/guard.go:154-183 | Safety and type carry from the replaced anchor up to the probed expression |
| Probe.ProbeEditIsSafe | internal/discover/walk.go:665-675 | Both readings of a probed site are safe and have one type |
| Probe.SamenessExact | internal/discover/effects.go:286-297 | Among the types a probe compares, equal readings are the same value exactly for the types that are not floating |
| Probe.ProbeSound | internal/discover/guard.go:154-253 | If the probe never reports a difference in a run of any program, the mutant's run has the same flow and final state |
| Probe.EffectFreeOrder | internal/discover/effects.go:306-358 | In an effect-free statement every operand is read in the state the statement began in, whatever the order |
| Probe.IntroducesPanicExact | internal/discover/effects.go:271-284 | Turning an integer product into a quotient can panic exactly when the code says so |
| Probe.ConversionExact | internal/discover/effects.go:165-185 | An accepted conversion never panics, over all instantiations, exactly when no slice length can be demanded of it |
| Probe.ConversionPanics | internal/discover/effects.go:165-185 | An accepted conversion of an empty slice panics when the type parameter is an array of length one |
| Probe.ProbeResults | internal/discover/guard.go:562-591 | Which returned operands are probed: all effect-free and spellable, and the operand itself panic-free and not floating |
| Probe.ReturnProbeSound | internal/discover/walk.go:456-528 | If a returned operand never differs from the constant that replaces it, the mutant's run is the same |
| Probe.TypedNilExact | internal/discover/guard.go:154-183 | A value probe of a returned pointer speaks for the result exactly when the result type is the pointer's own |
| Orbit.OrbitExact | internal/discover/termination.go:206-244 | The values a machine integer takes under a constant step are exactly those in range whose distance is a multiple of the gap of the step |
| Orbit.HighestVisited | internal/discover/termination.go:33-42 | The greatest value of that orbit is attained and never exceeded |
| Orbit.LowestVisited | internal/discover/termination.go:33-42 | The least value of that orbit is attained and never passed |
| LoopFrames.RunKeeps | internal/discover/termination.go:307-333 | A statement keeps every variable that it neither assigns nor stores a part of, anywhere inside it, and ends in no `continue` unless it holds one; the code looks for the assignments alone |
| LoopFrames.SearchExact | internal/discover/termination.go:184-333 | The searches find an assignment to a name, and a `continue`, exactly when there is one anywhere inside the statement |
| LoopFrames.ScalarReads | internal/discover/termination.go:335-349 | A scalar expression, with nothing in it behind a pointer, an index, a map, a channel or a call, depends on its names alone and changes nothing |
| Termination.ReadBodyStep | internal/discover/termination.go:184-204 | The one step of a body without `continue`, and nothing exactly when there is not exactly one |
| Termination.ReadInductionLoop | internal/discover/termination.go:159-182 | A loop is recognised exactly when step, comparison and fixed bound are all there |
| Termination.CountingLoopIsRecognised | internal/discover/termination.go:159-288 | Every loop that compares a variable with a bound on either side and steps it in its post statement or once in its body is recognised |
| Termination.VerdictTable | internal/discover/termination.go:44-103 | A verdict is given exactly for a loop that progresses and a known edit, and which one depends on the kind of edit alone |
| Termination.StepRuns | internal/discover/termination.go:206-244 | A step statement adds its step to the variable, with wrap-around, and touches nothing else |
| Termination.TurnMoves | internal/discover/termination.go:159-204 | Every turn that comes back to the head has moved the variable by the step once and kept the names of the bound |
| Termination.TestReads | internal/discover/termination.go:246-288 | The test compares the variable with the bound as the comparison seen from the variable says |
| LoopVerdicts.RunThroughHeads | internal/discover/termination.go:44-67 | A run of a loop is its heads followed by a run from the last of them |
| LoopVerdicts.HeadValues | internal/discover/termination.go:159-204 | At head k the variable has taken k steps with wrap-around and the bound has not moved |
| LoopVerdicts.BoundedEnds | internal/discover/termination.go:33-42 | A progressing loop with room before wrap-around is at its head at most once more than its variant |
| LoopVerdicts.UnboundedPersists | internal/discover/termination.go:33-42 | A loop that does not progress finds its test true at every head once it was true, up to the first wrap-around |
| LoopVerdicts.EndsExactly | internal/discover/termination.go:33-67 | On machine integers a counting loop never ends by its test exactly when the extreme value of its orbit passes the test; otherwise its heads are bounded in number |
| LoopVerdicts.UnitStepsEnd | internal/discover/termination.go:33-67 | With steps by one the test holds for ever exactly when it compares with the end of the type, whatever the direction |
| LoopVerdicts.EditDescribed | internal/discover/termination.go:69-103 | The induction the code ascribes to an edited loop is true of its text exactly when the step is not edited behind its back, the post statement is quiet, nothing stores into a part of the bound, a moved comparison has the variable on its left, the bound is a scalar, and the test reads only the function's own variables |
| LoopVerdicts.VerdictSound | internal/discover/termination.go:44-103 | For every run of a described edit: bounded means finitely many heads with an explicit variant, if no value that passes the test wraps on its next step; unbounded means the test stays true at every later head, up to the first wrap-around |
| LoopVerdicts.VerdictExact | internal/discover/termination.go:44-103 | With wrap-around, for every described edit: the test is true at every head when the extreme of the edited orbit passes it, and the heads are bounded in number otherwise |
| LoopVerdicts.UnitBoundedExact | internal/discover/termination.go:33-67 | With steps by one the verdict bounded is right exactly when the edited comparison is not with the end of the type |
| LoopVerdicts.SettledFalseEnds | internal/discover/termination.go:69-103 | A loop whose condition is settled false never comes back to its head |
| LoopVerdicts.MoveExact | internal/discover/termination.go:127-140 | The moved comparison is the comparison of the edited test exactly when the variable stands on its left |
| LoopMisjudged.MirroredMoveMisjudged | internal/discover/termination.go:246-264 | With the variable on the right a moved comparison is called unbounded, and every run of the edited loop has a bounded number of heads |
| LoopMisjudged.DeletedBodyStepMisjudged | internal/discover/termination.go:100-102 | A deleted body step is called bounded, yet the test stays true for ever |
| LoopMisjudged.PostEditMisjudged | internal/discover/termination.go:88-99 | A deleted or reversed post statement beside a body step is called unbounded, and every run of the edited loop has a bounded number of heads |
| LoopMisjudged.ResettingPostMisjudged | internal/discover/termination.go:311-333 | A recognised loop whose post statement resets the variable comes back to its head in the same state |
| LoopMisjudged.LastValueMisjudged | internal/discover/termination.go:33-67 | Moving `i < 127` to `i <= 127` over eight bits is called bounded, and the test is true at every head |
| MovingBounds.StoredBoundTurns | internal/discover/termination.go:311-333 | A turn of `for ; i < w.n; i++ { w.n = w.n + 1 }` moves the variable and the bound alike |
| MovingBounds.StoredBoundMisjudged | internal/discover/termination.go:335-349 | That loop is recognised, called bounded and not described, and has runs with more heads than the way to its bound allows |
| MovingBounds.MapBoundTurns | internal/discover/termination.go:311-333 | A turn of `for ; i < len(m); i++ { m[len(m)] = 0 }` moves the variable and the length of the map alike |
| MovingBounds.MapBoundMisjudged | internal/discover/termination.go:335-349 | That loop is recognised, called bounded and described for no choice of own variables, and has runs with more heads than the way to its bound allows |
| MovingBounds.PackageBoundTurns | internal/discover/termination.go:311-333 | When `grow` increments the package variable `N`, a turn of `for ; i < N; i++ { grow() }` moves the variable and the bound alike |
| MovingBounds.PackageBoundMisjudged | internal/discover/termination.go:335-349 | That loop is recognised, called bounded and described exactly if `N` were the function's own, and has runs with more heads than the way to its bound allows |
| Lifecycle.Workspace.BeginPrepare | workspace.go:271-282 | Refused exactly when closed or started, closed before started; what it does to the flags is what the protocol's entry step does |
| Lifecycle.Workspace.AbandonPrepare | workspace.go:284-288 | Takes the protocol's step that gives the preparation back, from before anything was spent |
| Lifecycle.Workspace.PrepareDidFail | workspace.go:290-294 | Takes the protocol's failing step, inside the window and in the deferred function alike |
| Lifecycle.Workspace.PublishSession | workspace.go:296-300 | Takes the protocol's last step of a preparation |
| Lifecycle.Workspace.Allowed | workspace.go:302-312 | A command may run exactly when the workspace is open and no preparation failed, and closed comes before failed; it decides both checks of a command in the protocol |
| Lifecycle.Workspace.ClaimClose | workspace.go:316-326 | The first closer takes the session and the others nothing, as in the protocol's claiming step |
| Lifecycle.Invariant | workspace.go:259-363 | The whole invariant of locks, flags, tree and calls holds after every interleaving of any number of calls |
| Lifecycle.NoCommandOnInstrumentedTree | session.go:229-288 | No command runs and no stage reads while the tree is instrumented, at most one window opens, and a dirty tree is behind the write lock or the flag, unless a panic cut the window |
| Lifecycle.FailedWindowIsFlagged | session.go:229-235 | A failing window has set the flag while it still holds the tree |
| Lifecycle.PanicLetsCommandIn | session.go:118-131 | A run in which a panic in the window lets a waiting command onto the instrumented tree |
| Lifecycle.DeletionIsAlone | workspace.go:452-526 | From the start of the deletion no call is in progress and a published session has been closed |
| Lifecycle.ClosersAgree | workspace.go:452-526 | All closers return the one recorded result, and only after the deletion |
| Lifecycle.ClosedForGood | workspace.go:302-326 | Once closed, the workspace stays closed and nothing is in progress at any later time |
| Progress.RefusedForItsReason | workspace.go:259-312 | In every reachable state a command at either check can go on exactly when the workspace is open and no preparation failed, and a preparation exactly when it is open and none has begun |
| Progress.ResultIsComing | workspace.go:452-526 | Until the result of closing is recorded, the closer that will record it is under way |
| Progress.NoCallHangs | workspace.go:259-363 | In every reachable state in which a call has not returned, some call can go on |
| Progress.EveryCallReturns | session.go:118-288 | Once no call arrives any more a bounded number of steps is left, and when none is left every call has returned |
| Progress.ExecRunsAfterPrepare | workspace.go:296-363 | A run in which an `Exec` after a successful preparation runs on a clean tree |
| Listing.Workspace.JoinModule | module.go:134-148 | A new answer for a new key, one more interested call for a known one, and nothing else changes: the protocol's joining step |
| Listing.Workspace.LeaveModule | module.go:155-166 | One interested call fewer; the last one out of an unsettled answer cancels it and removes it only if the table still holds that very answer: the protocol's releasing step |
| Listing.Workspace.SettleModule | module.go:168-179 | Records the answer once and closes it; a failure is removed only if the table still holds that very answer: the protocol's settling step |
| Listing.Workspace.ForgetModules | module.go:181-185 | Takes the protocol's forgetting step on whatever table it stands for, and leaves every answer to those who wait for it; what that is worth to later callers is AnswerIsNewerThanExec |
| Listing.Invariant | module.go:75-185 | The invariant of answers, callers and table holds after every interleaving |
| Listing.TableIsSound | module.go:134-185 | Every answer in the table is settled without error, or unsettled, uncancelled and wanted; an answer is cancelled exactly when it is settled or everyone who joined it has released it; interest is joins less releases; done is closed at most once, exactly when settled |
| Listing.NobodyElsesCancellation | module.go:75-132 | No call that shares an answer gets another call's cancellation |
| Listing.LeaderGivesUp | module.go:75-166 | A leader whose context ends while it lists cancels the listing and takes its answer out of the table exactly when nobody else is interested |
| Listing.FollowersAreAnswered | module.go:75-132 | In every reachable state a call can go on, unless it follows a listing whose leader is still at it, and then it can give up |
| Listing.StaleLeaderEvictsNothing | module.go:155-179 | No step of a call takes another answer than its own out of the table |
| Listing.AnswerIsNewerThanExec | workspace.go:334-362 | A call that joins after an `Exec` returned gets an answer made after it, however late older listings settle |
| Trace.MemorySink.Emit | trace/sink.go:184-204 | The ring's new contents and drop count as a function of the old, a slot being kept for the run-end |
| Trace.DirSink.Emit | trace/sink.go:97-115 | A stored event is appended as a line of its own unless a torn one is in the way; a refused or torn one is counted |
| Trace.Recorder.constructor | trace/trace.go:28-41 | The recorder opens with a run-start |
| Trace.Recorder.EmitLocked | trace/trace.go:279-301 | Numbers and delivers one event unless the run has ended, and counts attempt and failure |
| Trace.Recorder.RunEnd | trace/trace.go:247-272 | Delivers the accounting of the run once, and ends it |
| TraceReader.OfferValidExact | trace/reader.go:220-341 | The reader finds a recorded event valid exactly when its caller kept the rules of its kind |
| TraceReader.Summary.AddTallies | trace/reader.go:184-210 | Each tally grows by the weight of the event and no other tally moves |
| TraceReader.Summary.Accept | trace/reader.go:162-211 | An event is taken exactly when it follows the stream's order, and the counts advance by it |
| TraceReader.ReadStream | trace/reader.go:93-132 | A stream is taken exactly when every line decodes and the events are readable in order; the summary reports the counts, totals and gaps of the whole stream |
| TraceReader.RingHolds | trace/sink.go:184-204 | Before the run-end the ring holds the newest events that leave one slot free and has counted all others |
| TraceReader.RingEndToEnd | trace/trace.go:247-292 | After the run-end the ring holds the newest contiguous stretch ending in it; dropped is what the numbers leave missing, emitted is what is held before it; the stream is readable exactly when its events are valid |
| TraceReader.HistoryIsValid | trace/reader.go:220-341 | What callers who keep the rules have recorded is valid, event by event |
| TraceReader.RingIsRead | trace/reader.go:93-132 | For every capacity and every sequence of calls that keep the rules, the ring's stream is read back, ends in the run-end, and what the reader misses is what was dropped |
| TraceReader.FileHolds | trace/sink.go:97-115 | Whatever writes fail, the events written are part of what was offered, in order, and the rest is counted |
| TraceReader.LinesHold | trace/sink.go:97-115 | The lines of the file are the events written, exactly when no failed write left bytes behind |
| TraceReader.FileEndToEnd | trace/trace.go:247-301 | Whatever writes fail, once the run-end is stored the events written rise strictly, end in it, and their gaps sum to the recorded drops |
| TraceReader.EventsAreRead | trace/reader.go:162-211 | For every sequence of calls that keep the rules, the events written are readable in order, and what the reader misses is what was dropped |
| TraceReader.FileIsRead | trace/reader.go:93-132 | For every sequence of calls that keep the rules and every failure before the run-end, the reader takes the file exactly when no failed write left bytes behind, and then what it misses is what was dropped |
| TraceReader.EndedForGood | trace/trace.go:279-292 | Nothing is stored or numbered after the run-end |
| TraceReader.MissingIsDropped | trace/reader.go:162-211 | The reader's missing numbers equal the drops the run-end records |
| TraceTotals.HistoryTotals | trace/trace.go:43-245 | What is offered to a sink adds up to what the callers asked for, count by count and time by time |
| TraceTotals.ReportsWhatWasAsked | trace/reader.go:93-211 | When nothing was lost, the summary the reader reports is what the callers asked for: counts, times and outcomes, with the verdict and nothing missing |
| TraceTotals.StageIsInItsPhase | trace/trace.go:43-245 | A stage that begins is recorded in the phase begun last, unless that has ended |
| TraceTotals.RecordableExact | trace/reader.go:220-341 | The reader takes exactly the events some caller who keeps the rules could have recorded, but for a negative time of an execution |
| TraceTotals.FrameExact | trace/reader.go:220-341 | Which run-starts and run-ends the reader takes: the schema of this version at the start only, and counts that are not negative |
| Intervals.Merge | internal/coverage/map.go:125-143 | The merged list is sorted and separated and holds exactly the lines of the blocks |
| Intervals.Overlaps | internal/coverage/map.go:117-123 | The binary search over separated intervals answers whether any line of the query is held |
| Coverage.NewFileIndex | internal/coverage/map.go:89-111 | The index holds exactly the lines of the blocks that ran, and the files of the module are noted |
| Coverage.IndexCovers | internal/coverage/map.go:113-123 | A query is covered exactly when some block that ran overlaps it |
| Coverage.GroupByFile | internal/coverage/tests.go:93-108 | Every mutant stands in exactly one place of one group, that of its file |
| Coverage.ScanTest | internal/coverage/tests.go:38-80 | One test is added to exactly the mutants of the file whose lines it ran |
| Coverage.MapTests | internal/coverage/tests.go:38-80 | The grouped scan gives every mutant the tests of the plain scan, in order, and names exactly the uncovered ones |
| Coverage.Map | internal/coverage/map.go:45-80 | The scan per binary is the plain scan |
| Coverage.NaiveIsExact | internal/coverage/tests.go:38-80 | A test is listed for a mutant exactly when a block it ran shares a line with it |
| Coverage.LineByLine | internal/coverage/map.go:113-123 | Overlapping a block and sharing a line with the index are the same |
| Narrowing.WholeBinaries | internal/engine/testcoverage.go:63-88 | The binaries that must run whole; a binary is narrowed exactly when it has profiled tests and all of them pass on their own |
| Narrowing.TestProfiles | internal/engine/testcoverage.go:63-100 | Exactly the narrowable tests have a profile, their own |
| Narrowing.NarrowingPlan | internal/engine/testcoverage.go:155-169 | The plan names exactly the covering tests per binary and the covering whole binaries |
| Narrowing.CoveringBinaries | internal/engine/testcoverage.go:236-253 | The binaries named by the plan, from either part |
| Narrowing.BinaryIndex | internal/engine/coverage.go:271-277 | Every binary path is found at an index that holds it |
| Narrowing.IndicesOf | internal/engine/coverage.go:279-290 | The indices of exactly the known covering paths, and every binary when none is known |
| Narrowing.DecideRun | internal/engine/testcoverage.go:171-234 | A run is dropped exactly when nothing covers its mutant; otherwise it selects every covering binary, and its tests unless they fail together |
| Narrowing.DecideRuns | internal/engine/testcoverage.go:171-234 | Every run is decided or dropped, none is lost, none is added |
| Narrowing.CoveringTestsRun | internal/engine/testcoverage.go:53-253 | Every profiled test or whole binary that touches the mutant still runs, whatever the verdict on the selected tests, and no other test is named |
| Narrowing.PlanIsExact | internal/engine/testcoverage.go:155-169 | The plan built from the two mappings names exactly what touches the mutant |
| Narrowing.NarrowingPlans | internal/engine/testcoverage.go:106-169 | Every placed mutant gets the exact plan |
| Narrowing.NarrowToTests | internal/engine/testcoverage.go:53-148 | End to end from collected profiles to decided runs: narrowed exactly when some profile names a file of a measured module; then every covering test runs, nothing else does while the sets are reliable, no run is lost, and exactly the placed mutants that nothing covers are dropped |
| Narrowing.CoveragePhase | internal/engine/coverage.go:44-152 | The same for both modes of narrowing and for coverage that is unavailable; per binary is per test with every binary run whole |
| Narrowing.ExercisedNarrows | internal/engine/testcoverage.go:120-131 | Whenever something exercises a mutant of a known module, coverage narrows |
| Pipeline.Settle | internal/probe/settle.go:28-84 | A mutant is settled exactly when every binary that covers it was measured and saw no difference; otherwise it keeps exactly the others |
| Pipeline.SettledExact | internal/probe/settle.go:28-84 | A run is settled exactly when each of its binaries was measured and saw nothing the last time; otherwise it keeps exactly the others |
| Pipeline.Engine.Selection | internal/engine/engine.go:896-941 | Exactly the accepted, chosen, touched and owned mutants get a run; every other accepted one gets its reason |
| Pipeline.Engine.Cover | internal/engine/coverage.go:242-253 | The dropped mutants survive as uncovered; nothing else is written |
| Pipeline.Engine.ApplyProbe | internal/engine/probe.go:206-254 | The settled mutants survive as unobserved; the others keep the binaries and tests that can tell |
| Pipeline.Engine.CachePhase | internal/engine/cache.go:65-100 | Hits are adopted, misses and expected mutants stay to be measured; no mutant is lost or written twice |
| Pipeline.Engine.Adopt | internal/engine/cache.go:65-100 | The loop over the runs writes exactly the hits and returns exactly the misses, in order |
| Pipeline.Engine.Record | internal/engine/engine.go:738-750 | Every scheduled mutant gets its one result and none is overwritten |
| Pipeline.Engine.Publish | internal/engine/engine.go:1091-1112 | The rows number the catalogue less the rejections, in the order of the catalogue; each has the result that was written, or the recorded reason, or the interruption |
| Pipeline.Engine.MeasureCovered | internal/engine/engine.go:717-750 | Every covered mutant gets the result of the first of probe, cache and execution that settles it, and earlier results stay |
| Pipeline.EndOfExact | internal/engine/engine.go:717-750 | Which of probe, cache and execution decides a run |
| Pipeline.Engine.Measure | internal/engine/engine.go:703-754 | Exactly the selected mutants have a result: uncovered for those coverage drops, and for the others the one of the first stage that settles them |
| Pipeline.Engine.Mutate | internal/engine/engine.go:671-754 | Over the whole chain each catalogued mutant is exactly one of rejected, not run, uncovered, unobserved, cached and executed, each decided by its own condition; coverage drops exactly the placed mutants no test exercises, and every test that exercises a mutant ran in the execution that gave its result, unless the probe saw no difference in its binary or the cache knew the outcome |
| Pipeline.CoveredIsHeard | internal/engine/probe.go:206-254 | A test of a covered run runs in what execution is given, unless its binary was measured and saw no difference or the cache answered |
| Pipeline.GoesRunsNoMore | internal/engine/probe.go:237-254 | Probing adds no test to a run |
| Pipeline.ProbingKeepsTests | internal/engine/probe.go:237-254 | A test that ran still runs after probing unless its binary was measured and saw no difference |
| Pipeline.StayingExact | internal/probe/settle.go:28-84 | Exactly the binaries without a clean measurement stay |
| Pipeline.AcceptedExact | internal/engine/engine.go:1091-1096 | The accepted mutants are the catalogue less the rejections, each once |
| Cache.Store.Put | internal/cache/store.go:237-271 | Stores exactly the sound entries, stamped with the store's own key and bounds |
| Cache.Store.Lookup | internal/cache/store.go:174-230 | A hit is an entry of this version, key, context and mutant that could have happened, usable under both bounds; corrupt and miss exactly otherwise |
| Cache.SurvivesExact | internal/execute/run.go:100-246 | A pass survives exactly when every process passes in time and within the bound, and reports the peak |
| Cache.PassAgrees | internal/cache/store.go:138-163 | A pass repeated under bounds the cache deems as good has the same outcome |
| Cache.RunOneAgrees | internal/execute/run.go:67-98 | So has the pass over selected tests followed by the whole binaries |
| Cache.HitAgrees | internal/cache/store.go:138-271 | For any truth with monotone memory and possible divergence, an accepted entry holds the outcome that measuring again would give |
| Cache.SurvivorExact | internal/cache/store.go:138-163 | For all bounds and selected tests, an accepted survivor survives again exactly when its selected tests end in time and, if it was recorded without a bound, its peak and theirs are within the new one |
| Cache.KilledExact | internal/execute/run.go:67-98 | An accepted kill by the whole binaries is a kill again exactly when no selected test runs late before another is over the memory bound |
| Cache.UnboundedExact | internal/execute/run.go:67-98 | Without memory bounds an accepted entry whose selected tests passed holds the outcome of measuring again exactly when it timed out or those tests end in time as well |
| CacheReuse.FoundAgain | internal/cache/store.go:174-271 | A measurement put into a store is found again under the same bounds exactly when it is a timeout or took no longer than the timeout in all |
| CacheReuse.OneProcessIsFound | internal/cache/store.go:130-150 | One process a pass is always found again |
| CacheReuse.TwoBinariesAreLost | internal/execute/run.go:100-246 | A survivor over two binaries that each take the whole timeout is a miss under its own bounds |
| CacheReuse.DeterminedExact | internal/cache/store.go:130-163 | A record decides the outcome under another pair of bounds exactly under the stated condition on its time and peak; otherwise a truth recorded alike ends differently |
| CacheReuse.UsableExact | internal/cache/store.go:130-163 | An entry that decides the outcome is usable exactly when the cache does not ask too much, and a usable entry decides it exactly when it does not ask too little |
| Argv.UnquoteArgv | internal/console/verbose.go:409-447 | The loop computes the reader, error cases included |
| Argv.ReadExact | internal/console/verbose.go:409-447 | Every line is pieces with nothing, a lone backslash or an open quote behind them, and is read as the words of the pieces or the error these stand for |
| Argv.AgreesWithShell | internal/console/verbose.go:409-447 | Every line that is a list of plain words to the shell is read as the shell reads it |
| Argv.ShellReadsQuoted | internal/console/verbose.go:449-468 | A shell reads the quoted line as the arguments themselves |
| Argv.QuotedOnlyWhenNeeded | internal/console/verbose.go:449-468 | An argument goes without quotes exactly when it is not empty and all of its characters are safe |
| Argv.RoundTrip | internal/console/verbose.go:407-468 | Unquoting a quoted argument list gives it back, for all byte strings |
| Argv.QuotingIsInjective | internal/console/verbose.go:449-468 | Different argument lists have different lines |
| Controls.Invariant | internal/execute/controls.go:12-47 | The invariant of counter, workers and slots holds after every interleaving and cancellation |
| Controls.ClaimedOnce | internal/execute/controls.go:12-47 | No index is claimed twice, the claimed ones are a prefix, no slot is written twice |
| Controls.CancelledClaimsNothingNew | internal/execute/controls.go:12-47 | After the cancellation no worker begins to claim an index |
| Controls.NobodyHangs | internal/execute/controls.go:12-47 | Until the call returns, some worker can go on or the rest can be filled in |
| Controls.EverySlotFilled | internal/execute/controls.go:12-47 | At return every slot was filled exactly once, a prefix by its own control and the rest as interrupted; all of them ran if nothing was cancelled |
| SetKeys.SetKey | internal/engine/setverifier.go:113-127 | The loops write the key of the sorted selection |
| SetKeys.KeyExact | internal/engine/setverifier.go:113-127 | Two selections have one key exactly when they name the same tests, for names without separators |
| SetKeys.SeparatorsCollide | internal/engine/setverifier.go:113-127 | A test whose name holds the control byte 1 shares its key with the two tests on either side of it |
| SetKeys.VerdictIsShared | internal/engine/setverifier.go:101-111 | Selections that name the same tests get the same verdict |
| SetKeys.SetVerifier.Want | internal/engine/setverifier.go:32-44 | The first selection of a key stands for all of them |
| SetKeys.SetVerifier.Run | internal/engine/setverifier.go:54-99 | A set is reliable exactly when it is known to be or its control passed |
| SetKeys.VerdictIsItsControl | internal/engine/setverifier.go:32-111 | However many selections are asked for, each gets the verdict of the control over the first selection of the very same tests |

## Left out

- Package loading and type checking: types, constants and selections ride on the syntax nodes.
- The spelling of types, import completion and which type names are in reach: a parameter of the probe conditions.
- Reach probes of deleted statements, closures, `range`, `goto`, `defer`, `select`, labels and parallel assignment.
- The climb from an edit to its enclosing loop: the loop is given.
- LoopVerdicts.VerdictSound: integer variables, and bounds over scalars and direct fields in variables of the function's own;
  loops over other bounds get the three counterexamples only. That a variable is out of reach of pointers and closures is a
  condition here (`own`), since the model has no addresses and no closures. Wrap-around is left to VerdictExact.
- Termination.ReadInductionLoop: the code's name search also meets the names of fields and packages, which carry no name here, so
  it recognises fewer loops than the model.
- Shadowing: a name is one variable throughout a function, and a name that is not declared is a package variable.
- Branch.BranchProofSound: assumes that a constant divisor is not zero, as the compiler does, and that the switch over the gate has
  no tag or the tag `true`; under a tag that is computed, only the counterexample is given.
- Probe.ProbeSound: assumes that constants in the edited expression still compile and that conversions have resolved targets,
  where the code is wrong.
- Probe.TypedNilExact: the value probe is modelled at the operand itself.
- Grammars.CompositeExact: map keys of struct and array types, which the code refuses although some never panic.
- Lifecycle.NoCommandOnInstrumentedTree: excludes a panic inside the write window, where the code is wrong.
- Cache.HitAgrees: selected tests must fit the new bounds, since an entry does not record them; SurvivorExact and KilledExact say when
  that matters. Milliseconds are exact.
- CacheReuse.UsableExact: over truths whose selected tests survive the other bounds if they survived these.
- SetKeys.KeyExact: names without the three separator bytes, where the code is wrong otherwise.
- The inner steps of closing a session and of the preparation builds: one step each. Lock
  fairness: any waiting call may go, and a waiting writer holds nobody back.
- TraceTotals.ReportsWhatWasAsked: a ring without a bound; what a bounded ring or a failing file keeps is said by RingEndToEnd and
  FileEndToEnd.
- Query normalisation and the listing command: a key and an answer that may fail.
- Panics inside a sink, output files, and span ends called twice.
- The order in which map keys are visited: given as a list.
- The scheduler: one result for each run, in order. Retry of a timed-out mutant is part of the cache's measurement only.
- Reading and writing files, digests, overlays, snapshots, processes, clocks and environments.
- Configuration, command line, rendering, reports, schemas, and error texts.
