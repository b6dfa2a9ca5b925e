# Verified models of the SGL language runtime and of the expert-routing metrics

The repository holds two bodies of logic that these Dafny files model.

**The SGL language runtime.** A program appends expressions to a state. A stream executor carries them out: it writes text, opens and
closes chat roles, asks a backend for completions and choices, and stores variables. Around it are speculative generation, forking and
joining, a background worker with a task-counted queue, a tracer that finds a constant prefix for the backend's cache, the printer from
chat messages to a prompt, the choice among options by log-probability, a graph printer, a type-based dispatcher, the merging of streamed
chunks, and the search for a free port.

**The expert-routing metrics.** Records of chosen experts are aligned with the tokens of requests, counted in one go or file by file,
reduced to n-gram statistics and transition matrices, to greedy expert groups, and to routing margins under noise.

How the files fit together:

| files | content |
|---|---|
| `Text`, `Options`, `ChatTemplates`, `Ir` | strings, messages and templates, expression nodes |
| `Executor`, `StreamExecutor` | the executor as functions on its state, and the object whose methods update its fields as those functions say |
| `Speculation`, `Printer`, `Programs` | speculation against direct generation, the executor against the prompt printer, whole programs with fork and join |
| `ProgramSpeculation` | speculation under whole programs |
| `PromptLaws`, `StepLaws`, `ForkedRuns`, `CallIdentities` | what prompts and single steps amount to in the fields of templates and states, what a forked child inherits, and that no call is made twice |
| `Tracer`, `TracingSoundness`, `TracingLimits`, `TracingReach` | the tracer object, its simulation of the executor, exactly when a text or a test of an argument misleads it, and how far the prefix reaches |
| `Worker`, `WorkerQueue`, `Publication`, `EventRelease`, `ThreadedRuns` | the worker's small steps, the queue protocol over all interleavings, what a set event guarantees, the release of events after a failure, and threaded against sequential runs |
| `Choices`, `IrGraph`, `Dispatcher`, `StreamMerge`, `PortProbe` | the smaller algorithms of the runtime |
| `Alignment`, `ChoiceCounts`, `NGrams`, `ExpertGroups`, `RoutingMargin` | the metrics |

A backend is an arbitrary function from calls to answers. Each call carries the executor, a running number and the text sent, and no call
is made twice (`NoCallIsMadeTwice`), so every possible behaviour of a backend is covered. Only the theorems on speculation ask for a deterministic, prefix-consistent one.
An exception is the flag `raised`, after which nothing more is executed. Weights, logits and log-probabilities are `real`.

## Main results

- *Tracing is sound* (`TracedPrefixIsAlwaysSent`): every text sent to the backend starts with the traced prefix. Two uses of an unbound
  argument mislead the tracer while the prefix can still grow: a test, because `SglArgument` defines no equality, and `str`, which it does
  not refuse as it refuses formatting. `TestIsTracedExactlyWhen`, `TextIsTracedExactlyWhen` and `StrIsTracedExactlyWhen` say exactly when they do not,
  anywhere in a program. `QuestionIsTracedWrong` is a program of the kind in sglang/test/test_programs.py:193, whose traced prefix is never sent.
- *Tracing reaches as far as it can* (`PrefixEndsThere`, `FirstRequestIsThePrefix`): after fixed texts and roles the prefix is exactly the text written
  up to the first generation, select, unknown argument, role call or fork, and the first request is that prefix.
- *Speculation preserves meaning* (`SpeculationPreservesMeaning`): whole runs, with and without stop strings. The condition on each step is exact:
  `SpecGenIsDirectExactlyWhen` for a generation, in stop positions, and `AppendingPastAFill` for text that does not go through a fill.
  `StopWithinRequestIsDirect` gives a check for generations with stop strings, `EmptyStopListIsDirectExactlyWhen` the condition for the
  empty stop list that `SglFunction.run` supplies by default. Two runs from a new executor show that speculation can shorten
  (`ShortSurplusShortensTheRun`) and lengthen (`EnlargedRequestOverruns`) the text.
  `ProgramKeepsMeaning` lifts the result to whole programs with branches and forks.
- *Executor and printer agree* (`ExecutorAgreesWithPrinter`) exactly when no content begins with whitespace.
- *Prompts and blocks are what the template says* (`PromptInPieces`, `BlockWrites`), in terms of roles, style and default system prompt.
- *A child runs as its parent would* (`ChildRunsAsParentWould`).
- *Fork and join conserve text*, on the text path and on the cache path, at any nesting (`JoinConservesText`, `JoinPathsAgree`).
- *The queue protocol* keeps its count in every interleaving (`InvAlways`, `SyncMeansAllHandled`, `ExecutedInOrder`). It also lets a
  program return from `sync` before the error is stored (`ErrorCanBeMissedAfterSync`).
- *Threads compute what one thread computes* (`ThreadedRunIsSequential`): in every interleaving that has not failed, whenever the queue is done,
  the whole state is that of submitting the same expressions in turn.
- *Waiters are released after a failure* (`WaitersAreReleased`); a variable announced later is never set (`LateVariableIsNeverSet`).
- *Publication is safe* (`PublishedIsFinal`, `ScopeHoldsWhatWasWritten`): a set event means a final value, and a scope holds what was written in it.
- *Greedy token selection is the lexicographic maximum* (`ChooseGreedily`), *printing a graph is topological* (`PrintGraph`),
  *cached dispatch is uncached dispatch* (`Replay`), *merging is shortest* (`MergedIsShortest`), *the port walk is a rotation* (`EachPortOncePerRound`).
- *Streaming refines one-shot processing* (`ProcessFilesStreaming`), *the counters count the listed choices* (`CountersCountPlaces`), *matrices conserve flow* (`LayerConserves`), *self loops are
  run lengths* (`LayerSelfLoops`), *greedy groups are optimal* (`LayerGroupIsSmallest`, `TopKGroupIsStrongest`), and *the stored routing
  margin is an exact stability threshold* (`StoredMarginIsExact`).

## Model

| member | source | states |
|---|---|---|
| `Text.Find` | sglang/lang/interpreter.py:535-547 | the first occurrence of the needle: nothing occurs earlier, and -1 exactly when it does not occur at all |
| `Text.LStripSplits` | sglang/lang/interpreter.py:669 | only leading whitespace is removed, and all of it |
| `ChatTemplates.ChatTemplate.GetPrompt` | sglang/lang/chat_template.py:43-54 | the loop accumulates the prompt that the recursive printer defines, with the default system prompt, the skipped empty system message, and image messages however their list is written |
| `ChatTemplates.DelimitersNeedOnlyLength` | sglang/lang/chat_template.py:22-41 | once every message has content, the delimiters of the next role depend on the history only through its length, so the tracer's empty messages give the executor's delimiters |
| `PromptLaws.PlainMessage` | sglang/lang/chat_template.py:22-54 | PLAIN: a known role puts its two delimiters around the content, an unknown one adds the content alone |
| `PromptLaws.LlamaSystemFirst` | sglang/lang/chat_template.py:27-33 | LLAMA2: a first system message opens with the user's delimiter and then its own |
| `PromptLaws.LlamaUserSecond` | sglang/lang/chat_template.py:34-39 | LLAMA2: the user's message after a first one with content has no opening |
| `PromptLaws.LlamaOtherwise` | sglang/lang/chat_template.py:22-41 | LLAMA2: every other message is printed as in PLAIN |
| `PromptLaws.MissingContent` | sglang/lang/chat_template.py:46-50 | a system message without content takes the default prompt or is left out; any other is printed as None |
| `PromptLaws.ImageMessage` | sglang/lang/chat_template.py:43-54 | a message with images is printed as its formatted list |
| `PromptLaws.PromptInPieces` | sglang/lang/chat_template.py:22-54 | the whole prompt of a conversation in both styles, piece by piece from roles and positions |
| `PromptLaws.RoleBeginWrites` | sglang/lang/interpreter.py:641-657 | what a role begin writes and records, the inserted default system message included |
| `PromptLaws.BlockWrites` | sglang/lang/interpreter.py:641-693 | a block writes the inserted system message if due, opening, body and closing, and records the stripped content |
| `PromptLaws.TextInRoleWrites` | sglang/lang/interpreter.py:834-857 | so does a role call of a program with a text |
| `Ir.ConcatenateIrItems` | sglang/lang/ir.py:348-359 | adding two expressions lists the items of the first and then of the second, flattening exactly one level |
| `Executor.FirstStop` | sglang/lang/interpreter.py:535-547 | the least position at which any of the stop strings occurs, and -1 exactly when none occurs |
| `Executor.ExecuteExtends` | sglang/lang/interpreter.py:437-479 | executing any expression only appends to the text and to the calls, sends only texts that extend the present one, and does nothing after an exception |
| `Executor.ExecuteAllExtends` | sglang/lang/interpreter.py:450-452 | the same for a list of expressions |
| `Executor.FillTwice` | sglang/lang/interpreter.py:481-498 | filling two texts in turn is filling their concatenation, also for the speculation that is used up or dropped |
| `Executor.ConcatenateIrExecutes` | sglang/lang/ir.py:334-359 | executing the sum of two expressions is executing one after the other |
| `Executor.KvJoinRaises` | sglang/lang/interpreter.py:714-728 | the cache path fails exactly when some child was forked at another length than the parent has now |
| `Executor.KvJoinMeetsTextJoin` | sglang/lang/interpreter.py:705-728 | otherwise it appends the children's additions in child order, as the text path does, and changes nothing else |
| `StepLaws.FailsExactlyWhen` | sglang/lang/interpreter.py:437-479 | for every kind of expression but a list, exactly when executing it raises an exception |
| `StepLaws.GenerateAndReadBack` | sglang/lang/interpreter.py:569-621 | a program that generates and appends the variable it reads back has the backend's answer twice in its text, streamed or not |
| `StepLaws.SeveralAreListed` | sglang/lang/interpreter.py:583-592 | of several completions the first is written and the variable lists all in order |
| `StepLaws.SelectAndBranch` | sglang/lang/interpreter.py:623-634 | a program that selects and compares the variable takes the branch of the decision |
| `StepLaws.ArgumentBranches` | sglang/lang/interpreter.py:42-54 | a branch on an argument writes the text its value calls for |
| `StepLaws.ImageBlockWrites` | sglang/lang/interpreter.py:500-507 | an image in a block: its token in text and content, its path in the message and in the list of all images |
| `StreamExecutors.StreamExecutor.constructor` | sglang/lang/interpreter.py:253-316 | a new executor has no text, messages, variables, events or surplus |
| `StreamExecutors.StreamExecutor.ForkOf` | sglang/lang/interpreter.py:360-374 | a child copies text, messages, variables, role and images; events, surplus, open images and the speculation setting stay behind |
| `StreamExecutors.StreamExecutor.Fork` | sglang/lang/interpreter.py:346-378 | forking leaves the parent as it is and returns as many new children as asked for, each in the state of a fork child |
| `StreamExecutors.StreamExecutor.Submit` | sglang/lang/interpreter.py:318-324 | without a worker: unset events for all announced variables, then execution |
| `StreamExecutors.StreamExecutor.Execute` | sglang/lang/interpreter.py:437-479 | the object's whole new state is what the executor functions give for the old one, for every kind of expression |
| `StreamExecutors.StreamExecutor.ExecuteItems` | sglang/lang/interpreter.py:450-452 | a list is executed item by item |
| `StreamExecutors.StreamExecutor.ExecuteFill` | sglang/lang/interpreter.py:481-498 | the text grows; the surplus loses the filled text or is dropped |
| `StreamExecutors.StreamExecutor.ExecuteImage` | sglang/lang/interpreter.py:500-517 | the image is recorded, for the executor and for the open message, and its token is written past the surplus |
| `StreamExecutors.StreamExecutor.FindStop` | sglang/lang/interpreter.py:535-547 | the loop over the stop strings finds the first stop |
| `StreamExecutors.StreamExecutor.Regen` | sglang/lang/interpreter.py:524-533 | one more call, whose answer is the new surplus |
| `StreamExecutors.StreamExecutor.RunSpecGen` | sglang/lang/interpreter.py:519-567 | completion and remaining surplus, in the branch without and the branch with stop strings |
| `StreamExecutors.StreamExecutor.StoreCompletion` | sglang/lang/interpreter.py:594-602 | text, then variable, then event |
| `StreamExecutors.StreamExecutor.StreamChunks` | sglang/lang/interpreter.py:611-616 | chunk by chunk, text and variable both end with the joined chunks |
| `StreamExecutors.StreamExecutor.StreamGen` | sglang/lang/interpreter.py:603-621 | streamed generation, which refuses to speculate |
| `StreamExecutors.StreamExecutor.ExecuteGen` | sglang/lang/interpreter.py:569-621 | all branches of generation, also the list of several completions, whose first is the text |
| `StreamExecutors.StreamExecutor.ExecuteSelect` | sglang/lang/interpreter.py:623-634 | the decision is stored and announced before it is written |
| `StreamExecutors.StreamExecutor.ExecuteRoleBegin` | sglang/lang/interpreter.py:641-657 | refuses nested roles, inserts the default system message first, writes the prefix and notes where the content begins |
| `StreamExecutors.StreamExecutor.ExecuteRoleEnd` | sglang/lang/interpreter.py:659-693 | takes the stripped content before it writes the suffix, and appends the message with its images |
| `StreamExecutors.StreamExecutor.ExecuteVarScopeEnd` | sglang/lang/interpreter.py:698-700 | the scope's variable becomes the text written since its begin; without an open scope it fails |
| `StreamExecutors.StreamExecutor.ConcatenateText` | sglang/lang/interpreter.py:705-712 | one fill of all additions in child order |
| `StreamExecutors.StreamExecutor.ConcatenateKvCache` | sglang/lang/interpreter.py:714-728 | additions one by one, stopping at a child forked elsewhere, with what was already written kept |
| `Speculation.SurplusAfterWriting` | sglang/lang/interpreter.py:481-498 | writing the beginning of the continuation leaves the rest as the continuation |
| `Speculation.FillKeepsSurplus` | sglang/lang/interpreter.py:481-498 | a fill keeps the surplus a prefix of what the model would write next |
| `Speculation.SpecGenIsDirectExactlyWhen` | sglang/lang/interpreter.py:519-567 | for every stop setting, a speculated completion is the direct one exactly when both ways cut at the same place; either way the new surplus continues the text |
| `Speculation.SpecGenContinues` | sglang/lang/interpreter.py:519-567 | completion and new surplus are the beginning of what the model would write, and nothing else changes |
| `Speculation.StopWithinRequestIsDirect` | sglang/lang/interpreter.py:535-563 | a condition to be checked beforehand: the text to be cut holds a stop string that ends within the request, and a short surplus reaches far enough that no longer stop string begins earlier |
| `Speculation.CoveredRequestIsDirectExactlyWhen` | sglang/lang/interpreter.py:553-563 | when the text to be cut covers the request, the exact condition needs no continuation: the first stop in it and the first stop in its part within the request |
| `Speculation.LongerStopIsMissed` | sglang/lang/interpreter.py:535-563 | with several stop strings that last part is needed: a surplus in which a stop string is found in time, while direct generation stops earlier at a longer one |
| `Speculation.GenKeepsSame` | sglang/lang/interpreter.py:569-602 | a generation that both ways cut at the same place, with or without stop strings, keeps the speculating and the direct run the same for the program |
| `Speculation.ExecuteKeepsSame` | sglang/lang/interpreter.py:437-479 | so does every allowed expression, role blocks and joins included; a step past a fill is allowed when the surplus is empty or it writes nothing |
| `Speculation.SpeculationPreservesMeaning` | sglang/lang/interpreter.py:481-567 | whole runs, stop strings included: text, messages, variables and events of speculative execution are those of direct generation |
| `ProgramSpeculation.StmtKeepsSame` | sglang/lang/interpreter.py:828-1050 | so for every statement of a program: appended values, branches on variables, fork and join |
| `ProgramSpeculation.SameFamilies` | sglang/lang/interpreter.py:346-378 | the children forked from a speculating and from a direct executor are the same and run the same |
| `ProgramSpeculation.ProgramKeepsMeaning` | sglang/lang/interpreter.py:828-1050 | whole programs take the same branches and end the same whether or not they speculate |
| `Speculation.AppendingPastAFill` | sglang/lang/interpreter.py:623-634 | after text written past a fill, as select, image and the cache join write it, the next completion is the direct one for every consistent model exactly when nothing was speculated or nothing was written |
| `Speculation.RecitingIsPrefixConsistent` | sglang/lang/interpreter.py:481-498 | reciting a fixed script is a consistent model, so the hypotheses of these theorems can be met |
| `Speculation.SpecGenWithStops` | sglang/lang/interpreter.py:535-563 | with non-empty stop strings: completion and new surplus rebuild the material, the completion continues the text and holds no stop string, and a surplus after a found stop begins with a stop string |
| `Speculation.EmptyStopListIsDirectExactlyWhen` | sglang/lang/interpreter.py:553-563 | with an empty stop list the completion is the direct one exactly when the surplus serves the request or is all the model had to say, or no surplus is left and the request was not enlarged or the model ended |
| `Speculation.ShortSurplusShortensTheRun` | sglang/lang/interpreter.py:553-563 | two generations from a new executor: the first leaves a short surplus, and the speculating run ends with a shorter text than the direct one |
| `Speculation.EnlargedRequestOverruns` | sglang/lang/interpreter.py:553-557 | a first generation with an empty stop list returns more than it was asked for, as the request was enlarged |
| `Printer.PlainKeepsBlock` | sglang/lang/interpreter.py:437-479 | expressions without roles and images leave messages, role, content start and images alone |
| `Printer.BlockInThreeSteps` | sglang/lang/interpreter.py:641-693 | a role block is begin, body, end |
| `Printer.ClosingABlock` | sglang/lang/interpreter.py:659-693 | closing a block adds one message whose content is the stripped raw content, and the text is again the prompt of the raw contents |
| `Printer.DefaultSystemIsABlock` | sglang/lang/interpreter.py:644-655 | the inserted default system message behaves as a block of its own |
| `Printer.BlockKeepsBetween` | sglang/lang/interpreter.py:641-693 | every block keeps the relation between text, messages and raw contents |
| `Printer.BlocksKeepBetween` | sglang/lang/interpreter.py:641-693 | so do runs of blocks |
| `Printer.PromptOfStripped` | sglang/lang/chat_template.py:43-54 | stripping contents shortens the prompt, and keeps it exactly when there is nothing to strip |
| `Printer.ExecutorAgreesWithPrinter` | sglang/lang/chat_template.py:22-54 | for every run of role blocks without images, in both styles, the executor's text is the printed prompt of its messages exactly when no content begins with whitespace |
| `Programs.GatherChild` | sglang/lang/interpreter.py:1021-1027 | one child's new variables go to the end of their lists, in any order of the names |
| `Programs.GatherVariables` | sglang/lang/interpreter.py:1015-1029 | the loops over children and names compute the gathered variables |
| `Programs.GatherCollectsNewNames` | sglang/lang/interpreter.py:1015-1029 | old names keep their value; a name is new exactly when a child has it, and then lists the values of the children that have it, in child order |
| `Programs.ValuesInChildOrder` | sglang/lang/interpreter.py:1024-1027 | when every child has the name, position i of the list is child i's value |
| `Programs.RunGrows` | sglang/lang/interpreter.py:828-1050 | a whole program only appends, also through nested forks, and all its calls extend the text it started from |
| `Programs.ChildrenExtendTheParent` | sglang/lang/interpreter.py:346-378 | every child's text extends the parent's text at the fork, whatever the child does |
| `ForkedRuns.IdleChildIsACopy` | sglang/lang/interpreter.py:360-374 | field by field, a child that does nothing has what its parent has, but no surplus, events or open images |
| `ForkedRuns.RunTwins` | sglang/lang/interpreter.py:437-479 | executors that agree in what a program can read stay so over any program, with nested forks |
| `ForkedRuns.ChildRunsAsParentWould` | sglang/lang/interpreter.py:346-378 | with a backend that looks at text and request only, a child ends its body with the text, messages, variables and images the parent would have |
| `ForkedRuns.GatherJoin` | sglang/lang/interpreter.py:1015-1029 | joining by gathering writes nothing, keeps old names, and lists the children's values of a new name in order |
| `CallIdentities.RunIdentified` | sglang/lang/interpreter.py:260 | calls are identified by executor and number throughout a run |
| `CallIdentities.NoCallIsMadeTwice` | sglang/lang/interpreter.py:260 | over a whole run with forks at any depth, no two calls have the same executor and number |
| `Programs.JoinConservesText` | sglang/lang/interpreter.py:1015-1039 | joining by concatenation never fails and leaves the parent's text followed by the children's additions, on either path, and each child's text is the parent's plus its addition |
| `Programs.JoinOfOffspring` | sglang/lang/interpreter.py:705-728 | the whole state after a join, on either path |
| `Programs.JoinlessIgnoresPath` | sglang/lang/interpreter.py:465-472 | expressions without joins do not depend on the configured path |
| `Programs.JoinPathsAgree` | sglang/lang/interpreter.py:465-472 | a program that does not speculate ends in the same state on the text path and on the cache path, at any nesting of forks |
| `Tracer.DecimalReadsBack` | sglang/lang/tracer.py:190-194 | the number in the name of an unnamed select can be read back |
| `Tracer.TracerProgramState.constructor` | sglang/lang/tracer.py:76-102 | an empty trace |
| `Tracer.TracerProgramState.ExecuteFill` | sglang/lang/tracer.py:179-182 | one constant node is appended |
| `Tracer.TracerProgramState.ExecuteRoleBegin` | sglang/lang/tracer.py:198-215 | the role handling of the executor on nodes, default system message included |
| `Tracer.TracerProgramState.ExecuteRoleEnd` | sglang/lang/tracer.py:217-226 | the suffix node, and a message with empty content |
| `Tracer.TracerProgramState.Execute` | sglang/lang/tracer.py:144-173 | the whole new state for every kind of expression, and which of them stop the tracing |
| `Tracer.TracerProgramState.ExecuteItems` | sglang/lang/tracer.py:154-156 | a list is traced item by item |
| `Tracer.TracerProgramState.ExtractPrefix` | sglang/lang/tracer.py:42-51 | the loop returns the constant texts before the first other node |
| `TracingSoundness.ConstPrefixAppend` | sglang/lang/tracer.py:42-51 | the prefix of a longer trace is fixed by the first non-constant node |
| `TracingSoundness.TraceExecuteLater` | sglang/lang/tracer.py:144-173 | tracing only appends nodes, and none once it has ended |
| `TracingSoundness.LaterPrefix` | sglang/lang/tracer.py:42-51 | a later trace has a longer prefix, or the same one once it is fixed |
| `TracingSoundness.SyncedRoleBegin` | sglang/lang/tracer.py:198-215 | tracer and executor stay at the same text and role through a role begin |
| `TracingSoundness.SyncedRoleEnd` | sglang/lang/tracer.py:217-226 | and through a role end |
| `TracingSoundness.ClosedStays` | sglang/lang/tracer.py:42-51 | once fixed, the prefix stays right whatever both interpreters do |
| `TracingSoundness.SimExecute` | sglang/lang/interpreter.py:437-498 | the simulation holds after both execute the same expression |
| `TracingSoundness.TraceAdd` | sglang/lang/ir.py:334-359 | tracing a sum is tracing its parts, up to how constants are split into nodes |
| `TracingSoundness.ExecuteAdd` | sglang/lang/ir.py:334-359 | executing a sum is executing its parts |
| `TracingSoundness.SimValue` | sglang/lang/tracer.py:54-72 | the simulation holds for any Python expression, where a text of the run may be an unknown argument of the trace, or a text computed from its placeholder |
| `TracingSoundness.SimStmt` | sglang/lang/tracer.py:54-72 | and for any statement, forks included; a test or a computed text matters only while the prefix can grow |
| `TracingSoundness.SimStmts` | sglang/lang/tracer.py:54-72 | and for whole bodies |
| `TracingSoundness.FlattenConstPrefix` | sglang/lang/tracer.py:240-251 | flattening changes nothing, as the tracer never appends a list node |
| `TracingSoundness.TracedPrefixIsAlwaysSent` | sglang/lang/tracer.py:29-51 | for every program, template, backend and arguments that answer the tests and give the texts the tracer reaches before the prefix is fixed as their placeholders do: every text sent starts with the extracted prefix, and so does the final text of a run that does not fail |
| `TracingLimits.TestIsTracedExactlyWhen` | sglang/lang/ir.py:406-430 | a test of an argument between any statements, reached with the prefix still growing, is traced right whatever its branches do exactly when the argument is bound or answers the test as its placeholder does |
| `TracingLimits.TextIsTracedExactlyWhen` | sglang/lang/ir.py:406-430 | a text computed from an argument and appended there is traced right whatever comes after exactly when the argument is bound or gives the text of its placeholder |
| `TracingLimits.StrIsTracedExactlyWhen` | sglang/lang/ir.py:412-413 | for `str`, exactly when the argument is bound or is the very text `Argument(name=.., value=None)` |
| `TracingLimits.WritingAnArgumentMisleadsTheTracer` | sglang/lang/ir.py:406-430 | otherwise there is a program that goes on with one more character for which the extracted prefix is wrong |
| `TracingLimits.QuestionIsTracedWrong` | sglang/test/test_programs.py:190-193 | a question with an argument written into it by `str`: its extracted prefix, its text, and that the one does not lead the other |
| `TracingLimits.AvoidedIsTracedRight` | sglang/lang/tracer.py:29-51 | from any point at which trace and run agree, statements that avoid such tests and texts are traced right |
| `TracingLimits.TestingAnArgumentMisleadsTheTracer` | sglang/lang/ir.py:406-430 | for an unbound argument that answers a test unlike its placeholder there are branches for which the extracted prefix is wrong, whatever comes before and after |
| `TracingReach.FixedBodyKeepsStep` | sglang/lang/tracer.py:144-226 | texts, bound arguments, role changes and their sums keep tracer and run at the same point as long as the run does not fail |
| `TracingReach.FixedProgramIsTracedWhole` | sglang/lang/tracer.py:29-51 | a program of these only: the extracted prefix is the whole text of its run |
| `TracingReach.PrefixEndsThere` | sglang/lang/tracer.py:29-51 | followed by a generation, select, unknown argument, role call, fork or other node that ends tracing, and then anything: the prefix is exactly the text written before it |
| `TracingReach.FirstRequestIsThePrefix` | sglang/lang/tracer.py:29-51 | the first request of a program that writes fixed texts and then generates or selects is exactly the prefix |
| `WorkerSteps.StepsAppend` | sglang/lang/interpreter.py:398-416 | the steps of two lists are those of the first and then of the second |
| `WorkerSteps.GenSteps` | sglang/lang/interpreter.py:569-621 | the small steps of a generation, streamed or not, add up to it |
| `WorkerSteps.SelectSteps` | sglang/lang/interpreter.py:623-634 | so do those of a select |
| `WorkerSteps.ScopeSteps` | sglang/lang/interpreter.py:695-700 | and those of a scope end |
| `WorkerSteps.EventNamesKept` | sglang/lang/interpreter.py:437-479 | executing announces no new variable |
| `WorkerSteps.SmallStepsExecute` | sglang/lang/interpreter.py:437-479 | the steps other threads can see between add up to executing the expression |
| `WorkerQueue.NextKeepsInv` | sglang/lang/interpreter.py:318-435 | every step of either thread keeps: unfinished count is queue length plus item in hand, and everything submitted is accounted for in order |
| `WorkerQueue.InvAlways` | sglang/lang/interpreter.py:318-435 | the invariant holds in every state of every interleaving |
| `WorkerQueue.TaskDoneNeverOverruns` | sglang/lang/interpreter.py:398-435 | whenever the worker reports an item, at least one is unfinished |
| `WorkerQueue.SyncMeansAllHandled` | sglang/lang/interpreter.py:326-328 | when the count is zero, each submitted item was executed, failed or was drained, in order |
| `WorkerQueue.ExecutedInOrder` | sglang/lang/interpreter.py:398-435 | the executed expressions are exactly the first ones submitted, and nothing after a failure is executed |
| `WorkerQueue.ErrorIsStoredLast` | sglang/lang/interpreter.py:418-435 | the error is stored exactly when the worker has exited after a failure |
| `WorkerQueue.ErrorCanBeMissedAfterSync` | sglang/lang/interpreter.py:388-390 | a run in which the queue is done, an expression failed, and no error is stored yet |
| `Publication.CompiledSound` | sglang/lang/interpreter.py:764-773 | an expression that announces no variable twice compiles to steps that set no event before its variable is stored |
| `Publication.MoreSound` | sglang/lang/interpreter.py:569-634 | what a backend's answer adds to the steps is again sound and concerns only that variable |
| `Publication.StepKeepsInv` | sglang/lang/interpreter.py:569-634 | every step of the worker keeps the publication invariant and leaves published variables alone |
| `Publication.AnnounceKeepsInv` | sglang/lang/interpreter.py:764-773 | so does announcing new variables |
| `Publication.ComingAfter` | sglang/lang/interpreter.py:318-435 | each step of the two threads is one step on what is still to come, an announcement, or invisible |
| `Publication.NextKeepsPublished` | sglang/lang/interpreter.py:318-435 | the invariant is kept, and published variables are stable, over any step of either thread |
| `Publication.PubInvAlways` | sglang/lang/interpreter.py:318-435 | the invariant holds throughout every run with distinct names that has not failed |
| `Publication.PublishedIsFinal` | sglang/lang/interpreter.py:330-333 | once a variable's event is set, the variable holds a value, and neither changes in any later state |
| `Publication.BeginHolds` | sglang/lang/interpreter.py:695-696 | after a scope begins nobody else writes its variable |
| `Publication.ScopeHoldsWhatWasWritten` | sglang/lang/interpreter.py:695-700 | a scope variable is closed with exactly the text appended between begin and end of the scope |
| `EventRelease.WorkKeepsEvents` | sglang/lang/interpreter.py:398-435 | no step of the worker, failing or not, unsets an event or changes which there are |
| `EventRelease.NextKeepsEvents` | sglang/lang/interpreter.py:318-435 | a set event stays set over any step unless its variable is announced anew |
| `EventRelease.ReleaseSetsAll` | sglang/lang/interpreter.py:425-426 | the release sets every event and changes nothing else of the executor |
| `EventRelease.FailureIsReleased` | sglang/lang/interpreter.py:418-435 | in every run a worker that stores an error has released on its way |
| `EventRelease.WaitersAreReleased` | sglang/lang/interpreter.py:330-333 | whoever waits for a variable announced before the release is released, and stays so |
| `EventRelease.LateVariableIsNeverSet` | sglang/lang/interpreter.py:318-333 | a variable announced after the release is never set |
| `ThreadedRuns.StepsCommute` | sglang/lang/interpreter.py:764-773 | announcing new variables commutes with all steps the worker has yet to take |
| `ThreadedRuns.FinishedAfter` | sglang/lang/interpreter.py:318-435 | what is done together with what is to come changes only by an announcement, and then as a sequential submission changes it |
| `ThreadedRuns.SequentialAlways` | sglang/lang/interpreter.py:318-435 | in every state of a run that has not failed it is the sequential run of all that was announced |
| `ThreadedRuns.ThreadedRunIsSequential` | sglang/lang/interpreter.py:318-328 | whenever the queue is done, everything submitted was executed, and the whole state is that of the branch without a worker |
| `Choices.BuildLogprobMatrix` | sglang/lang/choices.py:87-95 | each entry is the log-probability, or the option's average as padding, which is NaN for an empty option |
| `Choices.MeanIsAverage` | sglang/lang/choices.py:91 | the padding times the number of log-probabilities is their sum, and lies between any bounds of them |
| `Choices.BestIsGreatest` | sglang/lang/choices.py:97-104 | no row is lexicographically above a row exactly when it survives all columns |
| `Choices.BestOneFurther` | sglang/lang/choices.py:97-104 | one column further, the best rows are the best so far with that column's maximum |
| `Choices.SingleStays` | sglang/lang/choices.py:102-103 | a single remaining row is the best for all columns, which justifies the early exit |
| `Choices.ColumnMax` | sglang/lang/choices.py:100 | the maximum of a column among the remaining rows, NaN exactly when one of them has NaN there |
| `Choices.Keep` | sglang/lang/choices.py:101 | exactly the remaining rows with that value are kept, in order; NaN equals nothing |
| `Choices.GreedySelection` | sglang/lang/choices.py:97-104 | among numbers the remaining rows are exactly the lexicographically greatest ones, in increasing order; with a row of NaN none remains, and a second column is an error |
| `Choices.FirstRemaining` | sglang/lang/choices.py:58-84 | the first remaining row is the lowest-numbered greatest row |
| `Choices.ChooseGreedily` | sglang/lang/choices.py:58-84 | the chosen option is the lowest-numbered one whose padded row is lexicographically greatest; no option can be chosen exactly when there is none, or some but not all are empty |
| `IrGraph.GraphPrinter.DfsPrint` | sglang/lang/ir.py:365-391 | visiting a node keeps: printed lines are distinct, and topological unless one leads to itself, and only what the node leads to is visited |
| `IrGraph.GraphPrinter.PrintNode` | sglang/lang/ir.py:381-391 | nothing a node depends on is still open when its line is printed, unless it leads to itself |
| `IrGraph.GraphPrinter.PrintGraph` | sglang/lang/ir.py:361-394 | exactly the reachable nodes are printed, each once, with its line; each comes after all it depends on if and only if no printed node leads to itself |
| `IrGraph.TopologicalHasNoCycle` | sglang/lang/ir.py:365-391 | in such an order no node leads to itself |
| `IrGraph.ClosedUnderPaths` | sglang/lang/ir.py:365-391 | a set closed under dependencies holds everything reachable |
| `Dispatcher.InsertAllDistinct` | sglang/utils.py:483-489 | registering keeps each type once |
| `Dispatcher.TypeBasedDispatcher.constructor` | sglang/utils.py:483-489 | registrations in order, a later one for a known type keeping its place |
| `Dispatcher.TypeBasedDispatcher.AddFallback` | sglang/utils.py:491-492 | the fallback changes, and the cache stays right |
| `Dispatcher.TypeBasedDispatcher.Merge` | sglang/utils.py:494-500 | only unknown types are added, at the end, and the cache stays right |
| `Dispatcher.TypeBasedDispatcher.Dispatch` | sglang/utils.py:502-525 | picks what the uncached rule picks: exact type, else first registered supertype, else fallback, else an error |
| `Dispatcher.Replay` | sglang/utils.py:482-525 | over every history of calls, merges and fallbacks each answer is the uncached one |
| `Dispatcher.UnionPrefersOwn` | sglang/utils.py:494-500 | after merging, own handlers win and the other's fill in |
| `Dispatcher.RulePicks` | sglang/utils.py:502-525 | in terms of the registrations: the handler of the type itself, else of the first registered supertype, else the fallback |
| `Dispatcher.InsertKeepsOrder` | sglang/utils.py:483-489 | a registration of a known type keeps the order of types, an unknown one goes to the end |
| `Dispatcher.UnionKeepsOrder` | sglang/utils.py:494-500 | merging only adds at the end |
| `Dispatcher.InsertLookup` | sglang/utils.py:483-489 | a registration changes the handler of its type only |
| `StreamMerge.MaxOverlap` | sglang/utils.py:528-539 | the greatest length at which an end of the old text is a beginning of the chunk |
| `StreamMerge.TrimOverlap` | sglang/utils.py:528-539 | the downward loop cuts off exactly that overlap |
| `StreamMerge.MergedIsShortest` | sglang/utils.py:528-553 | the merged text is the shortest one that begins with the old text and ends with the chunk |
| `StreamMerge.CumulativeChunk` | sglang/utils.py:528-539 | a chunk that repeats the old text replaces it |
| `StreamMerge.StreamAndMerge` | sglang/utils.py:542-553 | the loop merges all chunks |
| `StreamMerge.CumulativeStream` | sglang/utils.py:542-553 | on cumulative chunks the merge is the last chunk |
| `StreamMerge.IncrementalStream` | sglang/utils.py:542-553 | on chunks of new text the merge is the whole text exactly when no chunk happens to overlap the text before it |
| `PortProbe.OneStep` | sglang/srt/server_args.py:4534-4537 | outside the 85-port window every step comes closer; inside, the step is a rotation by 42 |
| `PortProbe.WalkFromWindow` | sglang/srt/server_args.py:4531-4537 | k steps rotate by 42k modulo 85 |
| `PortProbe.ReachesWindow` | sglang/srt/server_args.py:4531-4537 | the window is reached from any start within the measure's value |
| `PortProbe.EachPortOncePerRound` | sglang/srt/server_args.py:4531-4537 | 85 steps in the window visit each port exactly once, at a computable turn |
| `PortProbe.EveryWindowPortIsTried` | sglang/srt/server_args.py:4531-4537 | every port of the window is tried within a known number of steps |
| `PortProbe.SearchEndsExactlyWhen` | sglang/srt/server_args.py:4531-4537 | a port the walk ever tries is free exactly when one of finitely many, within a known number of steps, is; every port of the window is among those tried |
| `PortProbe.ProbePort` | sglang/srt/server_args.py:4529-4537 | the loop returns the first free port on the walk, within the known number of steps |
| `Alignment.PrepareTokenInfo` | metric/postprocess/postprocessing_for_image_and_count.py:307-352 | tokens, boundaries and prompts of the processed requests |
| `Alignment.ExactlyOneRequest` | metric/postprocess/postprocessing_for_image_and_count.py:307-352 | every token index lies in exactly one boundary, and is that request's token |
| `Alignment.FindRequest` | metric/postprocess/postprocessing_for_image_and_count.py:268-275 | the loop with break finds the first request whose boundary holds the index |
| `Alignment.AlignRecord` | metric/postprocess/postprocessing_for_image_and_count.py:262-301 | one record with its token, request, prompt and index |
| `Alignment.AlignFile` | metric/postprocess/postprocessing_for_image_and_count.py:245-304 | one file's records from a given token on, up to the first without a token |
| `Alignment.AlignTokensWithExperts` | metric/postprocess/postprocessing_for_image_and_count.py:355-451 | the one-shot alignment is the file alignment started at token 0, though its loop runs to the smaller count |
| `Alignment.AlignSplit` | metric/postprocess/postprocessing_for_image_and_count.py:732-866 | aligning two files in turn is aligning them as one |
| `Alignment.AlignedRecordIsRight` | metric/postprocess/postprocessing_for_image_and_count.py:245-304 | an aligned record names the request its token belongs to and carries that request's token |
| `Alignment.RequestIsInside` | metric/postprocess/postprocessing_for_image_and_count.py:268-275 | the request found has the index inside its boundary, and none is found exactly when no boundary has it |
| `Alignment.Counters.CountBatch` | metric/postprocess/postprocessing_for_image_and_count.py:697-701 | each valid id of a batch counts once |
| `Alignment.Counters.WeighBatch` | metric/postprocess/postprocessing_for_image_and_count.py:703-725 | each valid id of a batch adds its weight |
| `Alignment.Counters.AddRecord` | metric/postprocess/postprocessing_for_image_and_count.py:680-725 | one record's effects on the dictionaries, over layers and batches |
| `Alignment.Counters.AnalyzeRecords` | metric/postprocess/postprocessing_for_image_and_count.py:635-729 | dictionaries and the numbers of processed and skipped records, updated in place |
| `Alignment.AnalyzeSplit` | metric/postprocess/postprocessing_for_image_and_count.py:635-729 | analyzing two files in turn is analyzing them as one |
| `Alignment.AnalyzeOffset` | metric/postprocess/postprocessing_for_image_and_count.py:732-866 | the numbers of earlier files are only added |
| `Alignment.CountersCountChoices` | metric/postprocess/postprocessing_for_image_and_count.py:635-729 | each count is the number of times the expert was chosen in that layer, each weight the sum of its weights, and every record is processed or skipped |
| `ChoiceCounts.CountersCountPlaces` | metric/postprocess/postprocessing_for_image_and_count.py:663-725 | in the fields of the records: the count of an expert is how often the counted records list it in the layer, its weight the sum of the weights there, and ids outside 0 to 255 are never counted |
| `ChoiceCounts.OneMoreRecord` | metric/postprocess/postprocessing_for_image_and_count.py:663-725 | a record is processed exactly when it has layers and its output token, or without one its first input token, is not filtered out; a skipped one changes no total |
| `ChoiceCounts.AlignedIsKept` | metric/postprocess/postprocessing_for_image_and_count.py:668-687 | an aligned record goes by the token it was aligned with |
| `ChoiceCounts.AlignedKeepsChoices` | metric/postprocess/postprocessing_for_image_and_count.py:245-304 | how many records are aligned, and what each keeps and gets |
| `ChoiceCounts.UserPromptIsFirst` | metric/postprocess/postprocessing_for_image_and_count.py:307-352 | the prompt is the first message of the user, or empty |
| `ChoiceCounts.AlignedPrompt` | metric/postprocess/postprocessing_for_image_and_count.py:245-304 | an aligned record carries the prompt of its request |
| `Alignment.LoadedInOrder` | metric/postprocess/postprocessing_for_image_and_count.py:732-866 | files count in their order, one that does not load with no record |
| `Alignment.ProcessOneShot` | metric/postprocess/postprocessing_for_image_and_count.py:355-451 | alignment of all records, then analysis of the aligned ones |
| `Alignment.OneMoreFile` | metric/postprocess/postprocessing_for_image_and_count.py:732-866 | a further file extends the one-shot result by what the file adds |
| `Alignment.ProcessFilesStreaming` | metric/postprocess/postprocessing_for_image_and_count.py:732-866 | file by file, the saved records and the statistics are those of processing the loaded records at once, however they are split |
| `ExpertGroups.AddWeight` | metric/utils/compute_expert_metrics.py:57-92 | adding to a counter changes one expert's weight and the sum of all by the same amount |
| `ExpertGroups.ComputeLayerExpertWeights` | metric/utils/compute_expert_metrics.py:57-92 | the nested loops accumulate the contributions of all records in order |
| `ExpertGroups.TotalsAreSums` | metric/utils/compute_expert_metrics.py:57-92 | a layer's total is the sum of its experts' weights, each expert occurs once, and its weight is the sum of its contributions |
| `ExpertGroups.WeightsAreSumsOfPositions` | metric/utils/compute_expert_metrics.py:57-92 | in the fields of the records: an expert's weight is the sum over its positions, each weighing one without weights, nothing without a numeric weight of its own |
| `ExpertGroups.MostCommonIsStable` | metric/utils/compute_expert_metrics.py:95-118 | experts of equal weight stay in the order in which they were first seen |
| `ExpertGroups.MostCommonSums` | metric/utils/compute_expert_metrics.py:95-118 | sorting keeps the weight and size of every group |
| `ExpertGroups.MostCommonSorted` | metric/utils/compute_expert_metrics.py:95-118 | sorting puts the heaviest first |
| `ExpertGroups.MostCommonElements` | metric/utils/compute_expert_metrics.py:95-118 | sorting keeps the entries |
| `ExpertGroups.SelectByThreshold` | metric/utils/compute_expert_metrics.py:95-118 | the loop takes the shortest heaviest-first prefix whose share reaches the threshold, or all |
| `ExpertGroups.SelectByTopK` | metric/utils/compute_expert_metrics.py:121-144 | the loop takes the k heaviest experts, or as many as there are, and their share |
| `ExpertGroups.NoGroupBeatsThePrefix` | metric/utils/compute_expert_metrics.py:95-144 | exchange: no group weighs more than as many of the heaviest experts |
| `ExpertGroups.GroupBound` | metric/utils/compute_expert_metrics.py:95-144 | the share of any group is bounded by that of as many heaviest experts |
| `ExpertGroups.SelectedShare` | metric/utils/compute_expert_metrics.py:95-144 | the share of the selection, as a group, is the cumulative share returned |
| `ExpertGroups.ThresholdGroupReaches` | metric/utils/compute_expert_metrics.py:95-118 | the threshold selection reaches the threshold when the total is the sum of the weights |
| `ExpertGroups.ThresholdGroupIsSmallest` | metric/utils/compute_expert_metrics.py:95-118 | every group that reaches the threshold has at least as many experts as the selection; not even non-negative weights are needed |
| `ExpertGroups.LayerGroupIsSmallest` | metric/utils/compute_expert_metrics.py:57-118 | on the accumulated weights of a layer, the threshold selection reaches the threshold and no group that does is smaller |
| `ExpertGroups.TopKGroupIsStrongest` | metric/utils/compute_expert_metrics.py:121-144 | no group of at most k experts has a larger share than the selection |
| `NGrams.WindowAt` | metric/utils/n_gram_statistics.py:166-171 | how many windows there are, and which one starts where |
| `NGrams.SlideWindow` | metric/utils/n_gram_statistics.py:170-190 | the sliding loop records exactly the windows of one sequence, in order |
| `NGrams.LayerStatistics` | metric/utils/n_gram_statistics.py:156-190 | the double loop records all windows of all requests of the layer |
| `NGrams.RecordedCounts` | metric/utils/n_gram_statistics.py:170-190 | the counters hold: number of windows, constant windows, windows from each source to each target, and the distinct windows |
| `NGrams.SequencesOfRequests` | metric/utils/n_gram_statistics.py:164-166 | the statistics of a layer are about the sequence each request has for it |
| `NGrams.RunsAreMaximal` | metric/utils/n_gram_statistics.py:187-190 | the runs spell the sequence, and each is maximal |
| `NGrams.SelfLoopsAreRuns` | metric/utils/n_gram_statistics.py:187-190 | the self loops of a sequence are, run by run, length minus n plus one where positive |
| `NGrams.LayerSelfLoops` | metric/utils/n_gram_statistics.py:164-190 | so are those of a layer, over all requests |
| `NGrams.SelfLoopsShrink` | metric/utils/n_gram_statistics.py:164-190 | self loops do not increase with n |
| `NGrams.TransitionMatrix` | metric/utils/n_gram_statistics.py:195-199 | the matrix entry of two experts is their count |
| `NGrams.MatrixCountsInside` | metric/utils/n_gram_statistics.py:195-199 | the matrix sums to the number of windows that begin and end at an expert it has |
| `NGrams.MatrixConservesTransitions` | metric/utils/n_gram_statistics.py:164-199 | it sums to the number of transitions exactly when all windows do |
| `NGrams.TotalTransitions` | metric/utils/n_gram_statistics.py:164-190 | the number of transitions is the sum of length minus n plus one, where positive, over the sequences |
| `NGrams.IdsInRange` | metric/utils/n_gram_statistics.py:139-150 | with all ids in range no window is lost |
| `NGrams.Extent` | metric/utils/n_gram_statistics.py:149-150 | one more than the greatest number, or zero |
| `NGrams.CollectNumbers` | metric/utils/n_gram_statistics.py:141-147 | the layers and the experts that occur |
| `NGrams.NumbersOccur` | metric/utils/n_gram_statistics.py:139-147 | the layers and experts collected are exactly those that occur in some request |
| `NGrams.RatioIsAShare` | metric/utils/n_gram_statistics.py:189-190 | the self-loop ratio lies between 0 and 1, times the transitions gives the self loops, and is 1 exactly when there are paths and all stay at one expert |
| `NGrams.CalculateNgramStatistics` | metric/utils/n_gram_statistics.py:109-213 | statistics, ratio and matrix for each layer below the greatest, and when no matrix can be made |
| `NGrams.SequenceFlow` | metric/utils/n_gram_statistics.py:164-190 | in a sequence an expert is left as often as entered, but for the two ends |
| `NGrams.LayerFlow` | metric/utils/n_gram_statistics.py:164-190 | so over all requests |
| `NGrams.FlowIsConserved` | metric/utils/n_gram_statistics.py:164-199 | for pairs, row sum minus column sum is sequences starting minus sequences ending at the expert |
| `NGrams.LayerConserves` | metric/utils/n_gram_statistics.py:109-199 | from the requests themselves: with no negative id, in each layer flow is conserved for pairs and the matrix sums to the number of windows for every n |
| `RoutingMargin.ConvertLayer` | metric/postprocess/postprocessing_for_image_and_count.py:490-565 | the stored experts, weights and logits, and the greatest logit among exactly the experts not selected |
| `RoutingMargin.FullLogitsStored` | metric/postprocess/postprocessing_for_image_and_count.py:490-565 | with full logits, the stored logits are those of the selected experts |
| `RoutingMargin.KeptInOrder` | metric/postprocess/postprocessing_for_image_and_count.py:517-532 | valid ids are kept in order with their weights, zero standing for a missing one, and nothing else |
| `RoutingMargin.MarginThreshold` | metric/utils/rss.py:94-115 | the perturbation test succeeds for all noise up to an amount exactly when the margin exceeds twice that amount |
| `RoutingMargin.MarginThresholdHalfOpen` | metric/utils/rss.py:94-115 | when no draw reaches its upper end, a margin of exactly twice the amount is enough |
| `RoutingMargin.TopThreshold` | metric/utils/rss.py:66-115 | the selected set stays the strict top under any change of all logits exactly for those amounts |
| `RoutingMargin.StoredMarginIsExact` | metric/utils/rss.py:66-115 | for a converted layer, stored margin, perturbation test and the router's choice agree on the amount of noise that is too much, and the margin is there exactly when experts are selected and others are not |

## Left out

- Speculation.SpeculationPreservesMeaning: each generation must be cut at the same place both ways and each step past a fill needs an empty surplus or must write nothing; SpecGenIsDirectExactlyWhen and AppendingPastAFill show these conditions to be exact. One completion per request (n = 1); lengths count characters, as the slices in the code do.
- TracingSoundness.TracedPrefixIsAlwaysSent: the tests and texts of arguments that the tracer reaches before the prefix is fixed must come out as for the placeholder; TestIsTracedExactlyWhen and TextIsTracedExactlyWhen show this to be exact for each of them, while in a given program a misled one may by chance do no harm. An argument enters a program by being appended, or by a text or a test computed from it in any way; one computed from several arguments at once, and values other than texts, are not modelled.
- TracingLimits.TestIsTracedExactlyWhen: for one test at a time, the later tests and texts being avoided.
- TracingLimits.TextIsTracedExactlyWhen: as TestIsTracedExactlyWhen.
- Programs.JoinConservesText: partial correctness on the cache path when a child has failed, since the join then submits to that child's dead worker and waits for it, while the text path returns.
- ThreadedRuns.ThreadedRunIsSequential: for runs with distinct variable names that have not failed and did not inherit an open scope.
- StreamExecutors.StreamExecutor.Submit: is the branch without a worker thread; the branch with the queue is modelled in WorkerQueue.
- StreamExecutors.StreamExecutor.Execute: leaves out `SglSeparateReasoning`; a variable node always fails, as nothing in the modelled code gives it the source executor it reads.
- StreamExecutors.StreamExecutor.ExecuteFill: leaves out the chat-mode branch, which calls a foreign backend.
- StreamExecutors.StreamExecutor.ExecuteGen: leaves out chat-mode speculation and `meta_info`.
- StreamExecutors.StreamExecutor.StreamGen: leaves out `meta_info` and the events set for each chunk.
- Programs.JoinPathsAgree: partial correctness when a child has failed, as JoinConservesText; for runs that do not speculate, since the cache path leaves an old surplus behind; JoinConservesText covers both paths for the text.
- PortProbe.ProbePort: is called under the exact condition under which the endless loop ends, as SearchEndsExactlyWhen states it.
- Publication.PublishedIsFinal: for runs with distinct variable names that have not failed and did not inherit an open scope; writing variables from outside is excluded.
- Publication.ScopeHoldsWhatWasWritten: as PublishedIsFinal.
- WorkerQueue.SyncMeansAllHandled: safety only; after an error the worker takes no further items, so `sync` may never return, and nothing is claimed about that.
- WorkerQueue.ExecutedInOrder: the end mark may be put more than once, but the effect of several `end()` calls on a dead worker and races on resizing a dictionary are not modelled.
- ForkedRuns.ChildRunsAsParentWould: for a parent that does not speculate and has no open images or scopes, since children inherit neither.
- PromptLaws.BlockWrites: for a run whose messages all have a content, as the executor's own have.
- EventRelease.WaitersAreReleased: as long as the variable is not announced anew, which gives it a new event.
- TracingReach.PrefixEndsThere: after a generation or a select, an exception in what follows can leave the extraction without a result.
- RoutingMargin.MarginThresholdHalfOpen: the boundary case in exact arithmetic; floating-point rounding is not modelled anywhere.
- Chat-mode speculation (`spec_fill` and `role_end_generate` of a backend), which replays calls of a foreign interface.
- `SglSeparateReasoning`, which depends on a parser that is not part of this model and truncates the text.
- `meta_info`, the events for streamed chunks, `text_iter` and its asynchronous form, whose completeness the code does not guarantee.
- Encoding of images and videos; the node Image stands for both.
- Generations without a name, and the resolution of sampling parameters; stop strings are given resolved.
- Forking from an executor whose worker has failed: the program gets no further there.
- Printing a graph node whose own `repr` fails.
- `extract_expert_sequences_by_request`, group n-grams, the means and deviations over samples, reports, plots, CSV and JSON files and command lines: shallow branching over input formats, or library numerics.
- Server options, model registries, tokenizers, backends and the network.
