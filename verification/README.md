# ghenkins: a verified model

ghenkins is a small CI daemon that runs GitHub-Actions-style workflows in containers. This project models the logic
behind it in Dafny and proves what that logic promises. Nothing here runs the daemon. `dafny verify dfyconfig.toml`
checks everything.

The project follows the program's five parts.

1. **Expressions** (`Text`, `Values`, `Context`, `Builtins`, `Lexer`, `Grammar`, `Syntax`, `Parser`, `Evaluator`,
   `Phrases`, `Meanings`, `ContextReads`, `Interpolation`). The tokenizer is the source's loop over the text; the parser is the source's class that moves a
   position and evaluates as it goes. Their partners are independent of them: a writer for tokens, trees with a
   meaning, and a spelling of trees. The main results are that evaluating a text succeeds with a value exactly when the
   text spells a tree with that value, and that any tree, written with the parentheses it needs and in any layout,
   evaluates to its meaning; and, as laws on the text alone, what comparisons, logic, calls and context paths yield.
2. **Scheduling** (`Sets`, `Waves`, `Schedule`, `JobLoop`). Kahn's algorithm over in-degree maps, then the skip-or-run loop.
   A schedule exists exactly for known and acyclic needs, waves are longest-chain layers, and which jobs run is the one
   solution of an order-free rule, whatever order Go's map iteration gives.
3. **Steps and environment files** (`EnvText`, `EnvDelta`, `EnvRecords`, `EnvFiles`, `Steps`, `StepFiles`, `StepReads`).
   The step loop over a mutable execution context, fed by incremental reads of append-only files. Reading a file piece by piece
   is right, whatever is appended later, exactly when the pieces are complete.
4. **Run lifecycle** (`Queue`, `Wakeup`, `Store`, `Lifecycle`, `LogStream`). The bounded queue and its sleeping consumer,
   the semaphore, cancellation racing completion, crash and recovery, and the log reader racing the log writer, as steps
   over shared state in every interleaving.
5. **Log retention** (`Retention`). The greedy deletion loop and its exact optimum.

## How the outside is represented

- Float parsing and printing, JSON, case folding, and the key on which Go's map iteration first finds a
  case-insensitive match are fields of `Values.Prims`: results hold for all of them. Floats are reals with the special
  values; rounding does not matter here.
- Strings are sequences of characters. The tokenizer works on bytes in the source, but tells ASCII characters apart
  only, and orders texts by bytes, which is the order of the characters; so this makes no difference on valid UTF-8. Integers are unbounded; no sum here comes near 64 bits.
- Running a step, running a job, and removing a file are oracles. What a step comes to is a function of its index and of
  the whole execution state in front of it; what a job comes to, or whether a file can be removed, is fixed per job and
  file. Results hold for all oracles.
- Store statements are atomic (the store holds a mutex), and one whose context is done has no effect. Run ids, 128
  random bits, are fresh.
- Errors carry no message: `None`, or a constructor per kind of error.

Where the code differs from GitHub's published expression reference, the code is followed: `&&` and `||` evaluate both
sides and yield booleans, `!` binds looser than `==`, comparisons do not chain, and unknown characters are skipped.
Likewise a skipped job does not make the jobs behind it skip.

## Properties that do not hold of the code

Each of these has a concrete witness and the exact condition under which the code is right.

- Reading an environment file in pieces is not always the same as reading it whole: `EnvDelta.IncompleteBreaks` gives,
  for every incomplete piece, a continuation that is read wrongly; `EnvDelta.IncrementalIffComplete` is the condition.
- A streamed log can lose bytes: `LogStream.LostWhenNotOpen` and `LogStream.LostWhenCanceled`; the condition, over every
  way in which a handler ends its last drain, is `LogStream.WholeLogIff`.
- A job behind a skipped job can run: `JobLoop.SkipIsNotTransitive`; `JobLoop.SkipsOnIffTransitive` is the condition, on
  the workflow alone.
- `<=` is not always the negation of `>`: both are false in `Meanings.NaNBreaksNegation`; the condition is
  `Values.ComparisonNegates`.
- A call of `Dequeue` can sleep through the cancellation of its context: `Wakeup.CancellationMissed`; the condition is
  `Wakeup.BroadcastWakesIff`.

## Model

| member | source | states |
|---|---|---|
| `Text.TrimPadded` | internal/runner/eval.go:31-33 | trimming removes exactly the white space around a text that has none at its ends |
| `Text.LinesOfUnlines` | internal/runner/stepenv.go:120-124 | cutting at newlines gives back the lines a text was joined from, in front of any rest |
| `Text.UnlinesOfLines` | internal/runner/stepenv.go:120-124 | the pieces of a cut text join back to the text |
| `Text.CompareOrders` | internal/runner/eval.go:502 | the three-way comparison decides the lexicographic order: a proper prefix, or smaller at the first difference |
| `Text.AtoiOfItoa` | internal/runner/context.go:199 | numerals read back as the integers they were written for |
| `Text.ItoaPlain` | internal/runner/eval.go:553-577 | numerals have no zeros in front |
| `Text.AsciiSpaces` | internal/runner/eval.go:31-33 | which ASCII characters count as white space |
| `Text.TrimBlank` | internal/runner/eval.go:31-33 | trimming leaves nothing of white space alone |
| `Values.ShownOnce` | internal/runner/eval.go:553-577 | every value has exactly one text: nothing for null, itself for a text, the words, numerals, or JSON |
| `Values.TruthOf` | internal/runner/eval.go:534-551 | null, false, zero and the empty text are false, all else is true |
| `Values.NumbersCompare` | internal/runner/eval.go:486-501 | numbers, and texts that read as numbers, compare as reals with the infinities at the ends; NaN equals nothing and is in no order |
| `Values.TextsCompare` | internal/runner/eval.go:502-513 | where not both sides are numbers, the lower-cased texts compare lexicographically, for all four operators |
| `Values.EqualityDecides` | internal/runner/eval.go:516-530 | null equals null only, other texts are equal up to case, and `!=` is the negation |
| `Values.ComparisonMirrors` | internal/runner/eval.go:480-514 | exchanging the operands mirrors each order operator, for numbers and for text |
| `Values.ComparisonNegates` | internal/runner/eval.go:480-514 | `<=` negates `>` and `>=` negates `<` if and only if no NaN is compared |
| `Context.LookupOrderFree` | internal/runner/context.go:190-229 | lookup does not depend on map iteration order where no two keys on the path differ in case only |
| `Context.CopyInto` | internal/runner/context.go:128-142 | ranging over a map in any order overlays it on the target |
| `Context.BuildEvalContext` | internal/runner/context.go:96-175 | a variable comes from the most specific of step, live, job and workflow environment; no other variables appear |
| `Builtins.SearchDecides` | internal/runner/eval.go:380-394 | `contains`, `startsWith` and `endsWith` on texts, up to case, and `contains` on lists by `==` |
| `Builtins.JoinGives` | internal/runner/eval.go:466-478 | `join` puts the separator, a comma by default, between the texts of the elements |
| `Text.JoinConcat` | internal/runner/eval.go:466-478 | one separator between any two neighbours and none at the ends |
| `Builtins.FormatGives` | internal/runner/eval.go:458-464 | `format` fills each slot with the text of its argument and leaves slots without one |
| `Builtins.JsonGives` | internal/runner/eval.go:409-436 | `toJSON` and `fromJSON` convert, or err; `hashFiles` is a stub that yields the empty text |
| `Builtins.CallErrs` | internal/runner/eval.go:378-439 | a wrong number of arguments and an unknown name are errors |
| `Lexer.Tokenize` | internal/runner/eval.go:89-182 | the scanning loop yields the token sequence of the specification on every text, unterminated strings included |
| `Lexer.ScanStep` | internal/runner/eval.go:92-179 | one pass of the switch takes exactly one specified step |
| `Lexer.Symbol` | internal/runner/eval.go:114-178 | operators and punctuation, longest first; any other character is passed over |
| `Lexer.ScanWhile` | internal/runner/eval.go:98-111 | the inner loops stop at the first character outside the class |
| `Lexer.WordsRead` | internal/runner/eval.go:159-190 | letters, digits, `_` and `-` form one name, but for the three keywords |
| `Lexer.NumbersRead` | internal/runner/eval.go:104-113 | digits and points, possibly behind a minus sign, form one numeral |
| `Lexer.QuotesRead` | internal/runner/eval.go:97-103 | a quoted text goes to the next quote, or to the end of the text |
| `Lexer.StrayRead` | internal/runner/eval.go:94-178 | white space and characters without a meaning are passed over |
| `Lexer.LexWritten` | internal/runner/eval.go:89-190 | round trip: any writable tokens, with any gaps and none where tokens cannot run together, are read back with exactly one end marker |
| `Lexer.LexShape` | internal/runner/eval.go:89-182 | every text yields writable tokens and one end marker, last |
| `Lexer.LexNormalForm` | internal/runner/eval.go:89-182 | rewriting a text as its own tokens, spaced out, does not change how it reads |
| `Grammar.MinimalFits` | internal/runner/eval.go:222-320 | parentheses where needed make every tree one the grammar derives, and none are added to a tree that already is |
| `Grammar.MinimalDenote` | internal/runner/eval.go:290-299 | adding parentheses keeps the meaning, errors included |
| `Grammar.FlattenNoEof` | internal/runner/eval.go:200-220 | no spelling contains the end marker |
| `Syntax.OrTree` | internal/runner/eval.go:226-240 | a tree read at a position fits the grammar, is spelled by exactly the tokens passed, and passes at least one |
| `Syntax.AndTree` | internal/runner/eval.go:242-256 | the same for conjunctions |
| `Syntax.NotTree` | internal/runner/eval.go:258-268 | the same for negations, which may hold a comparison |
| `Syntax.CmpTree` | internal/runner/eval.go:270-285 | the same for comparisons, of two primaries at most |
| `Syntax.PrimaryTree` | internal/runner/eval.go:287-320 | the same for primaries |
| `Syntax.IdentTree` | internal/runner/eval.go:322-376 | the same for calls and property chains |
| `Syntax.ReadIffSpelled` | internal/runner/eval.go:222-376 | reading inverts spelling: a tree is read from a whole token list if and only if it fits the grammar and the list is its spelling |
| `Syntax.ReadOr` | internal/runner/eval.go:226-240 | every spelled disjunction, in any surroundings, is read as the tree it spells |
| `Parser.ExprParser.ParseOr` | internal/runner/eval.go:226-240 | evaluating while parsing agrees with reading a tree and taking its meaning, value, error and end position; no end marker is passed |
| `Parser.ExprParser.ParseAnd` | internal/runner/eval.go:242-256 | the same for conjunctions, both sides always evaluated |
| `Parser.ExprParser.ParseNot` | internal/runner/eval.go:258-268 | the same for negations |
| `Parser.ExprParser.ParseComparison` | internal/runner/eval.go:270-285 | the same for comparisons |
| `Parser.ExprParser.ParsePrimary` | internal/runner/eval.go:287-320 | the same for primaries; a success passes at least one token |
| `Parser.ExprParser.ParseIdentOrCall` | internal/runner/eval.go:322-376 | the same for calls and property chains |
| `Parser.ExprParser.ParseArgs` | internal/runner/eval.go:326-343 | the argument loop yields the values of the argument trees, or fails if they do not parse or one errs |
| `Parser.ExprParser.ParseSegs` | internal/runner/eval.go:347-372 | the chain loop yields the parts of the chain's links |
| `Evaluator.Eval` | internal/runner/eval.go:43-54 | the one-pass evaluation equals the meaning of the tree the text spells; on success the parser stands on the end marker |
| `Evaluator.EvalIffDenotes` | internal/runner/eval.go:43-54 | evaluation succeeds with a value if and only if the text spells a tree of the grammar with that value |
| `Evaluator.EvalWritten` | internal/runner/eval.go:43-54 | text-level round trip: every tree, minimally parenthesized and in any well-spaced layout, evaluates to its meaning |
| `Evaluator.ChainedComparisonFails` | internal/runner/eval.go:270-285 | comparisons do not chain: a second comparison operator makes the text an error |
| `Evaluator.EvalBool` | internal/runner/eval.go:30-40 | a condition is the truth of the expression inside the optional wrapper |
| `Evaluator.UnwrapPadded` | internal/runner/eval.go:30-34 | the wrapper and white space in and around it make no difference |
| `Evaluator.EvalNullary` | internal/runner/eval.go:326-344 | a call without arguments, as text, is the call |
| `Evaluator.StatusChecks` | internal/runner/eval.go:427-434 | the four status checks as text, bare or wrapped, padded at will, decide by the job status and the cancelled flag |
| `Phrases.LexJoin` | internal/runner/eval.go:89-182 | a text that does not end inside quotes, followed by a breaking character, keeps its tokens |
| `Phrases.SpellsPath` | internal/runner/eval.go:345-376 | a name with any property and index links spells that path |
| `Phrases.SpellsCall` | internal/runner/eval.go:322-344 | a name with any arguments in parentheses spells that call |
| `Meanings.LiteralText` | internal/runner/eval.go:287-320 | literals mean themselves |
| `Meanings.CompareText` | internal/runner/eval.go:270-285 | on text, a comparison errs if an operand errs and otherwise compares what the operands evaluate to |
| `Meanings.AndText` | internal/runner/eval.go:242-256 | on text, `&&` yields the conjunction of the truth values of both sides, and errs if either side does |
| `Meanings.OrText` | internal/runner/eval.go:226-240 | on text, disjunction likewise; it binds looser |
| `Meanings.NotText` | internal/runner/eval.go:258-268 | on text, `!` yields the negated truth value of the comparison or operand that follows |
| `Meanings.ParenText` | internal/runner/eval.go:290-299 | on text, parentheses keep value and error |
| `Meanings.CallText` | internal/runner/eval.go:322-344 | on text, a call applies the function to what its arguments evaluate to, in order, and errs if one errs |
| `Meanings.NumeralsCompare` | internal/runner/eval.go:480-501 | on text, the six operators between numerals decide as on reals |
| `Meanings.NaNBreaksNegation` | internal/runner/eval.go:480-501 | the texts `'NaN' <= 1` and `'NaN' > 1` both evaluate to false |
| `ContextReads.EntryText` | internal/runner/context.go:43-71 | on text, `object.key` finds that key, else one that differs in case only, else null, in each of the six objects |
| `ContextReads.EntryTexts` | internal/runner/context.go:43-71 | `env`, `secrets`, `inputs`, `github`, `job` and `runner` each name their own object |
| `ContextReads.UnknownText` | internal/runner/context.go:43-71 | any other name is null |
| `ContextReads.IndexText` | internal/runner/context.go:198-212 | on text, `[i]` is the element of a list counted from zero, and null behind its end |
| `ContextReads.StepText` | internal/runner/context.go:54-83 | on text, outcome, conclusion and outputs of a step are those on record; null for an unknown id |
| `Interpolation.Cut` | internal/runner/eval.go:14-18 | cutting a text at the expressions loses nothing |
| `Interpolation.CutSource` | internal/runner/eval.go:14-18 | canonical literals and expressions are recovered from the text they form: leftmost open that has a close on its line, nearest close |
| `Interpolation.CutIffCanonical` | internal/runner/eval.go:14-18 | for every text, the cut is the one template that spells the text and is canonical: no open left in a literal has a close on its line, and each expression is on one line and ends at its nearest close |
| `Interpolation.ProperIsCanonical` | internal/runner/eval.go:14-18 | plain templates, with no open in a literal and one-line expressions that hold no close and do not end in a brace, are canonical |
| `Interpolation.InertStays` | internal/runner/eval.go:17-26 | a text in which no open has a close on its line stays as it is |
| `Interpolation.HoleReplaced` | internal/runner/eval.go:17-26 | the first expression is replaced, behind its literal, by the text of its value, or by nothing on error, and the rest is interpolated on its own: values are never scanned again |
| `Interpolation.BlankHole` | internal/runner/eval.go:17-26 | an expression of white space alone is replaced by nothing |
| `Waves.LayersDisjoint` | internal/runner/workflow.go:190-208 | no job lies in two waves |
| `Waves.NeedEarlier` | internal/runner/workflow.go:190-216 | every need lies in a strictly earlier wave |
| `Waves.LayerIsLongestChain` | internal/runner/workflow.go:187-216 | a job's wave is the number of links of its longest chain of needs |
| `Waves.LayerIsEarliest` | internal/runner/workflow.go:187-216 | no schedule that respects the needs puts a job earlier |
| `Schedule.FewestWaves` | internal/runner/workflow.go:187-223 | no schedule that respects the needs has fewer waves |
| `Waves.CompleteIffAcyclic` | internal/runner/workflow.go:218-220 | once no job is ready, all jobs are placed if and only if the needs have no cycle |
| `Schedule.NeedsAreNames` | internal/runner/workflow.go:143-160 | a job needs exactly the names in its list |
| `Schedule.CountNeeds` | internal/runner/workflow.go:166-184 | counters are the lengths of the needs lists, dependents lists mirror them with repeats, and an unknown need is found if there is one |
| `Schedule.CollectWave` | internal/runner/workflow.go:192-197 | in any map order, the wave is exactly the zero counters, each once |
| `Schedule.DeleteAll` | internal/runner/workflow.go:203-205 | exactly the wave's keys are deleted |
| `Schedule.DecrementEach` | internal/runner/workflow.go:212-214 | each counter falls by the job's entries in the list, and no deleted key comes back |
| `Schedule.Relax` | internal/runner/workflow.go:211-215 | after the decrements each remaining counter equals the entries still unplaced, repeats included |
| `Schedule.TakeWaves` | internal/runner/workflow.go:187-216 | the waves are the layers in order, each job once, until no job is ready |
| `Schedule.BuildExecutionOrder` | internal/runner/workflow.go:165-223 | success if and only if every need is known and the needs are acyclic, with all jobs in the waves; otherwise the error says which |
| `JobLoop.FixpointUnique` | internal/runner/runner.go:276-320 | the rule "a job runs unless a direct need ran and failed" has at most one solution, so order inside waves is irrelevant |
| `JobLoop.RanIsFixpoint` | internal/runner/runner.go:276-320 | the rule has a solution |
| `JobLoop.SkipIsNotTransitive` | internal/runner/runner.go:290-296 | in a chain of three jobs with the first one failing, the second is skipped and the third runs |
| `JobLoop.SkipsOnIffTransitive` | internal/runner/runner.go:276-296 | jobs behind skipped jobs are skipped too, whatever the outcomes, if and only if every job lists the needs of its needs as its own |
| `JobLoop.DependencyFailed` | internal/runner/runner.go:282-289 | the search finds a failed need if there is one |
| `JobLoop.HandleJob` | internal/runner/runner.go:279-317 | one job is skipped or run by the rule, with its callbacks, exit code and failure record |
| `JobLoop.RunWave` | internal/runner/runner.go:279-317 | the jobs of a wave, in the order they come and behind all they need, keep the record exact; a job that errs is the last one handled and the first one to err |
| `JobLoop.Run` | internal/runner/runner.go:266-320 | the jobs run are the rule's solution; the run errs if and only if one of them errs, else the exit code is 1 if and only if one fails; each job handled has one callback, skipped, or two, running and then its status, failure for an error; no other job has any and those of two jobs do not mix; jobs come behind their needs and wave by wave, all of them on a normal end, up to and including the first erring one otherwise |
| `JobLoop.TraceReported` | internal/runner/runner.go:290-313 | the callbacks of a list of distinct jobs: one for a skipped job, two for a job that ran, job by job in order |
| `EnvText.ReadBody` | internal/runner/stepenv.go:141-151 | the block loop takes the lines in front of the delimiter, or all |
| `EnvText.ParseEntry` | internal/runner/stepenv.go:127-167 | one turn of the loop takes one entry: empty line, block, or simple line |
| `EnvText.ParseEnvFile` | internal/runner/stepenv.go:114-170 | the loop computes the last-wins map of all entries |
| `EnvText.ParsePathFile` | internal/runner/stepenv.go:93-104 | the non-empty lines, in order |
| `EnvText.LineOpens` | internal/runner/stepenv.go:136-154 | a line opens a block exactly at its first `<<` with something on both sides |
| `EnvText.LineBinds` | internal/runner/stepenv.go:157-164 | any other line binds what is in front of its first `=`, if anything, to what is behind it |
| `EnvText.PathsRoundTrip` | internal/runner/stepenv.go:93-104 | path entries written one per line are read back |
| `EnvDelta.ParseSplit` | internal/runner/stepenv.go:114-170 | a complete piece read first and the rest afterwards give what reading all at once gives |
| `EnvDelta.IncompleteBreaks` | internal/runner/stepenv.go:114-170 | an incomplete piece is read wrongly in front of some continuation |
| `EnvDelta.IncrementalIffComplete` | internal/runner/stepenv.go:114-170 | a piece can be read on its own, whatever follows, if and only if it consists of whole lines with every block closed |
| `EnvDelta.PathsIffWholeLines` | internal/runner/stepenv.go:93-104 | the same for the path file, if and only if the piece consists of whole lines |
| `EnvDelta.CompleteConcat` | internal/runner/stepenv.go:114-170 | complete pieces join to complete pieces |
| `EnvRecords.RecordsRoundTrip` | internal/runner/stepenv.go:106-170 | every list of well-formed records writes out as a complete text that parses back to the last-wins map |
| `EnvRecords.RecordBinds` | internal/runner/stepenv.go:127-167 | one written record is one entry with its binding |
| `EnvFiles.EnvFiles.ReadDelta` | internal/runner/stepenv.go:37-90 | a read returns, for each of the three files, the parse of the bytes behind its offset and moves the offset to the end; a failed read moves none |
| `EnvFiles.BytesConserved` | internal/runner/stepenv.go:34-90 | over every history of appends and reads, for all three files, what was read and what was appended since the last successful read make up the file, and the latter is what lies behind the offset |
| `EnvFiles.ReadGivesUnread` | internal/runner/stepenv.go:34-70 | a successful read gives the parse of exactly what was appended to each file since the last one |
| `EnvFiles.DeltasAddUp` | internal/runner/stepenv.go:34-70 | over every history of complete appends and reads, each byte is consumed once and the merged deltas equal one parse of everything read |
| `Steps.ExecutionContext.DecideRun` | internal/runner/executor.go:285-299 | a condition that evaluates to true, or none in a job that has not failed |
| `Steps.ExecutionContext.RunOne` | internal/runner/executor.go:278-340 | one turn of the loop takes the state to the specified next state |
| `Steps.ExecutionContext.RunSteps` | internal/runner/executor.go:277-346 | the loop folds the steps over the state, names unnamed steps, and ends in failure if and only if a step not allowed to fail came to an error or a failure, else in success |
| `Steps.FailedIffBroke` | internal/runner/executor.go:334-346 | at every point the job has failed if and only if some step not allowed to fail has run and returned an error or a failure; never undone |
| `Steps.StatusConditions` | internal/runner/executor.go:285-299 | `success()` as text decides as no condition, `failure()` the opposite, `cancelled()` never, `always()` always |
| `Steps.ConditionDecides` | internal/runner/executor.go:285-295 | a condition, bare or wrapped, lets the step run if and only if it evaluates, and to a true value |
| `Steps.IdsDistinct` | internal/runner/executor.go:279-283 | generated ids are distinct from each other and from given ones |
| `Steps.NoCondition` | internal/runner/executor.go:296-299 | a step without condition runs if and only if no earlier step has broken the job |
| `Steps.SkippedStretch` | internal/runner/executor.go:301-304 | over any stretch of skipped steps environment, path, status and file offsets stand still, earlier results stay unless their id is reused, and exactly the ids of the stretch are marked skipped |
| `Steps.OneResultEach` | internal/runner/executor.go:278-340 | with distinct ids every step has exactly its own result, skipped, a failure on error, or its own outcome and conclusion, and there are no others |
| `StepFiles.LiveEnvIsWholeFile` | internal/runner/executor.go:317-322 | at every point the live environment and path are the initial ones overlaid with one parse of what the steps appended up to the offsets; of all of it, if the files could be read behind every step that ran |
| `StepFiles.OutputsAreOwn` | internal/runner/executor.go:317-333 | the outputs on record for a step are its own overlaid with one parse of what was appended to the output file up to that step and not read before; this step's own chunk if every read succeeded |
| `StepReads.EnvReads` | internal/runner/context.go:128-142 | `env.K` as text is the variable of step, live, job or workflow environment, in this order |
| `StepReads.SecretReads` | internal/runner/context.go:155-175 | `secrets.K` and `inputs.K` as text are the job's secrets and inputs |
| `StepReads.GithubReads` | internal/runner/context.go:108-126 | each `github` field as text is its datum, and the event if its payload is JSON |
| `StepReads.StatusReads` | internal/runner/context.go:177-188 | `job.status` as text for every status |
| `StepReads.RunnerReads` | internal/runner/context.go:144-150 | the constants of `runner` as text |
| `StepReads.JobStatusReads` | internal/runner/context.go:177-188 | `job.status` as text is failure if and only if a step has broken the job |
| `StepReads.EarlierOutcome` | internal/runner/executor.go:285-290 | a later condition that asks for a step's outcome gets skipped, failure on an error, or the step's own outcome |
| `StepReads.EarlierOutput` | internal/runner/executor.go:317-333 | from file to expression: a later step that asks for an output gets what the earlier step appended to the output file, or else gave itself |
| `Queue.Put` | internal/queue/queue.go:27-47 | an enqueue keeps the length within the capacity and the new job is in the queue |
| `Queue.PutPlaces` | internal/queue/queue.go:27-47 | a newcomer comes last, stands where the first job of its watch stood, or follows the others up when the head is dropped; all others keep their place |
| `Queue.Queue.Enqueue` | internal/queue/queue.go:27-47 | append, replace the first of the watch, or drop the head; the consumer is never left asleep unsignalled on a non-empty queue |
| `Queue.Queue.Dequeue` | internal/queue/queue.go:57-78 | one pass under the lock: cancelled if the context is done, else the head, else closed or sleep |
| `Queue.Queue.Close` | internal/queue/queue.go:81-86 | closing wakes the consumer |
| `Queue.RunsAccounted` | internal/queue/queue.go:24-78 | over any run every accepted job is exactly one of waiting, taken, superseded by a later job of its watch, or dropped as head of a full queue without the newcomer's watch |
| `Queue.Fifo` | internal/queue/queue.go:24-78 | as long as nothing is replaced jobs leave in order of acceptance; if nothing is dropped either, none is missing |
| `Wakeup.NoJobMissed` | internal/queue/queue.go:27-86 | in every interleaving, a call never sleeps on a queue that holds a job or is closed |
| `Wakeup.AwakeReturns` | internal/queue/queue.go:58-71 | with its context done, a call outside the gap between test and sleep returns the cancellation within two steps of its own, whatever others do |
| `Wakeup.BroadcastWakesIff` | internal/queue/queue.go:52-67 | the broadcast of a cancelled context brings the call to return in every continuation if and only if the call is not between its test and its sleep |
| `Wakeup.StuckUntilStirred` | internal/queue/queue.go:52-67 | a call asleep behind its broadcast is woken by nothing but a new job or closing, and then returns the cancellation |
| `Wakeup.CancellationMissed` | internal/queue/queue.go:49-67 | a reachable state in which the context is done, the broadcast is over, and the call sleeps with nothing left to happen but a new job or closing |
| `Store.RunStore.CreateRun` | internal/store/store.go:234-249 | inserts a queued row, unless the id exists or the statement does not take effect |
| `Store.RunStore.UpdateRunStatus` | internal/store/store.go:261-273 | changes the one row, if it exists and the statement takes effect |
| `Store.RunStore.ListRuns` | internal/store/store.go:282-303 | rows as they are, each once, newest first, as many as there are up to the limit, 10000 by default; rows left out are not newer |
| `Lifecycle.RecoverStaleRuns` | internal/daemon/daemon.go:139-151 | queued and running rows become errors without exit code, others stay; none is left if there are at most 10000 rows and the database works |
| `Lifecycle.CleanBoot` | internal/daemon/daemon.go:139-151 | a start that lists all rows and whose writes land turns every queued or running row into an error without exit code and keeps all others |
| `Lifecycle.StepKeepsLife` | internal/daemon/daemon.go:291-412 | every step of every actor keeps the status invariant, and no row disappears or goes down |
| `Lifecycle.StatusNeverGoesDown` | internal/daemon/daemon.go:291-412 | between any two points of any run, across crashes and recovery, a status stays or rises in queued, running, result, canceled |
| `Lifecycle.CanceledForGood` | internal/daemon/daemon.go:479-489 | once a cancellation has written, the row stays canceled for good |
| `Lifecycle.CutOff` | internal/daemon/daemon.go:291-304 | behind a timeout, a shutdown or a cancelled context, a run never writes to its row again |
| `Lifecycle.StopsInOrder` | internal/daemon/daemon.go:258-274 | the dispatcher drains only for a shutdown, and from the shutdown on every run alive has its context cancelled |
| `Lifecycle.Bounded` | internal/daemon/daemon.go:259-275 | registered runs are at most the tokens held, which are at most the maximum; with the store closed no run is alive |
| `Lifecycle.CleanRun` | internal/daemon/daemon.go:291-412 | an undisturbed run goes through queued and running to its result and exit code, gives back token, registration and wait group place, and touches no other row |
| `Lifecycle.AlwaysInv` | internal/daemon/daemon.go:259-304 | both invariants hold in every reachable state |
| `LogStream.SentIsPrefix` | internal/logserver/server.go:426-467 | at every point of every interleaving the bytes sent are exactly the log up to the read position, and none before the file is open |
| `LogStream.ReaderMoves` | internal/logserver/server.go:388-466 | the handler drains for the last time exactly behind a look that fails or finds success, failure, error or canceled, and ends exactly behind that drain or when the client leaves |
| `LogStream.WholeLogIff` | internal/logserver/server.go:426-467 | at the end of the last drain, however reached, what was sent is the log for good, whatever happens afterwards, if and only if the run has nothing left to write and the file was open or empty |
| `LogStream.WholeLogForGood` | internal/logserver/server.go:388-467 | a handler that ends on the run's own terminal status with the file open has sent the final log |
| `LogStream.LogFrozen` | internal/daemon/daemon.go:369-406 | the log does not change once the run has nothing left to write |
| `LogStream.LostWhenNotOpen` | internal/logserver/server.go:428-460 | a reachable end in which the whole log is missed |
| `LogStream.LostWhenCanceled` | internal/logserver/server.go:446-459 | a reachable end in which the tail after a cancellation is missed |
| `Retention.LogServer.Scan` | internal/logserver/retention.go:44-69 | expired files are removed, the others collected with their total size |
| `Retention.UnexpiredPlaces` | internal/logserver/retention.go:44-69 | a file counts as often as it is listed, examinable, no directory and within the age limit |
| `Retention.SortByTime` | internal/logserver/retention.go:72-74 | some order by time of the same files |
| `Retention.LogServer.ApplyRetention` | internal/logserver/retention.go:35-85 | with any removal failures the total equals the unexpired bytes left, the loop ends within the limit or with all tried, and exactly the removable files tried are gone |
| `Retention.KeepsLongestFitting` | internal/logserver/retention.go:76-84 | if all removals succeed, what is kept is exactly the longest newest-first part that fits the limit |

## Left out

- Queue.Queue.Dequeue: one pass with the lock held; the whole call, racing the broadcast that is sent without the lock, is in `Wakeup`, with one consumer as in the daemon.
- Queue.Put: requires a capacity of at least 1 or a non-empty queue; the source's slicing panics otherwise, and the daemon always asks for four times the concurrency.
- Lifecycle.StepKeepsLife: goroutines, cancellations and the log handler are steps on one shared value, each statement on shared state being atomic, not methods on objects; aliasing of shared maps is not captured.
- Lifecycle.StatusNeverGoesDown: says nothing about a final status being reached; a timed-out run's last write uses the expired context.
- LogStream.WholeLogIff: reads that fail are not modelled; the source ignores read errors and stops draining.
- Steps.ExecutionContext.RunSteps: the job-level condition, container set-up and artifact collection around the loop are not part of this model.
- Builtins.FormatGives: literal text and values with `{` are left out: arguments go in one after the other, so a value may bring in slots for later arguments.
- Context.BuildEvalContext: Unicode case folding and JSON decoding are uninterpreted.
- Podman, git, the GitHub client and reporter, HTTP fetching and action resolution: foreign calls, replaced by outcome oracles.
- Composite actions: nothing in the code bounds an action that uses itself, so termination is not provable as written.
- The initial environment of a job: a fixed list of variables; it is a parameter here.
- Attribution of job callbacks across concurrent runs: they go through fields that each run overwrites.
- SQL text, migrations and row scanning: the runs table is a map with atomic updates.
- Poller, configuration, secrets, users, sessions, projects, the command line and the HTML interface: plumbing that would only add easy members.
