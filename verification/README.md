# llm-agent-eval: a verified model of its core

This project models the parts of llm-agent-eval in which a mistake would be hard to see and
costly, and proves what the system promises of them.

- **Job queue** (`JobRows`, `JobRuns`, `JobQueue`). A row is changed by guarded updates; a run
  is any interleaving of the updates of any workers. The class `Jobs.JobQueue` performs each
  transaction as such updates and keeps them in a ghost trail, so what is proved of every run
  holds of every object at every moment.
- **Run engine** (`Lifecycle`, `Sessions`, `SessionClosure`, `SessionReruns`, `SessionEndings`,
  `SessionResume`, `SessionRescoring`, `SessionRetries`, `SessionMeaning`, `SessionTotals`,
  `EngineWrites`, `Engine`). `Sessions` says what one session makes of the stored tables, with the
  agent, the evaluators and the cancellation signal as parameters. The class `Engine.Engine` drives
  the same session write by write through setters that check every transition; its ghost trail holds
  each committed write, and a crash leaves a prefix of it.
- **Conditions** (`CondSyntax`, `CondTokenizer`, `CondParser`, `CondGrammar`, `CondLanguage`,
  `CondRoundTrip`, `CondEval`, `CondMeaning`). The tokenizer, the parser object and the three-valued
  evaluator; beside them what they are to do, stated apart: the grammar and the tokens of the
  language, a printer as the parser's inverse, and the meaning of a condition.
- **Scores and aggregates** (`Stats`, `Scoring`, `Aggregation`, `AggregateMeaning`), and **Cohen's
  kappa** (`Kappa`), in exact arithmetic.
- **Dashboards** (`Bindings`, `Dashboard`, `DashboardSoundness`, `Layout`). The binding grammar,
  the validator as a type checker, resolution, and the flow layout.
- **Publish protocols** (`ArtifactRuns`, `Artifacts`, `InstallKeyRuns`, `InstallKey`) as state
  machines of steps that interleave and crash, with classes that take those steps.
- **JSON Pointer** (`Pointer`), after RFC 6901, sections 3 and 4.

The model follows the code. Where that departs from the documentation, or from what a reader would
expect, a lemma says exactly where:

- The condition language is documented so that a missing value never passes by accident. It holds of
  plain conditions; a bare `raw_value` is neutral when missing, so under `&&` it passes
  (`CondEval.BareOperandPassesWhenMissing`), under `||` it counts as false
  (`CondEval.BareOperandIsFalseUnderOr`), and negated it is false (`CondEval.NegatedOperandExactly`).
  Nested to any depth, it holds where no operand stands in such a place
  (`CondEval.SteadyAnswersAreFinal`).
- Required dashboard inputs are documented as bound; null satisfies them, as it does every input but
  a selection's name (`DashboardSoundness.NullKeepsBlockAcceptable`). A selection input must be bound
  even where it is optional (`DashboardSoundness.SelectionMustBeNamed`).
- A resume re-runs interrupted cases, but a second crash while requeuing can lose one
  (`SessionEndings.RequeueCrashLosesTheCase`).
- Cancelling is documented to land in cancelled; before whichever case the signal comes, a run
  resumed while aggregating lands in incomplete instead (`SessionEndings.QuietSessionsLand`).
- Retries are documented not to affect a run's verdicts. They do not, unless one raises: that leaves
  the run incomplete (`SessionRetries.RaisingRetryFailsExactly`).
- Re-scoring a finished case also counts first attempts that did not complete, which live scoring
  does not (`SessionRescoring.RescoringCountsExactly`).
- Numeric scoring of an empty list is an unhandled exception (`Scoring.CrashesExactly`).
- A get looks up an artifact's row and opens its file separately and without a lock, so a deletion
  between the two makes it fail with artifact_unavailable. It is sure to return the bytes exactly if
  the artifact is referenced (`ArtifactRuns.ReadIsSureExactly`); recovery, which reads the same way,
  can report an artifact that is being deleted (`Artifacts.ArtifactStore.Recover`).
- Concurrent installers agree on one key, but a power loss that takes the unsynced directory entry
  lets a later one return another (`InstallKeyRuns.PowerLossSparesAgreementExactly`).
- JSON Pointer indices accept more than RFC 6901 allows (`Pointer.LaxIndicesExactly`).

`dafny verify dfyconfig.toml` checks everything.

## Model

| member | source | states |
|---|---|---|
| `JobRows.StatusChangeBurnsFuel` | src/llm_agent_eval/jobs.py:142-201 | 2 * (max_attempts - attempts), plus 1 while leased and 0 once terminal, drops on every status change of a row and stays on every other change |
| `JobRows.ActionMatchesReplay` | src/llm_agent_eval/jobs.py:103-107 | each update of a row appends at most the one event whose replay gives the new row, and a status event exactly when the status changes |
| `JobRows.ReplayClosedForm` | src/llm_agent_eval/jobs.py:103-107 | folding a job's events gives the last event other than cancellation_requested as status, the number of leased events as fence, and the cancellation flag exactly if a cancellation_requested or cancelled event occurs |
| `JobRuns.RunInv` | src/llm_agent_eval/jobs.py:109-332 | in every state of every interleaving: rows, outbox, keys and committed writes are consistent (attempts equals fence, queued means attempts below the limit and no cancellation, leased means between 1 and the limit) |
| `JobRuns.OutboxReplay` | src/llm_agent_eval/jobs.py:103-107 | for every run, a job's outbox events in append order determine its status, fence and cancellation flag |
| `JobRuns.BoundedRetries` | src/llm_agent_eval/jobs.py:142-201 | over every run a job is leased at most max_attempts times and changes status at most 2 * max_attempts times after its insert |
| `JobRuns.OneJobPerKey` | src/llm_agent_eval/jobs.py:109-136 | an idempotency key never names two jobs |
| `JobRuns.TerminalIsFinal` | src/llm_agent_eval/jobs.py:142-332 | a completed, failed or cancelled row never changes again, whatever follows |
| `JobRuns.StaleForever` | src/llm_agent_eval/jobs.py:203-223 | under a clock that does not fall, a lease that fails the fencing test once fails it ever after |
| `JobRuns.StaleFenceIsInert` | src/llm_agent_eval/jobs.py:245-317 | an action that presents a fence which has ended or been passed leaves jobs, outbox and writes as they are, now and after anything that follows |
| `JobRuns.FenceHasOneOwner` | src/llm_agent_eval/jobs.py:159-201 | two moments of a run at which a job is leased under the same fence name the same worker |
| `JobRuns.WritesAreFenced` | src/llm_agent_eval/jobs.py:225-243 | committed publication writes of a job come in fence order, and those of one fence from one worker |
| `JobRuns.CancellationSeals` | src/llm_agent_eval/jobs.py:225-332 | once cancellation is requested or the job has ended, no write for it is ever committed, and a cancelled job never completes |
| `Jobs.JobQueue.Enqueue` | src/llm_agent_eval/jobs.py:109-136 | the three input errors, the idempotency conflict, the replay that changes nothing, and the fresh queued row with every field given, its limit of attempts and creation time included, and its event; each exactly when |
| `Jobs.JobQueue.ExpireAndCancel` | src/llm_agent_eval/jobs.py:142-157 | every lease that has run out is ended with its one event: cancelled exactly after a request, queued again exactly if attempts are left, and otherwise failed, with retry_exhausted exactly then; each field of the row as stated, and nothing else changes |
| `Jobs.JobQueue.FindNext` | src/llm_agent_eval/jobs.py:159-181 | finds the oldest claimable job, ties broken by id, or none when none is claimable |
| `Jobs.JobQueue.Claim` | src/llm_agent_eval/jobs.py:159-181 | after expiry, leases the oldest queued job to the worker under the next fence until now + lease_seconds, field by field, or reports exactly then that there is none; a job whose worker died with attempts left is among the candidates |
| `Jobs.JobQueue.ClaimSpecific` | src/llm_agent_eval/jobs.py:183-201 | leases exactly the named job, field by field, if it is queued or its lease has run out with attempts left and no request to cancel, under the next fence, and touches no other queued job |
| `Jobs.JobQueue.AssertActive` | src/llm_agent_eval/jobs.py:203-223 | accepts a lease exactly if it is current, unexpired and not cancelled, and names the error otherwise |
| `Jobs.JobQueue.Publication` | src/llm_agent_eval/jobs.py:225-243 | the body's writes are committed exactly if the lease is active at the start and still live at commit, or completed under the same fence |
| `Jobs.JobQueue.AcknowledgeCancel` | src/llm_agent_eval/jobs.py:245-258 | ends a leased job as cancelled exactly under its current fence after a request |
| `Jobs.JobQueue.Abandon` | src/llm_agent_eval/jobs.py:260-273 | lets a lease run out at once, exactly under its current fence, whether or not it had already expired |
| `Jobs.JobQueue.Heartbeat` | src/llm_agent_eval/jobs.py:275-286 | extends the lease exactly while it is current, unexpired and not cancelled |
| `Jobs.JobQueue.Complete` | src/llm_agent_eval/jobs.py:288-300 | completes a job exactly under a live lease of the presented fence |
| `Jobs.JobQueue.Fail` | src/llm_agent_eval/jobs.py:302-317 | fails a job exactly under a live lease of the presented fence, and refuses an error without a type |
| `Jobs.JobQueue.RequestCancel` | src/llm_agent_eval/jobs.py:319-332 | cancels a queued job at once, flags a leased one, and leaves a terminal one |
| `Lifecycle.TerminalIsFinal` | src/llm_agent_eval/lifecycle.py:185-263 | along any legal path a complete or failed run and a closed attempt never change |
| `Lifecycle.ArcsBySource` | src/llm_agent_eval/lifecycle.py:185-263 | each status of a run, case or attempt is reached exactly from itself and its listed sources: the tables read backwards |
| `Lifecycle.CompletionPassesThrough` | src/llm_agent_eval/lifecycle.py:185-215 | a run that becomes complete was aggregating, and before that running, on the way |
| `Sessions.NextRepeat` | src/llm_agent_eval/engine.py:782-787 | the first repeat index above every stored attempt of the case |
| `SessionClosure.AttemptKeysNeverCollide` | src/llm_agent_eval/engine.py:782-815 | executing a case from any state keeps attempt keys distinct, numbers the new attempts in order inside one block of repeats above all earlier ones, and fills the block unless an exception strikes |
| `SessionReruns.RetriesStopAtFirstPass` | src/llm_agent_eval/engine.py:794-815 | a repeat is retried exactly after a completed first attempt with a failing score when retries are allowed; no retry follows one that passes everything, and otherwise the allowance is used up |
| `SessionReruns.SessionRunsExactly` | src/llm_agent_eval/engine.py:554-610 | a session that completes has run exactly the queued and interrupted cases, and the cancelled and failed ones that the stored run status says to requeue |
| `SessionReruns.NoRowStaysInProgress` | src/llm_agent_eval/engine.py:642-665 | a completed or cancelled session leaves for every metric a row that is aggregated and not in progress; it is partial exactly if fewer scores have landed than cases times repeats; on completion its gate is not applicable exactly if the metric is not gate-safe, and passes exactly if the value stored in that same row meets the gate |
| `SessionClosure.SessionCloses` | src/llm_agent_eval/engine.py:523-668 | from every state the invariant allows, a crash-free session refuses exactly complete and failed runs and otherwise lands complete or cancelled with every case and attempt closed and every metric written, or incomplete after an error |
| `SessionEndings.QuietSessionsLand` | src/llm_agent_eval/engine.py:620-722 | when nothing raises: a session asked to cancel before any one of its cases never completes, and lands in cancelled exactly if the run was not resumed while aggregating; a session not asked completes unless the agent reports a cancelled attempt; only a run resumed while aggregating ends incomplete |
| `SessionEndings.CancelledCasesSurviveExactly` | src/llm_agent_eval/engine.py:554-610 | a completed run still holds a cancelled case exactly if that case was cancelled and the run was neither cancelled nor incomplete when the session began |
| `SessionEndings.RequeueCrashLosesTheCase` | src/llm_agent_eval/engine.py:597-610 | a crash between cancelling an interrupted case and requeuing it leaves the case cancelled for good, while one just before does not |
| `SessionResume.RescoringIsLive` | src/llm_agent_eval/engine.py:1385-1417 | for repeatable evaluators and completed first attempts, re-scoring the stored attempts of a case gives exactly the scores that landed live, in order |
| `SessionResume.ResumeEquivalence` | src/llm_agent_eval/engine.py:620-665 | a run cancelled at case boundaries and resumed any number of times ends with the same tables (statuses, classifications, attempts, metric rows, gates) as the uninterrupted run |
| `SessionTotals.EveryScoreCounts` | src/llm_agent_eval/engine.py:620-665 | however often a run is cancelled at case boundaries and resumed, its finished rows aggregate the evaluator's verdict on every repeat of every case, each exactly once: their number is cases times repeats, so every row is complete, with the gate of its own value |
| `SessionRescoring.RescoringCountsExactly` | src/llm_agent_eval/engine.py:1352-1372 | the sample count of an executed case is the same live and re-scored exactly if all its first attempts completed; otherwise re-scoring counts more |
| `SessionRetries.RetriesChangeNothing` | src/llm_agent_eval/engine.py:788-847 | two sessions that agree on every first attempt have the same ending (errors included), run and case statuses, classifications, first attempts, metric rows and gates, whatever their retry limits and retries, as long as no retry raises that a case they must run can come to |
| `SessionRetries.RepeatRaisesExactly` | src/llm_agent_eval/engine.py:791-815 | a repeat whose first attempt does not raise is ended by an exception exactly if a retry is called for and one that is reached raises; with retries off, never |
| `SessionRetries.RaisingRetryFailsExactly` | src/llm_agent_eval/engine.py:788-815 | where a run without retries would complete undisturbed, allowing retries makes it incomplete exactly if a retry reached in some case the session must run raises, and otherwise it completes all the same |
| `EngineWrites.CrashStatesKeepInv` | src/llm_agent_eval/storage.py:1607-1645 | every prefix of any sequence of legal writes leaves tables that satisfy the invariant |
| `EngineWrites.CrashRecovery` | src/llm_agent_eval/engine.py:523-764 | after a crash between any two writes of any number of sessions, one crash-free session lands the run as SessionCloses says |
| `EngineWrites.FinalStaysFinal` | src/llm_agent_eval/lifecycle.py:185-263 | over any writes a finished run, a completed or skipped case and a closed attempt stay as they are, and no attempt is removed or renumbered |
| `Engine.Engine.SetRunStatus` | src/llm_agent_eval/storage.py:1607-1645 | writes the status exactly if the transition is legal |
| `Engine.Engine.SetCaseStatus` | src/llm_agent_eval/storage.py:1684-1705 | writes the status exactly if the transition is legal |
| `Engine.Engine.SetAttemptStatus` | src/llm_agent_eval/storage.py:1792-1835 | writes the status exactly if the transition is legal |
| `Engine.Engine.CreateAttempt` | src/llm_agent_eval/storage.py:1728-1747 | inserts a queued attempt exactly if its key is free |
| `Engine.Engine.ScoreTrace` | src/llm_agent_eval/engine.py:1033-1070 | one score per metric in order, or nothing if any evaluator raises |
| `Engine.Engine.RunAttempt` | src/llm_agent_eval/engine.py:859-1031 | leaves one closed attempt row with the status the invocation deserves, through legal transitions only, and returns its scores unless the session must stop |
| `Engine.Engine.RunRepeat` | src/llm_agent_eval/engine.py:791-815 | the attempts of one repeat and the sample its first attempt gives |
| `Engine.Engine.RunRepeats` | src/llm_agent_eval/engine.py:788-815 | the attempts of all repeats of a case up to the first exception, and their samples |
| `Engine.Engine.ClassifyCase` | src/llm_agent_eval/engine.py:1254-1299 | the counting loop gives FLAKY, PASSING, FAILING, ERRORED or none, and the most fundamental error category, as the samples say |
| `SessionMeaning.ClassificationMeans` | src/llm_agent_eval/engine.py:1254-1299 | a case is flaky exactly with a passing and a failing first attempt, passing or failing with one kind only, all errored with neither but somebody to blame; the category is the most fundamental one to blame |
| `SessionMeaning.CaseMeans` | src/llm_agent_eval/engine.py:817-847 | a case is cancelled exactly by a cancelled first attempt, else completed exactly by a completed one, and otherwise failed |
| `SessionMeaning.ClosedMeans` | src/llm_agent_eval/lifecycle.py:217-263 | closed is what is neither queued nor running; a closed attempt has nowhere to go |
| `SessionMeaning.AttemptMeans` | src/llm_agent_eval/engine.py:859-1031 | what came of an invocation decides the status and trace of the attempt; it has scores exactly if it was done, and stops the session exactly on an engine error or where an evaluator raises |
| `SessionMeaning.ScoresMean` | src/llm_agent_eval/engine.py:1033-1070 | scoring fails exactly if an evaluator raises, and otherwise gives each metric's verdict in its place |
| `SessionMeaning.LandedMeans` | src/llm_agent_eval/engine.py:788-847 | what lands of a case are the scores of its completed first attempts, in order |
| `SessionMeaning.ColumnMeans` | src/llm_agent_eval/engine.py:1352-1372 | a metric is aggregated from its own score of every attempt that has landed, in order |
| `Engine.Engine.RunCaseInner` | src/llm_agent_eval/engine.py:766-847 | running, repeats, classification and final status of one case, with no illegal transition |
| `Engine.Engine.WriteMetricRows` | src/llm_agent_eval/engine.py:645-654 | upserts every metric's row from what has landed, with the gate of the aggregated value on completion, and touches nothing else |
| `Engine.Engine.OrphanStale` | src/llm_agent_eval/engine.py:745-757 | orphans exactly the attempts left queued or running |
| `Engine.Engine.ReconcileStale` | src/llm_agent_eval/engine.py:739-764 | orphans open attempts, cancels running cases and names exactly those |
| `Engine.Engine.Resume` | src/llm_agent_eval/engine.py:554-610 | brings the run to running (or leaves it aggregating) through legal transitions and requeues what a resume re-runs |
| `Engine.Engine.CancelRun` | src/llm_agent_eval/engine.py:670-722 | closes every unfinished case, aggregates what landed, and lands in cancelled, or incomplete where the table has no arc |
| `Engine.Engine.RescoreStored` | src/llm_agent_eval/engine.py:1385-1417 | re-scores a case's stored first attempts in order |
| `Engine.Engine.FinalizeRun` | src/llm_agent_eval/engine.py:1330-1383 | re-scores the cases not executed, writes final rows and gates, and completes the run, or leaves it incomplete if re-scoring raises |
| `Engine.Engine.Run` | src/llm_agent_eval/engine.py:523-668 | a session leaves exactly the tables and ending of the specification, and every write it makes is recorded as legal |
| `CondTokenizer.Tokenize` | src/llm_agent_eval/evaluators.py:804-844 | the scanning loop yields the tokens of the text, or the first error and its position; it ends on every input |
| `CondTokenizer.ReadString` | src/llm_agent_eval/evaluators.py:846-862 | a quoted string with its escapes, or the unterminated-string error |
| `CondTokenizer.ReadNumber` | src/llm_agent_eval/evaluators.py:864-878 | an integer or decimal literal and where it ends |
| `CondSyntax.ClassesAre` | src/llm_agent_eval/evaluators.py:804-878 | the character classes of the tokenizer, code by code |
| `CondTokenizer.CompileCondition` | src/llm_agent_eval/evaluators.py:649-667 | compiles a text to its tree, or reports where and why it is rejected, the empty condition included |
| `CondTokenizer.CompiledIsWellFormed` | src/llm_agent_eval/evaluators.py:786-959 | whatever compiles is a tree the grammar can express: connectives join at least two operands |
| `CondParser.Parser.Parse` | src/llm_agent_eval/evaluators.py:888-893 | parses all tokens or reports trailing input |
| `CondParser.Parser.ParseOr` | src/llm_agent_eval/evaluators.py:895-902 | the loop over disjuncts does what the grammar function says, and ends on every token list |
| `CondParser.Parser.ParseAnd` | src/llm_agent_eval/evaluators.py:904-911 | the loop over conjuncts does what the grammar function says |
| `CondParser.Parser.ParseNot` | src/llm_agent_eval/evaluators.py:913-917 | a negation or a comparison |
| `CondParser.Parser.ParseComparison` | src/llm_agent_eval/evaluators.py:919-926 | at most one comparison operator between operands |
| `CondParser.Parser.ParseOperand` | src/llm_agent_eval/evaluators.py:928-959 | literals, raw_value, parentheses, and the errors |
| `CondParser.ParseErrorsPoint` | src/llm_agent_eval/evaluators.py:880-963 | a syntax error points at one of the tokens, and what its reason says is wrong with that token |
| `CondGrammar.ParserAcceptsExactly` | src/llm_agent_eval/evaluators.py:786-959 | the parser accepts a token list with a tree exactly if the grammar, stated without it, derives the tree from all the tokens; so trailing input and words other than raw_value are refused, and each list has one tree |
| `CondLanguage.TokenizerExactly` | src/llm_agent_eval/evaluators.py:804-878 | the tokenizer gives a token list exactly if the text consists of those tokens in order, each with its longest spelling, and blanks between them |
| `CondLanguage.CompilesExactly` | src/llm_agent_eval/evaluators.py:649-959 | a text compiles to a tree exactly if it consists of tokens from which the grammar derives the tree; so every text has at most one meaning |
| `CondLanguage.RefusalsPoint` | src/llm_agent_eval/evaluators.py:649-959 | a text that does not compile is refused with a reason that holds of it at the position named |
| `CondGrammar.ParsePrintedTokens` | src/llm_agent_eval/evaluators.py:888-959 | parsing the printed tokens of a well-formed tree gives the tree back |
| `CondRoundTrip.ConditionRoundTrip` | src/llm_agent_eval/evaluators.py:786-959 | printing any well-formed tree as text, with every escape and any integers, and compiling it gives the tree back |
| `CondRoundTrip.NormalisationIsStable` | src/llm_agent_eval/evaluators.py:786-959 | compiling, printing and compiling again gives the same tree for every accepted text |
| `CondRoundTrip.PrintIsInjective` | src/llm_agent_eval/evaluators.py:786-959 | two well-formed trees never share a printed text |
| `CondMeaning.NumbersCompare` | src/llm_agent_eval/evaluators.py:735-761 | each of the six comparisons of two numbers is that of their order or equality |
| `CondMeaning.StringsCompare` | src/llm_agent_eval/evaluators.py:735-761 | each of the six comparisons of two strings is that of the order at the first position where they differ |
| `CondMeaning.OtherValuesCompare` | src/llm_agent_eval/evaluators.py:623-632 | equality is that of type and content, a boolean being no number, and only two numbers or two strings are ordered: booleans and mixed types are undecided |
| `CondMeaning.MissingCompares` | src/llm_agent_eval/evaluators.py:735-745 | with a missing operand nothing is decided but that a missing value equals null |
| `CondMeaning.DecimalsDenote` | src/llm_agent_eval/evaluators.py:864-878 | a decimal literal denotes the number whose digits it writes, with the point moved left, and its negative with a sign |
| `CondMeaning.LiteralsDenote` | src/llm_agent_eval/evaluators.py:677-684 | every other literal denotes what it holds |
| `CondMeaning.AtomsMean` | src/llm_agent_eval/evaluators.py:666-691 | raw_value stands for the observed value and a literal for its own, and a condition is met exactly by the value true |
| `CondMeaning.ComparisonMeans` | src/llm_agent_eval/evaluators.py:694-703 | a comparison is that of its two operands, in their order |
| `CondMeaning.ThresholdsMean` | src/llm_agent_eval/evaluators.py:649-761 | raw_value compared with a whole number is met exactly if the observed number is so ordered, for all six operators and all numbers |
| `CondMeaning.TextsMean` | src/llm_agent_eval/evaluators.py:649-761 | raw_value compared with a literal text is met exactly if the observed text is so ordered, for all six operators and all texts |
| `CondMeaning.ConnectivesMean` | src/llm_agent_eval/evaluators.py:706-777 | a conjunction is false if some operand is, else undecided if some operand is, else true; dually for a disjunction |
| `CondMeaning.DefiniteConnectives` | src/llm_agent_eval/evaluators.py:706-783 | over operands with definite answers a conjunction is met exactly if all are met, a disjunction exactly if some is, and a negation exactly if its operand is not |
| `CondMeaning.NegationsMean` | src/llm_agent_eval/evaluators.py:725-783 | a negation is undecided exactly if its operand is, and met exactly if the operand is false, zero, null or empty |
| `CondEval.EvaluateConnective` | src/llm_agent_eval/evaluators.py:706-722 | the accumulating loop evaluates a connective from its neutral element, left to right |
| `CondEval.MissingNeverPassesByAccident` | src/llm_agent_eval/evaluators.py:649-783 | in conditions of comparisons of atoms without null, a definite result on a missing value is the result on every value |
| `CondEval.AtomIsMonotoneExactly` | src/llm_agent_eval/evaluators.py:735-761 | a comparison of atoms may be decided on a missing value only as for every value, exactly unless it tests raw_value for equality with null |
| `CondEval.BareOperandPassesWhenMissing` | src/llm_agent_eval/evaluators.py:649-769 | a conjunction of plain conditions and bare raw_values passes on a missing value though it fails on some value exactly if raw_value is an operand and every plain operand passes on a missing value |
| `CondEval.BareOperandIsFalseUnderOr` | src/llm_agent_eval/evaluators.py:649-777 | a disjunction of such operands never passes by accident; it is false on a missing value though some value meets it exactly if raw_value is an operand and every plain operand is definitely false |
| `CondEval.NegatedOperandExactly` | src/llm_agent_eval/evaluators.py:725-783 | a negation never passes by accident; it is false on a missing value though some value meets it exactly if it negates the bare raw_value |
| `CondEval.BareOperandsDecideExactly` | src/llm_agent_eval/evaluators.py:706-777 | for either connective, when the neutral answer on a missing value is not the answer on every value, and that the deciding answer always is |
| `CondEval.SteadyAnswersAreFinal` | src/llm_agent_eval/evaluators.py:706-777 | however deep its connectives and bare raw_values are nested, a condition whose bare operands and null tests stand only where their answer is not the one asked for gives on a missing value the answer it gives on every value |
| `CondEval.PlainIsSteady` | src/llm_agent_eval/evaluators.py:706-777 | plain conditions are all of this kind, for either answer |
| `Scoring.Normalize` | src/llm_agent_eval/evaluators.py:1250-1258 | a number inside the metric's range scores its distance from the lower end as a share of the range, on a range of one point 1 or 0; anything else is in [0,1], and 0 if it is no number |
| `Scoring.NormalizeClamps` | src/llm_agent_eval/evaluators.py:1250-1258 | at or below the range the score is 0, at or above it 1 |
| `Scoring.MissingScore` | src/llm_agent_eval/evaluators.py:569-598 | on_missing decides the status, whether it passed and the score (1, 0 or none), for this metric and case with the given retry flag |
| `Scoring.ScoreCustom` | src/llm_agent_eval/evaluators.py:364-408 | ERROR exactly for a result that is no number, a number out of range or under a rule without a range, or evidence references that are no list or name an event not selected; PASS exactly for any other result at or above the threshold, scored by its share of the range |
| `Scoring.ScoresAreWellFormed` | src/llm_agent_eval/evaluators.py:1141-1335 | every score is PASS exactly when passed, and has a value in [0,1] exactly unless ERROR or SKIPPED |
| `Scoring.CrashesExactly` | src/llm_agent_eval/evaluators.py:1141-1216 | scoring raises an unhandled exception on exactly one kind of input: numeric scoring of an empty list |
| `Scoring.BinaryScoring` | src/llm_agent_eval/evaluators.py:1141-1216 | under a condition that compiles, a value passes exactly if it meets it, a list exactly if all its values do; the score is 1 exactly on passing, else 0 |
| `Scoring.NumericScoring` | src/llm_agent_eval/evaluators.py:1184-1258 | a number passes exactly if it lies in the range, scored by its place in it, and any other value fails with 0 |
| `Scoring.NumericLists` | src/llm_agent_eval/evaluators.py:1141-1216 | a list passes exactly if all its values lie in the range, scored by the mean of their scores |
| `Scoring.CategoricalScoring` | src/llm_agent_eval/evaluators.py:1190-1216 | a category passes exactly if its text is listed, scored by the place of its first listing; a list of categories is an error |
| `Scoring.ErrorsExactly` | src/llm_agent_eval/evaluators.py:1141-1335 | a value that is there is an ERROR exactly for a condition asked for but empty or not compiling, or for a categorical list |
| `Stats.PercentileIsNearestRank` | src/llm_agent_eval/evaluators.py:611-616 | at least the share p of the values lies at or below the percentile and less than p strictly below, and it is one of the values |
| `Stats.PercentileIsMonotone` | src/llm_agent_eval/evaluators.py:611-616 | percentiles grow with p |
| `Stats.PercentileEnds` | src/llm_agent_eval/evaluators.py:611-616 | shares at or beyond the ends pick the least and the greatest value |
| `Aggregation.AggregatePermutes` | src/llm_agent_eval/evaluators.py:411-478 | the aggregate does not depend on the order in which scores land |
| `Aggregation.AggregateIgnoresRetries` | src/llm_agent_eval/evaluators.py:435-454 | an on_retry_override score changes nothing, wherever it lands |
| `Aggregation.NothingVanishes` | src/llm_agent_eval/evaluators.py:430-478 | n_cases is the sum of passes, failures, errors and skips |
| `Aggregation.AggregateBounds` | src/llm_agent_eval/evaluators.py:430-478 | pass rate, mean and value (but for sums) lie in [0,1], and exist exactly when something counts |
| `Aggregation.GateOf` | src/llm_agent_eval/evaluators.py:481-502 | a gate-safe metric passes exactly if it has no gate or a measured value within the gate's bounds; any other metric is not gated |
| `Aggregation.UnmeasuredFailsItsGate` | src/llm_agent_eval/evaluators.py:488-494 | a gated metric whose scores are all skipped, excluded errors or retries fails its gate |
| `Aggregation.OrderStatisticsAreOrdered` | src/llm_agent_eval/evaluators.py:455-478 | min is at most p50 and p50 at most p95 |
| `Aggregation.ExcludingErrorsRaisesPassRate` | src/llm_agent_eval/evaluators.py:436-447 | excluding errors never lowers the pass rate |
| `AggregateMeaning.AggregateMeans` | src/llm_agent_eval/evaluators.py:411-478 | the aggregate is refused exactly for a score of another metric; its counts are those of the positions they speak of, its state is as asked, and its rates exist exactly if a score counts and are then the pass share, the mean, and the mean, sum, least value or nearest-rank percentile that the metric asks for |
| `Kappa.CohenKappa` | src/llm_agent_eval/calibration.py:39-52 | the loop over categories, in any order, computes kappa as the exact agreement and chance-agreement counts define it |
| `Kappa.KappaBounds` | src/llm_agent_eval/calibration.py:39-52 | kappa exists exactly for a non-empty list, lies in [-1,1], is 1 exactly under full agreement, and chance agreement 1 forces observed agreement 1 |
| `Kappa.KappaMeasures` | src/llm_agent_eval/calibration.py:39-52 | kappa is (observed - expected) / (1 - expected), with the share of agreeing pairs observed and, expected, the share of draws, of one pair for the human and one for the judge, that name the same label; and 1 where every draw does |
| `Kappa.AgreementMeans` | src/llm_agent_eval/calibration.py:20-48 | two labels agree as Python values do, with true as 1 and false as 0, and are of one category only if they have one kind too |
| `Kappa.KappaIsSymmetric` | src/llm_agent_eval/calibration.py:39-52 | kappa is the same with the raters exchanged |
| `Kappa.ObservedIsDiagonalExactly` | src/llm_agent_eval/calibration.py:43-48 | observed agreement counts pairs of one category exactly unless some pair agrees across kinds, as true and 1 do |
| `Layout.LayoutBlocks` | src/llm_agent_eval/dashboard.py:637-650 | the loop places blocks as the flow says |
| `Layout.LayoutIsPlacement` | src/llm_agent_eval/dashboard.py:637-650 | for spans in 1..columns every block is inside the grid, in row-major order, and no cell is covered twice |
| `Layout.LayoutIsMinimal` | src/llm_agent_eval/dashboard.py:637-650 | no order-preserving placement puts any block earlier or uses fewer rows |
| `Bindings.ReferenceGrammarExactly` | src/llm_agent_eval/dashboard.py:64-67 | a text denotes a reference exactly if it is the printed reference, or that and a final newline |
| `Bindings.IdentsAre` | src/llm_agent_eval/dashboard.py:67 | a name is a letter or underscore and then letters, digits and underscores |
| `Bindings.ReferenceErrorsExactly` | src/llm_agent_eval/dashboard.py:599-634 | following a reference fails exactly on what the validator calls an invalid binding or an unknown run field |
| `Bindings.ValuesResolve` | src/llm_agent_eval/dashboard.py:623-634 | any bound value stands for itself unless it begins with "$"; then it resolves to what is stored under the reference it denotes, to null where nothing is stored or no run is there, and to an error exactly if it denotes none or an unknown run field |
| `Bindings.ReferencesResolve` | src/llm_agent_eval/dashboard.py:599-634 | "$filters.n" and "$selection.n" give the value stored under n and null without one; "$run.n" gives the field of the run, null without a run, and an error for an unknown field |
| `Bindings.LiteralsResolve` | src/llm_agent_eval/dashboard.py:1103-1106 | whatever does not begin with "$" resolves to itself |
| `Bindings.DeclaredTypesAre` | src/llm_agent_eval/dashboard.py:78-101 | the type of every kind of filter and every field of a run |
| `Bindings.LiteralsAreTyped` | src/llm_agent_eval/dashboard.py:337-371 | the type of every literal, by its shape; compound values are no bindings |
| `Bindings.ReferencesAreTyped` | src/llm_agent_eval/dashboard.py:347-360 | a reference to a selection or a run field has its declared type, and is unknown exactly if none is declared |
| `Bindings.FilterReferencesAreTyped` | src/llm_agent_eval/dashboard.py:339-346 | a reference to a filter has the type of the first filter of that id, and is unknown exactly without one |
| `Bindings.OtherDollarsAreInvalid` | src/llm_agent_eval/dashboard.py:329-336 | any other text that begins with "$" is an invalid binding |
| `Bindings.InputsAccept` | src/llm_agent_eval/dashboard.py:374-402 | which types an input takes: its own, any literal text for an identifier, any identifier for a text, and the listed texts for an enumeration |
| `Bindings.CheckedBindingResolves` | src/llm_agent_eval/dashboard.py:374-402 | a binding that type-checks resolves without error to null, a literal of its input's shape, or a value of its input's type |
| `Dashboard.ValidateFilters` | src/llm_agent_eval/dashboard.py:448-461 | reports duplicate ids and unknown types, filter by filter |
| `Dashboard.ValidateInputs` | src/llm_agent_eval/dashboard.py:466-501 | reports raw-scan components, bad spans, unknown inputs and missing required inputs of a block |
| `Dashboard.PublishSelections` | src/llm_agent_eval/dashboard.py:502-518 | collects the selections a block publishes and reports missing names and conflicts |
| `Dashboard.TypeCheckBlock` | src/llm_agent_eval/dashboard.py:521-549 | reports every binding that does not satisfy its input |
| `Dashboard.ValidateDefinition` | src/llm_agent_eval/dashboard.py:405-552 | reports the complete problem list, in order |
| `Dashboard.ValidateHeader` | src/llm_agent_eval/dashboard.py:405-447 | reports the problems of the definition itself, in order |
| `Dashboard.ResolveDefinition` | src/llm_agent_eval/dashboard.py:1042-1127 | rejects a definition with problems, and otherwise resolves it: every block in its place with its component, span and names, and under each name what was written there stands for, as ValuesResolve says; or an error of one of them |
| `Dashboard.BlocksCarry` | src/llm_agent_eval/dashboard.py:1098-1110 | resolving succeeds with every block carrying what its bindings stand for, or fails with the error of one of the values or of an unregistered component |
| `DashboardSoundness.AcceptsExactly` | src/llm_agent_eval/dashboard.py:405-552 | the validator accepts a definition exactly if its selections can be typed so that everything in it is well typed |
| `DashboardSoundness.WellTypedIsAccepted` | src/llm_agent_eval/dashboard.py:462-518 | a well-typed definition has one typing of its selections, and the validator finds it |
| `DashboardSoundness.BindingSoundness` | src/llm_agent_eval/dashboard.py:1098-1109 | an accepted definition resolves without error in every typed environment, each binding to what its written value stands for: null, a fitting literal, or a value of its input's type |
| `DashboardSoundness.NullKeepsBlockAcceptable` | src/llm_agent_eval/dashboard.py:495-535 | replacing a bound value by null keeps a block acceptable exactly if the value does not name a selection, required inputs included |
| `DashboardSoundness.SelectionMustBeNamed` | src/llm_agent_eval/dashboard.py:502-512 | a definition is rejected if a selection input, required or not, is unbound or bound to anything but a name |
| `ArtifactRuns.CrashSafety` | src/llm_agent_eval/artifacts.py:50-156 | under any interleaving and any crashes every ready row has a published file of its size and digest, and every referenced artifact its row |
| `ArtifactRuns.ReadersSeeWhatWasPut` | src/llm_agent_eval/artifacts.py:82-104 | whatever others do between looking up the row and opening the file, a reader gets NotFound exactly without a row, and otherwise the bytes that were put or, exactly if the file is gone by then, Unavailable; never Corrupt or other bytes, and the bytes as long as the row is there |
| `ArtifactRuns.FilesAreChecked` | src/llm_agent_eval/artifacts.py:98-104 | a file is returned exactly if its size and digest are those of the row, and is corrupt otherwise |
| `ArtifactRuns.ProcessesAdvance` | src/llm_agent_eval/artifacts.py:50-156 | a step takes one process from one stage to the next and leaves the others; which stages follow which |
| `ArtifactRuns.RowsChange` | src/llm_agent_eval/artifacts.py:66-156 | rows come by commits alone and go by deleting unreferenced artifacts alone; references are added to artifacts with a row and stay |
| `ArtifactRuns.UnavailableIsForGood` | src/llm_agent_eval/artifacts.py:91-104 | an artifact once found unavailable has lost its row and never gets one again |
| `ArtifactRuns.DeletionOvertakesReader` | src/llm_agent_eval/artifacts.py:82-156 | deleting an unreferenced artifact between the two halves of a get makes that get end in Unavailable |
| `ArtifactRuns.ReadIsSureExactly` | src/llm_agent_eval/artifacts.py:82-156 | for an artifact with a row, every run between the two halves of a get lets it return the bytes exactly if the artifact is referenced |
| `ArtifactRuns.ReferencedIsForever` | src/llm_agent_eval/artifacts.py:133-156 | once referenced, an artifact keeps its row and its bytes through everything that follows |
| `ArtifactRuns.RecoveryRemovesNoRowsFile` | src/llm_agent_eval/artifacts.py:112-125 | recovery never removes the file of a row |
| `ArtifactRuns.UnreadableIsDeleted` | src/llm_agent_eval/artifacts.py:125-130 | an artifact listed at one moment of a run, looked up at a later one and its file opened still later, is read, or else it has lost its row by the end and was not referenced when listed |
| `ArtifactRuns.RecoveryLeavesRowsFiles` | src/llm_agent_eval/artifacts.py:112-131 | when recovery ends, files and rows coincide exactly unless the file of an artifact deleted meanwhile is still there |
| `Artifacts.ArtifactStore.Put` | src/llm_agent_eval/artifacts.py:50-80 | adds the file and its row together, or on any failure leaves both as they were |
| `Artifacts.MediaTypesAre` | src/llm_agent_eval/artifacts.py:54-55 | a media type is two non-empty parts of media characters with a slash between |
| `Artifacts.ArtifactStore.Get` | src/llm_agent_eval/artifacts.py:91-104 | looks up the row, and after any steps of others opens the file: NotFound exactly without a row, otherwise the bytes put or, exactly if the file is gone, Unavailable, which happens to no referenced artifact and to none that still has its row |
| `Artifacts.ArtifactStore.DeleteUnreferenced` | src/llm_agent_eval/artifacts.py:133-156 | deletes exactly an unreferenced artifact, row and file |
| `Artifacts.ArtifactStore.Recover` | src/llm_agent_eval/artifacts.py:112-131 | removes exactly the files without a row and counts them; of the artifacts listed it reports exactly those it does not get while others go on, all of them deleted meanwhile and none referenced, and none at all if nobody interferes |
| `InstallKeyRuns.InstallersAgree` | src/llm_agent_eval/install_state.py:62-90 | for any number of concurrent, possibly crashing installers all callers that return hold the same 32 bytes, those of the destination |
| `InstallKeyRuns.DestinationNeverChanges` | src/llm_agent_eval/install_state.py:62-90 | once the destination exists neither its entry nor its content ever changes |
| `InstallKeyRuns.DestinationIsComplete` | src/llm_agent_eval/install_state.py:71-83 | a destination the installers created is a complete private key, even after power losses |
| `InstallKeyRuns.KeysAre` | src/llm_agent_eval/install_state.py:37-59 | a file reads as a key exactly if it is regular, readable by its owner only, and 32 bytes long |
| `InstallKeyRuns.InstallersAdvance` | src/llm_agent_eval/install_state.py:62-90 | the stages of an installer, and that no step takes it from one to any but the next |
| `InstallKeyRuns.InstallersEnd` | src/llm_agent_eval/install_state.py:62-90 | an installer returns only a key it found, linked or adopted, fails only before its link or on what is no key, and leaves no staging name unless it crashed |
| `InstallKeyRuns.FilesChange` | src/llm_agent_eval/install_state.py:66-76 | staging makes a private, empty file under a name of its own, and a power loss leaves of every file what was synced |
| `InstallKeyRuns.CorruptKeyFailsClosed` | src/llm_agent_eval/install_state.py:37-59 | a destination that is no key is never replaced, and nobody returns a key |
| `InstallKeyRuns.PowerLossSparesAgreementExactly` | src/llm_agent_eval/install_state.py:62-90 | once a caller has returned, every run after a power loss leaves all returned keys the same exactly if the loss spared the directory entry |
| `InstallKeyRuns.InstallReturnsItsOwnKey` | src/llm_agent_eval/install_state.py:62-90 | without a destination a new installer has a run of its own that ends with it holding any key it draws, while earlier callers keep theirs |
| `InstallKeyRuns.LostEntryBreaksAgreement` | src/llm_agent_eval/install_state.py:62-90 | if someone has returned and the destination is gone, some run ends with two callers holding different keys |
| `InstallKey.Installation.Publish` | src/llm_agent_eval/install_state.py:77-87 | links the synced file or adopts the winner's key, and removes the staging name |
| `InstallKey.Installation.Adopt` | src/llm_agent_eval/install_state.py:79-86 | the loser reads the published key, or raises on what is no key, and leaves neither process nor staging name behind |
| `InstallKey.Installation.LoadOrCreateKey` | src/llm_agent_eval/install_state.py:62-90 | whatever others do meanwhile, a caller that returns holds the published key; an existing destination is left as it is |
| `Pointer.ResolvePointer` | src/llm_agent_eval/datasets.py:28-49 | the walking loop resolves a pointer, with MISSING and the leading-slash error |
| `Pointer.SplitMeans` | src/llm_agent_eval/datasets.py:36 | the tokens have no slash and, joined with slashes, are the text |
| `Pointer.IntegersExactly` | src/llm_agent_eval/datasets.py:42-46 | a token reads as an integer exactly if, without the blanks around it, it is a sign or none and digits with single underscores between them, and that is the number they write |
| `Pointer.UnescapeEscape` | src/llm_agent_eval/datasets.py:37 | the two replacements undo escaping for every token, with any mix of "~" and "/" |
| `Pointer.PointerRoundTrip` | src/llm_agent_eval/datasets.py:28-49 | for any document and any fitting path of keys and canonical indices, escaping, joining and resolving gives the nested value, or MISSING where there is none |
| `Pointer.TextIsInjective` | src/llm_agent_eval/datasets.py:28-49 | distinct paths of keys have distinct pointer texts |
| `Pointer.LaxIndicesExactly` | src/llm_agent_eval/datasets.py:42-46 | for every array and token: a canonical index reaches its item, and any other token reaches one exactly if it reads as an integer in reach of the array that is negative or not canonically written |
| `Pointer.LaxIndices` | src/llm_agent_eval/datasets.py:42-46 | three such tokens: "-1", "00" and "+0" |

## Left out

- Actor authorization, workspace scoping, redaction, SQL text and the differences between SQLite and PostgreSQL; each workspace transaction is one atomic step.
- Clock strings: instants are integers, and string order is taken to agree with time order.
- Digests and command fingerprints: digests are ideal (two contents never share one), and a command stands for its own digest.
- Fresh identifiers are parameters required to be unused; reading `pending_outbox` back, which breaks ties by random id, and acknowledging outbox rows.
- Jobs.JobQueue.Publication: the body's writes are opaque data, because what a worker writes is not the queue's concern.
- Floating-point rounding, infinities and NaN: scores, percentiles and kappa use exact arithmetic; a decimal literal keeps its text and denotes that decimal.
- Kappa.KappaBounds: labels are exact values, so negative zero, whose JSON text differs from that of zero, is not among them.
- Letters and digits outside ASCII in the words and numbers of a condition, Python's recursion limit on deeply nested conditions, and its refusal to read integer literals of more than 4300 digits, which raises a plain ValueError while a condition is compiled.
- CondTokenizer.CompileCondition: messages are reasons and positions, not texts. The empty test knows every character that `strip()` removes.
- CondEval.BareOperandsDecideExactly: exact for plain conditions and bare raw_values under one connective or negation. For connectives nested to any depth SteadyAnswersAreFinal goes one way, because whether a bare operand matters there depends on which values satisfy the comparisons around it together; comparisons of anything but atoms are in neither.
- Scoring.CrashesExactly: exact in exact arithmetic and for conditions whose integer literals Python reads; an integer too large for a float also raises when it is scaled or averaged, and a longer literal when its condition is compiled.
- Evaluator kinds other than scalar, list, category and custom scoring: trace rules, regular expressions, JSON schema, judges, selectors and occurrence rules; the engine takes evaluators as parameters.
- Evidence identifiers, confidence intervals, cost summaries, warnings, remote job states, case metric rows and error texts of attempts.
- Sessions.NextRepeat: attempts are stored in creation order, which for one case is the order of repeat and attempt.
- SessionResume.ResumeEquivalence: cancellation is at case boundaries and every first attempt completes, because re-scoring counts attempts that did not, as RescoringCountsExactly states.
- The projects, smoke tests, tiers and `run_case` entry of the engine; the attempt status budget_exceeded is in the tables but nothing modelled produces it.
- SessionClosure.SessionCloses: an operating system error between an attempt's insert and its running status, or an exception other than EngineError while its events are ingested, ends the session with the run incomplete and that attempt still open; as an outcome of a session this is not modelled. As a state it is among those CrashRecovery starts from, so the next session orphans the attempt.
- EngineWrites.CrashStatesKeepInv: the constraint that an attempt key is unique is the table's primary key; setters follow the transition tables.
- Registry contents and component payloads of dashboards, the filling of filter defaults and the latest run, problem messages, and literal inputs of a component's default.
- DashboardSoundness.BindingSoundness: filters, selections and run fields are taken to hold values of their declared types or null; request parameters are not checked against them by the code.
- Symbolic links in the artifact directory, directory creation, artifact ids that are not 32 hexadecimal digits, and a commit that fails after it took effect.
- ArtifactRuns.CrashSafety: recovery and deletion check that a file exists before they unlink it, and when they race for one file the later raises FileNotFoundError; the steps of the model remove what is there and do not fail.
- Artifacts.ArtifactStore.RemoveUncommitted: other processes take their steps while recovery reads, not between its removals; RecoveryRemovesNoRowsFile and RecoveryLeavesRowsFiles speak of every interleaving.
- ArtifactRuns.ReferencedIsForever: adding a reference and deleting an unreferenced artifact are single transactions on the same tables.
- InstallKeyRuns.InstallersAgree: agreement is stated for runs in which no power loss drops the destination's directory entry, because the directory is not synced; PowerLossSparesAgreementExactly gives both directions.
- InstallKey.Installation.LoadOrCreateKey: checking for a symbolic link, opening and reading the destination is one step.
- Pointer.ResolvePointer: a token is read as `int()` reads ASCII text (blanks around it, a sign, single underscores between digits); tokens with Unicode digits or blanks, and the length limit on integer texts, are not modelled.
- Web interface, routes, command line, gateways, exports, acquisition, PostgreSQL bootstrap, agent fixtures, judge readiness records and the worker process.
