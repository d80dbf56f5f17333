# DriftSQL: a verified model

DriftSQL repairs SQL that a schema change has made stale. A language model works through a fixed
set of tools; a *tool mask*, recomputed from the whole event history after every call, decides which
of them may be dispatched. Around that loop stand planners that rewrite queries and databases
together, a controller that submits on the model's behalf, and the programs that measure and train
it. This project models those parts in Dafny and proves what they guarantee.

The project has six parts.

**The tool mask as a transition system.** `StatePolicy` has the scans of the program and a
seven-field `Tracker` that reads the same history in constant memory. `RecoveryScan`, `ToolMask` and
`ChatMask` prove that the scans, the event selector and the transcript selector all compute what the
tracker says. `EnforcedRuns` then proves what holds in every episode against a model that may propose
any tool at any time and tools that may observe anything: how often each tool is permitted, the order
of recovery, when submission is forced, and that no episode can be locked out. `MaskMeaning` says what the mask is
on the calls themselves, tool by tool, without the tracker, and `RunMasks` says it on the events of an episode.
`AgentLoop` is the
dispatch step as an object with mutable fields; its calls produce exactly those runs, and the
duplicate guard is analysed there. `KeyActionMask` is the training mask over the same events.

**Queries that follow a migration.** `Database` has tables with rows and the physical operations of
an audited diff; `Queries` has one SELECT scope (ordered bindings, stars, WHERE, ORDER BY, LIMIT) with
name resolution and evaluation. `Resolution`, `ColumnRewrites`, `NameReading`, `TableRewrites` and
`Migrations` prove that rewriting the query and migrating the database commute, for one operation and
for any ordered chain, and model the chain of files in which the program materialises it; `NameReading`
says in terms of names when the rewriter reads a reference as the database does. `ProjectionContract`
and `ProjectionMeaning` do the same for the wildcard planner. `AliasedPlans`, on top of `Blocks`, decides
for which aliases a plan is right on every database of a schema, and `Counterexamples` has small databases on
which the conditions fail. `SchemaReconstruction` compares replaying a diff on the schema alone with reading
the schema of the migrated database, and `RecordedTypes` decides it for whole diffs. `FreshNames` is the choice of
a replacement name.

**Queries that the text rewriter changes.** The audited repair does not use the rewriters above: it renames every
identifier in the text of the query. `QueryNames` is that renaming on syntax trees, and says when it is
what the column or the table rewriter does; `QueryText` ties it to the text rewriter, for every layout and quoting
of a query's text. `NameFollowing` reduces "the same rows on all data" to where each name of the query is found
afterwards. On it, `TextRenames` has the exact conditions for one column and one table, and `MixedRepair` those for
the whole audited repair of a diff in any order, with the schema that the program hands to the wildcard planner.
`FreshDiffs` drops the last hypothesis for diffs whose new names are new, and `TextCounterexamples` has small
databases on which the repair goes wrong. `RepairOffers` closes the circle: the text that inspecting a diff offers
spells that repair.

**The identifier rewriter.** `SqlLexer` has the rewriter's own token lists and proves that lexing
and rendering are inverse. `IdentifierRewriter` is the index loop, `RewriterAlgebra` its algebra, and `RewriterLaws`
its six laws on characters, which no other function obeys. `SchemaRepair` is the loop over an audited diff.

**Submission and budgets.** `SubmitController` is the batch controller, its online form and its twin
over recorded audits; `SubmissionTable` gives every decision of both in terms of the events. `BudgetRunner` updates
many episode objects in place, turn by turn, and `RunLedgers` is the account of a finished run in terms of what the
tokenizer, the model and the parser answered. `Sampling` has the round-robin loop, and `DatabaseSample` groups and orders the rows around it.

**Printing and finding actions.** `Json` prints and parses, `ToolCalls` scans text for calls,
`ActionText` prints an action, finds it again and removes it, and `Removal` says which characters
removal deletes when the calls of a text overlap. `JsonTexts`, `CallTexts` and `RemovalTexts` spell out the texts
themselves: separators and escapes, payloads and tags, and what removal takes out besides the calls.

`Prelude`, `Strings` and `SchemaDiffs` are shared vocabulary.

## Hypotheses

- Tool calls are sequential, one event per call.
- A dispatched tool never reports `action_masked` itself; the program's own mask response sets the
  metrics flag and the observation flag together. Histories with this property are called coherent; the
  results on enforced runs and live histories speak of them, the event selector of every history.
- Progress is stated for a tool set that contains the seven tools. The agent loop ends an episode on
  any submit call, permitted or masked, so the submission properties speak of permitted calls.
- SQLite, the SQL parser and printer, the tokenizer, the language model, SHA-256 and the reading of
  a function tag's attributes are parameters: functions about which only the stated facts are used.
- Case folding is ASCII in the relational part and where texts spell queries; the lexer alone takes any fold,
  letters and digits such that every letter is also a letter-or-digit.

Where the code and its documentation disagree, the model follows the code. The docstring of
`is_exact_duplicate_retrieval` promises that the guard answers for a completed retrieval. By
`AgentLoop.GuardSoundExactly` this holds, for each of the four retrieval tools and any arguments, with
masking on or off, exactly when none matches, or the first logged call that matches the retrieval carries its
arguments and its tool returned. A masked or invalid call is logged without arguments and matches the empty
object, which is all that `get_schema_version` and `inspect_schema_diff` ever take; a call whose tool raised is
logged with its arguments and without an error.

## Results that are negative or conditional

- `AgentLoop.GuardAnswersUnseenDiff`: a masked call is logged without arguments, which the guard reads as
  an empty object. The diff that recovery demands can then be answered by the guard and counted as
  done although no diff was ever retrieved.
- `AgentLoop.GuardAnswersRaisedDiff`: the same happens when the first diff reached the tool and raised.
- `RewriterAlgebra.OpenQuoteLosesText`: an unterminated quoted identifier loses its last character
  before it is compared. `RewriterAlgebra.SubstitutionExactly` gives the exact condition.
- `NameReading.ColumnRewriteByNames`: unqualified names are looked up in the whole schema, also in tables
  the query does not use, so a rewrite can miss a reference; and the new name is fresh in its own table only, so
  another table that the query reads may have it. `NameReading.NamesakesExactly` gives the condition by names
  under clear aliases. `Counterexamples.UnusedTableHidesReference` and `TextCounterexamples.NewNameMeetsNamesake`
  are instances.
- `TextRenames.ColumnTextRenameExactly`: the text rewriter also renames other tables' columns, tables, aliases and
  functions of the same name. `TextCounterexamples.TextRenameHitsNamesake` is a query that it breaks and that the
  column rewriter, by `TextCounterexamples.ColumnRewriteSparesNamesake`, does not.
- `MixedRepair.RenamedColumnLosesStar`: the planner is given the columns of the source, so when the diff also
  renames a column, an expanded wildcard asks for a name that is gone. `TextCounterexamples.RenamedColumnUnderStar` is
  an instance.
- `MixedRepair.RenamedTableRefused` and `MixedRepair.UnknownTableRefused`: as soon as a diff adds a column, no query that
  reads a renamed table is repaired, and no query at all if the column goes to a table under its new name.
- `ProjectionMeaning.PlanPreservesExactly`: under clear aliases the plan preserves the result exactly when no
  unqualified reference is also the name of an added column; `Counterexamples.AddedColumnCapturesReference`
  is an instance.
- `AliasedPlans.PlanPreservesEverywhereExactly`: an alias may be another table's name. Then the plan is right on
  every database of the schema exactly when, besides, each starred qualifier's dictionary table has the
  column list of the table that the query binds. In `Counterexamples.ShadowedAliasMisreads` it does not,
  and the plan returns the two values of a row in the wrong order.
- `SchemaReconstruction.DefaultTypesDiffer` and `SchemaReconstruction.TypesAgreeExactly`: the replay and the migration
  use different default types, only the replay retypes a renamed column, and only the migration turns a
  column replaced without a type into TEXT; the second gives the condition for every operation.
- `SubmitController.BlankSqlDiffers`: a blank statement after the diff is skipped by the controller, which then
  accepts a later statement, while the recorded audit refuses. `SubmitController.RecordedAgreesExactly` says
  for which logs the two agree.
- `EnforcedRuns.EmptySchemaRepeats` and `EnforcedRuns.ExecutionOnlyForcesNothing`: in execution-only mode a schema
  that shows nothing can be asked for again and again, and tools that show and validate nothing keep
  submission shut for ever.
- `BudgetRunner.DefaultLimits`: with the shipped numbers the turn limit and the tool budget can never end an
  episode, because three executions are used up first.
- `Removal.OverlapRestoresText`: in a printed call whose argument mentions a function tag both calls are found,
  and removing them leaves the end of the payload standing. `Removal.RemovalExactly` gives the exact
  condition, for every text.

## Model

| member | source | states |
|---|---|---|
| `RecoveryScan.ScanIsAutomaton` | driftsql/integrations/state_policy.py:44-99 | for every strictly increasing numbering of events, the nested backwards scan returns what the three-phase automaton demands, and its pair flag means a version followed by a diff; so numbering and masked events are irrelevant |
| `ToolMask.ScansAreTracked` | driftsql/integrations/state_policy.py:44-112 | one-shot, recovery, validation and clarification scans over a log equal the tracker's fields |
| `ToolMask.SelectDynamicToolNames` | driftsql/integrations/state_policy.py:289-364 | on every history, in every mode, the selected set is the mask that its calls mean, tool by tool (`MaskMeaning.IsMask`), and it is read off a constant-memory tracker; on coherent histories off that of the observations alone |
| `MaskMeaning.AllowedMeans` | driftsql/integrations/state_policy.py:303-364 | what is read off the tracker is the mask that the calls mean: a version or a diff while some unexplained failure lacks it, submission while the newest execution is marked safe, knowledge and execution after a clarification that nothing follows up, and otherwise every configured tool but the one-shot tools called before |
| `RunMasks.NextCall` | driftsql/integrations/state_policy.py:289-364 | the next call of an enforced run is permitted exactly when its tool is in that mask |
| `RunMasks.AfterClarification` | driftsql/integrations/state_policy.py:227-237 | on events: after a permitted clarification that nothing follows up, with no recovery due and nothing to submit, exactly knowledge, while it is configured and uncalled, and execution are permitted; with knowledge first, execution only when knowledge is not |
| `RunMasks.OtherwiseUncalled` | driftsql/integrations/state_policy.py:324-364 | on events: with every clarification followed up, no recovery due and nothing to submit, exactly the configured tools are permitted, except the five one-shot tools that were called before |
| `ChatMask.SelectDynamicToolSchemas` | driftsql/integrations/state_policy.py:438-514 | the transcript selector keeps, in order, the schemas of the mask that the answered calls mean, which are those the tracker of the collected triples allows |
| `ChatMask.CollectExactly` | driftsql/integrations/state_policy.py:450-461 | the collected triples are exactly the tool replies that answer a message with one named call, nothing but text in between |
| `ChatMask.MasksAgree` | driftsql/integrations/state_policy.py:438-514 | for every episode and every transcript of it, with any call-free messages before, between and after the calls, the transcript mask has the names that the tracker of the observations allows; on coherent histories these are what the event selector returns |
| `EnforcedRuns.MaskedCallsAreInvisible` | driftsql/integrations/state_policy.py:22-31 | inserting or deleting a masked call anywhere leaves every later mask unchanged |
| `EnforcedRuns.PairFlagIsRecovery` | driftsql/integrations/state_policy.py:60-75 | the pair flag holds exactly when a permitted version precedes a permitted diff |
| `EnforcedRuns.PermissionBounds` | driftsql/integrations/state_policy.py:324-340 | in every enforced run of any length schema, clarification and knowledge are permitted at most once, version and diff at most twice |
| `EnforcedRuns.ExecutionOnlyBounds` | driftsql/integrations/state_policy.py:303-323 | in execution-only mode every one-shot tool but the schema is permitted at most once |
| `EnforcedRuns.SchemaBoundExactly` | driftsql/integrations/state_policy.py:303-323 | in every execution-only run the schema is permitted at most once if and only if at most one call was permitted at all or the first permitted call showed a schema |
| `EnforcedRuns.EmptySchemaRepeats` | driftsql/integrations/state_policy.py:303-323 | that exception is real: for every n a run permits n schema calls that show nothing |
| `EnforcedRuns.RecoveryOrder` | driftsql/integrations/state_policy.py:44-99 | after a permitted failing execution before any recovery, the next two permitted calls are version and then diff |
| `EnforcedRuns.RecoveryHappens` | driftsql/integrations/state_policy.py:335-338 | such a run exists: failure, a masked submission, version, diff |
| `EnforcedRuns.ValidatedForcesSubmit` | driftsql/integrations/state_policy.py:102-112 | after a permitted clean execution marked safe, the next permitted call is the submission |
| `EnforcedRuns.SubmissionHappens` | driftsql/integrations/state_policy.py:340-342 | such a run exists: a validated execution, a masked retrieval, the submission |
| `EnforcedRuns.SubmitFollowsValidation` | driftsql/integrations/state_policy.py:303-323 | in execution-only mode a submission is permitted exactly when the schema was shown and the newest permitted execution is marked safe |
| `EnforcedRuns.Progress` | driftsql/integrations/state_policy.py:335-364 | from every reachable history three well-chosen permitted calls open submission whatever the tools observe, and the mask is never empty |
| `EnforcedRuns.TwoCallsAreNotEnough` | driftsql/integrations/state_policy.py:335-364 | three is the best bound: a reachable history from which two calls can be defeated |
| `EnforcedRuns.ExecutionOnlyForcesNothing` | driftsql/integrations/state_policy.py:303-323 | in execution-only mode no number of calls forces submission open against observations that show and validate nothing, unless it is open already |
| `EnforcedRuns.ExecutionOnlyCanCooperate` | driftsql/integrations/state_policy.py:303-323 | with observations of the caller's choice two permitted calls open it |
| `AgentLoop.ToolAgentLoop.Answer` | driftsql/integrations/agent_loop.py:194-260 | refreshes the active tools to the mask of the history and yields the event of the call: refused, answered by the guard, dispatched or raised |
| `AgentLoop.ToolAgentLoop.CallTool` | driftsql/integrations/agent_loop.py:188-330 | appends exactly one event, the one the old history determines, and with masking on keeps the history an enforced run |
| `AgentLoop.ToolAgentLoop.HandleTurn` | driftsql/integrations/agent_loop.py:332-342 | one event per turn, and the episode ends exactly on a submit call |
| `AgentLoop.DispatchExactly` | driftsql/integrations/agent_loop.py:209-330 | field by field what one call logs: when it is masked, guarded or returned, with which arguments and which observation, and never as an error |
| `AgentLoop.DuplicateExactly` | driftsql/integrations/state_policy.py:167-187 | the guard fires exactly for the four retrieval tools after an earlier call of the tool without an error and with these arguments, where missing arguments read as the empty object |
| `AgentLoop.CallKeepsHistory` | driftsql/integrations/agent_loop.py:209-234 | every event a call can leave keeps the history coherent and, with masking, judged by its own past |
| `AgentLoop.GuardIsSound` | driftsql/integrations/state_policy.py:167-187 | with any non-empty arguments the guard answers only for a call that really reached the tool |
| `AgentLoop.GuardAnswersUnseenDiff` | driftsql/integrations/state_policy.py:167-187 | with empty arguments a live history exists where it discharges the demanded diff that was never retrieved |
| `AgentLoop.GuardAnswersRaisedDiff` | driftsql/integrations/agent_loop.py:309-311 | a live history whose first diff raised: the diff that recovery demands later is answered by the guard and counted as done, and no diff was ever shown |
| `AgentLoop.GuardSoundExactly` | driftsql/integrations/state_policy.py:167-187 | on every live history, masked or not, for each of the four retrieval tools and any arguments: the guard answers only for a completed retrieval if and only if the first call it takes for that retrieval was logged with its arguments and its tool returned |
| `AgentLoop.DemandIsDischarged` | driftsql/integrations/agent_loop.py:244-260 | a demanded retrieval is permitted and discharges its obligation, even when the guard answers it |
| `KeyActionMask.KeyActionResponseMask` | driftsql/integrations/state_policy.py:367-412 | the nested loops over an array return the union of key-action suffixes, or the last active positions when that is empty; a suffix below one is an error |
| `KeyActionMask.TrainedExactly` | driftsql/integrations/state_policy.py:387-412 | position by position: what carries loss is kept exactly when it is among the last tokens of the span of a clarification, a submission, an unmasked execution or an unmasked call after an unmasked diff; when there is no such position, exactly when fewer than the suffix length carry loss after it |
| `KeyActionMask.MaskRestricts` | driftsql/integrations/state_policy.py:396-412 | zeros and ones, ones only where the input carries loss |
| `KeyActionMask.MaskVanishesExactly` | driftsql/integrations/state_policy.py:406-412 | all zero if and only if the input is |
| `KeyActionMask.MaskIsIdempotent` | driftsql/integrations/state_policy.py:387-412 | masking the mask again changes nothing |
| `KeyActionMask.MaskIsSmall` | driftsql/integrations/state_policy.py:402-412 | its sum is at most the suffix length times the number of key calls, or once the suffix length when there is none |
| `SqlLexer.LexOfRender` | driftsql/sql_rewrite.py:18-54 | lexing the text of a well-formed token list gives the list back |
| `SqlLexer.RenderOfLex` | driftsql/sql_rewrite.py:18-54 | the tokens of any text are well formed and spell the text |
| `IdentifierRewriter.ScanLiteral` | driftsql/sql_rewrite.py:22-34 | the end of a string literal, doubled quotes included |
| `IdentifierRewriter.QuotedChunk` | driftsql/sql_rewrite.py:35-43 | the text of the renamed quoted token and where it ends |
| `IdentifierRewriter.RewriteSqlIdentifier` | driftsql/sql_rewrite.py:11-54 | the index loop renders the token list with matching identifiers renamed, which `RewriterLaws.RewriterIsTheLaws` says on characters; unsafe names are errors |
| `RewriterLaws.RewriterIsTheLaws` | driftsql/sql_rewrite.py:18-54 | on characters: a function is the rewriter if and only if it keeps the empty text, copies literals (doubled quotes included, closed or not) and other characters, renames a maximal word, and renames between `"`, backticks or brackets when the whole content matches, or, for a quote that stays open, the content without its last character |
| `RewriterLaws.AcceptedNames` | driftsql/sql_rewrite.py:8-15 | the accepted names: ASCII letters, digits and underscores, not empty, no digit first |
| `RewriterAlgebra.LexerHomomorphism` | driftsql/sql_rewrite.py:11-54 | for every text, lexing the output gives the input's tokens with the matching ones renamed: none splits, merges or shifts |
| `RewriterAlgebra.SubstitutionExactly` | driftsql/sql_rewrite.py:35-43 | that renaming is plain substitution of complete identifiers if and only if the text does not end inside a quoted identifier that matches once truncated |
| `RewriterAlgebra.OpenQuoteLosesText` | driftsql/sql_rewrite.py:35-43 | the exception exists |
| `RewriterAlgebra.NothingElseChanges` | driftsql/sql_rewrite.py:11-54 | every token that does not match is unchanged, and no match survives when the folded names differ |
| `RewriterAlgebra.Idempotent` | driftsql/sql_rewrite.py:11-54 | rewriting twice is rewriting once |
| `RewriterAlgebra.RoundTripExactly` | driftsql/sql_rewrite.py:11-54 | old to new and back is the identity if and only if every match is complete and spelled exactly and nothing else matches the new name |
| `RewriterAlgebra.IndependentRewritesCommute` | driftsql/sql_rewrite.py:11-54 | rewrites of names that do not touch each other commute |
| `RewriterAlgebra.OrderedIsSimultaneous` | driftsql/planning/schema_repair.py:56-69 | the ordered loop over a diff is one simultaneous substitution when old names differ and no new name is renamed later |
| `SchemaRepair.RewriteMappings` | driftsql/planning/schema_repair.py:56-69 | succeeds exactly when every mapping is usable; then the ordered rewrite and the list of kinds that changed the text |
| `SchemaRepair.OneMore` | driftsql/planning/schema_repair.py:56-69 | one more operation: its trimmed names are rewritten in the text so far, and its kind is logged when the text changed |
| `SchemaRepair.PlanAuditedSchemaRepair` | driftsql/planning/schema_repair.py:35-98 | exactly when a repair exists; its text is the planner's when columns were added and the planner has one, and the ordered rewrite otherwise; its log, and whether it counts as a change |
| `SchemaRepair.NormalizedIs` | driftsql/planning/schema_repair.py:97-97 | whether it counts as a change is asked of the texts without trailing semicolons and then without spaces around them |
| `Database.MaterializeValid` | driftsql/drift/factory.py:358-469 | every migration keeps names unique and rows as wide as their tables |
| `Database.MaterializesExactly` | driftsql/drift/factory.py:358-469 | when a migration succeeds, for every operation in terms of the names that are there: a metric change always, an unknown kind never |
| `Database.AdditionPut` | driftsql/drift/factory.py:450-469 | an addition puts a last column of its trimmed or the default type into the table and its default value into every row, and changes nothing else |
| `Database.MaterializeConcat` | driftsql/drift/factory.py:472-508 | materialising two diffs as one is materialising them one after the other |
| `Queries.SimulationPreservesResults` | driftsql/drift/factory.py:358-469 | a resolved query whose columns move along with the data returns the same rows in the same order |
| `ColumnRewrites.CodeResolveFold` | driftsql/drift/factory.py:154-174 | a reference is only ever taken for an existing column of the same folded name |
| `ColumnRewrites.AgreeingRewritePreserves` | driftsql/drift/factory.py:233-247 | when the rewriter reads every reference as the database does and no reference spelled like the new name afterwards meets another table that has it, rewritten query on migrated database equals query on database; the new name is fresh in its own table only |
| `ColumnRewrites.ColumnRewriteExactly` | driftsql/drift/factory.py:154-247 | and only then, unless just the letter case changes, or a reference taken for the column by mistake finds the new name in the table that it means |
| `NameReading.CodeAgreesExactly` | driftsql/drift/factory.py:141-174 | the rewriter and the database agree on every reference if and only if each one spelled like the column reads right by name: a qualifier leads to the column's table exactly when its binding is of that table, and a bare name in a query that uses the table has one match in the schema |
| `NameReading.ColumnRewriteByNames` | driftsql/drift/factory.py:233-247 | so the rewrite preserves the result if and only if the names read right and none meets a namesake of the new name, or just the letter case changes; under the same exception |
| `NameReading.ClearNothingAstray` | driftsql/drift/factory.py:141-174 | with clear aliases that exception does not occur |
| `NameReading.NamesakesExactly` | driftsql/drift/factory.py:154-174 | under clear aliases that condition is about bare names: if the query uses the table, each one spelled like the column has exactly one match in the schema, and while there is one, or one spelled like the new name, no other table that the query reads has the new name |
| `Counterexamples.UnusedTableHidesReference` | driftsql/drift/factory.py:169-174 | a concrete query that the rewrite breaks, because a table it does not use has a column of that name |
| `TextCounterexamples.NewNameMeetsNamesake` | driftsql/drift/factory.py:233-247 | a concrete query whose names read right and that the rewrite breaks, because another table has the new name |
| `TableRewrites.TableRewritePreserves` | driftsql/drift/factory.py:250-281 | if the new name is no qualifier of the query and a followed old name is no alias, renaming a table in the database and in the query returns the same rows; the rewrite fails exactly when the table is not mentioned |
| `TextRenames.TableRewriteExactly` | driftsql/drift/factory.py:250-281 | without that hypothesis: the rows are kept if and only if every qualifier still fits the binding that it meant, no reference meets a second one that offers it, and no star loses its bindings; names found elsewhere excluded |
| `Migrations.ColumnOperationChanges` | driftsql/drift/factory.py:358-447 | a rename, or a replacement by either path, changes one column's name and position and no other cell |
| `Migrations.FollowsExactly` | driftsql/drift/factory.py:511-566 | when an operation that migrates can be followed: a table rename when the query reads the table, an addition unless the planner gives up, anything else always |
| `Migrations.StepPreserves` | driftsql/drift/factory.py:511-566 | one operation, an added column included, and its rewrite preserve the result |
| `Migrations.ChainPreserves` | driftsql/drift/factory.py:1218-1261 | for every ordered chain of renames, replacements and additions, the query carried through all rewrites returns on the final database what the original returned on the original |
| `Migrations.FileStore.MaterializeOperation` | driftsql/drift/factory.py:511-566 | copy then alter: the new file map, and which two states an error can leave |
| `Migrations.FileStore.RunChain` | driftsql/drift/factory.py:491-508 | the scratch copies end in a target that holds the fold of all operations |
| `Migrations.FileStore.MaterializeSchemaDiff` | driftsql/drift/factory.py:472-508 | the empty, single and chained paths all give the target the fold, succeed under the same condition, and touch no other file |
| `ProjectionContract.AnalyzeWildcardProjection` | driftsql/planning/projection_contract.py:67-99 | exactly which queries are refused and which have no wildcard; otherwise the profile, the numbers of plain and qualified wildcards, the referenced tables, and the tables the wildcards cover |
| `ProjectionContract.FirstUsesMeans` | driftsql/planning/projection_contract.py:88-88 | the covered tables are listed once each, by their first occurrence |
| `ProjectionContract.StarTablesAre` | driftsql/planning/projection_contract.py:76-85 | a table is covered exactly when a plain star stands over a binding of it or a qualifier leads to it |
| `ProjectionContract.TableBindings` | driftsql/planning/projection_contract.py:46-64 | the ordered physical tables, or an error exactly when one is unknown or there is none |
| `ProjectionContract.CollectAdditions` | driftsql/planning/projection_contract.py:124-140 | a dictionary of added names per table, or an error exactly when an addition is unusable or there is none |
| `ProjectionContract.PlanProjectionContract` | driftsql/planning/projection_contract.py:115-178 | the loops compute the plan or the error that the specification names |
| `ProjectionContract.PlanErrorsExactly` | driftsql/planning/projection_contract.py:67-163 | both ways in which the planner gives up, exactly: no wildcard in a query whose tables are known; or an unknown table or qualifier, no usable addition, or a table that keeps no column |
| `ProjectionContract.ColumnsOneByOne` | driftsql/planning/projection_contract.py:142-147 | the columns stay in order, and one stays exactly when no added name equals it up to case |
| `ProjectionContract.ExpandedCountIs` | driftsql/planning/projection_contract.py:149-173 | the reported count is that of the outputs which were not there before |
| `ProjectionMeaning.AdditionsExtend` | driftsql/drift/factory.py:450-469 | added columns stand after the old ones and leave every old cell as it was |
| `ProjectionMeaning.PlanIgnoresAdditions` | driftsql/planning/projection_contract.py:115-178 | the plan is the same from the schema before and after the additions |
| `ProjectionMeaning.PlanPreservesExactly` | driftsql/planning/projection_contract.py:115-178 | under clear aliases, on every database and every list of fresh additions, the planned query returns the old rows if and only if no unqualified reference is captured |
| `Counterexamples.AddedColumnCapturesReference` | driftsql/planning/projection_contract.py:142-178 | a concrete query and addition for which the plan exists but does not preserve the result |
| `AliasedPlans.PlanPreservesEverywhereExactly` | driftsql/planning/projection_contract.py:46-178 | with distinct qualifiers the plan preserves the result on every database of the schema if and only if nothing is captured and each starred qualifier's dictionary table has the folded column list of the bound table; under LIMIT 0, if and only if it prepares |
| `AliasedPlans.PlanResolvesExactly` | driftsql/planning/projection_contract.py:142-178 | the plan prepares if and only if nothing is captured and every column of the dictionary's table is found in the widened table that is bound |
| `Counterexamples.ShadowedAliasMisreads` | driftsql/planning/projection_contract.py:46-64 | a concrete query on an alias that is another table's name: the plan exists and prepares, and its result differs from the query's |
| `QueryNames.TextIsColumnRewriteExactly` | driftsql/sql_rewrite.py:11-54 | the text rewriter does to a query what the column rewriter does if and only if nothing but column names of references is spelled like the old name and every reference spelled like it is taken for the column |
| `QueryNames.TextIsTableRewriteExactly` | driftsql/sql_rewrite.py:11-54 | and what the table rewriter does if and only if the table is used, no alias, column name or operator is spelled like it, and no qualifier is when every use has an alias |
| `QueryText.TextFollowsQuery` | driftsql/sql_rewrite.py:11-54 | the rewriter turns every text that spells a query, in any layout and quoting, into a text that spells the query with every identifier renamed, if neither name is a reserved word |
| `QueryText.RepairedTextFollowsQuery` | driftsql/planning/schema_repair.py:56-69 | the same for all mappings of a diff in order |
| `NameFollowing.FollowingExactly` | driftsql/planning/schema_repair.py:35-98 | for every change that keeps rows and cells and every replacement of a query's names: the results agree under every semantics if and only if each table, reference and star still means what it meant; else the query does not prepare; names found elsewhere excluded |
| `TextRenames.ColumnTextRenameExactly` | driftsql/planning/schema_repair.py:56-69 | renaming a column in text and database keeps the rows if and only if no table that the query reads is spelled like it, every reference spelled like it means it, and no reference meets a second binding that offers its new spelling, or just the letter case changes; no operator is spelled like it, and names found elsewhere are excluded |
| `TextRenames.UnusedTextRenameExactly` | driftsql/planning/schema_repair.py:56-69 | when the new name is used nowhere else: if and only if no table that the query reads is spelled like the column and every reference spelled like it means it; no operator is, and a column under a star stays in place |
| `TextRenames.TableTextRenameExactly` | driftsql/planning/schema_repair.py:56-69 | renaming a table in text and database keeps the rows if and only if no column name of a reference is spelled like it and no reference meets a second binding that offers it; no operator is spelled like it, and names found elsewhere are excluded |
| `TextCounterexamples.TextRenameHitsNamesake` | driftsql/planning/schema_repair.py:66-66 | a concrete query on another table's column of the same name that the repair breaks |
| `TextCounterexamples.ColumnRewriteSparesNamesake` | driftsql/drift/factory.py:233-247 | the column rewriter keeps the same query's rows |
| `MixedRepair.ActiveSchemaForProjection` | driftsql/integrations/verl_tools.py:99-118 | the planner's schema: the source columns and the added names, or an error exactly when an addition has no name or goes to a table that the source lacks |
| `MixedRepair.RefusedExactly` | driftsql/planning/schema_repair.py:56-91 | when the repair gives a query at all: mappings safe, and with additions every table of the renamed query and every addition's table known to the source, and a column left under each star |
| `MixedRepair.RenamedTableRefused` | driftsql/planning/schema_repair.py:72-91 | with an addition anywhere in the diff, every query that reads a renamed table is refused, whatever it selects |
| `MixedRepair.UnknownTableRefused` | driftsql/integrations/verl_tools.py:99-118 | with an addition to a table that the source does not know, every query is refused |
| `MixedRepair.DiffPlaced` | driftsql/drift/factory.py:472-508 | every diff keeps all rows, and every old cell is found again where its column stands |
| `MixedRepair.RepairExactly` | driftsql/planning/schema_repair.py:35-98 | for every diff in any order: the repaired query returns the old rows if and only if every table is found under its renamed name, every reference's renamed name is that of its column and is offered once, and every expanded output is offered once; else it does not prepare; no operator is renamed, and names found elsewhere are excluded |
| `MixedRepair.LandedRepairPreserves` | driftsql/planning/schema_repair.py:35-98 | where every name lands the rows are kept, whatever else could be found |
| `RepairOffers.InspectSchemaDiff` | driftsql/integrations/verl_tools.py:121-176 | from the stale text and the source schema of an episode: when the text spells a query, and the parser and the planner work on the texts of queries, a candidate is offered exactly when the repair of the query exists, and its text spells that repair |
| `FreshDiffs.FreshRepairExactly` | driftsql/planning/schema_repair.py:35-98 | for every diff whose new names are new, introduced once and not renamed again, no name need be excluded (no operator is renamed, expanded stars have clear qualifiers, other stars columns that stay): the repaired query returns the old rows if and only if every table is found under its renamed name, every reference's renamed name is that of its column, and no column under an expanded wildcard has lost its name |
| `FreshDiffs.FreshNoneAstray` | driftsql/planning/schema_repair.py:35-98 | after such a diff no name of the repaired query is found in a wrong place |
| `FreshDiffs.ColumnOrigin` | driftsql/drift/factory.py:472-508 | every column of the migrated database is an old one, an old one renamed by an operation of the diff, or an added one |
| `MixedRepair.RenamedColumnLosesStar` | driftsql/integrations/verl_tools.py:99-118 | for every database: when a diff that adds a column leaves a column under a plain star without its name, the repaired query does not prepare |
| `TextCounterexamples.RenamedColumnUnderStar` | driftsql/integrations/verl_tools.py:99-118 | a concrete star query and diff for which the repair exists and does not preserve the result |
| `TextCounterexamples.RenamedTableStopsRepair` | driftsql/integrations/verl_tools.py:99-118 | a concrete diff that applies and for which no query is repaired |
| `SchemaReconstruction.ApplySchemaDiff` | scripts/prepare_p6_scaleup_low_write.py:86-115 | the loop that edits the dictionary equals the fold of single replays, errors included |
| `SchemaReconstruction.ReplayFailsExactly` | scripts/prepare_p6_scaleup_low_write.py:86-115 | when the replay of an operation fails and with which error; an addition of a column that is there changes nothing |
| `SchemaReconstruction.LookupAgrees` | scripts/prepare_p6_scaleup_low_write.py:79-83 | the last-entry lookup finds the column that the database finds |
| `SchemaReconstruction.ReplayTracks` | scripts/prepare_p6_scaleup_low_write.py:86-115 | every operation that migrates also replays, and the dictionary still describes the database if and only if both sides type the column alike |
| `SchemaReconstruction.ReplayAllTracks` | scripts/prepare_p6_scaleup_low_write.py:86-115 | for every applicable diff whose types agree at each step the replay describes the migrated database, column order included unless a column is re-added |
| `RecordedTypes.WholeDiffExactly` | scripts/prepare_p6_scaleup_low_write.py:86-115 | for every applicable diff the replay succeeds, and describes the migrated database if and only if the types that the diff records, column by column, are those that reading the database gives |
| `RecordedTypes.TypedReplacementRepairs` | scripts/prepare_p6_scaleup_low_write.py:106-114 | a replacement that declares a type makes both sides agree on its column, whatever was recorded for it before |
| `SchemaReconstruction.ExplicitDiffsTrack` | scripts/prepare_p6_scaleup_low_write.py:86-115 | diffs that declare their types need no other condition |
| `SchemaReconstruction.DefaultTypesDiffer` | scripts/prepare_p6_scaleup_low_write.py:100-104 | an addition without a type never agrees: TEXT in the replay, INTEGER on disk |
| `SchemaReconstruction.TypesAgreeExactly` | scripts/prepare_p6_scaleup_low_write.py:100-114 | for every operation and stored type: an addition agrees if and only if it declares a trimmed type, a rename if and only if it records none or the type the column has, a replacement if and only if it declares one or the column is TEXT |
| `FreshNames.CandidatesDiffer` | driftsql/drift/factory.py:223-230 | no two candidate names fold alike |
| `FreshNames.NewColumnName` | driftsql/drift/factory.py:223-230 | the loop ends within one candidate more than there are names, with the first one that is free case-insensitively |
| `SubmitController.FindContractValidatedSubmission` | driftsql/controllers/validated_submit.py:60-151 | the batch controller returns the verdict of the machine that watched the events online, which `SubmissionTable` gives on the events |
| `SubmissionTable.AcceptedAt` | driftsql/controllers/validated_submit.py:60-143 | on events: accepted at position i if and only if the contract can be checked, event i is a successful execution after a diff that did not fail, its stripped text parses as a query and has the expected fingerprint, and no execution between that diff and i is like that or has a nonblank text that is no query; the whole decision, with the stripped text of event i as its SQL |
| `SubmissionTable.RefusedBecause` | driftsql/controllers/validated_submit.py:74-151 | on events: every other decision, field by field, and the reason in each case, an unsafe candidate included |
| `SubmitController.RunJudgesCandidates` | driftsql/controllers/validated_submit.py:90-106 | watching the events equals judging the collected post-diff candidates |
| `SubmitController.VerdictsAreStable` | driftsql/controllers/validated_submit.py:90-94 | an acceptance or an unsafe verdict is the same for every extension of the trajectory |
| `SubmitController.AcceptsEarliest` | driftsql/controllers/validated_submit.py:118-143 | accepted at position i if and only if the contract can be checked, event i qualifies, and nothing earlier qualifies or is unsafe |
| `SubmitController.SubmitsWhatRan` | driftsql/controllers/validated_submit.py:131-143 | the submitted text is a statement the trajectory executed, with the expected fingerprint |
| `SubmitController.UnsafeExactly` | driftsql/controllers/validated_submit.py:119-121 | the unsafe verdict, exactly |
| `SubmitController.RecordedContractDecision` | scripts/prepare_p6_generalized_protocol.py:303-366 | the search with early returns gives the first conclusive recorded entry, which `SubmissionTable` gives on the log; a missing contract raises |
| `SubmissionTable.LoggedAcceptedAt` | scripts/prepare_p6_generalized_protocol.py:303-366 | the acceptance of the recorded twin on its log: only `tool_name`, only `execution_success`, blank texts unsafe, recorded fingerprints |
| `SubmissionTable.LoggedRefusedBecause` | scripts/prepare_p6_generalized_protocol.py:303-366 | and its refusals, field by field, with their three reasons |
| `SubmitController.RecordedAgrees` | scripts/prepare_p6_generalized_protocol.py:303-366 | on a faithful log it agrees with the controller on acceptance, SQL, position and reason, except that it calls a missing safe success a mismatch |
| `SubmitController.RecordedAgreesExactly` | scripts/prepare_p6_generalized_protocol.py:303-366 | on logs that are faithful apart from blank statements the two agree on acceptance, SQL and position if and only if no blank execution stands between the first diff and the accepted event |
| `SubmitController.BlankSqlDiffers` | scripts/prepare_p6_generalized_protocol.py:331-336 | diff, blank, good: the controller accepts the third event and the audit refuses |
| `BudgetRunner.State.Handle` | scripts/run_stage1_baseline.py:330-353 | the counters, the reason and the record after one parsed action |
| `BudgetRunner.State.Pay` | scripts/run_stage1_baseline.py:206-214 | one call more, its prompt charged, and the generated tokens charged that are handed on: all of them, or as many as the two budgets leave |
| `BudgetRunner.AdmitAll` | scripts/run_stage1_baseline.py:183-194 | who is admitted, in order, and with which reason the others stop |
| `BudgetRunner.GenerateAll` | scripts/run_stage1_baseline.py:196-220 | batching does not matter: each admitted episode is charged once and no other changes; a negative batch size generates nothing |
| `BudgetRunner.ReactTurn` | scripts/run_stage1_baseline.py:284-380 | the five loops together do to each active episode what one turn says |
| `BudgetRunner.RunReact` | scripts/run_stage1_baseline.py:274-387 | every episode ends as its own rounds say, independently of the others, with the account of `RunLedgers.ReactAccount`; a batch size of zero raises |
| `RunLedgers.ReactAccount` | scripts/run_stage1_baseline.py:183-387 | from the answers alone: the rounds with a call, each with an admissible prompt and the tokens that the budgets let it hand on; prompt tokens, new tokens and model calls are their sums and number, the record is theirs, all but the last ran a statement, the final SQL is that of the submitting round, and why there was no further one |
| `RunLedgers.OneAccount` | scripts/run_stage1_baseline.py:206-214 | what was handed on is determined by the answers |
| `RunLedgers.NothingGenerated` | scripts/run_stage1_baseline.py:202-220 | with a negative batch size nothing is generated, charged or recorded |
| `BudgetRunner.RunDirect` | scripts/run_stage1_baseline.py:250-271 | the same for a direct run, with the account of `RunLedgers.DirectHasAccount` |
| `RunLedgers.DirectHasAccount` | scripts/run_stage1_baseline.py:183-271 | the account of a direct episode: refused, or charged once with its prompt and the tokens handed on, with the statement read from those |
| `BudgetRunner.ReactStaysWithinBudget` | scripts/evaluate_stage1_predictions.py:27-33 | for any model outputs and token counts: within the evaluator's budget, stopped, submitted exactly when it has a statement, one record per model call |
| `BudgetRunner.LimitsReached` | scripts/run_stage1_baseline.py:330-353 | which limit can end an episode, in terms of the others; at most one call more than executions allowed |
| `BudgetRunner.DefaultLimits` | driftsql/evaluation/bird.py:18-28 | with the shipped numbers the turn limit and the tool budget end no episode and none makes a fifth call |
| `BudgetRunner.DirectStaysWithinBudget` | scripts/run_stage1_baseline.py:250-271 | a direct run makes at most one call and is within every budget that allows one |
| `Sampling.OneRound` | driftsql/evaluation/reasoning.py:57-63 | one pass raises the level by one for a prefix of the databases |
| `Sampling.RoundRobin` | driftsql/evaluation/reasoning.py:55-65 | the rounds pick min(size, rows) items: a prefix of each database's order up to a common level, one more for the first databases |
| `DatabaseSample.StratifiedDatabaseSample` | driftsql/evaluation/reasoning.py:45-66 | grouping, ordering, rounds and final sort: min(size, rows) rows in source order that are such a pick; a size below one is an error |
| `DatabaseSample.IdsInOrder` | driftsql/evaluation/reasoning.py:57-60 | the rounds visit the databases in their own order |
| `DatabaseSample.SampleIsStratified` | driftsql/evaluation/reasoning.py:45-66 | a database that gives at least two rows fewer than another has given all its rows |
| `DatabaseSample.SampleFollowsDigest` | driftsql/evaluation/reasoning.py:40-53 | within a database no row that was left out comes before one that was taken |
| `Json.ParsePrinted` | driftsql/tool_calls.py:121-124 | reading what was printed, numbers included, gives the value back and stops where it ended, whatever follows that does not continue a final number |
| `Json.PrintThenParse` | driftsql/data/tool_sft.py:172-173 | the same for the printed text of a value on its own |
| `Json.LoadsPrinted` | driftsql/data/tool_sft.py:169-171 | decoding a whole printed text gives the value back |
| `JsonTexts.PrintIsPlain` | driftsql/data/tool_sft.py:172-173 | the printer, which carries the rest of the text along, writes values with `, ` and `: ` between their parts, seven short escapes, and hexadecimal ones for the other control characters |
| `JsonTexts.LoadsAmongBlanks` | driftsql/tool_calls.py:52-56 | the four blanks around a value are skipped |
| `JsonTexts.UnicodeRead` | driftsql/tool_calls.py:52-56 | a four-digit escape in either case stands for its character, surrogates apart |
| `JsonTexts.NumberExactly` | driftsql/tool_calls.py:121-124 | which texts are numbers: an optional minus, a whole part without leading zeros, an optional fraction and an optional exponent |
| `ToolCalls.FindToolCalls` | driftsql/tool_calls.py:96-138 | the tag loop and the cursor loop collect the calls that the specification names, sorted by position |
| `CallTexts.CallsAre` | driftsql/tool_calls.py:104-143 | the calls are those of the tags and those of the objects, each once, in the order of their starts |
| `CallTexts.NormalizeExactly` | driftsql/tool_calls.py:39-61 | which payloads are calls, with which name and arguments: the object under `function` or the payload itself, a name that is not blank, trimmed, and arguments that are an object, null, missing, or a text that decodes to one of the first two |
| `CallTexts.TagAtExactly` | driftsql/tool_calls.py:12-15 | where the tag pattern matches: `<function` in any case, no word character right after it, and the first slash that only spaces separate from a `>` |
| `CallTexts.TagsMatch` | driftsql/tool_calls.py:107-108 | the spans are matches of that pattern |
| `CallTexts.TagsCover` | driftsql/tool_calls.py:107-108 | and every match starts inside one of them |
| `CallTexts.TagCallsExactly` | driftsql/tool_calls.py:107-111 | a tag gives a call exactly when its attributes are read, with the name trimmed |
| `CallTexts.BraceCalls` | driftsql/tool_calls.py:113-142 | a value that is a call is found at the next brace outside tags, and the scan goes on after it |
| `CallTexts.BraceSkipped` | driftsql/tool_calls.py:130-142 | any other value is skipped as a whole |
| `CallTexts.BraceUndecoded` | driftsql/tool_calls.py:124-128 | where nothing can be decoded the scan goes on one character later |
| `CallTexts.BraceInTag` | driftsql/tool_calls.py:117-123 | a brace inside a tag sends the scan behind the tag |
| `ToolCalls.ObjectCallSpans` | driftsql/tool_calls.py:110-137 | for any text and decoder the object calls lie in bounds, never overlap each other, and none starts inside a tag |
| `ToolCalls.SpansAreSorted` | driftsql/tool_calls.py:96-138 | for any text and decoder all spans are in bounds and sorted |
| `ToolCalls.SpansDisjointExactly` | driftsql/tool_calls.py:96-138 | spans are disjoint if and only if no tag call starts inside an object call |
| `ActionText.UsePlainJsonForLastAction` | driftsql/data/tool_sft.py:154-175 | succeeds exactly on a conversation that ends in one assistant action with readable arguments; only the last message changes |
| `RemovalTexts.PrintedText` | driftsql/data/tool_sft.py:172-173 | the text it appends: a line break and one object, the name before the arguments |
| `ActionText.NativeArgumentsPrintAlike` | driftsql/data/tool_sft.py:168-173 | arguments carried as text are printed like the object they encode |
| `ActionText.RemoveToolCallPayloads` | driftsql/tool_calls.py:145-164 | the chunk loop and the two substitutions compute the text without calls, tags and empty fences |
| `RemovalTexts.RemovedExactly` | driftsql/tool_calls.py:150-164 | after slicing out the calls, the leftmost matches of the tag pattern are taken out, then those of the empty fence, then the spaces at both ends |
| `RemovalTexts.ToolTagExactly` | driftsql/tool_calls.py:11-11 | the first pattern: an opening or closing tool-call tag, in any case |
| `RemovalTexts.EmptyFenceExactly` | driftsql/tool_calls.py:10-10 | the second: three backticks, perhaps `json` in any case, spaces, three backticks |
| `ActionText.PayloadNormalizes` | driftsql/tool_calls.py:48-69 | a printed payload with a trimmed, nonempty name is accepted as a call |
| `ActionText.RawDecodeIsFaithful` | driftsql/tool_calls.py:121-124 | the parser of this model reads every printed value and no more |
| `ActionText.PrintedActionIsFound` | driftsql/tool_calls.py:96-138 | the appended action is found as exactly one call with its name, arguments and span |
| `ActionText.RemovalRestoresText` | driftsql/tool_calls.py:145-164 | removing it gives back the stripped text |
| `ActionText.ActionRoundTrip` | driftsql/data/tool_sft.py:154-175 | print, find and remove is the identity on name, arguments and stripped text |
| `Removal.RemovalExactly` | driftsql/tool_calls.py:151-160 | for every text and decoder the kept chunks are the text without exactly the covered positions if and only if every tag call that ends inside an object call is followed at once by another tag call |
| `Removal.OverlapRestoresText` | driftsql/tool_calls.py:151-164 | a text whose scan returns two nested calls, and whose removal leaves part of the payload although no position is uncovered |

## Left out

- vLLM, VERL, asyncio, timeouts, traces, environment variables, terminal and HTTP interfaces: foreign code and plumbing; only the check, dispatch and append step of the agent loop is modelled.
- A tool response that is JSON but not an object makes the mask test raise in the program; observations here are objects or unreadable text.
- SQLite and SQL parsing and printing: queries are syntax trees, and type affinity during a column copy is the identity.
- Joins with USING or NATURAL, subqueries, DISTINCT, GROUP BY and output aliases in ORDER BY: one scope with cross-product bindings is modelled.
- ColumnRewrites.RewriteColumn: a function on query values; that the program edits a copy of the tree in place, node by node, and keeps identifiers quoted, is not captured.
- TableRewrites.RewriteTable: likewise a function on query values.
- Migrations.ChainPreserves: carries the query with the rewriters of one column and one table, each added column followed by its own projection step; the audited repair, which renames identifiers and expands wildcards once, is the subject of MixedRepair.
- MixedRepair.RepairExactly: an operator that the diff renames, and a name that is found in a wrong place (another table's column or table that has the new name), are excluded by hypothesis, because then the data and the operator's meaning decide whether the rows agree; FreshDiffs gives a condition on the diff under which no name is.
- MixedRepair.Repaired: a function on query values; QueryText ties its renaming to the text, and RepairOffers the whole repair, where the parser and the printer of the projection step are parameters that work on the texts of queries.
- NameReading.ColumnRewriteByNames: a reference rewritten by mistake that finds the new name in the table it means is excluded, likewise because the data decide; with clear aliases there is none (ClearNothingAstray).
- SchemaReconstruction.ReplayAllTracks: sufficient, with the column order; RecordedTypes.WholeDiffExactly is exact for whole diffs, about names and types.
- SchemaReconstruction.ApplySchemaDiff: which of two table names that fold alike the program's set iteration finds is left to a parameter.
- DatabaseSample.StratifiedDatabaseSample: SHA-256 and the order of identifiers are given as orders.
- FreshNames.NewColumnName: takes the base name as given; choosing it uses a synonym table and SHA-256.
- BudgetRunner.RunReact: responses are given as parsed actions; the three parsers, the statements' results and the thread pool are not modelled, and tokenizing a prompt twice gives the same count.
- Json.ParsePrinted: a number is the text that spells it, so rounding and the change of spelling by decoding and encoding are not modelled, and surrogate escapes are not read; the scanner's own results hold for every decoder.
- ToolCalls.FindToolCalls: the attributes of a function tag are read by a parameter, and pattern classes are ASCII.
- Comments and doubled double quotes in SQL text: the rewriter does not know them, so its laws are relative to its own tokens.
- `grpo_coverage.py`, database splits, schema packing, the session store, reward weights and reports: they count, shuffle, format and store what the parts above produce.
