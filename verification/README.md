# Verified model of the agentic IDE core

A Dafny 4.11 model of the parts of the repository that carry real control flow and state, with proofs of what they
are for. Check everything with `dafny verify dfyconfig.toml`.

## What is modelled

**The autonomous execution stack** (`Permissions`, `Principals`, `Runtime`, `Executors`, `Context`, `Planning`,
`BasicTools`, `Quests`, `Protocol`, `Transcript`, `QuestTranscript`). A Quest decomposes a goal, runs each subtask
through the ReAct planner with retries, and each planner step through the permission check, the approval gate and the
self-healing executor. The LLM, the base tool, the validator, the audit sink and the decomposer are arbitrary functions
of everything that happened so far, so a statement about them covers every sequence of texts, replies and failures.
Each component exists twice: as a method over the shared mutable state, with the loops of the source, and as the
function it is proved equal to, from a world to the world after it. The run-wide statements are about those functions,
and about the log of boundary events a run leaves: what was asked, called, held, edited and audited. `Transcript` and
`QuestTranscript` tell a run from that log alone, prompts, outputs and outcome included.

**The completion client** (`Cache`, `Nes`, `Batch`, `Retry`). The cache is a class over a queue and a map, proved
against a window over the admitted keys. Concurrent calls of the client, and batches, are step systems: a statement
about them holds for every interleaving of their critical sections.

**The Rust source checker** (`Lexer`, `LexerGrammar`, `LexerReading`, `LexerCoverage`, `Delimiters`, `Pairing`). The
hand-written scanner is proved against an unambiguous grammar of comments and literals that covers every text, and the
bracket matcher against the grammar of balanced brackets and, diagnostic by diagnostic, against the pairing of the
brackets by position.

**The audit chain** (`Encoding`, `AuditChain`, `AuditTampering`). The canonical text, the chain head, the table with
its insert trigger, and the verification query. The client hashes the UTF-8 bytes of the text; the server hashes what
PostgreSQL's cast to `bytea` makes of it, escapes and errors included. The digest is any function into 64 hex digits;
freedom from collisions is asked only for the bytes that were hashed.

**Histogram, context budget and code graph** (`Metrics`, `Context`, `CkgParse`, `CkgMeaning`, `CkgQuery`, `CkgCalls`,
`CkgForms`, `CkgRepetition`, `CkgGaps`). Each fast form is proved against a specification that does not mention it: the
nearest-rank percentile, the shortest prefix of the drop order, the neighbourhood as a relation.

`Text` and `Bits` hold the text and bit primitives of the standard libraries that the code calls.

## Where the code does something other than its documentation says

The model follows the code; where there is something to prove, a lemma names the difference.

- `audit_verify_chain` looks at each row alone, so dropping, repeating and reordering rows goes unseen
  (`VerifyMissesDeletionAndReordering`). Comparing each row with its predecessor would find every deletion but that of
  the newest row (`DeletionBreaksLinkUnlessLast`).
- Client and server do not hash the same bytes for every row: the cast to `bytea` reads a backslash as an escape. They
  agree, and recorded tables are accepted, exactly when no tenant's name holds a backslash (`ByteaExactIff`,
  `ServerAgreesWithClientIff`, `RecordedRowsVerifyIff`). One row of a tenant `a\b` makes the verification query fail,
  and one of a tenant with two backslashes there is reported although nobody touched it (`BackslashTenantsFail`).
- `audit_verify_chain` does not report every change of an accepted row. It does for plain texts, and then exactly for a
  changed action, bit, tenant or previous hash (`TamperingReportedIff`); in general exactly when the bytes the server
  reads change (`AlteredRowReportedIff`). A tenant `a|b` can be spelled with an octal escape, or have its second half
  moved into the previous hash, unseen (`RenamesUnseen`). Changed details are never seen (`DetailsAreNotCovered`).
- `query` removes only neighbouring repetitions, and the relation is not in the sort key. A repetition survives exactly
  when the walk over symbols and edges comes back to a relation of a place after another one of that place
  (`NoRepetitionIff`), as for an `impl` with a function, a structure and again a function of one name
  (`RepetitionSurvives`).
- `decl_name` is meant to skip a generic group and skips only its `<`: a block `impl<T> Foo {` is named after `T`, and
  is no block when the group starts with a lifetime (`GenericImplNamedAfterParameter`, `ParameterTakenForType`); of
  `impl<T> Trait for Type` the trait is lost (`GenericImplDefinesNoTrait`).
- The `impl` a function is contained in is the one opened last, closed or not (`EveryLaterFnIsContained`,
  `FreeFnIsContained`).
- One pass of `compress` can make two different chunks equal by truncating them (`CompressOnceIsFixedIff`,
  `CompressOnceCanLeaveDuplicates`); the suffix it appends is 14 bytes long. It panics exactly when some content is
  longer than 2000 bytes and has no character boundary at byte 2000 (`CompressPanicsIff`, `CompressCanPanic`).
- The cache key leaves the suffix out: a hit agrees with an uncached call exactly for backends that ignore it
  (`HitsAgreeIffSuffixFree`).
- The audit sink's notes say an event is recorded after the action executes; a granted row is in fact written right
  before it (`QuestRunInOrder`), so it does not say that the action succeeded.
- `perm_bit` is the bit value 1 to 32, not an index, and `bucket_counts` is per bucket, not cumulative.
- The pending list of a Quest is never cleared between runs (`PendingListOnlyGrows`).
- "Privileged" always means classified as such by `action_permission`; an unclassified tool name needs no right.
- `strip_noncode` keeps character offsets but not always lines: a line feed is lost exactly when some character literal
  of the text is a bare line feed (`LineFeedsKeptIff`). Otherwise the diagnostics name lines of the source
  (`DiagnosticsPointIntoSource`); with one they can be off (`DiagnosticOnTheWrongLine`).

## Model

| member | source | states |
|---|---|---|
| `Permissions.GrantRevokeExact` | crates/core/src/permissions.rs:75-89 | after granting or revoking one right, exactly that right has changed, for every mask and every pair of rights |
| `Permissions.AllAndClamp` | crates/core/src/permissions.rs:66-104 | the full set holds all six rights and clamping a mask to six bits changes no right |
| `Permissions.ContainsIsSubset` | crates/core/src/permissions.rs:91-94 | mask containment implies containment of rights, and is the same for a set within the six bits |
| `Principals.ClassificationIgnoresCase` | crates/core/src/principal.rs:145-154 | letter case never changes which right a tool needs, and no tool is classified under Audit |
| `Principals.ClassifiedBySpelling` | crates/core/src/principal.rs:145-154 | a tool needs a right exactly when its name is one of those listed for it, in whatever case |
| `Runtime.Shared.AuthorizeAndRecord` | crates/core/src/planner.rs:158-183 | the method over the shared state does what the decision function says, counters and audit sink included |
| `Runtime.Shared.Record` | crates/core/src/planner.rs:186-192 | the counter grows by one and the run goes on whether or not the sink stores the row |
| `Executors.RunToolAccounted` | crates/core/src/quest.rs:404-431 | any nesting of gate, self-healing and base executor calls only the named tool, within its fan-out, under the permission rules, and accounts for every event |
| `Executors.HealProtocol` | crates/core/src/self_heal.rs:54-96 | for any LLM and tool, calls and repair thoughts alternate, each repair runs the patch its thought proposes under the same tool name, and the run ends in success, in a failed thought, or after exactly the allowed repairs |
| `Executors.PatchExact` | crates/core/src/self_heal.rs:123-132 | the parsed patch is the one text, bare of white space, that stands after `PATCH:`, after `PATCH` and a blank, or alone |
| `Executors.RepairRunsThePatch` | crates/core/src/self_heal.rs:71-85 | after the answer `PATCH: s`, however padded, the tool is run with `s` |
| `Executors.Run` | crates/core/src/quest.rs:404-431 | the executors run on the shared state do what the executor function says |
| `Executors.SelfHeal` | crates/core/src/self_heal.rs:54-96 | the repair loop does what the repair function says, early exits included |
| `Planning.PlannerRunAccounted` | crates/core/src/planner.rs:195-279 | whole runs on every exit path: counters and audit rows are what the events say, base calls are bounded by steps times fan-out, and on success trace steps = tool calls + denials = metered thoughts |
| `Planning.SeededRunAccounted` | crates/core/src/planner.rs:285-375 | the same for runs seeded with context chunks |
| `Planning.Planner.Turn` | crates/core/src/planner.rs:202-261 | one turn does what the step function says: think, plan, check, act, remember, edit only after an authorized `modify` |
| `Planning.Planner.Loop` | crates/core/src/planner.rs:202-275 | the step loop does what the run function says under any validator |
| `Planning.Planner.Run` | crates/core/src/planner.rs:195-279 | a run over a rolling window of 16 does what the planner function says |
| `Planning.Planner.RunWithContext` | crates/core/src/planner.rs:285-375 | a seeded run, trimming before each thought, does what the seeded planner function says |
| `Transcript.TraceIsTranscript` | crates/core/src/planner.rs:195-375 | any run, seeded or not, is told by its log: each prompt is the window over the goal and the outputs that came back so far (with the chunks that still fit), each plan is audited, dispatched when allowed, answered by the last call or the held approval and, for `modify`, applied; on success the trace holds thought, action and output of every turn and the answer is the one the validator's verdicts give; a failed run ends in one turn cut short by the error |
| `Transcript.FirstPrompt` | crates/core/src/planner.rs:195-206 | with a step to use, a run begins by asking the LLM about the goal and nothing else |
| `Transcript.SnapshotGrows` | crates/core/src/context_manager.rs:210-219 | a snapshot is one numbered line for each item, in order |
| `Transcript.DefaultValidatorEnds` | crates/core/src/validator.rs:38-46 | under the default validator only the last turn is terminal or reaches the limit, and the answer is its output, "budget exhausted" or nothing accordingly |
| `BasicTools.BuiltInReplies` | crates/core/src/tool_executor.rs:42-57 | behind any stack of executors `inspect` reports its argument and `finish` ends the task |
| `BasicTools.FinishedIffFinishCalled` | crates/core/src/validator.rs:38-46 | over the built-in tools and the default validator, a planner run answers "task finished" exactly when the last event is a call of `finish` |
| `Quests.QuestRunSpent` | crates/core/src/quest.rs:279-344 | whole Quest runs terminate with every event permitted and accounted for, and call the base executor at most min(n, max_subtasks) * (retries + 1) * max_steps * (repairs + 1) times |
| `Quests.QuestRowsMatchCounters` | crates/core/src/planner.rs:158-192 | over a whole run the audit sink grows by as many rows as audit events were counted exactly when it took every row, and then by as many refused ones as denials |
| `Quests.QuestPermissionSafety` | crates/core/src/quest.rs:352-385 | in any run the base executor sees a tool only if the principal holds its right, the host is edited only if Modify is held, and with the gate closed no Execute or Commit tool is called |
| `Quests.QuestReportAccounting` | crates/core/src/quest.rs:285-340 | from an all-Pending list: same ids and descriptions, Skipped exactly from max_subtasks on, all others Success or Failed, both counters equal to the status counts |
| `Quests.LlmDecompositionIsPending` | crates/core/src/quest.rs:127-168 | whatever the LLM answers, its decomposition is a non-empty all-Pending list numbered from 1 |
| `QuestTranscript.NumberedLineExact` | crates/core/src/quest.rs:145-163 | a line is read as a subtask exactly when it is a number, a separator and a description, and then as that description |
| `QuestTranscript.DecompositionTold` | crates/core/src/quest.rs:127-168 | the LLM is asked once, about the goal, and the subtasks are exactly the numbered lines of its answer in order, or else the goal alone |
| `QuestTranscript.QuestIsTold` | crates/core/src/quest.rs:279-385 | any Quest run is told by its log: the decomposition, then for each subtask not skipped its attempts, each a planner run told as above that begins by asking about that subtask's description, until one is answered "task finished" or no retry is left, as the report says |
| `Quests.QuestApprovalGate` | crates/core/src/quest.rs:332-340 | over a whole run the pending list grows by exactly one entry for each authorized attempt at a risky tool, in order, under the id of an executed subtask, and with auto_commit not at all |
| `Quests.PendingListOnlyGrows` | crates/core/src/quest.rs:332-340 | of any two reports of one Quest, over any sequence of goals, the later pending list starts with the earlier one |
| `Quests.SubtaskSuccessIsFinish` | crates/core/src/quest.rs:306-329 | with the built-in stack the attempts at a subtask succeed exactly when the last one ended in a call of `finish` |
| `Quests.QuestSplits` | crates/core/src/quest.rs:299-330 | a whole run is its decomposition and then, in order, the attempts at each subtask that is not skipped: the report's entry for a subtask is the outcome of its own attempts, and every approval held meanwhile carries that subtask's id, one for each authorized attempt at a risky tool |
| `Quests.SuccessIffFinish` | crates/core/src/quest.rs:300-330 | with the built-in stack a subtask is reported a success exactly when its own attempts ended in a call of `finish` |
| `Quests.Quest.DecomposeGoal` | crates/core/src/quest.rs:127-137 | decomposition does what the decomposition function says, with the whole goal as the one subtask after a failed thought |
| `Quests.Quest.ParseLines` | crates/core/src/quest.rs:145-168 | the line loop yields the numbered lines, or the goal when there is none |
| `Quests.Quest.Execute` | crates/core/src/quest.rs:352-385 | a subtask runs through a fresh gated and self-healing planner, and succeeds on "task finished" |
| `Quests.Quest.Retry` | crates/core/src/quest.rs:306-325 | the retry loop does what the attempts function says |
| `Quests.Quest.Run` | crates/core/src/quest.rs:279-344 | the whole loop nest on the shared state does what the Quest function says, report included |
| `Protocol.QuestRunInOrder` | crates/core/src/planner.rs:202-261 | in any Quest run every event follows from the events right before it: plans answer thoughts, a privileged action comes directly after its granted audit row with the planned tool and argument, calls run the dispatched argument or the parsed patch, edits carry the output of the `modify` just run; and every dispatch is followed by its call or its held approval |
| `Protocol.QuestToolCallsAnswered` | crates/core/src/planner.rs:223-228 | over a whole run the tool-call counter grows by the calls and held approvals that answer a dispatch |
| `Protocol.FailedMeansEveryRetry` | crates/core/src/quest.rs:306-329 | a subtask fails exactly after all its retries failed, and otherwise ends with its first success |
| `Context.TrimDropsShortestPrefix` | crates/core/src/context_manager.rs:166-193 | trimming drops exactly the shortest prefix of the (priority, position) order of non-High chunks after which the rest fits, or all of them when none suffices; survivors keep their order |
| `Context.ContextManager.BudgetTrim` | crates/core/src/context_manager.rs:166-193 | the loop terminates in the trimmed state, and dropped + kept is the original count |
| `Context.ContextManager.FindWorst` | crates/core/src/context_manager.rs:169-177 | the scan finds the earliest chunk of the lowest priority |
| `Context.ContextManager.TotalTokens` | crates/core/src/context_manager.rs:157-160 | the two sums are the tokens of window and chunks |
| `Context.WindowKeepsLast` | crates/core/src/context_manager.rs:119-144 | whatever is pushed, the window holds the last max_items items, at least one, in order |
| `Context.DedupFirstOccurrences` | crates/core/src/context_manager.rs:198-199 | de-duplication keeps, in order, exactly the first chunk of each content |
| `Context.CompressShortens` | crates/core/src/context_manager.rs:197-207 | compression leaves the first chunk of each content, each over 2000 bytes cut there, marked and with its tokens counted anew, all others as they were; after a panic the rest is untouched |
| `Context.TokensAreSums` | crates/core/src/context_manager.rs:157-160 | the tokens of a window and of chunks add up over the items |
| `Context.TruncateTwice` | crates/core/src/context_manager.rs:200-206 | a truncated content is at most 2014 bytes and truncating it again changes nothing |
| `Context.CompressPanicsIff` | crates/core/src/context_manager.rs:198-206 | compression panics exactly when some content is over 2000 bytes with no character boundary at byte 2000 |
| `Context.CompressCanPanic` | crates/core/src/context_manager.rs:203-203 | a chunk on which it panics |
| `Context.CompressTwiceIsFixed` | crates/core/src/context_manager.rs:197-207 | when no cut falls inside a character, two passes do not panic, a third changes nothing, and contents are pairwise distinct and at most 2014 bytes |
| `Context.CompressOnceIsFixedIff` | crates/core/src/context_manager.rs:197-207 | when no cut falls inside a character, one pass is a fixed point exactly when truncation makes no two different contents equal |
| `Context.CompressOnceCanLeaveDuplicates` | crates/core/src/context_manager.rs:197-207 | two chunks for which one pass is no fixed point |
| `Context.ContextManager.CompressChunks` | crates/core/src/context_manager.rs:197-207 | the in-place passes do what the compression function says, up to the chunk whose cut panics |
| `Encoding.ByteaExactIff` | migrations/0005_v20.sql:240-240 | the cast of a text to `bytea` yields its UTF-8 bytes exactly when it holds no backslash |
| `Encoding.FormatsReadBack` | migrations/0005_v20.sql:240-240 | a text that spells bytes in the escape or the hex format is cast to those bytes |
| `AuditChain.PayloadInjective` | migrations/0005_v20.sql:220-230 | the canonical text determines action, bit, tenant and previous hash, for any tenant text |
| `AuditChain.HeadCommitsToHistory` | crates/core/src/audit.rs:92-107 | without collisions among the hashed bytes, two histories have equal heads exactly when they agree event by event in action and tenant |
| `AuditChain.TenantChains` | crates/core/src/audit.rs:212-248 | however tenants interleave, each tenant's recorded rows form a chain whose last hash is the head of that tenant's own history |
| `AuditChain.TenantHeadCommits` | crates/core/src/audit.rs:212-248 | two recorded tables agree in a tenant's last hash exactly when they hold the same events of that tenant |
| `AuditChain.AuditTable.Record` | crates/core/src/audit.rs:212-248 | a serialized append adds the one row chained to the tenant's last, and the table remains what its history says |
| `AuditChain.InsertFillsNulls` | migrations/0005_v20.sql:248-268 | the insert trigger fills null hashes, from the tenant's latest row and from the columns as they go in, and changes nothing else |
| `AuditChain.LastHashExact` | migrations/0005_v20.sql:254-259 | the previous hash looked up is that of the tenant's latest row, or empty |
| `AuditChain.ServerAgreesWithClientIff` | migrations/0005_v20.sql:248-268 | the insert trigger gives a row without hashes those the Rust client would send exactly when the tenant holds no backslash |
| `AuditChain.VerifySilentIffConsistent` | migrations/0005_v20.sql:291-301 | the verification query succeeds and finds nothing exactly when the server can hash every row and gets what is stored |
| `AuditChain.RecordedRowsVerifyIff` | migrations/0005_v20.sql:291-301 | a recorded table is accepted exactly when no recorded tenant holds a backslash |
| `AuditChain.BackslashTenantsFail` | migrations/0005_v20.sql:233-243 | a tenant for which the query fails, and one whose untouched row is reported |
| `AuditChain.VerifyMissesDeletionAndReordering` | migrations/0005_v20.sql:291-301 | any table put together from rows of an accepted table is accepted |
| `AuditChain.DeletionBreaksLinkUnlessLast` | migrations/0005_v20.sql:208-219 | comparing neighbours would find the deletion of any row but the newest, and only that one not |
| `AuditTampering.TamperingReportedIff` | migrations/0005_v20.sql:289-301 | between plain texts, a change of an accepted row under its stored hash is reported, at that row, exactly when it concerns action, bit, tenant or previous hash |
| `AuditTampering.QueryLists` | migrations/0005_v20.sql:289-301 | the query's answer in full: the rows whose hash is not the computed one, in order, then those without a hash a second time; it fails exactly when some text has no bytes |
| `AuditTampering.AlteredRowReportedIff` | migrations/0005_v20.sql:289-301 | for any texts, the query fails when the altered row has no bytes, reports just that row when it has others than before, and is silent otherwise |
| `AuditTampering.DetailsAreNotCovered` | migrations/0005_v20.sql:217-230 | in any table the verdict does not depend on the details of a row |
| `AuditTampering.RenamesUnseen` | migrations/0005_v20.sql:233-243 | an accepted row whose tenant is renamed in two ways that stay accepted |
| `Metrics.Histogram.ObserveMs` | crates/core/src/metrics.rs:41-53 | counts, total and saturating sum stay those of the observed history, negative latencies as zero |
| `Metrics.Histogram.P95Ms` | crates/core/src/metrics.rs:74-96 | the bucket loop computes the interpolated estimate, and its zero-count branch is never reached |
| `Metrics.TargetIsNearestRank` | crates/core/src/metrics.rs:79-79 | the target is the least rank covering 95 percent |
| `Metrics.P95InBucketOfTruth` | crates/core/src/metrics.rs:74-96 | the estimate lies in the bucket of the true nearest-rank sample, which is not empty; past the last bucket it is the last bound, below the true value |
| `Metrics.P95DividesBucket` | crates/core/src/metrics.rs:86-91 | the estimate divides its bucket as the wanted rank divides the samples in it |
| `Metrics.TotalIsSum` | crates/core/src/metrics.rs:49-52 | the recorded total is the sum in microseconds, less than one per sample lost to rounding |
| `Metrics.P95TruthExists` | crates/core/src/metrics.rs:74-96 | every non-empty history has exactly one sample of that rank |
| `Metrics.Histogram.RenderBuckets` | crates/core/src/metrics.rs:225-230 | each rendered bucket line carries the number of samples up to its bound |
| `CkgParse.FindDecl` | crates/core/src/ckg.rs:135-173 | the jumping search finds the identifier after the first standalone occurrence of the keyword |
| `CkgParse.CollectCalls` | crates/core/src/ckg.rs:221-246 | the index scan yields the identifiers followed by a parenthesis, in order |
| `CkgCalls.CallSitesExact` | crates/core/src/ckg.rs:221-246 | the calls of a line are, in order of position, exactly the words (runs of identifier characters from their first letter on) that blanks and a parenthesis follow |
| `CkgCalls.CallEdgesExact` | crates/core/src/ckg.rs:427-441 | for every text the call edges are exactly those words of its code lines, keywords excepted, from the function declared last |
| `CkgParse.ParseUseTargets` | crates/core/src/ckg.rs:258-284 | the loop yields the names between braces, or the last path segment |
| `CkgParse.ParseOneLine` | crates/core/src/ckg.rs:298-442 | one line, scanned by index, does what the line function says |
| `CkgForms.DeclarationRead` | crates/core/src/ckg.rs:360-411 | whatever stands around it, the first word `struct`, else `trait`, else `mod`, else `fn` declares the name after it |
| `CkgForms.ImplRead` | crates/core/src/ckg.rs:314-341 | `impl Type` without a `for` opens the block of `Type` |
| `CkgForms.TraitImplRead` | crates/core/src/ckg.rs:318-337 | `impl Trait for Type` opens the block of `Type` and defines `Trait` |
| `CkgForms.UsePathRead` | crates/core/src/ckg.rs:258-284 | `use a::b::Name;` imports `Name` |
| `CkgForms.UseListRead` | crates/core/src/ckg.rs:258-284 | `use a::{B, C as D};` imports `B` and `C`, for any list and any aliases |
| `CkgForms.DocIsJoined` | crates/core/src/ckg.rs:303-309 | the documentation of a symbol is the trimmed text of the lines before it, joined by blanks |
| `CkgParse.ParseSource` | crates/core/src/ckg.rs:291-445 | the walk over the lines yields the symbols and edges of the line fold |
| `CkgParse.ParsedGraphIsSound` | crates/core/src/ckg.rs:291-445 | for every text symbols come on strictly increasing lines, a call starts at the function declared last on an earlier line, a definition or containment at the impl opened last |
| `CkgMeaning.GraphIsWhatLinesSay` | crates/core/src/ckg.rs:291-445 | for every text the extracted symbols, their documentation and the edges are exactly those a line-by-line relational reading gives |
| `CkgParse.SourcesResolve` | crates/core/src/ckg.rs:291-445 | every edge but an import starts at the name of an extracted symbol |
| `CkgQuery.SourcesAlwaysFound` | crates/core/src/ckg.rs:466-493 | in a graph ingested from any files, a query finds the source symbol of every edge it follows |
| `CkgQuery.InMemoryCkg.IngestFile` | crates/core/src/ckg.rs:466-470 | ingestion appends what the parser extracts |
| `CkgQuery.InMemoryCkg.Find` | crates/core/src/ckg.rs:498-550 | the nested loops, sort and de-duplication compute the query function |
| `CkgQuery.QueryAnswersNeighbourhood` | crates/core/src/ckg.rs:498-550 | the answer holds exactly the neighbours of the relational specification, ordered by file, line and name, no two alike in a row |
| `CkgQuery.QueryIsOrdered` | crates/core/src/ckg.rs:537-543 | the answer is sorted by file, then line, then name, texts by the first character in which they differ |
| `CkgQuery.SymbolByNameIsFirst` | crates/core/src/ckg.rs:491-493 | of symbols of one name the first is found |
| `CkgRepetition.NoRepetitionIff` | crates/core/src/ckg.rs:511-548 | the answer is free of repetitions exactly when no two symbol-edge pairs reach a neighbour under one relation with a pair between them that reaches its place under another |
| `CkgRepetition.RepetitionSurvives` | crates/core/src/ckg.rs:537-548 | a source file whose graph answers with one neighbour twice under one relation |
| `CkgGaps.ParameterTakenForType` | crates/core/src/ckg.rs:157-172 | a generic block that is named after its type parameter instead of its type |
| `CkgGaps.EveryLaterFnIsContained` | crates/core/src/ckg.rs:291-405 | in every file a function is recorded as contained in the `impl` opened last before it, whatever closed in between |
| `CkgGaps.FreeFnIsContained` | crates/core/src/ckg.rs:394-403 | a file where a function after a closed, empty block is contained in it |
| `Cache.CacheRefinesWindow` | crates/probe/src/ollama.rs:309-351 | after any insertions the queue is the window over the admitted keys, distinct and bounded, the map has exactly its keys, each with the value inserted last |
| `Cache.PresentIffRecent` | crates/probe/src/ollama.rs:324-342 | a key is present exactly when fewer keys than the bound were admitted since it was |
| `Cache.CompletionCache.Get` | crates/probe/src/ollama.rs:324-326 | a look-up hits exactly within the window and returns the value inserted last |
| `Cache.CompletionCache.Insert` | crates/probe/src/ollama.rs:328-342 | an insertion refreshes in place or evicts the oldest key, and keeps the refinement |
| `Cache.CompletionCache.Len` | crates/probe/src/ollama.rs:344-346 | the size of the map is that of the window, never above the bound |
| `Nes.NesClient.Complete` | crates/probe/src/ollama.rs:520-542 | a call on its own: a hit skips the backend, a good answer is stored, a failure is answered by the fallback and stored nowhere |
| `Nes.CacheCoherent` | crates/probe/src/ollama.rs:520-542 | in every state of every interleaving the cache refines its window and holds only good answers of the real backend for that key, and so is every hit |
| `Nes.TotalFallbackNoErrors` | crates/probe/src/ollama.rs:534-541 | with a fallback that always answers no call returns an error |
| `Nes.HitsAgreeIffSuffixFree` | crates/probe/src/ollama.rs:306-333 | hits agree with uncached answers in every run exactly for backends that ignore the suffix |
| `Batch.PermitsConserved` | crates/probe/src/ollama.rs:446-466 | in every interleaving free permits plus holders is max(1, concurrency), so no more tasks run at once |
| `Batch.EndsAfterFourStepsEach` | crates/probe/src/ollama.rs:441-472 | no interleaving is stuck before the end, none exceeds four steps an item, and one has ended exactly at that many |
| `Batch.AnswersInOrder` | crates/probe/src/ollama.rs:467-471 | position i of the answer is what item i's own task finished with |
| `Batch.FinishedBatchIsMap` | crates/probe/src/ollama.rs:441-472 | a finished batch over a deterministic backend is the plain map over the items |
| `Retry.BackoffExact` | crates/probe/src/ollama.rs:145-148 | saturation never shows: the first wait is the base, each of the next thirty twice the one before, later ones the same, all under the cap |
| `Retry.Complete` | crates/probe/src/ollama.rs:230-251 | the first success among at most max_retries + 1 attempts, else the last failure, with one backoff wait before each repetition |
| `Lexer.StripNoncode` | scripts/ci/rs_static_check.py:26-97 | the index scanner computes the stripping function on every text |
| `Lexer.StripPreservesOffsets` | scripts/ci/rs_static_check.py:26-97 | for every text the length is kept, every character is kept or becomes a space, and a lost line feed stood alone between quotes |
| `Lexer.StripIdempotent` | scripts/ci/rs_static_check.py:26-97 | stripping twice is stripping once, for every text |
| `LexerGrammar.StripFollowsGrammar` | scripts/ci/rs_static_check.py:33-96 | exactly the comments and literals of the grammar tree are blanked, at any nesting and under any escapes |
| `LexerCoverage.EveryTextIsRead` | scripts/ci/rs_static_check.py:33-96 | every text has exactly one such tree, up to one block comment, string or raw string that nothing closes, and is stripped accordingly |
| `LexerReading.ReadingUnique` | scripts/ci/rs_static_check.py:33-96 | the grammar of comments and literals is unambiguous: two readings of one text have the same items and the same unclosed rest, so a text read to its end has no other reading |
| `Delimiters.CheckDelimiters` | scripts/ci/rs_static_check.py:107-126 | the loops report what the matcher function says |
| `Pairing.CheckReportsPairing` | scripts/ci/rs_static_check.py:107-126 | the diagnostics in full: each closing bracket goes with the nearest opening one still waiting, of whatever kind; those without one or with one of another kind are reported in the order of the text, then the opening ones left waiting |
| `Pairing.PairsDoNotCross` | scripts/ci/rs_static_check.py:114-121 | no two closing brackets go with one opening bracket and no two pairs cross, so no bracket stands in two diagnostics |
| `Delimiters.SilentIffBalanced` | scripts/ci/rs_static_check.py:107-126 | no diagnostic exactly when the brackets are in the grammar of balanced brackets |
| `Delimiters.TreeIsUnique` | scripts/ci/rs_static_check.py:103-104 | that grammar is unambiguous |
| `Delimiters.DiagnosticsPoint` | scripts/ci/rs_static_check.py:108-126 | every diagnostic names brackets of the text with the lines they stand on |
| `LexerCoverage.LineFeedsKeptIff` | scripts/ci/rs_static_check.py:88-94 | stripping keeps every line feed exactly when no character literal of the text is a bare line feed |
| `Delimiters.DiagnosticsPointIntoSource` | scripts/ci/rs_static_check.py:283-284 | under the same condition, and only then, stripping moves no position to another line, and every diagnostic names brackets of the source with the lines they stand on |
| `Delimiters.DiagnosticOnTheWrongLine` | scripts/ci/rs_static_check.py:283-284 | a text whose one diagnostic names the wrong line |
| `Delimiters.FileSilentIffCodeBalanced` | scripts/ci/rs_static_check.py:283-284 | stripping then matching any text is silent exactly when the brackets of its code are balanced, whatever its comments and literals hold |

## Left out

- Network, database, terminal and UI layers (gRPC, Tauri, React, CLI, sidecar, Postgres clients): I/O and foreign
  calls.
- SHA-256, JSON, base64 and token minting: library code; the hash is an abstract function.
- Retrieval ranking and placeholder embeddings: floating-point heuristics without a sharp claim.
- `craft.rs`, `collab.rs`, `config.rs`, `admin.rs`: filters, look-ups and field copies that would only add easy
  members.
- Events emitted to the host, tracing spans and wall-clock time: they change nothing that is modelled.
- Import and guard checks of the source checker: regular-expression heuristics.
- `CachedCompletionBackend` and `DegradingBackend`: the two halves of `NesClient`, which is modelled.
- Latencies and the 95 percent target are reals, so binary rounding of `f64` is not captured; neither are NaN
  latencies.
- Counters are unbounded, except the latency sum, whose saturation and wrap-around at 64 bits are modelled.
- Audit payloads are reduced to the tool name, so the reason text of a denial is not captured.
- Diagnostics of the bracket matcher are values with kinds and line numbers instead of formatted messages.
- Audit rows with a negative `perm_bit`, which no client writes, are not modelled; a null one is.
- Identifiers of pending approvals come from one counter of the model instead of a process-wide one.
- The two planner entry points share one loop method here; the source writes the loop twice.
- Sorting and adjacent de-duplication in `query` are functions: the library calls they stand for are not re-derived.
- The role that records and verifies is taken to see the rows of `audit`. The only permissive policy there is for
  INSERT (`migrations/0001_init.sql:212-218`, `migrations/0005_v20.sql:59-65`), so a role subject to row-level security
  reads none: every previous hash it records is empty, and its verification is silent.
- The database encoding is taken to be UTF-8, and stored texts to hold no zero byte, which PostgreSQL refuses.
- AuditChain.AuditTable.Record: does not model concurrent appends, because the source reads and inserts without a
  transaction.
- Batch.EndsAfterFourStepsEach: does not model a task that panics or never returns, because the backend is outside the
  model.
- CkgParse.ParseSource: does not fix which characters are alphanumeric beyond ASCII; the class is a parameter.
