# The session runtime, modelled and proved

This project models the event-sourced agent runtime in `harness/` and four self-contained
algorithms beside it, and proves properties of the model. The append-only session log is
the only authority of the runtime: the messages that the model sees, the reducer's state,
chat, inbox, pending approvals and retry counts are all folds over it, and compaction
rewrites the visible messages only by appending. `dafny verify dfyconfig.toml` checks the
whole project.

How the files follow the runtime:

- `Events`, `Surface`, `SurfaceFacts`, `Projections`: the log, its store, and its folds.
- `Schema`, `Rendering`, `RenderSize`, `Shrink`, `Merge`, `Fitting`: structured summaries, what
  they show and cost, eviction, merging, and fitting into a budget.
- `Units`, `Split`, `Trim`, `Compaction`, `CompactRuns`, `Compact`, `CompactFacts`: what a
  compaction may cut, what its steps do to the log, theorems over every run of steps, the
  compactor itself, working on a store, and the figures and texts that it goes by.
- `Reducer`, `Tables`, `TableViews`, `PostgresStore`: the reducer, and the store that spreads the
  log over tables. The tables are maps, the store is a class whose ghost log is the plain log.
- `Protocol`, `ProtocolState`: the run protocol as an automaton over log events, the
  theorems that hold of every accepted log, and its agreement with the reducer. The
  automaton does not mention the agent.
- `Pairing`: calls and results on the surface of every accepted log.
- `Retry`, `Repeats`, `Runtime`, `Scheduler`, `History`, `Moves`, `Steps`, `StepFacts`,
  `AgentLoop`: retry policy, tool batches, and the agent. `Steps` tells what one step and the
  step loop write, from the log and the surroundings alone, and `StepFacts` why a turn ends as
  it does. The agent's methods are proved to do that, and to write accepted logs only, with
  the compactor running inside every step. `Witnesses` holds concrete logs.
- `Leases`, `Service`: session leases, and the agent's entries under a lease.
- `JsonLists`, `JsonProjection`, `JsonAccounts`, `JsonRepair`, `JsonDump`, `SqlSplit`, `FactMatch`,
  `Chunking`, `TableSplit`: the algorithms. `Subsequence` is shared by the proofs.

Small lemmas beside a definition, such as `Retry.LimitedIff`, `Shrink.ProtectedIs`, `Trim.PageIs`
or `Merge.StampedIs`, spell it out on constructors and figures, so that no constant rests on
the definition alone. Those that say no more than that have no row of their own below.

The model, the tools, the error policy, the compaction model and the scheduler of
concurrent calls are functions of the log that are never constrained further, so every
theorem holds whatever they answer. A parallel batch moves one call one stage at a time in
the order of an arbitrary schedule.

What the proofs assume, because the code needs it:

- Event ids, call ids and approval ids are new when they are made: no answer of the model
  offers an id that an earlier one offered (`Scheduler.FreshIds`, `PostgresSessionStore.IdsFresh`).
- No prompt and no outside injection arrives while an approval is pending or a batch runs;
  the code does not block either (`harness/agent/loop.py:66-109`).
- No exception is left uncaught: a prompt is not blank, calls have an id and a name.
- No user message claims the source `compaction`, which the envelope check would allow.
- Summary item ids are unique within a field wherever protection is claimed, since eviction
  removes by id (`harness/compaction/compact.py:406-408`).

Where the code does less than one might expect, the lemma that shows it and the exact
condition are in the table: protection of summary items (`Shrink.ProtectionIff`), unchanged
calls after a failure (`History.RepeatRunsIff`, `Witnesses.TwoAlikeBothRun`), refusals and
successes after a trim (`Repeats.RefusedIffUnmasked`, `Witnesses.TrimReadmitsInvalidCall`,
`Retry.TrimCountsAsSuccess`, `Witnesses.TrimBringsSuccess`), the count of omitted records
(`JsonAccounts.AccountsIff`), rows of a table (`TableSplit.ShownIff`, `TableSplit.WholeIff`),
cancelled sequential batches and what the model is sent after one (`AgentLoop.Agent.TakeReply`,
`Pairing.SentExactlyIff`, `Witnesses.CutBatchIsSent`), index row and reducer
(`PostgresStore.AgreesIff`), attempts of the ledger tools
(`Retry.KeyTellsApart`, `Retry.KeysCollide`), and expired leases (`Leases.ExpiryLetsTwoIn`,
`Service.OverlappingResumes`). Three smaller observations: pinning
an incomplete last unit (`harness/compaction/compact.py:105-106`) never matters, because the
last unit is always kept; the violation for a missing request header
(`harness/agent/loop.py:288-303`) cannot arise; and the reducer records a summary's id even
when its transaction is never completed (`harness/session/reducer.py:93-94`).

## Model

| member | source | states |
|---|---|---|
| Trim.TrimIsLossless | harness/compaction/compact.py:42-55 | read from the trimmed text alone: its last line names the log event, the length and the span cut out, it starts with everything before that span and shows everything behind it; with room for head and tail it shows exactly those around the mark |
| Trim.RefIsRead | harness/compaction/compact.py:53-55 | the last line reads back as the event, the length, the start and the end that it was written for |
| Trim.ReadOn | harness/tools/log_read.py:67-116 | following `next_offset` with any page sizes ends and reads exactly the rest of the text |
| Trim.ReassembleFromPages | harness/tools/log_read.py:67-116 | from the trimmed text and pages of the log, in any page sizes: what is shown before the cut, the pages that the reference names, and what is shown behind it give back the original |
| JsonProjection.ProjectToolJson | harness/compaction/project.py:60-90 | computes, for every document, the drop-until-fits result of the lemmas below, written out with its reference; a returned text is within the limit |
| JsonProjection.Longest | harness/compaction/project.py:80 | the record list that loses a record is the first of the longest ones |
| JsonProjection.FitIff | harness/compaction/project.py:76-90 | a projection is declined if and only if the text is too long even with every record dropped that is ever found |
| JsonLists.PopTotal | harness/compaction/project.py:24-36 | each drop leaves exactly one record less to be found, wherever in the tree the list stands: the loop ends |
| JsonAccounts.AccountsIff | harness/compaction/project.py:69-90 | under every limit each list shown is a front part of its slimmed form and shown plus omitted is the reported total, if and only if no record list stands under `log_ref` and every list found is, once slimmed, still found or free of lists |
| JsonAccounts.NestedExample | harness/compaction/project.py:45-57 | otherwise it fails: a record with a blank title and two records in its entity is reported as total 1, omitted 2 |
| JsonAccounts.HiddenExample | harness/compaction/project.py:69-73 | and a record list under `log_ref` is overwritten: total 2, one shown, none omitted |
| JsonDump.DumpIsDocument | harness/compaction/project.py:86-90 | what is written for a projection is that document in the grammar of section 2 of RFC 8259: the same values, items and fields in the same order, a space behind each comma and colon |
| JsonDump.DumpIsKept | harness/compaction/project.py:86-90 | it is well-formed JSON, and the repair of unescaped quotes leaves it as it is |
| JsonDump.SlimIs | harness/compaction/project.py:45-57 | a slimmed record keeps a short title and summary, and url, id and entity as they are, and nothing else; exactly a record that would keep nothing is shown in its raw form |
| Shrink.ShrinkSummary | harness/compaction/compact.py:373-409 | the eviction loop ends and computes the shrunk summary of the theorems below |
| Shrink.NeverDropsProtected | harness/compaction/compact.py:345-409 | no live protected item and no open item is dropped under any budget, when no candidate shares its id within the field |
| Shrink.ProtectionIff | harness/compaction/compact.py:406-408 | protection holds for every budget if and only if no unprotected candidate shares the id of a protected live item of its field |
| Shrink.SharedIdDropsProtected | harness/compaction/compact.py:406-408 | with a shared id the least budget that a caller passes, 1, drops a protected item, since eviction is by id |
| Shrink.FitsIff | harness/compaction/compact.py:373-409 | without its narrative the result fits the budget if and only if the items that may never be evicted fit on their own |
| Shrink.EvictedStops | harness/compaction/compact.py:396-409 | eviction ends within the budget or with nothing evictable left |
| Shrink.ShrinkDropsSmallest | harness/compaction/compact.py:390-409 | everything dropped goes with a candidate of its id that comes before every candidate kept in the eviction order: no uniqueness of ids is asked for |
| Shrink.DroppedInOrder | harness/compaction/compact.py:390-409 | that candidate, the item itself when ids are unique, is against every candidate kept of a field that goes sooner, from notes to constraints, or in the same field no more urgent, then no younger, then first by its id; the orders are written out on the constructors |
| Shrink.DroppedOnlyWhenOver | harness/compaction/compact.py:396-409 | for every dropped item: with all earlier candidates gone and the item still there the text was over budget |
| Shrink.ShrunkMonotone | harness/compaction/compact.py:373-409 | a larger budget keeps a superset of the items |
| Shrink.ProtectedIsLowerBound | harness/compaction/compact.py:363-370 | the protected tokens that a violation reports bound every shrunk summary from below |
| RenderSize.FewerItemsFewerTokens | harness/compaction/schema.py:160-202 | a summary with fewer items and no more narrative never renders to more tokens |
| Merge.UpsertItems | harness/compaction/compact.py:245-262 | the dictionary-and-order loop computes the one-at-a-time upsert of the lemmas below |
| Merge.UpsertUnique | harness/compaction/compact.py:245-262 | afterwards every id occurs once and no removed id is left |
| Merge.UpsertLastWins | harness/compaction/compact.py:254-262 | the last item given for an id is the one kept |
| Merge.MergeSummary | harness/compaction/compact.py:299-342 | field by field the upsert, the tasks taken from the todo list, the clipped narrative |
| Merge.KeepsTheRest | harness/compaction/compact.py:299-318 | outside the task fields an item that the delta neither removes nor replaces is still there |
| Merge.MergedUnique | harness/compaction/compact.py:311-318 | merged fields other than the tasks hold each id once: what protection by id needs |
| Merge.OpenIsNotCompleted | harness/compaction/compact.py:319-340 | no task is open and completed at once |
| Merge.OpenIff | harness/compaction/compact.py:319-340 | an item is an open task if and only if it is an open row of the todo list, or an open item of summary or delta that the list does not mention, and no completed task has its text |
| Merge.CompletedIff | harness/compaction/compact.py:319-336 | an item is a completed task if and only if it is a completed row of the list, or a completed item that the list does not mention |
| Fitting.FitSummary | harness/compaction/compact.py:800-816 | shrink, compress the narrative, shrink again: the chain of the two theorems below |
| Fitting.FittedKeepsProtected | harness/compaction/compact.py:800-816 | the whole chain never drops a live protected item or an open one |
| Fitting.FittedFitsIff | harness/compaction/compact.py:800-816 | the chain meets the budget if and only if the never-evictable items fit, or the compressed narrative already made it fit |
| Events.SessionStore.Append | harness/session/store.py:103-126 | an ill-formed draft changes nothing; otherwise exactly its normal form is stored under the next number |
| Events.SessionStore.LoadEvents | harness/session/store.py:97-98 | returns exactly the events after the given number |
| Events.NormalizeTwice | harness/session/envelope.py:78-125 | what the envelope check lets through it lets through again unchanged: the validity of every stored event |
| Surface.CommittedSeqs | harness/session/surface.py:52-63 | the shared scan finds exactly the summaries enclosed by a start and an end with no other bracket between |
| Surface.CommittedIff | harness/session/surface.py:52-63 | a summary's own number is found exactly when it is so enclosed |
| Surface.OrphansStayOrphans | harness/session/surface.py:52-63 | whatever later runs append, the fate of a logged summary stays: an orphan is never committed later, a committed one stays committed |
| Surface.BareEndCommitsAnOrphan | harness/session/surface.py:52-63 | without that condition it fails: an end on its own commits an orphaned summary |
| Surface.DeriveMessages | harness/session/surface.py:66-167 | the loops of the projection compute the fold that all surface theorems are about |
| Surface.InsertSummary | harness/session/surface.py:74-110 | a committed summary stands where the first message it drops stood, or at the end |
| Surface.ReplaceResult | harness/session/surface.py:111-131 | a replacement stands where the result stood and is lost when the result is gone |
| SurfaceFacts.TransactionIsAtomic | harness/session/surface.py:52-110 | after start, and after start and summary, the surface is the old one; after the end the summary stands in for its sources all at once |
| SurfaceFacts.DeriveFaithful | harness/session/surface.py:66-167 | every surface message shows its own event of the log, each event at most once |
| SurfaceFacts.MessagesTell | harness/session/surface.py:78-165 | every surface message says what its event says, field by field: role, text, source, calls, and of a result its call, its tool and its text or, without one, that of its payload |
| Units.SplitUnits | harness/compaction/compact.py:58-74 | the grouping loop computes the units of the lemmas below |
| Units.FlatUnits | harness/compaction/compact.py:58-74 | the units partition the surface in order |
| Units.UnitsFlat | harness/compaction/compact.py:58-74 | units laid end to end are found again |
| Units.SummaryKeepsPairs | harness/session/surface.py:74-110 | a summary replacing whole units lands on a unit boundary and separates no call from its results |
| Units.TrimKeepsPairs | harness/session/surface.py:111-131 | replacing one result by another of the same call separates nothing, and would join nothing |
| Split.SplitPrefix | harness/compaction/compact.py:93-138 | computes the prefix and the rest of the theorems below |
| Split.PrefixAligned | harness/compaction/compact.py:93-138 | the prefix consists of whole units: no other unit is touched |
| Split.PickedIff | harness/compaction/compact.py:120-138 | a message is in the prefix exactly when its unit is neither in the tail that fits nor pinned |
| Compaction.NewestUserKept | harness/compaction/compact.py:107-119 | the newest real user message of the turn is never folded away |
| Compaction.StepKeepsPairs | harness/compaction/compact.py:751-887 | no trim, summary, rewrite, violation or crash of a compaction separates a call from its results |
| Compaction.StepKeepsOneSummary | harness/compaction/compact.py:770-775 | each such step leaves on the surface exactly the newest committed summary |
| Compaction.StepKeepsNewestUser | harness/compaction/compact.py:93-138 | each such step keeps the newest real user message of its turn, and it stays the newest |
| CompactRuns.RunKeepsPairs | harness/compaction/compact.py:751-1017 | over every run of compactions the answers behind every assistant message stay as they were |
| CompactRuns.RunKeepsAnswers | harness/compaction/compact.py:751-1017 | in particular each assistant message keeps exactly its own results behind it |
| CompactRuns.RunKeepsNewestUser | harness/compaction/compact.py:93-138 | the newest user message of the turn outlives every run of compactions in it |
| CompactRuns.OneSummaryAlways | harness/compaction/compact.py:184-194 | on every log that ordinary appends and compactions, crashes included, can produce, the surface shows exactly the newest committed summary |
| Pairing.StaysIntact | harness/session/surface.py:66-167 | whatever the agent itself appends, the surface keeps showing the newest summary only, and behind each answer of the model exactly the results of those of its calls that are done |
| Pairing.StepStaysIntact | harness/compaction/compact.py:751-1017 | so does every step of a compaction between two steps of the agent or before its request |
| Pairing.SentExactlyIff | harness/session/surface.py:66-167 | with no call open, every assistant message on the surface stands with exactly its results if and only if no batch still shown was cut short |
| CompactRuns.ExactlyOneSummary | harness/session/surface.py:66-110 | such a surface has one summary message once any is committed and none before |
| CompactRuns.RunKeepsViews | harness/session/surface.py:170-238 | compaction only appends: the old log is a prefix, chat, inbox, pending approvals and attempt counts are unchanged |
| Compact.LatestCommitted | harness/compaction/compact.py:184-194 | finds the newest committed summary, none exactly when there is none |
| Compact.TrimLongestTool | harness/compaction/compact.py:624-671 | replaces the first of the longest results not replaced before by its trimmed text, and does nothing only when that text is the result itself or there is no such result |
| Compact.TrimProgress | harness/compaction/compact.py:634-645 | each trim settles one result for good: what is left to trim strictly shrinks |
| Compact.TrimOffSurface | harness/session/surface.py:111-131 | trimming a result that is no longer on the surface leaves the surface unchanged |
| Compact.AppendSummaryEvents | harness/compaction/compact.py:702-748 | appends start, summary with the rendered text and the given sources, and end |
| Compact.WriteSummary | harness/compaction/compact.py:751-846 | writes if and only if there is something to fold and the model answered; then it folds exactly the prefix and the newest summary into the fitted merge of the delta, or the clipped text |
| Compact.RewriteExistingSummary | harness/compaction/compact.py:849-887 | replaces the newest summary by its refit to what the other messages leave, and does nothing only when the refit is the summary itself or there is none |
| Compact.TrimWhileOver | harness/compaction/compact.py:939-957 | the trim loop ends; it trims the longest result while over the target, until the target is met or nothing is left to trim |
| Compact.MaybeCompact | harness/compaction/compact.py:899-1017 | below the trigger nothing happens; otherwise trims, then a summary, then a refit, each exactly when still over the target and possible; with an enforced budget it ends within the target or records a violation with the tokens and the protected tokens; all of it a run of compaction steps |
| CompactFacts.TailIsLongest | harness/compaction/compact.py:121-131 | the tail that is kept is the last unit and as many units before it as the tokens allow, not one more |
| Rendering.EstimateIs | harness/compaction/meter.py:12-17 | a text counts one token for each ideograph and one for every four other characters |
| CompactFacts.AllowedIs | harness/compaction/compact.py:774-780 | a delta may name tasks if and only if some of what is folded is of the current turn; the rest of it is untouched |
| CompactFacts.ExtractIs | harness/compaction/compact.py:763-766 | what is folded in are the messages of the prefix that are no summary, in order |
| CompactFacts.TodosAreNewest | harness/compaction/compact.py:412-420 | the todo list taken in is the newest of the turn |
| Rendering.RenderedIs | harness/compaction/schema.py:160-202 | a rendered summary is its title, a headed section for each field in order with a line for each item that is not over and has something to say, and the narrative |
| Compact.TargetBelowTrigger | harness/compaction/policy.py:34-44 | with the default ratios a reached target is no reason for the next compaction, in any window of five tokens or more |
| Projections.ProjectChat | harness/session/surface.py:170-194 | the chat rows are the shown user messages and the published answers in log order |
| Projections.ChatRows | harness/session/surface.py:170-194 | a row is in the chat if and only if it is what a user message of source user, legacy or vision says, or what was published |
| Projections.ChatInOrder | harness/session/surface.py:170-194 | the rows stand in the order of the log |
| Projections.ProjectInbox | harness/session/surface.py:218-238 | the open inbox entries are those spliced and neither claimed nor discarded |
| Projections.InboxIs | harness/session/surface.py:218-238 | an entry is open if and only if it was spliced and no claim and no discard names it; entries stand oldest first |
| Projections.PendingApprovals | harness/approval/service.py:11-20 | computes the pending approvals of the lemma below |
| Projections.PendingIff | harness/approval/service.py:11-20 | an approval is pending exactly when it has an id, was asked and was never decided |
| Reducer.ReduceSession | harness/session/reducer.py:58-100 | the reducing loop computes the fold over the events in order of their numbers |
| Reducer.StateShowsNewest | harness/session/reducer.py:66-99 | todo list, published answer, summary, status, run, turn and step are each what the newest event says that speaks of them |
| Reducer.StateShowsNothing | harness/session/reducer.py:14-24 | and what they are at first when no event does |
| Reducer.OverlapReplay | harness/session/reducer.py:58-100 | the state of a prefix and any suffix overlapping it reduce to the state of the whole log |
| Reducer.PermutationInvariant | harness/session/reducer.py:58-66 | the order of arrival is of no account when each number belongs to one event |
| Reducer.RoundTripIff | harness/session/reducer.py:25-55 | writing a state out and reading it back is the identity if and only if the status is set |
| Reducer.ReachableRoundTrips | harness/session/reducer.py:25-55 | it is the identity on every state that a reduction reaches |
| PostgresStore.PostgresSessionStore.Append | harness/session/postgres.py:98-154 | same contract as the in-memory store; each kind of event goes to its own table, and all rows written before still read back as they did |
| PostgresStore.PostgresSessionStore.WriteDomainRecord | harness/session/postgres.py:279-419 | whatever the kind, the payload reads back as what was written; rows that later writes change keep what older events read back as; the attempts of each call stay numbered 1 to its count |
| PostgresStore.PostgresSessionStore.WriteToolResult | harness/session/postgres.py:345-380 | a result finishes an attempt of the newest call with its id, or of a call made for it, and no other call shows a new status |
| PostgresStore.PostgresSessionStore.WriteMessage | harness/session/postgres.py:296-319 | a model's answer finishes the newest running model call of its run and step and no other |
| PostgresStore.PostgresSessionStore.LatestState | harness/session/postgres.py:175-188 | the state read back is that of the newest snapshot |
| TableViews.NotRunIffPending | harness/session/postgres.py:320-380 | on every accepted log a call's row is not run exactly while the call is pending |
| TableViews.UndecidedIffPending | harness/session/postgres.py:378-400 | on every accepted log the approval rows still undecided are exactly the approvals that the pending scan finds |
| PostgresStore.PostgresSessionStore.LoadEvents | harness/session/postgres.py:82-96 | reads back exactly the plain log after the given number |
| PostgresStore.PostgresSessionStore.LoadState | harness/session/postgres.py:175-193 | newest snapshot plus tail is the reduction of the whole log |
| PostgresStore.PostgresSessionStore.MaybeWriteSnapshot | harness/session/postgres.py:242-271 | a snapshot holds the state of the whole log, whether or not the query sees the row just added |
| PostgresStore.AgreesIff | harness/session/postgres.py:422-445 | an update keeps index row and reducer in agreement if and only if the event carries no turn or step 0 after a positive one |
| PostgresStore.IndexNext | harness/session/postgres.py:422-445 | with positive turns and steps the index row agrees with the reducer on every log |
| PostgresStore.SnapshotIsExact | harness/session/postgres.py:242-271 | replaying the tail, the newest event twice if the query sees it already, gives the exact state |
| Tables.KeptReads | harness/session/postgres.py:448-488 | while rows keep their event data, whatever was read back stays as it was |
| Tables.NextAttempt | harness/session/postgres.py:345-380 | one more attempt keeps the numbering gapless and the call's status that of its last attempt |
| Retry.ToolAttemptCounts | harness/tools/retry_policy.py:59-68 | counts for every key the calls of limited tools in the turn |
| Retry.SameKey | harness/tools/retry_policy.py:36-58 | attempts are counted together by the tool's name and, for the two ledger tools, by the fields that tell their actions apart; no other argument matters |
| Retry.KeyTellsApart | harness/tools/retry_policy.py:36-58 | ledger actions that differ in such a field are counted apart as long as no field holds the separator |
| Retry.KeysCollide | harness/tools/retry_policy.py:58 | otherwise two different actions may share a key |
| Retry.AllocateToolAttempts | harness/tools/retry_policy.py:71-90 | blocks exactly the calls that exceed two attempts of their key, counting earlier calls of the batch |
| Retry.AdmittedIsUsed | harness/tools/retry_policy.py:71-90 | earlier attempts and admitted calls together never exceed two (or what there was before) |
| Retry.BlockedRetries | harness/tools/retry_policy.py:111-156 | refuses, with the code of the source, exactly the retries that the latest failure of their key rules out |
| Retry.RefusedWhen | harness/tools/retry_policy.py:134-156 | a call is refused if and only if the latest failure of its key was for an unavailable or faulty tool, or was an invalid or empty one with the same arguments; the code tells which |
| Retry.TrimMasksFailure | harness/compaction/compact.py:654-669 | after a trim a call is refused if and only if it was before and the trimmed result is not a failure for its key |
| Repeats.RefusedIffUnmasked | harness/tools/retry_policy.py:111-156 | on an accepted log a call that repeats, canonically unchanged, the latest invalid or empty failure of its key is refused if and only if no trim has masked that failure |
| Repeats.RepeatIsNewOrMasked | harness/tools/retry_policy.py:111-156 | a call once let through that later repeats the latest failure of its key repeats one logged since, or a masked one |
| History.RepeatRunsIff | harness/tools/scheduler.py:73-77 | a batch call that repeats such a failure, nothing else being against it, runs: for a failure before the vetting if and only if it was masked, for a later one if and only if nothing logged before the vetting refuses it |
| AgentLoop.RepeatsOnlyUnseen | harness/tools/scheduler.py:73-77 | of all runs of a session one repeats the latest invalid or empty failure of its key only if that came after its batch's vetting or was masked by then |
| AgentLoop.ApprovedRepeatsOnlyMasked | harness/control/approval.py:27-88 | an approved run repeats, up to its decision, a masked failure or none |
| Witnesses.TwoAlikeBothRun | harness/tools/scheduler.py:73-77 | on an accepted log two equal calls of one batch both pass the vetting, the first fails as invalid, and the second still runs |
| Witnesses.TrimReadmitsInvalidCall | harness/compaction/compact.py:624-669 | on an accepted log, under any pruning size, the compactor's own trim of the failed result re-admits the same call, which was refused before |
| Retry.TrimCountsAsSuccess | harness/compaction/compact.py:654-669 | after a trim the current turn has a successful tool if and only if it had one or the trimmed result, of any turn, was one |
| Witnesses.TrimBringsSuccess | harness/tools/retry_policy.py:167-176 | on an accepted log, under any pruning size, the compactor's own trim of a result of the turn before gives the current turn a success it did not have |
| Protocol.TurnsIncrease | harness/agent/loop.py:482-484 | turn numbers strictly increase |
| Protocol.TurnEndsOnce | harness/agent/loop.py:449-463 | each turn ends at most once |
| Protocol.StepsIncrease | harness/agent/loop.py:243-245 | step numbers strictly increase within a turn, pauses included, and never exceed 30 |
| Protocol.EndMatchesStart | harness/agent/loop.py:250-253 | a step end closes its own step's start, with no step bracket between |
| Protocol.StartAfterEnd | harness/agent/loop.py:250-253 | a step starts only when none is open |
| Protocol.OpenOnlyWhileWaiting | harness/agent/loop.py:66-169 | between calls of the agent a step is open exactly while an approval is awaited |
| Protocol.HeaderPrecedes | harness/session/invariant.py:11-17 | each assistant message is preceded by a request header of its turn and step |
| Protocol.CompletedIffAnswered | harness/agent/loop.py:206-226 | a turn ends as completed if and only if it published exactly one answer; none publishes two |
| Protocol.CalledOnce | harness/tools/scheduler.py:155-165 | a call id is called at most once in a log |
| Protocol.CallIsAnswered | harness/tools/scheduler.py:155-199 | a call that is not pending has a later result |
| Protocol.AnsweredOnce | harness/tools/scheduler.py:155-199 | and only one |
| Protocol.OnlyTheAskedIsOpen | harness/tools/scheduler.py:90-153 | at rest no call is open, or exactly the one that awaits its approval |
| Protocol.AskedOnce | harness/approval/service.py:11-28 | an approval id is asked at most once |
| Protocol.DecidedOnce | harness/control/approval.py:40-50 | an approval id is decided at most once |
| Protocol.DecidedRightAfterAsked | harness/control/approval.py:40-50 | a decision stands right behind its question |
| ProtocolState.PendingCallsAtRest | harness/session/reducer.py:78-84 | the reducer's pending calls are empty at each turn end and exactly the asked call while waiting |
| ProtocolState.PendingApprovalAgrees | harness/approval/service.py:11-28 | the reducer's pending approval is pending in the log, and there is no other |
| ProtocolState.StateMatches | harness/session/reducer.py:58-100 | on every accepted log the reducer shows turn, status, pending calls and approval of the protocol |
| Scheduler.RunTogether | harness/tools/scheduler.py:155-207 | for every interleaving each call is called, then looked at, then its result logged, field by field: the tool's answer at that look when nothing spoke against it, else an error with the code of what did; results stand in model order, and what ran was allowed and ran once |
| Scheduler.RunInOrder | harness/tools/scheduler.py:208-214 | the same in sequence; the last calls stay without call and answer if and only if the cancel flag was set right behind the result of one of the batch's own calls, but not of the last |
| Scheduler.Ask | harness/tools/scheduler.py:90-153 | all calls are called, each but the asked one is answered by an error that names why it is put off, nothing else is logged or runs, and the log ends with the question |
| Scheduler.ExecuteToolCalls | harness/tools/scheduler.py:60-214 | the branches together: a question about a call that needs approval and is allowed, or results, each logged field by field as what the tool returned behind its call or the error it was due, no call that needs an approval having run; results are missing if and only if the calls go one after the other and the flag was seen between two of them |
| History.CountAdmitted | harness/tools/retry_policy.py:71-90 | no more calls of a batch match a key than the allocation admits |
| History.CountWithinAttempts | harness/tools/retry_policy.py:59-68 | what ran in a turn never exceeds the recorded attempts of its key |
| History.BatchBounded | harness/tools/scheduler.py:73-88 | a batch keeps the bound of two runs for each key and turn |
| Moves.MaxTurnIsTurn | harness/agent/loop.py:482-489 | the largest turn of the log, from which the next is counted, is the current turn |
| Moves.ClaimInbox | harness/agent/loop.py:174-199 | for each open entry in order a claim and, unless it is blank, its text as a user message are logged, and nothing else; afterwards the inbox is empty |
| Moves.AskModel | harness/agent/loop.py:400-447 | the header and, if they are kept, the pieces of the answer are logged, so the invariant check always passes; what is sent pairs calls and results exactly if and only if no batch shown was cut short |
| Moves.CloseTurn | harness/agent/loop.py:449-463 | a turn under way has no end yet; it gets one with its reason |
| AgentLoop.Agent.TakeReply | harness/agent/loop.py:338-393 | the answer is logged first; some of the calls it offers are never called if and only if no approval is asked, the calls go one after the other, and the run was cancelled right behind the result of one of them that is not the last |
| Witnesses.CutBatchIsSent | harness/tools/scheduler.py:208-214 | an accepted log of a batch of two calls that is cut after the first, seen by the flag exactly behind its result; the next turn is about to send the model the second call without a result |
| AgentLoop.CompactNow | harness/agent/loop.py:256-269 | nothing happens below the trigger; otherwise the three stages run, and the call succeeds if and only if they reach the target, else a violation is logged |
| AgentLoop.Agent.OneStep | harness/agent/loop.py:250-392 | one step, told by its events: its start, the compaction, the request, and what the model said with what became of it: a failure with its code, a text published if there is one to show, or calls carried out, skills and policy applied, the step ended |
| AgentLoop.Agent.Steps | harness/agent/loop.py:243-393 | the loop takes step after step as told by `OneStep` until one stops it, the flag is set between two, or the thirty are used up; it leaves the log paused at a question or between two steps, completed exactly with an answer |
| StepFacts.StepIsTaken | harness/agent/loop.py:245-253 | a step is taken if and only if one is left and the flag is not set; otherwise nothing is logged |
| StepFacts.CancelledIff | harness/agent/loop.py:246-247 | the loop ends as cancelled if and only if the flag was set where it was about to go on or the last step ended as cancelled; as timed out or waiting if and only if the last step did |
| StepFacts.ErrorHasCause | harness/agent/loop.py:273-336 | it ends with an error only when the thirty steps are used up, the last request failed, the budget could not be met, or the answer left nothing to show |
| StepFacts.AnswerCompletes | harness/agent/loop.py:243-362 | when the request fits, the flag is not set and the model answers with a text to show, the first step publishes it and completes |
| AgentLoop.Agent.Prompt | harness/agent/loop.py:66-96 | from rest to rest: the turn after the last opens with the message, takes in the inbox, goes through its steps as told by `Steps` and ends with the reason returned unless it waits; runs are only added, and the bounds on runs, the approvals and the pairing of calls and results are kept |
| AgentLoop.PromptIsAnswered | harness/agent/loop.py:66-96 | a prompt that fits, that nobody cancels and that the model answers with a text to show ends as completed behind that text |
| AgentLoop.Agent.Resume | harness/agent/loop.py:119-169 | refuses exactly the approvals that are not pending, changing nothing; otherwise decision, result, the texts of an allowed skill and the end of the step come next and the steps go on as told by `Steps`; the tool runs once more exactly if allowed and known, all invariants are kept |
| AgentLoop.Agent.Apply | harness/control/approval.py:27-88 | decision, the tool's todo list if any, result, and nothing else: the result is what the tool returns right behind the decision if allowed and known, else that it is unknown or denied, field by field; the tool runs once if allowed and never if not |
| AgentLoop.NewSession | harness/agent/loop.py:66-96 | a session without events is at rest and intact: the invariants kept by prompt and resume have a start |
| AgentLoop.Agent.Inject | harness/agent/loop.py:98-109 | between turns exactly the message is appended, in the current turn or turn 1 |
| AgentLoop.AtMostTwoRuns | harness/tools/retry_policy.py:71-90 | in one turn, over all steps, batches and pauses, at most two calls with one attempt key of a limited tool reach the pipeline; `Agent.Prompt` and `Agent.Resume` keep the invariant it reads |
| AgentLoop.RunsOnceAllowed | harness/control/approval.py:27-88 | a tool that needs approval runs only for an approval asked for that very call and then allowed, and for each approval once |
| AgentLoop.DeniedNeverRuns | harness/control/approval.py:54-55 | a denied approval never runs its tool |
| AgentLoop.PendingMeansPaused | harness/agent/loop.py:128-131 | the approval that may be decided is the one the log ends with, and turn and step read off the log are its own |
| Leases.InMemoryLeaseStore.Acquire | harness/agent/leases.py:24-36 | busy exactly while an unexpired lease stands, then nothing changes; otherwise the new lease is the session's only one that holds; whoever holds a lease not yet expired keeps it |
| Leases.InMemoryLeaseStore.Release | harness/agent/leases.py:38-41 | removes the lease only for its own token; whoever holds another lease keeps it |
| Leases.InMemoryLeaseStore.OneHolder | harness/agent/leases.py:20-41 | two unexpired, unreleased leases of one session are one and the same; `Acquire` and `Release` keep the invariant it reads |
| Leases.StaleRelease | harness/agent/leases.py:38-41 | a stale holder's release leaves the current lease alone |
| Leases.ExpiryLetsTwoIn | harness/agent/leases.py:24-36 | a lease that expires before its holder is done lets a second caller in |
| Service.ResumeUnderLease | harness/agent/loop.py:119-169 | a decision takes effect, as told by `Resume`, only on a free session and a pending approval, and the lease is given back |
| Service.OverlapDecidesTwice | harness/approval/service.py:23-28 | after one decision of an approval a second is accepted by no crash-free log |
| Service.OverlappingResumes | harness/agent/loop.py:119-169 | two resumptions of one approval overlap: the log stays accepted if and only if the second comes before the lease of the first runs out; then it is turned away and the first decides, otherwise the log holds two decisions and the tool runs for the late one again |
| Service.PromptUnderLease | harness/agent/loop.py:66-96 | a busy session is left alone; on a free one the turn runs as told by `Prompt` and the lease is given back |
| JsonRepair.RepairUnescapedQuotes | retrieval/retrievers/json_utils.py:10-33 | the character loop computes the two-flag rewriting of the lemmas below |
| JsonRepair.WellFormedIsKept | retrieval/retrievers/json_utils.py:10-33 | every well-formed JSON document is left as it is |
| JsonRepair.RepairEscapesRawQuotes | retrieval/retrievers/json_utils.py:10-33 | in a document whose raw quotes are not followed by a comma, a colon or a closing bracket exactly the raw quotes are escaped |
| JsonRepair.RepairTwice | retrieval/retrievers/json_utils.py:10-33 | a second repair changes nothing, on any input |
| SqlSplit.SplitSqlStatements | scripts/migrate.py:15-74 | the index loop computes the statements of the scan below |
| SqlSplit.JoinSegments | scripts/migrate.py:33-73 | joined by semicolons the raw segments are the input |
| SqlSplit.SegmentsClosed | scripts/migrate.py:33-73 | every segment is closed in itself: no cut inside a quote, a doubled quote or a line comment |
| SqlSplit.SplitUndoesJoin | scripts/migrate.py:33-73 | closed statements are found again in their semicolon-join |
| SqlSplit.SplitReturnsStatements | scripts/migrate.py:23-74 | when each contains SQL, splitting the join returns them all, stripped, in order |
| SqlSplit.HasSqlIff | scripts/migrate.py:21-30 | a statement holds SQL if and only if one of its lines is neither blank nor a comment |
| SqlSplit.QuotedIsClean | scripts/migrate.py:49-64 | a quoted text with doubled marks is closed whatever it contains |
| SqlSplit.CommentIsClean | scripts/migrate.py:37-47 | a line comment with its line break is closed whatever it contains |
| SqlSplit.CleanAppend | scripts/migrate.py:33-73 | closed texts that do not run together make a closed text |
| FactMatch.MatchFacts | evals/evaluators/fact.py:129-147 | the loop computes the greedy matching of the lemmas below |
| FactMatch.GreedyIsMatching | evals/evaluators/fact.py:129-147 | matches are compatible and no actual fact is matched twice |
| FactMatch.GreedyIsMaximal | evals/evaluators/fact.py:129-147 | no missing fact has an unused compatible actual fact |
| FactMatch.AtLeastHalf | evals/evaluators/fact.py:129-147 | at least half as many matches as any one-to-one matching |
| FactMatch.HalfIsTight | evals/evaluators/fact.py:129-147 | more cannot be promised: a case with half |
| FactMatch.MetricsHalf | evals/evaluators/fact.py:78-97 | containment of metrics is such a relation |
| Chunking.SplitLongText | retrieval/indexing/ingest_pdf.py:276-288 | the window loop ends and computes the pieces of the lemmas below |
| Chunking.WindowsFollow | retrieval/indexing/ingest_pdf.py:276-288 | windows move forward without a gap and overlap by exactly what is asked when that is less than a window |
| Chunking.LastWindowEnds | retrieval/indexing/ingest_pdf.py:276-288 | the last window ends with the text |
| Chunking.SplitLosesNothing | retrieval/indexing/ingest_pdf.py:276-288 | the pieces give back the text, and none is longer than a window |
| TableSplit.SplitMarkdown | retrieval/indexing/ingest_pdf.py:311-334 | every table row is a row line, a header is found exactly when the second is a separator, and every other non-blank line is kept beside them |
| TableSplit.SplitRows | retrieval/indexing/ingest_pdf.py:361-381 | every body row is in exactly one piece, in order, under the same fixed lines, and a piece of two rows or more fits |
| TableSplit.SplitTable | retrieval/indexing/ingest_pdf.py:337-381 | pieces by rows under notes and header when the guards pass, windows of the text otherwise; the header detected or else inherited is carried on |
| TableSplit.ShownIff | retrieval/indexing/ingest_pdf.py:345-358 | the pieces show every row, whole and in order, under the detected or inherited header if and only if there are rows and a header and, for an inherited one, all rows are as wide: a text cut into windows never does |
| TableSplit.CarriedIsHeader | retrieval/indexing/ingest_pdf.py:344-347 | what is carried on is a row and a separator again |
| TableSplit.WholeIff | retrieval/indexing/ingest_pdf.py:276-288 | each body row stands at its place in the text, and when the table is cut into windows it stays whole in a piece if and only if no multiple of the window size falls inside that place |
| TableSplit.RowIsCut | retrieval/indexing/ingest_pdf.py:349-358 | for every window size a row without a header that is longer is whole in no piece |
| Chunking.Renumber | retrieval/indexing/ingest_pdf.py:734-742 | over all parts the chunk numbers count from 0 |

## Left out

- LLM adapters, prompt texts, tracing, SSE formatting, the HTTP layer and the frontend: I/O
  and presentation. The model is an arbitrary answer or error.
- Tool bodies and retrieval backends: network clients. A tool returns an arbitrary result
  and may write the todo list while it runs.
- SQL, transactions and several sessions in one store: an append is atomic and a store holds
  one session.
- The v1 summary path, and upgrading v1 summaries: not on the live compaction path.
- Compliance patterns, language rewriting, error guidance texts and routing tables: one
  function from the text to be published to the text that is shown.
- Regex-heavy financial table parsing, and the normalisation of values and units: the
  compatibility of two financial facts is a parameter.
- Overlap of narrative chunks (`_flush_narrative_buffer`) and block routing in
  `chunk_blocks`: they only call the splitters modelled here.
- Compact.TargetBelowTrigger: token ratios are exact reals here, floating point in the source.
- Events.NormalizeTwice: event data is typed here, so the checks that a value is JSON and that a
  visibility is known have no counterpart.
- Hashes and stable item ids are an arbitrary function of kind and payload.
- Crashes of the agent itself: the protocol theorems are about crash-free runs; crashes
  within a compaction are covered by `CompactRuns`.
- Compact.MaybeCompact: the adapter's token count is taken as a function of the visible
  messages, so a counter that answers differently for the same request is not covered.
- JsonProjection.ProjectToolJson: starts from the parsed document; how a string is quoted and
  what Python shows of a record without title and summary are parameters.
- JsonRepair.WellFormedIsKept: literals are any text without quotes and backslashes, which
  includes the names and numbers of the grammar.
- PostgresStore.PostgresSessionStore.Append: hashes, timestamps, visibility and the
  idempotency keys of the rows are not part of this model; creation order stands for time.
- AgentLoop.Agent.Prompt: the lease is taken in `Service.PromptUnderLease`; which tools are known,
  need an approval or are safe to run together is fixed by the tool's name for the whole session.
