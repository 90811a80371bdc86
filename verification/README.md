# Verified model of apple-mail-mcp

A Dafny 4.11 model of the parts of apple-mail-mcp that keep a full-text index in step with Apple
Mail's own database, with machine-checked proofs of what those parts promise. Verify it with
`dafny verify dfyconfig.toml`.

Apple Mail owns an SQLite store (the Envelope Index) that changes at any moment. The indexer reads
it statement by statement, writes a Tantivy index through an operation log, and keeps its own
bookkeeping in `meta.sqlite`. Nothing spans the three atomically, a crash may fall anywhere, and
several processes share one advisory lock row.

## How it is built

* `MailStore`, `OpLog`, `Planner`, `Indexing`: the store and what Mail.app may do to it, the index as
  a bag of documents under an operation log, what each planner statement reads, and what becomes of
  one planned row.
* `SyncProtocol`: one step per SQL statement, staged operation and commit, interleaved with Mail.app
  steps and crashes. Its invariant gives crash-safe completeness, and its history the cause of every
  skipped row. `MapRefinement` shows the same machine to implement a plain map from rowid to document.
* `SyncEngine`: the host, an imperative program over a store that changes between any two statements
  and with statements that may fail: the sync pass, and the writer of the mutation tools. Every state
  it passes through is recorded, and the record is proved to be a run of `SyncProtocol`, so the
  theorems about runs hold at every point where the program could be interrupted. A host may be
  declared quiet (Mail.app does not run), reliable (nothing outside fails) or alone (no other process
  works on the index), which the contracts use to say what the programs must then achieve; the table
  that holds the writer lock is declared reliable or not by itself. `SyncPass` says what a finished pass amounts to;
  `QuietStore` runs two passes over a quiet store and shows that they come to that.
* `Freshness`: how far the count tuples can be trusted while Mail.app acts between the statements.
* `AccountReads`, `Relocate`: reading an account one mailbox at a time while rows move, the runs of the
  wait for a moved message's new row, and exactly when its answer is right.
* `Mutations`, `Triage`: the mutation tools and triage batches as programs on the same host, which also
  records what they ask of Mail.app and when. Other
  processes, unless the host is declared alone, may work on the index until such a program has the
  writer lock.
* `WriterLock`, `MutationWriter`, `Processes`: the lock among many tasks and processes, the retries of a
  busy lock, and the proof that the whole system behaves like the single-writer machine.
* `EditDistance`, `Accounts`, `Query`, `Sql`, `TriagePlan`, `Emlx`, `ShardPath`, `Reply`, `Coverage`,
  `Quarantine`: the computational cores around them. `Decimal` and `Strings` are shared by several.

Assumptions: each SQL statement is one atomic step; rowids are at least 1, never reused, and a
deleted row never becomes live again; a Tantivy commit publishes its whole log or nothing, a
`delete_term` affects only documents added earlier, and an uncommitted writer is lost on any error;
clocks are monotone and sleeps last at least as long as asked; `kill -0` tells live pids from dead
ones. Integers are unbounded: no operation modelled here comes near the 64-bit limits.

## Where code and documentation differ

The model follows the code.

* `crates/amx-index/src/planner.rs:48-52` says a deleted message resurfaces as modified. The
  statement has `deleted = 0`, so it never does; only reconciliation drops it.
* `crates/amx-mcp/src/tools/mutate.rs:314-317` says an in-place relocation is a success. It is an error.
* `crates/amx-index/src/reconcile.rs:1-8` calls reconciliation the only code path that deletes. Staging
  and the mutation tools delete by term too; `SyncProtocol.LiveDocumentsSurvive` proves what matters,
  that no live row ever loses its document.
* `crates/amx-index/src/writer.rs:39-66` reads the lock and writes it in two statements. Two tasks can
  both pass the read (`WriterLock.SplitAcquireRaces`); exclusion is proved for runs in which no row is
  written under a lock that is no longer free, which is what an atomic acquire guarantees, and
  `WriterLock.ExclusionIff` says exactly when a run of the two statements keeps it.
* `crates/amx-index/src/writer.rs:5-6` says a crashed writer never blocks the index. It does while its
  pid is in use by another process (`WriterLock.CrashedWriterReclaimed`).
* `crates/amx-index/src/mutate.rs:34-36` says the lock is taken before Mail.app is asked to act. Only
  triage batches do so (`Triage.TriageApply`); the single-message tools open the writer afterwards
  (`Mutations.RelocateMessage`).
* `crates/amx-index/src/mutate.rs:100-102` reports a failed commit as an error, but an error may also come
  from reloading the readers, with the edits already published; `SyncEngine.Host.CommitMutations`
  allows for both.
* The relocation wait can name a wrong row: when another message arrives first
  (`Relocate.ArrivalMistakenForMove`), when the moved one arrives first but in a mailbox read earlier
  (`Relocate.EarlierMoveStillMistaken`), and, with no arrival at all, when a row is refiled while the
  snapshot is taken (`Relocate.RefiledRowMistaken`). `Relocate.AnswersRightIff`,
  `Relocate.RightWhenArrivalsStayIff` and `AccountReads.SnapshotCompleteIff` say exactly when not.
* `crates/amx-index/src/planner.rs:62-65` reads the new rows before the count tuples. A new row refiled in
  between is indexed under the mailbox it has left, and the tuple saved already counts it where it
  is, so later passes see nothing to do (`Freshness.StrayStaysStale`); `Freshness.FreshAtCommitIff`,
  `Freshness.FreshWhileSteady` and `Freshness.FreshWhileSteadyIff` say exactly which documents can be
  relied on. In the same way a row skipped
  for a mailbox that appeared too late is not planned again until the tuple changes
  (`Freshness.SkipOutlastsCause`, `Freshness.PlannedAgainIff`).
* A guard whose DELETE fails is dropped silently at `crates/amx-index/src/writer.rs:74-81`, and its row
  then blocks everybody until the process exits (`WriterLock.FailedDropBlocks`).
* A flag filter compares the stored integer with 0 or 1, while a returned row treats any nonzero value
  as set (`Query.OddFlagIsMissed`); `Query.AnswerShowsFlagsIff` says exactly when that shows.
* A reply to a message that has In-Reply-To but no References drops the former, unlike section 3.6.4 of
  RFC 5322 (`Reply.RfcDivergence`, `Reply.ReferencesFollowRfc5322Iff`).

## Model

| member | source | states |
|---|---|---|
| SyncProtocol.CrashSafeCompleteness | crates/amx-index/src/sync.rs:65-100 | In every state of every run of passes, mutations, Mail.app steps and crashes, each live row at or below the persisted watermark has exactly one committed document or else was skipped, never both, and nothing was skipped but for cause. |
| SyncProtocol.SkippedForCause | crates/amx-index/src/sync.rs:122-148 | A row is skipped only if the pass that skipped it saw it live in a mailbox missing from the registry that this pass had loaded, or whose URL yields no directory or no account. |
| SyncProtocol.StepKeepsInv | crates/amx-index/src/sync.rs:78-100 | Each single statement, staged operation, commit, Mail.app step and crash keeps the protocol invariant. |
| SyncProtocol.LiveDocumentsSurvive | crates/amx-index/src/reconcile.rs:31-44 | A document once committed for a row is in every later committed index for as long as the row is live. |
| SyncProtocol.TornSave | crates/amx-index/src/meta.rs:104-119 | Whatever instant of whatever run interrupts a save, the disk holds the old pair, the new watermark with the old tuples, or the new watermark with some of the new tuples and no others, and after the last statement the new pair. |
| MapRefinement.RunRefinesMap | crates/amx-index/src/mutate.rs:74-107 | Over any run the committed index has at most one document per rowid and equals, as a map, the committed upserts and removes applied in order. |
| OpLog.LogRefinesMap | crates/amx-index/src/sync.rs:169-179 | Delete-then-add operation logs, repeated rowids included, implement a map from rowid to document with one document per rowid. |
| OpLog.DeletesRemoveExactly | crates/amx-index/src/reconcile.rs:34-44 | Deleting distinct indexed rowids removes exactly their documents, as many as there are rowids. |
| MailStore.RunEvolves | crates/amx-store/src/fixtures.rs:28-38 | After any number of Mail.app steps no rowid at or below the old sequence number has reappeared and no deletion was undone. |
| Planner.NoLostInsert | crates/amx-index/src/planner.rs:53-94 | With Mail.app acting between the planner's statements, every row still live at the end and between the old and the new watermark is planned. |
| Planner.PlanMeaning | crates/amx-index/src/planner.rs:53-145 | On a store at rest the plan is the live rows above the watermark, as new, and the live ones at or below it whose mailbox has another tuple than the one remembered, as modified. |
| Planner.MaxReadLastLosesARow | crates/amx-index/src/planner.rs:56-63 | With the two reads in the other order a live row below the saved watermark can be missed. |
| Planner.FewerCountsPlanMore | crates/amx-index/src/planner.rs:121-145 | Losing remembered count tuples never removes anything from the plan. |
| Indexing.AccountingConserved | crates/amx-index/src/sync.rs:110-202 | Planned items are added, modified, vanished or unresolvable; staged documents are the first two; quarantine attempts are exactly those reported. |
| SyncPass.FirstPassIndexesAll | crates/amx-index/src/meta.rs:65-67 | A pass from the default state over an empty index and a quiet store indexes exactly the live rows it can resolve and deletes nothing. |
| SyncPass.NextPassIdle | crates/amx-index/src/planner.rs:53-74 | On a quiet store a pass leaves only live rows indexed, and the next pass plans nothing, deletes nothing and changes nothing. |
| QuietStore.BuildTwice | crates/amx-index/src/sync.rs:48-103 | The program itself, from a fresh installation on a quiet store with nothing failing: the first pass indexes exactly the live rows it can resolve, the second does nothing. |
| SyncPass.PlannedRowsFresh | crates/amx-index/src/sync.rs:160-185 | After a pass over a quiet store every new row, and every one in a mailbox whose tuple changed, if its mailbox is registered and its URL yields a directory and an account, has a document with that URL, that account, and the classification of what lies in that directory. |
| SyncPass.PassDocuments | crates/amx-index/src/sync.rs:122-185 | After any pass, whatever went on meanwhile, a live row's document has the URL and account of the last of its items that can be indexed and the classification of what lies in that directory; without such an item it is the old one; rows outside the snapshot have none. |
| Indexing.ReportMeaning | crates/amx-index/src/sync.rs:110-202 | Added and modified count the indexed items of each kind, quarantined the items of a registered mailbox without directory or account and those whose body cannot be parsed; exactly the rows of refused items are skipped. |
| Indexing.AttemptsMeaning | crates/amx-index/src/sync.rs:136-158 | A row's attempts grow by the number of its items that failed in those ways. |
| Freshness.FreshWhileSteady | crates/amx-index/src/planner.rs:53-74 | Under interference: once a pass that rescanned a mailbox which it can resolve has committed, and as long as the tuple it read stays the same, through any further passes, mutations and crashes, a row filed there has no document but under that mailbox's URL, and one if it is at or below the watermark and was not skipped; except rows that came there between the reading of the new rows and that of the tuples. |
| Freshness.FreshAtCommitIff | crates/amx-index/src/planner.rs:62-65 | A new row's document is committed under the URL of its mailbox exactly if the row was in that mailbox already when the pass read the new rows. |
| Freshness.KeptWhileSteady | crates/amx-index/src/planner.rs:121-145 | Under interference a committed document within the watermark to be saved stays exactly what it is, right or wrong, as long as its row is live in the mailbox and the tuple read there stays the same, if no mutation stages the row and no crash cuts off a committed pass while that tuple is not saved. |
| Freshness.FreshWhileSteadyIff | crates/amx-index/src/planner.rs:62-74 | All that time a new row has a document, and it is filed under the URL of its mailbox exactly if the row was there already when the pass read the new rows. |
| Freshness.StrayStaysStale | crates/amx-index/src/planner.rs:62-74 | A run on which a new row refiled between those two readings keeps the wrong document after the state is saved. |
| Freshness.PlannedAgainIff | crates/amx-index/src/planner.rs:121-145 | Under interference a known row, a skipped one for instance, is planned again exactly if the tuple of its mailbox is not the saved one. |
| Freshness.SkipOutlastsCause | crates/amx-index/src/sync.rs:58-66 | A run on which a row is skipped because its mailbox appeared after the registry was loaded, and the mailbox's tuple is saved all the same. |
| SyncPass.RegistryTotal | crates/amx-store/src/registry.rs:39-61 | The loaded registry keeps every mailbox exactly when no two normalize alike. |
| SyncEngine.BuildRegistry | crates/amx-store/src/registry.rs:39-61 | Whatever order the rows come in, one mailbox per normal form survives and every normal form is represented. |
| SyncEngine.FindTop | crates/amx-index/src/planner.rs:56-60 | The greatest rowid, or the old watermark when there are no rows. |
| SyncEngine.ListAdded | crates/amx-index/src/planner.rs:77-94 | Each live row above the watermark once, as added, and nothing else. |
| SyncEngine.ListModified | crates/amx-index/src/planner.rs:127-142 | Each live row of the mailbox at or below the watermark once, as modified, and nothing else; never a deleted row. |
| SyncEngine.ListCounts | crates/amx-index/src/planner.rs:96-117 | The tuple of every mailbox. |
| SyncEngine.Host.Plan | crates/amx-index/src/planner.rs:53-75 | Under interference no live row between the watermarks is missing from the plan; on a quiet store the plan is exactly the new rows and the known rows of changed mailboxes. |
| SyncEngine.Host.CollectModified | crates/amx-index/src/planner.rs:121-145 | Under interference each mailbox with a changed tuple contributes exactly its known live rows of one instant, the others nothing; on a quiet store the whole is the rescan of that store. |
| SyncEngine.Host.IndexOne | crates/amx-index/src/sync.rs:110-202 | One item's staging, quarantine and report agree with the tally of outcomes, caches notwithstanding. |
| SyncEngine.Host.StageAll | crates/amx-index/src/sync.rs:72-92 | The published index is the old one under the whole plan's log; a failure publishes nothing. |
| SyncEngine.Host.Reconcile | crates/amx-index/src/reconcile.rs:25-45 | Exactly the indexed rowids outside one full snapshot go, the count returned is the number of documents removed, no live row loses its document, and a failure deletes nothing. |
| SyncEngine.Host.SaveSyncState | crates/amx-index/src/meta.rs:104-119 | Success saves the state; failure anywhere leaves the old pair, the new watermark with the old tuples, or the new watermark with some of the new tuples. |
| SyncEngine.Host.Run | crates/amx-index/src/sync.rs:48-103 | A pass is a run of the protocol; on success documents, state, quarantine, skipped rows and report are those that `PassDocuments` and `ReportMeaning` spell out from the registry, plan and snapshot its trace shows it read; it fails only if something outside fails, and then leaves the old documents with the old state, the published ones with the old state, or the reconciled ones with a state that may be torn. |
| SyncEngine.Host.EveryStateComplete | crates/amx-index/src/sync.rs:78-102 | Every state the programs went through, hence every crash point, satisfies completeness and one document per rowid, and every skipped row has its cause in the trace. |
| SyncEngine.Host.UpsertDocument | crates/amx-index/src/mutate.rs:74-92 | What a commit would publish changes at this rowid only, to this document; if the add fails after the delete was staged, the writer can no longer commit. |
| SyncEngine.Host.RemoveDocument | crates/amx-index/src/mutate.rs:95-98 | What a commit would publish loses this rowid only. |
| SyncEngine.Host.CommitMutations | crates/amx-index/src/mutate.rs:100-107 | Publishes all staged edits as one map update, or none; an error may follow either way. |
| WriterLock.LockTable.Acquire | crates/amx-index/src/writer.rs:39-66 | Succeeds exactly when the lock machine lets an acquire happen, and then takes that step; otherwise reports the live holder and changes nothing. |
| WriterLock.LockTable.Drop | crates/amx-index/src/writer.rs:74-81 | The lock machine's drop, after which the lock has no row of this pid, or its forgetting, which changes nothing, only when the DELETE fails; never takes away another pid's row. |
| WriterLock.LockTable.BusyStatus | crates/amx-index/src/writer.rs:63-72 | Reports nobody exactly when an acquire would succeed. |
| WriterLock.MutualExclusion | crates/amx-index/src/writer.rs:39-81 | Over every run of starts, exits, pid reuse, acquires, crashes and drops with atomic acquires, at most one guard is held, by a live process whose pid is in the row. |
| WriterLock.SplitAcquireRaces | crates/amx-index/src/writer.rs:43-58 | A concrete run of the two-statement acquire ends with two guards held. |
| WriterLock.ExclusionIff | crates/amx-index/src/writer.rs:43-58 | Over any run of two-statement acquires, exclusion holds throughout exactly when no second statement is run while a guard is held. |
| WriterLock.DropFrees | crates/amx-index/src/writer.rs:21-24 | Over any run with atomic acquires, a dropped guard leaves no row and no holder. |
| WriterLock.FailedDropBlocks | crates/amx-index/src/writer.rs:74-81 | When the DELETE of a dropped guard fails, nobody gets the lock, over any run with atomic acquires, until that process exits. |
| WriterLock.CrashedWriterReclaimed | crates/amx-index/src/writer.rs:5-7 | After a crash any live process may acquire at once, until the dead pid is reused, which blocks even the new owner of the pid. |
| Processes.SystemRefinesProtocol | crates/amx-index/src/writer.rs:1-7 | Every run of any number of tasks and processes under the lock is a run of the single-writer machine. |
| Processes.SystemComplete | crates/amx-index/src/sync.rs:55-100 | Crash-safe completeness, at most one writer, and a cause for every skipped row, for the system as a whole. |
| MutationWriter.AcquireWithRetry | crates/amx-index/src/mutate.rs:54-70 | On a lock that other processes keep changing: at most seven attempts; success and unexpected errors are passed on at once; busy is reported, with a live holder of the row, only when two seconds have passed; each wait is twice as long as the one before, from 50 ms, or lasts to the end of the two seconds; the row written names this process and the time. |
| AccountReads.SnapshotCompleteIff | crates/amx-mcp/src/tools/mutate.rs:290-303 | A row that stays in the account is in every snapshot taken mailbox by mailbox exactly if it is never refiled, meanwhile, to a mailbox read earlier than the one it leaves. |
| Relocate.AnswersRightIff | crates/amx-mcp/src/tools/mutate.rs:318-360 | No run of the wait loop answers a wrong row exactly if no reading of the account after the old row is gone shows a wrong row as the only new one. |
| Relocate.RightWhenArrivalsStayIff | crates/amx-mcp/src/tools/mutate.rs:318-360 | If new rows stay where they arrive, that is decided by single instants: a wrong row must at no instant be all that is new in its mailbox and those read later, with nothing else new in those read earlier when the old row was first gone. |
| Relocate.RelocationSound | crates/amx-mcp/src/tools/mutate.rs:290-337 | From the snapshot's first statement to the answer: if the moved message is the only row to enter the account, and no row is refiled to an earlier-read mailbox while the snapshot is taken, every answer names the moved message's row. |
| Relocate.ArrivalMistakenForMove | crates/amx-mcp/src/tools/mutate.rs:332-337 | A run of the loop that answers a message which merely arrived. |
| Relocate.EarlierMoveStillMistaken | crates/amx-mcp/src/tools/mutate.rs:297-303 | A run of the loop that answers a later arrival although the moved message came back first. |
| Relocate.RefiledRowMistaken | crates/amx-mcp/src/tools/mutate.rs:290-303 | A history in which no row enters the account, and a run that answers a row which was there all along. |
| Relocate.SettledAnswer | crates/amx-mcp/src/tools/mutate.rs:318-360 | On a store at rest the loop succeeds exactly when the old row is gone and one row is new, and names it. |
| Mutations.AccountSnapshot | crates/amx-mcp/src/tools/mutate.rs:290-303 | The rows seen at some ordered instants, one per mailbox, of the recorded trace. |
| Mutations.WaitForRelocated | crates/amx-mcp/src/tools/mutate.rs:318-360 | For every environment a run of the wait loop on the recorded trace; at most 21 turns, each recording at most one poll, with 150 ms asked for between any two; timeouts only after three seconds. |
| Mutations.FinishRelocate | crates/amx-mcp/src/tools/mutate.rs:369-395 | Success stages the removal of the old row, which is gone, and the upsert of the row found, as it read afterwards, and nothing else; failure stages nothing, for a reason the trace shows. |
| Mutations.AcquireWriter | crates/amx-index/src/mutate.rs:37-52 | Other processes may work on the index until the lock is acquired, and if none do it is unchanged; then the writer starts from what they left, with the lock row naming this process; otherwise two seconds have passed and the row names a live process, or something outside has failed, and then the lock is free again unless its DELETE failed. |
| Mutations.RelocateMessage | crates/amx-mcp/src/tools/mutate.rs:400-424 | The whole move or trash on the host, with at most one writer, closed by the last step: since it was opened, and unless other processes are at work since the call, the index is untouched, or the old row's document has given way to the new row's and nothing else has changed; Mail.app is asked at most once, to move or to trash this message as it was read, after the snapshot and before the writer is opened; if nothing else entered the account from the snapshot to the last poll, the new row is the moved message's; afterwards the lock is free unless its DELETE failed; it fails only for a reason the trace shows, or because the lock is held elsewhere. |
| Mutations.NoGhostResults | crates/amx-mcp/src/tools/mutate.rs:400-424 | After such a commit no document has the old rowid, exactly one has the new rowid, and every other document is there or not as before. |
| Triage.TriageApply | crates/amx-mcp/src/server.rs:1073-1109 | One writer, closed by the last step, one result per item in order whatever fails, excluded items skipped, and at that last step nothing published or exactly the edits of the others in order, over the index as it was when the writer was opened and, unless other processes are at work, as it was at the call; each effect is borne out by the recorded trace, Mail.app is asked nothing before the writer is open and nothing about excluded items, relocations follow one another, afterwards the lock is free unless its DELETE failed, and the batch fails only if something outside fails or the lock is held elsewhere. |
| Triage.ResultsMean | crates/amx-mcp/src/server.rs:324-548 | A read-state or flag item succeeds exactly if its row was reindexed and, as read for that, shows the value asked for; a move or trash exactly if the message was found again, in the account of the destination or its own; nothing succeeds that Mail.app was not asked for, and each request is what the plan says for that row. |
| Triage.SetOnItem | crates/amx-mcp/src/server.rs:331-436 | A flag item succeeds exactly when its row was reindexed and, as it was read for that, shows the flag; otherwise something stood in the way, the change had not landed, or the upsert failed. |
| Triage.BatchNamesTheMoved | crates/amx-mcp/src/server.rs:437-548 | Every message found again within a batch is the moved one if nothing else entered the account during its own relocation, from its snapshot to its last poll. |
| Triage.TwoMovesUndisturbed | crates/amx-mcp/src/server.rs:1094-1102 | Two messages moved into one mailbox in one batch meet that condition, both of them, in waits that answer the moved rows. |
| Triage.ExcludedUntouched | crates/amx-mcp/src/server.rs:1094-1097 | The document of a row that was excluded or not planned survives a batch unchanged, unless another row's relocation landed on that rowid. |
| Triage.LastEffectStands | crates/amx-mcp/src/server.rs:1089-1105 | After a batch the last effect on a row settles its document: a reindexed row has the one it was read as, a relocated message the one of its new row and none under the old. |
| EditDistance.Levenshtein | crates/amx-store/src/registry.rs:128-146 | The rolling row computes the edit distance of the two whole strings. |
| EditDistance.DiagonalIsOptimal | crates/amx-store/src/registry.rs:137-141 | Taking the diagonal on equal characters is never worse than inserting or deleting. |
| EditDistance.NoShorterScript | crates/amx-store/src/registry.rs:126-146 | No sequence of single-character edits anywhere in the string is shorter than the distance. |
| EditDistance.ShortestScript | crates/amx-store/src/registry.rs:126-146 | Some sequence of single-character edits has exactly that length. |
| EditDistance.ZeroMeansEqual | crates/amx-store/src/registry.rs:126-146 | The distance is zero exactly for equal strings. |
| EditDistance.Symmetric | crates/amx-store/src/registry.rs:126-146 | The distance is symmetric. |
| EditDistance.Triangle | crates/amx-store/src/registry.rs:126-146 | The distance obeys the triangle inequality. |
| EditDistance.Suggest | crates/amx-store/src/registry.rs:105-123 | As many suggestions as asked for and available, each a candidate, none farther than any left out. |
| Accounts.CollectAccounts | crates/amx-mcp/src/tools/search_messages.rs:69-79 | One identifier, as some mailbox spells it, per account up to case, and none missing. |
| Accounts.ResolveAccount | crates/amx-mcp/src/tools/search_messages.rs:81-102 | A match up to case is returned as spelled in the store; a refusal carries the nearest identifiers, none farther than any left out. |
| Query.Build | crates/amx-store/src/query.rs:91-130 | As many placeholders as parameters, and the text, read as SQL with the parameters bound by position, selects exactly the rows meeting every filter. |
| Query.AppendFilter | crates/amx-store/src/query.rs:94-123 | Appending a clause with its parameters narrows the selection by that clause alone. |
| Query.WhereReads | crates/amx-store/src/query.rs:91-136 | The rendered text, split into words and read as comparisons and lists of placeholders joined by AND under three-valued logic, is true of a row exactly when the clauses are. |
| Query.OfAccountMeaning | crates/amx-store/src/registry.rs:92-100 | A mailbox belongs to an account exactly if its lower-cased URL contains the lower-cased identifier between two slashes and one. |
| Query.WhereCount | crates/amx-store/src/query.rs:125-130 | The rendered text has exactly one question mark per bound parameter, for any list of clauses. |
| Query.ResolveMailboxRowids | crates/amx-store/src/query.rs:155-194 | Fails exactly when a set filter matches no mailbox; otherwise lists the mailboxes that both filters allow, possibly none. |
| Query.Execute | crates/amx-store/src/query.rs:84-151 | Returns each wanted row once in table order, column by column, with a flag set unless it is stored as 0, or the error of an unmatched filter. |
| Query.AnswerShowsFlagsIff | crates/amx-store/src/query.rs:112-149 | The answer is exactly the rows that, as returned, meet every filter, unless and only unless one of these stores a flag asked for as something other than 0 or 1. |
| Query.OddFlagIsMissed | crates/amx-store/src/query.rs:138-148 | A row that shows itself as read and is not found by the filter for read. |
| TriagePlan.EncodeInjective | crates/amx-mcp/src/tools/triage.rs:20-28 | The two JSON texts run together determine the rowid list and the operation. |
| TriagePlan.OperationReadBack | crates/amx-mcp/src/schema/tools.rs:290-297 | Every operation, with any destination text, comes back from its JSON. |
| TriagePlan.OperationText | crates/amx-mcp/src/schema/tools.rs:290-297 | The JSON text of each operation, in full. |
| TriagePlan.OperationOnly | crates/amx-mcp/src/tools/triage.rs:52-66 | No other text is read as an operation, but for the escapes in a destination. |
| TriagePlan.EscapeMeaning | crates/amx-mcp/src/tools/triage.rs:20-21 | Quotation marks, backslashes and control characters are escaped, by the short forms where there are any, and nothing else is. |
| TriagePlan.ListReadBack | crates/amx-mcp/src/tools/triage.rs:20-21 | Every list of rowids comes back from its JSON, whose first closing bracket is its end. |
| TriagePlan.FrozenPlansKeep | crates/amx-index/src/meta.rs:156-185 | After any sequence of saves, barring hash collisions among them, loading a returned hash gives back its rowids in order and its operation. |
| TriagePlan.SameHashIffSamePlan | crates/amx-mcp/src/tools/triage.rs:25-28 | Barring a collision, two requests share a hash exactly when they are the same plan. |
| TriagePlan.PlanTable.RunTriagePlan | crates/amx-mcp/src/tools/triage.rs:16-47 | Saves under the hash of the texts, never overwriting. |
| TriagePlan.PlanTable.LoadPlan | crates/amx-mcp/src/tools/triage.rs:52-66 | An unknown hash is refused; a known one is decoded. |
| Emlx.EnvelopeRoundTrip | crates/amx-parse/src/emlx.rs:181-212 | Every message shorter than ten to the tenth bytes, and any footer, come back from their envelope. |
| Emlx.SplitAcceptsExactly | crates/amx-parse/src/emlx.rs:181-212 | A message and a footer are returned exactly when the file is a ten-byte UTF-8 line declaring the length of the message, a newline, that message and that footer. |
| Emlx.SplitRefusesFor | crates/amx-parse/src/emlx.rs:181-212 | Which error a file is refused with: no count line, a count line that is no text, or a count beyond the end of the file. |
| Emlx.DeclaredMeaning | crates/amx-parse/src/emlx.rs:192-203 | A line declares a count exactly if it is the UTF-8 encoding of decimal digits of that value, perhaps after a plus sign, between white space. |
| Emlx.FromUtf8Iff | crates/amx-parse/src/emlx.rs:192-196 | Decoding succeeds exactly on the encodings of texts, as section 3 of RFC 3629 defines them, and gives the text encoded. |
| ShardPath.Resolve | crates/amx-store/src/paths.rs:17-32 | The path components, for full and partial messages and for any rowid. |
| ShardPath.ShardReadBack | crates/amx-store/src/paths.rs:18-24 | Read as a little-endian decimal the directories give the thousands of the rowid. |
| ShardPath.ShardNames | crates/amx-store/src/paths.rs:18-24 | Each directory name is one character, the digit of that place. |
| ShardPath.ShardDepth | crates/amx-store/src/paths.rs:18-24 | The depth is the number of digits of the thousands, none below a thousand. |
| ShardPath.SameDirectoryIff | crates/amx-store/src/paths.rs:17-32 | Two rowids share a directory exactly when their thousands agree. |
| ShardPath.DirectoryHoldsAtMost1000 | crates/amx-store/src/paths.rs:17-32 | No directory serves more than a thousand rowids. |
| Reply.DeriveReply | crates/amx-compose/src/reply.rs:69-124 | A draft goes exactly to those in Reply-To, or in From without one, and for a reply to all in To and Cc, who are not ours, in that order and by their first spellings; it keeps the bodies, takes the parent's id as In-Reply-To and at the end of References, and puts "Re: " before a subject that does not begin so in any case. |
| Reply.RefusedExactly | crates/amx-compose/src/reply.rs:75-104 | A reply is refused exactly without a Message-ID, or when everybody in Reply-To or From, and for a reply to all in To and Cc, is ourselves. |
| Reply.ReplyOrder | crates/amx-compose/src/reply.rs:85-97 | The recipients are taken from Reply-To or From, then To, then Cc, at their first occurrences, and no two agree up to case. |
| Reply.SameMeaning | crates/amx-compose/src/reply.rs:27-31 | Two addresses agree exactly if they differ at most in the case of the letters A to Z. |
| Reply.DedupExcluding | crates/amx-compose/src/reply.rs:33-45 | The in-place accumulation computes the recipient list the lemmas below are about. |
| Reply.DedupCovers | crates/amx-compose/src/reply.rs:33-45 | Up to case, the recipients are exactly the given addresses that are not ours. |
| Reply.DedupKeepsFirsts | crates/amx-compose/src/reply.rs:33-45 | Each recipient is the first spelling given, in the order given. |
| Reply.DedupIsDuplicateFree | crates/amx-compose/src/reply.rs:27-31 | No two recipients agree up to case. |
| Reply.ReferencesListAncestors | crates/amx-compose/src/reply.rs:112-122 | Along any chain of replies, References is the root's list followed by every ancestor's id, oldest first, ending in In-Reply-To. |
| Reply.SubjectSettles | crates/amx-compose/src/reply.rs:106-110 | The subject is the same from the first reply on. |
| Reply.ReferencesFollowRfc5322Iff | crates/amx-compose/src/reply.rs:112-121 | The References of a derived draft are those of section 3.6.4 of RFC 5322 exactly when the parent has References or no In-Reply-To. |
| Reply.RfcDivergence | crates/amx-compose/src/reply.rs:112-121 | A parent whose derived reply drops the root from its References. |
| Coverage.CollectSegment | crates/amx-index/src/coverage.rs:163-203 | A segment's counters are the numbers of hits with each state code. |
| Coverage.MergeFruits | crates/amx-index/src/coverage.rs:129-147 | Merged counters are those of the whole hit set, however it is split. |
| Coverage.SplitIndependent | crates/amx-index/src/coverage.rs:129-203 | Any two ways of splitting and ordering the same hits give the same counts. |
| Coverage.EnvelopeBounds | crates/amx-index/src/coverage.rs:50-92 | Both fractions lie in the unit interval and are one exactly when nothing of known state was left unsearched. |
| Coverage.EnvelopeMeaning | crates/amx-index/src/coverage.rs:50-92 | The body fraction is the share of indexed bodies among the hits of known state, the attachment fraction that of extracted ones among the attachments there are; of nothing, the whole; a warning each for attachments not downloaded and bodies unavailable. |
| Coverage.CorpusCount | crates/amx-index/src/coverage.rs:50-51 | The corpus is the number of hits with a known body state. |
| Quarantine.Table.RunBatch | crates/amx-index/src/quarantine.rs:29-47 | One outcome per item in order; attempts grow by exactly the failures, each under its own rowid; a new record has the path and error of the first failure of its row, and records stay; only a failure that cannot be recorded ends the batch early. |
| Quarantine.RecordAccounts | crates/amx-index/src/quarantine.rs:52-70 | One upsert accounts for one more failure of its row and of no other. |
| Quarantine.FailuresMeaning | crates/amx-index/src/quarantine.rs:29-47 | The failures of a row are the items of it that do not parse, each counted. |
| Quarantine.Table.Count | crates/amx-index/src/quarantine.rs:73-76 | Counts the distinct rows that ever failed, not the attempts. |

## Left out

- SyncProtocol.CrashSafeCompleteness: holds up to skipped rows, because a row whose mailbox is missing from the registry or cannot be resolved advances the watermark without a document; the skipped rows are tracked explicitly.
- Freshness.FreshWhileSteady: assumes that mailboxes keep their URLs, that a refiled message changes the tuples of both mailboxes, and that a mutation stages a row as it has been read since its writer was opened, because the code detects nothing else.
- SyncPass.PlannedRowsFresh: says nothing of rows in a mailbox whose count tuple returned to its remembered value, because the code cannot detect such changes.
- WriterLock.MutualExclusion: assumes acquires do not interleave between their read and their upsert, because the code allows that race.
- TriagePlan.FrozenPlansKeep: SHA-256 is a parameter assumed not to collide on the plans actually saved.
- TriagePlan.ListReadBack: decodes the compact form that the program itself writes, not every spelling of JSON that its parser accepts.
- Query.Execute: SQLite is represented by its three-valued reading of the clauses; row order is table order.
- Coverage.EnvelopeBounds: fractions are real numbers without rounding, and warnings are counted, not worded.
- Tantivy internals, ranking, query parsing and reader reload timing.
- An `add_document` failure is taken to kill the Tantivy writer, as it does when the indexing threads have died: no later commit succeeds.
- Mailbox directory resolution, account lookup, URL normalization, lower-casing and body classification are parameters; within one pass they do not change.
- Mail.app automation scripts: what is asked of Mail.app is recorded and fails or succeeds, and what came of it appears only as steps on the store; how messages and mailboxes are addressed is not modelled.
- The single-message read-state, flag and fetch tools, which are the batch's flag item with a writer of its own.
- A failed statement inside `AccountResolver` or the quarantine table abandons the pass like any other failure.
- The process name and timestamp of the lock row are carried but not interpreted.
- Forwarding, quoting, MIME building and parsing, SMTP, IMAP, OAuth, HTTP and the command line.
- Doctor and status commands, health transitions, wire schemas and response rendering.
