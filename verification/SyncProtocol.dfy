/** Index synchronisation as a state machine: one step per SQL statement, staged operation and
    commit, interleaved with Mail.app's own steps, with a crash possible anywhere. At most one
    writer is active; `Processes` derives that from the advisory lock. */
module SyncProtocol {
  import opened MailStore
  import opened OpLog
  import opened Planner
  import opened Indexing

  datatype Phase =
    | Idle
    | Loaded(scope: Scope)
    | Maxed(scope: Scope, top: int)
    | Collected(scope: Scope, top: int, items: seq<WorkItem>)
    | Scanning(scope: Scope, next: SyncState, mailboxes: set<MailboxId>, items: seq<WorkItem>)
    | Staging(scope: Scope, next: SyncState, items: seq<WorkItem>, log: seq<Op>, skips: set<Rowid>)
    | Published(next: SyncState)
    | Snapped(next: SyncState, live: set<Rowid>)
    | Purging(next: SyncState, doomed: seq<Rowid>)
    | Saving(next: SyncState)
    | Marked(next: SyncState)
    | Refilling(next: SyncState, mailboxes: set<MailboxId>)
    | Mutating(log: seq<Op>)

  /** `normalize` is the normal form of a mailbox URL, which never changes. `docs` and `state` are
      what is on disk. `skipped` is bookkeeping of the proof: the rowids that a committed pass
      planned but returned early on, and that have no document. */
  datatype World = World(normalize: string -> string, store: Store, docs: seq<Doc>, state: SyncState, skipped: set<Rowid>, phase: Phase)

  datatype Step =
    | Mail(step: MailStep)
    | LoadRegistry(scope: Scope)
    | ReadMax(top: int)
    | ReadAdded(found: seq<WorkItem>)
    | ReadCounts
    | PassMailbox(mailbox: MailboxId)
    | ReadModified(mailbox: MailboxId, found: seq<WorkItem>)
    | BeginStaging
    | StageItem(doc: Doc)
    | SkipItem
    | Commit
    | Snapshot
    | StageDeletes(doomed: seq<Rowid>)
    | CommitDeletes
    | SaveWatermark
    | ClearCounts
    | SaveCount(mailbox: MailboxId)
    | Finish
    | OpenWriter
    | StageEdit(edit: Edit)
    | CommitEdits
    | Crash

  ghost predicate Init(w: World) {
    w.store.Valid() && w.docs == [] && w.state == FRESH_STATE && w.skipped == {} && w.phase == Idle
  }

  /** The rowids excused after publishing `docs`: skipped ones that still have no document. */
  function Excused(skips: set<Rowid>, docs: seq<Doc>): set<Rowid> {
    skips - Rowids(docs)
  }

  ghost predicate Enabled(w: World, step: Step) {
    match step
    case Mail(m) => CanDo(w.store, m)
    case LoadRegistry(scope) => w.phase.Idle? && RegistryOf(w.normalize, w.store, scope.registry)
    case ReadMax(top) => w.phase.Loaded? && IsTop(w.store, w.state.watermark, top)
    case ReadAdded(found) => w.phase.Maxed? && Lists(found, AddedItems(w.store, w.state.watermark))
    case ReadCounts => w.phase.Collected?
    case PassMailbox(m) =>
      && w.phase.Scanning? && m in w.phase.mailboxes && m in w.phase.next.counts
      && Unchanged(w.state, m, w.phase.next.counts[m])
    case ReadModified(m, found) =>
      && w.phase.Scanning? && m in w.phase.mailboxes && m in w.phase.next.counts
      && !Unchanged(w.state, m, w.phase.next.counts[m])
      && Lists(found, ModifiedItems(w.store, m, w.state.watermark))
    case BeginStaging => w.phase.Scanning? && w.phase.mailboxes == {}
    case StageItem(doc) =>
      && w.phase.Staging? && w.phase.items != []
      && OutcomeOf(w.phase.scope.disk, w.phase.scope.registry, w.phase.items[0]) == Indexable(doc)
    case SkipItem => w.phase.Staging? && w.phase.items != [] && Refuses(w.phase.scope, w.phase.items[0].mailbox)
    case Commit => w.phase.Staging? && w.phase.items == []
    case Snapshot => w.phase.Published?
    case StageDeletes(doomed) =>
      w.phase.Snapped? && Distinct(doomed) && Elements(doomed) == Rowids(w.docs) - w.phase.live
    case CommitDeletes => w.phase.Purging?
    case SaveWatermark => w.phase.Saving?
    case ClearCounts => w.phase.Marked?
    case SaveCount(m) => w.phase.Refilling? && m in w.phase.mailboxes && m in w.phase.next.counts
    case Finish => w.phase.Refilling? && w.phase.mailboxes == {}
    case OpenWriter => w.phase.Idle?
    case StageEdit(Upsert(d)) => w.phase.Mutating? && 1 <= d.rowid <= w.store.seqno
    case StageEdit(Remove(r)) => w.phase.Mutating? && r !in w.store.rows && r <= w.store.seqno
    case CommitEdits => w.phase.Mutating?
    case Crash => true
  }

  ghost function Act(w: World, step: Step): World
    requires Enabled(w, step)
  {
    var p := w.phase;
    match step
    case Mail(m) => w.(store := Do(w.store, m))
    case LoadRegistry(scope) => w.(phase := Loaded(scope))
    case ReadMax(top) => w.(phase := Maxed(p.scope, top))
    case ReadAdded(found) => w.(phase := Collected(p.scope, p.top, found))
    case ReadCounts =>
      var counts := w.store.MailboxCounts();
      w.(phase := Scanning(p.scope, SyncState(p.top, counts), counts.Keys, p.items))
    case PassMailbox(m) => w.(phase := Scanning(p.scope, p.next, p.mailboxes - {m}, p.items))
    case ReadModified(m, found) => w.(phase := Scanning(p.scope, p.next, p.mailboxes - {m}, p.items + found))
    case BeginStaging => w.(phase := Staging(p.scope, p.next, p.items, [], {}))
    case StageItem(doc) => w.(phase := Staging(p.scope, p.next, p.items[1..], p.log + OpsOf(Upsert(doc)), p.skips))
    case SkipItem => w.(phase := Staging(p.scope, p.next, p.items[1..], p.log, p.skips + {p.items[0].rowid}))
    case Commit =>
      var docs := ApplyAll(w.docs, p.log);
      w.(docs := docs, skipped := Excused(w.skipped + p.skips, docs), phase := Published(p.next))
    case Snapshot => w.(phase := Snapped(p.next, w.store.LiveRows()))
    case StageDeletes(doomed) => w.(phase := Purging(p.next, doomed))
    case CommitDeletes => w.(docs := ApplyAll(w.docs, Deletes(p.doomed)), phase := Saving(p.next))
    case SaveWatermark => w.(state := w.state.(watermark := p.next.watermark), phase := Marked(p.next))
    case ClearCounts => w.(state := w.state.(counts := map[]), phase := Refilling(p.next, p.next.counts.Keys))
    case SaveCount(m) =>
      w.(state := w.state.(counts := w.state.counts[m := p.next.counts[m]]),
         phase := Refilling(p.next, p.mailboxes - {m}))
    case Finish => w.(phase := Idle)
    case OpenWriter => w.(phase := Mutating([]))
    case StageEdit(e) => w.(phase := Mutating(p.log + OpsOf(e)))
    case CommitEdits =>
      var docs := ApplyAll(w.docs, p.log);
      w.(docs := docs, skipped := Excused(w.skipped, docs), phase := Idle)
    case Crash => w.(phase := Idle)
  }

  ghost predicate Next(w: World, w': World) {
    exists step :: Enabled(w, step) && w' == Act(w, step)
  }

  ghost predicate IsRun(run: seq<World>) {
    && run != []
    && forall i :: 0 <= i < |run| - 1 ==> Next(run[i], run[i + 1])
  }

  // ----- the invariant -----

  /** Every live row at or below `top` has its document or an excuse. */
  ghost predicate Covers(s: Store, ids: set<Rowid>, top: int, excused: set<Rowid>) {
    forall r :: s.Live(r) && r <= top ==> r in ids || r in excused
  }

  /** Only rowids already handed out. */
  predicate Known(s: Store, ids: set<Rowid>) {
    forall r :: r in ids ==> r <= s.seqno
  }

  /** No live row loses its document going from `before` to `after`. */
  ghost predicate Keeps(s: Store, before: set<Rowid>, after: set<Rowid>) {
    forall r :: r in before && s.Live(r) ==> r in after
  }

  ghost predicate Complete(w: World) {
    Covers(w.store, Rowids(w.docs), w.state.watermark, w.skipped)
  }

  ghost predicate DiskInv(w: World) {
    && w.store.Valid()
    && Unique(w.docs)
    && Known(w.store, Rowids(w.docs))
    && w.state.watermark <= w.store.seqno
    && w.skipped !! Rowids(w.docs)
    && Complete(w)
  }

  ghost predicate PendingInv(w: World, log: seq<Op>) {
    var pending := ApplyAll(w.docs, log);
    && Unique(pending)
    && Known(w.store, Rowids(pending))
    && Keeps(w.store, Rowids(w.docs), Rowids(pending))
  }

  ghost predicate CollectedInv(w: World, top: int, items: seq<WorkItem>) {
    && top <= w.store.seqno
    && Known(w.store, ItemRows(items))
    && Planned(w.store, items, w.state.watermark, top)
  }

  ghost predicate StagingInv(w: World, next: SyncState, items: seq<WorkItem>, log: seq<Op>, skips: set<Rowid>) {
    && PendingInv(w, log)
    && next.watermark <= w.store.seqno
    && Known(w.store, ItemRows(items))
    && Covers(w.store, Rowids(ApplyAll(w.docs, log)) + ItemRows(items), next.watermark, w.skipped + skips)
  }

  /** The plan's watermark may be saved: what is published covers it. */
  ghost predicate NextCovered(w: World, next: SyncState) {
    next.watermark <= w.store.seqno && Covers(w.store, Rowids(w.docs), next.watermark, w.skipped)
  }

  ghost predicate PhaseInv(w: World) {
    match w.phase
    case Idle => true
    case Loaded(_) => true
    case Maxed(_, top) => top <= w.store.seqno
    case Collected(_, top, items) => CollectedInv(w, top, items)
    case Scanning(_, next, _, items) => CollectedInv(w, next.watermark, items)
    case Staging(_, next, items, log, skips) => StagingInv(w, next, items, log, skips)
    case Published(next) => NextCovered(w, next)
    case Snapped(next, live) =>
      NextCovered(w, next) && forall r :: r in Rowids(w.docs) && w.store.Live(r) ==> r in live
    case Purging(next, doomed) =>
      && NextCovered(w, next) && Distinct(doomed) && Elements(doomed) <= Rowids(w.docs)
      && forall r :: r in Elements(doomed) ==> !w.store.Live(r)
    case Saving(next) => NextCovered(w, next)
    case Marked(next) => NextCovered(w, next) && w.state.watermark == next.watermark
    case Refilling(next, boxes) =>
      && NextCovered(w, next) && w.state.watermark == next.watermark
      && boxes <= next.counts.Keys && w.state.counts == next.counts - boxes
    case Mutating(log) => PendingInv(w, log)
  }

  ghost predicate Inv(w: World) {
    DiskInv(w) && PhaseInv(w)
  }

  lemma InitInv(w: World)
    requires Init(w)
    ensures Inv(w)
  {
  }

  // ----- Mail.app's steps -----

  lemma CoversKept(s: Store, t: Store, ids: set<Rowid>, top: int, excused: set<Rowid>)
    requires Evolves(s, t) && top <= s.seqno && Covers(s, ids, top, excused)
    ensures Covers(t, ids, top, excused)
  {
  }

  lemma KeepsKept(s: Store, t: Store, before: set<Rowid>, after: set<Rowid>)
    requires Evolves(s, t) && Known(s, before) && Keeps(s, before, after)
    ensures Keeps(t, before, after)
  {
  }

  lemma MailKeepsStaging(w: World, w': World, next: SyncState, items: seq<WorkItem>, log: seq<Op>, skips: set<Rowid>)
    requires DiskInv(w) && StagingInv(w, next, items, log, skips)
    requires Evolves(w.store, w'.store) && w' == w.(store := w'.store)
    ensures StagingInv(w', next, items, log, skips)
  {
    var pending := Rowids(ApplyAll(w.docs, log));
    KeepsKept(w.store, w'.store, Rowids(w.docs), pending);
    CoversKept(w.store, w'.store, pending + ItemRows(items), next.watermark, w.skipped + skips);
  }

  lemma MailKeepsInv(w: World, w': World)
    requires Inv(w) && Evolves(w.store, w'.store) && w' == w.(store := w'.store)
    ensures Inv(w')
  {
    var s, t := w.store, w'.store;
    CoversKept(s, t, Rowids(w.docs), w.state.watermark, w.skipped);
    match w.phase
    case Collected(_, top, items) => PlannedKept(s, t, items, w.state.watermark, top);
    case Scanning(_, next, _, items) => PlannedKept(s, t, items, w.state.watermark, next.watermark);
    case Staging(_, next, items, log, skips) => MailKeepsStaging(w, w', next, items, log, skips);
    case Mutating(log) => KeepsKept(s, t, Rowids(w.docs), Rowids(ApplyAll(w.docs, log)));
    case _ =>
      forall next: SyncState | NextCovered(w, next) ensures NextCovered(w', next) {
        CoversKept(s, t, Rowids(w.docs), next.watermark, w.skipped);
      }
  }

  // ----- planning -----

  lemma PlanKeepsInv(w: World, step: Step)
    requires Inv(w) && Enabled(w, step)
    requires step.LoadRegistry? || step.ReadMax? || step.ReadAdded? || step.ReadCounts? || step.PassMailbox?
    ensures Inv(Act(w, step))
  {
    match step
    case ReadAdded(found) => AddedItemsCatch(w.store, found, w.state.watermark, w.phase.top);
    case _ =>
  }

  lemma ScanKeepsInv(w: World, m: MailboxId, found: seq<WorkItem>)
    requires Inv(w) && Enabled(w, ReadModified(m, found))
    ensures Inv(Act(w, ReadModified(m, found)))
  {
    ModifiedItemsExist(w.store, found, m, w.state.watermark);
    ItemRowsAppend(w.phase.items, found);
  }

  lemma BeginStagingKeepsInv(w: World)
    requires Inv(w) && Enabled(w, BeginStaging)
    ensures Inv(Act(w, BeginStaging))
  {
    var p := w.phase;
    assert ApplyAll(w.docs, []) == w.docs;
    forall r | w.store.Live(r) && r <= p.next.watermark
      ensures r in Rowids(w.docs) + ItemRows(p.items) || r in w.skipped
    {
      assert r <= w.state.watermark || r in ItemRows(p.items);
    }
  }

  // ----- staging and publishing -----

  lemma HeadRow(items: seq<WorkItem>)
    requires items != []
    ensures ItemRows(items) == {items[0].rowid} + ItemRows(items[1..])
  {
    assert items == [items[0]] + items[1..];
    ItemRowsAppend([items[0]], items[1..]);
    assert ItemRows([items[0]]) == {items[0].rowid} by {
      assert items[0] in [items[0]];
    }
  }

  lemma StageKeepsInv(w: World, doc: Doc)
    requires Inv(w) && Enabled(w, StageItem(doc))
    ensures Inv(Act(w, StageItem(doc)))
  {
    var p := w.phase;
    HeadRow(p.items);
    UpsertStaged(w.docs, p.log, doc);
    assert Rowids(ApplyAll(w.docs, p.log + OpsOf(Upsert(doc)))) == Rowids(ApplyAll(w.docs, p.log)) + {doc.rowid};
  }

  lemma SkipKeepsInv(w: World)
    requires Inv(w) && Enabled(w, SkipItem)
    ensures Inv(Act(w, SkipItem))
  {
    HeadRow(w.phase.items);
  }

  lemma CommitKeepsInv(w: World)
    requires Inv(w) && Enabled(w, Commit)
    ensures Inv(Act(w, Commit))
  {
    assert ItemRows([]) == {};
  }

  // ----- reconciling -----

  lemma SnapshotKeepsInv(w: World)
    requires Inv(w) && Enabled(w, Snapshot)
    ensures Inv(Act(w, Snapshot))
  {
  }

  lemma StageDeletesKeepsInv(w: World, doomed: seq<Rowid>)
    requires Inv(w) && Enabled(w, StageDeletes(doomed))
    ensures Inv(Act(w, StageDeletes(doomed)))
  {
  }

  lemma CommitDeletesKeepsInv(w: World)
    requires Inv(w) && Enabled(w, CommitDeletes)
    ensures Inv(Act(w, CommitDeletes))
  {
    DeletesApplied(w.docs, w.phase.doomed);
    assert Rowids(ApplyAll(w.docs, Deletes(w.phase.doomed))) == Rowids(w.docs) - Elements(w.phase.doomed);
  }

  // ----- saving the state, one statement at a time -----

  lemma SaveKeepsInv(w: World, step: Step)
    requires Inv(w) && Enabled(w, step)
    requires step.SaveWatermark? || step.ClearCounts? || step.SaveCount? || step.Finish?
    ensures Inv(Act(w, step))
  {
    match step
    case SaveCount(m) =>
      var next, boxes := w.phase.next, w.phase.mailboxes;
      assert w.state.counts[m := next.counts[m]] == next.counts - (boxes - {m});
    case _ =>
  }

  // ----- mutation tools -----

  lemma EditKeepsInv(w: World, e: Edit)
    requires Inv(w) && Enabled(w, StageEdit(e))
    ensures Inv(Act(w, StageEdit(e)))
  {
    var log := w.phase.log;
    EditStaged(w.docs, log, e);
    match e
    case Upsert(d) =>
      assert Rowids(ApplyAll(w.docs, log + OpsOf(e))) == Rowids(ApplyAll(w.docs, log)) + {d.rowid};
    case Remove(r) =>
      assert Rowids(ApplyAll(w.docs, log + OpsOf(e))) == Rowids(ApplyAll(w.docs, log)) - {r};
  }

  lemma CommitEditsKeepsInv(w: World)
    requires Inv(w) && Enabled(w, CommitEdits)
    ensures Inv(Act(w, CommitEdits))
  {
  }

  lemma MailStepKeepsInv(w: World, m: MailStep)
    requires Inv(w) && Enabled(w, Mail(m))
    ensures Inv(Act(w, Mail(m)))
  {
    StepEvolves(w.store, m);
    MailKeepsInv(w, Act(w, Mail(m)));
  }

  lemma OpenKeepsInv(w: World)
    requires Inv(w) && Enabled(w, OpenWriter)
    ensures Inv(Act(w, OpenWriter))
  {
    assert ApplyAll(w.docs, []) == w.docs;
  }

  lemma CrashKeepsInv(w: World)
    requires Inv(w)
    ensures Enabled(w, Crash) && Inv(Act(w, Crash))
  {
  }

  lemma StepKeepsInv(w: World, step: Step)
    requires Inv(w) && Enabled(w, step)
    ensures Inv(Act(w, step))
  {
    hide Inv, Enabled, Act;
    match step
    case Mail(m) => MailStepKeepsInv(w, m);
    case ReadModified(m, found) => ScanKeepsInv(w, m, found);
    case BeginStaging => BeginStagingKeepsInv(w);
    case StageItem(doc) => StageKeepsInv(w, doc);
    case SkipItem => SkipKeepsInv(w);
    case Commit => CommitKeepsInv(w);
    case Snapshot => SnapshotKeepsInv(w);
    case StageDeletes(doomed) => StageDeletesKeepsInv(w, doomed);
    case CommitDeletes => CommitDeletesKeepsInv(w);
    case SaveWatermark => SaveKeepsInv(w, step);
    case ClearCounts => SaveKeepsInv(w, step);
    case SaveCount(_) => SaveKeepsInv(w, step);
    case Finish => SaveKeepsInv(w, step);
    case OpenWriter => OpenKeepsInv(w);
    case StageEdit(e) => EditKeepsInv(w, e);
    case CommitEdits => CommitEditsKeepsInv(w);
    case Crash => CrashKeepsInv(w);
    case _ => PlanKeepsInv(w, step);
  }

  lemma {:induction false} RunKeepsInv(run: seq<World>, i: nat)
    requires IsRun(run) && Inv(run[0]) && i < |run|
    ensures Inv(run[i])
  {
    if i > 0 {
      RunKeepsInv(run, i - 1);
      var k := i - 1;
      assert Next(run[k], run[k + 1]);
      var step :| Enabled(run[k], step) && run[i] == Act(run[k], step);
      StepKeepsInv(run[k], step);
    }
  }

  // ----- why rows are skipped -----

  predicate HasScope(p: Phase) {
    p.Loaded? || p.Maxed? || p.Collected? || p.Scanning? || p.Staging?
  }

  function ItemsOf(p: Phase): seq<WorkItem> {
    if p.Collected? || p.Scanning? || p.Staging? then p.items else []
  }

  function SkipsOf(p: Phase): set<Rowid> {
    if p.Staging? then p.skips else {}
  }

  /** One and the same pass was planning or staging all the way. */
  ghost predicate OnePass(run: seq<World>, j: nat, k: nat)
    requires k < |run|
  {
    forall n :: j <= n <= k ==> HasScope(run[n].phase)
  }

  /** A pass had just loaded its registry from the store of that instant. */
  ghost predicate LoadedAt(run: seq<World>, j: nat) {
    j < |run| && run[j].phase.Loaded? && RegistryOf(run[j].normalize, run[j].store, run[j].phase.scope.registry)
  }

  /** The row was live in the mailbox when, somewhere between `j` and `k`, the planner read it. */
  ghost predicate SeenBetween(run: seq<World>, j: nat, k: nat, r: Rowid, m: MailboxId)
    requires k < |run|
  {
    exists n: nat :: j <= n <= k && run[n].store.Live(r) && run[n].store.rows[r].mailbox == m
  }

  /** The reason to skip a row: the pass that loaded its registry at `j` saw it live in a mailbox
      missing from that registry, or whose URL yields no directory or no account. */
  ghost predicate Cause(run: seq<World>, j: nat, k: nat, r: Rowid) {
    && j <= k < |run| && LoadedAt(run, j) && OnePass(run, j, k)
    && run[k].store.Live(r) && Refuses(run[j].phase.scope, run[k].store.rows[r].mailbox)
  }

  ghost predicate CausedBy(run: seq<World>, i: nat, r: Rowid) {
    exists j: nat, k: nat :: k <= i && Cause(run, j, k, r)
  }

  ghost predicate CausedSince(run: seq<World>, j: nat, i: nat, r: Rowid) {
    exists k: nat :: k <= i && Cause(run, j, k, r)
  }

  ghost predicate PassHistory(run: seq<World>, i: nat, j: nat)
    requires i < |run|
  {
    && j <= i
    && (HasScope(run[i].phase) ==> LoadedAt(run, j) && OnePass(run, j, i) && run[i].phase.scope == run[j].phase.scope)
    && (forall x :: x in ItemsOf(run[i].phase) ==> SeenBetween(run, j, i, x.rowid, x.mailbox))
    && (forall r :: r in SkipsOf(run[i].phase) ==> CausedSince(run, j, i, r))
  }

  lemma SeenLater(run: seq<World>, j: nat, k: nat, items: seq<WorkItem>)
    requires k + 1 < |run| && forall x :: x in items ==> SeenBetween(run, j, k, x.rowid, x.mailbox)
    ensures forall x :: x in items ==> SeenBetween(run, j, k + 1, x.rowid, x.mailbox)
  {
    forall x | x in items ensures SeenBetween(run, j, k + 1, x.rowid, x.mailbox) {
      var n: nat :| j <= n <= k && run[n].store.Live(x.rowid) && run[n].store.rows[x.rowid].mailbox == x.mailbox;
      assert n <= k + 1;
    }
  }

  lemma FoundNow(run: seq<World>, j: nat, k: nat, result: set<WorkItem>, found: seq<WorkItem>)
    requires j <= k && k + 1 < |run| && Lists(found, result) && run[k + 1].store == run[k].store
    requires forall x :: x in result ==> run[k].store.Live(x.rowid) && run[k].store.rows[x.rowid].mailbox == x.mailbox
    ensures forall x :: x in found ==> SeenBetween(run, j, k + 1, x.rowid, x.mailbox)
  {
    forall x | x in found ensures SeenBetween(run, j, k + 1, x.rowid, x.mailbox) {
      assert run[k + 1].store.Live(x.rowid);
    }
  }

  lemma SkipHasCause(run: seq<World>, j: nat, i: nat)
    requires i < |run| && PassHistory(run, i, j) && Enabled(run[i], SkipItem)
    ensures CausedSince(run, j, i, run[i].phase.items[0].rowid)
  {
    var x := run[i].phase.items[0];
    assert x in ItemsOf(run[i].phase);
    var n: nat :| j <= n <= i && run[n].store.Live(x.rowid) && run[n].store.rows[x.rowid].mailbox == x.mailbox;
    assert Cause(run, j, n, x.rowid);
  }

  lemma CausedLater(run: seq<World>, j: nat, i: nat, skips: set<Rowid>)
    requires forall r :: r in skips ==> CausedSince(run, j, i, r)
    ensures forall r :: r in skips ==> CausedSince(run, j, i + 1, r)
  {
    forall r | r in skips ensures CausedSince(run, j, i + 1, r) {
      var k: nat :| k <= i && Cause(run, j, k, r);
      assert k <= i + 1;
    }
  }

  lemma ItemsStep(run: seq<World>, k: nat, i: nat, j: nat, step: Step)
    requires i == k + 1 < |run| && PassHistory(run, k, j) && !step.LoadRegistry?
    requires Enabled(run[k], step) && run[k + 1] == Act(run[k], step)
    ensures forall x :: x in ItemsOf(run[i].phase) ==> SeenBetween(run, j, i, x.rowid, x.mailbox)
  {
    SeenLater(run, j, k, ItemsOf(run[k].phase));
    hide SeenBetween;
    match step
    case ReadAdded(found) => FoundNow(run, j, k, AddedItems(run[k].store, run[k].state.watermark), found);
    case ReadModified(m, found) => FoundNow(run, j, k, ModifiedItems(run[k].store, m, run[k].state.watermark), found);
    case _ =>
  }

  lemma SkipsStep(run: seq<World>, k: nat, i: nat, j: nat, step: Step)
    requires i == k + 1 < |run| && PassHistory(run, k, j) && !step.LoadRegistry?
    requires Enabled(run[k], step) && run[k + 1] == Act(run[k], step)
    ensures forall r :: r in SkipsOf(run[i].phase) ==> CausedSince(run, j, i, r)
  {
    CausedLater(run, j, k, SkipsOf(run[k].phase));
    if step.SkipItem? {
      SkipHasCause(run, j, k);
      CausedLater(run, j, k, {run[k].phase.items[0].rowid});
    }
  }

  lemma HistoryStep(run: seq<World>, k: nat, j: nat, step: Step) returns (j': nat)
    requires k + 1 < |run| && PassHistory(run, k, j)
    requires Enabled(run[k], step) && run[k + 1] == Act(run[k], step)
    ensures PassHistory(run, k + 1, j')
  {
    hide SeenBetween, CausedSince, RegistryOf;
    if step.LoadRegistry? {
      j' := k + 1;
    } else {
      j' := j;
      ItemsStep(run, k, k + 1, j, step);
      SkipsStep(run, k, k + 1, j, step);
    }
  }

  lemma {:induction false} HistoryHolds(run: seq<World>, i: nat) returns (j: nat)
    requires IsRun(run) && Init(run[0]) && i < |run|
    ensures PassHistory(run, i, j)
  {
    if i == 0 {
      j := 0;
    } else {
      j := HistoryHolds(run, i - 1);
      assert Next(run[i - 1], run[i - 1 + 1]);
      var step :| Enabled(run[i - 1], step) && run[i] == Act(run[i - 1], step);
      j := HistoryStep(run, i - 1, j, step);
    }
  }

  /** Nothing is skipped without cause. */
  lemma {:induction false} SkippedForCause(run: seq<World>, i: nat, r: Rowid)
    requires IsRun(run) && Init(run[0]) && i < |run| && r in run[i].skipped
    ensures CausedBy(run, i, r)
  {
    if i > 0 {
      var was := i - 1;
      if r in run[was].skipped {
        SkippedForCause(run, was, r);
      } else {
        NewlySkipped(run, was, r);
      }
    }
  }

  lemma NewlySkipped(run: seq<World>, k: nat, r: Rowid)
    requires IsRun(run) && Init(run[0]) && k < |run| - 1
    requires r in run[k + 1].skipped && r !in run[k].skipped
    ensures CausedBy(run, k + 1, r)
  {
    hide Enabled, Act, Init, Cause, LoadedAt, OnePass, SeenBetween;
    var j := HistoryHolds(run, k);
    assert Next(run[k], run[k + 1]);
    var step :| Enabled(run[k], step) && run[k + 1] == Act(run[k], step);
    SkippedByCommit(run[k], step, r);
    var n: nat :| n <= k && Cause(run, j, n, r);
  }

  lemma SkippedByCommit(w: World, step: Step, r: Rowid)
    requires Enabled(w, step) && r in Act(w, step).skipped && r !in w.skipped
    ensures r in SkipsOf(w.phase)
  {
    hide RegistryOf, OutcomeOf, Lists;
  }

  // ----- theorems -----

  /** Crash-safe completeness. In every state of every run of passes, mutations, Mail.app steps
      and crashes (a crash may fall between any two statements, so every state is what a
      restart may find), each live row at or below the persisted watermark has exactly one
      committed document or was skipped, not both, and no row was skipped but for cause. */
  lemma CrashSafeCompleteness(run: seq<World>, i: nat, r: Rowid)
    requires IsRun(run) && Init(run[0]) && i < |run|
    ensures Unique(run[i].docs)
    ensures run[i].store.Live(r) && r <= run[i].state.watermark ==>
              (r in Rowids(run[i].docs)) != (r in run[i].skipped)
    ensures r in run[i].skipped ==> CausedBy(run, i, r)
  {
    InitInv(run[0]);
    RunKeepsInv(run, i);
    if r in run[i].skipped {
      SkippedForCause(run, i, r);
    }
  }

  lemma StepKeepsLiveDocuments(w: World, step: Step, r: Rowid)
    requires Inv(w) && Enabled(w, step)
    requires r in Rowids(w.docs) && Act(w, step).store.Live(r)
    ensures r in Rowids(Act(w, step).docs)
  {
    match step
    case Mail(m) => StepEvolves(w.store, m);
    case Commit => assert w.store.Live(r);
    case CommitEdits => assert w.store.Live(r);
    case CommitDeletes => DeletesApplied(w.docs, w.phase.doomed);
    case _ =>
  }

  lemma RunStep(run: seq<World>, k: nat) returns (step: Step)
    requires IsRun(run) && Inv(run[0]) && k < |run| - 1
    ensures Inv(run[k]) && Enabled(run[k], step) && run[k + 1] == Act(run[k], step)
  {
    RunKeepsInv(run, k);
    assert Next(run[k], run[k + 1]);
    step :| Enabled(run[k], step) && run[k + 1] == Act(run[k], step);
  }

  lemma StoreEvolvesOnce(run: seq<World>, k: nat)
    requires IsRun(run) && Inv(run[0]) && k < |run| - 1
    ensures Evolves(run[k].store, run[k + 1].store)
  {
    var step := RunStep(run, k);
    if step.Mail? {
      StepEvolves(run[k].store, step.step);
    }
  }

  lemma StoreFacts(run: seq<World>, i: nat)
    requires IsRun(run) && Inv(run[0]) && i < |run|
    ensures run[i].store.Valid() && Known(run[i].store, Rowids(run[i].docs))
  {
    RunKeepsInv(run, i);
  }

  lemma {:induction false} StoresEvolve(run: seq<World>, i: nat, j: nat)
    requires IsRun(run) && Inv(run[0]) && i <= j < |run|
    ensures Evolves(run[i].store, run[j].store)
    decreases j
  {
    hide Inv, IsRun;
    StoreFacts(run, i);
    if i < j {
      StoresEvolve(run, i, j - 1);
      StoreEvolvesOnce(run, j - 1);
      EvolvesTransitive(run[i].store, run[j - 1].store, run[j].store);
    }
  }

  /** One step: a live row keeps its document. */
  lemma DocumentSurvivesStep(run: seq<World>, k: nat, r: Rowid)
    requires IsRun(run) && Inv(run[0]) && k < |run| - 1
    requires r in Rowids(run[k].docs) && run[k + 1].store.Live(r)
    ensures r in Rowids(run[k + 1].docs)
  {
    hide Inv, Enabled, Act, IsRun;
    var step := RunStep(run, k);
    StepKeepsLiveDocuments(run[k], step, r);
  }

  lemma LiveEarlier(run: seq<World>, i: nat, k: nat, r: Rowid)
    requires IsRun(run) && Inv(run[0]) && i <= k < |run| - 1
    requires r in Rowids(run[i].docs) && run[k + 1].store.Live(r)
    ensures run[k].store.Live(r)
  {
    hide Inv, IsRun;
    StoreFacts(run, i);
    StoresEvolve(run, i, k);
    StoreEvolvesOnce(run, k);
    LiveBefore(run[k].store, run[k + 1].store, r);
  }

  /** Nothing the indexer does, reconciliation included, ever takes a live row's document away:
      once committed it is in every later committed index for as long as the row lives. */
  lemma {:induction false} LiveDocumentsSurvive(run: seq<World>, i: nat, j: nat, r: Rowid)
    requires IsRun(run) && Inv(run[0]) && i <= j < |run|
    requires r in Rowids(run[i].docs) && run[j].store.Live(r)
    ensures r in Rowids(run[j].docs)
    decreases j
  {
    hide Inv, IsRun;
    if i < j {
      var k := j - 1;
      LiveEarlier(run, i, k, r);
      LiveDocumentsSurvive(run, i, k, r);
      DocumentSurvivesStep(run, k, r);
    }
  }

  // ----- interrupted saves -----

  predicate InSave(p: Phase) {
    p.Saving? || p.Marked? || p.Refilling?
  }

  /** How far a save of `next` over `was` has come, by phase; a save that has ended or was
      interrupted left one of three kinds of pair. */
  ghost predicate SavedSoFar(was: SyncState, next: SyncState, w: World) {
    match w.phase
    case Saving(n) => n == next && w.state == was
    case Marked(n) => n == next && w.state == SyncState(next.watermark, was.counts)
    case Refilling(n, boxes) =>
      n == next && boxes <= next.counts.Keys && w.state == SyncState(next.watermark, next.counts - boxes)
    case _ => Torn(w.state, was, next)
  }

  lemma SaveStep(was: SyncState, next: SyncState, w: World, step: Step)
    requires Inv(w) && Enabled(w, step) && InSave(w.phase) && SavedSoFar(was, next, w)
    ensures SavedSoFar(was, next, Act(w, step))
  {
    match step
    case SaveCount(m) =>
      var boxes := w.phase.mailboxes;
      assert w.state.counts[m := next.counts[m]] == next.counts - (boxes - {m});
    case _ =>
  }

  /** What a restart can find in `meta.sqlite` when a save that began at `i` is interrupted at `j`, or
      has just ended: the old pair, the new watermark with the old tuples, or the new watermark
      with some of the new tuples and no other; and after its last statement the new pair. */
  lemma {:induction false} TornSave(run: seq<World>, i: nat, j: nat)
    requires IsRun(run) && Inv(run[0]) && i <= j < |run| && run[i].phase.Saving?
    requires forall k :: i <= k < j ==> InSave(run[k].phase)
    ensures var was, next := run[i].state, run[i].phase.next;
      && SavedSoFar(was, next, run[j])
      && Torn(run[j].state, was, next)
      && (run[j].phase.Refilling? && run[j].phase.mailboxes == {} ==> run[j].state == next)
    decreases j
  {
    hide Inv, Enabled, Act, IsRun;
    assert run[i].phase.next.counts - {} == run[i].phase.next.counts;
    if i < j {
      TornSave(run, i, j - 1);
      var step := RunStep(run, j - 1);
      SaveStep(run[i].state, run[i].phase.next, run[j - 1], step);
    }
  }
}
