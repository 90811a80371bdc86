/** How far the count tuples can be trusted. A pass rescans a mailbox when its tuple has changed; these
    are the conditions under which that keeps the documents of its rows up to date while Mail.app
    acts between any two statements, and runs on which it does not. */
module Freshness {
  import opened Wrappers
  import opened MailStore
  import opened OpLog
  import opened Planner
  import opened Indexing
  import opened SyncProtocol

  // ----- what is asked of Mail.app and of the mutation tools -----

  predicate FiledIn(s: Store, r: Rowid, m: MailboxId) {
    r in s.rows && s.rows[r].mailbox == m
  }

  predicate SameTuple(s: Store, t: Store, m: MailboxId) {
    m in s.boxes && m in t.boxes && s.boxes[m].counts == t.boxes[m].counts
  }

  /** A message refiled into or out of a mailbox changes its tuple. */
  ghost predicate RefilesShow(s: Store, t: Store) {
    forall r, m :: r in s.rows && r in t.rows && FiledIn(s, r, m) != FiledIn(t, r, m) ==> !SameTuple(s, t, m)
  }

  predicate StagesUpsert(w: World, w': World, d: Doc) {
    w.phase.Mutating? && w'.phase.Mutating? && w'.phase.log == w.phase.log + OpsOf(Upsert(d))
  }

  predicate StagesAt(run: seq<World>, k: nat, d: Doc) {
    k + 1 < |run| && StagesUpsert(run[k], run[k + 1], d)
  }

  /** The document is that of its row as it was at `j`, and one writer of the mutation tools was open from then
      until `k`. */
  ghost predicate ReadFor(run: seq<World>, urlOf: MailboxId -> string, j: nat, k: nat, d: Doc)
    requires k < |run|
  {
    && j <= k && (forall i :: j <= i <= k ==> run[i].phase.Mutating?)
    && d.rowid in run[j].store.rows && d.url == urlOf(run[j].store.rows[d.rowid].mailbox)
  }

  /** Mailboxes keep their URLs, refiles show in the tuples, and the mutation tools stage rows as they have
      read them since they opened their writer. */
  ghost predicate Sincere(run: seq<World>, urlOf: MailboxId -> string) {
    && (forall k, m :: 0 <= k < |run| && m in run[k].store.boxes ==> run[k].store.boxes[m].url == urlOf(m))
    && (forall k :: 0 <= k < |run| - 1 ==> RefilesShow(run[k].store, run[k + 1].store))
    && (forall k, d :: StagesAt(run, k, d) ==> exists j :: ReadFor(run, urlOf, j, k, d))
  }

  /** The tuple of a mailbox is all along what it is at `c`. */
  ghost predicate Steady(run: seq<World>, c: nat, i: nat, m: MailboxId)
    requires c < |run| && i < |run|
  {
    forall k :: c <= k <= i ==> SameTuple(run[c].store, run[k].store, m)
  }

  lemma StaysFiled(run: seq<World>, urlOf: MailboxId -> string, c: nat, n: nat, i: nat, r: Rowid, m: MailboxId)
    requires IsRun(run) && Inv(run[0]) && Sincere(run, urlOf) && c <= n <= i < |run| && Steady(run, c, i, m)
    requires r in run[n].store.rows && r in run[i].store.rows
    ensures FiledIn(run[n].store, r, m) <==> FiledIn(run[i].store, r, m)
    decreases i - n
  {
    hide IsRun, Inv;
    if n < i {
      StoreFacts(run, n);
      StoreEvolvesOnce(run, n);
      StoresEvolve(run, n + 1, i);
      assert r in run[n + 1].store.rows;
      StaysFiled(run, urlOf, c, n + 1, i, r, m);
      assert SameTuple(run[n].store, run[n + 1].store, m) by {
        assert SameTuple(run[c].store, run[n].store, m) && SameTuple(run[c].store, run[n + 1].store, m);
      }
      assert RefilesShow(run[n].store, run[n + 1].store);
    }
  }

  lemma LiveSince(run: seq<World>, n: nat, i: nat, r: Rowid)
    requires IsRun(run) && Inv(run[0]) && n <= i < |run|
    requires run[i].store.Live(r) && r <= run[n].store.seqno
    ensures run[n].store.Live(r)
  {
    hide IsRun, Inv;
    StoresEvolve(run, n, i);
    LiveBefore(run[n].store, run[i].store, r);
  }

  // ----- one pass, from its rows to its commit -----

  /** A pass that read the new rows at `a`, the tuples at `c`, and has come to `n`. */
  ghost predicate PassUpTo(run: seq<World>, a: nat, c: nat, n: nat) {
    && a < c < n < |run|
    && run[a].phase.Maxed? && (forall k :: a < k <= c ==> run[k].phase.Collected?)
    && (forall k :: c < k <= n ==> run[k].phase.Scanning? || run[k].phase.Staging?)
  }

  predicate Has(items: seq<WorkItem>, r: Rowid) {
    exists x :: x in items && x.rowid == r
  }

  /** The document of a row, if it has one, is filed under this URL. */
  predicate UnderUrl(docs: seq<Doc>, r: Rowid, url: string) {
    r in AsMap(docs) ==> AsMap(docs)[r].url == url
  }

  /** In the middle of a pass that read the new rows in `start`: everything planned for the row is planned
      for mailbox `f`; and the row, if it is known and a rescan of `f` is due, or if it is new and has
      a document, is planned, or will be, or has been staged. */
  ghost predicate Midway(start: World, urlOf: MailboxId -> string, r: Rowid, f: MailboxId, w: World) {
    var low := start.state.watermark;
    && w.state == start.state && w.docs == start.docs
    && (forall x :: x in ItemsOf(w.phase) && x.rowid == r ==> x.mailbox == f)
    && (HasScope(w.phase) ==> !Refuses(w.phase.scope, f) && w.phase.scope.registry[f] == urlOf(f))
    && match w.phase
       case Collected(_, _, items) => r <= low || Has(items, r) || r !in Rowids(w.docs)
       case Scanning(_, next, mailboxes, items) =>
         if r <= low then f in next.counts && !Unchanged(w.state, f, next.counts[f]) && (Has(items, r) || f in mailboxes)
         else Has(items, r) || r !in Rowids(w.docs)
       case Staging(_, _, items, log, _) => Has(items, r) || UnderUrl(ApplyAll(w.docs, log), r, urlOf(f))
       case _ => false
  }

  /** Known rows are live, and filed in `f` while mailboxes are being rescanned. */
  ghost predicate Awaits(start: World, r: Rowid, f: MailboxId, w: World) {
    r <= start.state.watermark ==> w.store.Live(r) && (w.phase.Scanning? ==> FiledIn(w.store, r, f))
  }

  /** The tuple of `f` calls for a rescan. */
  predicate Due(start: World, f: MailboxId, w: World) {
    f in w.store.boxes && !Unchanged(start.state, f, w.store.boxes[f].counts)
  }

  lemma MidwayScan(start: World, urlOf: MailboxId -> string, r: Rowid, f: MailboxId, w: World, m: MailboxId, found: seq<WorkItem>)
    requires Midway(start, urlOf, r, f, w) && Awaits(start, r, f, w) && Enabled(w, ReadModified(m, found))
    ensures Midway(start, urlOf, r, f, Act(w, ReadModified(m, found)))
  {
    var items := w.phase.items;
    forall x | x in items + found && x.rowid == r ensures x.mailbox == f {
      if x in found {
        assert x in ModifiedItems(w.store, m, w.state.watermark);
      }
    }
    if Has(items, r) {
      var x :| x in items && x.rowid == r;
      assert x in items + found;
    }
    if m == f && r <= start.state.watermark {
      var x := WorkItem(r, m, Modified);
      assert x in ModifiedItems(w.store, m, w.state.watermark);
      assert x in found && x in items + found;
    }
  }

  lemma HasRest(items: seq<WorkItem>, r: Rowid)
    requires items != []
    ensures Has(items, r) <==> items[0].rowid == r || Has(items[1..], r)
  {
    assert items == [items[0]] + items[1..];
    if Has(items, r) {
      var x :| x in items && x.rowid == r;
      assert x == items[0] || x in items[1..];
    }
    if items[0].rowid == r {
      assert items[0] in items;
    }
    if Has(items[1..], r) {
      var x :| x in items[1..] && x.rowid == r;
      assert x in items;
    }
  }

  /** One staged edit: the row's document is under the URL if it was before, or is staged so now. */
  lemma StagedUrl(docs: seq<Doc>, log: seq<Op>, e: Edit, r: Rowid, url: string)
    requires Unique(ApplyAll(docs, log))
    requires UnderUrl(ApplyAll(docs, log), r, url) || (e.Upsert? && e.doc.rowid == r)
    requires e.Upsert? && e.doc.rowid == r ==> e.doc.url == url
    ensures UnderUrl(ApplyAll(docs, log + OpsOf(e)), r, url)
    ensures e.Upsert? ==> Rowids(ApplyAll(docs, log + OpsOf(e))) == Rowids(ApplyAll(docs, log)) + {e.doc.rowid}
  {
    EditStaged(docs, log, e);
    hide ApplyAll, AsMap, OpsOf;
  }

  lemma MidwayStage(start: World, urlOf: MailboxId -> string, r: Rowid, f: MailboxId, w: World, step: Step)
    requires Inv(w) && Midway(start, urlOf, r, f, w) && Enabled(w, step) && (step.StageItem? || step.SkipItem?)
    ensures Midway(start, urlOf, r, f, Act(w, step))
  {
    var items, log := w.phase.items, w.phase.log;
    HasRest(items, r);
    assert items[0] in items && forall x :: x in items[1..] ==> x in items;
    assert Unique(ApplyAll(w.docs, log));
    hide Inv, ApplyAll, AsMap, OpsOf, Has, UnderUrl, Unique, Lists, RegistryOf, PendingInv;
    match step
    case StageItem(doc) =>
      if UnderUrl(ApplyAll(w.docs, log), r, urlOf(f)) || doc.rowid == r {
        StagedUrl(w.docs, log, Upsert(doc), r, urlOf(f));
      }
    case _ =>
  }

  lemma MidwayStep(start: World, urlOf: MailboxId -> string, r: Rowid, f: MailboxId, w: World, step: Step)
    requires Inv(w) && Midway(start, urlOf, r, f, w) && Awaits(start, r, f, w) && Enabled(w, step)
    requires step.ReadCounts? && r <= start.state.watermark ==> Due(start, f, w)
    requires Act(w, step).phase.Collected? || Act(w, step).phase.Scanning? || Act(w, step).phase.Staging?
    ensures Midway(start, urlOf, r, f, Act(w, step))
  {
    hide Inv, Has, UnderUrl, Lists, OutcomeOf, RegistryOf;
    match step
    case ReadModified(m, found) => MidwayScan(start, urlOf, r, f, w, m, found);
    case StageItem(_) => MidwayStage(start, urlOf, r, f, w, step);
    case SkipItem => MidwayStage(start, urlOf, r, f, w, step);
    case BeginStaging => BeginMidway(start, urlOf, r, f, w);
    case _ =>
  }

  lemma BeginMidway(start: World, urlOf: MailboxId -> string, r: Rowid, f: MailboxId, w: World)
    requires Midway(start, urlOf, r, f, w) && Enabled(w, BeginStaging)
    ensures Midway(start, urlOf, r, f, Act(w, BeginStaging))
  {
    assert ApplyAll(w.docs, []) == w.docs;
  }

  lemma ScopeUrls(run: seq<World>, urlOf: MailboxId -> string, n: nat, m: MailboxId)
    requires IsRun(run) && Init(run[0]) && Sincere(run, urlOf) && n < |run| && HasScope(run[n].phase)
    requires m in run[n].phase.scope.registry
    ensures run[n].phase.scope.registry[m] == urlOf(m)
  {
    var j := HistoryHolds(run, n);
  }

  /** A new row that was read in another mailbox than it is filed in later. */
  predicate Stray(start: World, r: Rowid, m: MailboxId) {
    start.state.watermark < r && start.store.Live(r) && !FiledIn(start.store, r, m)
  }

  lemma MidwayFirst(run: seq<World>, urlOf: MailboxId -> string, a: nat, r: Rowid, f: MailboxId, found: seq<WorkItem>)
    requires IsRun(run) && Init(run[0]) && a + 1 < |run| && Inv(run[a]) && Sincere(run, urlOf)
    requires Enabled(run[a], ReadAdded(found)) && run[a + 1] == Act(run[a], ReadAdded(found))
    requires !Refuses(run[a].phase.scope, f) && !Stray(run[a], r, f)
    requires run[a].store.Live(r) || run[a].store.seqno < r
    ensures Midway(run[a], urlOf, r, f, run[a + 1])
  {
    var w, low := run[a], run[a].state.watermark;
    ScopeUrls(run, urlOf, a, f);
    forall x | x in found && x.rowid == r ensures x.mailbox == f {
      assert x in AddedItems(w.store, low);
    }
    if low < r && w.store.Live(r) {
      var x := WorkItem(r, w.store.rows[r].mailbox, Added);
      assert x in AddedItems(w.store, low) && x in found;
    }
  }

  /** What the theorems ask of a mailbox and a row up to instant `e`: the mailbox is not refused, its tuple
      has not changed since the pass read it, and the row is filed there, and not by having come
      there between the reading of the rows and that of the tuples. */
  ghost predicate Tracked(run: seq<World>, a: nat, c: nat, e: nat, r: Rowid, m: MailboxId)
    requires a < |run| && c < |run| && e < |run| && run[a].phase.Maxed?
  {
    && !Refuses(run[a].phase.scope, m) && Steady(run, c, e, m)
    && run[e].store.Live(r) && FiledIn(run[e].store, r, m) && !Stray(run[a], r, m)
  }

  lemma {:induction false} PassMidway(
      run: seq<World>, urlOf: MailboxId -> string, a: nat, c: nat, p: nat, n: nat, e: nat, r: Rowid, m: MailboxId)
    requires IsRun(run) && Init(run[0]) && Sincere(run, urlOf) && PassUpTo(run, a, c, p) && a < n <= p <= e < |run|
    requires Tracked(run, a, c, e, r, m) && (r <= run[a].state.watermark ==> Due(run[a], m, run[c]))
    ensures Midway(run[a], urlOf, r, m, run[n])
    decreases n
  {
    hide Midway, Inv, Init, Tracked, Awaits, Enabled, Act, IsRun, Sincere, Due;
    InitInv(run[0]);
    if n == a + 1 {
      PassMidwayFirst(run, urlOf, a, c, e, r, m);
    } else {
      PassMidway(run, urlOf, a, c, p, n - 1, e, r, m);
      AwaitsAt(run, urlOf, a, c, n - 1, e, r, m);
      var step := RunStep(run, n - 1);
      CountsAt(run[n - 1], step);
      MidwayStep(run[a], urlOf, r, m, run[n - 1], step);
    }
  }

  lemma PassMidwayFirst(run: seq<World>, urlOf: MailboxId -> string, a: nat, c: nat, e: nat, r: Rowid, m: MailboxId)
    requires IsRun(run) && Init(run[0]) && Sincere(run, urlOf) && a < c <= e < |run|
    requires run[a].phase.Maxed? && run[a + 1].phase.Collected? && Tracked(run, a, c, e, r, m)
    ensures Midway(run[a], urlOf, r, m, run[a + 1])
  {
    hide Midway, Inv, Init, Enabled, Act, IsRun, Sincere;
    InitInv(run[0]);
    var step := RunStep(run, a);
    ReadAddedAt(run[a], step);
    if r <= run[a].store.seqno {
      LiveSince(run, a, e, r);
    }
    MidwayFirst(run, urlOf, a, r, m, run[a + 1].phase.items);
  }

  lemma ReadAddedAt(w: World, step: Step)
    requires Enabled(w, step) && w.phase.Maxed? && Act(w, step).phase.Collected?
    ensures step == ReadAdded(Act(w, step).phase.items)
  {
  }

  lemma CountsAt(w: World, step: Step)
    requires Enabled(w, step)
    ensures step.ReadCounts? <==> w.phase.Collected? && Act(w, step).phase.Scanning?
  {
  }

  lemma AwaitsAt(run: seq<World>, urlOf: MailboxId -> string, a: nat, c: nat, n: nat, e: nat, r: Rowid, m: MailboxId)
    requires IsRun(run) && Init(run[0]) && Sincere(run, urlOf) && Inv(run[0])
    requires a < c < |run| && a <= n <= e < |run| && run[a].phase.Maxed? && Tracked(run, a, c, e, r, m)
    requires run[n].phase.Scanning? ==> c <= n
    ensures Awaits(run[a], r, m, run[n])
  {
    if r <= run[a].state.watermark {
      RunKeepsInv(run, a);
      StoresEvolve(run, a, n);
      LiveSince(run, n, e, r);
      if run[n].phase.Scanning? {
        StaysFiled(run, urlOf, c, n, e, r, m);
      }
    }
  }

  // ----- from the commit on -----

  /** The row's document, committed or pending, is filed under the URL of mailbox `m`, and nothing is planned
      for it elsewhere. */
  ghost predicate Settled(urlOf: MailboxId -> string, r: Rowid, m: MailboxId, w: World) {
    && UnderUrl(w.docs, r, urlOf(m))
    && (forall x :: x in ItemsOf(w.phase) && x.rowid == r ==> x.mailbox == m)
    && (w.phase.Staging? || w.phase.Mutating? ==> UnderUrl(ApplyAll(w.docs, w.phase.log), r, urlOf(m)))
  }

  /** What the environment grants at one step. */
  ghost predicate Granted(urlOf: MailboxId -> string, r: Rowid, m: MailboxId, w: World, w': World) {
    && (r in w.store.rows ==> FiledIn(w.store, r, m))
    && (HasScope(w.phase) && m in w.phase.scope.registry ==> w.phase.scope.registry[m] == urlOf(m))
    && (forall d :: StagesUpsert(w, w', d) && d.rowid == r ==> d.url == urlOf(m))
  }

  lemma SettledItems(urlOf: MailboxId -> string, r: Rowid, m: MailboxId, w: World, step: Step)
    requires Settled(urlOf, r, m, w) && Enabled(w, step) && Granted(urlOf, r, m, w, Act(w, step))
    ensures forall x :: x in ItemsOf(Act(w, step).phase) && x.rowid == r ==> x.mailbox == m
  {
    hide UnderUrl, ApplyAll;
    match step
    case ReadAdded(found) =>
      forall x | x in found && x.rowid == r ensures x.mailbox == m {
        assert x in AddedItems(w.store, w.state.watermark);
      }
    case ReadModified(n, found) =>
      forall x | x in found && x.rowid == r ensures x.mailbox == m {
        assert x in ModifiedItems(w.store, n, w.state.watermark);
      }
    case _ =>
  }

  lemma SettledStage(urlOf: MailboxId -> string, r: Rowid, m: MailboxId, w: World, doc: Doc)
    requires Inv(w) && Settled(urlOf, r, m, w) && Enabled(w, StageItem(doc)) && Granted(urlOf, r, m, w, Act(w, StageItem(doc)))
    ensures UnderUrl(ApplyAll(w.docs, w.phase.log + OpsOf(Upsert(doc))), r, urlOf(m))
  {
    assert w.phase.items[0] in w.phase.items;
    hide ApplyAll, AsMap, OpsOf, UnderUrl, Unique;
    StagedUrl(w.docs, w.phase.log, Upsert(doc), r, urlOf(m));
  }

  lemma SettledEdit(urlOf: MailboxId -> string, r: Rowid, m: MailboxId, w: World, e: Edit)
    requires Inv(w) && Settled(urlOf, r, m, w) && Enabled(w, StageEdit(e)) && Granted(urlOf, r, m, w, Act(w, StageEdit(e)))
    ensures UnderUrl(ApplyAll(w.docs, w.phase.log + OpsOf(e)), r, urlOf(m))
  {
    assert Unique(ApplyAll(w.docs, w.phase.log));
    hide Inv, ApplyAll, AsMap, OpsOf, UnderUrl, Unique;
    if e.Upsert? {
      assert StagesUpsert(w, Act(w, StageEdit(e)), e.doc);
    }
    StagedUrl(w.docs, w.phase.log, e, r, urlOf(m));
  }

  lemma SettledPurge(r: Rowid, url: string, w: World)
    requires Inv(w) && Enabled(w, CommitDeletes) && UnderUrl(w.docs, r, url)
    ensures UnderUrl(ApplyAll(w.docs, Deletes(w.phase.doomed)), r, url)
  {
    DeletesApplied(w.docs, w.phase.doomed);
    hide ApplyAll, AsMap, Deletes;
  }

  lemma SettledStep(urlOf: MailboxId -> string, r: Rowid, m: MailboxId, w: World, step: Step)
    requires Inv(w) && Settled(urlOf, r, m, w) && Enabled(w, step) && Granted(urlOf, r, m, w, Act(w, step))
    ensures Settled(urlOf, r, m, Act(w, step))
  {
    SettledItems(urlOf, r, m, w, step);
    assert ApplyAll(w.docs, []) == w.docs;
    hide Inv, UnderUrl, ApplyAll, ItemsOf, Granted, Lists, OutcomeOf, RegistryOf;
    match step
    case StageItem(doc) => SettledStage(urlOf, r, m, w, doc);
    case StageEdit(e) => SettledEdit(urlOf, r, m, w, e);
    case CommitDeletes => SettledPurge(r, urlOf(m), w);
    case _ =>
  }

  lemma GrantedAt(run: seq<World>, urlOf: MailboxId -> string, c: nat, p: nat, n: nat, e: nat, r: Rowid, m: MailboxId)
    requires IsRun(run) && Init(run[0]) && Inv(run[0]) && Sincere(run, urlOf) && c <= p <= n < e < |run| && Steady(run, c, e, m)
    requires run[e].store.Live(r) && FiledIn(run[e].store, r, m) && !run[p].phase.Mutating?
    ensures Granted(urlOf, r, m, run[n], run[n + 1])
  {
    if r in run[n].store.rows {
      StaysFiled(run, urlOf, c, n, e, r, m);
    }
    if HasScope(run[n].phase) && m in run[n].phase.scope.registry {
      ScopeUrls(run, urlOf, n, m);
    }
    forall d | StagesUpsert(run[n], run[n + 1], d) && d.rowid == r ensures d.url == urlOf(m) {
      assert StagesAt(run, n, d);
      var j: nat :| ReadFor(run, urlOf, j, n, d);
      assert p < j;
      StaysFiled(run, urlOf, c, j, e, r, m);
    }
  }

  lemma CommitSettles(start: World, urlOf: MailboxId -> string, r: Rowid, m: MailboxId, w: World, step: Step)
    requires Midway(start, urlOf, r, m, w) && Enabled(w, step) && w.phase.Staging? && Act(w, step).phase.Published?
    ensures Settled(urlOf, r, m, Act(w, step))
  {
    assert !Has([], r);
  }

  lemma {:induction false} StaysSettled(
      run: seq<World>, urlOf: MailboxId -> string, c: nat, p: nat, n: nat, e: nat, r: Rowid, m: MailboxId)
    requires IsRun(run) && Init(run[0]) && Sincere(run, urlOf) && c <= p <= n <= e < |run| && Steady(run, c, e, m)
    requires run[e].store.Live(r) && FiledIn(run[e].store, r, m) && Settled(urlOf, r, m, run[p]) && !run[p].phase.Mutating?
    ensures Settled(urlOf, r, m, run[n])
    decreases n
  {
    hide Settled, Inv, Init, Enabled, Act, IsRun, Sincere, Steady, Granted, FiledIn;
    InitInv(run[0]);
    if p < n {
      StaysSettled(run, urlOf, c, p, n - 1, e, r, m);
      GrantedAt(run, urlOf, c, p, n - 1, e, r, m);
      var step := RunStep(run, n - 1);
      SettledStep(urlOf, r, m, run[n - 1], step);
    }
  }

  /** A pass that has committed: its new rows were read at `a`, its tuples at `c`, and `p` is the instant before
      the commit. */
  ghost predicate Committed(run: seq<World>, a: nat, c: nat, p: nat) {
    PassUpTo(run, a, c, p) && p + 1 < |run| && run[p].phase.Staging? && run[p + 1].phase.Published?
  }

  lemma SettledByCommit(run: seq<World>, urlOf: MailboxId -> string, a: nat, c: nat, p: nat, e: nat, r: Rowid, m: MailboxId)
    requires IsRun(run) && Init(run[0]) && Sincere(run, urlOf) && Committed(run, a, c, p) && p < e < |run|
    requires Tracked(run, a, c, e, r, m) && (r <= run[a].state.watermark ==> Due(run[a], m, run[c]))
    ensures Settled(urlOf, r, m, run[p + 1])
  {
    hide Settled, Midway, Inv, Init, Enabled, Act, IsRun, Sincere, Tracked, Due;
    InitInv(run[0]);
    PassMidway(run, urlOf, a, c, p, p, e, r, m);
    var step := RunStep(run, p);
    CommitSettles(run[a], urlOf, r, m, run[p], step);
  }

  lemma CommittedOrder(run: seq<World>, a: nat, c: nat, p: nat)
    requires Committed(run, a, c, p)
    ensures a < c < p < |run| - 1 && run[a].phase.Maxed? && run[p + 1].phase.Published?
  {
  }

  lemma TrackedFacts(run: seq<World>, a: nat, c: nat, e: nat, r: Rowid, m: MailboxId)
    requires a < |run| && c < |run| && e < |run| && run[a].phase.Maxed? && Tracked(run, a, c, e, r, m)
    ensures Steady(run, c, e, m) && run[e].store.Live(r) && FiledIn(run[e].store, r, m)
  {
  }

  lemma UrlWhileSteady(run: seq<World>, urlOf: MailboxId -> string, a: nat, c: nat, p: nat, e: nat, r: Rowid, m: MailboxId)
    requires IsRun(run) && Init(run[0]) && Sincere(run, urlOf) && Committed(run, a, c, p) && p < e < |run|
    requires Due(run[a], m, run[c]) && Tracked(run, a, c, e, r, m)
    ensures r in Rowids(run[e].docs) ==> AsMap(run[e].docs)[r].url == urlOf(m)
  {
    hide *;
    CommittedOrder(run, a, c, p);
    TrackedFacts(run, a, c, e, r, m);
    SettledByCommit(run, urlOf, a, c, p, e, r, m);
    StaysSettled(run, urlOf, c, p + 1, e, e, r, m);
    if r in Rowids(run[e].docs) {
      SettledUrl(urlOf, r, m, run[e]);
    }
  }

  /** Freshness under interference. Once a pass that rescanned a mailbox has committed, and for as long as the
      tuple it read stays the same, through any number of further passes, mutations and crashes:
      whatever row is filed in that mailbox has no document but one filed under its URL, and at or
      below the watermark it has one unless it was skipped. Not so only for a row that came into the
      mailbox between the pass's reading of the new rows and its reading of the tuples. */
  lemma FreshWhileSteady(run: seq<World>, urlOf: MailboxId -> string, a: nat, c: nat, p: nat, e: nat, r: Rowid, m: MailboxId)
    requires IsRun(run) && Init(run[0]) && Sincere(run, urlOf) && Committed(run, a, c, p) && p < e < |run|
    requires Due(run[a], m, run[c]) && Tracked(run, a, c, e, r, m)
    ensures r in Rowids(run[e].docs) ==> AsMap(run[e].docs)[r].url == urlOf(m)
    ensures r <= run[e].state.watermark ==> r in Rowids(run[e].docs) || r in run[e].skipped
  {
    assert run[e].store.Live(r);
    hide *;
    UrlWhileSteady(run, urlOf, a, c, p, e, r, m);
    CrashSafeCompleteness(run, e, r);
  }

  // ----- and exactly when not -----

  /** A new row of a pass is planned until it is staged. */
  ghost predicate Held(r: Rowid, w: World) {
    match w.phase
    case Collected(_, _, items) => Has(items, r)
    case Scanning(_, _, _, items) => Has(items, r)
    case Staging(_, _, items, log, _) => Has(items, r) || r in Rowids(ApplyAll(w.docs, log))
    case _ => false
  }

  lemma HasMore(items: seq<WorkItem>, found: seq<WorkItem>, r: Rowid)
    requires Has(items, r)
    ensures Has(items + found, r)
  {
    var x :| x in items && x.rowid == r;
    assert x in items + found;
  }

  lemma HeldStep(start: World, urlOf: MailboxId -> string, r: Rowid, f: MailboxId, w: World, step: Step)
    requires Inv(w) && Midway(start, urlOf, r, f, w) && Held(r, w) && Enabled(w, step)
    requires Act(w, step).phase.Collected? || Act(w, step).phase.Scanning? || Act(w, step).phase.Staging?
    ensures Held(r, Act(w, step))
  {
    hide Inv, Has, UnderUrl, Lists, RegistryOf, ApplyAll, Rowids, OpsOf, Unique;
    match step
    case ReadModified(_, found) => HasMore(w.phase.items, found, r);
    case StageItem(doc) => HeldStage(r, w, doc);
    case SkipItem =>
      HasRest(w.phase.items, r);
      assert w.phase.items[0] in w.phase.items;
    case _ =>
  }

  lemma HeldStage(r: Rowid, w: World, doc: Doc)
    requires Inv(w) && Held(r, w) && Enabled(w, StageItem(doc))
    ensures Has(w.phase.items[1..], r) || r in Rowids(ApplyAll(w.docs, w.phase.log + OpsOf(Upsert(doc))))
  {
    HasRest(w.phase.items, r);
    assert Unique(ApplyAll(w.docs, w.phase.log));
    hide Inv, Has, Lists, RegistryOf, ApplyAll, AsMap, OpsOf, Unique;
    UpsertStaged(w.docs, w.phase.log, doc);
  }

  lemma {:induction false} NewRowMidway(
      run: seq<World>, urlOf: MailboxId -> string, a: nat, c: nat, p: nat, n: nat, r: Rowid, f: MailboxId)
    requires IsRun(run) && Init(run[0]) && Sincere(run, urlOf) && PassUpTo(run, a, c, p) && a < n <= p
    requires run[a].state.watermark < r && run[a].store.Live(r) && FiledIn(run[a].store, r, f)
    requires !Refuses(run[a].phase.scope, f)
    ensures Midway(run[a], urlOf, r, f, run[n]) && Held(r, run[n])
    decreases n
  {
    hide Midway, Inv, Init, Enabled, Act, IsRun, Sincere, Held;
    InitInv(run[0]);
    var step := RunStep(run, n - 1);
    if n == a + 1 {
      ReadAddedAt(run[a], step);
      MidwayFirst(run, urlOf, a, r, f, run[n].phase.items);
      HeldFirst(run[a], r, run[n].phase.items);
    } else {
      NewRowMidway(run, urlOf, a, c, p, n - 1, r, f);
      MidwayStep(run[a], urlOf, r, f, run[n - 1], step);
      HeldStep(run[a], urlOf, r, f, run[n - 1], step);
    }
  }

  lemma HeldFirst(w: World, r: Rowid, found: seq<WorkItem>)
    requires Enabled(w, ReadAdded(found)) && w.state.watermark < r && w.store.Live(r)
    ensures Held(r, Act(w, ReadAdded(found)))
  {
    var x := WorkItem(r, w.store.rows[r].mailbox, Added);
    assert x in AddedItems(w.store, w.state.watermark) && x in found;
  }

  lemma CommitHolds(r: Rowid, w: World, step: Step)
    requires Held(r, w) && Enabled(w, step) && w.phase.Staging? && Act(w, step).phase.Published?
    ensures r in Rowids(Act(w, step).docs)
  {
    assert !Has([], r);
  }

  /** Just after a commit the document of a new row is right exactly if the row was in its present mailbox
      already when the pass read the new rows: what comes there before the tuples are read has been
      counted in them, and is filed wrongly. */
  lemma FreshAtCommitIff(run: seq<World>, urlOf: MailboxId -> string, a: nat, c: nat, p: nat, r: Rowid, m: MailboxId)
    requires IsRun(run) && Init(run[0]) && Sincere(run, urlOf) && Committed(run, a, c, p)
    requires run[a].state.watermark < r && run[a].store.Live(r) && FiledIn(run[p + 1].store, r, m)
    requires !Refuses(run[a].phase.scope, run[a].store.rows[r].mailbox)
    requires forall x, y :: urlOf(x) == urlOf(y) ==> x == y
    ensures r in Rowids(run[p + 1].docs)
    ensures AsMap(run[p + 1].docs)[r].url == urlOf(m) <==> FiledIn(run[a].store, r, m)
  {
    var f := run[a].store.rows[r].mailbox;
    hide Midway, Settled, Inv, Init, Enabled, Act, IsRun, Sincere, Held;
    InitInv(run[0]);
    NewRowMidway(run, urlOf, a, c, p, p, r, f);
    var step := RunStep(run, p);
    CommitHolds(r, run[p], step);
    CommitSettles(run[a], urlOf, r, f, run[p], step);
    SettledUrl(urlOf, r, f, run[p + 1]);
  }

  lemma SettledUrl(urlOf: MailboxId -> string, r: Rowid, m: MailboxId, w: World)
    requires Settled(urlOf, r, m, w) && r in Rowids(w.docs)
    ensures AsMap(w.docs)[r].url == urlOf(m)
  {
  }

  // ----- when a known row is planned again -----

  /** What is planned for a known row filed in `m`, in the middle of a pass: nothing, if the tuple of `m` is
      the remembered one, and otherwise something as soon as `m` has been rescanned. */
  ghost predicate Replanned(start: World, r: Rowid, m: MailboxId, counts: Counts, w: World) {
    && w.state == start.state
    && match w.phase
       case Collected(_, _, items) => !Has(items, r)
       case Scanning(_, next, mailboxes, items) =>
         && m in next.counts && next.counts[m] == counts
         && if Unchanged(start.state, m, counts) then !Has(items, r) else Has(items, r) || m in mailboxes
       case _ => false
  }

  lemma ReplannedScan(start: World, r: Rowid, m: MailboxId, counts: Counts, w: World, n: MailboxId, found: seq<WorkItem>)
    requires Replanned(start, r, m, counts, w) && Enabled(w, ReadModified(n, found))
    requires r <= start.state.watermark && w.store.Live(r) && FiledIn(w.store, r, m)
    ensures Replanned(start, r, m, counts, Act(w, ReadModified(n, found)))
  {
    var items := w.phase.items;
    if Has(items, r) {
      HasMore(items, found, r);
    } else if n == m {
      var x := WorkItem(r, m, Modified);
      assert x in ModifiedItems(w.store, m, w.state.watermark);
      assert x in found && x in items + found;
    } else {
      forall x | x in found ensures x.rowid != r {
        assert x in ModifiedItems(w.store, n, w.state.watermark);
      }
    }
  }

  lemma ReplannedStep(start: World, r: Rowid, m: MailboxId, counts: Counts, w: World, step: Step)
    requires Replanned(start, r, m, counts, w) && Enabled(w, step) && r <= start.state.watermark
    requires w.phase.Scanning? ==> w.store.Live(r) && FiledIn(w.store, r, m)
    requires step.ReadCounts? ==> HasTuple(w.store, m, counts)
    requires Act(w, step).phase.Collected? || Act(w, step).phase.Scanning?
    ensures Replanned(start, r, m, counts, Act(w, step))
  {
    hide Has, Lists;
    match step
    case ReadModified(n, found) => ReplannedScan(start, r, m, counts, w, n, found);
    case _ =>
  }

  predicate HasTuple(s: Store, m: MailboxId, counts: Counts) {
    m in s.boxes && s.boxes[m].counts == counts
  }

  /** A pass that has come to `p` and has not begun to stage. */
  ghost predicate ScanUpTo(run: seq<World>, a: nat, c: nat, p: nat) {
    PassUpTo(run, a, c, p) && forall k :: c < k <= p ==> run[k].phase.Scanning?
  }

  lemma KnownStill(run: seq<World>, urlOf: MailboxId -> string, a: nat, c: nat, n: nat, p: nat, r: Rowid, m: MailboxId)
    requires IsRun(run) && Init(run[0]) && Inv(run[0]) && Sincere(run, urlOf) && a <= c <= n <= p < |run| && Steady(run, c, p, m)
    requires r <= run[a].state.watermark && run[p].store.Live(r) && FiledIn(run[p].store, r, m)
    ensures run[n].store.Live(r) && FiledIn(run[n].store, r, m)
  {
    RunKeepsInv(run, a);
    StoresEvolve(run, a, n);
    LiveSince(run, n, p, r);
    StaysFiled(run, urlOf, c, n, p, r, m);
  }

  lemma NotAdded(w: World, r: Rowid, m: MailboxId, counts: Counts, found: seq<WorkItem>)
    requires Enabled(w, ReadAdded(found)) && r <= w.state.watermark
    ensures Replanned(w, r, m, counts, Act(w, ReadAdded(found)))
  {
    forall x | x in found ensures x.rowid != r {
      assert x in AddedItems(w.store, w.state.watermark);
    }
  }

  lemma {:induction false} PassReplans(
      run: seq<World>, urlOf: MailboxId -> string, a: nat, c: nat, n: nat, p: nat, r: Rowid, m: MailboxId, counts: Counts)
    requires IsRun(run) && Init(run[0]) && Sincere(run, urlOf) && ScanUpTo(run, a, c, p) && a < n <= p
    requires Steady(run, c, p, m) && HasTuple(run[c].store, m, counts) && r <= run[a].state.watermark
    requires run[p].store.Live(r) && FiledIn(run[p].store, r, m)
    ensures Replanned(run[a], r, m, counts, run[n])
    decreases n
  {
    hide Inv, Init, Enabled, Act, IsRun, Sincere, Replanned, Steady;
    InitInv(run[0]);
    var step := RunStep(run, n - 1);
    if n == a + 1 {
      ReadAddedAt(run[a], step);
      NotAdded(run[a], r, m, counts, run[n].phase.items);
    } else {
      PassReplans(run, urlOf, a, c, n - 1, p, r, m, counts);
      CountsAt(run[n - 1], step);
      if c <= n - 1 {
        KnownStill(run, urlOf, a, c, n - 1, p, r, m);
      }
      ReplannedStep(run[a], r, m, counts, run[n - 1], step);
    }
  }

  /** When a known row is planned again, for instance one that was skipped: once the mailboxes have all been
      gone through it is in the plan exactly if the tuple of its mailbox was not the saved one. */
  lemma PlannedAgainIff(
      run: seq<World>, urlOf: MailboxId -> string, a: nat, c: nat, p: nat, r: Rowid, m: MailboxId, counts: Counts)
    requires IsRun(run) && Init(run[0]) && Sincere(run, urlOf) && ScanUpTo(run, a, c, p) && run[p].phase.mailboxes == {}
    requires Steady(run, c, p, m) && HasTuple(run[c].store, m, counts) && r <= run[a].state.watermark
    requires run[p].store.Live(r) && FiledIn(run[p].store, r, m)
    ensures Has(run[p].phase.items, r) <==> !Unchanged(run[a].state, m, counts)
  {
    PassReplans(run, urlOf, a, c, p, p, r, m, counts);
  }

  // ----- a document left alone -----

  predicate HasDoc(docs: seq<Doc>, r: Rowid, d: Doc) {
    r in AsMap(docs) && AsMap(docs)[r] == d
  }

  /** This pair covers the row and remembers the tuple. */
  predicate Remembers(state: SyncState, r: Rowid, m: MailboxId, counts: Counts) {
    r <= state.watermark && Unchanged(state, m, counts)
  }

  /** Whatever the pass under way has read so far, it saves a pair that does so, too. */
  predicate Carries(p: Phase, r: Rowid, m: MailboxId, counts: Counts) {
    match p
    case Idle => true
    case Loaded(_) => true
    case Maxed(_, top) => r <= top
    case Collected(_, top, _) => r <= top
    case Mutating(_) => true
    case _ => Remembers(p.next, r, m, counts)
  }

  /** A pass between its commit and its end. */
  predicate Finishing(p: Phase) {
    p.Published? || p.Snapped? || p.Purging? || InSave(p)
  }

  /** The row has this document, committed or pending; nothing is planned for it; and the saved pair gives no
      cause to plan it, or the pass under way is about to save one that does not. */
  ghost predicate LeftAlone(r: Rowid, m: MailboxId, counts: Counts, d: Doc, w: World) {
    && HasDoc(w.docs, r, d) && (w.phase.Staging? || w.phase.Mutating? ==> HasDoc(ApplyAll(w.docs, w.phase.log), r, d))
    && (forall x :: x in ItemsOf(w.phase) ==> x.rowid != r)
    && Carries(w.phase, r, m, counts) && (Remembers(w.state, r, m, counts) || Finishing(w.phase))
  }

  /** What keeps the document: its row is live in the mailbox, whose tuple is this one; no mutation stages the
      row; and no crash cuts off a pass that has committed before the pair is saved. */
  ghost predicate Spared(r: Rowid, m: MailboxId, counts: Counts, w: World, step: Step) {
    && w.store.Live(r) && FiledIn(w.store, r, m) && HasTuple(w.store, m, counts)
    && (step.StageEdit? && step.edit.Upsert? ==> step.edit.doc.rowid != r)
    && (step.Crash? && Finishing(w.phase) ==> Remembers(w.state, r, m, counts))
  }

  lemma AloneItems(r: Rowid, m: MailboxId, counts: Counts, d: Doc, w: World, step: Step)
    requires LeftAlone(r, m, counts, d, w) && Enabled(w, step) && Spared(r, m, counts, w, step)
    ensures forall x :: x in ItemsOf(Act(w, step).phase) ==> x.rowid != r
  {
    hide HasDoc, ApplyAll;
    match step
    case ReadAdded(found) =>
      forall x | x in found ensures x.rowid != r {
        assert x in AddedItems(w.store, w.state.watermark);
      }
    case ReadModified(n, found) =>
      forall x | x in found ensures x.rowid != r {
        assert x in ModifiedItems(w.store, n, w.state.watermark);
      }
    case _ =>
  }

  /** Staging an edit of another row. */
  lemma EditSpares(docs: seq<Doc>, log: seq<Op>, e: Edit, r: Rowid, d: Doc)
    requires Unique(ApplyAll(docs, log)) && HasDoc(ApplyAll(docs, log), r, d)
    requires match e case Upsert(x) => x.rowid != r case Remove(x) => x != r
    ensures HasDoc(ApplyAll(docs, log + OpsOf(e)), r, d)
  {
    EditStaged(docs, log, e);
    hide ApplyAll, AsMap, OpsOf;
  }

  lemma AloneStage(r: Rowid, m: MailboxId, counts: Counts, d: Doc, w: World, step: Step)
    requires Inv(w) && LeftAlone(r, m, counts, d, w) && Enabled(w, step) && Spared(r, m, counts, w, step)
    requires step.StageItem? || step.StageEdit?
    ensures HasDoc(ApplyAll(w.docs, Act(w, step).phase.log), r, d)
  {
    assert Unique(ApplyAll(w.docs, w.phase.log));
    hide Inv, ApplyAll, AsMap, OpsOf, HasDoc, Unique;
    match step
    case StageItem(doc) =>
      assert w.phase.items[0] in w.phase.items;
      EditSpares(w.docs, w.phase.log, Upsert(doc), r, d);
    case StageEdit(e) => EditSpares(w.docs, w.phase.log, e, r, d);
  }

  lemma AlonePurge(r: Rowid, d: Doc, w: World)
    requires Inv(w) && Enabled(w, CommitDeletes) && HasDoc(w.docs, r, d) && w.store.Live(r)
    ensures HasDoc(ApplyAll(w.docs, Deletes(w.phase.doomed)), r, d)
  {
    DeletesApplied(w.docs, w.phase.doomed);
    hide ApplyAll, AsMap, Deletes;
  }

  /** The saving of the pair. */
  lemma AloneSave(r: Rowid, m: MailboxId, counts: Counts, w: World, step: Step)
    requires Inv(w) && Enabled(w, step) && Spared(r, m, counts, w, step)
    requires Carries(w.phase, r, m, counts) && (Remembers(w.state, r, m, counts) || Finishing(w.phase))
    ensures var w' := Act(w, step);
      && Carries(w'.phase, r, m, counts) && (Remembers(w'.state, r, m, counts) || Finishing(w'.phase))
  {
    hide ApplyAll, AsMap, Unique, Covers, Known, Lists, RegistryOf, OutcomeOf, AddedItems, ModifiedItems, CanDo, Do, Deletes, Elements;
  }

  lemma AloneDoc(r: Rowid, m: MailboxId, counts: Counts, d: Doc, w: World, step: Step)
    requires Inv(w) && LeftAlone(r, m, counts, d, w) && Enabled(w, step) && Spared(r, m, counts, w, step)
    ensures var w' := Act(w, step);
      && HasDoc(w'.docs, r, d)
      && (w'.phase.Staging? || w'.phase.Mutating? ==> HasDoc(ApplyAll(w'.docs, w'.phase.log), r, d))
  {
    assert ApplyAll(w.docs, []) == w.docs && w.store.Live(r);
    hide Inv, HasDoc, ApplyAll, ItemsOf, Spared, Lists, OutcomeOf, RegistryOf, Carries, Remembers, Finishing, CanDo, Do, Refuses;
    match step
    case StageItem(_) => AloneStage(r, m, counts, d, w, step);
    case StageEdit(_) => AloneStage(r, m, counts, d, w, step);
    case CommitDeletes => AlonePurge(r, d, w);
    case _ =>
  }

  lemma AloneStep(r: Rowid, m: MailboxId, counts: Counts, d: Doc, w: World, step: Step)
    requires Inv(w) && LeftAlone(r, m, counts, d, w) && Enabled(w, step) && Spared(r, m, counts, w, step)
    ensures LeftAlone(r, m, counts, d, Act(w, step))
  {
    hide Inv, Enabled, Act, HasDoc, ApplyAll, ItemsOf, Spared, Carries, Remembers, Finishing;
    AloneItems(r, m, counts, d, w, step);
    AloneSave(r, m, counts, w, step);
    AloneDoc(r, m, counts, d, w, step);
  }

  /** From `p` to `e` no mutation stages the row, and no crash cuts off a pass that has committed before the
      saved pair covers the row and remembers the tuple. */
  ghost predicate NothingElse(run: seq<World>, p: nat, e: nat, r: Rowid, m: MailboxId, counts: Counts)
    requires e < |run|
  {
    && (forall k, d :: p <= k < e && StagesAt(run, k, d) ==> d.rowid != r)
    && (forall k :: p <= k < e && Finishing(run[k].phase) && run[k + 1].phase.Idle? ==> Remembers(run[k].state, r, m, counts))
  }

  lemma SparedAt(
      run: seq<World>, urlOf: MailboxId -> string, c: nat, p: nat, n: nat, e: nat, r: Rowid, m: MailboxId,
      counts: Counts, d: Doc, step: Step)
    requires IsRun(run) && Inv(run[0]) && Sincere(run, urlOf) && c <= p <= n < e < |run| && Steady(run, c, e, m)
    requires HasTuple(run[c].store, m, counts) && run[e].store.Live(r) && FiledIn(run[e].store, r, m)
    requires NothingElse(run, p, e, r, m, counts) && LeftAlone(r, m, counts, d, run[n])
    requires Enabled(run[n], step) && run[n + 1] == Act(run[n], step)
    ensures Spared(r, m, counts, run[n], step)
  {
    hide Sincere, Inv, IsRun, ApplyAll, Remembers, Carries;
    StoreFacts(run, n);
    LiveSince(run, n, e, r);
    StaysFiled(run, urlOf, c, n, e, r, m);
    assert SameTuple(run[c].store, run[n].store, m);
    if step.StageEdit? && step.edit.Upsert? {
      assert StagesAt(run, n, step.edit.doc);
    }
  }

  lemma {:induction false} StaysAlone(
      run: seq<World>, urlOf: MailboxId -> string, c: nat, p: nat, n: nat, e: nat, r: Rowid, m: MailboxId, counts: Counts, d: Doc)
    requires IsRun(run) && Init(run[0]) && Sincere(run, urlOf) && c <= p <= n <= e < |run| && Steady(run, c, e, m)
    requires HasTuple(run[c].store, m, counts) && run[e].store.Live(r) && FiledIn(run[e].store, r, m)
    requires NothingElse(run, p, e, r, m, counts) && LeftAlone(r, m, counts, d, run[p])
    ensures LeftAlone(r, m, counts, d, run[n])
    decreases n
  {
    hide LeftAlone, Inv, Init, Enabled, Act, IsRun, Sincere, NothingElse, Steady, HasTuple, FiledIn, Spared;
    InitInv(run[0]);
    if p < n {
      StaysAlone(run, urlOf, c, p, n - 1, e, r, m, counts, d);
      var step := RunStep(run, n - 1);
      SparedAt(run, urlOf, c, p, n - 1, e, r, m, counts, d, step);
      AloneStep(r, m, counts, d, run[n - 1], step);
    }
  }

  lemma CountsKept(w: World, step: Step)
    requires Enabled(w, step) && (w.phase.Scanning? || w.phase.Staging?)
    ensures var p := Act(w, step).phase; p.Scanning? || p.Staging? || p.Published? ==> p.next == w.phase.next
  {
    hide Lists, OutcomeOf, RegistryOf, CanDo, Do;
  }

  lemma CountsRead(w: World, step: Step)
    requires Enabled(w, step) && w.phase.Collected? && (Act(w, step).phase.Scanning? || Act(w, step).phase.Staging?)
    ensures Act(w, step).phase.next.counts == w.store.MailboxCounts()
  {
  }

  /** A pass saves the tuples that it has read. */
  lemma {:induction false} NextCounts(run: seq<World>, a: nat, c: nat, p: nat, n: nat)
    requires IsRun(run) && Init(run[0]) && PassUpTo(run, a, c, p) && c < n <= p
    ensures run[n].phase.next.counts == run[c].store.MailboxCounts()
    decreases n
  {
    hide Inv, Init, Enabled, Act, IsRun;
    InitInv(run[0]);
    var step := RunStep(run, n - 1);
    if n == c + 1 {
      CountsRead(run[c], step);
    } else {
      NextCounts(run, a, c, p, n - 1);
      CountsKept(run[n - 1], step);
    }
  }

  lemma CommittedCounts(run: seq<World>, a: nat, c: nat, p: nat)
    requires IsRun(run) && Init(run[0]) && Committed(run, a, c, p)
    ensures run[p + 1].phase.Published? && run[p + 1].phase.next.counts == run[c].store.MailboxCounts()
  {
    hide Inv, Init, Enabled, Act, IsRun;
    InitInv(run[0]);
    NextCounts(run, a, c, p, p);
    var step := RunStep(run, p);
    CountsKept(run[p], step);
  }

  lemma AloneFirst(r: Rowid, m: MailboxId, counts: Counts, d: Doc, w: World)
    requires w.phase.Published? && HasDoc(w.docs, r, d) && Remembers(w.phase.next, r, m, counts)
    ensures LeftAlone(r, m, counts, d, w)
  {
  }

  /** A document committed by a pass stays exactly what it is, right or wrong, for as long as its row is live in
      the mailbox and the tuple that the pass read there stays the same, if no mutation stages the row
      and no crash cuts off a committed pass while that tuple is not saved. The row must be within the
      watermark to be saved, or the next pass takes it for a new one. */
  lemma KeptWhileSteady(
      run: seq<World>, urlOf: MailboxId -> string, a: nat, c: nat, p: nat, e: nat, r: Rowid, m: MailboxId, counts: Counts)
    requires IsRun(run) && Init(run[0]) && Sincere(run, urlOf) && Committed(run, a, c, p) && p < e < |run|
    requires Steady(run, c, e, m) && HasTuple(run[c].store, m, counts) && run[e].store.Live(r) && FiledIn(run[e].store, r, m)
    requires r in Rowids(run[p + 1].docs) && r <= run[p + 1].phase.next.watermark
    requires NothingElse(run, p + 1, e, r, m, counts)
    ensures r in Rowids(run[e].docs) && AsMap(run[e].docs)[r] == AsMap(run[p + 1].docs)[r]
  {
    hide Inv, Init, IsRun, Sincere, NothingElse, Steady, PassUpTo;
    var d := AsMap(run[p + 1].docs)[r];
    CommittedCounts(run, a, c, p);
    AloneFirst(r, m, counts, d, run[p + 1]);
    CommittedOrder(run, a, c, p);
    StaysAlone(run, urlOf, c, p + 1, e, e, r, m, counts, d);
  }

  /** So a new row is filed rightly all that time exactly if it was in its mailbox already when the pass read the
      new rows. */
  lemma FreshWhileSteadyIff(
      run: seq<World>, urlOf: MailboxId -> string, a: nat, c: nat, p: nat, e: nat, r: Rowid, m: MailboxId, counts: Counts)
    requires IsRun(run) && Init(run[0]) && Sincere(run, urlOf) && Committed(run, a, c, p) && p < e < |run|
    requires Steady(run, c, e, m) && HasTuple(run[c].store, m, counts) && run[e].store.Live(r) && FiledIn(run[e].store, r, m)
    requires run[a].state.watermark < r <= run[p + 1].phase.next.watermark && run[a].store.Live(r)
    requires !Refuses(run[a].phase.scope, run[a].store.rows[r].mailbox)
    requires NothingElse(run, p + 1, e, r, m, counts) && forall x, y :: urlOf(x) == urlOf(y) ==> x == y
    ensures r in Rowids(run[e].docs)
    ensures AsMap(run[e].docs)[r].url == urlOf(m) <==> FiledIn(run[a].store, r, m)
  {
    hide Inv, Init, IsRun, NothingElse, Refuses;
    InitInv(run[0]);
    StoreFacts(run, a);
    StoresEvolve(run, a, p + 1);
    LiveSince(run, p + 1, e, r);
    StaysFiled(run, urlOf, c, p + 1, e, r, m);
    FreshAtCommitIff(run, urlOf, a, c, p, r, m);
    KeptWhileSteady(run, urlOf, a, c, p, e, r, m, counts);
  }

  // ----- runs on which a row is passed over -----

  function Last(run: seq<World>): World
    requires run != []
  {
    run[|run| - 1]
  }

  /** A run on which every refile shows. */
  ghost predicate ShownRun(run: seq<World>) {
    IsRun(run) && Init(run[0]) && forall k :: 0 <= k < |run| - 1 ==> RefilesShow(run[k].store, run[k + 1].store)
  }

  lemma Extend(run: seq<World>, step: Step) returns (run': seq<World>)
    requires ShownRun(run) && Enabled(Last(run), step) && RefilesShow(Last(run).store, Act(Last(run), step).store)
    ensures ShownRun(run') && run' == run + [Act(Last(run), step)]
  {
    hide Enabled, Act, Init, RefilesShow;
    run' := run + [Act(Last(run), step)];
    assert Next(Last(run), Act(Last(run), step));
    forall k | 0 <= k < |run'| - 1 ensures Next(run'[k], run'[k + 1]) && RefilesShow(run'[k].store, run'[k + 1].store) {
      if k < |run| - 1 {
        assert Next(run[k], run[k + 1]) && RefilesShow(run[k].store, run[k + 1].store);
      }
    }
  }

  lemma Standstill(s: Store)
    ensures RefilesShow(s, s)
  {
  }

  lemma SaveCounts(run: seq<World>) returns (run': seq<World>)
    requires run != [] && ShownRun(run) && Last(run).phase.Refilling? && Last(run).phase.mailboxes <= Last(run).phase.next.counts.Keys
    requires Last(run).state == SyncState(Last(run).phase.next.watermark, Last(run).phase.next.counts - Last(run).phase.mailboxes)
    ensures ShownRun(run') && run <= run'
    ensures Last(run') == Last(run).(state := Last(run).phase.next, phase := Idle)
    decreases Last(run).phase.mailboxes
  {
    hide ShownRun, RefilesShow;
    var w := Last(run);
    Standstill(w.store);
    if w.phase.mailboxes == {} {
      assert w.phase.next.counts - {} == w.phase.next.counts;
      run' := Extend(run, Finish);
    } else {
      HasMember(w.phase.mailboxes);
      var m: MailboxId :| m in w.phase.mailboxes;
      var next := Extend(run, SaveCount(m));
      assert w.state.counts[m := w.phase.next.counts[m]] == w.phase.next.counts - (w.phase.mailboxes - {m});
      run' := SaveCounts(next);
    }
  }

  /** Reconciling when all documents are of live rows. */
  lemma FinishReconcile(run: seq<World>) returns (run': seq<World>)
    requires run != [] && ShownRun(run) && Last(run).phase.Published?
    requires forall r :: r in Rowids(Last(run).docs) ==> Last(run).store.Live(r)
    ensures ShownRun(run') && run <= run' && Last(run') == Last(run).(phase := Saving(Last(run).phase.next))
  {
    hide ShownRun, RefilesShow, Rowids;
    var w := Last(run);
    Standstill(w.store);
    assert Elements([]) == Rowids(w.docs) - w.store.LiveRows() by {
      assert forall r :: r in Rowids(w.docs) ==> r in w.store.LiveRows();
    }
    assert Deletes([]) == [] && ApplyAll(w.docs, []) == w.docs;
    hide Deletes, ApplyAll, Elements;
    run' := Extend(run, Snapshot);
    run' := Extend(run', StageDeletes([]));
    run' := Extend(run', CommitDeletes);
  }

  /** The rest of a pass over a store that stands still, when all documents are of live rows. */
  lemma FinishPass(run: seq<World>) returns (run': seq<World>)
    requires run != [] && ShownRun(run) && Last(run).phase.Published?
    requires forall r :: r in Rowids(Last(run).docs) ==> Last(run).store.Live(r)
    ensures ShownRun(run') && run <= run'
    ensures Last(run') == Last(run).(state := Last(run).phase.next, phase := Idle)
  {
    hide ShownRun, RefilesShow, Rowids;
    var w := Last(run);
    Standstill(w.store);
    run' := FinishReconcile(run);
    run' := Extend(run', SaveWatermark);
    run' := Extend(run', ClearCounts);
    assert w.phase.next.counts - w.phase.next.counts.Keys == map[];
    run' := SaveCounts(run');
  }

  const INBOX: MailboxId := 7
  const ARCHIVE: MailboxId := 8
  const EMPTY := Counts(0, 0, 0)
  const ONE := Counts(1, 1, 0)

  function Fresh(s: Store): World {
    World(url => url, s, [], FRESH_STATE, {}, Idle)
  }

  lemma OneNewRow(s: Store, m: MailboxId)
    requires s.rows == map[1 := Row(m, false, false, false)]
    ensures Lists([WorkItem(1, m, Added)], AddedItems(s, 0)) && IsTop(s, 0, 1)
    ensures forall n :: Lists([], ModifiedItems(s, n, 0))
  {
    assert s.rows[1].mailbox == m;
    assert WorkItem(1, s.rows[1].mailbox, Added) in AddedItems(s, 0);
  }

  /** The mailbox and its first message appear just after the registry has been loaded. */
  lemma LateMailbox(disk: Disk) returns (run: seq<World>)
    ensures run != [] && ShownRun(run)
    ensures Last(run).store == Store(map[1 := Row(INBOX, false, false, false)], map[INBOX := Mailbox("a", ONE)], 1)
    ensures Last(run).docs == [] && Last(run).state == FRESH_STATE && Last(run).skipped == {}
    ensures Last(run).phase == Maxed(Scope(map[], disk), 1)
  {
    var s0 := Store(map[], map[], 0);
    run := [Fresh(s0)];
    Standstill(s0);
    run := Extend(run, LoadRegistry(Scope(map[], disk)));
    run := Extend(run, Mail(EditMailboxes(map[INBOX := Mailbox("a", ONE)])));
    run := Extend(run, Mail(Arrive(1, Row(INBOX, false, false, false))));
    OneNewRow(Last(run).store, INBOX);
    Standstill(Last(run).store);
    run := Extend(run, ReadMax(1));
  }

  lemma LateMailboxScanned(disk: Disk) returns (run: seq<World>)
    ensures run != [] && ShownRun(run)
    ensures Last(run).store == Store(map[1 := Row(INBOX, false, false, false)], map[INBOX := Mailbox("a", ONE)], 1)
    ensures Last(run).docs == []
    ensures Last(run).phase == Scanning(Scope(map[], disk), SyncState(1, map[INBOX := ONE]), {}, [WorkItem(1, INBOX, Added)])
  {
    run := LateMailbox(disk);
    var s := Last(run).store;
    OneNewRow(s, INBOX);
    Standstill(s);
    assert s.MailboxCounts() == map[INBOX := ONE] && map[INBOX := ONE].Keys == {INBOX};
    hide ShownRun, RefilesShow, Lists, ModifiedItems, AddedItems, OutcomeOf, RegistryOf, IsTop, Refuses;
    run := Extend(run, ReadAdded([WorkItem(1, INBOX, Added)]));
    run := Extend(run, ReadCounts);
    run := Extend(run, ReadModified(INBOX, []));
  }

  /** A skip can outlast its cause: here the tuple of the mailbox is saved with the row skipped, and whatever
      the next registry holds, no pass plans the row (`PlannedAgainIff`) until that tuple changes. */
  lemma SkipOutlastsCause(disk: Disk) returns (run: seq<World>)
    ensures run != [] && ShownRun(run)
    ensures var w := Last(run);
      && w.phase.Idle? && w.store.Live(1) && FiledIn(w.store, 1, INBOX) && 1 <= w.state.watermark
      && 1 in w.skipped && w.docs == []
      && HasTuple(w.store, INBOX, ONE) && Unchanged(w.state, INBOX, ONE)
  {
    run := LateMailboxScanned(disk);
    Standstill(Last(run).store);
    assert ApplyAll([], []) == [] && Rowids([]) == {};
    hide ShownRun, RefilesShow, Lists, OutcomeOf, RegistryOf, IsTop, ApplyAll, AsMap, Rowids;
    run := Extend(run, BeginStaging);
    run := Extend(run, SkipItem);
    run := Extend(run, Commit);
    run := FinishPass(run);
  }

  const ANY_DISK := Disk(_ => Some(""), _ => Some(""), _ => None, (_, _, _) => Classified(Indexed, NoAttachments))

  function TwoBoxes(counts: Counts): map<MailboxId, Mailbox> {
    map[INBOX := Mailbox("a", counts), ARCHIVE := Mailbox("b", counts)]
  }

  function TwoUrls(): Registry {
    map[INBOX := "a", ARCHIVE := "b"]
  }

  lemma ArrivedInTime() returns (run: seq<World>)
    ensures run != [] && ShownRun(run)
    ensures Last(run).store == Store(map[1 := Row(INBOX, false, false, false)], TwoBoxes(EMPTY), 1)
    ensures Last(run).docs == [] && Last(run).state == FRESH_STATE && Last(run).skipped == {}
    ensures Last(run).phase == Loaded(Scope(TwoUrls(), ANY_DISK))
  {
    var s0 := Store(map[], TwoBoxes(EMPTY), 0);
    run := [Fresh(s0)];
    Standstill(s0);
    TwoUrlsRegistry();
    hide RegistryOf;
    run := Extend(run, LoadRegistry(Scope(TwoUrls(), ANY_DISK)));
    run := Extend(run, Mail(Arrive(1, Row(INBOX, false, false, false))));
  }

  /** A message arrives in one mailbox, is read there as new, and is refiled to the other before the tuples
      are read. */
  lemma RefiledBetweenReads() returns (run: seq<World>)
    ensures run != [] && ShownRun(run)
    ensures Last(run).store == Store(map[1 := Row(ARCHIVE, false, false, false)], TwoBoxes(ONE), 1)
    ensures Last(run).docs == [] && Last(run).state == FRESH_STATE && Last(run).skipped == {}
    ensures Last(run).phase == Collected(Scope(TwoUrls(), ANY_DISK), 1, [WorkItem(1, INBOX, Added)])
  {
    run := ArrivedInTime();
    OneNewRow(Last(run).store, INBOX);
    Standstill(Last(run).store);
    hide Lists, ShownRun, AddedItems, ModifiedItems;
    run := Extend(run, ReadMax(1));
    run := Extend(run, ReadAdded([WorkItem(1, INBOX, Added)]));
    run := Extend(run, Mail(Refile(1, ARCHIVE, TwoBoxes(ONE))));
  }

  lemma TwoUrlsRegistry()
    ensures RegistryOf(url => url, Store(map[], TwoBoxes(EMPTY), 0), TwoUrls())
  {
    assert TwoUrls()[INBOX] == "a" && TwoUrls()[ARCHIVE] == "b";
  }

  lemma OneDocument(doc: Doc)
    ensures ApplyAll([], [] + OpsOf(Upsert(doc))) == [doc] && AsMap([doc]) == map[doc.rowid := doc]
  {
    var none: seq<Op>, docs: seq<Doc> := [], [];
    UpsertOps(none, doc);
    ApplyAppend(docs, none + [DeleteTerm(doc.rowid)], AddDocument(doc));
    ApplyAppend(docs, none, DeleteTerm(doc.rowid));
    AppendFacts(docs, doc);
    assert docs + [doc] == [doc];
  }

  function TwoCounts(): SyncState {
    SyncState(1, map[INBOX := ONE, ARCHIVE := ONE])
  }

  lemma StrayCounted() returns (run: seq<World>)
    ensures run != [] && ShownRun(run)
    ensures Last(run).store == Store(map[1 := Row(ARCHIVE, false, false, false)], TwoBoxes(ONE), 1)
    ensures Last(run).docs == [] && Last(run).state == FRESH_STATE
    ensures Last(run).phase == Scanning(Scope(TwoUrls(), ANY_DISK), TwoCounts(), {INBOX, ARCHIVE}, [WorkItem(1, INBOX, Added)])
  {
    run := RefiledBetweenReads();
    var s := Last(run).store;
    Standstill(s);
    assert s.MailboxCounts() == TwoCounts().counts && TwoCounts().counts.Keys == {INBOX, ARCHIVE};
    hide ShownRun, RefilesShow;
    run := Extend(run, ReadCounts);
  }

  lemma StrayScanned() returns (run: seq<World>)
    ensures run != [] && ShownRun(run)
    ensures Last(run).store == Store(map[1 := Row(ARCHIVE, false, false, false)], TwoBoxes(ONE), 1)
    ensures Last(run).docs == []
    ensures Last(run).phase == Staging(Scope(TwoUrls(), ANY_DISK), TwoCounts(), [WorkItem(1, INBOX, Added)], [], {})
  {
    run := StrayCounted();
    OneNewRow(Last(run).store, ARCHIVE);
    Standstill(Last(run).store);
    hide ShownRun, RefilesShow, Lists, TwoBoxes, TwoUrls;
    run := Extend(run, ReadModified(INBOX, []));
    run := Extend(run, ReadModified(ARCHIVE, []));
    assert {INBOX, ARCHIVE} - {INBOX} - {ARCHIVE} == {};
    run := Extend(run, BeginStaging);
  }

  function StrayDocument(): Doc {
    Doc(1, "", "a", Classified(Indexed, NoAttachments))
  }

  lemma StrayCommitted() returns (run: seq<World>)
    ensures run != [] && ShownRun(run)
    ensures Last(run).store == Store(map[1 := Row(ARCHIVE, false, false, false)], TwoBoxes(ONE), 1)
    ensures Last(run).docs == [StrayDocument()] && Last(run).phase == Published(TwoCounts())
  {
    run := StrayScanned();
    Standstill(Last(run).store);
    assert OutcomeOf(ANY_DISK, TwoUrls(), WorkItem(1, INBOX, Added)) == Indexable(StrayDocument());
    OneDocument(StrayDocument());
    hide ShownRun, RefilesShow, ApplyAll, OpsOf, AsMap, OutcomeOf, RegistryOf, Refuses, Lists, IsTop, TwoUrls, TwoBoxes, Rowids;
    run := Extend(run, StageItem(StrayDocument()));
    run := Extend(run, Commit);
  }

  /** A stray stays stray: although every refile shows in the tuples, its document is saved under the URL of
      the mailbox it has left, together with the tuple of the one it is filed in, and no pass plans
      it (`PlannedAgainIff`) until that tuple changes again. */
  lemma StrayStaysStale() returns (run: seq<World>)
    ensures run != [] && ShownRun(run)
    ensures var w := Last(run);
      && w.phase.Idle? && w.store.boxes == TwoBoxes(ONE)
      && w.store.Live(1) && FiledIn(w.store, 1, ARCHIVE) && 1 <= w.state.watermark
      && 1 in AsMap(w.docs) && AsMap(w.docs)[1].url == "a"
      && Unchanged(w.state, ARCHIVE, ONE)
  {
    run := StrayCommitted();
    OneDocument(StrayDocument());
    hide ShownRun, AsMap;
    run := FinishPass(run);
  }
}
