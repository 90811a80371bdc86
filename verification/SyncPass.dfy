/** A pass as a whole: what it observed, what it leaves behind, and what a second pass over an
    unchanged store finds to do. */
module SyncPass {
  import opened Wrappers
  import opened MailStore
  import opened OpLog
  import opened Planner
  import opened Indexing

  predicate NormalFormsDistinct(normalize: string -> string, s: Store) {
    forall m, n :: m in s.boxes && n in s.boxes && normalize(s.boxes[m].url) == normalize(s.boxes[n].url) ==> m == n
  }

  /** With pairwise distinct normal forms nothing is lost. */
  lemma RegistryTotal(normalize: string -> string, s: Store, registry: Registry)
    requires RegistryOf(normalize, s, registry)
    ensures registry.Keys == s.boxes.Keys <==> NormalFormsDistinct(normalize, s)
  {
    if NormalFormsDistinct(normalize, s) {
      forall m | m in s.boxes ensures m in registry {
        assert Represented(normalize, registry, s.boxes[m].url);
        var n :| n in registry && normalize(registry[n]) == normalize(s.boxes[m].url);
      }
      assert s.boxes.Keys <= registry.Keys;
    }
  }

  /** What a successful pass observed: the registry, the plan, the state to save and the
      reconciler's snapshot. */
  datatype Pass = Pass(registry: Registry, items: seq<WorkItem>, next: SyncState, live: set<Rowid>)

  /** What reconciliation against a snapshot of live rows leaves. */
  function Reconciled(m: map<Rowid, Doc>, live: set<Rowid>): map<Rowid, Doc> {
    m - (m.Keys - live)
  }

  /** The published documents are the old ones with the plan's edits applied in order; what is
      left afterwards are those whose rowid was in the snapshot. */
  ghost predicate PassDone(disk: Disk, before: map<Rowid, Doc>, p: Pass, after: map<Rowid, Doc>, report: Report) {
    var t := TallyOf(disk, p.registry, p.items);
    var published := EditAll(before, t.edits);
    && after == Reconciled(published, p.live)
    && |after| <= |published|
    && report == t.report.(reconciledDeletes := |published| - |after|)
  }

  lemma AssemblePass(
      disk: Disk, before: map<Rowid, Doc>, p: Pass, published: map<Rowid, Doc>, after: map<Rowid, Doc>, report: Report, deletes: nat)
    requires published == EditAll(before, TallyOf(disk, p.registry, p.items).edits)
    requires after == Reconciled(published, p.live)
    requires deletes == |published| - |after| && report == TallyOf(disk, p.registry, p.items).report
    ensures PassDone(disk, before, p, after, report.(reconciledDeletes := deletes))
  {
  }

  /** What a pass observes of a store that holds still. */
  ghost predicate QuietPass(normalize: string -> string, s: Store, start: SyncState, p: Pass) {
    && RegistryOf(normalize, s, p.registry)
    && ItemSet(p.items) == PlanOf(s, start)
    && IsTop(s, start.watermark, p.next.watermark) && p.next.counts == s.MailboxCounts()
    && p.live == s.LiveRows()
  }

  /** The live rows a full build has to skip. */
  function Unindexable(disk: Disk, registry: Registry, s: Store): set<Rowid> {
    set r | r in s.LiveRows() && Refuses(Scope(registry, disk), s.rows[r].mailbox)
  }

  lemma FullPlan(s: Store)
    requires s.Valid()
    ensures PlanOf(s, FRESH_STATE) == AddedItems(s, 0)
  {
    assert Rescanned(s, FRESH_STATE, s.MailboxCounts(), s.boxes.Keys) == {};
  }

  lemma FullBuildRows(disk: Disk, registry: Registry, s: Store, items: seq<WorkItem>)
    requires ItemSet(items) == AddedItems(s, 0) && s.Valid()
    ensures IndexedRows(disk, registry, items) == s.LiveRows() - Unindexable(disk, registry, s)
  {
    var indexed := IndexedRows(disk, registry, items);
    forall r | r in s.LiveRows() && r !in Unindexable(disk, registry, s) ensures r in indexed {
      var i := WorkItem(r, s.rows[r].mailbox, Added);
      assert i in AddedItems(s, 0) && i in ItemSet(items);
      assert i in items && OutcomeOf(disk, registry, i).Indexable?;
    }
    forall r | r in indexed ensures r in s.LiveRows() && r !in Unindexable(disk, registry, s) {
      var j :| j in items && OutcomeOf(disk, registry, j).Indexable? && j.rowid == r;
      assert j in ItemSet(items);
    }
  }

  /** A first pass over a quiet store, from the default state and an empty index, indexes
      exactly the live rows it can resolve. */
  lemma FirstPassIndexesAll(normalize: string -> string, disk: Disk, s: Store, p: Pass, after: map<Rowid, Doc>, report: Report)
    requires s.Valid() && QuietPass(normalize, s, FRESH_STATE, p)
    requires PassDone(disk, map[], p, after, report)
    ensures after.Keys == s.LiveRows() - Unindexable(disk, p.registry, s)
    ensures report.reconciledDeletes == 0
  {
    hide RegistryOf, AddedItems, Rescanned, OutcomeOf, IndexedRows, Unindexable, TallyOf;
    FullPlan(s);
    EditedRows(disk, p.registry, p.items, map[]);
    AccountingConserved(disk, p.registry, p.items);
    FullBuildRows(disk, p.registry, s, p.items);
    WithinLive(EditAll(map[], TallyOf(disk, p.registry, p.items).edits), p.live);
  }

  /** Of all the items planned for a row the last one that can be indexed settles its document. */
  lemma {:induction false} LastItemWins(disk: Disk, registry: Registry, items: seq<WorkItem>, m: map<Rowid, Doc>, k: nat)
    requires k < |items| && !Refuses(Scope(registry, disk), items[k].mailbox)
    requires forall j :: k < j < |items| && items[j].rowid == items[k].rowid ==> Refuses(Scope(registry, disk), items[j].mailbox)
    ensures var r, all := items[k].rowid, EditAll(m, TallyOf(disk, registry, items).edits);
      r in all && Describes(disk, registry[items[k].mailbox], r, all[r])
    decreases |items|
  {
    hide Describes, Refuses;
    var n := |items| - 1;
    var front, last := items[..n], items[n];
    assert items == front + [last];
    var edits := TallyOf(disk, registry, front).edits;
    if k < n {
      LastItemWins(disk, registry, front, m, k);
    }
    match OutcomeOf(disk, registry, last)
    case Indexable(doc) =>
      assert (edits + [Upsert(doc)])[..|edits|] == edits;
      IndexableMeaning(disk, registry, last, doc);
    case _ =>
  }

  lemma {:induction false} RefusedItemsKeep(disk: Disk, registry: Registry, items: seq<WorkItem>, m: map<Rowid, Doc>, r: Rowid)
    requires forall j :: 0 <= j < |items| && items[j].rowid == r ==> Refuses(Scope(registry, disk), items[j].mailbox)
    ensures var all := EditAll(m, TallyOf(disk, registry, items).edits);
      (r in all <==> r in m) && (r in m ==> all[r] == m[r])
    decreases |items|
  {
    hide Refuses;
    if items != [] {
      var n := |items| - 1;
      var front, last := items[..n], items[n];
      assert items == front + [last];
      RefusedItemsKeep(disk, registry, front, m, r);
      var edits := TallyOf(disk, registry, front).edits;
      match OutcomeOf(disk, registry, last)
      case Indexable(doc) => assert (edits + [Upsert(doc)])[..|edits|] == edits;
      case _ =>
    }
  }

  /** The documents that any pass leaves, whatever went on meanwhile: that of a live row is filed as the last
      of its items with a mailbox that has a directory and an account says, and is the old one if no
      item has such a mailbox. */
  lemma PassDocuments(disk: Disk, before: map<Rowid, Doc>, p: Pass, after: map<Rowid, Doc>, report: Report, r: Rowid)
    requires PassDone(disk, before, p, after, report)
    ensures r in after ==> r in p.live
    ensures forall k :: 0 <= k < |p.items| && p.items[k].rowid == r && LastIndexable(disk, p, k) && r in p.live ==>
      && r in after && after[r].rowid == r
      && var url := p.registry[p.items[k].mailbox];
         && after[r].url == url && Some(after[r].account) == disk.accountOf(url)
         && after[r].classified == disk.classify(disk.dirOf(url).value, r, disk.kindOf(after[r].account))
    ensures (forall k :: 0 <= k < |p.items| && p.items[k].rowid == r ==> Refuses(Scope(p.registry, disk), p.items[k].mailbox)) ==>
      (r in after <==> r in before && r in p.live) && (r in after ==> after[r] == before[r])
  {
    hide TallyOf, EditAll;
    forall k | 0 <= k < |p.items| && p.items[k].rowid == r && LastIndexable(disk, p, k) && r in p.live
      ensures r in after && Describes(disk, p.registry[p.items[k].mailbox], r, after[r])
    {
      LastItemWins(disk, p.registry, p.items, before, k);
    }
    if forall k :: 0 <= k < |p.items| && p.items[k].rowid == r ==> Refuses(Scope(p.registry, disk), p.items[k].mailbox) {
      RefusedItemsKeep(disk, p.registry, p.items, before, r);
    }
  }

  /** No later item of the same row can be indexed. */
  predicate LastIndexable(disk: Disk, p: Pass, k: nat) {
    && k < |p.items| && !Refuses(Scope(p.registry, disk), p.items[k].mailbox)
    && forall j :: k < j < |p.items| && p.items[j].rowid == p.items[k].rowid ==> Refuses(Scope(p.registry, disk), p.items[j].mailbox)
  }

  lemma OneItemPerRow(s: Store, start: SyncState, i: WorkItem, j: WorkItem)
    requires i in PlanOf(s, start) && j in PlanOf(s, start) && i.rowid == j.rowid
    ensures i == j
  {
  }

  /** Freshness, as far as the count tuples can tell: after a pass over a quiet store, every planned row (new,
      or in a mailbox whose tuple changed) whose mailbox survives in the registry and has a directory
      and an account is filed under that mailbox's URL and account, and classified by what lies in
      that directory. */
  lemma PlannedRowsFresh(
      normalize: string -> string, disk: Disk, s: Store, start: SyncState,
      before: map<Rowid, Doc>, p: Pass, after: map<Rowid, Doc>, report: Report, i: WorkItem)
    requires s.Valid() && QuietPass(normalize, s, start, p) && PassDone(disk, before, p, after, report)
    requires i in PlanOf(s, start)
    ensures s.Live(i.rowid) && i.mailbox == s.rows[i.rowid].mailbox
    ensures i.mailbox in p.registry ==> i.mailbox in s.boxes
    ensures i.mailbox in p.registry ==>
      var r, url := i.rowid, s.boxes[i.mailbox].url;
      disk.dirOf(url).Some? && disk.accountOf(url).Some? ==>
        && r in after && after[r].rowid == r && after[r].url == url
        && after[r].account == disk.accountOf(url).value
        && after[r].classified == disk.classify(disk.dirOf(url).value, r, disk.kindOf(disk.accountOf(url).value))
  {
    PlannedRowsLive(s, start, i);
    assert i in ItemSet(p.items);
    var k := LastOf(p.items, i);
    forall j | 0 <= j < |p.items| && p.items[j].rowid == i.rowid ensures p.items[j] == i {
      assert p.items[j] in ItemSet(p.items);
      OneItemPerRow(s, start, i, p.items[j]);
    }
    hide IsTop, OutcomeOf, TallyOf, EditAll, PlanOf, ItemSet, PassDone;
    if !Refuses(Scope(p.registry, disk), i.mailbox) {
      assert LastIndexable(disk, p, k);
      PassDocuments(disk, before, p, after, report, i.rowid);
    }
  }

  lemma {:induction false} LastOf(items: seq<WorkItem>, i: WorkItem) returns (k: nat)
    requires i in items
    ensures k < |items| && items[k] == i && forall j :: k < j < |items| ==> items[j] != i
  {
    var n := |items| - 1;
    if items[n] == i {
      k := n;
    } else {
      assert items == items[..n] + [items[n]];
      k := LastOf(items[..n], i);
    }
  }

  lemma PlannedRowsLive(s: Store, start: SyncState, i: WorkItem)
    requires i in PlanOf(s, start)
    ensures i.rowid in s.LiveRows() && i.mailbox == s.rows[i.rowid].mailbox
  {
  }

  lemma NothingPlanned(s: Store, start: SyncState, top: int)
    requires s.Valid() && IsTop(s, start.watermark, top)
    ensures PlanOf(s, SyncState(top, s.MailboxCounts())) == {}
  {
    var state := SyncState(top, s.MailboxCounts());
    assert Rescanned(s, state, s.MailboxCounts(), s.boxes.Keys) == {};
  }

  lemma NoItems(items: seq<WorkItem>)
    ensures ItemSet(items) == {} ==> items == []
  {
    if items != [] {
      assert items[0] in ItemSet(items);
    }
  }

  lemma SameTop(s: Store, start: SyncState, p: Pass, p': Pass)
    requires IsTop(s, start.watermark, p.next.watermark) && p.next.counts == s.MailboxCounts()
    requires IsTop(s, p.next.watermark, p'.next.watermark) && p'.next.counts == s.MailboxCounts()
    ensures p'.next == p.next
  {
  }

  lemma WithinLive(before: map<Rowid, Doc>, live: set<Rowid>)
    ensures Reconciled(before, live).Keys <= live
    ensures before.Keys <= live ==> Reconciled(before, live) == before
  {
  }

  /** A pass is a fixed point of a quiet store: whatever it started from, what it leaves is
      within the live rows, and the next pass plans nothing, deletes nothing, and changes
      neither the documents nor the state. */
  lemma NextPassIdle(
      normalize: string -> string, disk: Disk, disk': Disk, s: Store, start: SyncState,
      before: map<Rowid, Doc>, p: Pass, after: map<Rowid, Doc>, report: Report,
      p': Pass, after': map<Rowid, Doc>, report': Report)
    requires s.Valid()
    requires QuietPass(normalize, s, start, p) && PassDone(disk, before, p, after, report)
    requires QuietPass(normalize, s, p.next, p') && PassDone(disk', after, p', after', report')
    ensures after.Keys <= s.LiveRows()
    ensures p'.items == [] && report' == EMPTY_REPORT
    ensures after' == after && p'.next == p.next
  {
    hide RegistryOf, AddedItems, Rescanned, OutcomeOf, IsTop, PlanOf;
    NothingPlanned(s, start, p.next.watermark);
    assert p.next == SyncState(p.next.watermark, s.MailboxCounts());
    NoItems(p'.items);
    SameTop(s, start, p, p');
    WithinLive(EditAll(before, TallyOf(disk, p.registry, p.items).edits), p.live);
    WithinLive(after, p'.live);
    assert EditAll(after, TallyOf(disk', p'.registry, []).edits) == after;
  }
}
