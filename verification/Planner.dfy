/** What each statement of the sync planner reads, and what the plan as a whole catches while
    Mail.app keeps writing between the statements. */
module Planner {
  import opened MailStore

  /** The watermark and each mailbox's last-seen count tuple: what one pass hands the next. */
  datatype SyncState = SyncState(watermark: int, counts: map<MailboxId, Counts>)

  /** The new watermark with some of the new tuples. */
  predicate PartOf(state: SyncState, next: SyncState) {
    && state.watermark == next.watermark
    && forall m :: m in state.counts ==> m in next.counts && state.counts[m] == next.counts[m]
  }

  /** What an interrupted save may leave: the old pair, the new watermark with the old tuples, or with some of
      the new ones. */
  predicate Torn(state: SyncState, was: SyncState, next: SyncState) {
    state == was || state == SyncState(next.watermark, was.counts) || PartOf(state, next)
  }

  const FRESH_STATE := SyncState(0, map[])

  datatype WorkKind = Added | Modified

  datatype WorkItem = WorkItem(rowid: Rowid, mailbox: MailboxId, kind: WorkKind)

  /** `SELECT COALESCE(MAX(ROWID), ?1) FROM messages`. */
  predicate IsTop(s: Store, watermark: int, top: int) {
    if s.rows == map[] then top == watermark
    else top in s.rows && forall r :: r in s.rows ==> r <= top
  }

  /** `SELECT ROWID, mailbox FROM messages WHERE ROWID > ?1 AND deleted = 0`. */
  function AddedItems(s: Store, watermark: int): set<WorkItem> {
    set r | r in s.rows && watermark < r && !s.rows[r].deleted :: WorkItem(r, s.rows[r].mailbox, Added)
  }

  /** `SELECT ROWID FROM messages WHERE mailbox = ?1 AND ROWID <= ?2 AND deleted = 0`. */
  function ModifiedItems(s: Store, m: MailboxId, watermark: int): set<WorkItem> {
    set r | r in s.rows && s.rows[r].mailbox == m && r <= watermark && !s.rows[r].deleted
      :: WorkItem(r, m, Modified)
  }

  /** Whether a mailbox's current tuple is the one remembered from the previous pass. */
  predicate Unchanged(state: SyncState, m: MailboxId, counts: Counts) {
    m in state.counts && state.counts[m] == counts
  }

  /** A result set in the order, unspecified, in which SQLite yields it. */
  ghost predicate Lists(items: seq<WorkItem>, found: set<WorkItem>) {
    && (forall i, j :: 0 <= i < j < |items| ==> items[i] != items[j])
    && (forall i :: i in items <==> i in found)
  }

  function ItemRows(items: seq<WorkItem>): set<Rowid> {
    set i | i in items :: i.rowid
  }

  lemma ItemRowsAppend(a: seq<WorkItem>, b: seq<WorkItem>)
    ensures ItemRows(a + b) == ItemRows(a) + ItemRows(b)
  {
    forall i | i in a ensures i.rowid in ItemRows(a + b) {
      assert i in a + b;
    }
    forall i | i in b ensures i.rowid in ItemRows(a + b) {
      assert i in a + b;
    }
  }

  /** Every live row in `(low, top]` is planned. */
  ghost predicate Planned(s: Store, items: seq<WorkItem>, low: int, top: int) {
    forall r :: s.Live(r) && low < r <= top ==> r in ItemRows(items)
  }

  lemma AddedItemsCatch(s: Store, items: seq<WorkItem>, low: int, top: int)
    requires Lists(items, AddedItems(s, low))
    ensures Planned(s, items, low, top)
    ensures forall r :: r in ItemRows(items) ==> r in s.rows
  {
    forall r | s.Live(r) && low < r ensures r in ItemRows(items) {
      assert WorkItem(r, s.rows[r].mailbox, Added) in AddedItems(s, low);
    }
    forall r | r in ItemRows(items) ensures r in s.rows {
      var i :| i in items && i.rowid == r;
      assert i in AddedItems(s, low);
    }
  }

  lemma ModifiedItemsExist(s: Store, items: seq<WorkItem>, m: MailboxId, low: int)
    requires Lists(items, ModifiedItems(s, m, low))
    ensures forall r :: r in ItemRows(items) ==> r in s.rows
    ensures forall r :: s.Live(r) && s.rows[r].mailbox == m && r <= low ==> r in ItemRows(items)
  {
    forall r | r in ItemRows(items) ensures r in s.rows {
      var i :| i in items && i.rowid == r;
      assert i in ModifiedItems(s, m, low);
    }
    forall r | s.Live(r) && s.rows[r].mailbox == m && r <= low ensures r in ItemRows(items) {
      assert WorkItem(r, m, Modified) in ModifiedItems(s, m, low);
    }
  }

  function ItemSet(items: seq<WorkItem>): set<WorkItem> {
    set i | i in items
  }

  lemma ItemSetAppend(a: seq<WorkItem>, b: seq<WorkItem>)
    ensures ItemSet(a + b) == ItemSet(a) + ItemSet(b)
  {
  }

  lemma ListedSet(items: seq<WorkItem>, found: set<WorkItem>)
    requires Lists(items, found)
    ensures ItemSet(items) == found
  {
  }

  /** The known live rows of those mailboxes whose tuple is not the remembered one. */
  function Rescanned(s: Store, state: SyncState, counts: map<MailboxId, Counts>, scanned: set<MailboxId>): set<WorkItem> {
    set m, i | m in scanned && m in counts && !Unchanged(state, m, counts[m]) && i in ModifiedItems(s, m, state.watermark) :: i
  }

  lemma RescanOne(s: Store, state: SyncState, counts: map<MailboxId, Counts>, scanned: set<MailboxId>, m: MailboxId)
    requires m in counts
    ensures Rescanned(s, state, counts, scanned + {m})
         == Rescanned(s, state, counts, scanned)
          + (if Unchanged(state, m, counts[m]) then {} else ModifiedItems(s, m, state.watermark))
  {
    var before, after := Rescanned(s, state, counts, scanned), Rescanned(s, state, counts, scanned + {m});
    forall i | i in after ensures i in before || (!Unchanged(state, m, counts[m]) && i in ModifiedItems(s, m, state.watermark)) {
      var n :| n in scanned + {m} && n in counts && !Unchanged(state, n, counts[n]) && i in ModifiedItems(s, n, state.watermark);
      assert n == m || n in scanned;
    }
  }

  /** The plan of a store that holds still: new live rows, and the known live rows of every
      mailbox whose tuple is not the remembered one. */
  function PlanOf(s: Store, state: SyncState): set<WorkItem> {
    AddedItems(s, state.watermark) + Rescanned(s, state, s.MailboxCounts(), s.boxes.Keys)
  }

  /** The plan for a store at rest, row by row: the live rows above the watermark as new, and those at or below it
      whose mailbox has not the tuple remembered. */
  lemma PlanMeaning(s: Store, state: SyncState, i: WorkItem)
    ensures i in PlanOf(s, state) <==>
      && i.rowid in s.rows && !s.rows[i.rowid].deleted && i.mailbox == s.rows[i.rowid].mailbox
      && if i.rowid > state.watermark then i.kind == Added
         else
           && i.kind == Modified && i.mailbox in s.boxes
           && !(i.mailbox in state.counts && state.counts[i.mailbox] == s.boxes[i.mailbox].counts)
  {
    var r, m := i.rowid, i.mailbox;
    if r in s.rows {
      assert WorkItem(r, s.rows[r].mailbox, Added) in AddedItems(s, state.watermark) <==> state.watermark < r && !s.rows[r].deleted;
      assert WorkItem(r, m, Modified) in ModifiedItems(s, m, state.watermark) <==>
             s.rows[r].mailbox == m && r <= state.watermark && !s.rows[r].deleted;
    }
    assert i in Rescanned(s, state, s.MailboxCounts(), s.boxes.Keys) <==>
           m in s.boxes && !Unchanged(state, m, s.boxes[m].counts) && i in ModifiedItems(s, m, state.watermark);
  }

  /** Losing remembered tuples, as a crash in the middle of a save does, only adds work. */
  lemma FewerCountsPlanMore(s: Store, state: SyncState, lost: set<MailboxId>)
    ensures PlanOf(s, state) <= PlanOf(s, SyncState(state.watermark, state.counts - lost))
  {
    var fewer := SyncState(state.watermark, state.counts - lost);
    forall i | i in Rescanned(s, state, s.MailboxCounts(), s.boxes.Keys)
      ensures i in Rescanned(s, fewer, s.MailboxCounts(), s.boxes.Keys)
    {
      var m :| m in s.boxes && !Unchanged(state, m, s.MailboxCounts()[m]) && i in ModifiedItems(s, m, state.watermark);
      assert !Unchanged(fewer, m, s.MailboxCounts()[m]);
    }
  }

  lemma PlannedKept(s: Store, t: Store, items: seq<WorkItem>, low: int, top: int)
    requires Evolves(s, t) && top <= s.seqno && Planned(s, items, low, top)
    ensures Planned(t, items, low, top)
  {
    forall r | t.Live(r) && low < r <= top ensures r in ItemRows(items) {
      LiveBefore(s, t, r);
    }
  }

  /** No lost insert. The maximum is read first, the rows second; between the statements and
      after them Mail.app may do anything. Whatever is still live when the plan is used, and
      lies above the old watermark and at or below the one to be saved, was planned. */
  lemma NoLostInsert(
      atMax: Store, atRows: Store, atEnd: Store, old_: int, top: int, items: seq<WorkItem>, r: Rowid)
    requires atMax.Valid() && Evolves(atMax, atRows) && Evolves(atRows, atEnd)
    requires old_ <= atMax.seqno && IsTop(atMax, old_, top)
    requires Lists(items, AddedItems(atRows, old_))
    requires atEnd.Live(r) && old_ < r <= top
    ensures r in ItemRows(items)
  {
    AddedItemsCatch(atRows, items, old_, top);
    PlannedKept(atRows, atEnd, items, old_, top);
  }

  /** The order of the two reads matters: with the rows read before the maximum, a row that
      arrives in between is below the saved watermark and was never planned. */
  lemma MaxReadLastLosesARow()
    ensures exists s: Store, t: Store, top: int, items: seq<WorkItem>, r: Rowid ::
      && s.Valid() && Evolves(s, t) && Lists(items, AddedItems(s, 0)) && IsTop(t, 0, top)
      && t.Live(r) && 0 < r <= top && r !in ItemRows(items)
  {
    var s := Store(map[], map[], 0);
    var step := Arrive(1, Row(7, false, false, false));
    var t := Do(s, step);
    StepEvolves(s, step);
    assert Lists([], AddedItems(s, 0));
    assert t.Live(1) && IsTop(t, 0, 1);
    assert 1 !in ItemRows([]);
  }
}
