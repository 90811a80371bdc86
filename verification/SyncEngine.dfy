/** One sync pass as the program runs it: statements against a store that Mail.app keeps
    changing, a Tantivy writer with a pending log, and the state tables of `meta.sqlite`.
    Any statement may fail, which abandons the pass and the writer with it. Every state the
    pass goes through is recorded in `trace`, and the trace is a run of `SyncProtocol`. */
module SyncEngine {
  import opened Wrappers
  import opened MailStore
  import opened OpLog
  import opened Planner
  import opened Indexing
  import opened SyncPass
  import opened SyncProtocol

  datatype AmxError = Failed

  method Pick<T>(s: set<T>) returns (x: T)
    requires s != {}
    ensures x in s
  {
    x :| x in s;
  }

  /** The rows of a result set, in the order SQLite happens to yield them. */
  method Enumerate<T(==)>(s: set<T>) returns (list: seq<T>)
    ensures forall k :: 0 <= k < |list| ==> list[k] in s
    ensures forall x :: x in s ==> x in list
    ensures forall i, j :: 0 <= i < j < |list| ==> list[i] != list[j]
  {
    list := [];
    var rest := s;
    while rest != {}
      invariant rest <= s
      invariant forall k :: 0 <= k < |list| ==> list[k] in s && list[k] !in rest
      invariant forall x :: x in s ==> x in rest || x in list
      invariant forall i, j :: 0 <= i < j < |list| ==> list[i] != list[j]
      decreases rest
    {
      var x :| x in rest;
      list, rest := list + [x], rest - {x};
    }
  }

  method BuildRegistry(normalize: string -> string, s: Store) returns (registry: Registry)
    ensures RegistryOf(normalize, s, registry)
  {
    var rows := Enumerate(s.boxes.Keys);
    var byUrl: map<string, MailboxId> := map[];
    for k := 0 to |rows|
      invariant forall u :: u in byUrl ==> byUrl[u] in s.boxes && normalize(s.boxes[byUrl[u]].url) == u
      invariant forall j :: 0 <= j < k ==> normalize(s.boxes[rows[j]].url) in byUrl
    {
      byUrl := byUrl[normalize(s.boxes[rows[k]].url) := rows[k]];
    }
    registry := map m | m in byUrl.Values :: s.boxes[m].url;
    forall m | m in s.boxes ensures Represented(normalize, registry, s.boxes[m].url) {
      assert m in rows;
      var u := normalize(s.boxes[m].url);
      assert u in byUrl;
      var n := byUrl[u];
      assert n in byUrl.Values;
      assert n in registry && normalize(registry[n]) == u;
    }
  }

  method FindTop(s: Store, watermark: int) returns (top: int)
    ensures IsTop(s, watermark, top)
  {
    var rows := Enumerate(s.rows.Keys);
    top := watermark;
    for k := 0 to |rows|
      invariant k == 0 ==> top == watermark
      invariant k > 0 ==> top in s.rows && forall j :: 0 <= j < k ==> rows[j] <= top
    {
      if k == 0 || top < rows[k] {
        top := rows[k];
      }
    }
    forall r | r in s.rows ensures r <= top {
      assert r in rows;
    }
  }

  method ListAdded(s: Store, watermark: int) returns (items: seq<WorkItem>)
    ensures Lists(items, AddedItems(s, watermark))
  {
    var hits := set x | x in s.rows && watermark < x && !s.rows[x].deleted;
    var rows := Enumerate(hits);
    items := [];
    for k := 0 to |rows|
      invariant |items| == k
      invariant forall j :: 0 <= j < k ==> rows[j] in hits && items[j] == WorkItem(rows[j], s.rows[rows[j]].mailbox, Added)
    {
      items := items + [WorkItem(rows[k], s.rows[rows[k]].mailbox, Added)];
    }
    forall i | i in AddedItems(s, watermark) ensures i in items {
      assert i.rowid in rows;
      var k :| 0 <= k < |rows| && rows[k] == i.rowid;
      assert items[k] == i;
    }
  }

  method ListModified(s: Store, m: MailboxId, watermark: int) returns (items: seq<WorkItem>)
    ensures Lists(items, ModifiedItems(s, m, watermark))
  {
    var hits := set x | x in s.rows && s.rows[x].mailbox == m && x <= watermark && !s.rows[x].deleted;
    var rows := Enumerate(hits);
    items := [];
    for k := 0 to |rows|
      invariant |items| == k
      invariant forall j :: 0 <= j < k ==> rows[j] in hits && items[j] == WorkItem(rows[j], m, Modified)
    {
      items := items + [WorkItem(rows[k], m, Modified)];
    }
    forall i | i in ModifiedItems(s, m, watermark) ensures i in items {
      assert i.rowid in rows;
      var k :| 0 <= k < |rows| && rows[k] == i.rowid;
      assert items[k] == i;
    }
  }

  method ListCounts(s: Store) returns (counts: map<MailboxId, Counts>)
    ensures counts == s.MailboxCounts()
  {
    counts := map[];
    var todo := s.boxes.Keys;
    while todo != {}
      invariant todo <= s.boxes.Keys
      invariant counts.Keys == s.boxes.Keys - todo
      invariant forall m :: m in counts ==> counts[m] == s.boxes[m].counts
      decreases todo
    {
      var m := Pick(todo);
      counts := counts[m := s.boxes[m].counts];
      todo := todo - {m};
    }
    assert counts.Keys == s.MailboxCounts().Keys;
    assert forall m :: m in counts ==> counts[m] == s.MailboxCounts()[m];
  }

  ghost predicate DirsHold(disk: Disk, registry: Registry, dirs: map<MailboxId, string>) {
    forall m :: m in dirs ==> m in registry && disk.dirOf(registry[m]) == Some(dirs[m])
  }

  ghost predicate KindsHold(disk: Disk, kinds: map<string, Option<AccountKind>>) {
    forall a :: a in kinds ==> kinds[a] == disk.kindOf(a)
  }

  method LookupDir(disk: Disk, registry: Registry, dirs: map<MailboxId, string>, m: MailboxId)
    returns (dir: Option<string>, dirs': map<MailboxId, string>)
    requires m in registry && DirsHold(disk, registry, dirs)
    ensures dir == disk.dirOf(registry[m])
    ensures DirsHold(disk, registry, dirs')
  {
    if m in dirs {
      return Some(dirs[m]), dirs;
    }
    dir := disk.dirOf(registry[m]);
    dirs' := if dir.Some? then dirs[m := dir.value] else dirs;
  }

  /** The mailbox directory and the account, if both can be told from the mailbox's URL. */
  method Locate(disk: Disk, registry: Registry, dirs: map<MailboxId, string>, m: MailboxId)
    returns (found: Option<(string, string)>, dirs': map<MailboxId, string>)
    requires m in registry && DirsHold(disk, registry, dirs)
    ensures var url := registry[m];
      found == if disk.dirOf(url).None? || disk.accountOf(url).None? then None
               else Some((disk.dirOf(url).value, disk.accountOf(url).value))
    ensures DirsHold(disk, registry, dirs')
  {
    var dir;
    dir, dirs' := LookupDir(disk, registry, dirs, m);
    var account := disk.accountOf(registry[m]);
    found := if dir.None? || account.None? then None else Some((dir.value, account.value));
  }

  method LookupKind(disk: Disk, kinds: map<string, Option<AccountKind>>, account: string)
    returns (kind: Option<AccountKind>, kinds': map<string, Option<AccountKind>>)
    requires KindsHold(disk, kinds)
    ensures kind == disk.kindOf(account)
    ensures KindsHold(disk, kinds')
  {
    if account in kinds {
      return kinds[account], kinds;
    }
    kind := disk.kindOf(account);
    kinds' := kinds[account := kind];
  }

  ghost predicate Went(trace: seq<World>, from: nat, phase: Phase) {
    exists k :: from <= k < |trace| && trace[k].phase == phase
  }

  ghost predicate LoadedIn(trace: seq<World>, from: nat, scope: Scope) {
    exists k :: from <= k < |trace| && trace[k].phase == Loaded(scope) && LoadedAt(trace, k)
  }

  lemma WentStays(t: seq<World>, t': seq<World>, from: nat, phase: Phase)
    requires Went(t, from, phase) && t <= t'
    ensures Went(t', from, phase)
  {
    var k :| from <= k < |t| && t[k].phase == phase;
    assert t'[k].phase == phase;
  }

  lemma WentEarlier(t: seq<World>, from: nat, from': nat, phase: Phase)
    requires Went(t, from, phase) && from' <= from
    ensures Went(t, from', phase)
  {
  }

  lemma LoadedStays(t: seq<World>, t': seq<World>, from: nat, scope: Scope)
    requires LoadedIn(t, from, scope) && t <= t'
    ensures LoadedIn(t', from, scope)
  {
    var k :| from <= k < |t| && t[k].phase == Loaded(scope) && LoadedAt(t, k);
    assert t'[k] == t[k];
    assert LoadedAt(t', k);
  }

  /** The modified items of one mailbox are those of one instant since `from`. */
  ghost predicate ScannedOnce(trace: seq<World>, from: nat, watermark: int, m: MailboxId, items: seq<WorkItem>) {
    exists k :: from <= k < |trace| && FoundIn(trace[k].store, watermark, m, items)
  }

  ghost predicate FoundIn(s: Store, watermark: int, m: MailboxId, items: seq<WorkItem>) {
    forall i :: i in items && i.kind == Modified && i.mailbox == m <==> i in ModifiedItems(s, m, watermark)
  }

  /** What has been found of the mailboxes in `done`: of each one whose tuple changed, all its
      known live rows at some one instant; of the others nothing. */
  ghost predicate Rescans(trace: seq<World>, from: nat, start: SyncState, counts: map<MailboxId, Counts>, done: set<MailboxId>, items: seq<WorkItem>) {
    && (forall i :: i in items && i.kind == Modified ==> i.mailbox in done)
    && (forall m :: m in done && m in counts ==>
          if Unchanged(start, m, counts[m]) then forall i :: i in items ==> !(i.kind == Modified && i.mailbox == m)
          else ScannedOnce(trace, from, start.watermark, m, items))
  }

  lemma RescansMore(
      t: seq<World>, t': seq<World>, from: nat, start: SyncState, counts: map<MailboxId, Counts>, done: set<MailboxId>,
      items: seq<WorkItem>, m: MailboxId, rows: seq<WorkItem>)
    requires Rescans(t, from, start, counts, done, items) && t <= t' && from < |t'| && m !in done
    requires m in counts && !Unchanged(start, m, counts[m])
    requires Lists(rows, ModifiedItems(t'[|t'| - 1].store, m, start.watermark))
    ensures Rescans(t', from, start, counts, done + {m}, items + rows)
  {
    assert FoundIn(t'[|t'| - 1].store, start.watermark, m, items + rows);
    forall n | n in done && n in counts && !Unchanged(start, n, counts[n])
      ensures ScannedOnce(t', from, start.watermark, n, items + rows)
    {
      var k :| from <= k < |t| && FoundIn(t[k].store, start.watermark, n, items);
      assert FoundIn(t'[k].store, start.watermark, n, items + rows);
    }
  }

  lemma RescansLess(
      t: seq<World>, t': seq<World>, from: nat, start: SyncState, counts: map<MailboxId, Counts>, done: set<MailboxId>,
      items: seq<WorkItem>, m: MailboxId)
    requires Rescans(t, from, start, counts, done, items) && t <= t' && m !in done
    requires m in counts && Unchanged(start, m, counts[m])
    ensures Rescans(t', from, start, counts, done + {m}, items)
  {
    forall n | n in done && n in counts && !Unchanged(start, n, counts[n])
      ensures ScannedOnce(t', from, start.watermark, n, items)
    {
      var k :| from <= k < |t| && FoundIn(t[k].store, start.watermark, n, items);
      assert FoundIn(t'[k].store, start.watermark, n, items);
    }
  }

  lemma RescansNone(t: seq<World>, from: nat, start: SyncState, counts: map<MailboxId, Counts>, items: seq<WorkItem>)
    requires forall i :: i in items ==> i.kind == Added
    ensures Rescans(t, from, start, counts, {}, items)
  {
  }

  lemma RescannedNone(s: Store, start: SyncState, counts: map<MailboxId, Counts>)
    ensures Rescanned(s, start, counts, {}) == {}
  {
  }

  lemma RescanTurn(
      s: Store, start: SyncState, counts: map<MailboxId, Counts>, done: set<MailboxId>, m: MailboxId,
      added: set<WorkItem>, had: set<WorkItem>)
    requires m in counts && had == added + Rescanned(s, start, counts, done)
    ensures had + (if Unchanged(start, m, counts[m]) then {} else ModifiedItems(s, m, start.watermark))
         == added + Rescanned(s, start, counts, done + {m})
  {
    hide Rescanned, ModifiedItems, Unchanged;
    RescanOne(s, start, counts, done, m);
  }

  /** The writer of the mutation tools has been open since this instant, over an index and a saved state that
      have not changed since. */
  ghost predicate OpenSince(t: seq<World>, from: nat) {
    && from < |t| && t[from].phase == Mutating([])
    && forall k :: from <= k < |t| ==> t[k].phase.Mutating? && t[k].docs == t[from].docs && t[k].state == t[from].state
  }

  lemma OpenStill(t: seq<World>, w: World, from: nat)
    requires OpenSince(t, from) && w.phase.Mutating? && w.docs == t[|t| - 1].docs && w.state == t[|t| - 1].state
    ensures OpenSince(t + [w], from)
  {
  }

  /** The writer opened at this instant was in use until the last step, which closed it. */
  ghost predicate OneWriter(t: seq<World>, from: nat) {
    && t != [] && OpenSince(t[..|t| - 1], from)
    && t[|t| - 1].phase.Idle? && t[|t| - 1].state == t[from].state
  }

  lemma WriterCloses(t: seq<World>, w: World, from: nat)
    requires OpenSince(t, from) && w.phase.Idle? && w.state == t[|t| - 1].state
    ensures OneWriter(t + [w], from) && from < |t| && (t + [w])[from].docs == t[|t| - 1].docs
  {
    assert (t + [w])[..|t + [w]| - 1] == t;
  }

  ghost predicate IdleWithin(t: seq<World>, from: nat, to: nat) {
    to <= |t| && forall k :: from <= k < to ==> t[k].phase.Idle?
  }

  /** What Mail.app is asked to do with a message: to mark it, to file it in a mailbox, or, without one, to
      throw it away; and at which instant of the trace it was asked. */
  datatype Command =
    | MarkRead(message: Doc, read: bool)
    | MarkFlagged(message: Doc, flagged: bool)
    | Relocate(message: Doc, destination: Option<string>)

  datatype Asked = Asked(at: nat, command: Command)

  class Host {
    var store: Store
    var docs: seq<Doc>
    var log: seq<Op>
    /** Whether the writer has died of a failed `add_document`; a dead writer cannot commit. */
    var dead: bool
    var state: SyncState
    /** The quarantine table: a row's multiplicity is its `attempts` column. */
    var quarantine: multiset<Rowid>
    /** Whether no statement ever fails. */
    const reliable: bool
    /** Whether Mail.app is not running, and whether no other process works on the index. */
    ghost const quiet: bool
    ghost const alone: bool
    /** The normal form of a mailbox URL. */
    const normalize: string -> string
    ghost var skipped: set<Rowid>
    ghost var phase: Phase
    ghost var trace: seq<World>
    /** The instant at which the writer of the mutation tools was opened last. */
    ghost var session: nat
    /** What this program has asked of Mail.app. */
    ghost var asked: seq<Asked>

    /** A fresh installation: no index, no saved state. */
    constructor (normalize: string -> string, store: Store, reliable: bool, ghost quiet: bool, ghost alone: bool)
      requires store.Valid()
      ensures Valid() && phase.Idle? && trace == [Now()]
      ensures this.normalize == normalize && this.store == store
      ensures this.reliable == reliable && this.quiet == quiet && this.alone == alone
    {
      this.normalize, this.store, this.reliable, this.quiet, this.alone := normalize, store, reliable, quiet, alone;
      docs, log, dead, state, quarantine := [], [], false, FRESH_STATE, multiset{};
      skipped, phase, session, asked := {}, Idle, 0, [];
      trace := [World(normalize, store, [], FRESH_STATE, {}, Idle)];
      new;
      InitInv(trace[0]);
    }

    ghost function Now(): World
      reads this
    {
      World(normalize, store, docs, state, skipped, phase)
    }

    /** The writer's log is what the protocol says is pending. */
    ghost predicate Coupled()
      reads this
    {
      match phase
      case Staging(_, _, _, pending, _) => log == pending
      case Mutating(pending) => dead || log == pending
      case Purging(_, doomed) => log == Deletes(doomed)
      case _ => log == []
    }

    ghost predicate Valid()
      reads this
    {
      && trace != [] && IsRun(trace) && Init(trace[0]) && Inv(trace[0])
      && trace[|trace| - 1] == Now()
      && Coupled()
      && (phase.Mutating? ==> OpenSince(trace, session))
    }

    lemma NowInv()
      requires Valid()
      ensures Inv(Now())
    {
      RunKeepsInv(trace, |trace| - 1);
    }

    lemma StoreValid()
      requires Valid()
      ensures store.Valid() && Unique(docs) && Evolves(store, store)
    {
      NowInv();
    }

    /** Whatever the program did, and wherever it was interrupted, every state on the way was
        complete, and nothing had been skipped without cause. */
    lemma EveryStateComplete(i: nat)
      requires Valid() && i < |trace|
      ensures Complete(trace[i]) && Unique(trace[i].docs)
      ensures forall r :: r in trace[i].skipped ==> CausedBy(trace, i, r)
    {
      RunKeepsInv(trace, i);
      forall r | r in trace[i].skipped ensures CausedBy(trace, i, r) {
        SkippedForCause(trace, i, r);
      }
    }

    lemma PlannedNow()
      requires Valid() && phase.Scanning?
      ensures Planned(store, phase.items, state.watermark, phase.next.watermark)
    {
      NowInv();
    }

    /** Progress of a pass between two of its points: the trace grows, the store evolves. */
    twostate predicate Proceeded()
      reads this
    {
      && Valid()
      && old(trace) <= trace
      && Evolves(old(store), store)
      && (forall s :: Evolves(s, old(store)) ==> Evolves(s, store))
      && (quiet ==> store == old(store))
    }

    /** Progress while only Mail.app acts. */
    twostate predicate Watched()
      reads this
    {
      && Proceeded()
      && forall k: nat :: |old(trace)| <= k + 1 && k < |trace| ==> trace[k].phase == phase
    }

    ghost method Record(step: Step)
      requires IsRun(trace) && Init(trace[0]) && Inv(trace[0])
      requires Enabled(trace[|trace| - 1], step) && Now() == Act(trace[|trace| - 1], step)
      requires Coupled() && (phase.Mutating? ==> OpenSince(trace + [Now()], session))
      modifies `trace
      ensures Valid() && trace == old(trace) + [Now()]
    {
      hide Init, Inv, Enabled, Act, OpenSince;
      var last := trace[|trace| - 1];
      assert Next(last, Now());
      var was := trace;
      trace := trace + [Now()];
      forall i | 0 <= i < |trace| - 1 ensures Next(trace[i], trace[i + 1]) {
        if i < |was| - 1 {
          assert Next(was[i], was[i + 1]);
        }
      }
    }

    /** Mail.app acts, any number of times. Callers know nothing but that the store evolved. */
    method Interfere()
      requires Valid()
      modifies `store, `trace
      ensures Watched()
    {
      StoreValid();
    }

    /** A statement failed: the pass is over and the uncommitted writer is dropped. */
    method Abandon()
      requires IsRun(trace) && Init(trace[0]) && Inv(trace[0]) && trace[|trace| - 1] == Now()
      modifies `phase, `log, `trace
      ensures Valid() && phase.Idle? && trace == old(trace) + [Now()]
    {
      phase, log := Idle, [];
      Record(Crash);
    }

    /** Whether a call outside the program succeeds. */
    method Works() returns (ok: bool)
      ensures reliable ==> ok
    {
      ok := *;
      ok := ok || reliable;
    }

    /** Whether the next statement succeeds; if not, the pass is over. */
    method Statement() returns (ok: bool)
      requires Valid()
      modifies `store, `trace, `phase, `log
      ensures Proceeded()
      ensures ok ==> phase == old(phase) && log == old(log)
      ensures !ok ==> !reliable && phase.Idle?
    {
      Interfere();
      ok := Works();
      if !ok {
        Abandon();
      }
    }

    // ----- planning -----

    /** Loads `mailboxes` keyed by normalized URL, then re-keys it by rowid. */
    method LoadMailboxes(ghost disk: Disk) returns (r: Result<Registry, AmxError>)
      requires Valid() && phase.Idle?
      modifies `store, `trace, `phase, `log
      ensures Proceeded()
      ensures r.Ok? ==> phase == Loaded(Scope(r.value, disk)) && RegistryOf(normalize, store, r.value)
      ensures r.Err? ==> !reliable && phase.Idle?
    {
      var ok := Statement();
      if !ok { return Err(Failed); }
      var registry := BuildRegistry(normalize, store);
      phase := Loaded(Scope(registry, disk));
      Record(LoadRegistry(Scope(registry, disk)));
      r := Ok(registry);
    }

    method SelectMax(watermark: int) returns (r: Result<int, AmxError>)
      requires Valid() && phase.Loaded? && watermark == state.watermark
      modifies `store, `trace, `phase, `log
      ensures Proceeded()
      ensures r.Ok? ==> phase == Maxed(old(phase).scope, r.value) && IsTop(store, watermark, r.value)
      ensures r.Err? ==> !reliable && phase.Idle?
    {
      var ok := Statement();
      if !ok { return Err(Failed); }
      var top := FindTop(store, watermark);
      phase := Maxed(phase.scope, top);
      Record(ReadMax(top));
      r := Ok(top);
    }

    method CollectAdded(watermark: int) returns (r: Result<seq<WorkItem>, AmxError>)
      requires Valid() && phase.Maxed? && watermark == state.watermark
      modifies `store, `trace, `phase, `log
      ensures Proceeded()
      ensures r.Ok? ==> phase == Collected(old(phase).scope, old(phase).top, r.value)
      ensures r.Ok? ==> Lists(r.value, AddedItems(store, watermark))
      ensures r.Err? ==> !reliable && phase.Idle?
    {
      var ok := Statement();
      if !ok { return Err(Failed); }
      var items := ListAdded(store, watermark);
      phase := Collected(phase.scope, phase.top, items);
      Record(ReadAdded(items));
      r := Ok(items);
    }

    method LoadMailboxCounts() returns (r: Result<map<MailboxId, Counts>, AmxError>)
      requires Valid() && phase.Collected?
      modifies `store, `trace, `phase, `log
      ensures Proceeded()
      ensures r.Ok? ==> r.value == store.MailboxCounts()
      ensures r.Ok? ==> phase == Scanning(old(phase).scope, SyncState(old(phase).top, r.value), r.value.Keys, old(phase).items)
      ensures r.Err? ==> !reliable && phase.Idle?
    {
      var ok := Statement();
      if !ok { return Err(Failed); }
      var counts := ListCounts(store);
      phase := Scanning(phase.scope, SyncState(phase.top, counts), counts.Keys, phase.items);
      Record(ReadCounts);
      r := Ok(counts);
    }

    method SelectModified(m: MailboxId, watermark: int) returns (r: Result<seq<WorkItem>, AmxError>)
      requires Valid() && phase.Scanning? && watermark == state.watermark
      requires m in phase.mailboxes && m in phase.next.counts && !Unchanged(state, m, phase.next.counts[m])
      modifies `store, `trace, `phase, `log
      ensures Proceeded()
      ensures r.Ok? ==> Lists(r.value, ModifiedItems(store, m, watermark))
      ensures r.Ok? ==> phase == Scanning(old(phase).scope, old(phase).next, old(phase).mailboxes - {m}, old(phase).items + r.value)
      ensures r.Err? ==> !reliable && phase.Idle?
    {
      var ok := Statement();
      if !ok { return Err(Failed); }
      var items := ListModified(store, m, watermark);
      phase := Scanning(phase.scope, phase.next, phase.mailboxes - {m}, phase.items + items);
      Record(ReadModified(m, items));
      r := Ok(items);
    }

    /** One mailbox's turn: passed over if its tuple is the remembered one, otherwise listed. */
    method RescanMailbox(
        start: SyncState, counts: map<MailboxId, Counts>, m: MailboxId, items: seq<WorkItem>, ghost from: nat, ghost done: set<MailboxId>)
      returns (r: Result<seq<WorkItem>, AmxError>)
      requires Valid() && start == state && from < |trace|
      requires phase.Scanning? && phase.items == items && phase.next.counts == counts
      requires m in phase.mailboxes && m in counts && m !in done
      requires Rescans(trace, from, start, counts, done, items)
      modifies `store, `trace, `phase, `log
      ensures Proceeded()
      ensures r.Ok? ==> phase == Scanning(old(phase).scope, old(phase).next, old(phase).mailboxes - {m}, r.value)
      ensures r.Ok? ==> items <= r.value && Rescans(trace, from, start, counts, done + {m}, r.value)
      ensures r.Ok? ==> ItemSet(r.value) == ItemSet(items) + if Unchanged(start, m, counts[m]) then {} else ModifiedItems(store, m, start.watermark)
      ensures r.Err? ==> !reliable && phase.Idle?
    {
      hide IsRun, Init, Inv, OpenSince, Evolves, Rescans, ItemSet, ModifiedItems;
      StoreValid();
      if m in start.counts && start.counts[m] == counts[m] {
        phase := Scanning(phase.scope, phase.next, phase.mailboxes - {m}, items);
        Record(PassMailbox(m));
        RescansLess(old(trace), trace, from, start, counts, done, items, m);
        return Ok(items);
      }
      var rows :- SelectModified(m, start.watermark);
      ListedSet(rows, ModifiedItems(store, m, start.watermark));
      ItemSetAppend(items, rows);
      RescansMore(old(trace), trace, from, start, counts, done, items, m, rows);
      r := Ok(items + rows);
    }

    /** Mailbox by mailbox, with Mail.app acting in between. */
    method CollectModified(start: SyncState, counts: map<MailboxId, Counts>, added: seq<WorkItem>)
      returns (r: Result<seq<WorkItem>, AmxError>)
      requires Valid() && start == state
      requires phase.Scanning? && phase.items == added && phase.mailboxes == counts.Keys && phase.next.counts == counts
      requires forall i :: i in added ==> i.kind == Added
      modifies `store, `trace, `phase, `log
      ensures Proceeded()
      ensures r.Ok? ==> phase == Scanning(old(phase).scope, old(phase).next, {}, r.value)
      ensures r.Ok? ==> added <= r.value && Rescans(trace, |old(trace)| - 1, start, counts, counts.Keys, r.value)
      ensures r.Ok? && quiet ==> ItemSet(r.value) == ItemSet(added) + Rescanned(store, start, counts, counts.Keys)
      ensures r.Err? ==> !reliable && phase.Idle?
    {
      ghost var from: nat := |trace| - 1;
      hide IsRun, Init, Inv, OpenSince, Evolves, Rescans, ItemSet, Rescanned, ModifiedItems, Unchanged, ApplyAll, Lists;
      RescansNone(trace, from, start, counts, added);
      RescannedNone(store, start, counts);
      StoreValid();
      var items := added;
      var todo := counts.Keys;
      while todo != {}
        invariant Proceeded() && todo <= counts.Keys
        invariant phase == Scanning(old(phase).scope, old(phase).next, todo, items)
        invariant added <= items && Rescans(trace, from, start, counts, counts.Keys - todo, items)
        invariant quiet ==> ItemSet(items) == ItemSet(added) + Rescanned(store, start, counts, counts.Keys - todo)
        decreases todo
      {
        var m := Pick(todo);
        ghost var done, had := counts.Keys - todo, ItemSet(items);
        items :- RescanMailbox(start, counts, m, items, from, done);
        if quiet {
          RescanTurn(store, start, counts, done, m, ItemSet(added), had);
        }
        todo := todo - {m};
        assert counts.Keys - todo == done + {m};
      }
      assert counts.Keys - {} == counts.Keys;
      r := Ok(items);
    }

    /** `SyncPlanner::plan`. Whatever Mail.app did meanwhile, no live row between the old and
        the new watermark is missing from the plan. */
    method Plan(start: SyncState) returns (r: Result<(seq<WorkItem>, SyncState), AmxError>)
      requires Valid() && phase.Loaded? && start == state
      modifies `store, `trace, `phase, `log
      ensures Proceeded()
      ensures r.Err? ==> !reliable && phase.Idle?
      ensures r.Ok? ==> phase == Scanning(old(phase).scope, r.value.1, {}, r.value.0)
      ensures r.Ok? ==> Planned(store, r.value.0, start.watermark, r.value.1.watermark)
      ensures r.Ok? && quiet ==> ItemSet(r.value.0) == PlanOf(store, start)
      ensures r.Ok? && quiet ==> IsTop(store, start.watermark, r.value.1.watermark) && r.value.1.counts == store.MailboxCounts()
    {
      hide IsRun, Init, Inv, OpenSince, Evolves;
      var top :- SelectMax(start.watermark);
      var added :- CollectAdded(start.watermark);
      ListedSet(added, AddedItems(store, start.watermark));
      var counts :- LoadMailboxCounts();
      var items :- CollectModified(start, counts, added);
      PlannedNow();
      r := Ok((items, SyncState(top, counts)));
    }

    // ----- staging -----

    /** `index_one`, with its two caches. `t` and `base` are the tally so far and the quarantine
        table at the start of the pass. */
    method IndexOne(
        item: WorkItem, registry: Registry, disk: Disk,
        dirs: map<MailboxId, string>, kinds: map<string, Option<AccountKind>>, report: Report,
        ghost t: Tally, ghost base: multiset<Rowid>)
      returns (r: Result<Report, AmxError>, dirs': map<MailboxId, string>, kinds': map<string, Option<AccountKind>>)
      requires Valid() && phase.Staging? && phase.items != [] && phase.items[0] == item
      requires phase.scope == Scope(registry, disk) && DirsHold(disk, registry, dirs) && KindsHold(disk, kinds)
      requires Tallied(t, base, report)
      modifies `store, `trace, `phase, `log, `quarantine
      ensures Proceeded()
      ensures r.Err? ==> !reliable && phase.Idle?
      ensures r.Ok? ==> phase.Staging? && phase == Staging(old(phase).scope, old(phase).next, old(phase).items[1..], log, phase.skips)
      ensures r.Ok? ==> Tallied(TallyOne(disk, registry, t, item), base, r.value)
      ensures DirsHold(disk, registry, dirs') && KindsHold(disk, kinds')
    {
      hide IsRun, Init, Inv, OpenSince, Evolves, DirsHold, KindsHold;
      StoreValid();
      dirs', kinds' := dirs, kinds;
      if item.mailbox !in registry {
        Skip(item);
        return Ok(report), dirs', kinds';
      }
      var found;
      found, dirs' := Locate(disk, registry, dirs, item.mailbox);
      if found.None? {
        var recorded := Statement();
        if !recorded { return Err(Failed), dirs', kinds'; }
        var report' := SkipUnresolvable(item, report, t, base);
        return Ok(report'), dirs', kinds';
      }
      var ok := Statement();
      if !ok { return Err(Failed), dirs', kinds'; }
      var kind;
      kind, kinds' := LookupKind(disk, kinds, found.value.1);
      var doc := Doc(item.rowid, found.value.1, registry[item.mailbox], disk.classify(found.value.0, item.rowid, kind));
      var report' := IndexDocument(item, doc, report, t, base);
      r := Ok(report');
    }

    /** `quarantine_unresolvable`. */
    method SkipUnresolvable(item: WorkItem, report: Report, ghost t: Tally, ghost base: multiset<Rowid>)
      returns (report': Report)
      requires Valid() && phase.Staging? && phase.items != [] && phase.items[0] == item
      requires Refuses(phase.scope, item.mailbox)
      requires Tallied(t, base, report)
      modifies `trace, `phase, `quarantine
      ensures Valid() && old(trace) <= trace && phase.Staging?
      ensures phase == Staging(old(phase).scope, old(phase).next, old(phase).items[1..], log, phase.skips)
      ensures Tallied(TallyUnresolvable(t, item), base, report')
    {
      hide IsRun, Init, Inv, OpenSince;
      quarantine := quarantine + multiset{item.rowid};
      Skip(item);
      report' := report.(quarantined := report.quarantined + 1);
    }

    method IndexDocument(item: WorkItem, doc: Doc, report: Report, ghost t: Tally, ghost base: multiset<Rowid>)
      returns (report': Report)
      requires Valid() && phase.Staging? && phase.items != [] && phase.items[0] == item
      requires OutcomeOf(phase.scope.disk, phase.scope.registry, item) == Indexable(doc)
      requires Tallied(t, base, report)
      modifies `trace, `phase, `log, `quarantine
      ensures Valid() && old(trace) <= trace
      ensures phase == Staging(old(phase).scope, old(phase).next, old(phase).items[1..], log, old(phase).skips)
      ensures Tallied(TallyDoc(t, item, doc), base, report')
    {
      hide IsRun, Init, Inv, OpenSince, Evolves, OutcomeOf, LogOf, OpsOf;
      report' := report;
      if doc.classified.body == BodyState.Quarantined {
        quarantine := quarantine + multiset{item.rowid};
        report' := report'.(quarantined := report'.quarantined + 1);
      }
      StageUpsert(doc);
      LogAppend(t.edits, Upsert(doc));
      if item.kind == Added {
        report' := report'.(added := report'.added + 1);
      } else {
        report' := report'.(modified := report'.modified + 1);
      }
    }

    ghost predicate Tallied(t: Tally, base: multiset<Rowid>, report: Report)
      reads this
    {
      && phase.Staging? && phase.skips == t.skips
      && log == LogOf(t.edits)
      && quarantine == base + t.attempts
      && report == t.report
    }

    method Skip(item: WorkItem)
      requires Valid() && phase.Staging? && phase.items != [] && phase.items[0] == item
      requires Refuses(phase.scope, item.mailbox)
      modifies `trace, `phase
      ensures Valid() && old(trace) <= trace
      ensures phase == Staging(old(phase).scope, old(phase).next, old(phase).items[1..], log, old(phase).skips + {item.rowid})
    {
      phase := Staging(phase.scope, phase.next, phase.items[1..], log, phase.skips + {item.rowid});
      Record(SkipItem);
    }

    method StageUpsert(doc: Doc)
      requires Valid() && phase.Staging? && phase.items != []
      requires OutcomeOf(phase.scope.disk, phase.scope.registry, phase.items[0]) == Indexable(doc)
      modifies `trace, `phase, `log
      ensures Valid() && old(trace) <= trace
      ensures log == old(log) + OpsOf(Upsert(doc))
      ensures phase == Staging(old(phase).scope, old(phase).next, old(phase).items[1..], log, old(phase).skips)
    {
      log := log + [DeleteTerm(doc.rowid)];
      log := log + [AddDocument(doc)];
      assert log == old(log) + OpsOf(Upsert(doc));
      phase := Staging(phase.scope, phase.next, phase.items[1..], log, phase.skips);
      Record(StageItem(doc));
    }

    method OpenIndexWriter()
      requires Valid() && phase.Scanning? && phase.mailboxes == {}
      modifies `trace, `phase
      ensures Valid() && old(trace) <= trace && log == []
      ensures phase == Staging(old(phase).scope, old(phase).next, old(phase).items, [], {})
    {
      phase := Staging(phase.scope, phase.next, phase.items, [], {});
      Record(BeginStaging);
    }

    /** The loop over the plan. */
    method StageItems(disk: Disk, registry: Registry, items: seq<WorkItem>)
      returns (r: Result<Report, AmxError>)
      requires Valid() && phase.Staging? && phase == Staging(Scope(registry, disk), phase.next, items, [], {})
      modifies `store, `trace, `phase, `log, `quarantine
      ensures Proceeded()
      ensures r.Err? ==> !reliable && phase.Idle?
      ensures r.Ok? ==> phase.Staging? && phase.next == old(phase).next && phase.items == []
      ensures r.Ok? ==> Tallied(TallyOf(disk, registry, items), old(quarantine), r.value)
    {
      hide IsRun, Init, Inv, OpenSince, Evolves;
      StoreValid();
      var report := EMPTY_REPORT;
      var dirs: map<MailboxId, string> := map[];
      var kinds: map<string, Option<AccountKind>> := map[];
      assert items[..0] == [] && items[0..] == items;
      var k := 0;
      while k < |items|
        invariant 0 <= k <= |items|
        invariant Proceeded() && phase.Staging?
        invariant phase == Staging(Scope(registry, disk), old(phase).next, items[k..], log, phase.skips)
        invariant DirsHold(disk, registry, dirs) && KindsHold(disk, kinds)
        invariant Tallied(TallyOf(disk, registry, items[..k]), old(quarantine), report)
      {
        TallyAppend(disk, registry, items, k);
        var next: Result<Report, AmxError>;
        next, dirs, kinds := IndexOne(items[k], registry, disk, dirs, kinds, report,
                                      TallyOf(disk, registry, items[..k]), old(quarantine));
        if next.Err? { return Err(Failed); }
        report := next.value;
        k := k + 1;
      }
      assert items[..k] == items;
      r := Ok(report);
    }

    /** Stages the whole plan and publishes it with one commit. */
    method StageAll(disk: Disk, registry: Registry, items: seq<WorkItem>)
      returns (r: Result<Report, AmxError>)
      requires Valid() && phase.Scanning? && phase.mailboxes == {}
      requires phase.items == items && phase.scope == Scope(registry, disk)
      modifies `store, `trace, `phase, `log, `quarantine, `docs, `skipped
      ensures Proceeded()
      ensures r.Err? ==> !reliable && phase.Idle? && docs == old(docs) && skipped == old(skipped)
      ensures r.Ok? ==> phase == Published(old(phase).next)
      ensures var t := TallyOf(disk, registry, items); r.Ok? ==>
                && docs == ApplyAll(old(docs), LogOf(t.edits))
                && skipped == Excused(old(skipped) + t.skips, docs)
                && quarantine == old(quarantine) + t.attempts
                && r.value == t.report
    {
      hide IsRun, Init, Inv, OpenSince, Evolves, TallyOf, LogOf, ApplyAll, Excused;
      StoreValid();
      OpenIndexWriter();
      var report :- StageItems(disk, registry, items);
      var ok := Statement();
      if !ok { return Err(Failed); }
      Publish();
      r := Ok(report);
    }

    method Publish()
      requires Valid() && phase.Staging? && phase.items == []
      modifies `trace, `phase, `log, `docs, `skipped
      ensures Valid() && old(trace) <= trace
      ensures docs == ApplyAll(old(docs), old(log))
      ensures skipped == Excused(old(skipped) + old(phase).skips, docs)
      ensures phase == Published(old(phase).next)
    {
      docs := ApplyAll(docs, log);
      skipped := Excused(skipped + phase.skips, docs);
      log := [];
      phase := Published(phase.next);
      Record(Commit);
    }

    // ----- reconciling -----

    method SnapshotLiveRowids() returns (r: Result<set<Rowid>, AmxError>)
      requires Valid() && phase.Published?
      modifies `store, `trace, `phase, `log
      ensures Proceeded()
      ensures r.Err? ==> !reliable && phase.Idle?
      ensures r.Ok? ==> phase == Snapped(old(phase).next, r.value) && r.value == store.LiveRows()
    {
      var ok := Statement();
      if !ok { return Err(Failed); }
      phase := Snapped(phase.next, store.LiveRows());
      Record(Snapshot);
      r := Ok(store.LiveRows());
    }

    /** The fast-field scan of the committed index. */
    method CollectIndexedRowids() returns (r: Result<seq<Rowid>, AmxError>)
      requires Valid() && phase.Snapped?
      modifies `store, `trace, `phase, `log
      ensures Proceeded()
      ensures r.Err? ==> !reliable && phase.Idle?
      ensures r.Ok? ==> phase == old(phase) && Distinct(r.value) && Elements(r.value) == Rowids(docs)
    {
      var ok := Statement();
      if !ok { return Err(Failed); }
      var ids := Enumerate(Rowids(docs));
      r := Ok(ids);
    }

    /** `Reconciler::reconcile`: deletes exactly the indexed rowids missing from one full
        snapshot of live rows, and reports as many as documents disappear. No row that is live
        when it returns has lost its document; on any failure no document is lost at all. */
    method Reconcile() returns (r: Result<nat, AmxError>, ghost live: set<Rowid>)
      requires Valid() && phase.Published?
      modifies `store, `trace, `phase, `log, `docs
      ensures Proceeded()
      ensures r.Err? ==> !reliable && phase.Idle? && docs == old(docs)
      ensures r.Ok? ==> phase == Saving(old(phase).next)
      ensures r.Ok? ==> AsMap(docs) == AsMap(old(docs)) - (Rowids(old(docs)) - live)
      ensures r.Ok? ==> r.value == |old(docs)| - |docs|
      ensures r.Ok? ==> forall x :: x in Rowids(old(docs)) && store.Live(x) ==> x in Rowids(docs)
      ensures r.Ok? ==> Went(trace, |old(trace)|, Snapped(old(phase).next, live))
      ensures r.Ok? && quiet ==> live == store.LiveRows()
    {
      hide IsRun, Init, Inv, OpenSince, Evolves, AsMap, Deletes, Went, ApplyAll;
      StoreValid();
      live := {};
      var snapshot :- SnapshotLiveRowids();
      live := snapshot;
      WentNow(|old(trace)|);
      ghost var snapped := trace;
      var indexed :- CollectIndexedRowids();
      var doomed, deleted := StageDeletes(indexed, snapshot);
      if deleted > 0 {
        var ok := Statement();
        if !ok { return Err(Failed), live; }
      }
      PurgeCommit(doomed);
      WentStays(snapped, trace, |old(trace)|, Snapped(old(phase).next, live));
      r := Ok(deleted);
    }

    method StageDeletes(indexed: seq<Rowid>, live: set<Rowid>) returns (doomed: seq<Rowid>, deleted: nat)
      requires Valid() && phase.Snapped? && phase.live == live
      requires Distinct(indexed) && Elements(indexed) == Rowids(docs)
      modifies `trace, `phase, `log
      ensures Valid() && old(trace) <= trace
      ensures phase == Purging(old(phase).next, doomed) && log == Deletes(doomed)
      ensures Distinct(doomed) && Elements(doomed) == Rowids(docs) - live && deleted == |doomed|
    {
      doomed, deleted := [], 0;
      assert Deletes([]) == [];
      for k := 0 to |indexed|
        invariant phase == old(phase) && trace == old(trace)
        invariant log == Deletes(doomed) && deleted == |doomed|
        invariant Distinct(doomed)
        invariant Elements(doomed) == Elements(indexed[..k]) - live
      {
        assert indexed[..k + 1] == indexed[..k] + [indexed[k]];
        ElementsAppend(indexed[..k], indexed[k]);
        if indexed[k] !in live {
          assert indexed[k] !in Elements(doomed);
          log := log + [DeleteTerm(indexed[k])];
          ElementsAppend(doomed, indexed[k]);
          doomed := doomed + [indexed[k]];
          deleted := deleted + 1;
        }
      }
      assert indexed[..|indexed|] == indexed;
      phase := Purging(phase.next, doomed);
      Record(Step.StageDeletes(doomed));
    }

    lemma PurgeFacts(doomed: seq<Rowid>)
      requires Valid() && phase.Purging? && phase.doomed == doomed
      ensures log == Deletes(doomed)
      ensures AsMap(ApplyAll(docs, log)) == AsMap(docs) - Elements(doomed)
      ensures |doomed| == |docs| - |ApplyAll(docs, log)|
      ensures forall x :: x in doomed ==> !store.Live(x)
    {
      NowInv();
      DeletesRemoveExactly(docs, doomed);
      assert forall x :: x in doomed ==> x in Elements(doomed);
    }

    method PurgeCommit(doomed: seq<Rowid>)
      requires Valid() && phase.Purging? && phase.doomed == doomed
      modifies `trace, `phase, `log, `docs
      ensures Valid() && old(trace) <= trace
      ensures phase == Saving(old(phase).next)
      ensures AsMap(docs) == AsMap(old(docs)) - Elements(doomed)
      ensures |doomed| == |old(docs)| - |docs|
      ensures forall x :: x in doomed ==> !store.Live(x)
    {
      PurgeFacts(doomed);
      hide IsRun, Init, Inv, AsMap, ApplyAll, Elements, Deletes, OpenSince;
      docs := ApplyAll(docs, log);
      log := [];
      phase := Saving(phase.next);
      Record(CommitDeletes);
    }

    // ----- saving the state -----

    method WriteWatermark(next: SyncState) returns (ok: bool)
      requires Valid() && phase == Saving(next)
      modifies `store, `trace, `phase, `log, `state
      ensures Proceeded()
      ensures ok ==> phase == Marked(next) && state == SyncState(next.watermark, old(state).counts)
      ensures !ok ==> !reliable && phase.Idle? && state == old(state)
    {
      ok := Statement();
      if ok {
        state := state.(watermark := next.watermark);
        phase := Marked(next);
        Record(SaveWatermark);
      }
    }

    method DeleteTuples(next: SyncState) returns (ok: bool)
      requires Valid() && phase == Marked(next)
      modifies `store, `trace, `phase, `log, `state
      ensures Proceeded()
      ensures ok ==> phase == Refilling(next, next.counts.Keys) && state == SyncState(old(state).watermark, map[])
      ensures !ok ==> !reliable && phase.Idle? && state == old(state)
    {
      ok := Statement();
      if ok {
        state := state.(counts := map[]);
        phase := Refilling(next, next.counts.Keys);
        Record(ClearCounts);
      }
    }

    method InsertTuple(next: SyncState, m: MailboxId) returns (ok: bool)
      requires Valid() && phase.Refilling? && phase.next == next && m in phase.mailboxes && m in next.counts
      modifies `store, `trace, `phase, `log, `state
      ensures Proceeded()
      ensures ok ==> phase == Refilling(next, old(phase).mailboxes - {m})
      ensures ok ==> state == SyncState(old(state).watermark, old(state).counts[m := next.counts[m]])
      ensures !ok ==> !reliable && phase.Idle? && state == old(state)
    {
      ok := Statement();
      if ok {
        state := state.(counts := state.counts[m := next.counts[m]]);
        phase := Refilling(next, phase.mailboxes - {m});
        Record(SaveCount(m));
      }
    }

    method InsertTuples(next: SyncState) returns (ok: bool)
      requires Valid() && phase == Refilling(next, next.counts.Keys) && state == SyncState(next.watermark, map[])
      modifies `store, `trace, `phase, `log, `state
      ensures Proceeded() && phase.Idle?
      ensures ok ==> state == next
      ensures !ok ==> !reliable && PartOf(state, next)
    {
      hide IsRun, Init, Inv, OpenSince, Evolves;
      StoreValid();
      var todo := next.counts.Keys;
      while todo != {}
        invariant Proceeded() && phase == Refilling(next, todo) && todo <= next.counts.Keys
        invariant state.watermark == next.watermark && state.counts == next.counts - todo
        decreases todo
      {
        var m := Pick(todo);
        ok := InsertTuple(next, m);
        if !ok { return; }
        todo := todo - {m};
        assert state.counts == next.counts - todo;
      }
      FinishSave();
      ok := true;
    }

    method FinishSave()
      requires Valid() && phase.Refilling? && phase.mailboxes == {}
      modifies `trace, `phase
      ensures Valid() && old(trace) <= trace && phase.Idle?
    {
      phase := Idle;
      Record(Finish);
    }

    /** `save_sync_state`: an upsert, a delete and one insert per mailbox, with no transaction
        around them. Interrupted anywhere it leaves the old pair, or the new watermark with the
        old tuples, or the new watermark with some of the new tuples. */
    method SaveSyncState(next: SyncState) returns (r: Result<(), AmxError>)
      requires Valid() && phase == Saving(next)
      modifies `store, `trace, `phase, `log, `state
      ensures Proceeded() && phase.Idle?
      ensures r.Ok? ==> state == next
      ensures r.Err? ==> !reliable
      ensures r.Err? ==> Torn(state, old(state), next)
    {
      hide IsRun, Init, Inv, OpenSince, Evolves;
      StoreValid();
      var ok := WriteWatermark(next);
      if !ok { return Err(Failed); }
      ok := DeleteTuples(next);
      if !ok { return Err(Failed); }
      ok := InsertTuples(next);
      if !ok { return Err(Failed); }
      r := Ok(());
    }

    /** The trace since `from` shows what the pass observed: a registry loaded from the store of that
        instant, a finished scan with the plan and the state to save, and, once reconciled, a
        snapshot. As the trace is a run, those came about by the protocol's reads. */
    ghost predicate Observed(disk: Disk, from: nat, p: Pass)
      reads this
    {
      && LoadedIn(trace, from, Scope(p.registry, disk))
      && Went(trace, from, Scanning(Scope(p.registry, disk), p.next, {}, p.items))
    }

    /** The first half of a pass: plan, stage, publish. */
    method IndexPlanned(disk: Disk) returns (r: Result<(Report, SyncState), AmxError>, ghost p: Pass)
      requires Valid() && phase.Idle?
      modifies this
      ensures Proceeded() && state == old(state)
      ensures r.Err? ==> !reliable && phase.Idle? && docs == old(docs)
      ensures r.Ok? ==> phase == Published(p.next)
      ensures var t := TallyOf(disk, p.registry, p.items); r.Ok? ==>
                && AsMap(docs) == EditAll(AsMap(old(docs)), t.edits)
                && quarantine == old(quarantine) + t.attempts
                && skipped == old(skipped) + t.skips - AsMap(docs).Keys
                && r.value == (t.report, p.next)
      ensures r.Ok? ==> Observed(disk, |old(trace)|, p)
      ensures r.Ok? && quiet ==> QuietPass(normalize, store, state, p.(live := store.LiveRows()))
    {
      hide IsRun, Init, Inv, OpenSince, Evolves, TallyOf, EditAll, LogOf, ApplyAll, AsMap, PlanOf, RegistryOf, IsTop, Planned, ItemSet;
      StoreValid();
      p := Pass(map[], [], state, {});
      var registry :- LoadMailboxes(disk);
      assert LoadedIn(trace, |old(trace)|, Scope(registry, disk)) by { LoadedNow(Scope(registry, disk)); }
      ghost var t1 := trace;
      var work :- Plan(state);
      LoadedStays(t1, trace, |old(trace)|, Scope(registry, disk));
      p := Pass(registry, work.0, work.1, {});
      ghost var t2 := trace;
      WentNow(|old(trace)|);
      var report :- StageAll(disk, registry, work.0);
      LoadedStays(t2, trace, |old(trace)|, Scope(registry, disk));
      WentStays(t2, trace, |old(trace)|, Scanning(Scope(registry, disk), work.1, {}, work.0));
      LogRefinesMap(old(docs), TallyOf(disk, registry, work.0).edits);
      r := Ok((report, work.1));
    }

    /** A failure from here on leaves the published documents and the old state, or the reconciled documents and
        a state that may be torn. */
    ghost predicate HalfDone(from: nat, published: seq<Doc>, start: SyncState, next: SyncState, live: set<Rowid>)
      reads this
    {
      || (docs == published && state == start)
      || (Went(trace, from, Snapped(next, live)) && AsMap(docs) == Reconciled(AsMap(published), live) && Torn(state, start, next))
    }

    /** Where a failed pass may have stopped: before its commit, after it, or after the reconciliation. */
    ghost predicate Stopped(disk: Disk, from: nat, before: seq<Doc>, start: SyncState, p: Pass)
      reads this
    {
      var published := EditAll(AsMap(before), TallyOf(disk, p.registry, p.items).edits);
      || (docs == before && state == start)
      || (Observed(disk, from, p) && AsMap(docs) == published && state == start)
      || (Observed(disk, from, p) && Went(trace, from, Snapped(p.next, p.live))
          && AsMap(docs) == Reconciled(published, p.live) && Torn(state, start, p.next))
    }

    /** The second half: reconcile against a full snapshot, then save the state. */
    method ReconcileAndSave(next: SyncState) returns (r: Result<nat, AmxError>, ghost live: set<Rowid>)
      requires Valid() && phase == Published(next)
      modifies `store, `trace, `phase, `log, `docs, `state
      ensures Proceeded() && phase.Idle?
      ensures r.Err? ==> !reliable && HalfDone(|old(trace)|, old(docs), old(state), next, live)
      ensures r.Ok? ==> state == next && Went(trace, |old(trace)|, Snapped(next, live))
      ensures r.Ok? ==> AsMap(docs) == Reconciled(AsMap(old(docs)), live)
      ensures r.Ok? ==> r.value == |AsMap(old(docs))| - |AsMap(docs)|
      ensures r.Ok? && quiet ==> live == store.LiveRows()
    {
      hide IsRun, Init, Inv, OpenSince, Evolves, AsMap;
      DocumentCount();
      r, live := Reconcile();
      if r.Err? { return; }
      DocumentCount();
      ghost var t := trace;
      var saved := SaveSyncState(next);
      WentStays(t, trace, |old(trace)|, Snapped(next, live));
      if saved.Err? { return Err(Failed), live; }
    }

    /** `SyncEngine::run`, the writer lock already held. */
    method Run(disk: Disk) returns (r: Result<Report, AmxError>, ghost p: Pass)
      requires Valid() && phase.Idle?
      modifies this
      ensures Proceeded() && phase.Idle?
      ensures r.Ok? ==> Observed(disk, |old(trace)|, p) && Went(trace, |old(trace)|, Snapped(p.next, p.live))
      ensures r.Ok? ==> state == p.next && PassDone(disk, AsMap(old(docs)), p, AsMap(docs), r.value)
      ensures var t := TallyOf(disk, p.registry, p.items); r.Ok? ==>
                && quarantine == old(quarantine) + t.attempts
                && skipped == old(skipped) + t.skips - EditAll(AsMap(old(docs)), t.edits).Keys
      ensures r.Err? ==> !reliable && Stopped(disk, |old(trace)|, old(docs), old(state), p)
      ensures r.Ok? && quiet ==> QuietPass(normalize, store, old(state), p)
    {
      hide IsRun, Init, Inv, OpenSince, Evolves, QuietPass, PassDone, TallyOf, EditAll, AsMap, Went, LoadedIn, Torn;
      var indexed;
      indexed, p := IndexPlanned(disk);
      if indexed.Err? { return Err(Failed), p; }
      var report, next := indexed.value.0, indexed.value.1;
      ghost var published, t := AsMap(docs), trace;
      var deletes;
      ghost var live;
      deletes, live := ReconcileAndSave(next);
      p := p.(live := live);
      ObservedStays(t, disk, |old(trace)|, p);
      if Went(trace, |t|, Snapped(p.next, live)) {
        WentEarlier(trace, |t|, |old(trace)|, Snapped(p.next, live));
      }
      if deletes.Err? { return Err(Failed), p; }
      AssemblePass(disk, AsMap(old(docs)), p, published, AsMap(docs), report, deletes.value);
      r := Ok(report.(reconciledDeletes := deletes.value));
    }

    // ----- mutations -----

    /** The index as a map, should the open writer commit now. */
    ghost function Staged(): map<Rowid, Doc>
      requires phase.Mutating?
      reads `docs, `phase
    {
      AsMap(ApplyAll(docs, phase.log))
    }

    /** While this program does not hold the writer lock, other processes may sync and mutate. What they do
        are steps of the protocol as well, and all that is known of them. */
    method OthersWork()
      requires Valid() && phase.Idle?
      modifies this
      ensures Proceeded() && phase.Idle? && asked == old(asked)
      ensures alone ==> docs == old(docs) && state == old(state) && quarantine == old(quarantine)
      ensures alone ==> IdleWithin(trace, |old(trace)| - 1, |trace|)
    {
      StoreValid();
    }

    /** Since this instant the program has used one writer, if any, and closed it with its last step. Before that,
        unless other processes came in between, the index was left alone. */
    ghost predicate Bracketed(from: nat, held: bool)
      reads this
    {
      && (held ==> from < session && OneWriter(trace, session))
      && (alone ==> IdleWithin(trace, from, if held then session else |trace|))
    }

    /** The rest of `MutationWriter::open`, the lock being held. */
    method OpenMutations()
      requires Valid() && phase.Idle?
      modifies `trace, `phase, `log, `dead, `session
      ensures Valid() && trace == old(trace) + [Now()] && session == |old(trace)|
      ensures phase.Mutating? && !dead && Staged() == AsMap(docs)
    {
      log, dead, phase, session := [], false, Mutating([]), |trace|;
      Record(OpenWriter);
      assert ApplyAll(docs, []) == docs;
    }

    lemma EditTaken(e: Edit)
      requires trace != [] && IsRun(trace) && Inv(trace[0]) && trace[|trace| - 1] == Now() && phase.Mutating?
      ensures AsMap(ApplyAll(docs, phase.log + OpsOf(e))) == EditMap(Staged(), e)
    {
      RunKeepsInv(trace, |trace| - 1);
      EditStaged(docs, phase.log, e);
    }

    static lemma EditActs(w: World, e: Edit)
      requires Enabled(w, StageEdit(e))
      ensures w.phase.Mutating? && Act(w, StageEdit(e)) == w.(phase := Mutating(w.phase.log + OpsOf(e)))
    {
    }

    /** The protocol's view of a staged edit, its operations being in the log already. */
    ghost method NoteEdit(e: Edit)
      requires trace != [] && IsRun(trace) && Init(trace[0]) && Inv(trace[0]) && trace[|trace| - 1] == Now()
      requires phase.Mutating? && OpenSince(trace, session)
      requires (dead || log == phase.log + OpsOf(e)) && Enabled(Now(), StageEdit(e))
      modifies `trace, `phase
      ensures Valid() && old(trace) <= trace && phase.Mutating?
      ensures Staged() == EditMap(old(Staged()), e)
    {
      hide Inv, Init, IsRun, Enabled, Act, ApplyAll, AsMap, EditMap, OpsOf, OpenSince;
      EditTaken(e);
      EditActs(Now(), e);
      OpenStill(trace, Now().(phase := Mutating(phase.log + OpsOf(e))), session);
      phase := Mutating(phase.log + OpsOf(e));
      Record(StageEdit(e));
    }

    /** `MutationWriter::upsert`: a delete by term, then an add. If the add fails the delete has been
        staged, but with the writer dead it will never be committed. */
    method UpsertDocument(doc: Doc) returns (ok: bool)
      requires Valid() && phase.Mutating? && 1 <= doc.rowid <= store.seqno
      modifies `trace, `phase, `log, `dead
      ensures Valid() && old(trace) <= trace && phase.Mutating?
      ensures ok ==> !dead && !old(dead) && Staged() == old(Staged())[doc.rowid := doc]
      ensures !ok ==> dead && (reliable ==> old(dead))
    {
      UpsertOps(log, doc);
      hide IsRun, Init, Inv, OpenSince, Staged, OpsOf;
      log := log + [DeleteTerm(doc.rowid)];
      var added := Works();
      if dead || !added {
        dead := true;
        return false;
      }
      log := log + [AddDocument(doc)];
      NoteEdit(Upsert(doc));
      ok := true;
    }

    /** `MutationWriter::remove`. No row of the store may be in want of the document. */
    method RemoveDocument(r: Rowid)
      requires Valid() && phase.Mutating? && r !in store.rows && r <= store.seqno
      modifies `trace, `phase, `log
      ensures Valid() && old(trace) <= trace && phase.Mutating?
      ensures Staged() == old(Staged()) - {r}
    {
      hide IsRun, Init, Inv, OpenSince, Staged;
      log := log + [DeleteTerm(r)];
      NoteEdit(Remove(r));
    }

    /** An open writer is dropped with all that was staged. */
    method DropEdits()
      requires Valid() && phase.Mutating?
      modifies `trace, `phase, `log
      ensures Valid() && phase.Idle? && old(trace) <= trace
      ensures OneWriter(trace, session) && session < |trace| && trace[session].docs == docs
    {
      hide IsRun, Init, Inv, OpenSince, OneWriter;
      ghost var t := trace;
      Abandon();
      WriterCloses(t, Now(), session);
    }

    method PublishEdits()
      requires Valid() && phase.Mutating? && !dead
      modifies `trace, `phase, `log, `docs, `skipped
      ensures Valid() && phase.Idle? && old(trace) <= trace
      ensures OneWriter(trace, session) && session < |trace| && trace[session].docs == old(docs)
      ensures AsMap(docs) == old(Staged()) && skipped == Excused(old(skipped), docs)
    {
      hide IsRun, Init, Inv, AsMap, ApplyAll, Excused, OpenSince, OneWriter;
      ghost var t := trace;
      docs := ApplyAll(docs, log);
      skipped := Excused(skipped, docs);
      log, phase := [], Idle;
      Record(CommitEdits);
      WriterCloses(t, Now(), session);
    }

    /** `MutationWriter::commit`: publishes all that was staged as one map update, or nothing. It may
        still fail afterwards, when the readers are reloaded. */
    method CommitMutations() returns (r: Result<(), AmxError>, ghost published: bool)
      requires Valid() && phase.Mutating?
      modifies this
      ensures Proceeded() && phase.Idle? && state == old(state) && quarantine == old(quarantine) && asked == old(asked)
      ensures session == old(session) && OneWriter(trace, session) && trace[session].docs == old(docs)
      ensures if published then AsMap(docs) == old(Staged()) && skipped == Excused(old(skipped), docs)
              else docs == old(docs) && skipped == old(skipped)
      ensures r.Ok? ==> published
      ensures published ==> !old(dead)
      ensures reliable && !old(dead) ==> r.Ok?
    {
      hide IsRun, Init, Inv, Evolves, ApplyAll, AsMap, Excused, OpenSince, OneWriter;
      StoreValid();
      Interfere();
      var ok := Works();
      published := false;
      if dead || !ok {
        DropEdits();
        return Err(Failed), published;
      }
      PublishEdits();
      published := true;
      var reloaded := Works();
      r := if reloaded then Ok(()) else Err(Failed);
    }

    lemma ObservedStays(t: seq<World>, disk: Disk, from: nat, p: Pass)
      requires t <= trace && LoadedIn(t, from, Scope(p.registry, disk))
      requires Went(t, from, Scanning(Scope(p.registry, disk), p.next, {}, p.items))
      ensures Observed(disk, from, p)
    {
      LoadedStays(t, trace, from, Scope(p.registry, disk));
      WentStays(t, trace, from, Scanning(Scope(p.registry, disk), p.next, {}, p.items));
    }

    lemma LoadedNow(scope: Scope)
      requires Valid() && phase == Loaded(scope) && RegistryOf(normalize, store, scope.registry)
      ensures forall from: nat :: from < |trace| ==> LoadedIn(trace, from, scope)
    {
      assert trace[|trace| - 1].phase == Loaded(scope) && LoadedAt(trace, |trace| - 1);
    }

    lemma WentNow(from: nat)
      requires Valid() && from < |trace|
      ensures Went(trace, from, phase)
    {
      assert trace[|trace| - 1].phase == phase;
    }

    lemma DocumentCount()
      requires Valid()
      ensures |docs| == |AsMap(docs)|
    {
      StoreValid();
      UniqueCount(docs);
    }
  }
}
