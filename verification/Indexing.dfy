/** What a pass does with one planned row, and what it reports. Directory resolution, account
    lookup and body classification are functions of their arguments for the length of a pass. */
module Indexing {
  import opened Wrappers
  import opened MailStore
  import opened OpLog
  import opened Planner

  datatype AccountKind = Imap | Exchange | ICloud | Pop

  datatype Disk = Disk(
    dirOf: string -> Option<string>,
    accountOf: string -> Option<string>,
    kindOf: string -> Option<AccountKind>,
    classify: (string, Rowid, Option<AccountKind>) -> Classified)

  /** Mailbox rowid to URL, as loaded at the start of the pass. */
  type Registry = map<MailboxId, string>

  ghost predicate Represented(normalize: string -> string, registry: Registry, url: string) {
    exists m :: m in registry && normalize(registry[m]) == normalize(url)
  }

  /** The registry holds one mailbox per normalized URL; of several that normalize alike only
      one survives, and the pass treats the others as vanished. */
  ghost predicate RegistryOf(normalize: string -> string, s: Store, registry: Registry) {
    && registry.Keys <= s.boxes.Keys
    && (forall m :: m in registry ==> registry[m] == s.boxes[m].url)
    && (forall m, n :: m in registry && n in registry && normalize(registry[m]) == normalize(registry[n]) ==> m == n)
    && (forall m :: m in s.boxes ==> Represented(normalize, registry, s.boxes[m].url))
  }

  /** What a pass works with from start to end: the mailboxes it loaded and the disk. */
  datatype Scope = Scope(registry: Registry, disk: Disk)

  /** Rows of this mailbox cannot be indexed: it is not in the registry, or its URL yields no
      directory or no account. */
  predicate Refuses(scope: Scope, m: MailboxId) {
    || m !in scope.registry
    || scope.disk.dirOf(scope.registry[m]).None?
    || scope.disk.accountOf(scope.registry[m]).None?
  }

  datatype Outcome =
    | Vanished
    | Unresolvable
    | Indexable(doc: Doc)

  function OutcomeOf(disk: Disk, registry: Registry, item: WorkItem): (o: Outcome)
    ensures o.Indexable? <==> !Refuses(Scope(registry, disk), item.mailbox)
    ensures o.Indexable? ==> o.doc.rowid == item.rowid
  {
    if item.mailbox !in registry then Vanished
    else
      var url := registry[item.mailbox];
      var dir := disk.dirOf(url);
      var account := disk.accountOf(url);
      if dir.None? || account.None? then Unresolvable
      else Indexable(Doc(item.rowid, account.value, url,
                         disk.classify(dir.value, item.rowid, disk.kindOf(account.value))))
  }

  /** The document of a row: filed under the URL of its mailbox and the account of that URL, and classified by
      what lies in the directory of that URL, as such an account would keep it. */
  predicate Describes(disk: Disk, url: string, r: Rowid, doc: Doc) {
    && disk.dirOf(url).Some? && disk.accountOf(url).Some?
    && doc.rowid == r && doc.url == url && doc.account == disk.accountOf(url).value
    && doc.classified == disk.classify(disk.dirOf(url).value, r, disk.kindOf(disk.accountOf(url).value))
  }

  lemma IndexableMeaning(disk: Disk, registry: Registry, item: WorkItem, doc: Doc)
    ensures OutcomeOf(disk, registry, item) == Indexable(doc) <==>
              item.mailbox in registry && Describes(disk, registry[item.mailbox], item.rowid, doc)
  {
  }

  datatype Report = Report(added: nat, modified: nat, quarantined: nat, reconciledDeletes: nat)

  const EMPTY_REPORT := Report(0, 0, 0, 0)

  /** What the pass has to show for a list of items: the edits it staged, the rows it skipped,
      the report, and one quarantine attempt per unresolvable row or unparsable body. */
  datatype Tally = Tally(edits: seq<Edit>, skips: set<Rowid>, report: Report, attempts: multiset<Rowid>, vanished: nat, unresolvable: nat)

  const EMPTY_TALLY := Tally([], {}, EMPTY_REPORT, multiset{}, 0, 0)

  function TallyOne(disk: Disk, registry: Registry, t: Tally, item: WorkItem): Tally {
    match OutcomeOf(disk, registry, item)
    case Vanished => t.(skips := t.skips + {item.rowid}, vanished := t.vanished + 1)
    case Unresolvable => TallyUnresolvable(t, item)
    case Indexable(doc) => TallyDoc(t, item, doc)
  }

  function TallyUnresolvable(t: Tally, item: WorkItem): Tally {
    t.(skips := t.skips + {item.rowid},
       report := t.report.(quarantined := t.report.quarantined + 1),
       attempts := t.attempts + multiset{item.rowid},
       unresolvable := t.unresolvable + 1)
  }

  function TallyDoc(t: Tally, item: WorkItem, doc: Doc): Tally {
    var bad := doc.classified.body == BodyState.Quarantined;
    var report := if bad then t.report.(quarantined := t.report.quarantined + 1) else t.report;
    t.(edits := t.edits + [Upsert(doc)],
       report := if item.kind == Added then report.(added := report.added + 1)
                 else report.(modified := report.modified + 1),
       attempts := if bad then t.attempts + multiset{item.rowid} else t.attempts)
  }

  function TallyOf(disk: Disk, registry: Registry, items: seq<WorkItem>): Tally {
    if items == [] then EMPTY_TALLY
    else TallyOne(disk, registry, TallyOf(disk, registry, items[..|items| - 1]), items[|items| - 1])
  }

  /** Nothing planned goes unaccounted for. */
  lemma {:induction false} AccountingConserved(disk: Disk, registry: Registry, items: seq<WorkItem>)
    ensures var t := TallyOf(disk, registry, items);
      && |items| == t.report.added + t.report.modified + t.vanished + t.unresolvable
      && |t.edits| == t.report.added + t.report.modified
      && |t.attempts| == t.report.quarantined
      && t.report.reconciledDeletes == 0
  {
    if items != [] {
      AccountingConserved(disk, registry, items[..|items| - 1]);
    }
  }

  /** Where the plan has a new or known row that can be indexed, where it has one to skip, and where it has one of this
      rowid to quarantine: one of a known mailbox without directory or account, or one whose body cannot be
      parsed. */
  function Indexed(disk: Disk, registry: Registry, items: seq<WorkItem>, kind: WorkKind): set<int> {
    set k | 0 <= k < |items| && items[k].kind == kind && !Refuses(Scope(registry, disk), items[k].mailbox)
  }

  function Failing(disk: Disk, registry: Registry, items: seq<WorkItem>): set<int> {
    set k | 0 <= k < |items| && Fails(disk, registry, items[k])
  }

  function FailingOf(disk: Disk, registry: Registry, items: seq<WorkItem>, r: Rowid): set<int> {
    set k | 0 <= k < |items| && items[k].rowid == r && Fails(disk, registry, items[k])
  }

  function RefusedRows(disk: Disk, registry: Registry, items: seq<WorkItem>): set<Rowid> {
    set i | i in items && Refuses(Scope(registry, disk), i.mailbox) :: i.rowid
  }

  predicate Fails(disk: Disk, registry: Registry, i: WorkItem) {
    && i.mailbox in registry
    && var url := registry[i.mailbox];
       disk.dirOf(url).Some? && disk.accountOf(url).Some? ==>
         disk.classify(disk.dirOf(url).value, i.rowid, disk.kindOf(disk.accountOf(url).value)).body == BodyState.Quarantined
  }

  lemma IndexedMore(disk: Disk, registry: Registry, front: seq<WorkItem>, last: WorkItem, kind: WorkKind)
    ensures |Indexed(disk, registry, front + [last], kind)| == |Indexed(disk, registry, front, kind)|
              + if last.kind == kind && !Refuses(Scope(registry, disk), last.mailbox) then 1 else 0
  {
    hide Refuses;
    assert Indexed(disk, registry, front + [last], kind) == Indexed(disk, registry, front, kind)
             + if last.kind == kind && !Refuses(Scope(registry, disk), last.mailbox) then {|front|} else {};
  }

  lemma FailingMore(disk: Disk, registry: Registry, front: seq<WorkItem>, last: WorkItem)
    ensures |Failing(disk, registry, front + [last])| == |Failing(disk, registry, front)| + if Fails(disk, registry, last) then 1 else 0
  {
    hide Fails;
    assert Failing(disk, registry, front + [last])
        == Failing(disk, registry, front) + if Fails(disk, registry, last) then {|front|} else {};
  }

  lemma FailingOfMore(disk: Disk, registry: Registry, front: seq<WorkItem>, last: WorkItem, r: Rowid)
    ensures |FailingOf(disk, registry, front + [last], r)| == |FailingOf(disk, registry, front, r)|
              + if last.rowid == r && Fails(disk, registry, last) then 1 else 0
  {
    hide Fails;
    assert FailingOf(disk, registry, front + [last], r) == FailingOf(disk, registry, front, r)
             + if last.rowid == r && Fails(disk, registry, last) then {|front|} else {};
  }

  lemma RefusedMore(disk: Disk, registry: Registry, front: seq<WorkItem>, last: WorkItem)
    ensures RefusedRows(disk, registry, front + [last])
         == RefusedRows(disk, registry, front) + if Refuses(Scope(registry, disk), last.mailbox) then {last.rowid} else {}
  {
    hide Refuses;
  }

  /** One item more: each counter goes up by one or not at all. */
  lemma ItemTallied(disk: Disk, registry: Registry, t: Tally, i: WorkItem)
    ensures var u, indexed := TallyOne(disk, registry, t, i), !Refuses(Scope(registry, disk), i.mailbox);
      && u.report.added == t.report.added + (if indexed && i.kind == Added then 1 else 0)
      && u.report.modified == t.report.modified + (if indexed && i.kind == Modified then 1 else 0)
      && u.report.quarantined == t.report.quarantined + (if Fails(disk, registry, i) then 1 else 0)
      && u.attempts == t.attempts + (if Fails(disk, registry, i) then multiset{i.rowid} else multiset{})
      && u.skips == t.skips + (if indexed then {} else {i.rowid})
  {
  }

  /** What the report counts, and which rows are skipped. */
  lemma {:induction false} ReportMeaning(disk: Disk, registry: Registry, items: seq<WorkItem>)
    ensures var t := TallyOf(disk, registry, items);
      && t.report.added == |Indexed(disk, registry, items, Added)|
      && t.report.modified == |Indexed(disk, registry, items, Modified)|
      && t.report.quarantined == |Failing(disk, registry, items)|
      && t.skips == RefusedRows(disk, registry, items)
  {
    if items != [] {
      var front, last := items[..|items| - 1], items[|items| - 1];
      assert items == front + [last];
      ReportMeaning(disk, registry, front);
      ItemTallied(disk, registry, TallyOf(disk, registry, front), last);
      IndexedMore(disk, registry, front, last, Added);
      IndexedMore(disk, registry, front, last, Modified);
      FailingMore(disk, registry, front, last);
      RefusedMore(disk, registry, front, last);
      hide TallyOne, Refuses, Fails, Indexed, Failing, RefusedRows;
    }
  }

  /** The attempts recorded for a row are as many as the items of it that failed. */
  lemma {:induction false} AttemptsMeaning(disk: Disk, registry: Registry, items: seq<WorkItem>, r: Rowid)
    ensures TallyOf(disk, registry, items).attempts[r] == |FailingOf(disk, registry, items, r)|
  {
    if items != [] {
      var front, last := items[..|items| - 1], items[|items| - 1];
      assert items == front + [last];
      AttemptsMeaning(disk, registry, front, r);
      ItemTallied(disk, registry, TallyOf(disk, registry, front), last);
      FailingOfMore(disk, registry, front, last, r);
      hide TallyOne, Fails, FailingOf, Refuses;
    }
  }

  lemma TallyAppend(disk: Disk, registry: Registry, items: seq<WorkItem>, k: nat)
    requires k < |items|
    ensures TallyOf(disk, registry, items[..k + 1]) == TallyOne(disk, registry, TallyOf(disk, registry, items[..k]), items[k])
  {
    assert items[..k + 1][..k] == items[..k];
  }

  /** The rows a list of items gives a document to: those of its indexable items. */
  function IndexedRows(disk: Disk, registry: Registry, items: seq<WorkItem>): set<Rowid> {
    set i | i in items && OutcomeOf(disk, registry, i).Indexable? :: i.rowid
  }

  lemma {:induction false} EditedRows(disk: Disk, registry: Registry, items: seq<WorkItem>, m: map<Rowid, Doc>)
    ensures EditAll(m, TallyOf(disk, registry, items).edits).Keys == m.Keys + IndexedRows(disk, registry, items)
  {
    if items != [] {
      var front, last := items[..|items| - 1], items[|items| - 1];
      EditedRows(disk, registry, front, m);
      assert items == front + [last];
      var edits := TallyOf(disk, registry, front).edits;
      match OutcomeOf(disk, registry, last)
      case Indexable(doc) => assert (edits + [Upsert(doc)])[..|edits|] == edits;
      case _ =>
    }
  }
}
