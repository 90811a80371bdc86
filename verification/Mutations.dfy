/** The mutation tools as programs on the same host as the sync pass: they read the store while
    Mail.app keeps changing it, ask Mail.app to act, and rewrite the index under an open writer.
    Their steps are recorded in the same trace, so what holds of every run holds of them. */
module Mutations {
  import opened Wrappers
  import opened MailStore
  import opened OpLog
  import opened Planner
  import opened Indexing
  import opened SyncProtocol
  import opened SyncEngine
  import opened AccountReads
  import opened Relocate
  import opened Clocks
  import Lock = WriterLock
  import MutationWriter

  const SETTLE_BUDGET := 3000
  const POLL_INTERVAL := 150

  /** The stores a trace went through. */
  function Stores(trace: seq<World>): (h: seq<Store>)
    ensures |h| == |trace|
  {
    seq(|trace|, i requires 0 <= i < |trace| => trace[i].store)
  }

  lemma StoresGrow(t: seq<World>, t': seq<World>)
    requires t <= t'
    ensures Stores(t) <= Stores(t')
  {
  }

  lemma GoneStays(host: Host, i: nat, r: Rowid)
    requires host.Valid() && i < |host.trace| && r !in host.trace[i].store.rows && r <= host.trace[i].store.seqno
    ensures forall j :: i <= j < |host.trace| ==> r !in host.trace[j].store.rows
  {
    forall j | i <= j < |host.trace| ensures r !in host.trace[j].store.rows {
      StoresEvolve(host.trace, i, j);
      GoneForGood(host.trace[i].store, host.trace[j].store, r);
    }
  }

  /** What the first statements saw, they saw: the history only grows. */
  lemma SweptSoFar(tr: seq<World>, tr': seq<World>, lo: nat, when: seq<nat>, boxes: seq<MailboxId>, k: nat)
    requires tr != [] && tr <= tr' && k < |boxes| && Schedule(when, k, lo, |tr| - 1) && lo < |tr|
    ensures var now := when + [|tr'| - 1];
      && Schedule(now, k + 1, lo, |tr'| - 1)
      && Swept(Stores(tr'), now, boxes[..k + 1]) == Swept(Stores(tr), when, boxes[..k]) + RowsIn(tr'[|tr'| - 1].store, boxes[k])
  {
    var now: seq<nat> := when + [|tr'| - 1];
    StoresGrow(tr, tr');
    SweptStays(Stores(tr), Stores(tr'), when, boxes[..k]);
    assert now[..k] == when && boxes[..k + 1][..k] == boxes[..k];
  }

  /** What reading the first `k` mailboxes of an account has shown. */
  ghost predicate ReadSoFar(trace: seq<World>, lo: nat, when: seq<nat>, boxes: seq<MailboxId>, k: nat, rowids: set<Rowid>) {
    && lo < |trace| && k <= |boxes| && Schedule(when, k, lo, |trace| - 1)
    && rowids == Swept(Stores(trace), when, boxes[..k])
  }

  /** One mailbox of the account: one statement. */
  method ReadMailbox(host: Host, boxes: seq<MailboxId>, k: nat, rowids: set<Rowid>, ghost lo: nat, ghost when: seq<nat>)
    returns (r: Option<set<Rowid>>, ghost when': seq<nat>)
    requires host.Valid() && k < |boxes| && ReadSoFar(host.trace, lo, when, boxes, k, rowids)
    modifies host`store, host`trace
    ensures host.Watched()
    ensures r.Some? ==> ReadSoFar(host.trace, lo, when', boxes, k + 1, r.value)
    ensures r.None? ==> !host.reliable
  {
    hide IsRun, Init, Inv, OpenSince, Evolves, RowsIn, Stores, Swept;
    host.Interfere();
    when' := when + [|host.trace| - 1];
    var ok := host.Works();
    if !ok { return None, when'; }
    SweptSoFar(old(host.trace), host.trace, lo, when, boxes, k);
    r := Some(rowids + RowsIn(host.store, boxes[k]));
  }

  /** `account_rowid_snapshot`: mailbox by mailbox, so rows may move in between. */
  method AccountSnapshot(host: Host, boxes: seq<MailboxId>) returns (r: Result<set<Rowid>, WaitError>, ghost when: seq<nat>)
    requires host.Valid()
    modifies host`store, host`trace
    ensures host.Watched()
    ensures r.Ok? ==> Schedule(when, |boxes|, |old(host.trace)| - 1, |host.trace| - 1)
    ensures r.Ok? ==> r.value == Swept(Stores(host.trace), when, boxes)
    ensures r.Err? ==> !host.reliable && r.error == Database
  {
    ghost var lo: nat := |host.trace| - 1;
    assert ReadSoFar(host.trace, lo, [], boxes, 0, {});
    hide IsRun, Init, Inv, OpenSince, Evolves, ReadSoFar;
    host.StoreValid();
    var rowids: set<Rowid> := {};
    when := [];
    for k := 0 to |boxes|
      invariant host.Watched() && ReadSoFar(host.trace, lo, when, boxes, k, rowids)
    {
      var more;
      more, when := ReadMailbox(host, boxes, k, rowids, lo, when);
      if more.None? { return Err(Database), when; }
      rowids := more.value;
    }
    AllRead(host.trace, lo, when, boxes, rowids);
    r := Ok(rowids);
  }

  lemma AllRead(trace: seq<World>, lo: nat, when: seq<nat>, boxes: seq<MailboxId>, rowids: set<Rowid>)
    requires ReadSoFar(trace, lo, when, boxes, |boxes|, rowids)
    ensures Schedule(when, |boxes|, lo, |trace| - 1) && rowids == Swept(Stores(trace), when, boxes)
  {
    assert boxes[..|boxes|] == boxes;
  }

  /** The new rowids, and whether there is exactly one. */
  method Difference(after: set<Rowid>, before: set<Rowid>) returns (only: Option<Rowid>, count: nat)
    ensures count == |after - before|
    ensures only.Some? <==> count == 1
    ensures only.Some? ==> after - before == {only.value}
  {
    var created := after - before;
    count := |created|;
    if count == 1 {
      HasMember(created);
      var x: Rowid :| x in created;
      assert |created - {x}| == 0;
      assert created == {x};
      only := Some(x);
    } else {
      only := None;
    }
  }

  /** The turns taken so far, all of them before now. */
  ghost predicate Waited(trace: seq<World>, lo: nat, w: Wait, polls: seq<Poll>) {
    && lo < |trace|
    && Polling(Stores(trace), lo, |trace| - 1, w, polls)
    && forall q :: q in polls ==> EndOf(q) < |trace|
  }

  lemma WaitedStill(t: seq<World>, t': seq<World>, lo: nat, w: Wait, polls: seq<Poll>)
    requires Waited(t, lo, w, polls) && t <= t'
    ensures Waited(t', lo, w, polls)
  {
    StoresGrow(t, t');
    PollingStays(Stores(t), Stores(t'), lo, |t| - 1, |t'| - 1, w, polls);
  }

  /** After the turns so far the old row was found gone at `checked`, and reading the account then showed so
      many new rows, and which one if there is only one. */
  ghost predicate Read(
      trace: seq<World>, lo: nat, w: Wait, polls: seq<Poll>, checked: nat, when: seq<nat>, only: Option<Rowid>, count: nat)
  {
    && Waited(trace, lo, w, polls)
    && PollFits(Stores(trace), lo, |trace| - 1, w, Gone(checked, when, false))
    && (forall q :: q in polls ==> EndOf(q) <= checked)
    && count == |NewRows(Stores(trace), w, when)| && (only.Some? <==> count == 1)
    && (only.Some? ==> NewRows(Stores(trace), w, when) == {only.value})
  }

  lemma ReadEnds(
      trace: seq<World>, lo: nat, w: Wait, polls: seq<Poll>, checked: nat, when: seq<nat>, only: Option<Rowid>, count: nat, late: bool)
    requires Read(trace, lo, w, polls, checked, when, only, count)
    ensures only.Some? ==> WaitRun(Stores(trace), lo, |trace| - 1, w, polls + [Gone(checked, when, late)], Ok(only.value))
    ensures only.None? && (count == 0 ==> late) ==>
              WaitRun(Stores(trace), lo, |trace| - 1, w, polls + [Gone(checked, when, late)], Err(Ambiguous(count)))
    ensures count == 0 && !late ==> Waited(trace, lo, w, polls + [Gone(checked, when, late)])
  {
    hide Polling, Swept, Stores;
    var h, p := Stores(trace), Gone(checked, when, late);
    assert PollFits(h, lo, |h| - 1, w, p);
    if only.Some? {
      WaitEnds(h, lo, |h| - 1, w, polls, p, Ok(only.value));
    } else if count == 0 && !late {
      PollingMore(h, lo, |h| - 1, w, polls, p);
    } else if count == 0 ==> late {
      WaitEnds(h, lo, |h| - 1, w, polls, p, Err(Ambiguous(count)));
    }
  }

  /** The account read anew, and compared with the snapshot. */
  method ReadNewRows(host: Host, w: Wait, ghost lo: nat, ghost polls: seq<Poll>)
    returns (failed: bool, only: Option<Rowid>, count: nat, ghost when: seq<nat>)
    requires host.Valid() && Waited(host.trace, lo, w, polls) && w.oldRow !in host.store.rows
    modifies host`store, host`trace
    ensures host.Watched()
    ensures failed ==> !host.reliable && WaitRun(Stores(host.trace), lo, |host.trace| - 1, w, polls, Err(Database))
    ensures !failed ==> Read(host.trace, lo, w, polls, |old(host.trace)| - 1, when, only, count)
  {
    hide IsRun, Init, Inv, OpenSince, Evolves, Polling;
    var after;
    after, when := AccountSnapshot(host, w.boxes);
    WaitedStill(old(host.trace), host.trace, lo, w, polls);
    failed, only, count := after.Err?, None, 0;
    if !failed {
      only, count := Difference(after.value, w.before);
    }
  }

  /** The old row is gone: one reading of the account, which ends the wait unless it shows nothing new
      before the deadline. */
  method LookForNewRow(host: Host, clock: Clock, deadline: int, w: Wait, ghost lo: nat, ghost polls: seq<Poll>)
    returns (r: Option<Answer>, ghost polls': seq<Poll>)
    requires host.Valid() && Waited(host.trace, lo, w, polls) && w.oldRow !in host.store.rows
    modifies host`store, host`trace, clock
    ensures host.Watched() && old(clock.now) <= clock.now && clock.slept == old(clock.slept)
    ensures r.Some? ==> WaitRun(Stores(host.trace), lo, |host.trace| - 1, w, polls', r.value)
    ensures r == Some(Err(Database)) ==> !host.reliable
    ensures r != Some(Err(StillPresent))
    ensures r == Some(Err(Ambiguous(0))) ==> deadline <= clock.now
    ensures |polls'| <= |polls| + 1
    ensures r.None? ==> Waited(host.trace, lo, w, polls') && |polls'| == |polls| + 1 && old(clock.now) < deadline
  {
    hide IsRun, Init, Inv, OpenSince, Evolves, Polling, Read, Waited, WaitRun, Stores;
    polls' := polls;
    var failed, only, count, when := ReadNewRows(host, w, lo, polls);
    if failed { return Some(Err(Database)), polls'; }
    ghost var checked := |old(host.trace)| - 1;
    var late := false;
    if count == 0 {
      clock.Elapse();
      late := deadline <= clock.now;
    }
    polls' := polls + [Gone(checked, when, late)];
    ReadEnds(host.trace, lo, w, polls, checked, when, only, count, late);
    ReadCount(host.trace, lo, w, polls, checked, when, only, count);
    if only.Some? {
      r := Some(Ok(only.value));
    } else if count != 0 || late {
      r := Some(Err(Ambiguous(count)));
    } else {
      r := None;
    }
  }

  lemma ReadCount(
      trace: seq<World>, lo: nat, w: Wait, polls: seq<Poll>, checked: nat, when: seq<nat>, only: Option<Rowid>, count: nat)
    requires Read(trace, lo, w, polls, checked, when, only, count)
    ensures only.Some? <==> count == 1
  {
  }

  /** One turn of the wait loop. */
  method TakeTurn(host: Host, clock: Clock, deadline: int, w: Wait, ghost lo: nat, ghost polls: seq<Poll>)
    returns (r: Option<Answer>, ghost polls': seq<Poll>)
    requires host.Valid() && Waited(host.trace, lo, w, polls)
    modifies host`store, host`trace, clock
    ensures host.Watched() && old(clock.now) <= clock.now
    ensures r.Some? ==> WaitRun(Stores(host.trace), lo, |host.trace| - 1, w, polls', r.value)
    ensures r == Some(Err(Database)) ==> !host.reliable
    ensures r == Some(Err(StillPresent)) || r == Some(Err(Ambiguous(0))) ==> deadline <= clock.now
    ensures |polls'| <= |polls| + 1
    ensures r.None? ==> Waited(host.trace, lo, w, polls') && |polls'| == |polls| + 1 && old(clock.now) < deadline
    ensures r.None? ==> old(clock.now) + POLL_INTERVAL <= clock.now
    ensures clock.slept == if r.None? then old(clock.slept) + [POLL_INTERVAL] else old(clock.slept)
  {
    hide IsRun, Init, Inv, OpenSince, Evolves, Polling;
    host.StoreValid();
    host.Interfere();
    WaitedStill(old(host.trace), host.trace, lo, w, polls);
    polls' := polls;
    var ok := host.Works();
    if !ok { return Some(Err(Database)), polls'; }
    if w.oldRow !in host.store.rows {
      r, polls' := LookForNewRow(host, clock, deadline, w, lo, polls);
      if r.Some? { return; }
    } else {
      clock.Elapse();
      ghost var p := Present(|host.trace| - 1, deadline <= clock.now);
      polls' := polls + [p];
      if deadline <= clock.now {
        WaitEnds(Stores(host.trace), lo, |host.trace| - 1, w, polls, p, Err(StillPresent));
        return Some(Err(StillPresent)), polls';
      }
      PollingMore(Stores(host.trace), lo, |host.trace| - 1, w, polls, p);
    }
    clock.Sleep(POLL_INTERVAL);
    r := None;
  }

  /** `wait_for_relocated_rowid`: at most 21 turns, with a sleep of 150 ms between any two. An in-place update is an error, as is
      more than one new row; no new row is an error once the budget is spent. */
  method WaitForRelocated(host: Host, clock: Clock, w: Wait) returns (r: Answer, turns: nat, ghost polls: seq<Poll>)
    requires host.Valid()
    modifies host`store, host`trace, clock
    ensures host.Watched() && |polls| <= turns && 1 <= turns <= 21
    ensures clock.slept == old(clock.slept) + seq(turns - 1, k => 150)
    ensures WaitRun(Stores(host.trace), |old(host.trace)| - 1, |host.trace| - 1, w, polls, r)
    ensures r == Err(Database) ==> !host.reliable
    ensures r == Err(StillPresent) || r == Err(Ambiguous(0)) ==> old(clock.now) + 3000 <= clock.now
  {
    hide IsRun, Init, Inv, OpenSince, Evolves, WaitRun;
    host.StoreValid();
    ghost var lo: nat := |host.trace| - 1;
    var deadline := clock.now + SETTLE_BUDGET;
    turns, polls := 0, [];
    while true
      invariant host.Watched() && Waited(host.trace, lo, w, polls)
      invariant deadline - SETTLE_BUDGET + POLL_INTERVAL * turns <= clock.now
      invariant turns <= 20 && |polls| == turns
      invariant clock.slept == old(clock.slept) + seq(turns, k => 150)
      decreases 21 - turns
    {
      var end;
      end, polls := TakeTurn(host, clock, deadline, w, lo, polls);
      turns := turns + 1;
      if end.Some? { return end.value, turns, polls; }
    }
  }

  // ----- reading a message, and asking Mail.app -----

  /** What the tools know of the world besides the store: the mailboxes and the disk, the mailboxes of
      an account, the account a destination mailbox belongs to, and whether a message can be
      addressed in Mail.app. */
  datatype Site = Site(
    scope: Scope, boxesOf: string -> seq<MailboxId>, accountAt: string -> Option<string>, addressable: Doc -> bool)

  /** At this instant the row reads as this document. */
  predicate Reads(s: Store, scope: Scope, r: Rowid, doc: Doc) {
    && r in s.rows && s.rows[r].mailbox in scope.registry
    && Describes(scope.disk, scope.registry[s.rows[r].mailbox], r, doc)
  }

  predicate Unreadable(s: Store, scope: Scope, r: Rowid) {
    r !in s.rows || Refuses(scope, s.rows[r].mailbox)
  }

  /** `resolve_message`: the row, its mailbox and its classified body. */
  method ResolveMessage(host: Host, scope: Scope, r: Rowid) returns (m: Option<(Doc, Row)>)
    requires host.Valid()
    modifies host`store, host`trace
    ensures host.Watched()
    ensures m.Some? ==> Reads(host.store, scope, r, m.value.0) && m.value.1 == host.store.rows[r] && m.value.0.rowid == r
    ensures m.None? && host.reliable ==> Unreadable(host.store, scope, r)
  {
    host.Interfere();
    var ok := host.Works();
    if !ok || r !in host.store.rows { return None; }
    var row := host.store.rows[r];
    var item := WorkItem(r, row.mailbox, Modified);
    match OutcomeOf(scope.disk, scope.registry, item) {
      case Indexable(doc) =>
        IndexableMeaning(scope.disk, scope.registry, item, doc);
        m := Some((doc, row));
      case _ => m := None;
    }
  }

  function Asks(ask: Option<Asked>): seq<Asked> {
    if ask.Some? then [ask.value] else []
  }

  /** Locating the message in Mail.app, and then asking it to act. What comes of it shows only in the store. */
  method Automate(host: Host, command: Command) returns (ok: bool, ghost ask: Option<Asked>)
    requires host.Valid()
    modifies host`store, host`trace, host`asked
    ensures host.Watched() && (host.reliable ==> ok) && (ok ==> ask.Some?)
    ensures host.asked == old(host.asked) + Asks(ask)
    ensures ask.Some? ==> ask.value.command == command && |old(host.trace)| - 1 <= ask.value.at < |host.trace|
  {
    host.Interfere();
    ask := None;
    ok := host.Works();
    if ok {
      ask := Some(Asked(|host.trace| - 1, command));
      host.asked := host.asked + [ask.value];
      ok := host.Works();
    }
  }

  /** Mail.app was asked about a message that could be addressed, and that this row was read as before. */
  ghost predicate SightedFor(h: seq<Store>, lo: nat, site: Site, r: Rowid, a: Asked) {
    && lo <= a.at < |h| && site.addressable(a.command.message)
    && exists i :: lo <= i <= a.at && Reads(h[i], site.scope, r, a.command.message)
  }

  lemma SightedStays(h: seq<Store>, h': seq<Store>, lo: nat, lo': nat, site: Site, r: Rowid, a: Asked)
    requires SightedFor(h, lo, site, r, a) && h <= h' && lo' <= lo
    ensures SightedFor(h', lo', site, r, a)
  {
    hide Reads;
    var i :| lo <= i <= a.at && Reads(h[i], site.scope, r, a.command.message);
    assert Reads(h'[i], site.scope, r, a.command.message);
  }

  lemma SightedBy(h: seq<Store>, lo: nat, site: Site, r: Rowid, a: Asked, i: nat)
    requires lo <= i <= a.at < |h| && site.addressable(a.command.message) && Reads(h[i], site.scope, r, a.command.message)
    ensures SightedFor(h, lo, site, r, a)
  {
    hide Reads;
  }

  // ----- relocating -----

  lemma AnswerFacts(host: Host, lo: nat, w: Wait, polls: seq<Poll>, x: Rowid)
    requires host.Valid() && lo < |host.trace| && w.oldRow <= host.trace[lo].store.seqno
    requires WaitRun(Stores(host.trace), lo, |host.trace| - 1, w, polls, Ok(x))
    ensures x != w.oldRow && w.oldRow !in host.store.rows && w.oldRow <= host.store.seqno
  {
    var h := Stores(host.trace);
    AnswerIsLone(h, lo, |h| - 1, w, polls, x);
    var p := polls[|polls| - 1];
    StoresEvolve(host.trace, lo, p.checked);
    StoresEvolve(host.trace, lo, |h| - 1);
    GoneStays(host, p.checked, w.oldRow);
    assert x in NewRows(h, w, p.when);
    SweptMeaning(h, p.when, w.boxes, x);
    var k: nat :| SeenAt(h, p.when, w.boxes, x, k);
    assert x in host.trace[p.when[k]].store.rows;
  }

  /** The removal of the old row's document, then the upsert of the new one's. */
  method StageRelocation(host: Host, oldRow: Rowid, doc: Doc) returns (ok: bool)
    requires host.Valid() && host.phase.Mutating? && doc.rowid != oldRow
    requires oldRow !in host.store.rows && oldRow <= host.store.seqno && doc.rowid in host.store.rows
    modifies host`trace, host`phase, host`log, host`dead
    ensures host.Valid() && old(host.trace) <= host.trace && host.phase.Mutating?
    ensures ok ==> !host.dead && !old(host.dead) && host.Staged() == (old(host.Staged()) - {oldRow})[doc.rowid := doc]
    ensures !ok ==> host.dead && (host.reliable ==> old(host.dead))
  {
    hide IsRun, Init, Inv, OpenSince, AsMap, ApplyAll;
    host.StoreValid();
    if doc.rowid != oldRow {
      host.RemoveDocument(oldRow);
    }
    ok := host.UpsertDocument(doc);
  }

  /** The course of a relocation: the instant at which the message was read, the account to watch, the
      snapshot and its instants, and the turns of the wait. */
  datatype Trail = Trail(
    sighted: nat, message: Doc, account: string, start: nat, taken: seq<nat>, snapped: nat,
    wait: Wait, from: nat, polls: seq<Poll>)

  /** What has been prepared before Mail.app is asked to act: the message can be addressed, the account
      is the destination's or, if none is given, the message's own, and its rowids were listed
      mailbox by mailbox. */
  ghost predicate Prepared(h: seq<Store>, lo: nat, hi: nat, site: Site, r: Rowid, destination: Option<string>, t: Trail) {
    && lo <= t.sighted <= hi < |h|
    && Reads(h[t.sighted], site.scope, r, t.message) && site.addressable(t.message)
    && (if destination.Some? then site.accountAt(destination.value) == Some(t.account) else t.account == t.message.account)
    && t.wait.boxes == site.boxesOf(t.account) && t.wait.oldRow == r
    && lo <= t.start <= t.snapped <= hi
    && Schedule(t.taken, |t.wait.boxes|, t.start, t.snapped) && t.wait.before == Swept(h, t.taken, t.wait.boxes)
  }

  /** ...and the whole course, up to the answer of the wait. */
  ghost predicate TrailFits(
      h: seq<Store>, lo: nat, hi: nat, site: Site, r: Rowid, destination: Option<string>, t: Trail, answer: Answer)
  {
    && Prepared(h, lo, hi, site, r, destination, t)
    && t.snapped <= t.from <= hi && WaitRun(h, t.from, hi, t.wait, t.polls, answer)
  }

  /** Why a relocation came to nothing. */
  datatype Hindrance =
    | Outage
    | NoSuchMailbox
    | Unread(at: nat)
    | Unaddressable(at: nat, message: Doc)
    | NotFound(trail: Trail, error: WaitError)
    | Lost(trail: Trail, newRow: Rowid, at: nat)

  ghost predicate Hinders(
      reliable: bool, h: seq<Store>, lo: nat, hi: nat, site: Site, r: Rowid, destination: Option<string>, why: Hindrance)
  {
    match why
    case Outage => !reliable
    case NoSuchMailbox => destination.Some? && site.accountAt(destination.value).None?
    case Unread(at) => lo <= at <= hi < |h| && Unreadable(h[at], site.scope, r)
    case Unaddressable(at, doc) => lo <= at <= hi < |h| && Reads(h[at], site.scope, r, doc) && !site.addressable(doc)
    case NotFound(t, e) => TrailFits(h, lo, hi, site, r, destination, t, Err(e)) && e != Database
    case Lost(t, x, at) =>
      TrailFits(h, lo, hi, site, r, destination, t, Ok(x)) && lo <= at <= hi < |h| && Unreadable(h[at], site.scope, x)
  }

  lemma PreparedStays(
      h: seq<Store>, h': seq<Store>, lo: nat, lo': nat, hi: nat, hi': nat, site: Site, r: Rowid, destination: Option<string>, t: Trail)
    requires Prepared(h, lo, hi, site, r, destination, t) && h <= h' && lo' <= lo && hi <= hi' < |h'|
    ensures Prepared(h', lo', hi', site, r, destination, t)
  {
    SweptStays(h, h', t.taken, t.wait.boxes);
  }

  lemma TrailStays(
      h: seq<Store>, h': seq<Store>, lo: nat, lo': nat, hi: nat, hi': nat,
      site: Site, r: Rowid, destination: Option<string>, t: Trail, answer: Answer)
    requires TrailFits(h, lo, hi, site, r, destination, t, answer) && h <= h' && lo' <= lo && hi <= hi' < |h'|
    ensures TrailFits(h', lo', hi', site, r, destination, t, answer)
  {
    PreparedStays(h, h', lo, lo', hi, hi', site, r, destination, t);
    WaitRunStays(h, h', t.from, hi, hi', t.wait, t.polls, answer);
  }

  lemma HindersStays(
      reliable: bool, h: seq<Store>, h': seq<Store>, lo: nat, lo': nat, hi: nat, hi': nat,
      site: Site, r: Rowid, destination: Option<string>, why: Hindrance)
    requires Hinders(reliable, h, lo, hi, site, r, destination, why) && h <= h' && lo' <= lo && hi <= hi' < |h'|
    ensures Hinders(reliable, h', lo', hi', site, r, destination, why)
  {
    hide TrailFits;
    match why
    case NotFound(t, e) => TrailStays(h, h', lo, lo', hi, hi', site, r, destination, t, Err(e));
    case Lost(t, x, at) => TrailStays(h, h', lo, lo', hi, hi', site, r, destination, t, Ok(x));
    case _ =>
  }

  lemma PreparedLater(tr: seq<World>, tr': seq<World>, lo: nat, site: Site, r: Rowid, destination: Option<string>, t: Trail)
    requires tr != [] && tr <= tr' && Prepared(Stores(tr), lo, |tr| - 1, site, r, destination, t)
    ensures Prepared(Stores(tr'), lo, |tr'| - 1, site, r, destination, t)
  {
    hide Prepared;
    StoresGrow(tr, tr');
    PreparedStays(Stores(tr), Stores(tr'), lo, lo, |tr| - 1, |tr'| - 1, site, r, destination, t);
  }

  lemma TrailLater(
      tr: seq<World>, tr': seq<World>, lo: nat, site: Site, r: Rowid, destination: Option<string>, t: Trail, answer: Answer)
    requires tr != [] && tr <= tr' && TrailFits(Stores(tr), lo, |tr| - 1, site, r, destination, t, answer)
    ensures TrailFits(Stores(tr'), lo, |tr'| - 1, site, r, destination, t, answer)
  {
    hide TrailFits;
    StoresGrow(tr, tr');
    TrailStays(Stores(tr), Stores(tr'), lo, lo, |tr| - 1, |tr'| - 1, site, r, destination, t, answer);
  }

  lemma HindersLater(
      reliable: bool, tr: seq<World>, tr': seq<World>, lo: nat, site: Site, r: Rowid, destination: Option<string>, why: Hindrance)
    requires tr != [] && tr <= tr' && Hinders(reliable, Stores(tr), lo, |tr| - 1, site, r, destination, why)
    ensures Hinders(reliable, Stores(tr'), lo, |tr'| - 1, site, r, destination, why)
  {
    hide Hinders;
    StoresGrow(tr, tr');
    HindersStays(reliable, Stores(tr), Stores(tr'), lo, lo, |tr| - 1, |tr'| - 1, site, r, destination, why);
  }

  /** The last statement of the wait, which settles the answer. */
  function WaitEnd(t: Trail): nat {
    if t.polls == [] then t.from else EndOf(t.polls[|t.polls| - 1])
  }

  /** From the first statement of the snapshot to the last one of the wait no row but `moved` entered the
      account, and while its rowids were being listed none was refiled to a mailbox read earlier.
      What happens later, further moves into the same account included, is of no account. */
  ghost predicate Undisturbed(h: seq<Store>, t: Trail, moved: Rowid) {
    && t.start <= t.snapped < |h| && WaitEnd(t) < |h|
    && OnlyEntrant(h, t.start, WaitEnd(t), t.wait.boxes, moved)
    && forall r :: Stays(h, t.start, t.snapped, t.wait.boxes, r) ==> MovesForward(h, t.start, t.snapped, t.wait.boxes, r)
  }

  ghost predicate NamesTheMoved(h: seq<Store>, t: Trail, x: Rowid) {
    forall moved :: Undisturbed(h, t, moved) ==> x == moved
  }

  lemma TrailSound(h: seq<Store>, lo: nat, site: Site, r: Rowid, destination: Option<string>, t: Trail, x: Rowid)
    requires h != [] && TrailFits(h, lo, |h| - 1, site, r, destination, t, Ok(x))
    requires forall a :: Distinct(site.boxesOf(a))
    ensures NamesTheMoved(h, t, x)
  {
    hide Polling, Swept, Reads, MovesForward;
    var p, e := t.polls[|t.polls| - 1], WaitEnd(t);
    AnswerIsLone(h, t.from, |h| - 1, t.wait, t.polls, x);
    LoneIsAnswered(h, t.from, e, t.wait, p.checked, p.when, x);
    forall moved | Undisturbed(h, t, moved) ensures x == moved {
      RelocationSound(h, t.start, t.snapped, t.from, e, t.taken, t.wait, [Gone(p.checked, p.when, false)], x, moved);
    }
  }

  /** Resolving a message, with the reason why it could not be. */
  method ReadMessage(host: Host, site: Site, r: Rowid, ghost destination: Option<string>)
    returns (m: Option<(Doc, Row)>, ghost why: Hindrance)
    requires host.Valid()
    modifies host`store, host`trace
    ensures host.Watched()
    ensures m.Some? ==> Reads(host.store, site.scope, r, m.value.0) && m.value.1 == host.store.rows[r] && 1 <= r <= host.store.seqno
    ensures m.None? ==> Hinders(host.reliable, Stores(host.trace), |old(host.trace)| - 1, |host.trace| - 1, site, r, destination, why)
    ensures why.Outage? || why.Unread?
  {
    hide IsRun, Init, Inv, OpenSince, Evolves, OutcomeOf, Refuses;
    m := ResolveMessage(host, site.scope, r);
    host.StoreValid();
    why := if host.reliable then Unread(|host.trace| - 1) else Outage;
  }

  /** `resolve_and_address`. */
  method Address(host: Host, site: Site, r: Rowid, ghost destination: Option<string>) returns (m: Option<Doc>, ghost why: Hindrance)
    requires host.Valid()
    modifies host`store, host`trace
    ensures host.Watched()
    ensures m.Some? ==> Reads(host.store, site.scope, r, m.value) && site.addressable(m.value) && r <= host.store.seqno
    ensures m.None? ==> Hinders(host.reliable, Stores(host.trace), |old(host.trace)| - 1, |host.trace| - 1, site, r, destination, why)
    ensures why.Outage? || why.Unread? || why.Unaddressable?
  {
    hide IsRun, Init, Inv, OpenSince, Evolves, Reads;
    var found;
    found, why := ReadMessage(host, site, r, destination);
    if found.None? { return None, why; }
    if !site.addressable(found.value.0) {
      why := Unaddressable(|host.trace| - 1, found.value.0);
      return None, why;
    }
    m := Some(found.value.0);
  }

  /** `prepare_relocate`, after the destination, if any, has been resolved. */
  method Prepare(host: Host, site: Site, r: Rowid, destination: Option<string>)
    returns (w: Option<(Doc, Wait)>, ghost t: Trail, ghost why: Hindrance)
    requires host.Valid()
    modifies host`store, host`trace
    ensures host.Watched()
    ensures w.Some? ==> Prepared(Stores(host.trace), |old(host.trace)| - 1, |host.trace| - 1, site, r, destination, t)
    ensures w.Some? ==> t.message == w.value.0 && t.wait == w.value.1 && t.snapped < |host.trace| && r <= host.store.seqno
    ensures w.None? ==> Hinders(host.reliable, Stores(host.trace), |old(host.trace)| - 1, |host.trace| - 1, site, r, destination, why)
  {
    hide IsRun, Init, Inv, OpenSince, Evolves, TrailFits, Swept, Reads, Schedule;
    host.StoreValid();
    t, why := *, NoSuchMailbox;
    if destination.Some? && site.accountAt(destination.value).None? { return None, t, why; }
    var doc;
    doc, why := Address(host, site, r, destination);
    if doc.None? { return None, t, why; }
    ghost var sighted: nat := |host.trace| - 1;
    var account := if destination.Some? then site.accountAt(destination.value).value else doc.value.account;
    ghost var read := host.store;
    var before, taken := AccountSnapshot(host, site.boxesOf(account));
    if before.Err? { return None, t, Outage; }
    SeqnoGrows(read, host.store);
    w := Some((doc.value, Wait(site.boxesOf(account), before.value, r)));
    t := Trail(sighted, doc.value, account, sighted, taken, |host.trace| - 1, w.value.1, 0, []);
  }

  lemma SeqnoGrows(s: Store, s': Store)
    requires Evolves(s, s')
    ensures s.seqno <= s'.seqno
  {
  }

  /** The wait itself, on the trail of what was prepared. */
  method Follow(host: Host, clock: Clock, site: Site, w: Wait, ghost lo: nat, ghost destination: Option<string>, ghost t: Trail)
    returns (r: Answer, ghost t': Trail)
    requires host.Valid() && lo < |host.trace| && w == t.wait && w.oldRow <= host.store.seqno
    requires Prepared(Stores(host.trace), lo, |host.trace| - 1, site, w.oldRow, destination, t)
    modifies host`store, host`trace, clock
    ensures host.Watched()
    ensures TrailFits(Stores(host.trace), lo, |host.trace| - 1, site, w.oldRow, destination, t', r)
    ensures t' == t.(from := |old(host.trace)| - 1, polls := t'.polls)
    ensures r == Err(Database) ==> !host.reliable
    ensures r.Ok? ==> r.value != w.oldRow && w.oldRow !in host.store.rows && w.oldRow <= host.store.seqno
  {
    hide IsRun, Init, Inv, OpenSince, Evolves, WaitRun, Prepared, TrailFits;
    host.StoreValid();
    ghost var h := Stores(host.trace);
    var turns;
    ghost var polls;
    r, turns, polls := WaitForRelocated(host, clock, w);
    t' := t.(from := |h| - 1, polls := polls);
    TrailComplete(h, Stores(host.trace), lo, |h| - 1, |host.trace| - 1, site, w.oldRow, destination, t, polls, r);
    if r.Ok? {
      AnswerFacts(host, |h| - 1, w, polls, r.value);
    }
  }

  lemma TrailComplete(
      h: seq<Store>, h': seq<Store>, lo: nat, hi: nat, hi': nat, site: Site, r: Rowid, destination: Option<string>,
      t: Trail, polls: seq<Poll>, answer: Answer)
    requires Prepared(h, lo, hi, site, r, destination, t) && h <= h' && hi <= hi' < |h'|
    requires WaitRun(h', hi, hi', t.wait, polls, answer)
    ensures TrailFits(h', lo, hi', site, r, destination, t.(from := hi, polls := polls), answer)
  {
    PreparedStays(h, h', lo, lo, hi, hi', site, r, destination, t);
  }

  /** `finish_relocate_with_writer`: waits, resolves the new row, and only then stages anything. */
  method FinishRelocate(host: Host, clock: Clock, site: Site, w: Wait, ghost lo: nat, ghost destination: Option<string>, ghost t: Trail)
    returns (r: Result<Doc, AmxError>, ghost t': Trail, ghost at: nat, ghost why: Hindrance)
    requires host.Valid() && host.phase.Mutating? && lo < |host.trace| && w == t.wait && w.oldRow <= host.store.seqno
    requires Prepared(Stores(host.trace), lo, |host.trace| - 1, site, w.oldRow, destination, t)
    modifies host`store, host`trace, host`phase, host`log, host`dead, clock
    ensures host.Proceeded() && host.phase.Mutating?
    ensures t' == t.(from := |old(host.trace)| - 1, polls := t'.polls)
    ensures r.Ok? ==> TrailFits(Stores(host.trace), lo, |host.trace| - 1, site, w.oldRow, destination, t', Ok(r.value.rowid))
    ensures r.Ok? ==> lo <= at < |host.trace| && Reads(Stores(host.trace)[at], site.scope, r.value.rowid, r.value)
    ensures r.Ok? ==> !host.dead && r.value.rowid != w.oldRow
    ensures r.Ok? ==> host.Staged() == (old(host.Staged()) - {w.oldRow})[r.value.rowid := r.value]
    ensures r.Err? && !host.dead ==> host.Staged() == old(host.Staged())
    ensures r.Err? && !host.dead ==> Hinders(host.reliable, Stores(host.trace), lo, |host.trace| - 1, site, w.oldRow, destination, why)
    ensures (old(host.dead) ==> host.dead) && (host.reliable && !old(host.dead) ==> !host.dead)
  {
    hide IsRun, Init, Inv, OpenSince, Evolves, AsMap, ApplyAll, Prepared, TrailFits, Reads, Refuses, Unreadable;
    host.StoreValid();
    at := 0;
    var found;
    found, t' := Follow(host, clock, site, w, lo, destination, t);
    if found.Err? {
      why := if found == Err(Database) then Outage else NotFound(t', found.error);
      return Err(Failed), t', at, why;
    }
    ghost var tr, gone := host.trace, host.store;
    var m := ResolveMessage(host, site.scope, found.value);
    at := |host.trace| - 1;
    TrailLater(tr, host.trace, lo, site, w.oldRow, destination, t', found);
    why := if host.reliable then Lost(t', found.value, at) else Outage;
    if m.None? { return Err(Failed), t', at, why; }
    OldRowStillGone(gone, host.store, w.oldRow);
    tr := host.trace;
    var ok := StageRelocation(host, w.oldRow, m.value.0);
    TrailLater(tr, host.trace, lo, site, w.oldRow, destination, t', found);
    r := if ok then Ok(m.value.0) else Err(Failed);
  }

  lemma OldRowStillGone(s: Store, s': Store, r: Rowid)
    requires Evolves(s, s') && r !in s.rows && r <= s.seqno
    ensures r !in s'.rows && r <= s'.seqno
  {
    GoneForGood(s, s', r);
  }

  lemma OutageHinders(h: seq<Store>, lo: nat, hi: nat, site: Site, r: Rowid, destination: Option<string>)
    ensures Hinders(false, h, lo, hi, site, r, destination, Outage)
  {
  }

  /** Preparing a relocation and asking Mail.app for it. */
  method RequestMove(host: Host, site: Site, r: Rowid, destination: Option<string>)
    returns (w: Option<Wait>, ghost t: Trail, ghost ask: Option<Asked>, ghost why: Hindrance)
    requires host.Valid()
    modifies host`store, host`trace, host`asked
    ensures host.Watched()
    ensures w.Some? ==> Prepared(Stores(host.trace), |old(host.trace)| - 1, |host.trace| - 1, site, r, destination, t)
    ensures w.Some? ==> w.value == t.wait && t.wait.oldRow == r && r <= host.store.seqno
    ensures w.None? ==> Hinders(host.reliable, Stores(host.trace), |old(host.trace)| - 1, |host.trace| - 1, site, r, destination, why)
    ensures host.asked == old(host.asked) + Asks(ask)
    ensures w.Some? ==> ask.Some? && ask.value.command.message == t.message && t.snapped <= ask.value.at
    ensures ask.Some? ==> SightedFor(Stores(host.trace), |old(host.trace)| - 1, site, r, ask.value)
    ensures ask.Some? ==> ask.value.at < |host.trace| && ask.value.command == Relocate(ask.value.command.message, destination)
  {
    hide IsRun, Init, Inv, OpenSince, Evolves, Hinders, Stores, Prepared, SightedFor;
    host.StoreValid();
    ghost var lo: nat := |host.trace| - 1;
    ask, w := None, None;
    var prepared;
    prepared, t, why := Prepare(host, site, r, destination);
    if prepared.None? { return; }
    ghost var tr, s := host.trace, host.store;
    var done;
    done, ask := Automate(host, Relocate(prepared.value.0, destination));
    PreparedLater(tr, host.trace, lo, site, r, destination, t);
    if ask.Some? {
      StoresGrow(tr, host.trace);
      PreparedSighted(Stores(tr), Stores(host.trace), lo, |tr| - 1, site, r, destination, t, ask.value);
    }
    w := Some(prepared.value.1);
    PreparedBoxes(Stores(host.trace), lo, |host.trace| - 1, site, r, destination, t);
    SeqnoGrows(s, host.store);
    if !done {
      w, why := None, Outage;
      OutageHinders(Stores(host.trace), lo, |host.trace| - 1, site, r, destination);
    }
  }

  // ----- the writer, and the lock it is held under -----

  /** Why the lock was not to be had: two seconds have passed, and the lock row names a live process. */
  ghost predicate HeldElsewhere(table: Lock.LockTable, clock: Clock, since: int)
    reads table, clock
  {
    && table.row.Some? && table.row.value.pid in table.alive
    && since + 2000 <= clock.now
  }

  /** `MutationWriter::open`: other processes may be at work until the lock is acquired, and not after. */
  method AcquireWriter(host: Host, table: Lock.LockTable, clock: Clock, pid: Lock.Pid, process: string)
    returns (ok: bool, ghost busy: bool)
    requires host.Valid() && host.phase.Idle? && pid in table.alive
    modifies host, table, clock
    ensures host.Proceeded() && host.asked == old(host.asked)
    ensures ok ==> host.phase.Mutating? && !host.dead && host.Staged() == AsMap(host.docs)
    ensures ok ==> |old(host.trace)| <= host.session == |host.trace| - 1 && host.trace[host.session].docs == host.docs
    ensures host.alone ==> host.docs == old(host.docs) && host.state == old(host.state) && host.quarantine == old(host.quarantine)
    ensures host.alone ==> IdleWithin(host.trace, |old(host.trace)| - 1, if ok then host.session else |host.trace|)
    ensures ok ==> WrittenSince(table, pid, process, old(clock.now))
    ensures !ok ==> host.phase.Idle?
    ensures busy ==> !ok && HeldElsewhere(table, clock, old(clock.now))
    ensures host.reliable && table.reliable ==> ok || busy
    ensures !ok && !busy && table.reliable ==> table.row == None
  {
    hide IsRun, Init, Inv, OpenSince, Evolves;
    var guard, answers, at := MutationWriter.AcquireWithRetry(table, clock, pid, process);
    host.OthersWork();
    busy := guard.Err? && guard.error.HeldBy?;
    ok := false;
    if guard.Ok? {
      ok := host.Works();
      if ok {
        host.OpenMutations();
      } else {
        var deleted := Release(table, pid);
      }
    }
  }

  lemma IdleStill(t: seq<World>, t': seq<World>, from: nat, to: nat)
    requires t <= t'
    ensures IdleWithin(t, from, to) ==> IdleWithin(t', from, to)
  {
  }

  /** The lock row is one that this process wrote at or after this time. */
  ghost predicate WrittenSince(table: Lock.LockTable, pid: Lock.Pid, process: string, from: int)
    reads table
  {
    && table.row.Some? && table.row.value == Lock.LockRow(pid, process, table.row.value.since)
    && from <= table.row.value.since
  }

  /** After a held writer the lock is free again, unless the DELETE failed: then the row this call wrote stays. */
  ghost predicate GivenBack(table: Lock.LockTable, pid: Lock.Pid, process: string, from: int, deleted: bool)
    reads table
  {
    && (table.reliable ==> deleted)
    && if deleted then table.row == None else WrittenSince(table, pid, process, from)
  }

  /** The guard is dropped; should its DELETE fail, the row stays. */
  method Release(table: Lock.LockTable, pid: Lock.Pid) returns (ghost deleted: bool)
    requires table.row.Some? && table.row.value.pid == pid
    modifies table`row
    ensures table.row == if deleted then None else old(table.row)
    ensures table.reliable ==> deleted
  {
    ghost var held := Lock.State(table.row, table.alive, map[], map[0 := pid]);
    deleted := table.Drop(pid, held, 0);
  }

  // ----- whole tools -----

  /** The old row's document has given way to the new row's, and nothing else has changed; or nothing has. */
  ghost predicate GaveWay(before: seq<Doc>, after: seq<Doc>, oldRow: Rowid, doc: Doc, published: bool) {
    if published then doc.rowid != oldRow && AsMap(after) == (AsMap(before) - {oldRow})[doc.rowid := doc]
    else after == before
  }

  /** Finishing under an open writer, and the commit. */
  method CommitRelocation(host: Host, clock: Clock, site: Site, w: Wait, ghost lo: nat, ghost destination: Option<string>, ghost t: Trail)
    returns (r: Result<Rowid, AmxError>, ghost t': Trail, ghost doc: Doc, ghost at: nat, ghost published: bool, ghost why: Hindrance)
    requires host.Valid() && host.phase.Mutating? && !host.dead && host.Staged() == AsMap(host.docs)
    requires lo < |host.trace| && w == t.wait && w.oldRow <= host.store.seqno
    requires Prepared(Stores(host.trace), lo, |host.trace| - 1, site, w.oldRow, destination, t)
    modifies host, clock
    ensures host.Proceeded() && host.phase.Idle? && host.state == old(host.state) && host.quarantine == old(host.quarantine)
    ensures host.asked == old(host.asked) && t' == t.(from := |old(host.trace)| - 1, polls := t'.polls)
    ensures host.session == old(host.session) && OneWriter(host.trace, host.session)
    ensures host.trace[host.session].docs == old(host.docs) && GaveWay(old(host.docs), host.docs, w.oldRow, doc, published)
    ensures published ==> lo <= at < |host.trace| && Reads(Stores(host.trace)[at], site.scope, doc.rowid, doc)
    ensures published ==> TrailFits(Stores(host.trace), lo, |host.trace| - 1, site, w.oldRow, destination, t', Ok(doc.rowid))
    ensures r.Ok? ==> published && r.value == doc.rowid
    ensures r.Err? && host.reliable ==> Hinders(true, Stores(host.trace), lo, |host.trace| - 1, site, w.oldRow, destination, why)
  {
    hide IsRun, Init, Inv, OpenSince, OneWriter, Evolves, AsMap, ApplyAll, Prepared, TrailFits, Hinders, Reads, Excused, Stores;
    host.StoreValid();
    doc, published := *, false;
    var finished;
    finished, t', at, why := FinishRelocate(host, clock, site, w, lo, destination, t);
    ghost var tr := host.trace;
    if finished.Err? {
      host.DropEdits();
      if host.reliable {
        HindersLater(true, tr, host.trace, lo, site, w.oldRow, destination, why);
      }
      return Err(Failed), t', doc, at, published, why;
    }
    doc := finished.value;
    var committed;
    committed, published := host.CommitMutations();
    TrailLater(tr, host.trace, lo, site, w.oldRow, destination, t', Ok(doc.rowid));
    StoresGrow(tr, host.trace);
    r := if committed.Ok? then Ok(finished.value.rowid) else Err(Failed);
  }

  /** `finish_relocate`: opens the writer, finishes under it, commits, and gives the lock back. */
  method FinishAndCommit(
      host: Host, table: Lock.LockTable, clock: Clock, pid: Lock.Pid, process: string, site: Site, w: Wait,
      ghost lo: nat, ghost destination: Option<string>, ghost t: Trail)
    returns (
      r: Result<Rowid, AmxError>, ghost t': Trail, ghost doc: Doc, ghost at: nat, ghost held: bool, ghost published: bool,
      ghost busy: bool, ghost deleted: bool, ghost why: Hindrance)
    requires host.Valid() && host.phase.Idle? && lo < |host.trace| && w == t.wait && w.oldRow <= host.store.seqno
    requires Prepared(Stores(host.trace), lo, |host.trace| - 1, site, w.oldRow, destination, t) && pid in table.alive
    modifies host, table, clock
    ensures host.Proceeded() && host.phase.Idle? && host.asked == old(host.asked)
    ensures host.Bracketed(|old(host.trace)| - 1, held) && (published ==> held)
    ensures held ==> GaveWay(host.trace[host.session].docs, host.docs, w.oldRow, doc, published)
    ensures held ==> t' == t.(from := t'.from, polls := t'.polls) && host.session <= t'.from
    ensures host.alone ==>
      && GaveWay(old(host.docs), host.docs, w.oldRow, doc, published)
      && host.state == old(host.state) && host.quarantine == old(host.quarantine)
    ensures published ==> lo <= at < |host.trace| && Reads(Stores(host.trace)[at], site.scope, doc.rowid, doc)
    ensures published ==> TrailFits(Stores(host.trace), lo, |host.trace| - 1, site, w.oldRow, destination, t', Ok(doc.rowid))
    ensures held ==> GivenBack(table, pid, process, old(clock.now), deleted)
    ensures r.Ok? ==> published && r.value == doc.rowid
    ensures busy ==> r.Err? && !held && HeldElsewhere(table, clock, old(clock.now))
    ensures !held && !busy && table.reliable ==> table.row == None
    ensures r.Err? && host.reliable && table.reliable && !busy ==>
      Hinders(true, Stores(host.trace), lo, |host.trace| - 1, site, w.oldRow, destination, why)
  {
    hide IsRun, Init, Inv, OpenSince, Evolves, AsMap, Prepared, TrailFits, Hinders, Reads, Stores, HeldElsewhere;
    host.StoreValid();
    t', doc, at, published, deleted, why := t, *, 0, false, false, Outage;
    ghost var tr, s := host.trace, host.store;
    var ok;
    ok, busy := AcquireWriter(host, table, clock, pid, process);
    held := ok;
    if !ok { return Err(Failed), t', doc, at, held, published, busy, deleted, why; }
    ghost var open := host.trace;
    PreparedLater(tr, host.trace, lo, site, w.oldRow, destination, t);
    SeqnoGrows(s, host.store);
    r, t', doc, at, published, why := CommitRelocation(host, clock, site, w, lo, destination, t);
    IdleStill(open, host.trace, |old(host.trace)| - 1, host.session);
    deleted := Release(table, pid);
  }

  /** A whole move or trash, as the single-message tools run it: prepare, ask Mail.app, and only then open
      the writer, finish and commit. Of all that this does to the index, the old row's document gives way
      to the new row's, or nothing changes; and if nothing disturbed the account from the snapshot to the
      last poll, the new row is the moved message's. */
  method RelocateMessage(
      host: Host, table: Lock.LockTable, clock: Clock, pid: Lock.Pid, process: string, site: Site,
      oldRow: Rowid, destination: Option<string>)
    returns (
      r: Result<Rowid, AmxError>, ghost t: Trail, ghost doc: Doc, ghost at: nat, ghost held: bool, ghost published: bool,
      ghost busy: bool, ghost deleted: bool, ghost ask: Option<Asked>, ghost why: Hindrance)
    requires host.Valid() && host.phase.Idle? && pid in table.alive && forall a :: Distinct(site.boxesOf(a))
    modifies host, table, clock
    ensures host.Proceeded() && host.phase.Idle? && Unique(host.docs)
    ensures host.Bracketed(|old(host.trace)| - 1, held) && (published ==> held)
    ensures held ==> GaveWay(host.trace[host.session].docs, host.docs, oldRow, doc, published)
    ensures host.alone ==>
      && GaveWay(old(host.docs), host.docs, oldRow, doc, published)
      && host.state == old(host.state) && host.quarantine == old(host.quarantine)
    ensures published ==> at < |host.trace| && Reads(Stores(host.trace)[at], site.scope, doc.rowid, doc)
    ensures published ==>
      && TrailFits(Stores(host.trace), |old(host.trace)| - 1, |host.trace| - 1, site, oldRow, destination, t, Ok(doc.rowid))
      && NamesTheMoved(Stores(host.trace), t, doc.rowid)
    ensures host.asked == old(host.asked) + Asks(ask)
    ensures held ==> ask.Some? && ask.value.command.message == t.message && t.snapped <= ask.value.at < host.session <= t.from
    ensures ask.Some? ==>
      && SightedFor(Stores(host.trace), |old(host.trace)| - 1, site, oldRow, ask.value)
      && ask.value.command == Relocate(ask.value.command.message, destination)
    ensures r.Ok? ==> published && r.value == doc.rowid
    ensures held ==> GivenBack(table, pid, process, old(clock.now), deleted)
    ensures busy ==> r.Err? && !held && HeldElsewhere(table, clock, old(clock.now))
    ensures !held && !busy && table.reliable ==> table.row == None || table.row == old(table.row)
    ensures r.Err? && host.reliable && table.reliable && !busy ==>
      Hinders(true, Stores(host.trace), |old(host.trace)| - 1, |host.trace| - 1, site, oldRow, destination, why)
  {
    hide IsRun, Init, Inv, OpenSince, Evolves, AsMap, ApplyAll, Prepared, TrailFits, Hinders, Reads, NamesTheMoved, Stores, SightedFor;
    host.StoreValid();
    ghost var lo: nat := |host.trace| - 1;
    doc, at, held, published, busy, deleted := *, 0, false, false, false, false;
    var w;
    w, t, ask, why := RequestMove(host, site, oldRow, destination);
    host.StoreValid();
    if w.None? { return Err(Failed), t, doc, at, held, published, busy, deleted, ask, why; }
    ghost var tr := host.trace;
    r, t, doc, at, held, published, busy, deleted, why :=
      FinishAndCommit(host, table, clock, pid, process, site, w.value, lo, destination, t);
    host.StoreValid();
    StoresGrow(tr, host.trace);
    SightedStays(Stores(tr), Stores(host.trace), lo, lo, site, oldRow, ask.value);
    if published {
      TrailSound(Stores(host.trace), lo, site, oldRow, destination, t, doc.rowid);
    }
  }

  /** No ghost results, in terms of the bag of documents a search looks through: the old rowid has none, the
      new one exactly the new document, and every other document is there or not as before. */
  lemma NoGhostResults(before: seq<Doc>, after: seq<Doc>, oldRow: Rowid, doc: Doc)
    requires Unique(before) && Unique(after) && GaveWay(before, after, oldRow, doc, true)
    ensures doc in after && forall i, j :: 0 <= i < j < |after| ==> after[i].rowid != after[j].rowid
    ensures forall d :: d in after && d.rowid == doc.rowid ==> d == doc
    ensures forall d :: d in after ==> d.rowid != oldRow
    ensures forall d: Doc :: d.rowid != oldRow && d.rowid != doc.rowid ==> (d in after <==> d in before)
  {
    UniqueMeaning(after);
    forall d: Doc ensures d in after <==> d.rowid in AsMap(after) && AsMap(after)[d.rowid] == d {
      MemberMeaning(after, d);
    }
    forall d: Doc ensures d in before <==> d.rowid in AsMap(before) && AsMap(before)[d.rowid] == d {
      MemberMeaning(before, d);
    }
  }

  lemma PreparedSighted(
      h: seq<Store>, h': seq<Store>, lo: nat, hi: nat, site: Site, r: Rowid, destination: Option<string>, t: Trail, a: Asked)
    requires Prepared(h, lo, hi, site, r, destination, t) && a.command.message == t.message && h <= h' && hi <= a.at < |h'|
    ensures SightedFor(h', lo, site, r, a)
  {
    hide Reads, Swept;
    SightedBy(h', lo, site, r, a, t.sighted);
  }

  lemma PreparedBoxes(h: seq<Store>, lo: nat, hi: nat, site: Site, r: Rowid, destination: Option<string>, t: Trail)
    requires Prepared(h, lo, hi, site, r, destination, t)
    ensures t.wait.boxes == site.boxesOf(t.account) && t.wait.oldRow == r
  {
  }
}
