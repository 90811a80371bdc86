/** Applying a frozen triage plan: one writer, every item attempted whatever became of the others,
    one commit. */
module Triage {
  import opened Wrappers
  import opened MailStore
  import opened OpLog
  import opened Indexing
  import opened SyncProtocol
  import opened SyncEngine
  import opened Clocks
  import opened Mutations
  import opened AccountReads
  import opened Relocate
  import Plan = TriagePlan

  /** What applying the operation to one row came to, with the instants that show it: nothing
      staged; the row reindexed, and whether the change had landed by then; or the message found
      again under a new rowid. */
  datatype Effect =
    | Untouched(why: Hindrance)
    | Reindexed(doc: Doc, at: nat, confirmed: bool)
    | Relocated(doc: Doc, at: nat, trail: Trail)

  datatype ItemOutcome = Success | Skipped | Failed

  datatype ItemResult = ItemResult(rowid: Rowid, outcome: ItemOutcome)

  function EffectEdits(r: Rowid, e: Effect): seq<Edit> {
    match e
    case Untouched(_) => []
    case Reindexed(doc, _, _) => [Upsert(doc)]
    case Relocated(doc, _, _) => [Remove(r), Upsert(doc)]
  }

  predicate Succeeded(e: Effect) {
    e.Relocated? || (e.Reindexed? && e.confirmed)
  }

  function OutcomeOfItem(r: Rowid, excluded: set<Rowid>, e: Effect): ItemOutcome {
    if r in excluded then Skipped else if Succeeded(e) then Success else ItemOutcome.Failed
  }

  predicate SetsFlag(op: Plan.Operation) {
    op.SetReadState? || op.SetFlag?
  }

  function DestinationOf(op: Plan.Operation): Option<string> {
    if op.Move? then Some(op.destination) else None
  }

  predicate Landed(op: Plan.Operation, row: Row) {
    match op
    case SetReadState(read) => row.read == read
    case SetFlag(flagged) => row.flagged == flagged
    case _ => false
  }

  /** The effect is borne out by what the store went through: a reindexed row was read as its document,
      and with the flag in question, at one instant; a relocated one was waited for and then
      read under its new rowid; and where nothing was done something stood in the way. */
  ghost predicate Explained(reliable: bool, h: seq<Store>, lo: nat, hi: nat, site: Site, op: Plan.Operation, r: Rowid, e: Effect) {
    match e
    case Untouched(why) =>
      Hinders(reliable, h, lo, hi, site, r, DestinationOf(op), why) && (SetsFlag(op) ==> !why.NotFound? && !why.Lost?)
    case Reindexed(doc, at, confirmed) =>
      && SetsFlag(op) && lo <= at <= hi < |h|
      && Reads(h[at], site.scope, r, doc) && (confirmed <==> Landed(op, h[at].rows[r]))
    case Relocated(doc, at, t) =>
      && !SetsFlag(op) && doc.rowid != r && lo <= at <= hi < |h|
      && Reads(h[at], site.scope, doc.rowid, doc) && TrailFits(h, lo, hi, site, r, DestinationOf(op), t, Ok(doc.rowid))
  }

  lemma ExplainedLater(
      reliable: bool, tr: seq<World>, tr': seq<World>, lo: nat, lo': nat, site: Site, op: Plan.Operation, r: Rowid, e: Effect)
    requires tr != [] && tr <= tr' && lo' <= lo && Explained(reliable, Stores(tr), lo, |tr| - 1, site, op, r, e)
    ensures Explained(reliable, Stores(tr'), lo', |tr'| - 1, site, op, r, e)
  {
    hide Hinders, TrailFits;
    StoresGrow(tr, tr');
    match e
    case Untouched(why) =>
      HindersStays(reliable, Stores(tr), Stores(tr'), lo, lo', |tr| - 1, |tr'| - 1, site, r, DestinationOf(op), why);
    case Reindexed(_, _, _) =>
    case Relocated(doc, _, t) =>
      TrailStays(Stores(tr), Stores(tr'), lo, lo', |tr| - 1, |tr'| - 1, site, r, DestinationOf(op), t, Ok(doc.rowid));
  }

  lemma UntouchedFor(
      reliable: bool, tr: seq<World>, from: nat, lo: nat, site: Site, op: Plan.Operation, r: Rowid, why: Hindrance)
    requires tr != [] && lo <= from && Hinders(reliable, Stores(tr), from, |tr| - 1, site, r, DestinationOf(op), why)
    requires SetsFlag(op) ==> !why.NotFound? && !why.Lost?
    ensures Explained(reliable, Stores(tr), lo, |tr| - 1, site, op, r, Untouched(why))
  {
    hide Hinders;
    HindersStays(reliable, Stores(tr), Stores(tr), from, lo, |tr| - 1, |tr| - 1, site, r, DestinationOf(op), why);
  }

  lemma RelocatedFor(
      reliable: bool, h: seq<Store>, lo: nat, hi: nat, site: Site, op: Plan.Operation, r: Rowid, doc: Doc, at: nat, t: Trail)
    requires !SetsFlag(op) && doc.rowid != r && lo <= at <= hi < |h| && Reads(h[at], site.scope, doc.rowid, doc)
    requires TrailFits(h, lo, hi, site, r, DestinationOf(op), t, Ok(doc.rowid))
    ensures Explained(reliable, h, lo, hi, site, op, r, Relocated(doc, at, t))
  {
  }

  // ----- what Mail.app is asked -----

  /** The command that the operation calls for. */
  predicate CallsFor(op: Plan.Operation, c: Command) {
    match op
    case SetReadState(read) => c.MarkRead? && c.read == read
    case SetFlag(flagged) => c.MarkFlagged? && c.flagged == flagged
    case Move(destination) => c.Relocate? && c.destination == Some(destination)
    case Trash => c.Relocate? && c.destination == None
  }

  /** Mail.app was asked to carry out the operation on a message that the row was read as before. */
  ghost predicate AskFits(h: seq<Store>, lo: nat, site: Site, op: Plan.Operation, r: Rowid, ask: Option<Asked>) {
    ask.Some? ==> SightedFor(h, lo, site, r, ask.value) && CallsFor(op, ask.value.command)
  }

  /** Nothing comes of an item that Mail.app was not asked about: a row is reindexed after asking, and the wait for
      a relocated one begins after asking, the snapshot having been taken before. */
  predicate ComesOf(e: Effect, ask: Option<Asked>) {
    match e
    case Untouched(_) => true
    case Reindexed(_, at, _) => ask.Some? && ask.value.at <= at
    case Relocated(_, _, t) => ask.Some? && ask.value.command.message == t.message && t.snapped <= ask.value.at <= t.from
  }

  lemma AskFitsLater(
      h: seq<Store>, h': seq<Store>, lo: nat, lo': nat, site: Site, op: Plan.Operation, r: Rowid, ask: Option<Asked>)
    requires AskFits(h, lo, site, op, r, ask) && h <= h' && lo' <= lo
    ensures AskFits(h', lo', site, op, r, ask)
  {
    hide SightedFor;
    if ask.Some? {
      SightedStays(h, h', lo, lo', site, r, ask.value);
    }
  }

  // ----- one item -----

  lemma OneEdit(m: map<Rowid, Doc>, a: Edit)
    ensures EditAll(m, [a]) == EditMap(m, a)
  {
    assert [a][..0] == [];
  }

  lemma TwoEdits(m: map<Rowid, Doc>, a: Edit, b: Edit)
    ensures EditAll(m, [a, b]) == EditMap(EditMap(m, a), b)
  {
    assert [a, b][..1] == [a];
    OneEdit(m, a);
  }

  /** Addressing the message and asking Mail.app to change it. */
  method Request(host: Host, site: Site, op: Plan.Operation, r: Rowid) returns (ok: bool, ghost ask: Option<Asked>, ghost why: Hindrance)
    requires host.Valid() && SetsFlag(op)
    modifies host`store, host`trace, host`asked
    ensures host.Watched() && host.asked == old(host.asked) + Asks(ask) && (ok ==> ask.Some?)
    ensures AskFits(Stores(host.trace), |old(host.trace)| - 1, site, op, r, ask) && (ask.Some? ==> ask.value.at < |host.trace|)
    ensures !ok ==> Hinders(host.reliable, Stores(host.trace), |old(host.trace)| - 1, |host.trace| - 1, site, r, None, why)
    ensures !why.NotFound? && !why.Lost?
  {
    hide IsRun, Init, Inv, OpenSince, Evolves, Reads, Hinders, Stores, SightedFor;
    host.StoreValid();
    ghost var lo: nat := |host.trace| - 1;
    var m;
    ask := None;
    m, why := Address(host, site, r, None);
    if m.None? { return false, ask, why; }
    ghost var tr := host.trace;
    ok, ask := Automate(host, if op.SetReadState? then MarkRead(m.value, op.read) else MarkFlagged(m.value, op.flagged));
    why := Outage;
    if ask.Some? {
      NowSighted(tr, host.trace, lo, site, r, ask.value);
    }
    if !ok {
      OutageHinders(Stores(host.trace), lo, |host.trace| - 1, site, r, None);
    }
  }

  lemma NowSighted(tr: seq<World>, tr': seq<World>, lo: nat, site: Site, r: Rowid, a: Asked)
    requires lo < |tr| && tr <= tr' && Reads(tr[|tr| - 1].store, site.scope, r, a.command.message)
    requires site.addressable(a.command.message) && |tr| - 1 <= a.at < |tr'|
    ensures SightedFor(Stores(tr'), lo, site, r, a)
  {
    hide Reads;
    SightedBy(Stores(tr'), lo, site, r, a, |tr| - 1);
  }

  /** Asking Mail.app, and reading the row again. */
  method RequestAndRead(host: Host, site: Site, op: Plan.Operation, r: Rowid)
    returns (got: Option<(Doc, Row)>, ghost e: Effect, ghost ask: Option<Asked>)
    requires host.Valid() && host.phase.Mutating? && SetsFlag(op)
    modifies host`store, host`trace, host`asked
    ensures host.Watched() && host.asked == old(host.asked) + Asks(ask) && ComesOf(e, ask)
    ensures AskFits(Stores(host.trace), |old(host.trace)| - 1, site, op, r, ask)
    ensures Explained(host.reliable, Stores(host.trace), |old(host.trace)| - 1, |host.trace| - 1, site, op, r, e)
    ensures got.None? ==> e.Untouched?
    ensures got.Some? ==> e.Reindexed? && e.doc == got.value.0 && (e.confirmed <==> Landed(op, got.value.1))
    ensures got.Some? ==> 1 <= got.value.0.rowid <= host.store.seqno
  {
    hide IsRun, Init, Inv, OpenSince, Evolves, Reads, Hinders, Stores, Explained, AskFits;
    host.StoreValid();
    ghost var lo: nat := |host.trace| - 1;
    got := None;
    var done;
    ghost var why;
    done, ask, why := Request(host, site, op, r);
    e := Untouched(why);
    if !done {
      UntouchedFor(host.reliable, host.trace, lo, lo, site, op, r, why);
      return;
    }
    ghost var from: nat, tr := |host.trace| - 1, host.trace;
    got, why := ReadMessage(host, site, r, None);
    AskLater(tr, host.trace, lo, site, op, r, ask);
    if got.None? {
      e := Untouched(why);
      UntouchedFor(host.reliable, host.trace, from, lo, site, op, r, why);
    } else {
      e := Reindexed(got.value.0, |host.trace| - 1, Landed(op, got.value.1));
      ReindexedNow(host, site, op, r, got.value.0, lo);
    }
  }

  /** Setting the read state or the flag: ask Mail.app, then reindex the row from its current state, and
      see whether the change is there. */
  method SetOnItem(host: Host, site: Site, op: Plan.Operation, r: Rowid) returns (ok: bool, ghost e: Effect, ghost ask: Option<Asked>)
    requires host.Valid() && host.phase.Mutating? && SetsFlag(op)
    modifies host`store, host`trace, host`phase, host`log, host`dead, host`asked
    ensures host.Proceeded() && host.phase.Mutating?
    ensures host.asked == old(host.asked) + Asks(ask) && (!host.dead ==> ComesOf(e, ask))
    ensures AskFits(Stores(host.trace), |old(host.trace)| - 1, site, op, r, ask)
    ensures (old(host.dead) ==> host.dead) && (host.reliable && !old(host.dead) ==> !host.dead)
    ensures !host.dead ==> Explained(host.reliable, Stores(host.trace), |old(host.trace)| - 1, |host.trace| - 1, site, op, r, e)
    ensures !host.dead ==> host.Staged() == EditAll(old(host.Staged()), EffectEdits(r, e)) && (ok <==> Succeeded(e))
    ensures host.dead ==> !ok
  {
    hide IsRun, Init, Inv, OpenSince, Evolves, AsMap, ApplyAll, Reads, Stores, Explained, AskFits, ComesOf, Landed;
    host.StoreValid();
    ghost var lo: nat, was := |host.trace| - 1, host.Staged();
    var got;
    got, e, ask := RequestAndRead(host, site, op, r);
    ok := false;
    if got.Some? {
      ghost var read := host.trace;
      ok := StageReindexed(host, op, r, got.value.0, got.value.1, e);
      ExplainedLater(host.reliable, read, host.trace, lo, lo, site, op, r, e);
      AskLater(read, host.trace, lo, site, op, r, ask);
    } else {
      NoEdits(was);
    }
  }

  lemma NoneAsked(h: seq<Store>, lo: nat, site: Site, op: Plan.Operation, r: Rowid)
    ensures AskFits(h, lo, site, op, r, None)
  {
  }

  lemma AskLater(tr: seq<World>, tr': seq<World>, lo: nat, site: Site, op: Plan.Operation, r: Rowid, ask: Option<Asked>)
    requires tr <= tr' && AskFits(Stores(tr), lo, site, op, r, ask)
    ensures AskFits(Stores(tr'), lo, site, op, r, ask)
  {
    hide AskFits;
    StoresGrow(tr, tr');
    AskFitsLater(Stores(tr), Stores(tr'), lo, lo, site, op, r, ask);
  }

  /** The upsert of a row just read. */
  method StageReindexed(host: Host, op: Plan.Operation, r: Rowid, doc: Doc, row: Row, ghost e: Effect) returns (ok: bool)
    requires host.Valid() && host.phase.Mutating? && 1 <= doc.rowid <= host.store.seqno
    requires e.Reindexed? && e.doc == doc && (e.confirmed <==> Landed(op, row))
    modifies host`trace, host`phase, host`log, host`dead
    ensures host.Valid() && old(host.trace) <= host.trace && host.phase.Mutating?
    ensures (old(host.dead) ==> host.dead) && (host.reliable && !old(host.dead) ==> !host.dead)
    ensures !host.dead ==> host.Staged() == EditAll(old(host.Staged()), EffectEdits(r, e)) && (ok <==> Succeeded(e))
    ensures host.dead ==> !ok
  {
    hide IsRun, Init, Inv, OpenSince, Evolves, AsMap, ApplyAll;
    ReindexEdits(host.Staged(), r, e);
    hide EffectEdits, EditAll, Landed;
    var staged := host.UpsertDocument(doc);
    ok := staged && Landed(op, row);
  }

  lemma ReindexEdits(m: map<Rowid, Doc>, r: Rowid, e: Effect)
    requires e.Reindexed?
    ensures EditAll(m, EffectEdits(r, e)) == m[e.doc.rowid := e.doc]
  {
    OneEdit(m, Upsert(e.doc));
  }

  lemma ReindexedNow(host: Host, site: Site, op: Plan.Operation, r: Rowid, doc: Doc, lo: nat)
    requires host.Valid() && SetsFlag(op) && lo < |host.trace| && Reads(host.store, site.scope, r, doc)
    ensures var e := Reindexed(doc, |host.trace| - 1, Landed(op, host.store.rows[r]));
      Explained(host.reliable, Stores(host.trace), lo, |host.trace| - 1, site, op, r, e) && doc.rowid == r
  {
    hide IsRun, Init, Inv, OpenSince;
  }

  lemma MoveAskFits(h: seq<Store>, lo: nat, site: Site, op: Plan.Operation, r: Rowid, ask: Option<Asked>)
    requires !SetsFlag(op)
    requires ask.Some? ==>
      && SightedFor(h, lo, site, r, ask.value) && ask.value.command == Relocate(ask.value.command.message, DestinationOf(op))
    ensures AskFits(h, lo, site, op, r, ask)
  {
    hide SightedFor;
  }

  /** A move or a trash: ask Mail.app, and finish under the batch's writer. */
  method MoveItem(host: Host, clock: Clock, site: Site, op: Plan.Operation, r: Rowid)
    returns (ok: bool, ghost e: Effect, ghost ask: Option<Asked>)
    requires host.Valid() && host.phase.Mutating? && !SetsFlag(op)
    modifies host`store, host`trace, host`phase, host`log, host`dead, host`asked, clock
    ensures host.Proceeded() && host.phase.Mutating?
    ensures host.asked == old(host.asked) + Asks(ask) && (!host.dead ==> ComesOf(e, ask))
    ensures AskFits(Stores(host.trace), |old(host.trace)| - 1, site, op, r, ask)
    ensures (old(host.dead) ==> host.dead) && (host.reliable && !old(host.dead) ==> !host.dead)
    ensures !host.dead ==> Explained(host.reliable, Stores(host.trace), |old(host.trace)| - 1, |host.trace| - 1, site, op, r, e)
    ensures !host.dead ==> host.Staged() == EditAll(old(host.Staged()), EffectEdits(r, e)) && (ok <==> Succeeded(e))
    ensures host.dead ==> !ok
  {
    hide IsRun, Init, Inv, OpenSince, Evolves, AsMap, ApplyAll, Reads, Hinders, Stores, Prepared, TrailFits, Explained, AskFits, SightedFor;
    host.StoreValid();
    ghost var lo: nat, was := |host.trace| - 1, host.Staged();
    var w;
    ghost var t, why;
    w, t, ask, why := RequestMove(host, site, r, DestinationOf(op));
    e := Untouched(why);
    MoveAskFits(Stores(host.trace), lo, site, op, r, ask);
    if w.None? {
      UntouchedFor(host.reliable, host.trace, lo, lo, site, op, r, why);
      return false, e, ask;
    }
    ghost var tr := host.trace;
    var finished;
    ghost var at;
    finished, t, at, why := FinishRelocate(host, clock, site, w.value, lo, DestinationOf(op), t);
    AskLater(tr, host.trace, lo, site, op, r, ask);
    ok := finished.Ok?;
    if ok {
      e := Relocated(finished.value, at, t);
      TwoEdits(was, Remove(r), Upsert(finished.value));
      RelocatedFor(host.reliable, Stores(host.trace), lo, |host.trace| - 1, site, op, r, finished.value, at, t);
    } else if !host.dead {
      e := Untouched(why);
      UntouchedFor(host.reliable, host.trace, lo, lo, site, op, r, why);
    }
  }

  /** `apply_triage_item`: whatever goes wrong is the item's own failure. */
  method ApplyItem(host: Host, clock: Clock, site: Site, op: Plan.Operation, r: Rowid)
    returns (ok: bool, ghost e: Effect, ghost ask: Option<Asked>)
    requires host.Valid() && host.phase.Mutating?
    modifies host`store, host`trace, host`phase, host`log, host`dead, host`asked, clock
    ensures host.Proceeded() && host.phase.Mutating?
    ensures host.asked == old(host.asked) + Asks(ask) && (!host.dead ==> ComesOf(e, ask))
    ensures AskFits(Stores(host.trace), |old(host.trace)| - 1, site, op, r, ask)
    ensures (old(host.dead) ==> host.dead) && (host.reliable && !old(host.dead) ==> !host.dead)
    ensures !host.dead ==> Explained(host.reliable, Stores(host.trace), |old(host.trace)| - 1, |host.trace| - 1, site, op, r, e)
    ensures !host.dead ==> host.Staged() == EditAll(old(host.Staged()), EffectEdits(r, e)) && (ok <==> Succeeded(e))
    ensures host.dead ==> !ok
  {
    hide IsRun, Init, Inv, OpenSince, Evolves, AsMap, ApplyAll, Explained, Stores, AskFits;
    if SetsFlag(op) {
      ok, e, ask := SetOnItem(host, site, op, r);
    } else {
      ok, e, ask := MoveItem(host, clock, site, op, r);
    }
  }

  // ----- the batch -----

  /** The edits of a whole batch, in order; excluded rows contribute none. */
  function BatchEdits(rowids: seq<Rowid>, excluded: set<Rowid>, effects: seq<Effect>): seq<Edit>
    requires |effects| == |rowids|
  {
    if rowids == [] then []
    else
      var n := |rowids| - 1;
      BatchEdits(rowids[..n], excluded, effects[..n])
      + if rowids[n] in excluded then [] else EffectEdits(rowids[n], effects[n])
  }

  /** Every item that was not excluded has an effect the store bears out. */
  ghost predicate AllExplained(
      reliable: bool, trace: seq<World>, lo: nat, site: Site, op: Plan.Operation,
      rowids: seq<Rowid>, excluded: set<Rowid>, effects: seq<Effect>)
    requires |effects| == |rowids|
  {
    && trace != []
    && forall k :: 0 <= k < |rowids| && rowids[k] !in excluded ==>
         Explained(reliable, Stores(trace), lo, |trace| - 1, site, op, rowids[k], effects[k])
  }

  lemma AllExplainedLater(
      reliable: bool, tr: seq<World>, tr': seq<World>, lo: nat, site: Site, op: Plan.Operation,
      rowids: seq<Rowid>, excluded: set<Rowid>, effects: seq<Effect>)
    requires |effects| == |rowids| && tr <= tr' && AllExplained(reliable, tr, lo, site, op, rowids, excluded, effects)
    ensures AllExplained(reliable, tr', lo, site, op, rowids, excluded, effects)
  {
    hide Explained, Stores;
    forall k | 0 <= k < |rowids| && rowids[k] !in excluded
      ensures Explained(reliable, Stores(tr'), lo, |tr'| - 1, site, op, rowids[k], effects[k])
    {
      ExplainedLater(reliable, tr, tr', lo, lo, site, op, rowids[k], effects[k]);
    }
  }

  /** The relocations of a batch follow one another: the wait of each is over before the snapshot of the next
      is begun. */
  ghost predicate InTurn(rowids: seq<Rowid>, excluded: set<Rowid>, effects: seq<Effect>)
    requires |effects| == |rowids|
  {
    forall j, k :: 0 <= j < k < |rowids| && Moved(rowids, excluded, effects, j) && Moved(rowids, excluded, effects, k) ==>
      WaitEnd(effects[j].trail) <= effects[k].trail.start
  }

  predicate Moved(rowids: seq<Rowid>, excluded: set<Rowid>, effects: seq<Effect>, k: nat)
    requires |effects| == |rowids|
  {
    k < |rowids| && rowids[k] !in excluded && effects[k].Relocated?
  }

  lemma TrailWindow(h: seq<Store>, lo: nat, hi: nat, site: Site, r: Rowid, destination: Option<string>, t: Trail, x: Rowid)
    requires TrailFits(h, lo, hi, site, r, destination, t, Ok(x))
    ensures lo <= t.start && WaitEnd(t) <= hi
  {
    hide Polling, Reads;
  }

  lemma NextTurn(
      reliable: bool, tr: seq<World>, tr': seq<World>, lo: nat, site: Site, op: Plan.Operation,
      rowids: seq<Rowid>, excluded: set<Rowid>, effects: seq<Effect>, r: Rowid, e: Effect)
    requires |effects| == |rowids| && AllExplained(reliable, tr, lo, site, op, rowids, excluded, effects)
    requires InTurn(rowids, excluded, effects) && tr' != []
    requires r !in excluded ==> Explained(reliable, Stores(tr'), |tr| - 1, |tr'| - 1, site, op, r, e)
    ensures InTurn(rowids + [r], excluded, effects + [e])
  {
    hide TrailFits, Hinders, Stores, Reads;
    var rs, es, n := rowids + [r], effects + [e], |rowids|;
    forall j, k | 0 <= j < k < |rs| && Moved(rs, excluded, es, j) && Moved(rs, excluded, es, k)
      ensures WaitEnd(es[j].trail) <= es[k].trail.start
    {
      assert Moved(rowids, excluded, effects, j);
      if k < n {
        assert Moved(rowids, excluded, effects, k);
      } else {
        assert Explained(reliable, Stores(tr), lo, |tr| - 1, site, op, rowids[j], effects[j]);
        TrailWindow(Stores(tr), lo, |tr| - 1, site, rowids[j], DestinationOf(op), effects[j].trail, effects[j].doc.rowid);
        TrailWindow(Stores(tr'), |tr| - 1, |tr'| - 1, site, r, DestinationOf(op), e.trail, e.doc.rowid);
      }
    }
  }

  /** What was asked for each row of the plan, if anything: for an excluded one, nothing. */
  ghost predicate AskedInTurn(
      trace: seq<World>, lo: nat, site: Site, op: Plan.Operation, rowids: seq<Rowid>, excluded: set<Rowid>, asks: seq<Option<Asked>>)
  {
    && |asks| == |rowids|
    && forall k :: 0 <= k < |rowids| ==>
         (rowids[k] in excluded ==> asks[k].None?) && AskFits(Stores(trace), lo, site, op, rowids[k], asks[k])
  }

  function AsksOf(asks: seq<Option<Asked>>): seq<Asked> {
    if asks == [] then [] else AsksOf(asks[..|asks| - 1]) + Asks(asks[|asks| - 1])
  }

  ghost predicate AllComeOf(rowids: seq<Rowid>, excluded: set<Rowid>, effects: seq<Effect>, asks: seq<Option<Asked>>)
    requires |effects| == |rowids|
  {
    |asks| == |rowids| && forall k :: 0 <= k < |rowids| && rowids[k] !in excluded ==> ComesOf(effects[k], asks[k])
  }

  lemma AskedMore(
      tr: seq<World>, tr': seq<World>, lo: nat, from: nat, site: Site, op: Plan.Operation,
      rowids: seq<Rowid>, excluded: set<Rowid>, asks: seq<Option<Asked>>, r: Rowid, ask: Option<Asked>)
    requires tr <= tr' && lo <= from && AskedInTurn(tr, lo, site, op, rowids, excluded, asks)
    requires AskFits(Stores(tr'), from, site, op, r, ask) && (r in excluded ==> ask.None?)
    ensures AskedInTurn(tr', lo, site, op, rowids + [r], excluded, asks + [ask])
    ensures AsksOf(asks + [ask]) == AsksOf(asks) + Asks(ask)
  {
    hide AskFits, Stores;
    AskedLater(tr, tr', lo, site, op, rowids, excluded, asks);
    AskFitsLater(Stores(tr'), Stores(tr'), from, lo, site, op, r, ask);
    assert (asks + [ask])[..|asks|] == asks;
  }

  lemma AskedLater(
      tr: seq<World>, tr': seq<World>, lo: nat, site: Site, op: Plan.Operation,
      rowids: seq<Rowid>, excluded: set<Rowid>, asks: seq<Option<Asked>>)
    requires tr <= tr' && AskedInTurn(tr, lo, site, op, rowids, excluded, asks)
    ensures AskedInTurn(tr', lo, site, op, rowids, excluded, asks)
  {
    hide AskFits, Stores;
    forall k | 0 <= k < |rowids| ensures AskFits(Stores(tr'), lo, site, op, rowids[k], asks[k]) {
      AskLater(tr, tr', lo, site, op, rowids[k], asks[k]);
    }
  }

  lemma ComeOfMore(
      rowids: seq<Rowid>, excluded: set<Rowid>, effects: seq<Effect>, asks: seq<Option<Asked>>, r: Rowid, e: Effect, ask: Option<Asked>)
    requires |effects| == |rowids| && AllComeOf(rowids, excluded, effects, asks) && (r !in excluded ==> ComesOf(e, ask))
    ensures AllComeOf(rowids + [r], excluded, effects + [e], asks + [ask])
  {
    hide ComesOf;
  }

  /** What has been done of a batch whose writer is alive. */
  ghost predicate BatchSoFar(
      host: Host, before: map<Rowid, Doc>, lo: nat, site: Site, op: Plan.Operation,
      rowids: seq<Rowid>, excluded: set<Rowid>, effects: seq<Effect>, asks: seq<Option<Asked>>, results: seq<ItemResult>)
    requires host.phase.Mutating? && |effects| == |rowids|
    reads host
  {
    && AllExplained(host.reliable, host.trace, lo, site, op, rowids, excluded, effects)
    && InTurn(rowids, excluded, effects) && AllComeOf(rowids, excluded, effects, asks)
    && host.Staged() == EditAll(before, BatchEdits(rowids, excluded, effects))
    && Reported(rowids, excluded, effects, results)
  }

  predicate Reported(rowids: seq<Rowid>, excluded: set<Rowid>, effects: seq<Effect>, results: seq<ItemResult>)
    requires |effects| == |rowids|
  {
    && |results| == |rowids|
    && forall k :: 0 <= k < |rowids| ==> results[k] == ItemResult(rowids[k], OutcomeOfItem(rowids[k], excluded, effects[k]))
  }

  lemma {:induction false} EditsConcat(m: map<Rowid, Doc>, a: seq<Edit>, b: seq<Edit>)
    ensures EditAll(m, a + b) == EditAll(EditAll(m, a), b)
  {
    if b == [] {
      assert a + b == a;
    } else {
      assert (a + b)[..|a + b| - 1] == a + b[..|b| - 1];
      EditsConcat(m, a, b[..|b| - 1]);
    }
  }

  lemma BatchGrows(m: map<Rowid, Doc>, rowids: seq<Rowid>, excluded: set<Rowid>, effects: seq<Effect>, r: Rowid, e: Effect)
    requires |effects| == |rowids|
    ensures EditAll(m, BatchEdits(rowids + [r], excluded, effects + [e]))
         == EditAll(EditAll(m, BatchEdits(rowids, excluded, effects)), if r in excluded then [] else EffectEdits(r, e))
  {
    var rs, es := rowids + [r], effects + [e];
    assert rs[..|rowids|] == rowids && es[..|rowids|] == effects;
    EditsConcat(m, BatchEdits(rowids, excluded, effects), if r in excluded then [] else EffectEdits(r, e));
  }

  lemma ReportedMore(
      rowids: seq<Rowid>, excluded: set<Rowid>, effects: seq<Effect>, results: seq<ItemResult>, r: Rowid, e: Effect)
    requires |effects| == |rowids| && Reported(rowids, excluded, effects, results)
    ensures Reported(rowids + [r], excluded, effects + [e], results + [ItemResult(r, OutcomeOfItem(r, excluded, e))])
  {
  }

  lemma AllExplainedMore(
      reliable: bool, tr: seq<World>, from: nat, lo: nat, site: Site, op: Plan.Operation,
      rowids: seq<Rowid>, excluded: set<Rowid>, effects: seq<Effect>, r: Rowid, e: Effect)
    requires |effects| == |rowids| && lo <= from && AllExplained(reliable, tr, lo, site, op, rowids, excluded, effects)
    requires r !in excluded ==> Explained(reliable, Stores(tr), from, |tr| - 1, site, op, r, e)
    ensures AllExplained(reliable, tr, lo, site, op, rowids + [r], excluded, effects + [e])
  {
    hide Explained, Stores;
    if r !in excluded {
      ExplainedLater(reliable, tr, tr, from, lo, site, op, r, e);
    }
  }

  /** One item's turn in the loop. */
  method NextItem(
      host: Host, clock: Clock, site: Site, op: Plan.Operation, r: Rowid, excluded: set<Rowid>, results: seq<ItemResult>,
      ghost before: map<Rowid, Doc>, ghost told: seq<Asked>, ghost lo: nat,
      ghost rowids: seq<Rowid>, ghost effects: seq<Effect>, ghost asks: seq<Option<Asked>>)
    returns (results': seq<ItemResult>, ghost effects': seq<Effect>, ghost asks': seq<Option<Asked>>)
    requires host.Valid() && host.phase.Mutating? && lo < |host.trace| && |effects| == |rowids|
    requires AskedInTurn(host.trace, lo, site, op, rowids, excluded, asks) && host.asked == told + AsksOf(asks)
    requires !host.dead ==> BatchSoFar(host, before, lo, site, op, rowids, excluded, effects, asks, results)
    modifies host`store, host`trace, host`phase, host`log, host`dead, host`asked, clock
    ensures host.Proceeded() && host.phase.Mutating?
    ensures (old(host.dead) ==> host.dead) && (host.reliable && !old(host.dead) ==> !host.dead)
    ensures |effects'| == |rowids| + 1
    ensures AskedInTurn(host.trace, lo, site, op, rowids + [r], excluded, asks') && host.asked == told + AsksOf(asks')
    ensures !host.dead ==> BatchSoFar(host, before, lo, site, op, rowids + [r], excluded, effects', asks', results')
  {
    hide IsRun, Init, Inv, OpenSince, Evolves, AsMap, ApplyAll, Explained, AllExplained, Reported, Stores, BatchEdits, EffectEdits, InTurn, AskFits, AskedInTurn, AllComeOf, AsksOf;
    host.StoreValid();
    ghost var tr := host.trace;
    ghost var e := Untouched(Outage);
    ghost var ask := None;
    if r in excluded {
      NoneAsked(Stores(host.trace), |tr| - 1, site, op, r);
      results' := results + [ItemResult(r, Skipped)];
    } else {
      var ok;
      ok, e, ask := ApplyItem(host, clock, site, op, r);
      results' := results + [ItemResult(r, if ok then Success else ItemOutcome.Failed)];
    }
    effects' := effects + [e];
    asks' := asks + [ask];
    AskedMore(tr, host.trace, lo, |tr| - 1, site, op, rowids, excluded, asks, r, ask);
    if !host.dead {
      ComeOfMore(rowids, excluded, effects, asks, r, e, ask);
      BatchGrows(before, rowids, excluded, effects, r, e);
      ReportedMore(rowids, excluded, effects, results, r, e);
      NextTurn(host.reliable, tr, host.trace, lo, site, op, rowids, excluded, effects, r, e);
      AllExplainedLater(host.reliable, tr, host.trace, lo, site, op, rowids, excluded, effects);
      AllExplainedMore(host.reliable, host.trace, |tr| - 1, lo, site, op, rowids, excluded, effects, r, e);
    }
  }

  /** The loop over the plan, under an open writer, and the commit. */
  method ApplyAndCommit(host: Host, clock: Clock, site: Site, rowids: seq<Rowid>, excluded: set<Rowid>, op: Plan.Operation, ghost lo: nat)
    returns (r: Result<seq<ItemResult>, AmxError>, ghost effects: seq<Effect>, ghost asks: seq<Option<Asked>>, ghost published: bool)
    requires host.Valid() && host.phase.Mutating? && !host.dead && host.Staged() == AsMap(host.docs) && lo < |host.trace|
    modifies host, clock
    ensures host.Proceeded() && host.phase.Idle? && host.state == old(host.state) && host.quarantine == old(host.quarantine)
    ensures host.session == old(host.session) && OneWriter(host.trace, host.session)
    ensures host.trace[host.session].docs == old(host.docs)
    ensures !published ==> host.docs == old(host.docs)
    ensures published ==>
      && |effects| == |rowids|
      && AsMap(host.docs) == EditAll(AsMap(old(host.docs)), BatchEdits(rowids, excluded, effects))
      && AllExplained(host.reliable, host.trace, lo, site, op, rowids, excluded, effects) && InTurn(rowids, excluded, effects)
      && AllComeOf(rowids, excluded, effects, asks)
    ensures AskedInTurn(host.trace, lo, site, op, rowids, excluded, asks) && host.asked == old(host.asked) + AsksOf(asks)
    ensures r.Ok? ==> published && Reported(rowids, excluded, effects, r.value)
    ensures host.reliable ==> r.Ok?
  {
    hide IsRun, Init, Inv, OpenSince, Evolves, AsMap, ApplyAll, AllExplained, Reported, Stores, Excused, InTurn, AskedInTurn, AllComeOf, AsksOf;
    host.StoreValid();
    effects, asks := [], [];
    ghost var before := AsMap(host.docs);
    var results: seq<ItemResult> := [];
    StartBatch(host, before, lo, site, op, excluded);
    for k := 0 to |rowids|
      invariant host.Proceeded() && host.phase.Mutating? && host.docs == old(host.docs) && host.state == old(host.state)
      invariant host.quarantine == old(host.quarantine) && host.session == old(host.session)
      invariant host.reliable ==> !host.dead
      invariant |effects| == k && AskedInTurn(host.trace, lo, site, op, rowids[..k], excluded, asks)
      invariant host.asked == old(host.asked) + AsksOf(asks)
      invariant !host.dead ==> BatchSoFar(host, before, lo, site, op, rowids[..k], excluded, effects, asks, results)
    {
      assert rowids[..k + 1] == rowids[..k] + [rowids[k]];
      results, effects, asks :=
        NextItem(host, clock, site, op, rowids[k], excluded, results, before, old(host.asked), lo, rowids[..k], effects, asks);
    }
    assert rowids[..|rowids|] == rowids;
    ghost var tr := host.trace;
    var committed;
    committed, published := host.CommitMutations();
    AskedLater(tr, host.trace, lo, site, op, rowids, excluded, asks);
    if published {
      AllExplainedLater(host.reliable, tr, host.trace, lo, site, op, rowids, excluded, effects);
    }
    r := if committed.Ok? then Ok(results) else Err(AmxError.Failed);
  }

  /** A batch under a writer opened at `base`: nothing is published, or exactly what the items' effects staged,
      in order, over these documents, each effect being borne out by the store since then. */
  ghost predicate BatchOver(
      before: seq<Doc>, host: Host, base: nat, site: Site, op: Plan.Operation,
      rowids: seq<Rowid>, excluded: set<Rowid>, effects: seq<Effect>, asks: seq<Option<Asked>>, published: bool)
    reads host
  {
    if !published then host.docs == before
    else
      && |effects| == |rowids|
      && AsMap(host.docs) == EditAll(AsMap(before), BatchEdits(rowids, excluded, effects))
      && AllExplained(host.reliable, host.trace, base, site, op, rowids, excluded, effects) && InTurn(rowids, excluded, effects)
      && AllComeOf(rowids, excluded, effects, asks)
  }

  /** `triage_apply`: opens the writer before anything is asked of Mail.app, attempts every item that is
      not excluded, commits once, and gives the lock back. */
  method TriageApply(
      host: Host, table: Lock.LockTable, clock: Clock, pid: Lock.Pid, process: string, site: Site,
      rowids: seq<Rowid>, excluded: set<Rowid>, op: Plan.Operation)
    returns (
      r: Result<seq<ItemResult>, AmxError>, ghost effects: seq<Effect>, ghost asks: seq<Option<Asked>>,
      ghost held: bool, ghost published: bool, ghost busy: bool, ghost deleted: bool)
    requires host.Valid() && host.phase.Idle? && pid in table.alive
    modifies host, table, clock
    ensures host.Proceeded() && host.phase.Idle?
    ensures host.Bracketed(|old(host.trace)| - 1, held) && (published ==> held)
    ensures held ==>
      BatchOver(host.trace[host.session].docs, host, host.session, site, op, rowids, excluded, effects, asks, published)
    ensures host.alone ==>
      && BatchOver(old(host.docs), host, host.session, site, op, rowids, excluded, effects, asks, published)
      && host.state == old(host.state) && host.quarantine == old(host.quarantine)
    ensures r.Ok? ==> published && Reported(rowids, excluded, effects, r.value)
    ensures if held then AskedInTurn(host.trace, host.session, site, op, rowids, excluded, asks) else asks == []
    ensures host.asked == old(host.asked) + AsksOf(asks)
    ensures held ==> GivenBack(table, pid, process, old(clock.now), deleted)
    ensures busy ==> r.Err? && !held && HeldElsewhere(table, clock, old(clock.now))
    ensures !held && !busy && table.reliable ==> table.row == None
    ensures host.reliable && table.reliable ==> r.Ok? || busy
  {
    hide IsRun, Init, Inv, OpenSince, Evolves, AsMap, AllExplained, Reported, BatchEdits, EditAll, HeldElsewhere, InTurn, AskedInTurn, AllComeOf;
    host.StoreValid();
    effects, asks, published, deleted := [], [], false, false;
    var ok;
    ok, busy := AcquireWriter(host, table, clock, pid, process);
    held := ok;
    if !ok { return Err(AmxError.Failed), effects, asks, held, published, busy, deleted; }
    ghost var open := host.trace;
    r, effects, asks, published := ApplyAndCommit(host, clock, site, rowids, excluded, op, host.session);
    IdleStill(open, host.trace, |old(host.trace)| - 1, host.session);
    deleted := Release(table, pid);
  }

  lemma StartBatch(host: Host, before: map<Rowid, Doc>, lo: nat, site: Site, op: Plan.Operation, excluded: set<Rowid>)
    requires host.trace != [] && host.phase.Mutating? && host.Staged() == before
    ensures BatchSoFar(host, before, lo, site, op, [], excluded, [], [], [])
    ensures AskedInTurn(host.trace, lo, site, op, [], excluded, []) && AsksOf([]) == []
  {
  }

  /** What the results of a batch say. An excluded row is skipped. Setting a flag succeeds exactly if the row was
      reindexed and, at the very instant it was read for that, showed the flag as asked for; a move or a
      trash exactly if the message was found again, in the account of the destination or, for a trash, in its
      own. A row that was reindexed, or found again under a new rowid, was read as its document just then.
      Nothing succeeds that Mail.app was not asked for, and what it was asked is just what the plan says. */
  lemma ResultsMean(
      reliable: bool, trace: seq<World>, lo: nat, site: Site, op: Plan.Operation,
      rowids: seq<Rowid>, excluded: set<Rowid>, effects: seq<Effect>, asks: seq<Option<Asked>>, results: seq<ItemResult>, k: nat)
    requires |effects| == |rowids| && AllExplained(reliable, trace, lo, site, op, rowids, excluded, effects)
    requires AskedInTurn(trace, lo, site, op, rowids, excluded, asks) && AllComeOf(rowids, excluded, effects, asks)
    requires Reported(rowids, excluded, effects, results) && k < |rowids|
    ensures results[k].rowid == rowids[k] && (results[k].outcome == Skipped <==> rowids[k] in excluded)
    ensures var e, r, done := effects[k], rowids[k], results[k].outcome == Success;
      rowids[k] !in excluded ==>
        && (e.Reindexed? ==> lo <= e.at < |trace| && r in trace[e.at].store.rows && e.doc.rowid == r)
        && (e.Relocated? ==> lo <= e.at < |trace| && e.doc.rowid in trace[e.at].store.rows && e.doc.rowid != r)
        && match op
           case SetReadState(read) =>
             !e.Relocated? && (done <==> e.Reindexed? && trace[e.at].store.rows[r].read == read)
           case SetFlag(flagged) =>
             !e.Relocated? && (done <==> e.Reindexed? && trace[e.at].store.rows[r].flagged == flagged)
           case Move(destination) =>
             && !e.Reindexed? && (done <==> e.Relocated?)
             && (e.Relocated? ==> site.accountAt(destination) == Some(e.trail.account))
           case Trash =>
             && !e.Reindexed? && (done <==> e.Relocated?)
             && (e.Relocated? ==> e.trail.account == e.trail.message.account)
    ensures results[k].outcome == Success ==> asks[k].Some?
    ensures asks[k].Some? ==>
      var m := asks[k].value.command.message;
      && rowids[k] !in excluded && m.rowid == rowids[k] && lo <= asks[k].value.at < |trace|
      && match op
         case SetReadState(read) => asks[k].value.command == MarkRead(m, read)
         case SetFlag(flagged) => asks[k].value.command == MarkFlagged(m, flagged)
         case Move(destination) => asks[k].value.command == Command.Relocate(m, Some(destination))
         case Trash => asks[k].value.command == Command.Relocate(m, None)
  {
    hide WaitRun, Swept, Schedule, Hinders;
    if rowids[k] !in excluded {
      assert Explained(reliable, Stores(trace), lo, |trace| - 1, site, op, rowids[k], effects[k]);
    }
  }

  /** Every message found again within a batch is the one that was moved, if during its own relocation, from
      its snapshot to its last poll, nothing else entered the account. */
  lemma BatchNamesTheMoved(
      reliable: bool, trace: seq<World>, lo: nat, site: Site, op: Plan.Operation,
      rowids: seq<Rowid>, excluded: set<Rowid>, effects: seq<Effect>, k: nat)
    requires |effects| == |rowids| && AllExplained(reliable, trace, lo, site, op, rowids, excluded, effects)
    requires Moved(rowids, excluded, effects, k) && forall a :: Distinct(site.boxesOf(a))
    ensures NamesTheMoved(Stores(trace), effects[k].trail, effects[k].doc.rowid)
  {
    hide TrailFits, NamesTheMoved;
    assert Explained(reliable, Stores(trace), lo, |trace| - 1, site, op, rowids[k], effects[k]);
    TrailSound(Stores(trace), lo, site, rowids[k], DestinationOf(op), effects[k].trail, effects[k].doc.rowid);
  }

  /** Rows 1 and 2 are moved into one mailbox, one after the other, and come back there as 3 and 4. */
  function TwoMoves(): seq<Store> {
    [Store(map[1 := Filed(ARCHIVE), 2 := Filed(ARCHIVE)], map[], 2),
     Store(map[2 := Filed(ARCHIVE)], map[], 2),
     Store(map[2 := Filed(ARCHIVE), 3 := Filed(INBOX)], map[], 3),
     Store(map[3 := Filed(INBOX)], map[], 3),
     Store(map[3 := Filed(INBOX), 4 := Filed(INBOX)], map[], 4)]
  }

  function FirstMove(doc: Doc): Trail {
    Trail(0, doc, "", 0, [0], 0, Wait([INBOX], {}, 1), 0, [Gone(1, [2], false)])
  }

  function SecondMove(doc: Doc): Trail {
    Trail(2, doc, "", 2, [2], 2, Wait([INBOX], {3}, 2), 2, [Gone(3, [4], false)])
  }

  /** The wait of this trail is a run that answers `x`, after a snapshot of the account. */
  ghost predicate Answers(h: seq<Store>, t: Trail, x: Rowid) {
    && t.start <= t.snapped <= t.from < |h| && Schedule(t.taken, |t.wait.boxes|, t.start, t.snapped)
    && t.wait.before == Swept(h, t.taken, t.wait.boxes)
    && WaitRun(h, t.from, |h| - 1, t.wait, t.polls, Ok(x))
  }

  /** Several moves into one account do not disturb each other. */
  lemma TwoMovesUndisturbed(doc: Doc)
    ensures Possible(TwoMoves())
    ensures Answers(TwoMoves(), FirstMove(doc), 3) && Undisturbed(TwoMoves(), FirstMove(doc), 3)
    ensures Answers(TwoMoves(), SecondMove(doc), 4) && Undisturbed(TwoMoves(), SecondMove(doc), 4)
    ensures WaitEnd(FirstMove(doc)) <= SecondMove(doc).start
  {
    TwoMovesPossible();
    TwoMovesAnswered(doc);
    hide Possible, Answers;
    FirstMoveUndisturbed(doc);
  }

  lemma TwoMovesAnswered(doc: Doc)
    ensures Answers(TwoMoves(), FirstMove(doc), 3) && Answers(TwoMoves(), SecondMove(doc), 4)
  {
    var h := TwoMoves();
    SweptOne(h, 0, INBOX);
    SweptOne(h, 2, INBOX);
    SweptOne(h, 4, INBOX);
    assert RowsIn(h[0], INBOX) == {} && RowsIn(h[2], INBOX) == {3} && RowsIn(h[4], INBOX) == {3, 4};
    hide Swept;
    LoneIsAnswered(h, 0, 4, Wait([INBOX], {}, 1), 1, [2], 3);
    LoneIsAnswered(h, 2, 4, Wait([INBOX], {3}, 2), 3, [4], 4);
  }

  lemma TwoMovesPossible()
    ensures Possible(TwoMoves())
  {
  }

  lemma FirstMoveUndisturbed(doc: Doc)
    ensures Undisturbed(TwoMoves(), FirstMove(doc), 3)
  {
  }

  predicate IsTarget(rowids: seq<Rowid>, excluded: set<Rowid>, effects: seq<Effect>, x: Rowid)
    requires |effects| == |rowids|
  {
    exists k :: 0 <= k < |rowids| && rowids[k] !in excluded && effects[k].Relocated? && effects[k].doc.rowid == x
  }

  lemma EffectSpares(m: map<Rowid, Doc>, r: Rowid, e: Effect, x: Rowid)
    requires x != r && (e.Reindexed? ==> e.doc.rowid == r) && !(e.Relocated? && e.doc.rowid == x)
    ensures (x in EditAll(m, EffectEdits(r, e))) == (x in m)
    ensures x in m ==> EditAll(m, EffectEdits(r, e))[x] == m[x]
  {
    match e
    case Untouched(_) =>
    case Reindexed(doc, _, _) => OneEdit(m, Upsert(doc));
    case Relocated(doc, _, _) => TwoEdits(m, Remove(r), Upsert(doc));
  }

  lemma EffectFits(reliable: bool, h: seq<Store>, lo: nat, hi: nat, site: Site, op: Plan.Operation, r: Rowid, e: Effect)
    requires Explained(reliable, h, lo, hi, site, op, r, e)
    ensures (e.Reindexed? ==> e.doc.rowid == r) && (e.Relocated? ==> e.doc.rowid != r)
  {
    hide Hinders, TrailFits;
  }

  /** A row that was excluded, or not in the plan at all, keeps its document through a batch just as it
      was, unless another row's relocation landed on that very rowid. */
  lemma {:induction false} ExcludedUntouched(
      reliable: bool, trace: seq<World>, lo: nat, site: Site, op: Plan.Operation,
      m: map<Rowid, Doc>, rowids: seq<Rowid>, excluded: set<Rowid>, effects: seq<Effect>, x: Rowid)
    requires |effects| == |rowids| && AllExplained(reliable, trace, lo, site, op, rowids, excluded, effects)
    requires (x in excluded || x !in rowids) && !IsTarget(rowids, excluded, effects, x)
    ensures (x in EditAll(m, BatchEdits(rowids, excluded, effects))) == (x in m)
    ensures x in m ==> EditAll(m, BatchEdits(rowids, excluded, effects))[x] == m[x]
    decreases |rowids|
  {
    hide Explained, EffectEdits, Stores;
    if rowids != [] {
      var n := |rowids| - 1;
      var r, e, rs, es := rowids[n], effects[n], rowids[..n], effects[..n];
      assert rs + [r] == rowids && es + [e] == effects;
      ExcludedUntouched(reliable, trace, lo, site, op, m, rs, excluded, es, x);
      BatchGrows(m, rs, excluded, es, r, e);
      if r !in excluded {
        EffectFits(reliable, Stores(trace), lo, |trace| - 1, site, op, r, e);
        EffectSpares(EditAll(m, BatchEdits(rs, excluded, es)), r, e, x);
      }
    }
  }

  /** The effect on some item neither reindexes this row nor moves a message away from it or to it. */
  predicate LeavesBe(r: Rowid, e: Effect, x: Rowid) {
    e.Untouched? || (r != x && (e.Relocated? ==> e.doc.rowid != x))
  }

  /** The last effect on a row settles it: a reindexed row has the document it was read as, a message that was found
      again has the document of its new row and none under the old. */
  lemma {:induction false} LastEffectStands(
      reliable: bool, trace: seq<World>, lo: nat, site: Site, op: Plan.Operation,
      m: map<Rowid, Doc>, rowids: seq<Rowid>, excluded: set<Rowid>, effects: seq<Effect>, k: nat, x: Rowid)
    requires |effects| == |rowids| && AllExplained(reliable, trace, lo, site, op, rowids, excluded, effects)
    requires k < |rowids| && rowids[k] !in excluded
    requires forall j :: k < j < |rowids| && rowids[j] !in excluded ==> LeavesBe(rowids[j], effects[j], x)
    ensures var all, e := EditAll(m, BatchEdits(rowids, excluded, effects)), effects[k];
      && (e.Reindexed? && x == rowids[k] ==> x in all && all[x] == e.doc)
      && (e.Relocated? && x == rowids[k] ==> x !in all)
      && (e.Relocated? && x == e.doc.rowid ==> x in all && all[x] == e.doc)
    decreases |rowids|
  {
    hide Explained, Stores, EffectEdits, EditAll, BatchEdits;
    var n := |rowids| - 1;
    var r, e, rs, es := rowids[n], effects[n], rowids[..n], effects[..n];
    assert rs + [r] == rowids && es + [e] == effects;
    var was := EditAll(m, BatchEdits(rs, excluded, es));
    BatchGrows(m, rs, excluded, es, r, e);
    if k < n {
      LastEffectStands(reliable, trace, lo, site, op, m, rs, excluded, es, k, x);
    }
    if r !in excluded {
      EffectFits(reliable, Stores(trace), lo, |trace| - 1, site, op, r, e);
      if k < n {
        EffectLeavesBe(was, r, e, x);
      } else {
        EffectSettles(was, r, e);
      }
    } else {
      assert EditAll(was, []) == was by { NoEdits(was); }
    }
  }

  lemma NoEdits(m: map<Rowid, Doc>)
    ensures EditAll(m, []) == m
  {
  }

  lemma EffectLeavesBe(m: map<Rowid, Doc>, r: Rowid, e: Effect, x: Rowid)
    requires LeavesBe(r, e, x) && (e.Reindexed? ==> e.doc.rowid == r)
    ensures (x in EditAll(m, EffectEdits(r, e))) == (x in m)
    ensures x in m ==> EditAll(m, EffectEdits(r, e))[x] == m[x]
  {
    if !e.Untouched? {
      EffectSpares(m, r, e, x);
    }
  }

  lemma EffectSettles(m: map<Rowid, Doc>, r: Rowid, e: Effect)
    requires (e.Reindexed? ==> e.doc.rowid == r) && (e.Relocated? ==> e.doc.rowid != r)
    ensures var all := EditAll(m, EffectEdits(r, e));
      && (e.Reindexed? ==> r in all && all[r] == e.doc)
      && (e.Relocated? ==> r !in all && e.doc.rowid in all && all[e.doc.rowid] == e.doc)
  {
    match e
    case Untouched(_) =>
    case Reindexed(doc, _, _) => OneEdit(m, Upsert(doc));
    case Relocated(doc, _, _) => TwoEdits(m, Remove(r), Upsert(doc));
  }
}
