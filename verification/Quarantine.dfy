/** The quarantine table: a batch goes on past a message that will not parse, and the failure is
    recorded under the message's rowid, counting repeats. */
module Quarantine {
  import opened Wrappers
  import opened MailStore

  datatype ErrorKind = MalformedEnvelope | InvalidMessage | MalformedFooter | Io

  datatype Entry = Entry(path: string, kind: ErrorKind, firstSeen: int, attempts: nat)

  datatype Item = Item(rowid: Rowid, path: string)

  datatype Outcome<T> = Outcome(rowid: Rowid, parsed: Option<T>)

  /** The upsert: a first failure is written whole, a repeat only counts. */
  function Recorded(rows: map<Rowid, Entry>, r: Rowid, path: string, kind: ErrorKind, now: int): map<Rowid, Entry> {
    if r in rows then rows[r := rows[r].(attempts := rows[r].attempts + 1)]
    else rows[r := Entry(path, kind, now, 1)]
  }

  /** The rows whose attempts the failures `log` (one occurrence per failure) account for. */
  ghost predicate Accounts(rows: map<Rowid, Entry>, log: multiset<Rowid>) {
    && (forall r :: r in rows <==> r in log)
    && (forall r :: r in rows ==> rows[r].attempts == log[r])
  }

  lemma RecordAccounts(rows: map<Rowid, Entry>, log: multiset<Rowid>, r: Rowid, path: string, kind: ErrorKind, now: int)
    requires Accounts(rows, log)
    ensures Accounts(Recorded(rows, r, path, kind, now), log + multiset{r})
  {
  }

  function Failures<T>(items: seq<Item>, parse: Item -> Result<T, ErrorKind>): multiset<Rowid> {
    if items == [] then multiset{}
    else
      var n := |items| - 1;
      Failures(items[..n], parse) + FailureOf(items[n], parse(items[n]))
  }

  function FailureOf<T>(item: Item, parsed: Result<T, ErrorKind>): multiset<Rowid> {
    if parsed.Err? then multiset{item.rowid} else multiset{}
  }

  /** Where the batch has an item of the row that fails to parse. */
  function FailingItems<T>(items: seq<Item>, parse: Item -> Result<T, ErrorKind>, r: Rowid): set<int> {
    set k | 0 <= k < |items| && items[k].rowid == r && parse(items[k]).Err?
  }

  lemma FailingMore<T>(front: seq<Item>, last: Item, parse: Item -> Result<T, ErrorKind>, r: Rowid)
    ensures FailingItems(front + [last], parse, r)
         == FailingItems(front, parse, r) + if last.rowid == r && parse(last).Err? then {|front|} else {}
  {
  }

  /** One failure for each of them. */
  lemma {:induction false} FailuresMeaning<T>(items: seq<Item>, parse: Item -> Result<T, ErrorKind>, r: Rowid)
    ensures Failures(items, parse)[r] == |FailingItems(items, parse, r)|
  {
    if items != [] {
      var n := |items| - 1;
      assert items == items[..n] + [items[n]];
      FailuresMeaning(items[..n], parse, r);
      FailingMore(items[..n], items[n], parse, r);
      assert n !in FailingItems(items[..n], parse, r);
    }
  }

  function Parsed<T>(r: Result<T, ErrorKind>): Option<T> {
    if r.Ok? then Some(r.value) else None
  }

  /** Repeats never overwrite what the first failure of a row recorded. */
  ghost predicate FirstsKept(before: map<Rowid, Entry>, after: map<Rowid, Entry>) {
    forall r :: r in before ==> r in after && after[r] == before[r].(attempts := after[r].attempts)
  }

  lemma FirstsKeptSelf(rows: map<Rowid, Entry>)
    ensures FirstsKept(rows, rows)
  {
  }

  lemma FirstsKeptChain(a: map<Rowid, Entry>, b: map<Rowid, Entry>, c: map<Rowid, Entry>)
    requires FirstsKept(a, b) && FirstsKept(b, c)
    ensures FirstsKept(a, c)
  {
  }

  /** Every row that is new in the table was written by the first failure of its rowid: with the path of that item,
      the kind of that error, and the time of the batch. */
  ghost predicate FirstsWritten<T>(
      before: map<Rowid, Entry>, after: map<Rowid, Entry>, items: seq<Item>, parse: Item -> Result<T, ErrorKind>, now: int, done: nat)
    requires done <= |items|
  {
    forall r :: r in after && r !in before ==> exists k :: FirstWritten(after[r], items, parse, now, done, r, k)
  }

  predicate FirstWritten<T>(
      e: Entry, items: seq<Item>, parse: Item -> Result<T, ErrorKind>, now: int, done: nat, r: Rowid, k: nat)
    requires done <= |items|
  {
    && k < done && items[k].rowid == r && parse(items[k]).Err?
    && e.path == items[k].path && e.kind == parse(items[k]).error && e.firstSeen == now
    && forall j :: 0 <= j < k && items[j].rowid == r ==> parse(items[j]).Ok?
  }

  lemma NoneWritten<T>(rows: map<Rowid, Entry>, items: seq<Item>, parse: Item -> Result<T, ErrorKind>, now: int)
    ensures FirstsWritten(rows, rows, items, parse, now, 0)
  {
  }

  lemma FirstsMore<T>(
      start: map<Rowid, Entry>, before: map<Rowid, Entry>, after: map<Rowid, Entry>,
      items: seq<Item>, parse: Item -> Result<T, ErrorKind>, now: int, k: nat)
    requires k < |items| && FirstsWritten(start, before, items, parse, now, k)
    requires var i := items[k];
      after == if parse(i).Err? then Recorded(before, i.rowid, i.path, parse(i).error, now) else before
    requires forall j :: 0 <= j < k && parse(items[j]).Err? ==> items[j].rowid in before
    ensures FirstsWritten(start, after, items, parse, now, k + 1)
  {
    var done := k + 1;
    forall r | r in after && r !in start ensures exists j :: FirstWritten(after[r], items, parse, now, done, r, j) {
      if r in before {
        var j :| FirstWritten(before[r], items, parse, now, k, r, j);
        assert FirstWritten(after[r], items, parse, now, done, r, j);
      } else {
        assert FirstWritten(after[r], items, parse, now, done, r, k);
      }
    }
  }

  class Table {
    var rows: map<Rowid, Entry>

    constructor ()
      ensures rows == map[]
    {
      rows := map[];
    }

    /** The upsert, which may fail and then changes nothing. */
    method Record(r: Rowid, path: string, kind: ErrorKind, now: int) returns (ok: bool)
      modifies this
      ensures rows == if ok then Recorded(old(rows), r, path, kind, now) else old(rows)
    {
      ok := *;
      if ok {
        if r in rows {
          var e := rows[r];
          rows := rows[r := e.(attempts := e.attempts + 1)];
        } else {
          rows := rows[r := Entry(path, kind, now, 1)];
        }
      }
    }

    /** One item: its parse, or a recorded failure. */
    method RunItem<T>(item: Item, parsed: Result<T, ErrorKind>, now: int, ghost log: multiset<Rowid>) returns (o: Option<Outcome<T>>)
      requires Accounts(rows, log)
      modifies this
      ensures Accounts(rows, if o.Some? then log + FailureOf(item, parsed) else log) && FirstsKept(old(rows), rows)
      ensures rows == if o.Some? && parsed.Err? then Recorded(old(rows), item.rowid, item.path, parsed.error, now) else old(rows)
      ensures o.Some? ==> o.value == Outcome(item.rowid, Parsed(parsed))
      ensures o.None? ==> parsed.Err?
    {
      o := Some(Outcome(item.rowid, Parsed(parsed)));
      if parsed.Err? {
        RecordAccounts(rows, log, item.rowid, item.path, parsed.error, now);
        var ok := Record(item.rowid, item.path, parsed.error, now);
        if !ok { o := None; }
      } else {
        assert log + multiset{} == log;
      }
    }

    /** `run_batch`: one outcome per item, in order, whatever fails to parse; the attempts grow by exactly
        the failures, each under its own rowid, and what was first recorded of a row stays. Only a
        failure that cannot be recorded ends the batch early, with those before it recorded. */
    method RunBatch<T>(items: seq<Item>, parse: Item -> Result<T, ErrorKind>, now: int, ghost log: multiset<Rowid>)
      returns (r: Option<seq<Outcome<T>>>, ghost done: nat)
      requires Accounts(rows, log)
      modifies this
      ensures done <= |items| && Accounts(rows, log + Failures(items[..done], parse)) && FirstsKept(old(rows), rows)
      ensures FirstsWritten(old(rows), rows, items, parse, now, done)
      ensures r.Some? ==> done == |items| && |r.value| == |items|
      ensures r.Some? ==> forall k :: 0 <= k < |items| ==> r.value[k] == Outcome(items[k].rowid, Parsed(parse(items[k])))
      ensures r.None? ==> done < |items| && parse(items[done]).Err?
    {
      hide Accounts, FirstsKept, FailureOf, FirstsWritten;
      var outcomes := [];
      assert log + multiset{} == log;
      FirstsKeptSelf(rows);
      NoneWritten(rows, items, parse, now);
      for k := 0 to |items|
        invariant Accounts(rows, log + Failures(items[..k], parse)) && FirstsKept(old(rows), rows)
        invariant FirstsWritten(old(rows), rows, items, parse, now, k)
        invariant forall j :: 0 <= j < k && parse(items[j]).Err? ==> items[j].rowid in rows
        invariant |outcomes| == k
        invariant forall j :: 0 <= j < k ==> outcomes[j] == Outcome(items[j].rowid, Parsed(parse(items[j])))
      {
        assert items[..k + 1][..k] == items[..k];
        ghost var before, sofar := rows, log + Failures(items[..k], parse);
        assert log + Failures(items[..k + 1], parse) == sofar + FailureOf(items[k], parse(items[k]));
        var o := RunItem(items[k], parse(items[k]), now, sofar);
        FirstsKeptChain(old(rows), before, rows);
        if o.None? { return None, k; }
        FirstsMore(old(rows), before, rows, items, parse, now, k);
        outcomes := outcomes + [o.value];
      }
      assert items[..|items|] == items;
      r, done := Some(outcomes), |items|;
    }

    /** `count`: quarantined messages, not attempts. */
    method Count(ghost log: multiset<Rowid>) returns (n: nat)
      requires Accounts(rows, log)
      ensures n == |set r | r in log|
    {
      n := |rows.Keys|;
      SameMembers(rows.Keys, set r | r in log);
    }
  }
}
