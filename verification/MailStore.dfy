/** The Envelope Index that Mail.app owns: a `messages` table and a `mailboxes` table that
    change under the indexer's feet. Rowids are AUTOINCREMENT: a fresh one exceeds every
    rowid ever handed out, and none is reused. */
module MailStore {

  type Rowid = int
  type MailboxId = int

  datatype Counts = Counts(total: int, unread: int, deleted: int)

  datatype Mailbox = Mailbox(url: string, counts: Counts)

  datatype Row = Row(mailbox: MailboxId, read: bool, flagged: bool, deleted: bool)

  /** `seqno` is the largest rowid ever assigned (SQLite's `sqlite_sequence` entry). */
  datatype Store = Store(rows: map<Rowid, Row>, boxes: map<MailboxId, Mailbox>, seqno: int) {

    predicate Valid() {
      0 <= seqno && forall r :: r in rows ==> 1 <= r <= seqno
    }

    /** `WHERE deleted = 0`. */
    predicate Live(r: Rowid) {
      r in rows && !rows[r].deleted
    }

    function LiveRows(): (live: set<Rowid>)
      ensures forall r :: r in live <==> Live(r)
    {
      set r | r in rows && !rows[r].deleted
    }

    function MailboxCounts(): (counts: map<MailboxId, Counts>)
      ensures counts.Keys == boxes.Keys
      ensures forall m :: m in boxes ==> counts[m] == boxes[m].counts
    {
      map m | m in boxes :: boxes[m].counts
    }
  }

  /** What Mail.app may do between two of the indexer's statements. A soft-deleted row is
      never undeleted; a mailbox row may change, appear or vanish freely, and in particular its tuple
      may change in the transaction that refiles a message. */
  datatype MailStep =
    | Arrive(rowid: Rowid, row: Row)
    | Purge(rowid: Rowid)
    | SoftDelete(rowid: Rowid)
    | Refile(rowid: Rowid, mailbox: MailboxId, boxes: map<MailboxId, Mailbox>)
    | Mark(rowid: Rowid, read: bool, flagged: bool)
    | EditMailboxes(boxes: map<MailboxId, Mailbox>)

  predicate CanDo(s: Store, step: MailStep) {
    match step
    case Arrive(r, _) => s.seqno < r
    case Purge(r) => r in s.rows
    case SoftDelete(r) => r in s.rows
    case Refile(r, _, _) => r in s.rows
    case Mark(r, _, _) => r in s.rows
    case EditMailboxes(_) => true
  }

  function Do(s: Store, step: MailStep): (t: Store)
    requires CanDo(s, step)
  {
    match step
    case Arrive(r, row) => s.(rows := s.rows[r := row], seqno := r)
    case Purge(r) => s.(rows := s.rows - {r})
    case SoftDelete(r) => s.(rows := s.rows[r := s.rows[r].(deleted := true)])
    case Refile(r, m, b) => s.(rows := s.rows[r := s.rows[r].(mailbox := m)], boxes := b)
    case Mark(r, read, flagged) => s.(rows := s.rows[r := s.rows[r].(read := read, flagged := flagged)])
    case EditMailboxes(b) => s.(boxes := b)
  }

  /** What any number of Mail.app steps can have done: rowids at or below the old sequence
      number never (re)appear, and deletion is for good. */
  ghost predicate Evolves(s: Store, t: Store) {
    && s.seqno <= t.seqno
    && t.Valid()
    && (forall r :: r in t.rows && r <= s.seqno ==> r in s.rows && (s.rows[r].deleted ==> t.rows[r].deleted))
  }

  lemma StepEvolves(s: Store, step: MailStep)
    requires s.Valid() && CanDo(s, step)
    ensures Evolves(s, Do(s, step))
  {
  }

  lemma EvolvesTransitive(s: Store, t: Store, u: Store)
    requires Evolves(s, t) && Evolves(t, u)
    ensures Evolves(s, u)
  {
  }

  /** A run of Mail.app steps, ending in the store it produces. */
  ghost predicate MailRun(s: Store, steps: seq<MailStep>, t: Store)
    decreases |steps|
  {
    if steps == [] then s == t
    else CanDo(s, steps[0]) && MailRun(Do(s, steps[0]), steps[1..], t)
  }

  lemma {:induction false} RunEvolves(s: Store, steps: seq<MailStep>, t: Store)
    requires s.Valid() && MailRun(s, steps, t)
    ensures Evolves(s, t)
    decreases |steps|
  {
    if steps != [] {
      StepEvolves(s, steps[0]);
      RunEvolves(Do(s, steps[0]), steps[1..], t);
      EvolvesTransitive(s, Do(s, steps[0]), t);
    }
  }

  /** The fact every completeness argument rests on: a row that is live now, and whose rowid
      had already been handed out earlier, was live earlier too. */
  lemma LiveBefore(s: Store, t: Store, r: Rowid)
    requires Evolves(s, t) && t.Live(r) && r <= s.seqno
    ensures s.Live(r)
  {
  }

  /** ...and a row seen to be gone stays gone. */
  lemma GoneForGood(s: Store, t: Store, r: Rowid)
    requires Evolves(s, t) && r !in s.rows && r <= s.seqno
    ensures r !in t.rows
  {
  }
}
