/** Finding a moved message again. Mail.app gives a moved message a new row some time after the
    move returns; the wait loop recognises it as the one rowid of the account that was not
    there before. */
module Relocate {
  import opened Wrappers
  import opened MailStore
  import opened OpLog
  import opened AccountReads

  datatype WaitError = Database | StillPresent | Ambiguous(count: nat)

  type Answer = Result<Rowid, WaitError>

  // ----- the runs of the wait loop -----

  /** One turn of the loop: when the old row was looked up, when the account's mailboxes were read
      if it was gone, and whether the budget was spent when the turn ended. */
  datatype Poll =
    | Present(checked: nat, late: bool)
    | Gone(checked: nat, when: seq<nat>, late: bool)

  /** What does not change during a wait. */
  datatype Wait = Wait(boxes: seq<MailboxId>, before: set<Rowid>, oldRow: Rowid)

  ghost predicate PollFits(h: seq<Store>, lo: nat, hi: nat, w: Wait, p: Poll)
    requires hi < |h|
  {
    && lo <= p.checked <= hi
    && (p.Present? <==> w.oldRow in h[p.checked].rows)
    && (p.Gone? ==> Schedule(p.when, |w.boxes|, p.checked, hi))
  }

  function NewRows(h: seq<Store>, w: Wait, when: seq<nat>): set<Rowid>
    requires |when| == |w.boxes| && forall k :: 0 <= k < |when| ==> when[k] < |h|
  {
    Swept(h, when, w.boxes) - w.before
  }

  /** The turn ends in another one. */
  ghost predicate GoesOn(h: seq<Store>, w: Wait, lo: nat, hi: nat, p: Poll)
    requires hi < |h| && PollFits(h, lo, hi, w, p)
  {
    !p.late && (p.Gone? ==> NewRows(h, w, p.when) == {})
  }

  /** The turn ends the wait with this answer. */
  ghost predicate EndsWith(h: seq<Store>, w: Wait, lo: nat, hi: nat, p: Poll, r: Answer)
    requires hi < |h| && PollFits(h, lo, hi, w, p)
  {
    match r
    case Ok(x) => p.Gone? && NewRows(h, w, p.when) == {x}
    case Err(Ambiguous(n)) => p.Gone? && n == |NewRows(h, w, p.when)| && n != 1 && (n == 0 ==> p.late)
    case Err(StillPresent) => p.Present? && p.late
    case Err(Database) => false
  }

  function EndOf(p: Poll): nat {
    if p.Gone? && p.when != [] then p.when[|p.when| - 1] else p.checked
  }

  /** Turn after turn, each of them going on to the next. */
  ghost predicate Polling(h: seq<Store>, lo: nat, hi: nat, w: Wait, polls: seq<Poll>)
    requires hi < |h|
  {
    && (forall k :: 0 <= k < |polls| ==> PollFits(h, lo, hi, w, polls[k]) && GoesOn(h, w, lo, hi, polls[k]))
    && (forall j, k :: 0 <= j < k < |polls| ==> EndOf(polls[j]) <= polls[k].checked)
  }

  /** A run of the loop between two instants that answers `r`. A failing statement may end it at
      any turn. */
  ghost predicate WaitRun(h: seq<Store>, lo: nat, hi: nat, w: Wait, polls: seq<Poll>, r: Answer) {
    && hi < |h|
    && if r == Err(Database) then Polling(h, lo, hi, w, polls)
       else
         && polls != []
         && Polling(h, lo, hi, w, polls[..|polls| - 1])
         && PollFits(h, lo, hi, w, polls[|polls| - 1])
         && (forall j :: 0 <= j < |polls| - 1 ==> EndOf(polls[j]) <= polls[|polls| - 1].checked)
         && EndsWith(h, w, lo, hi, polls[|polls| - 1], r)
  }

  /** Turns already taken fit a longer history as well. */
  lemma PollingStays(h: seq<Store>, h': seq<Store>, lo: nat, hi: nat, hi': nat, w: Wait, polls: seq<Poll>)
    requires hi < |h| && hi <= hi' < |h'| && h <= h' && Polling(h, lo, hi, w, polls)
    ensures Polling(h', lo, hi', w, polls)
  {
    forall k | 0 <= k < |polls| ensures PollFits(h', lo, hi', w, polls[k]) && GoesOn(h', w, lo, hi', polls[k]) {
      if polls[k].Gone? {
        SweptStays(h, h', polls[k].when, w.boxes);
      }
    }
  }

  lemma WaitRunStays(h: seq<Store>, h': seq<Store>, lo: nat, hi: nat, hi': nat, w: Wait, polls: seq<Poll>, r: Answer)
    requires WaitRun(h, lo, hi, w, polls, r) && hi <= hi' < |h'| && h <= h'
    ensures WaitRun(h', lo, hi', w, polls, r)
  {
    if r == Err(Database) {
      PollingStays(h, h', lo, hi, hi', w, polls);
    } else {
      var p := polls[|polls| - 1];
      PollingStays(h, h', lo, hi, hi', w, polls[..|polls| - 1]);
      if p.Gone? {
        SweptStays(h, h', p.when, w.boxes);
      }
    }
  }

  lemma PollingMore(h: seq<Store>, lo: nat, hi: nat, w: Wait, polls: seq<Poll>, p: Poll)
    requires hi < |h| && Polling(h, lo, hi, w, polls) && PollFits(h, lo, hi, w, p) && GoesOn(h, w, lo, hi, p)
    requires forall q :: q in polls ==> EndOf(q) <= p.checked
    ensures Polling(h, lo, hi, w, polls + [p])
  {
    var more := polls + [p];
    forall j, k | 0 <= j < k < |more| ensures EndOf(more[j]) <= more[k].checked {
      assert j < |polls| && more[j] in polls;
    }
  }

  lemma WaitEnds(h: seq<Store>, lo: nat, hi: nat, w: Wait, polls: seq<Poll>, p: Poll, r: Answer)
    requires hi < |h| && Polling(h, lo, hi, w, polls) && PollFits(h, lo, hi, w, p) && EndsWith(h, w, lo, hi, p, r)
    requires forall q :: q in polls ==> EndOf(q) <= p.checked
    ensures WaitRun(h, lo, hi, w, polls + [p], r)
  {
    var all := polls + [p];
    assert all[..|all| - 1] == polls;
    forall j | 0 <= j < |polls| ensures EndOf(all[j]) <= p.checked {
      assert all[j] in polls;
    }
  }

  // ----- which answers are possible -----

  /** The old row was found gone at `gone`, and reading the account from then on, as scheduled,
      brings to light one new row and no other. */
  ghost predicate LoneNewRow(h: seq<Store>, lo: nat, hi: nat, w: Wait, gone: nat, when: seq<nat>, x: Rowid) {
    && lo <= gone <= hi < |h| && w.oldRow !in h[gone].rows
    && Schedule(when, |w.boxes|, gone, hi) && NewRows(h, w, when) == {x}
  }

  lemma AnswerIsLone(h: seq<Store>, lo: nat, hi: nat, w: Wait, polls: seq<Poll>, x: Rowid)
    requires WaitRun(h, lo, hi, w, polls, Ok(x))
    ensures var p := polls[|polls| - 1]; p.Gone? && LoneNewRow(h, lo, hi, w, p.checked, p.when, x)
  {
  }

  lemma LoneIsAnswered(h: seq<Store>, lo: nat, hi: nat, w: Wait, gone: nat, when: seq<nat>, x: Rowid)
    requires LoneNewRow(h, lo, hi, w, gone, when, x)
    ensures WaitRun(h, lo, hi, w, [Gone(gone, when, false)], Ok(x))
  {
    var polls := [Gone(gone, when, false)];
    assert polls[..|polls| - 1] == [];
  }

  /** The loop can answer nothing but the moved message's row exactly if no reading of the account
      after the old row is gone shows another row as the only new one. */
  lemma AnswersRightIff(h: seq<Store>, lo: nat, hi: nat, w: Wait, moved: Rowid)
    ensures (forall polls, x :: WaitRun(h, lo, hi, w, polls, Ok(x)) ==> x == moved)
       <==> (forall gone: nat, when: seq<nat>, x :: LoneNewRow(h, lo, hi, w, gone, when, x) ==> x == moved)
  {
    if forall polls, x :: WaitRun(h, lo, hi, w, polls, Ok(x)) ==> x == moved {
      forall gone: nat, when: seq<nat>, x | LoneNewRow(h, lo, hi, w, gone, when, x) ensures x == moved {
        LoneIsAnswered(h, lo, hi, w, gone, when, x);
      }
    } else {
      var polls, x :| WaitRun(h, lo, hi, w, polls, Ok(x)) && x != moved;
      AnswerIsLone(h, lo, hi, w, polls, x);
    }
  }

  /** The rows of one mailbox that the snapshot did not list. */
  function NewIn(s: Store, w: Wait, k: nat): set<Rowid>
    requires k < |w.boxes|
  {
    RowsIn(s, w.boxes[k]) - w.before
  }

  /** New rows stay in the mailbox in which they have arrived. */
  ghost predicate ArrivalsStay(h: seq<Store>, lo: nat, hi: nat, w: Wait)
    requires hi < |h|
  {
    forall k, i, j :: 0 <= k < |w.boxes| && lo <= i <= j <= hi ==> NewIn(h[i], w, k) <= NewIn(h[j], w, k)
  }

  /** Some row `x` is alone: at instant `t` it is all that is new in mailbox `k`, nothing else is new in
      the mailboxes read later, and nothing else was new in those read earlier when the old row
      was first gone. */
  ghost predicate AloneAt(h: seq<Store>, gone: nat, t: nat, w: Wait, k: nat, x: Rowid)
    requires gone < |h| && t < |h|
  {
    && k < |w.boxes| && NewIn(h[t], w, k) == {x}
    && (forall j :: 0 <= j < k ==> NewIn(h[gone], w, j) <= {x})
    && (forall j :: k < j < |w.boxes| ==> NewIn(h[t], w, j) <= {x})
  }

  lemma NewMeaning(h: seq<Store>, w: Wait, when: seq<nat>, r: Rowid)
    requires |when| == |w.boxes| && forall k :: 0 <= k < |when| ==> when[k] < |h|
    ensures r in NewRows(h, w, when) <==> exists k: nat :: k < |w.boxes| && r in NewIn(h[when[k]], w, k)
  {
    SweptMeaning(h, when, w.boxes, r);
    if k: nat :| k < |w.boxes| && r in NewIn(h[when[k]], w, k) {
      assert SeenAt(h, when, w.boxes, r, k);
    }
    if r in NewRows(h, w, when) {
      var k: nat :| SeenAt(h, when, w.boxes, r, k);
      assert r in NewIn(h[when[k]], w, k);
    }
  }

  lemma LoneIsAlone(h: seq<Store>, lo: nat, hi: nat, w: Wait, gone: nat, when: seq<nat>, x: Rowid) returns (k: nat)
    requires LoneNewRow(h, lo, hi, w, gone, when, x) && ArrivalsStay(h, lo, hi, w)
    ensures k < |when| && AloneAt(h, gone, when[k], w, k, x)
  {
    NewMeaning(h, w, when, x);
    k :| k < |w.boxes| && x in NewIn(h[when[k]], w, k);
    forall j, y | 0 <= j < |w.boxes| && y in NewIn(h[when[j]], w, j) ensures y == x {
      NewMeaning(h, w, when, y);
    }
    forall j | 0 <= j < k ensures NewIn(h[gone], w, j) <= {x} {
      assert NewIn(h[gone], w, j) <= NewIn(h[when[j]], w, j);
    }
    forall j | k < j < |w.boxes| ensures NewIn(h[when[k]], w, j) <= {x} {
      assert NewIn(h[when[k]], w, j) <= NewIn(h[when[j]], w, j);
    }
  }

  lemma AloneIsLone(h: seq<Store>, lo: nat, hi: nat, w: Wait, gone: nat, t: nat, k: nat, x: Rowid)
    requires lo <= gone <= t <= hi < |h| && w.oldRow !in h[gone].rows && AloneAt(h, gone, t, w, k, x)
    ensures LoneNewRow(h, lo, hi, w, gone, Dodge(|w.boxes|, k, gone, t), x)
  {
    var when := Dodge(|w.boxes|, k, gone, t);
    forall y ensures y in NewRows(h, w, when) <==> y in {x} {
      NewMeaning(h, w, when, y);
      assert when[k] == t;
      if j: nat :| j < |w.boxes| && y in NewIn(h[when[j]], w, j) {
        assert j < k ==> y in NewIn(h[gone], w, j);
      }
    }
    assert NewRows(h, w, when) == {x};
  }

  /** If new rows stay where they arrive, single instants decide. The moved row arriving first is not
      enough: it must also be in a mailbox read no earlier than the other row's, or have been there
      when the old row was first gone. */
  lemma RightWhenArrivalsStayIff(h: seq<Store>, lo: nat, hi: nat, w: Wait, moved: Rowid)
    requires hi < |h| && ArrivalsStay(h, lo, hi, w)
    ensures (forall polls, x :: WaitRun(h, lo, hi, w, polls, Ok(x)) ==> x == moved)
       <==> (forall gone: nat, t: nat, k: nat, x :: lo <= gone <= t <= hi && w.oldRow !in h[gone].rows && AloneAt(h, gone, t, w, k, x) ==> x == moved)
  {
    AnswersRightIff(h, lo, hi, w, moved);
    if forall gone: nat, when: seq<nat>, x :: LoneNewRow(h, lo, hi, w, gone, when, x) ==> x == moved {
      forall gone: nat, t: nat, k: nat, x | lo <= gone <= t <= hi && w.oldRow !in h[gone].rows && AloneAt(h, gone, t, w, k, x)
        ensures x == moved
      {
        AloneIsLone(h, lo, hi, w, gone, t, k, x);
      }
    } else {
      var gone: nat, when: seq<nat>, x :| LoneNewRow(h, lo, hi, w, gone, when, x) && x != moved;
      var k := LoneIsAlone(h, lo, hi, w, gone, when, x);
      assert lo <= gone <= when[k] <= hi;
    }
  }

  /** Soundness of a relocation from its first statement to its last, whatever Mail.app did. If the
      moved message is the only row to enter the account, and no row of the account is refiled to
      a mailbox read earlier while the snapshot is taken, the wait names the moved message's row
      or fails. */
  lemma RelocationSound(
      h: seq<Store>, start: nat, snapped: nat, lo: nat, hi: nat, taken: seq<nat>, w: Wait, polls: seq<Poll>, x: Rowid, moved: Rowid)
    requires start <= snapped <= lo <= hi < |h| && Distinct(w.boxes)
    requires Schedule(taken, |w.boxes|, start, snapped) && w.before == Swept(h, taken, w.boxes)
    requires WaitRun(h, lo, hi, w, polls, Ok(x))
    requires OnlyEntrant(h, start, hi, w.boxes, moved)
    requires forall r :: Stays(h, start, snapped, w.boxes, r) ==> MovesForward(h, start, snapped, w.boxes, r)
    ensures x == moved
  {
    AnswerIsLone(h, lo, hi, w, polls, x);
    var p := polls[|polls| - 1];
    assert x in NewRows(h, w, p.when);
    SweptMeaning(h, p.when, w.boxes, x);
    var k: nat :| SeenAt(h, p.when, w.boxes, x, k);
    var n := p.when[k];
    assert InAccount(h[n], w.boxes, x);
    if x != moved {
      AlwaysThere(h, start, hi, n, w.boxes, moved, x);
      SnapshotCompleteIff(h, start, snapped, w.boxes, x);
      assert false;
    }
  }

  // ----- traces on which the hypotheses fail -----

  const INBOX: MailboxId := 7
  const ARCHIVE: MailboxId := 8

  function Filed(m: MailboxId): Row {
    Row(m, false, false, false)
  }

  ghost predicate Possible(h: seq<Store>) {
    forall i, j :: 0 <= i <= j < |h| ==> Evolves(h[i], h[j])
  }

  /** Row 1 is moved: it goes, a new message happens to arrive as row 2, and only then does the
      moved message come back, as row 3. */
  function BusyInbox(): seq<Store> {
    [Store(map[1 := Filed(INBOX)], map[], 1),
     Store(map[], map[], 1),
     Store(map[2 := Filed(INBOX)], map[], 2),
     Store(map[2 := Filed(INBOX), 3 := Filed(INBOX)], map[], 3)]
  }

  /** Another arrival can be taken for the moved message: the loop answers 2. */
  lemma ArrivalMistakenForMove()
    ensures Possible(BusyInbox())
    ensures WaitRun(BusyInbox(), 0, 3, Wait([INBOX], {1}, 1), [Gone(2, [2], false)], Ok(2))
    ensures !OnlyEntrant(BusyInbox(), 0, 3, [INBOX], 3)
  {
    var h, w := BusyInbox(), Wait([INBOX], {1}, 1);
    SweptOne(h, 2, INBOX);
    assert RowsIn(h[2], INBOX) == {2};
    LoneIsAnswered(h, 0, 3, w, 2, [2], 2);
    assert Enters(h, 1, [INBOX], 2);
  }

  /** The moved message comes back first, as row 2, but in a mailbox read before the one in which the
      other message arrives as row 3: the reading falls between. */
  function BusyArchive(): seq<Store> {
    [Store(map[1 := Filed(INBOX)], map[], 1),
     Store(map[], map[], 1),
     Store(map[2 := Filed(INBOX)], map[], 2),
     Store(map[2 := Filed(INBOX), 3 := Filed(ARCHIVE)], map[], 3)]
  }

  lemma EarlierMoveStillMistaken()
    ensures Possible(BusyArchive())
    ensures WaitRun(BusyArchive(), 0, 3, Wait([INBOX, ARCHIVE], {1}, 1), [Gone(1, [1, 3], false)], Ok(3))
    ensures InAccount(BusyArchive()[2], [INBOX, ARCHIVE], 2) && !InAccount(BusyArchive()[2], [INBOX, ARCHIVE], 3)
  {
    var h, w := BusyArchive(), Wait([INBOX, ARCHIVE], {1}, 1);
    SweptTwo(h, 1, 3, INBOX, ARCHIVE);
    assert RowsIn(h[1], INBOX) == {} && RowsIn(h[3], ARCHIVE) == {3};
    LoneIsAnswered(h, 0, 3, w, 1, [1, 3], 3);
  }

  /** Row 5 is in the account all the time, but while the snapshot is taken it is refiled from the mailbox
      read second to the one read first. */
  function RefiledMeanwhile(): seq<Store> {
    [Store(map[1 := Filed(INBOX), 5 := Filed(ARCHIVE)], map[], 5),
     Store(map[1 := Filed(INBOX), 5 := Filed(INBOX)], map[], 5),
     Store(map[5 := Filed(INBOX)], map[], 5)]
  }

  lemma RefiledRowMissed()
    ensures Swept(RefiledMeanwhile(), [0, 1], [INBOX, ARCHIVE]) == {1}
    ensures Swept(RefiledMeanwhile(), [2, 2], [INBOX, ARCHIVE]) == {5}
  {
    var h := RefiledMeanwhile();
    SweptTwo(h, 0, 1, INBOX, ARCHIVE);
    SweptTwo(h, 2, 2, INBOX, ARCHIVE);
    assert RowsIn(h[0], INBOX) == {1} && RowsIn(h[1], ARCHIVE) == {};
    assert RowsIn(h[2], INBOX) == {5} && RowsIn(h[2], ARCHIVE) == {};
  }

  /** No row at all enters the account, and yet the snapshot misses row 5 and the loop answers it. */
  lemma RefiledRowMistaken()
    ensures Possible(RefiledMeanwhile())
    ensures Swept(RefiledMeanwhile(), [0, 1], [INBOX, ARCHIVE]) == {1}
    ensures forall moved :: OnlyEntrant(RefiledMeanwhile(), 0, 2, [INBOX, ARCHIVE], moved)
    ensures WaitRun(RefiledMeanwhile(), 2, 2, Wait([INBOX, ARCHIVE], {1}, 1), [Gone(2, [2, 2], false)], Ok(5))
  {
    hide Swept, Polling, EndsWith;
    RefiledRowMissed();
    LoneIsAnswered(RefiledMeanwhile(), 2, 2, Wait([INBOX, ARCHIVE], {1}, 1), 2, [2, 2], 5);
  }

  // ----- when nothing changes any more -----

  /** On a store at rest the loop succeeds exactly when the old row is gone and one row is new. */
  lemma SettledAnswer(h: seq<Store>, lo: nat, hi: nat, w: Wait, polls: seq<Poll>, r: Answer)
    requires WaitRun(h, lo, hi, w, polls, r) && lo <= hi && forall i :: lo <= i <= hi ==> h[i] == h[lo]
    ensures r != Err(Database) ==>
              (r.Ok? <==> w.oldRow !in h[lo].rows && |AccountRows(h[lo], w.boxes) - w.before| == 1)
    ensures r.Ok? ==> AccountRows(h[lo], w.boxes) - w.before == {r.value}
  {
    if r != Err(Database) {
      var p := polls[|polls| - 1];
      if p.Gone? {
        SweptAtRest(h, lo, hi, w, p.checked, p.when);
      }
    }
  }

  function AccountRows(s: Store, boxes: seq<MailboxId>): set<Rowid> {
    set r | r in s.rows && s.rows[r].mailbox in boxes
  }

  lemma SweptAtRest(h: seq<Store>, lo: nat, hi: nat, w: Wait, from: nat, when: seq<nat>)
    requires lo <= from <= hi < |h| && Schedule(when, |w.boxes|, from, hi)
    requires forall i :: lo <= i <= hi ==> h[i] == h[lo]
    ensures NewRows(h, w, when) == AccountRows(h[lo], w.boxes) - w.before
  {
    forall r ensures r in Swept(h, when, w.boxes) <==> r in AccountRows(h[lo], w.boxes) {
      SweptMeaning(h, when, w.boxes, r);
      if r in AccountRows(h[lo], w.boxes) {
        var k: nat :| k < |w.boxes| && w.boxes[k] == h[lo].rows[r].mailbox;
        assert SeenAt(h, when, w.boxes, r, k);
      }
    }
  }
}
