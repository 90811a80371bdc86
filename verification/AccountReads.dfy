/** Reading an account's rowids one mailbox, and so one statement, at a time, while rows come, go
    and are refiled in between. A history `h` holds one store per instant. */
module AccountReads {
  import opened MailStore
  import opened OpLog

  /** A row filed, deleted or not, in one of the account's mailboxes. */
  predicate InAccount(s: Store, boxes: seq<MailboxId>, r: Rowid) {
    r in s.rows && s.rows[r].mailbox in boxes
  }

  function RowsIn(s: Store, m: MailboxId): (rows: set<Rowid>)
    ensures forall r :: r in rows <==> r in s.rows && s.rows[r].mailbox == m
  {
    set r | r in s.rows && s.rows[r].mailbox == m
  }

  /** The instants, in order and within bounds, at which `n` statements are run. */
  predicate Schedule(when: seq<nat>, n: nat, lo: nat, hi: nat) {
    && |when| == n
    && (forall k :: 0 <= k < n ==> lo <= when[k] <= hi)
    && (forall j, k :: 0 <= j < k < n ==> when[j] <= when[k])
  }

  /** What the statements see together, mailbox `k` being read at instant `when[k]`. */
  function Swept(h: seq<Store>, when: seq<nat>, boxes: seq<MailboxId>): set<Rowid>
    requires |when| == |boxes| && forall k :: 0 <= k < |when| ==> when[k] < |h|
  {
    if boxes == [] then {}
    else
      var n := |boxes| - 1;
      Swept(h, when[..n], boxes[..n]) + RowsIn(h[when[n]], boxes[n])
  }

  ghost predicate SeenAt(h: seq<Store>, when: seq<nat>, boxes: seq<MailboxId>, r: Rowid, k: nat)
    requires |when| == |boxes| && forall k :: 0 <= k < |when| ==> when[k] < |h|
  {
    k < |boxes| && r in RowsIn(h[when[k]], boxes[k])
  }

  lemma {:induction false} SweptMeaning(h: seq<Store>, when: seq<nat>, boxes: seq<MailboxId>, r: Rowid)
    requires |when| == |boxes| && forall k :: 0 <= k < |when| ==> when[k] < |h|
    ensures r in Swept(h, when, boxes) <==> exists k: nat :: SeenAt(h, when, boxes, r, k)
    decreases |boxes|
  {
    if boxes != [] {
      var n := |boxes| - 1;
      SweptMeaning(h, when[..n], boxes[..n], r);
      if k: nat :| SeenAt(h, when[..n], boxes[..n], r, k) {
        assert SeenAt(h, when, boxes, r, k);
      }
      if r in RowsIn(h[when[n]], boxes[n]) {
        assert SeenAt(h, when, boxes, r, n);
      }
      if k: nat :| SeenAt(h, when, boxes, r, k) {
        assert k < n ==> SeenAt(h, when[..n], boxes[..n], r, k);
      }
    }
  }

  lemma SweptOne(h: seq<Store>, a: nat, m: MailboxId)
    requires a < |h|
    ensures Swept(h, [a], [m]) == RowsIn(h[a], m)
  {
    assert [a][..0] == [] && [m][..0] == [];
  }

  lemma SweptTwo(h: seq<Store>, a: nat, b: nat, m: MailboxId, n: MailboxId)
    requires a < |h| && b < |h|
    ensures Swept(h, [a, b], [m, n]) == RowsIn(h[a], m) + RowsIn(h[b], n)
  {
    assert [a, b][..1] == [a] && [m, n][..1] == [m];
    SweptOne(h, a, m);
  }

  lemma {:induction false} SweptStays(h: seq<Store>, h': seq<Store>, when: seq<nat>, boxes: seq<MailboxId>)
    requires |when| == |boxes| && (forall k :: 0 <= k < |when| ==> when[k] < |h|) && h <= h'
    ensures Swept(h, when, boxes) == Swept(h', when, boxes)
    decreases |boxes|
  {
    if boxes != [] {
      var n := |boxes| - 1;
      SweptStays(h, h', when[..n], boxes[..n]);
    }
  }

  // ----- when a snapshot is complete -----

  /** The position of a mailbox in reading order. */
  function IndexOf(boxes: seq<MailboxId>, m: MailboxId): (k: nat)
    requires m in boxes
    ensures k < |boxes| && boxes[k] == m
  {
    if boxes[0] == m then 0 else 1 + IndexOf(boxes[1..], m)
  }

  function Place(s: Store, boxes: seq<MailboxId>, r: Rowid): (k: nat)
    requires InAccount(s, boxes, r)
    ensures k < |boxes| && boxes[k] == s.rows[r].mailbox
  {
    IndexOf(boxes, s.rows[r].mailbox)
  }

  /** In the account at every instant. */
  ghost predicate Stays(h: seq<Store>, lo: nat, hi: nat, boxes: seq<MailboxId>, r: Rowid)
    requires hi < |h|
  {
    forall i :: lo <= i <= hi ==> InAccount(h[i], boxes, r)
  }

  /** Never refiled from one mailbox to another that is read earlier. */
  ghost predicate MovesForward(h: seq<Store>, lo: nat, hi: nat, boxes: seq<MailboxId>, r: Rowid)
    requires hi < |h| && Stays(h, lo, hi, boxes, r)
  {
    forall i, j :: lo <= i <= j <= hi ==> Place(h[i], boxes, r) <= Place(h[j], boxes, r)
  }

  /** Reading mailbox after mailbox, a row that is missed every time is driven before the reader. */
  lemma {:induction false} MissedMovesAhead(h: seq<Store>, lo: nat, hi: nat, boxes: seq<MailboxId>, when: seq<nat>, r: Rowid, k: nat)
    requires lo <= hi < |h| && Schedule(when, |boxes|, lo, hi) && k < |boxes|
    requires Stays(h, lo, hi, boxes, r) && MovesForward(h, lo, hi, boxes, r) && r !in Swept(h, when, boxes)
    ensures k < Place(h[when[k]], boxes, r)
  {
    SweptMeaning(h, when, boxes, r);
    assert !SeenAt(h, when, boxes, r, k);
    assert InAccount(h[when[k]], boxes, r);
    if k > 0 {
      MissedMovesAhead(h, lo, hi, boxes, when, r, k - 1);
      assert Place(h[when[k - 1]], boxes, r) <= Place(h[when[k]], boxes, r);
    }
  }

  /** Read before the row leaves its mailbox up to there, and after it has arrived from there on. */
  function Dodge(n: nat, cut: nat, before: nat, after: nat): (when: seq<nat>)
    ensures |when| == n && forall k :: 0 <= k < n ==> when[k] == if k < cut then before else after
  {
    seq(n, k => if k < cut then before else after)
  }

  lemma DodgeMisses(h: seq<Store>, boxes: seq<MailboxId>, r: Rowid, i: nat, j: nat)
    requires i <= j < |h| && Distinct(boxes) && InAccount(h[i], boxes, r) && InAccount(h[j], boxes, r)
    requires Place(h[j], boxes, r) < Place(h[i], boxes, r)
    ensures r !in Swept(h, Dodge(|boxes|, Place(h[i], boxes, r), i, j), boxes)
  {
    var when := Dodge(|boxes|, Place(h[i], boxes, r), i, j);
    SweptMeaning(h, when, boxes, r);
    forall k: nat | k < |boxes| ensures !SeenAt(h, when, boxes, r, k) {
    }
  }

  /** Whenever the statements are run, one of them sees the row. */
  ghost predicate InEverySnapshot(h: seq<Store>, lo: nat, hi: nat, boxes: seq<MailboxId>, r: Rowid)
    requires hi < |h|
  {
    forall when :: Schedule(when, |boxes|, lo, hi) ==> r in Swept(h, when, boxes)
  }

  /** A row that is in the account all the while is in every possible snapshot exactly if it is never
      refiled to a mailbox read earlier than the one it leaves. */
  lemma SnapshotCompleteIff(h: seq<Store>, lo: nat, hi: nat, boxes: seq<MailboxId>, r: Rowid)
    requires lo <= hi < |h| && Distinct(boxes) && Stays(h, lo, hi, boxes, r)
    ensures InEverySnapshot(h, lo, hi, boxes, r) <==> MovesForward(h, lo, hi, boxes, r)
  {
    assert InAccount(h[lo], boxes, r);
    if MovesForward(h, lo, hi, boxes, r) {
      forall when | Schedule(when, |boxes|, lo, hi) ensures r in Swept(h, when, boxes) {
        if r !in Swept(h, when, boxes) {
          MissedMovesAhead(h, lo, hi, boxes, when, r, |boxes| - 1);
        }
      }
    } else {
      var i, j :| lo <= i <= j <= hi && Place(h[j], boxes, r) < Place(h[i], boxes, r);
      var when := Dodge(|boxes|, Place(h[i], boxes, r), i, j);
      DodgeMisses(h, boxes, r, i, j);
      assert Schedule(when, |boxes|, lo, hi);
    }
  }

  predicate Enters(h: seq<Store>, i: nat, boxes: seq<MailboxId>, r: Rowid) {
    i + 1 < |h| && InAccount(h[i + 1], boxes, r) && !InAccount(h[i], boxes, r)
  }

  /** No row but `moved` enters the account between two instants. */
  ghost predicate OnlyEntrant(h: seq<Store>, lo: nat, hi: nat, boxes: seq<MailboxId>, moved: Rowid)
    requires hi < |h|
  {
    forall i: nat, r :: lo <= i < hi && Enters(h, i, boxes, r) ==> r == moved
  }

  lemma {:induction false} AlwaysThere(h: seq<Store>, lo: nat, hi: nat, n: nat, boxes: seq<MailboxId>, moved: Rowid, r: Rowid)
    requires lo <= n <= hi < |h| && OnlyEntrant(h, lo, hi, boxes, moved)
    requires r != moved && InAccount(h[n], boxes, r)
    ensures Stays(h, lo, n, boxes, r)
    decreases n
  {
    if lo < n {
      assert !Enters(h, n - 1, boxes, r);
      AlwaysThere(h, lo, hi, n - 1, boxes, moved, r);
    }
  }
}
