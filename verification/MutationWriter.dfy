/** Opening the writer of a mutation: a busy lock is retried, with exponential backoff, for a bounded
    time. */
module MutationWriter {
  import opened Wrappers
  import opened Clocks
  import opened Lock = WriterLock

  const ACQUIRE_BUDGET := 2000
  const INITIAL_BACKOFF := 50

  datatype Refusal = HeldBy(row: LockRow) | Broken

  /** One call of the lock's acquire, which may also fail for reasons of its own unless the table is known to
      be reliable. */
  method Attempt(table: LockTable, clock: Clock, pid: Pid, process: string) returns (r: Result<LockRow, Refusal>)
    requires pid in table.alive
    modifies table, clock
    ensures old(clock.now) <= clock.now && pid in table.alive && clock.slept == old(clock.slept)
    ensures r.Ok? ==> table.row == Some(r.value) && r.value == LockRow(pid, process, clock.now)
    ensures table.reliable ==> r != Err(Broken)
    ensures r.Err? && r.error.HeldBy? ==> table.row == Some(r.error.row) && r.error.row.pid in table.alive
  {
    clock.Elapse();
    table.Others(pid);
    var reachable: bool := *;
    if !reachable && !table.reliable { return Err(Broken); }
    ghost var seen := State(table.row, table.alive, map[], map[]);
    var answer := table.Acquire(pid, process, clock.now, seen, 0);
    r := if answer.Ok? then Ok(answer.value) else Err(HeldBy(answer.error.row));
  }

  function Pow2(n: nat): nat {
    if n == 0 then 1 else 2 * Pow2(n - 1)
  }

  lemma {:induction false} Pow2Grows(n: nat)
    ensures n >= 6 ==> 64 <= Pow2(n)
  {
    if n > 6 {
      Pow2Grows(n - 1);
    } else if n == 6 {
      assert Pow2(5) == 2 * Pow2(4) && Pow2(4) == 2 * Pow2(3) && Pow2(3) == 2 * Pow2(2);
    }
  }

  lemma Pow2Step(n: nat)
    ensures Pow2(0) == 1 && Pow2(n + 1) == 2 * Pow2(n)
  {
  }

  predicate IsBusy(r: Result<LockRow, Refusal>) {
    r.Err? && r.error.HeldBy?
  }

  /** So many waits take up all the time that the doubling gives them, or all there is. */
  predicate Spent(start: int, n: nat, now: int, deadline: int) {
    start + 50 * (Pow2(n) - 1) <= now || deadline <= now
  }

  lemma SpentNone(start: int, deadline: int)
    ensures Spent(start, 0, start, deadline) && Pow2(0) == 1
  {
  }

  lemma SpentMore(start: int, n: nat, was: int, pause: int, now: int, deadline: int)
    requires Spent(start, n, was, deadline) && was <= pause <= now && (pause + 50 * Pow2(n) <= now || deadline <= now)
    ensures Spent(start, n + 1, now, deadline)
  {
  }

  /** Six of them exhaust the two seconds. */
  lemma SpentAll(start: int, n: nat, now: int, deadline: int)
    requires Spent(start, n, now, deadline) && deadline == start + 2000
    ensures n >= 6 ==> deadline <= now
  {
    Pow2Grows(n);
  }

  predicate AllBusy(answers: seq<Result<LockRow, Refusal>>) {
    forall k :: 0 <= k < |answers| ==> IsBusy(answers[k])
  }

  lemma NoneBusy()
    ensures AllBusy([])
  {
  }

  lemma MoreBusy(answers: seq<Result<LockRow, Refusal>>, r: Result<LockRow, Refusal>)
    requires AllBusy(answers) && IsBusy(r)
    ensures AllBusy(answers + [r])
  {
  }

  /** After each attempt twice as long passes as after the one before, or all the time there is. */
  ghost predicate Paced(at: seq<int>, deadline: int) {
    forall k :: 0 <= k < |at| - 1 ==> at[k] + 50 * Pow2(k) <= at[k + 1] || deadline <= at[k + 1]
  }

  /** So many sleeps more, none longer than its turn in the doubling allows. */
  predicate Naps(before: seq<nat>, after: seq<nat>, n: nat) {
    && |after| == |before| + n && before <= after
    && forall k :: 0 <= k < n ==> after[|before| + k] <= 50 * Pow2(k)
  }

  lemma NapsMore(before: seq<nat>, was: seq<nat>, now: seq<nat>, n: nat)
    requires Naps(before, was, n) && |now| == |was| + 1 && was <= now && now[|was|] <= 50 * Pow2(n)
    ensures Naps(before, now, n + 1)
  {
  }

  lemma NoNaps(slept: seq<nat>)
    ensures Naps(slept, slept, 0)
  {
  }

  lemma PacedOnce(now: int, deadline: int)
    ensures Paced([now], deadline)
  {
  }

  lemma PacedLater(at: seq<int>, was: int, now: int, deadline: int)
    requires Paced(at + [was], deadline) && was <= now
    ensures Paced(at + [now], deadline)
  {
    var a, b := at + [was], at + [now];
    forall k | 0 <= k < |b| - 1 ensures b[k] + 50 * Pow2(k) <= b[k + 1] || deadline <= b[k + 1] {
      assert a[k] + 50 * Pow2(k) <= a[k + 1] || deadline <= a[k + 1];
    }
  }

  lemma PacedMore(at: seq<int>, now: int, deadline: int)
    requires at != [] && Paced(at, deadline)
    requires at[|at| - 1] + 50 * Pow2(|at| - 1) <= now || deadline <= now
    ensures Paced(at + [now], deadline)
  {
  }

  /** The backoff, cut short at the deadline. */
  method Pause(clock: Clock, backoff: nat, deadline: int)
    modifies clock
    ensures old(clock.now) <= clock.now && (old(clock.now) + backoff <= clock.now || deadline <= clock.now)
    ensures exists ms :: 0 <= ms <= backoff && clock.slept == old(clock.slept) + [ms]
  {
    clock.Elapse();
    clock.Sleep(Min(backoff, Max(0, deadline - clock.now)));
  }

  /** `acquire_with_retry`, whatever other processes do to the lock: at most seven attempts, success and
      unexpected errors passed on at once, and a busy lock reported, with the live holder the last
      attempt saw, only when the budget is spent. Between two attempts it waits twice as long as the
      time before, or until the budget is spent. */
  method AcquireWithRetry(table: LockTable, clock: Clock, pid: Pid, process: string)
    returns (r: Result<LockRow, Refusal>, ghost answers: seq<Result<LockRow, Refusal>>, ghost at: seq<int>)
    requires pid in table.alive
    modifies table, clock
    ensures old(clock.now) <= clock.now && (table.reliable ==> r != Err(Broken))
    ensures 1 <= |answers| <= 7 && r == answers[|answers| - 1]
    ensures AllBusy(answers[..|answers| - 1])
    ensures r.Ok? ==>
      table.row == Some(r.value) && r.value == LockRow(pid, process, r.value.since) && old(clock.now) <= r.value.since <= clock.now
    ensures IsBusy(r) ==> table.row == Some(r.error.row) && r.error.row.pid in table.alive
    ensures IsBusy(r) ==> old(clock.now) + 2000 <= clock.now
    ensures |at| == |answers| && Paced(at, old(clock.now) + 2000)
    ensures Naps(old(clock.slept), clock.slept, |answers| - 1)
  {
    var deadline := clock.now + ACQUIRE_BUDGET;
    var backoff := INITIAL_BACKOFF;
    answers, at := [], [];
    hide Paced, Naps, AllBusy, Spent, Min, Pow2;
    SpentNone(clock.now, deadline);
    PacedOnce(clock.now, deadline);
    NoNaps(clock.slept);
    NoneBusy();
    assert at + [clock.now] == [clock.now];
    while true
      invariant pid in table.alive
      invariant Naps(old(clock.slept), clock.slept, |answers|)
      invariant |at| == |answers| && Paced(at + [clock.now], deadline)
      invariant backoff == INITIAL_BACKOFF * Pow2(|answers|)
      invariant Spent(old(clock.now), |answers|, clock.now, deadline)
      invariant |answers| <= 6 && old(clock.now) <= clock.now
      invariant AllBusy(answers)
      decreases 7 - |answers|
    {
      SpentAll(old(clock.now), |answers|, clock.now, deadline);
      Pow2Step(|answers|);
      ghost var was := clock.now;
      r := Attempt(table, clock, pid, process);
      PacedLater(at, was, clock.now, deadline);
      ghost var before := answers;
      answers, at := before + [r], at + [clock.now];
      assert answers[..|answers| - 1] == before;
      if r.Ok? || r.error.Broken? { return; }
      clock.Elapse();
      if deadline <= clock.now { return; }
      ghost var slept, pause := clock.slept, clock.now;
      Pause(clock, backoff, deadline);
      MoreBusy(before, r);
      NapsMore(old(clock.slept), slept, clock.slept, |answers| - 1);
      SpentMore(old(clock.now), |answers| - 1, was, pause, clock.now, deadline);
      PacedMore(at, clock.now, deadline);
      backoff := backoff * 2;
    }
  }
}
