/** The advisory writer lock: one row of `meta.sqlite`, naming the pid of the writer. A guard
    belongs to a task; several tasks may run in one process and share its pid. */
module WriterLock {
  import opened Wrappers

  type Pid = int
  type Task = int

  datatype LockRow = LockRow(pid: Pid, process: string, since: int)

  datatype Busy = Busy(row: LockRow)

  /** A row blocks only while its pid is alive. */
  predicate Free(row: Option<LockRow>, alive: set<Pid>) {
    row.None? || row.value.pid !in alive
  }

  function Released(row: Option<LockRow>, pid: Pid): Option<LockRow> {
    if row.Some? && row.value.pid == pid then None else row
  }

  // ----- many tasks -----

  /** `passed` are the tasks between the read that found the lock free and their upsert. */
  datatype State = State(row: Option<LockRow>, alive: set<Pid>, passed: map<Task, Pid>, holders: map<Task, Pid>)

  /** `Check` and `Upsert` are the two statements of an acquire, `Acquire` both of them at once; `Forget` is a
      drop whose DELETE fails. */
  datatype Step =
    | Start(pid: Pid)
    | Exit(pid: Pid)
    | Check(task: Task, pid: Pid)
    | Upsert(task: Task, process: string, now: int)
    | Acquire(task: Task, pid: Pid, process: string, now: int)
    | Drop(task: Task)
    | Forget(task: Task)

  predicate Enabled(s: State, step: Step) {
    match step
    case Start(p) => p !in s.alive
    case Exit(p) => p in s.alive
    case Check(t, p) => p in s.alive && t !in s.holders && t !in s.passed && Free(s.row, s.alive)
    case Upsert(t, _, _) => t in s.passed
    case Acquire(t, p, _, _) => p in s.alive && t !in s.holders && t !in s.passed && Free(s.row, s.alive)
    case Drop(t) => t in s.holders
    case Forget(t) => t in s.holders
  }

  function Surviving(tasks: map<Task, Pid>, dead: Pid): map<Task, Pid> {
    map t | t in tasks && tasks[t] != dead :: tasks[t]
  }

  function Act(s: State, step: Step): State
    requires Enabled(s, step)
  {
    match step
    case Start(p) => s.(alive := s.alive + {p})
    case Exit(p) => s.(alive := s.alive - {p}, passed := Surviving(s.passed, p), holders := Surviving(s.holders, p))
    case Check(t, p) => s.(passed := s.passed[t := p])
    case Upsert(t, name, now) =>
      s.(row := Some(LockRow(s.passed[t], name, now)), passed := s.passed - {t}, holders := s.holders[t := s.passed[t]])
    case Acquire(t, p, name, now) => s.(row := Some(LockRow(p, name, now)), holders := s.holders[t := p])
    case Drop(t) => s.(row := Released(s.row, s.holders[t]), holders := s.holders - {t})
    case Forget(t) => s.(holders := s.holders - {t})
  }

  predicate Init(s: State) {
    s.row == None && s.passed == map[] && s.holders == map[]
  }

  ghost predicate IsRun(run: seq<State>, steps: seq<Step>) {
    && |run| == |steps| + 1
    && forall i :: 0 <= i < |steps| ==> Enabled(run[i], steps[i]) && run[i + 1] == Act(run[i], steps[i])
  }

  /** At most one guard is held; its holder is alive and the row names it. */
  ghost predicate Exclusive(s: State) {
    && (forall t :: t in s.holders ==> s.holders[t] in s.alive && s.row.Some? && s.row.value.pid == s.holders[t])
    && (forall t, u :: t in s.holders && u in s.holders ==> t == u)
  }

  /** What an atomic acquire amounts to: the lock is still free when the row is written. */
  predicate NoRace(s: State, step: Step) {
    step.Upsert? ==> Free(s.row, s.alive)
  }

  ghost predicate PassedAlive(s: State) {
    forall t :: t in s.passed ==> s.passed[t] in s.alive && t !in s.holders
  }

  lemma StepKeepsExclusive(s: State, step: Step)
    requires Exclusive(s) && PassedAlive(s) && Enabled(s, step) && NoRace(s, step)
    ensures Exclusive(Act(s, step)) && PassedAlive(Act(s, step))
  {
  }

  /** Mutual exclusion over every run of starts, exits, crashes, pid reuse, acquires and drops
      in which no row is written under a lock that is no longer free. */
  lemma {:induction false} MutualExclusion(run: seq<State>, steps: seq<Step>, i: nat)
    requires IsRun(run, steps) && Init(run[0]) && i < |run|
    requires forall k :: 0 <= k < |steps| ==> NoRace(run[k], steps[k])
    ensures Exclusive(run[i]) && PassedAlive(run[i])
  {
    if i > 0 {
      MutualExclusion(run, steps, i - 1);
      StepKeepsExclusive(run[i - 1], steps[i - 1]);
    }
  }

  /** The read and the upsert are separate statements, and without a transaction around them two
      tasks that both read first both end up with a guard. */
  lemma SplitAcquireRaces() returns (run: seq<State>, steps: seq<Step>)
    ensures IsRun(run, steps) && Init(run[0])
    ensures !Exclusive(run[|run| - 1]) && |run[|run| - 1].holders| == 2
  {
    steps := [Start(1), Start(2), Check(10, 1), Check(20, 2), Upsert(10, "a", 0), Upsert(20, "b", 0)];
    var s0 := State(None, {}, map[], map[]);
    var s1 := Act(s0, steps[0]);
    var s2 := Act(s1, steps[1]);
    var s3 := Act(s2, steps[2]);
    var s4 := Act(s3, steps[3]);
    var s5 := Act(s4, steps[4]);
    var s6 := Act(s5, steps[5]);
    run := [s0, s1, s2, s3, s4, s5, s6];
    assert 10 in s6.holders && 20 in s6.holders;
    assert s6.holders == map[10 := 1, 20 := 2];
  }

  lemma LateUpsertSafeIff(s: State, step: Step)
    requires Exclusive(s) && PassedAlive(s) && step.Upsert? && Enabled(s, step)
    ensures Exclusive(Act(s, step)) <==> s.holders.Keys == {}
  {
    var s' := Act(s, step);
    if s.holders.Keys != {} {
      HasMember(s.holders.Keys);
      var u :| u in s.holders.Keys;
      assert u in s'.holders && step.task in s'.holders && u != step.task;
    }
  }

  lemma {:induction false} PassedStayAlive(run: seq<State>, steps: seq<Step>, i: nat)
    requires IsRun(run, steps) && Init(run[0]) && i < |run|
    ensures PassedAlive(run[i])
  {
    if i > 0 {
      PassedStayAlive(run, steps, i - 1);
      assert Enabled(run[i - 1], steps[i - 1]) && run[i] == Act(run[i - 1], steps[i - 1]);
    }
  }

  ghost predicate NoUpsertUnderGuard(run: seq<State>, steps: seq<Step>, n: nat)
    requires n <= |steps| < |run|
  {
    forall k :: 0 <= k < n && steps[k].Upsert? ==> run[k].holders.Keys == {}
  }

  lemma {:induction false} ExclusiveWithoutLateUpserts(run: seq<State>, steps: seq<Step>, i: nat)
    requires IsRun(run, steps) && Init(run[0]) && i < |run| && NoUpsertUnderGuard(run, steps, i)
    ensures Exclusive(run[i])
  {
    if i > 0 {
      ExclusiveWithoutLateUpserts(run, steps, i - 1);
      PassedStayAlive(run, steps, i - 1);
      if steps[i - 1].Upsert? {
        LateUpsertSafeIff(run[i - 1], steps[i - 1]);
      } else {
        StepKeepsExclusive(run[i - 1], steps[i - 1]);
      }
    }
  }

  /** Exactly when the two-statement acquire keeps exclusion over a whole run: when no second statement
      is ever run while a guard is held. */
  lemma ExclusionIff(run: seq<State>, steps: seq<Step>)
    requires IsRun(run, steps) && Init(run[0])
    ensures (forall i :: 0 <= i < |run| ==> Exclusive(run[i])) <==> NoUpsertUnderGuard(run, steps, |steps|)
  {
    if NoUpsertUnderGuard(run, steps, |steps|) {
      forall i | 0 <= i < |run| ensures Exclusive(run[i]) {
        ExclusiveWithoutLateUpserts(run, steps, i);
      }
    } else {
      var k :| 0 <= k < |steps| && steps[k].Upsert? && run[k].holders.Keys != {};
      PassedStayAlive(run, steps, k);
      if Exclusive(run[k]) {
        LateUpsertSafeIff(run[k], steps[k]);
        assert !Exclusive(run[k + 1]);
      }
    }
  }

  /** With atomic acquires a dropped guard always leaves the lock free: the row it deletes, if its DELETE
      succeeds, is its own, and nobody else can have been let in meanwhile. */
  lemma DropFrees(run: seq<State>, steps: seq<Step>, i: nat)
    requires IsRun(run, steps) && Init(run[0]) && i < |steps| && steps[i].Drop?
    requires forall k :: 0 <= k < |steps| ==> NoRace(run[k], steps[k])
    ensures run[i + 1].row == None && run[i + 1].holders.Keys == {}
  {
    MutualExclusion(run, steps, i);
    assert Enabled(run[i], steps[i]) && run[i + 1] == Act(run[i], steps[i]);
    assert forall u :: u in run[i].holders ==> u == steps[i].task;
  }

  /** A guard whose DELETE fails is silently forgotten, but its row stays: from then on nobody, not even
      its own process, gets the lock until that process exits. */
  lemma {:induction false} FailedDropBlocks(run: seq<State>, steps: seq<Step>, t: Task, i: nat)
    requires IsRun(run, steps) && steps != [] && Exclusive(run[0]) && t in run[0].holders && steps[0] == Forget(t)
    requires forall k :: 0 <= k < |steps| ==> NoRace(run[k], steps[k]) && steps[k] != Exit(run[0].holders[t])
    requires 1 <= i < |run|
    ensures run[i].holders.Keys == {} && run[i].row == run[0].row && !Free(run[i].row, run[i].alive)
  {
    assert Enabled(run[i - 1], steps[i - 1]) && run[i] == Act(run[i - 1], steps[i - 1]);
    if i == 1 {
      assert forall u :: u in run[0].holders ==> u == t;
    } else {
      FailedDropBlocks(run, steps, t, i - 1);
    }
  }

  /** After a crash the lock can be taken at once, unless and until the dead writer's pid is
      handed to some new process: that alone blocks it, even for the new process itself. */
  lemma CrashedWriterReclaimed(s: State, t: Task, u: Task, p: Pid)
    requires Exclusive(s) && PassedAlive(s) && t in s.holders
    requires u !in s.holders && u !in s.passed
    ensures var crashed := Act(s, Exit(s.holders[t]));
            && crashed.holders.Keys == {}
            && (p in crashed.alive ==> Enabled(crashed, Acquire(u, p, "", 0)))
            && Enabled(crashed, Start(s.holders[t]))
            && !Enabled(Act(crashed, Start(s.holders[t])), Acquire(u, s.holders[t], "", 0))
  {
    var crashed := Act(s, Exit(s.holders[t]));
    assert forall v :: v in s.holders ==> v == t;
    assert forall v :: v in crashed.holders ==> v in s.holders;
  }

  // ----- the table -----

  /** The lock row as the programs of this machine see it, and the pids alive on it. */
  class LockTable {
    var row: Option<LockRow>
    var alive: set<Pid>
    /** Whether no statement on the table ever fails. */
    const reliable: bool

    constructor (alive: set<Pid>, reliable: bool)
      ensures row == None && this.alive == alive && this.reliable == reliable
    {
      row, this.alive, this.reliable := None, alive, reliable;
    }

    predicate Shows(s: State)
      reads this
    {
      s.row == row && s.alive == alive
    }

    /** Other processes act; this one goes on living. */
    method Others(pid: Pid)
      modifies this
      ensures pid in old(alive) ==> pid in alive
    {
    }

    /** `IndexWriter::acquire`, with nobody acting between its read and its upsert: the lock machine's
        atomic step. A dead writer's row is taken over; a live one's is reported, and left alone. */
    method Acquire(pid: Pid, process: string, now: int, ghost s: State, ghost t: Task) returns (r: Result<LockRow, Busy>)
      requires Shows(s) && pid in alive && t !in s.holders && t !in s.passed
      modifies this`row
      ensures r.Ok? <==> Enabled(s, Step.Acquire(t, pid, process, now))
      ensures r.Ok? ==> Shows(Act(s, Step.Acquire(t, pid, process, now))) && row == Some(LockRow(pid, process, now)) && row == Some(r.value)
      ensures r.Err? ==> row == old(row) && row == Some(r.error.row) && r.error.row.pid in alive
    {
      if row.Some? {
        if row.value.pid in alive {
          return Err(Busy(row.value));
        }
      }
      row := Some(LockRow(pid, process, now));
      r := Ok(row.value);
    }

    /** Dropping a guard: `DELETE ... WHERE id = 1 AND pid = ?1`, whose failure is ignored. Unless it fails, the
        lock is no longer held under this pid. */
    method Drop(pid: Pid, ghost s: State, ghost t: Task) returns (ghost deleted: bool)
      requires Shows(s) && t in s.holders && s.holders[t] == pid
      modifies this`row
      ensures Shows(Act(s, if deleted then Step.Drop(t) else Forget(t)))
      ensures old(row).Some? && old(row).value.pid == pid && deleted ==> row == None
      ensures (old(row).Some? && old(row).value.pid != pid) || !deleted ==> row == old(row)
      ensures reliable ==> deleted
    {
      var ok: bool := *;
      ok := ok || reliable;
      deleted := ok;
      if ok && row.Some? {
        if row.value.pid == pid {
          row := None;
        }
      }
    }

    /** `busy_status`, which inspects and never reclaims. */
    method BusyStatus() returns (status: Option<(string, Pid)>)
      ensures status.None? <==> Free(row, alive)
      ensures status.Some? ==> row.Some? && status.value == (row.value.process, row.value.pid)
    {
      status := None;
      if row.Some? {
        if row.value.pid in alive {
          status := Some((row.value.process, row.value.pid));
        }
      }
    }
  }
}
