/** Any number of tasks in any number of processes, each a sync pass or a mutation, sharing one
    disk and the writer lock. With atomic acquires their joint behaviour is that of the
    single-writer machine of `SyncProtocol`, crashes included. */
module Processes {
  import opened Wrappers
  import opened MailStore
  import opened OpLog
  import opened Planner
  import opened SyncProtocol
  import Lock = WriterLock

  datatype System = System(
    normalize: string -> string, lock: Lock.State, store: Store, docs: seq<Doc>, state: SyncState, skipped: set<Rowid>,
    phases: map<Lock.Task, Phase>)

  datatype Event =
    | MailEvent(mail: MailStep)
    | LockEvent(lock: Lock.Step)
    | WorkEvent(task: Lock.Task, work: Step)

  /** The guard of a task starts its work in `Idle`; losing the guard ends it, in whatever phase
      it was. */
  function Phases(phases: map<Lock.Task, Phase>, holders: map<Lock.Task, Lock.Pid>): map<Lock.Task, Phase> {
    map t | t in holders :: if t in phases then phases[t] else Idle
  }

  function WorldOf(s: System, phase: Phase): World {
    World(s.normalize, s.store, s.docs, s.state, s.skipped, phase)
  }

  ghost predicate Enabled(s: System, e: Event) {
    match e
    case MailEvent(m) => CanDo(s.store, m)
    case LockEvent(l) => Lock.Enabled(s.lock, l) && Lock.NoRace(s.lock, l)
    case WorkEvent(t, step) =>
      t in s.lock.holders && t in s.phases && !step.Mail? && SyncProtocol.Enabled(WorldOf(s, s.phases[t]), step)
  }

  ghost function Act(s: System, e: Event): System
    requires Enabled(s, e)
  {
    match e
    case MailEvent(m) => s.(store := Do(s.store, m))
    case LockEvent(l) =>
      var lock := Lock.Act(s.lock, l);
      s.(lock := lock, phases := Phases(s.phases, lock.holders))
    case WorkEvent(t, step) =>
      var w := SyncProtocol.Act(WorldOf(s, s.phases[t]), step);
      s.(docs := w.docs, state := w.state, skipped := w.skipped, phases := s.phases[t := w.phase])
  }

  ghost predicate IsRun(run: seq<System>, events: seq<Event>) {
    && |run| == |events| + 1
    && forall i :: 0 <= i < |events| ==> Enabled(run[i], events[i]) && run[i + 1] == Act(run[i], events[i])
  }

  ghost predicate Init(s: System) {
    Lock.Init(s.lock) && s.phases == map[] && SyncProtocol.Init(WorldOf(s, Idle))
  }

  ghost predicate LockHeld(s: System) {
    Lock.Exclusive(s.lock) && Lock.PassedAlive(s.lock) && s.phases.Keys == s.lock.holders.Keys
  }

  /** The one writer's phase, or `Idle` when nobody holds the lock. */
  ghost function Abs(s: System): World {
    if s.phases.Keys == {} then WorldOf(s, Idle)
    else HasMember(s.phases.Keys); var t :| t in s.phases.Keys; WorldOf(s, s.phases[t])
  }

  lemma AbsOf(s: System, t: Lock.Task)
    requires LockHeld(s) && t in s.phases
    ensures Abs(s) == WorldOf(s, s.phases[t])
  {
  }

  lemma WorkRefines(s: System, t: Lock.Task, step: Step)
    requires LockHeld(s) && Enabled(s, WorkEvent(t, step))
    ensures LockHeld(Act(s, WorkEvent(t, step)))
    ensures Next(Abs(s), Abs(Act(s, WorkEvent(t, step))))
  {
    var s' := Act(s, WorkEvent(t, step));
    assert s'.phases.Keys == s.phases.Keys;
    AbsOf(s, t);
    AbsOf(s', t);
    assert SyncProtocol.Enabled(Abs(s), step) && Abs(s') == SyncProtocol.Act(Abs(s), step);
  }

  lemma LockRefines(s: System, l: Lock.Step)
    requires LockHeld(s) && Enabled(s, LockEvent(l))
    ensures LockHeld(Act(s, LockEvent(l)))
    ensures Next(Abs(s), Abs(Act(s, LockEvent(l))))
  {
    var s' := Act(s, LockEvent(l));
    Lock.StepKeepsExclusive(s.lock, l);
    assert s'.phases.Keys == s'.lock.holders.Keys;
    if s'.phases.Keys == {} || s.phases.Keys == {} {
      if s'.phases.Keys != {} {
        HasMember(s'.phases.Keys);
        var t :| t in s'.phases.Keys;
        AbsOf(s', t);
      }
      assert SyncProtocol.Enabled(Abs(s), Crash) && Abs(s') == SyncProtocol.Act(Abs(s), Crash);
    } else {
      SameWriter(s, l);
    }
  }

  /** A step of the lock that leaves a guard held leaves its holder's phase alone. */
  lemma SameWriter(s: System, l: Lock.Step)
    requires LockHeld(s) && Enabled(s, LockEvent(l)) && LockHeld(Act(s, LockEvent(l)))
    requires s.phases.Keys != {} && Act(s, LockEvent(l)).phases.Keys != {}
    ensures Abs(Act(s, LockEvent(l))) == Abs(s) && Next(Abs(s), Abs(s))
  {
    var s' := Act(s, LockEvent(l));
    HasMember(s.phases.Keys);
    var t :| t in s.phases.Keys;
    HasMember(s'.phases.Keys);
    var u :| u in s'.phases.Keys;
    AbsOf(s, t);
    AbsOf(s', u);
    assert t in s.lock.holders && u in s'.lock.holders;
    Stutter(Abs(s));
  }

  /** Standing still is a step of the machine: Mail.app may rewrite its mailbox table unchanged. */
  lemma Stutter(w: World)
    ensures Next(w, w)
  {
    var m := EditMailboxes(w.store.boxes);
    assert SyncProtocol.Enabled(w, Mail(m)) && SyncProtocol.Act(w, Mail(m)) == w;
  }

  lemma MailRefines(s: System, m: MailStep)
    requires LockHeld(s) && Enabled(s, MailEvent(m))
    ensures LockHeld(Act(s, MailEvent(m)))
    ensures Next(Abs(s), Abs(Act(s, MailEvent(m))))
  {
    var s' := Act(s, MailEvent(m));
    if s.phases.Keys != {} {
      HasMember(s.phases.Keys);
      var t :| t in s.phases.Keys;
      AbsOf(s, t);
      AbsOf(s', t);
    }
    assert SyncProtocol.Enabled(Abs(s), Mail(m)) && Abs(s') == SyncProtocol.Act(Abs(s), Mail(m));
  }

  lemma EventRefines(s: System, e: Event)
    requires LockHeld(s) && Enabled(s, e)
    ensures LockHeld(Act(s, e)) && Next(Abs(s), Abs(Act(s, e)))
  {
    match e
    case MailEvent(m) => MailRefines(s, m);
    case LockEvent(l) => LockRefines(s, l);
    case WorkEvent(t, step) => WorkRefines(s, t, step);
  }

  /** Every run of the whole system is a run of the single-writer machine. */
  lemma {:induction false} SystemRefinesProtocol(run: seq<System>, events: seq<Event>) returns (worlds: seq<World>)
    requires IsRun(run, events) && Init(run[0])
    ensures SyncProtocol.IsRun(worlds) && SyncProtocol.Init(worlds[0]) && |worlds| == |run|
    ensures forall i :: 0 <= i < |run| ==> LockHeld(run[i]) && worlds[i] == Abs(run[i])
    decreases |events|
  {
    if events == [] {
      worlds := [Abs(run[0])];
    } else {
      hide Abs, LockHeld, Next;
      var n := |events| - 1;
      var front := SystemRefinesProtocol(run[..n + 1], events[..n]);
      EventRefines(run[n], events[n]);
      worlds := front + [Abs(run[n + 1])];
      forall i | 0 <= i < |worlds| - 1 ensures Next(worlds[i], worlds[i + 1]) {
        if i < n {
          assert Next(front[i], front[i + 1]);
        }
      }
    }
  }

  /** Crash-safe completeness for the whole system: whoever syncs, mutates or dies, at most one
      task writes at a time, each live row at or below the persisted watermark has its document
      or was skipped, and whatever was skipped was skipped for cause by the one writer. */
  lemma SystemComplete(run: seq<System>, events: seq<Event>, i: nat, r: Rowid) returns (worlds: seq<World>)
    requires IsRun(run, events) && Init(run[0]) && i < |run|
    ensures |run[i].phases| <= 1
    ensures Unique(run[i].docs)
    ensures run[i].store.Live(r) && r <= run[i].state.watermark ==>
              (r in Rowids(run[i].docs)) != (r in run[i].skipped)
    ensures |worlds| == |run| && forall k :: 0 <= k < |run| ==> worlds[k] == Abs(run[k])
    ensures r in run[i].skipped ==> CausedBy(worlds, i, r)
  {
    worlds := SystemRefinesProtocol(run, events);
    CrashSafeCompleteness(worlds, i, r);
    AtMostOne(run[i]);
  }

  lemma AtMostOne(s: System)
    requires LockHeld(s)
    ensures |s.phases| <= 1
  {
    if s.phases.Keys != {} {
      HasMember(s.phases.Keys);
      var t :| t in s.phases.Keys;
      assert forall u :: u in s.phases.Keys ==> u == t;
      assert s.phases.Keys == {t};
      assert |s.phases| == |s.phases.Keys|;
    }
  }
}
