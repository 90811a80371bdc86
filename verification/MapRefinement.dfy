/** The index over whole runs, seen as a map from rowid to document. The abstract machine knows
    no operation logs, no bags and no deletes by term: edits are noted in order and applied on
    commit. */
module MapRefinement {
  import opened MailStore
  import opened OpLog
  import opened SyncProtocol

  datatype Abstract = Abstract(committed: map<Rowid, Doc>, noted: seq<Edit>)

  function Removes(ids: seq<Rowid>): seq<Edit> {
    seq(|ids|, i requires 0 <= i < |ids| => Remove(ids[i]))
  }

  function Note(a: Abstract, step: Step): Abstract {
    match step
    case BeginStaging => a.(noted := [])
    case OpenWriter => a.(noted := [])
    case StageItem(doc) => a.(noted := a.noted + [Upsert(doc)])
    case StageEdit(e) => a.(noted := a.noted + [e])
    case StageDeletes(doomed) => a.(noted := Removes(doomed))
    case Commit => Abstract(EditAll(a.committed, a.noted), [])
    case CommitEdits => Abstract(EditAll(a.committed, a.noted), [])
    case CommitDeletes => Abstract(EditAll(a.committed, a.noted), [])
    case Crash => a.(noted := [])
    case _ => a
  }

  function NoteAll(steps: seq<Step>): Abstract {
    if steps == [] then Abstract(map[], []) else Note(NoteAll(steps[..|steps| - 1]), steps[|steps| - 1])
  }

  ghost predicate Refines(w: World, a: Abstract) {
    && Unique(w.docs)
    && AsMap(w.docs) == a.committed
    && (w.phase.Staging? ==> w.phase.log == LogOf(a.noted))
    && (w.phase.Mutating? ==> w.phase.log == LogOf(a.noted))
    && (w.phase.Purging? ==> Removes(w.phase.doomed) == a.noted)
  }

  lemma {:induction false} RemovesLog(ids: seq<Rowid>)
    ensures LogOf(Removes(ids)) == Deletes(ids)
  {
    if ids != [] {
      var front, last := ids[..|ids| - 1], ids[|ids| - 1];
      RemovesLog(front);
      assert ids == front + [last];
      DeletesAppend(front, last);
      assert Removes(ids) == Removes(front) + [Remove(last)];
      LogAppend(Removes(front), Remove(last));
    }
  }

  lemma StepRefines(w: World, a: Abstract, step: Step)
    requires Refines(w, a) && Enabled(w, step)
    ensures Refines(Act(w, step), Note(a, step))
  {
    match step
    case StageItem(doc) => LogAppend(a.noted, Upsert(doc));
    case StageEdit(e) => LogAppend(a.noted, e);
    case Commit => LogRefinesMap(w.docs, a.noted);
    case CommitEdits => LogRefinesMap(w.docs, a.noted);
    case CommitDeletes =>
      RemovesLog(w.phase.doomed);
      LogRefinesMap(w.docs, a.noted);
    case _ =>
  }

  ghost predicate Takes(run: seq<World>, steps: seq<Step>) {
    && |run| == |steps| + 1
    && forall i :: 0 <= i < |steps| ==> Enabled(run[i], steps[i]) && run[i + 1] == Act(run[i], steps[i])
  }

  /** Over any run of sync passes, mutations, reconciliations and crashes, the committed index has
      at most one document per rowid and is, as a map, what applying the committed upserts and
      removes in order yields. */
  lemma {:induction false} RunRefinesMap(run: seq<World>, steps: seq<Step>, i: nat)
    requires Takes(run, steps) && Init(run[0]) && i <= |steps|
    ensures Unique(run[i].docs) && AsMap(run[i].docs) == NoteAll(steps[..i]).committed
    ensures Refines(run[i], NoteAll(steps[..i]))
  {
    if i > 0 {
      RunRefinesMap(run, steps, i - 1);
      assert steps[..i][..i - 1] == steps[..i - 1];
      StepRefines(run[i - 1], NoteAll(steps[..i - 1]), steps[i - 1]);
    }
  }
}
