/** The Tantivy index as the indexer uses it: a bag of committed documents and a log of
    uncommitted operations. `DeleteTerm(r)` removes every document of rowid `r` that precedes
    it in operation order; a commit publishes the whole log at once. */
module OpLog {
  import opened MailStore

  datatype BodyState = Indexed | Pending | Unavailable | Quarantined
  datatype AttachmentState = NoAttachments | Extracted | NotDownloaded | Unextractable
  datatype Classified = Classified(body: BodyState, attachments: AttachmentState)

  datatype Doc = Doc(rowid: Rowid, account: string, url: string, classified: Classified)

  datatype Op = DeleteTerm(rowid: Rowid) | AddDocument(doc: Doc)

  /** What the callers mean: replace-or-insert, and remove. */
  datatype Edit = Upsert(doc: Doc) | Remove(rowid: Rowid)

  function Without(docs: seq<Doc>, r: Rowid): seq<Doc> {
    if docs == [] then []
    else if docs[|docs| - 1].rowid == r then Without(docs[..|docs| - 1], r)
    else Without(docs[..|docs| - 1], r) + [docs[|docs| - 1]]
  }

  function Apply(docs: seq<Doc>, op: Op): seq<Doc> {
    match op
    case DeleteTerm(r) => Without(docs, r)
    case AddDocument(d) => docs + [d]
  }

  function ApplyAll(docs: seq<Doc>, ops: seq<Op>): seq<Doc> {
    if ops == [] then docs
    else Apply(ApplyAll(docs, ops[..|ops| - 1]), ops[|ops| - 1])
  }

  /** The map from rowid to document that a bag of documents stands for. */
  function AsMap(docs: seq<Doc>): map<Rowid, Doc> {
    if docs == [] then map[]
    else AsMap(docs[..|docs| - 1])[docs[|docs| - 1].rowid := docs[|docs| - 1]]
  }

  /** The rowids that have at least one document. */
  function Rowids(docs: seq<Doc>): set<Rowid> {
    AsMap(docs).Keys
  }

  /** At most one document per rowid. */
  predicate Unique(docs: seq<Doc>) {
    docs == [] || (Unique(docs[..|docs| - 1]) && docs[|docs| - 1].rowid !in Rowids(docs[..|docs| - 1]))
  }

  function OpsOf(e: Edit): seq<Op> {
    match e
    case Upsert(d) => [DeleteTerm(d.rowid), AddDocument(d)]
    case Remove(r) => [DeleteTerm(r)]
  }

  function LogOf(edits: seq<Edit>): seq<Op> {
    if edits == [] then []
    else LogOf(edits[..|edits| - 1]) + OpsOf(edits[|edits| - 1])
  }

  function EditMap(m: map<Rowid, Doc>, e: Edit): map<Rowid, Doc> {
    match e
    case Upsert(d) => m[d.rowid := d]
    case Remove(r) => m - {r}
  }

  function EditAll(m: map<Rowid, Doc>, edits: seq<Edit>): map<Rowid, Doc> {
    if edits == [] then m
    else EditMap(EditAll(m, edits[..|edits| - 1]), edits[|edits| - 1])
  }

  // ----- what the recursive definitions mean -----

  lemma {:induction false} RowidsMeaning(docs: seq<Doc>, r: Rowid)
    ensures r in Rowids(docs) <==> exists i :: 0 <= i < |docs| && docs[i].rowid == r
  {
    if docs != [] {
      var front := docs[..|docs| - 1];
      RowidsMeaning(front, r);
      if r in Rowids(front) {
        var i :| 0 <= i < |front| && front[i].rowid == r;
        assert docs[i].rowid == r;
      } else if exists i :: 0 <= i < |docs| && docs[i].rowid == r {
        var i :| 0 <= i < |docs| && docs[i].rowid == r;
        assert i < |front| ==> front[i].rowid == r;
      }
    }
  }

  lemma {:induction false} UniqueMeaning(docs: seq<Doc>)
    ensures Unique(docs) <==> forall i, j :: 0 <= i < j < |docs| ==> docs[i].rowid != docs[j].rowid
  {
    if docs != [] {
      var n := |docs| - 1;
      var front := docs[..n];
      UniqueMeaning(front);
      RowidsMeaning(front, docs[n].rowid);
      if Unique(docs) {
        forall i, j | 0 <= i < j < |docs| ensures docs[i].rowid != docs[j].rowid {
          assert docs[i] == front[i];
          assert j < n ==> docs[j] == front[j];
        }
      } else if Unique(front) {
        var i :| 0 <= i < |front| && front[i].rowid == docs[n].rowid;
        assert docs[i].rowid == docs[n].rowid;
      } else {
        var i, j :| 0 <= i < j < |front| && front[i].rowid == front[j].rowid;
        assert docs[i].rowid == docs[j].rowid;
      }
    }
  }

  /** A bag with one document per rowid holds exactly what its map says. */
  lemma {:induction false} MemberMeaning(docs: seq<Doc>, d: Doc)
    requires Unique(docs)
    ensures d in docs <==> d.rowid in AsMap(docs) && AsMap(docs)[d.rowid] == d
  {
    if docs != [] {
      var front, last := docs[..|docs| - 1], docs[|docs| - 1];
      assert docs == front + [last];
      MemberMeaning(front, d);
      RowidsMeaning(front, last.rowid);
    }
  }

  lemma {:induction false} UniqueCount(docs: seq<Doc>)
    requires Unique(docs)
    ensures |docs| == |Rowids(docs)|
  {
    if docs != [] {
      var front, r := docs[..|docs| - 1], docs[|docs| - 1].rowid;
      UniqueCount(front);
      assert Rowids(docs) == Rowids(front) + {r};
    }
  }

  // ----- one operation -----

  lemma {:induction false} WithoutMap(docs: seq<Doc>, r: Rowid)
    ensures AsMap(Without(docs, r)) == AsMap(docs) - {r}
  {
    if docs != [] {
      var front, last := docs[..|docs| - 1], docs[|docs| - 1];
      WithoutMap(front, r);
      var w := Without(docs, r);
      if last.rowid != r {
        assert w[..|w| - 1] == Without(front, r);
      }
    }
  }

  lemma {:induction false} WithoutUnique(docs: seq<Doc>, r: Rowid)
    requires Unique(docs)
    ensures Unique(Without(docs, r))
  {
    if docs != [] {
      var front, last := docs[..|docs| - 1], docs[|docs| - 1];
      WithoutUnique(front, r);
      WithoutMap(front, r);
      var w := Without(docs, r);
      if last.rowid != r {
        assert w[..|w| - 1] == Without(front, r);
      }
    }
  }

  lemma AppendFacts(docs: seq<Doc>, d: Doc)
    ensures AsMap(docs + [d]) == AsMap(docs)[d.rowid := d]
    ensures Unique(docs) && d.rowid !in Rowids(docs) ==> Unique(docs + [d])
  {
    assert (docs + [d])[..|docs|] == docs;
  }

  // ----- a log of operations -----

  lemma ApplyAppend(docs: seq<Doc>, ops: seq<Op>, op: Op)
    ensures ApplyAll(docs, ops + [op]) == Apply(ApplyAll(docs, ops), op)
  {
    assert (ops + [op])[..|ops|] == ops;
  }

  lemma UpsertStaged(docs: seq<Doc>, ops: seq<Op>, d: Doc)
    requires Unique(ApplyAll(docs, ops))
    ensures Unique(ApplyAll(docs, ops + OpsOf(Upsert(d))))
    ensures AsMap(ApplyAll(docs, ops + OpsOf(Upsert(d)))) == AsMap(ApplyAll(docs, ops))[d.rowid := d]
  {
    var del := ops + [DeleteTerm(d.rowid)];
    assert ops + OpsOf(Upsert(d)) == del + [AddDocument(d)];
    hide ApplyAll, Without, Unique, OpsOf, AsMap;
    ApplyAppend(docs, del, AddDocument(d));
    ApplyAppend(docs, ops, DeleteTerm(d.rowid));
    WithoutMap(ApplyAll(docs, ops), d.rowid);
    WithoutUnique(ApplyAll(docs, ops), d.rowid);
    AppendFacts(ApplyAll(docs, del), d);
  }

  /** One staged edit: uniqueness is kept, exactly its rowid changes. */
  lemma EditStaged(docs: seq<Doc>, ops: seq<Op>, e: Edit)
    requires Unique(ApplyAll(docs, ops))
    ensures Unique(ApplyAll(docs, ops + OpsOf(e)))
    ensures AsMap(ApplyAll(docs, ops + OpsOf(e))) == EditMap(AsMap(ApplyAll(docs, ops)), e)
  {
    match e
    case Upsert(d) =>
      UpsertStaged(docs, ops, d);
    case Remove(r) =>
      ApplyAppend(docs, ops, DeleteTerm(r));
      WithoutMap(ApplyAll(docs, ops), r);
      WithoutUnique(ApplyAll(docs, ops), r);
  }

  /** The op-logged index refines a map: after any sequence of upserts and removes (repeated
      rowids included) a commit leaves at most one document per rowid, and those documents
      are the map obtained by applying the edits in order. */
  lemma {:induction false} LogRefinesMap(docs: seq<Doc>, edits: seq<Edit>)
    requires Unique(docs)
    ensures Unique(ApplyAll(docs, LogOf(edits)))
    ensures AsMap(ApplyAll(docs, LogOf(edits))) == EditAll(AsMap(docs), edits)
  {
    if edits != [] {
      var front, last := edits[..|edits| - 1], edits[|edits| - 1];
      LogRefinesMap(docs, front);
      EditStaged(docs, LogOf(front), last);
    }
  }

  lemma UpsertOps(log: seq<Op>, d: Doc)
    ensures log + OpsOf(Upsert(d)) == log + [DeleteTerm(d.rowid)] + [AddDocument(d)]
  {
  }

  lemma LogAppend(edits: seq<Edit>, e: Edit)
    ensures LogOf(edits + [e]) == LogOf(edits) + OpsOf(e)
  {
    assert (edits + [e])[..|edits|] == edits;
  }

  // ----- a log of deletes only -----

  function Deletes(ids: seq<Rowid>): seq<Op> {
    seq(|ids|, i requires 0 <= i < |ids| => DeleteTerm(ids[i]))
  }

  predicate Distinct(ids: seq<Rowid>) {
    forall i, j :: 0 <= i < j < |ids| ==> ids[i] != ids[j]
  }

  function Elements(ids: seq<Rowid>): set<Rowid> {
    set r | r in ids
  }

  lemma ElementsAppend(ids: seq<Rowid>, r: Rowid)
    ensures Elements(ids + [r]) == Elements(ids) + {r}
  {
  }

  lemma {:induction false} DeletesApplied(docs: seq<Doc>, ids: seq<Rowid>)
    requires Unique(docs)
    ensures Unique(ApplyAll(docs, Deletes(ids)))
    ensures AsMap(ApplyAll(docs, Deletes(ids))) == AsMap(docs) - Elements(ids)
  {
    if ids == [] {
      assert Deletes(ids) == [];
    } else {
      var front, last := ids[..|ids| - 1], ids[|ids| - 1];
      DeletesApplied(docs, front);
      DeletesAppend(front, last);
      assert ids == front + [last];
      hide Deletes, Elements, AsMap, Without, Apply, Unique;
      DeleteOne(docs, front, last);
      ElementsAppend(front, last);
      MinusBoth(AsMap(docs), Elements(front), last);
    }
  }

  lemma DeletesAppend(ids: seq<Rowid>, r: Rowid)
    ensures Deletes(ids + [r]) == Deletes(ids) + [DeleteTerm(r)]
  {
  }

  lemma MinusBoth(m: map<Rowid, Doc>, ids: set<Rowid>, r: Rowid)
    ensures (m - ids) - {r} == m - (ids + {r})
  {
  }

  lemma DeleteOne(docs: seq<Doc>, front: seq<Rowid>, last: Rowid)
    requires Unique(ApplyAll(docs, Deletes(front)))
    ensures Unique(ApplyAll(docs, Deletes(front) + [DeleteTerm(last)]))
    ensures AsMap(ApplyAll(docs, Deletes(front) + [DeleteTerm(last)])) == AsMap(ApplyAll(docs, Deletes(front))) - {last}
  {
    ApplyAppend(docs, Deletes(front), DeleteTerm(last));
    WithoutMap(ApplyAll(docs, Deletes(front)), last);
    WithoutUnique(ApplyAll(docs, Deletes(front)), last);
  }

  lemma {:induction false} DistinctCount(ids: seq<Rowid>)
    requires Distinct(ids)
    ensures |Elements(ids)| == |ids|
  {
    if ids != [] {
      var front, last := ids[..|ids| - 1], ids[|ids| - 1];
      DistinctCount(front);
      assert ids == front + [last];
      ElementsAppend(front, last);
      assert last !in Elements(front);
    }
  }

  /** Deleting distinct indexed rowids removes exactly their documents, one each: the number
      of rowids is the number of documents removed. */
  lemma DeletesRemoveExactly(docs: seq<Doc>, ids: seq<Rowid>)
    requires Unique(docs) && Distinct(ids) && Elements(ids) <= Rowids(docs)
    ensures Unique(ApplyAll(docs, Deletes(ids)))
    ensures AsMap(ApplyAll(docs, Deletes(ids))) == AsMap(docs) - Elements(ids)
    ensures |ApplyAll(docs, Deletes(ids))| == |docs| - |ids|
  {
    DeletesApplied(docs, ids);
    DistinctCount(ids);
    UniqueCount(docs);
    UniqueCount(ApplyAll(docs, Deletes(ids)));
    assert Rowids(ApplyAll(docs, Deletes(ids))) == Rowids(docs) - Elements(ids);
  }
}
