/** The coverage envelope of a search: counts over the hit set, gathered per index segment and
    merged, with the fraction of bodies and attachments that were really searched. */
module Coverage {
  import opened Wrappers

  /** The stored state codes of a hit; a hit may lack either. */
  datatype Hit = Hit(body: Option<nat>, attachment: Option<nat>)

  const BODY_INDEXED := 0
  const BODY_PENDING := 1
  const BODY_UNAVAILABLE := 2
  const BODY_QUARANTINED := 3

  const ATTACHMENT_NONE := 0
  const ATTACHMENT_EXTRACTED := 1
  const ATTACHMENT_NOT_DOWNLOADED := 2
  const ATTACHMENT_UNEXTRACTABLE := 3

  datatype Bodies = Bodies(indexed: nat, pending: nat, unavailable: nat, quarantined: nat)
  datatype Attachments = Attachments(bearing: nat, extracted: nat, notDownloaded: nat, unextractable: nat)
  datatype Tally = Tally(bodies: Bodies, attachments: Attachments)

  const NOTHING := Tally(Bodies(0, 0, 0, 0), Attachments(0, 0, 0, 0))

  /** How many hits carry a given code: the reference the counters are held against. */
  function WithBody(hits: seq<Hit>, code: nat): nat {
    if hits == [] then 0
    else WithBody(hits[..|hits| - 1], code) + if hits[|hits| - 1].body == Some(code) then 1 else 0
  }

  function WithAttachment(hits: seq<Hit>, code: nat): nat {
    if hits == [] then 0
    else WithAttachment(hits[..|hits| - 1], code) + if hits[|hits| - 1].attachment == Some(code) then 1 else 0
  }

  /** What a segment's collector must hold after seeing `hits`. */
  function TallyOf(hits: seq<Hit>): Tally {
    var e, n, u := WithAttachment(hits, ATTACHMENT_EXTRACTED), WithAttachment(hits, ATTACHMENT_NOT_DOWNLOADED), WithAttachment(hits, ATTACHMENT_UNEXTRACTABLE);
    Tally(Bodies(WithBody(hits, BODY_INDEXED), WithBody(hits, BODY_PENDING),
                 WithBody(hits, BODY_UNAVAILABLE), WithBody(hits, BODY_QUARANTINED)),
          Attachments(e + n + u, e, n, u))
  }

  class SegmentCollector {
    var bodies: Bodies
    var attachments: Attachments

    constructor ()
      ensures Tally(bodies, attachments) == NOTHING
    {
      bodies, attachments := NOTHING.bodies, NOTHING.attachments;
    }

    method Collect(hit: Hit, ghost before: seq<Hit>)
      requires Tally(bodies, attachments) == TallyOf(before)
      modifies this
      ensures Tally(bodies, attachments) == TallyOf(before + [hit])
    {
      assert (before + [hit])[..|before|] == before;
      if hit.body.Some? {
        match hit.body.value
        case 0 => bodies := bodies.(indexed := bodies.indexed + 1);
        case 1 => bodies := bodies.(pending := bodies.pending + 1);
        case 2 => bodies := bodies.(unavailable := bodies.unavailable + 1);
        case 3 => bodies := bodies.(quarantined := bodies.quarantined + 1);
        case _ =>
      }
      if hit.attachment.Some? {
        var a := attachments;
        match hit.attachment.value
        case 1 => attachments := a.(bearing := a.bearing + 1, extracted := a.extracted + 1);
        case 2 => attachments := a.(bearing := a.bearing + 1, notDownloaded := a.notDownloaded + 1);
        case 3 => attachments := a.(bearing := a.bearing + 1, unextractable := a.unextractable + 1);
        case _ =>
      }
    }
  }

  /** Runs one segment's collector over its hits. */
  method CollectSegment(hits: seq<Hit>) returns (fruit: Tally)
    ensures fruit == TallyOf(hits)
  {
    var collector := new SegmentCollector();
    for k := 0 to |hits|
      invariant Tally(collector.bodies, collector.attachments) == TallyOf(hits[..k])
    {
      assert hits[..k + 1] == hits[..k] + [hits[k]];
      collector.Collect(hits[k], hits[..k]);
    }
    assert hits[..|hits|] == hits;
    fruit := Tally(collector.bodies, collector.attachments);
  }

  function Flatten(segments: seq<seq<Hit>>): seq<Hit> {
    if segments == [] then [] else Flatten(segments[..|segments| - 1]) + segments[|segments| - 1]
  }

  lemma {:induction false} CountsAdd(a: seq<Hit>, b: seq<Hit>, code: nat)
    ensures WithBody(a + b, code) == WithBody(a, code) + WithBody(b, code)
    ensures WithAttachment(a + b, code) == WithAttachment(a, code) + WithAttachment(b, code)
    decreases |b|
  {
    if b == [] {
      assert a + b == a;
    } else {
      assert (a + b)[..|a + b| - 1] == a + b[..|b| - 1];
      CountsAdd(a, b[..|b| - 1], code);
    }
  }

  function Plus(t: Tally, u: Tally): Tally {
    Tally(Bodies(t.bodies.indexed + u.bodies.indexed, t.bodies.pending + u.bodies.pending,
                 t.bodies.unavailable + u.bodies.unavailable, t.bodies.quarantined + u.bodies.quarantined),
          Attachments(t.attachments.bearing + u.attachments.bearing, t.attachments.extracted + u.attachments.extracted,
                      t.attachments.notDownloaded + u.attachments.notDownloaded, t.attachments.unextractable + u.attachments.unextractable))
  }

  lemma TalliesAdd(a: seq<Hit>, b: seq<Hit>)
    ensures TallyOf(a + b) == Plus(TallyOf(a), TallyOf(b))
  {
    hide WithBody, WithAttachment;
    CountsAdd(a, b, 0);
    CountsAdd(a, b, 1);
    CountsAdd(a, b, 2);
    CountsAdd(a, b, 3);
  }

  /** `merge_fruits`: however the hits are split into segments, the merged counts are those of
      the hit set as a whole. */
  method MergeFruits(fruits: seq<Tally>, ghost segments: seq<seq<Hit>>) returns (total: Tally)
    requires |fruits| == |segments| && forall k :: 0 <= k < |fruits| ==> fruits[k] == TallyOf(segments[k])
    ensures total == TallyOf(Flatten(segments))
  {
    total := NOTHING;
    for k := 0 to |fruits|
      invariant total == TallyOf(Flatten(segments[..k]))
    {
      assert segments[..k + 1][..k] == segments[..k];
      TalliesAdd(Flatten(segments[..k]), segments[k]);
      total := Plus(total, fruits[k]);
    }
    assert segments[..|segments|] == segments;
  }

  lemma {:induction false} CountByMultiset(a: seq<Hit>, b: seq<Hit>, code: nat)
    requires multiset(a) == multiset(b)
    ensures WithBody(a, code) == WithBody(b, code) && WithAttachment(a, code) == WithAttachment(b, code)
    decreases |a|
  {
    if a == [] {
      assert |multiset(b)| == 0;
      assert b == [];
    } else {
      var x := a[|a| - 1];
      assert a == a[..|a| - 1] + [x];
      assert x in multiset(b);
      var k :| 0 <= k < |b| && b[k] == x;
      var rest := b[..k] + b[k + 1..];
      assert b == b[..k] + ([x] + b[k + 1..]);
      assert multiset(rest) == multiset(b) - multiset{x};
      CountByMultiset(a[..|a| - 1], rest, code);
      CountsAdd(b[..k], [x] + b[k + 1..], code);
      CountsAdd([x], b[k + 1..], code);
      CountsAdd(b[..k], b[k + 1..], code);
      CountsAdd(a[..|a| - 1], [x], code);
    }
  }

  /** Any two ways of cutting up and ordering the same hits give the same envelope. */
  lemma SplitIndependent(one: seq<seq<Hit>>, other: seq<seq<Hit>>)
    requires multiset(Flatten(one)) == multiset(Flatten(other))
    ensures TallyOf(Flatten(one)) == TallyOf(Flatten(other))
  {
    forall code: nat | code < 4 ensures
      && WithBody(Flatten(one), code) == WithBody(Flatten(other), code)
      && WithAttachment(Flatten(one), code) == WithAttachment(Flatten(other), code)
    {
      CountByMultiset(Flatten(one), Flatten(other), code);
    }
  }

  // ----- the envelope -----

  datatype Envelope = Envelope(corpus: nat, tally: Tally, bodyFraction: real, attachmentFraction: real, warnings: nat)

  function Fraction(part: nat, whole: nat): real {
    if whole == 0 then 1.0 else part as real / whole as real
  }

  function FromCounts(t: Tally): Envelope {
    var corpus := t.bodies.indexed + t.bodies.pending + t.bodies.unavailable + t.bodies.quarantined;
    Envelope(corpus, t, Fraction(t.bodies.indexed, corpus), Fraction(t.attachments.extracted, t.attachments.bearing),
             (if t.attachments.notDownloaded > 0 then 1 else 0) + if t.bodies.unavailable > 0 then 1 else 0)
  }

  predicate HasKnownBody(h: Hit) {
    h.body.Some? && h.body.value < 4
  }

  function KnownBodies(hits: seq<Hit>): nat {
    if hits == [] then 0 else KnownBodies(hits[..|hits| - 1]) + if HasKnownBody(hits[|hits| - 1]) then 1 else 0
  }

  lemma {:induction false} CorpusCount(hits: seq<Hit>)
    ensures FromCounts(TallyOf(hits)).corpus == KnownBodies(hits) <= |hits|
  {
    if hits != [] {
      CorpusCount(hits[..|hits| - 1]);
    }
  }

  lemma PositiveProduct(x: real, w: real)
    requires 0.0 < x && 0.0 < w
    ensures 0.0 < x * w
  {
  }

  lemma Distributed(q: real, w: real)
    ensures -q * w == -(q * w) && (q - 1.0) * w == q * w - w && (1.0 - q) * w == w - q * w
  {
  }

  lemma Proportion(q: real, p: real, w: real)
    requires 0.0 <= p <= w && 0.0 < w && q * w == p
    ensures 0.0 <= q <= 1.0
    ensures q == 1.0 <==> p == w
  {
    Distributed(q, w);
    if q < 0.0 {
      PositiveProduct(-q, w);
    } else if 1.0 < q {
      PositiveProduct(q - 1.0, w);
    } else if q < 1.0 {
      PositiveProduct(1.0 - q, w);
    }
  }

  lemma Quotient(p: real, w: real)
    requires 0.0 <= p <= w && 0.0 < w
    ensures 0.0 <= p / w <= 1.0
    ensures p / w == 1.0 <==> p == w
  {
    Proportion(p / w, p, w);
  }

  lemma FractionBounds(part: nat, whole: nat)
    requires part <= whole
    ensures 0.0 <= Fraction(part, whole) <= 1.0
    ensures Fraction(part, whole) == 1.0 <==> part == whole
  {
    if whole > 0 {
      Quotient(part as real, whole as real);
    }
  }

  lemma FractionMeaning(part: nat, whole: nat)
    ensures if whole == 0 then Fraction(part, whole) == 1.0 else Fraction(part, whole) * whole as real == part as real
  {
  }

  /** The body fraction is the share of the indexed among the hits of known state, the attachment fraction that of
      the extracted among the attachments that there are; of nothing at all, the whole. A warning is given
      for attachments not downloaded, and one for bodies unavailable. */
  lemma EnvelopeMeaning(hits: seq<Hit>)
    ensures var e, bearing := FromCounts(TallyOf(hits)), WithAttachment(hits, 1) + WithAttachment(hits, 2) + WithAttachment(hits, 3);
      && (if e.corpus == 0 then e.bodyFraction == 1.0 else e.bodyFraction * e.corpus as real == WithBody(hits, 0) as real)
      && (if bearing == 0 then e.attachmentFraction == 1.0
          else e.attachmentFraction * bearing as real == WithAttachment(hits, 1) as real)
      && e.warnings == (if WithAttachment(hits, 2) > 0 then 1 else 0) + (if WithBody(hits, 2) > 0 then 1 else 0)
      && e.corpus == WithBody(hits, 0) + WithBody(hits, 1) + WithBody(hits, 2) + WithBody(hits, 3)
      && e.tally.bodies == Bodies(WithBody(hits, 0), WithBody(hits, 1), WithBody(hits, 2), WithBody(hits, 3))
      && e.tally.attachments == Attachments(bearing, WithAttachment(hits, 1), WithAttachment(hits, 2), WithAttachment(hits, 3))
  {
    hide WithBody, WithAttachment, Fraction;
    var t := TallyOf(hits);
    FractionMeaning(t.bodies.indexed, FromCounts(t).corpus);
    FractionMeaning(t.attachments.extracted, t.attachments.bearing);
  }

  lemma {:induction false} BodiesCounted(hits: seq<Hit>, code: nat)
    ensures WithBody(hits, code) == |set k | 0 <= k < |hits| && hits[k].body == Some(code)|
  {
    if hits != [] {
      var n := |hits| - 1;
      var front, last := hits[..n], hits[n];
      assert hits == front + [last];
      BodiesCounted(front, code);
      var was := set k | 0 <= k < n && front[k].body == Some(code);
      assert (set k | 0 <= k < |hits| && hits[k].body == Some(code)) == was + if last.body == Some(code) then {n} else {};
    }
  }

  lemma {:induction false} AttachmentsCounted(hits: seq<Hit>, code: nat)
    ensures WithAttachment(hits, code) == |set k | 0 <= k < |hits| && hits[k].attachment == Some(code)|
  {
    if hits != [] {
      var n := |hits| - 1;
      var front, last := hits[..n], hits[n];
      assert hits == front + [last];
      AttachmentsCounted(front, code);
      var was := set k | 0 <= k < n && front[k].attachment == Some(code);
      assert (set k | 0 <= k < |hits| && hits[k].attachment == Some(code)) == was + if last.attachment == Some(code) then {n} else {};
    }
  }

  /** Both fractions lie between 0 and 1, and reach 1 exactly when every hit of known state was
      searched, which is also when no hit was left out. */
  lemma EnvelopeBounds(hits: seq<Hit>)
    ensures var e := FromCounts(TallyOf(hits));
      && 0.0 <= e.bodyFraction <= 1.0 && 0.0 <= e.attachmentFraction <= 1.0
      && (e.bodyFraction == 1.0 <==> WithBody(hits, BODY_INDEXED) == e.corpus)
      && (e.attachmentFraction == 1.0 <==> WithAttachment(hits, ATTACHMENT_NOT_DOWNLOADED) + WithAttachment(hits, ATTACHMENT_UNEXTRACTABLE) == 0)
  {
    var e := FromCounts(TallyOf(hits));
    FractionBounds(e.tally.bodies.indexed, e.corpus);
    FractionBounds(e.tally.attachments.extracted, e.tally.attachments.bearing);
  }
}
