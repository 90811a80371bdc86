/** The edit distance behind "closest mailbox" and "closest account" suggestions: a single
    rolling row, with the diagonal taken unconditionally on equal characters. */
module EditDistance {
  import opened Wrappers

  function Butlast(s: string): string
    requires s != ""
  {
    s[..|s| - 1]
  }

  function Last(s: string): char
    requires s != ""
  {
    s[|s| - 1]
  }

  /** The textbook recurrence: drop the last character of either side, or pair them up. */
  function Dist(a: string, b: string): nat
    decreases |a| + |b|
  {
    if a == "" then |b|
    else if b == "" then |a|
    else Min(Min(Dist(Butlast(a), b) + 1, Dist(a, Butlast(b)) + 1),
             Dist(Butlast(a), Butlast(b)) + if Last(a) == Last(b) then 0 else 1)
  }

  // ----- neighbouring cells -----

  lemma {:induction false} Symmetric(a: string, b: string)
    ensures Dist(a, b) == Dist(b, a)
    decreases |a| + |b|
  {
    if a != "" && b != "" {
      Symmetric(Butlast(a), b);
      Symmetric(a, Butlast(b));
      Symmetric(Butlast(a), Butlast(b));
    }
  }

  lemma ShrinkRight(a: string, b: string)
    requires b != ""
    ensures Dist(a, b) <= Dist(a, Butlast(b)) + 1
  {
  }

  /** A cell exceeds neither neighbour by more than one... */
  lemma {:induction false} NeighbourAbove(a: string, b: string)
    requires a != ""
    ensures Dist(Butlast(a), b) <= Dist(a, b) + 1
    decreases |a| + |b|
  {
    if b != "" {
      ShrinkRight(Butlast(a), b);
      NeighbourAbove(a, Butlast(b));
    }
  }

  lemma NeighbourLeft(a: string, b: string)
    requires b != ""
    ensures Dist(a, Butlast(b)) <= Dist(a, b) + 1
  {
    NeighbourAbove(b, a);
    Symmetric(a, b);
    Symmetric(a, Butlast(b));
  }

  /** ...which is why pairing equal last characters is never worse than the alternatives. */
  lemma DiagonalIsOptimal(a: string, b: string)
    requires a != "" && b != "" && Last(a) == Last(b)
    ensures Dist(a, b) == Dist(Butlast(a), Butlast(b))
  {
    NeighbourLeft(Butlast(a), b);
    NeighbourAbove(a, Butlast(b));
  }

  // ----- the rolling row -----

  lemma Prefix(s: string, k: nat)
    requires k < |s|
    ensures s[..k + 1] != "" && Butlast(s[..k + 1]) == s[..k] && Last(s[..k + 1]) == s[k]
  {
  }

  /** One cell, from the three the program still has at hand. */
  lemma CellStep(a: string, b: string, i: nat, j: nat)
    requires i < |a| && j < |b|
    ensures Dist(a[..i + 1], b[..j + 1])
         == if a[i] == b[j] then Dist(a[..i], b[..j])
            else 1 + Min(Min(Dist(a[..i], b[..j]), Dist(a[..i + 1], b[..j])), Dist(a[..i], b[..j + 1]))
  {
    Prefix(a, i);
    Prefix(b, j);
    if a[i] == b[j] {
      DiagonalIsOptimal(a[..i + 1], b[..j + 1]);
    }
  }

  lemma EdgeCells(s: string)
    ensures Dist("", s) == |s| && Dist(s, "") == |s|
  {
  }

  /** The inner loop: turns row `i` of the table into row `i + 1`, in place. */
  method NextRow(a: string, b: string, i: nat, row: array<nat>)
    requires i < |a| && row.Length == |b| + 1
    requires forall k :: 0 <= k <= |b| ==> row[k] == Dist(a[..i], b[..k])
    modifies row
    ensures forall k :: 0 <= k <= |b| ==> row[k] == Dist(a[..i + 1], b[..k])
  {
    hide Dist;
    var prev := row[0];
    row[0] := i + 1;
    EdgeCells(a[..i + 1]);
    for j := 0 to |b|
      invariant prev == Dist(a[..i], b[..j])
      invariant forall k :: 0 <= k <= j ==> row[k] == Dist(a[..i + 1], b[..k])
      invariant forall k :: j < k <= |b| ==> row[k] == Dist(a[..i], b[..k])
    {
      CellStep(a, b, i, j);
      var temp := row[j + 1];
      row[j + 1] := if a[i] == b[j] then prev else 1 + Min(Min(prev, row[j]), row[j + 1]);
      prev := temp;
    }
  }

  method Levenshtein(a: string, b: string) returns (d: nat)
    ensures d == Dist(a, b)
  {
    hide Dist;
    var row := new nat[|b| + 1](j => j);
    forall k | 0 <= k <= |b| ensures row[k] == Dist(a[..0], b[..k]) {
      EdgeCells(b[..k]);
    }
    for i := 0 to |a|
      invariant forall k :: 0 <= k <= |b| ==> row[k] == Dist(a[..i], b[..k])
    {
      NextRow(a, b, i, row);
    }
    assert a[..|a|] == a && b[..|b|] == b;
    d := row[|b|];
  }

  // ----- what the number means: the shortest way from one string to the other -----

  /** `s` is `t` with the character at `i` removed. */
  predicate Removes(t: string, i: nat, s: string) {
    i < |t| && s == t[..i] + t[i + 1..]
  }

  predicate Replaces(s: string, i: nat, t: string) {
    |s| == |t| && i < |s| && s[..i] == t[..i] && s[i + 1..] == t[i + 1..]
  }

  /** One insertion, deletion or substitution, anywhere. */
  ghost predicate OneEdit(s: string, t: string) {
    || (exists i :: Removes(s, i, t))
    || (exists i :: Removes(t, i, s))
    || (exists i :: Replaces(s, i, t))
  }

  ghost predicate Script(p: seq<string>, a: string, b: string) {
    && p != [] && p[0] == a && p[|p| - 1] == b
    && forall k :: 0 <= k < |p| - 1 ==> OneEdit(p[k], p[k + 1])
  }

  lemma {:induction false} SelfDist(a: string)
    ensures Dist(a, a) == 0
  {
    if a != "" {
      SelfDist(Butlast(a));
    }
  }

  lemma {:induction false} ZeroMeansEqual(a: string, b: string)
    ensures Dist(a, b) == 0 <==> a == b
    decreases |a| + |b|
  {
    SelfDist(a);
    if a != "" && b != "" {
      ZeroMeansEqual(Butlast(a), Butlast(b));
      assert a == Butlast(a) + [Last(a)] && b == Butlast(b) + [Last(b)];
    }
  }

  lemma {:induction false} LengthBounds(a: string, b: string)
    ensures |a| <= |b| + Dist(a, b) && |b| <= |a| + Dist(a, b)
    ensures Dist(a, b) <= |a| + |b|
    decreases |a| + |b|
  {
    if a != "" && b != "" {
      LengthBounds(Butlast(a), b);
      LengthBounds(a, Butlast(b));
      LengthBounds(Butlast(a), Butlast(b));
    }
  }

  lemma {:induction false} Triangle(a: string, b: string, c: string)
    ensures Dist(a, c) <= Dist(a, b) + Dist(b, c)
    decreases |a| + |b| + |c|
  {
    LengthBounds(b, c);
    LengthBounds(a, b);
    LengthBounds(a, c);
    if a != "" && b != "" && c != "" {
      Triangle(Butlast(a), b, c);
      Triangle(a, b, Butlast(c));
      Triangle(a, Butlast(b), c);
      Triangle(a, Butlast(b), Butlast(c));
      Triangle(Butlast(a), Butlast(b), c);
      Triangle(Butlast(a), Butlast(b), Butlast(c));
    }
  }

  lemma {:induction false} CommonSuffix(a: string, b: string, u: string)
    ensures Dist(a + u, b + u) == Dist(a, b)
    decreases |u|
  {
    if u == "" {
      assert a + u == a && b + u == b;
    } else {
      assert Butlast(a + u) == a + Butlast(u) && Butlast(b + u) == b + Butlast(u);
      DiagonalIsOptimal(a + u, b + u);
      CommonSuffix(a, b, Butlast(u));
    }
  }

  lemma RemovalCost(t: string, i: nat, s: string)
    requires Removes(t, i, s)
    ensures Dist(t, s) <= 1 && Dist(s, t) <= 1
  {
    Prefix(t, i);
    SelfDist(t[..i]);
    assert t == t[..i + 1] + t[i + 1..];
    CommonSuffix(t[..i + 1], t[..i], t[i + 1..]);
    assert Dist(t[..i + 1], t[..i]) <= Dist(Butlast(t[..i + 1]), t[..i]) + 1;
    Symmetric(s, t);
  }

  lemma ReplacementCost(s: string, i: nat, t: string)
    requires Replaces(s, i, t)
    ensures Dist(s, t) <= 1
  {
    Prefix(s, i);
    Prefix(t, i);
    SelfDist(s[..i]);
    assert s == s[..i + 1] + s[i + 1..] && t == t[..i + 1] + t[i + 1..];
    CommonSuffix(s[..i + 1], t[..i + 1], s[i + 1..]);
  }

  lemma OneEditCost(s: string, t: string)
    requires OneEdit(s, t)
    ensures Dist(s, t) <= 1
  {
    if i :| Removes(s, i, t) {
      RemovalCost(s, i, t);
    } else if i :| Removes(t, i, s) {
      RemovalCost(t, i, s);
    } else {
      var i :| Replaces(s, i, t);
      ReplacementCost(s, i, t);
    }
  }

  /** No script beats the distance... */
  lemma {:induction false} NoShorterScript(p: seq<string>, a: string, b: string)
    requires Script(p, a, b)
    ensures Dist(a, b) <= |p| - 1
    decreases |p|
  {
    SelfDist(a);
    if |p| > 1 {
      var mid := p[|p| - 2];
      NoShorterScript(p[..|p| - 1], a, mid);
      assert OneEdit(p[|p| - 2], p[|p| - 1]);
      OneEditCost(mid, b);
      Triangle(a, mid, b);
    }
  }

  lemma DropLast(s: string)
    requires s != ""
    ensures OneEdit(s, Butlast(s)) && OneEdit(Butlast(s), s)
  {
    assert Removes(s, |s| - 1, Butlast(s));
  }

  lemma EditUnderSuffix(s: string, t: string, c: char)
    requires OneEdit(s, t)
    ensures OneEdit(s + [c], t + [c])
  {
    if i :| Removes(s, i, t) {
      assert Removes(s + [c], i, t + [c]);
    } else if i :| Removes(t, i, s) {
      assert Removes(t + [c], i, s + [c]);
    } else {
      var i :| Replaces(s, i, t);
      assert Replaces(s + [c], i, t + [c]);
    }
  }

  function Suffixed(p: seq<string>, c: char): seq<string> {
    seq(|p|, k requires 0 <= k < |p| => p[k] + [c])
  }

  lemma ScriptUnderSuffix(p: seq<string>, a: string, b: string, c: char)
    requires Script(p, a, b)
    ensures Script(Suffixed(p, c), a + [c], b + [c])
  {
    forall k | 0 <= k < |p| - 1 ensures OneEdit(Suffixed(p, c)[k], Suffixed(p, c)[k + 1]) {
      assert OneEdit(p[k], p[k + 1]);
      EditUnderSuffix(p[k], p[k + 1], c);
    }
  }

  lemma ScriptThen(p: seq<string>, a: string, b: string, c: string)
    requires Script(p, a, b) && OneEdit(b, c)
    ensures Script(p + [c], a, c)
  {
    forall k | 0 <= k < |p| ensures OneEdit((p + [c])[k], (p + [c])[k + 1]) {
      if k < |p| - 1 {
        assert OneEdit(p[k], p[k + 1]);
      }
    }
  }

  lemma ThenScript(a: string, b: string, p: seq<string>, c: string)
    requires OneEdit(a, b) && Script(p, b, c)
    ensures Script([a] + p, a, c)
  {
    forall k | 0 <= k < |p| ensures OneEdit(([a] + p)[k], ([a] + p)[k + 1]) {
      if k > 0 {
        assert OneEdit(p[k - 1], p[k]);
      }
    }
  }

  /** ...and one attains it: the distance is the length of a shortest script. */
  lemma {:induction false} ShortestScript(a: string, b: string) returns (p: seq<string>)
    ensures Script(p, a, b) && |p| - 1 == Dist(a, b)
    decreases |a| + |b|
  {
    if a == "" && b == "" {
      p := [a];
    } else if a == "" || (b != "" && Dist(a, b) == Dist(a, Butlast(b)) + 1) {
      p := ShortestScript(a, Butlast(b));
      DropLast(b);
      ScriptThen(p, a, Butlast(b), b);
      p := p + [b];
    } else if b == "" || Dist(a, b) == Dist(Butlast(a), b) + 1 {
      p := ShortestScript(Butlast(a), b);
      DropLast(a);
      ThenScript(a, Butlast(a), p, b);
      p := [a] + p;
    } else {
      p := PairedScript(a, b);
    }
  }

  lemma {:induction false} PairedScript(a: string, b: string) returns (p: seq<string>)
    requires a != "" && b != ""
    ensures Script(p, a, b)
    ensures |p| - 1 == Dist(Butlast(a), Butlast(b)) + if Last(a) == Last(b) then 0 else 1
    decreases |a| + |b|, 0
  {
    var c := Last(a);
    var q := ShortestScript(Butlast(a), Butlast(b));
    ScriptUnderSuffix(q, Butlast(a), Butlast(b), c);
    p := Suffixed(q, c);
    assert Butlast(a) + [c] == a && Butlast(b) + [Last(b)] == b;
    if c != Last(b) {
      assert Replaces(Butlast(b) + [c], |b| - 1, b);
      ScriptThen(p, a, Butlast(b) + [c], b);
      p := p + [b];
    }
  }

  // ----- suggestions -----

  /** A stable sort by key, as a ranking of positions. */
  predicate Ranking(keys: seq<nat>, order: seq<nat>) {
    |order| == |keys| && Covering(|keys|, order) && Ordered(keys, order)
  }

  predicate Covering(n: nat, order: seq<nat>) {
    (forall i :: 0 <= i < |order| ==> order[i] < n) && (forall k :: 0 <= k < n ==> k in order)
  }

  predicate Ordered(keys: seq<nat>, order: seq<nat>) {
    && (forall i :: 0 <= i < |order| ==> order[i] < |keys|)
    && forall i, j :: 0 <= i < j < |order| ==>
         keys[order[i]] < keys[order[j]] || (keys[order[i]] == keys[order[j]] && order[i] < order[j])
  }

  lemma InsertCovers(n: nat, order: seq<nat>, at: nat)
    requires Covering(n, order) && at <= |order|
    ensures Covering(n + 1, order[..at] + [n] + order[at..])
  {
    var next := order[..at] + [n] + order[at..];
    forall k | 0 <= k <= n ensures k in next {
      if k < n {
        assert k in order;
        var i :| 0 <= i < |order| && order[i] == k;
        assert next[if i < at then i else i + 1] == k;
      } else {
        assert next[at] == k;
      }
    }
  }

  lemma InsertOrdered(keys: seq<nat>, order: seq<nat>, key: nat, at: nat)
    requires Ordered(keys, order) && at <= |order|
    requires forall i :: 0 <= i < at ==> keys[order[i]] <= key
    requires forall i :: at <= i < |order| ==> key < keys[order[i]]
    ensures Ordered(keys + [key], order[..at] + [|keys|] + order[at..])
  {
    var next, longer := order[..at] + [|keys|] + order[at..], keys + [key];
    forall i | 0 <= i < |next| ensures next[i] < |longer| && (i != at ==> longer[next[i]] == keys[next[i]]) {
    }
    assert longer[next[at]] == key;
  }

  lemma InsertRanked(keys: seq<nat>, order: seq<nat>, key: nat, at: nat)
    requires Ranking(keys, order) && at <= |order|
    requires forall i :: 0 <= i < at ==> keys[order[i]] <= key
    requires forall i :: at <= i < |order| ==> key < keys[order[i]]
    ensures Ranking(keys + [key], order[..at] + [|keys|] + order[at..])
  {
    InsertCovers(|keys|, order, at);
    InsertOrdered(keys, order, key, at);
  }

  /** After the last entry whose key does not exceed the new one. */
  method FindSlot(keys: seq<nat>, order: seq<nat>, key: nat) returns (at: nat)
    requires Ranking(keys, order)
    ensures at <= |order|
    ensures forall i :: 0 <= i < at ==> keys[order[i]] <= key
    ensures forall i :: at <= i < |order| ==> key < keys[order[i]]
  {
    at := |order|;
    while at > 0 && key < keys[order[at - 1]]
      invariant 0 <= at <= |order|
      invariant forall i :: at <= i < |order| ==> key < keys[order[i]]
    {
      at := at - 1;
    }
  }

  method RankByKey(keys: seq<nat>) returns (order: seq<nat>)
    ensures Ranking(keys, order)
  {
    order := [];
    for n := 0 to |keys|
      invariant Ranking(keys[..n], order)
    {
      hide Ranking;
      var at := FindSlot(keys[..n], order, keys[n]);
      assert keys[..n + 1] == keys[..n] + [keys[n]] && |keys[..n]| == n;
      InsertRanked(keys[..n], order, keys[n], at);
      order := order[..at] + [n] + order[at..];
    }
    assert keys[..|keys|] == keys;
  }

  /** `suggest`: the `limit` nearest candidates, nearest first, by distance between normal
      forms. `order` ranks all candidates, so none left out is nearer than one returned. */
  method Suggest(normalize: string -> string, candidates: seq<string>, query: string, limit: nat)
    returns (suggestions: seq<string>, order: seq<nat>)
    ensures |order| == |candidates| && |suggestions| == Min(limit, |candidates|)
    ensures forall k :: 0 <= k < |candidates| ==> k in order
    ensures forall i :: 0 <= i < |order| ==> order[i] < |candidates|
    ensures forall i :: 0 <= i < |suggestions| ==> suggestions[i] == candidates[order[i]]
    ensures forall i, j :: 0 <= i < j < |order| ==>
              Dist(normalize(query), normalize(candidates[order[i]])) <= Dist(normalize(query), normalize(candidates[order[j]]))
  {
    var target := normalize(query);
    var keys: seq<nat> := [];
    for k := 0 to |candidates|
      invariant |keys| == k
      invariant forall j :: 0 <= j < k ==> keys[j] == Dist(target, normalize(candidates[j]))
    {
      var d := Levenshtein(target, normalize(candidates[k]));
      keys := keys + [d];
    }
    order := RankByKey(keys);
    suggestions := [];
    for i := 0 to Min(limit, |candidates|)
      invariant |suggestions| == i
      invariant forall j :: 0 <= j < i ==> suggestions[j] == candidates[order[j]]
    {
      suggestions := suggestions + [candidates[order[i]]];
    }
  }
}
