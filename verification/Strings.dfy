/** Searching and splitting text. */
module Strings {

  function IndexOf(s: string, c: char): (i: nat)
    ensures i <= |s| && c !in s[..i] && (i < |s| ==> s[i] == c)
  {
    if s == "" || s[0] == c then 0
    else
      var i := IndexOf(s[1..], c);
      assert s[..1 + i] == [s[0]] + s[1..][..i];
      1 + i
  }

  lemma {:induction false} IndexAfter(p: string, c: char, q: string)
    requires c !in p
    ensures IndexOf(p + [c] + q, c) == |p|
    decreases |p|
  {
    var s := p + [c] + q;
    if p != "" {
      assert s[0] == p[0] && s[1..] == p[1..] + [c] + q;
      IndexAfter(p[1..], c, q);
    }
  }

  lemma NoIndex(s: string, c: char)
    requires c !in s
    ensures IndexOf(s, c) == |s|
  {
  }

  predicate Contains(text: string, part: string) {
    exists i :: 0 <= i <= |text| && part <= text[i..]
  }

  lemma ContainsMeaning(text: string, part: string)
    ensures Contains(text, part) <==> exists before, after :: text == before + part + after
  {
    if Contains(text, part) {
      var i :| 0 <= i <= |text| && part <= text[i..];
      assert text == text[..i] + part + text[i + |part|..];
    }
    if before, after :| text == before + part + after {
      assert text[|before|..] == part + after;
    }
  }

  /** What lies between the spaces. */
  function Words(text: string): seq<string>
    decreases |text|
  {
    var i := IndexOf(text, ' ');
    if i == |text| then [text] else [text[..i]] + Words(text[i + 1..])
  }

  lemma OneWord(text: string)
    requires ' ' !in text
    ensures Words(text) == [text]
  {
    NoIndex(text, ' ');
  }

  lemma FirstWord(word: string, rest: string)
    requires ' ' !in word
    ensures Words(word + " " + rest) == [word] + Words(rest)
  {
    var s := word + " " + rest;
    IndexAfter(word, ' ', rest);
    assert s == word + [' '] + rest && s[..|word|] == word && s[|word| + 1..] == rest;
  }

  lemma {:induction false} WordsJoined(a: string, b: string)
    ensures Words(a + " " + b) == Words(a) + Words(b)
    decreases |a|
  {
    var i := IndexOf(a, ' ');
    hide Words, IndexOf;
    if i == |a| {
      assert a[..i] == a;
      OneWord(a);
      FirstWord(a, b);
    } else {
      var first, rest := a[..i], a[i + 1..];
      assert a == first + " " + rest && a + " " + b == first + " " + (rest + " " + b);
      FirstWord(first, rest);
      FirstWord(first, rest + " " + b);
      WordsJoined(rest, b);
    }
  }
}
