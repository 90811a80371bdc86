/** The `.emlx` envelope: a ten-byte count line, a newline, that many bytes of message, and a
    footer. The count line must be UTF-8. */
module Emlx {
  import opened Wrappers
  import opened Decimal

  newtype byte = b: int | 0 <= b < 256

  const COUNT_LINE_LEN := 10
  const NEWLINE: byte := 10

  datatype EnvelopeError = MissingCountLine | NotText | NotACount | CountExceedsFile

  predicate Ascii(bytes: seq<byte>) {
    forall i :: 0 <= i < |bytes| ==> bytes[i] < 128
  }

  function Text(bytes: seq<byte>): (s: string)
    requires Ascii(bytes)
    ensures |s| == |bytes|
  {
    seq(|bytes|, i requires 0 <= i < |bytes| => bytes[i] as char)
  }

  predicate Follows(b: byte) {
    0x80 <= b < 0xC0
  }

  /** The first character of a text in UTF-8 and its length in bytes, with the restrictions of table 3-7
      of the Unicode Standard: no overlong forms, no surrogates, nothing above U+10FFFF. */
  function FirstChar(bytes: seq<byte>): (c: Option<(char, nat)>)
    ensures c.Some? ==> 1 <= c.value.1 <= |bytes|
    ensures bytes != [] && bytes[0] < 128 ==> c == Some((bytes[0] as char, 1))
  {
    if bytes == [] then None
    else if bytes[0] < 0x80 then Some((bytes[0] as char, 1))
    else if |bytes| >= 2 && 0xC2 <= bytes[0] < 0xE0 && Follows(bytes[1]) then
      Some((((bytes[0] as int - 0xC0) * 0x40 + bytes[1] as int - 0x80) as char, 2))
    else if |bytes| >= 3 && 0xE0 <= bytes[0] < 0xF0 && Follows(bytes[1]) && Follows(bytes[2])
         && (bytes[0] == 0xE0 ==> 0xA0 <= bytes[1]) && (bytes[0] == 0xED ==> bytes[1] < 0xA0) then
      Some((((bytes[0] as int - 0xE0) * 0x1000 + (bytes[1] as int - 0x80) * 0x40 + bytes[2] as int - 0x80) as char, 3))
    else if |bytes| >= 4 && 0xF0 <= bytes[0] < 0xF5 && Follows(bytes[1]) && Follows(bytes[2]) && Follows(bytes[3])
         && (bytes[0] == 0xF0 ==> 0x90 <= bytes[1]) && (bytes[0] == 0xF4 ==> bytes[1] < 0x90) then
      Some((((bytes[0] as int - 0xF0) * 0x40000 + (bytes[1] as int - 0x80) * 0x1000
             + (bytes[2] as int - 0x80) * 0x40 + bytes[3] as int - 0x80) as char, 4))
    else None
  }

  /** `str::from_utf8`. */
  function FromUtf8(bytes: seq<byte>): (s: Option<string>)
    decreases |bytes|
  {
    if bytes == [] then Some("")
    else
      var first := FirstChar(bytes);
      if first.None? then None
      else
        var rest := FromUtf8(bytes[first.value.1..]);
        if rest.None? then None else Some([first.value.0] + rest.value)
  }

  // ----- UTF-8, as section 3 of RFC 3629 defines it -----

  /** The six low bits after any number of others. */
  function Tail(n: nat): byte {
    (0x80 + n % 0x40) as byte
  }

  function Utf8(c: char): seq<byte> {
    var n := c as int;
    var m := n / 0x40;
    var l := m / 0x40;
    if n < 0x80 then [n as byte]
    else if n < 0x800 then [(0xC0 + m) as byte, Tail(n)]
    else if n < 0x1_0000 then [(0xE0 + l) as byte, Tail(m), Tail(n)]
    else [(0xF0 + l / 0x40) as byte, Tail(l), Tail(m), Tail(n)]
  }

  function Utf8All(s: string): seq<byte> {
    if s == "" then [] else Utf8(s[0]) + Utf8All(s[1..])
  }

  /** Taken apart and put together again. */
  lemma SixBits(n: nat)
    ensures Follows(Tail(n)) && Tail(n) as int - 0x80 == n - n / 0x40 * 0x40
  {
  }

  lemma TwoBytesRead(c: char, rest: seq<byte>)
    requires 0x80 <= c as int < 0x800
    ensures FirstChar(Utf8(c) + rest) == Some((c, 2))
  {
    var n, bytes := c as int, Utf8(c) + rest;
    SixBits(n);
    hide Tail;
    assert bytes[0] == (0xC0 + n / 0x40) as byte && bytes[1] == Tail(n);
  }

  lemma ThreeBytesRead(c: char, rest: seq<byte>)
    requires 0x800 <= c as int < 0x1_0000
    ensures FirstChar(Utf8(c) + rest) == Some((c, 3))
  {
    var n, bytes := c as int, Utf8(c) + rest;
    SixBits(n);
    SixBits(n / 0x40);
    hide Tail;
    assert bytes[0] == (0xE0 + n / 0x40 / 0x40) as byte && bytes[1] == Tail(n / 0x40) && bytes[2] == Tail(n);
  }

  lemma FourBytesRead(c: char, rest: seq<byte>)
    requires 0x1_0000 <= c as int
    ensures FirstChar(Utf8(c) + rest) == Some((c, 4))
  {
    var n, bytes := c as int, Utf8(c) + rest;
    SixBits(n);
    SixBits(n / 0x40);
    SixBits(n / 0x40 / 0x40);
    hide Tail;
    assert bytes[0] == (0xF0 + n / 0x40 / 0x40 / 0x40) as byte && bytes[1] == Tail(n / 0x40 / 0x40);
    assert bytes[2] == Tail(n / 0x40) && bytes[3] == Tail(n);
  }

  lemma FirstCharReads(c: char, rest: seq<byte>)
    ensures FirstChar(Utf8(c) + rest) == Some((c, |Utf8(c)|))
  {
    var n := c as int;
    if 0x80 <= n < 0x800 {
      TwoBytesRead(c, rest);
    } else if 0x800 <= n < 0x1_0000 {
      ThreeBytesRead(c, rest);
    } else if 0x1_0000 <= n {
      FourBytesRead(c, rest);
    }
  }

  lemma SixBitsOf(n: nat, high: nat, b: byte)
    requires Follows(b) && n == high * 0x40 + b as int - 0x80
    ensures n / 0x40 == high && Tail(n) == b
  {
  }

  lemma FirstCharIs(bytes: seq<byte>, c: char, n: nat)
    requires FirstChar(bytes) == Some((c, n))
    ensures n <= |bytes| && bytes[..n] == Utf8(c)
  {
    var k := c as int;
    hide Tail;
    if n == 2 {
      SixBitsOf(k, bytes[0] as int - 0xC0, bytes[1]);
    } else if n == 3 {
      var m := (bytes[0] as int - 0xE0) * 0x40 + bytes[1] as int - 0x80;
      SixBitsOf(k, m, bytes[2]);
      SixBitsOf(m, bytes[0] as int - 0xE0, bytes[1]);
    } else if n == 4 {
      var l := (bytes[0] as int - 0xF0) * 0x40 + bytes[1] as int - 0x80;
      var m := l * 0x40 + bytes[2] as int - 0x80;
      SixBitsOf(k, m, bytes[3]);
      SixBitsOf(m, l, bytes[2]);
      SixBitsOf(l, bytes[0] as int - 0xF0, bytes[1]);
    }
  }

  lemma DecodedFront(c: char, rest: seq<byte>)
    ensures FromUtf8(Utf8(c) + rest) == if FromUtf8(rest).None? then None else Some([c] + FromUtf8(rest).value)
  {
    FirstCharReads(c, rest);
    hide FirstChar, Utf8;
    assert (Utf8(c) + rest)[|Utf8(c)|..] == rest;
  }

  lemma {:induction false} EncodedReadBack(s: string)
    ensures FromUtf8(Utf8All(s)) == Some(s)
  {
    if s != "" {
      EncodedReadBack(s[1..]);
      DecodedFront(s[0], Utf8All(s[1..]));
      hide FromUtf8;
      assert s == [s[0]] + s[1..];
    }
  }

  lemma {:induction false} DecodedWriteBack(bytes: seq<byte>)
    requires FromUtf8(bytes).Some?
    ensures Utf8All(FromUtf8(bytes).value) == bytes
    decreases |bytes|
  {
    hide FirstChar, Utf8;
    if bytes != [] {
      var (c, n) := FirstChar(bytes).value;
      FirstCharIs(bytes, c, n);
      assert bytes == Utf8(c) + bytes[n..];
      DecodedWriteBack(bytes[n..]);
      assert FromUtf8(bytes).value[1..] == FromUtf8(bytes[n..]).value;
    }
  }

  /** Decoding succeeds exactly on what encoding some text gives, and gives that text. */
  lemma FromUtf8Iff(bytes: seq<byte>, s: string)
    ensures FromUtf8(bytes) == Some(s) <==> bytes == Utf8All(s)
  {
    hide FromUtf8, Utf8All;
    EncodedReadBack(s);
    if FromUtf8(bytes) == Some(s) {
      DecodedWriteBack(bytes);
    }
  }

  lemma {:induction false} AsciiIsUtf8(bytes: seq<byte>)
    requires Ascii(bytes)
    ensures FromUtf8(bytes) == Some(Text(bytes))
    decreases |bytes|
  {
    if bytes != [] {
      AsciiIsUtf8(bytes[1..]);
      assert Text(bytes) == [bytes[0] as char] + Text(bytes[1..]);
    }
  }

  /** The characters of the Unicode property White_Space, which is what `trim` removes. */
  predicate IsSpace(c: char) {
    var n := c as int;
    || 9 <= n <= 13 || n == 0x20 || n == 0x85 || n == 0xA0 || n == 0x1680 || 0x2000 <= n <= 0x200A
    || n == 0x2028 || n == 0x2029 || n == 0x202F || n == 0x205F || n == 0x3000
  }

  function TrimStart(s: string): string {
    if s != "" && IsSpace(s[0]) then TrimStart(s[1..]) else s
  }

  function TrimEnd(s: string): string {
    if s != "" && IsSpace(s[|s| - 1]) then TrimEnd(s[..|s| - 1]) else s
  }

  function Trim(s: string): string {
    TrimEnd(TrimStart(s))
  }

  /** `str::parse::<usize>`, which also takes a leading plus sign. Ten characters cannot
      overflow. */
  function ParseCount(s: string): (n: Option<int>)
    ensures n.Some? ==> n.value >= 0
  {
    if s != "" && s[0] == '+' then ParseNat(s[1..]) else ParseNat(s)
  }

  /** The number a count line declares, if it is text at all and a number once trimmed. */
  function DeclaredCount(line: seq<byte>): (n: Option<int>)
    ensures n.Some? ==> n.value >= 0
  {
    var text := FromUtf8(line);
    if text.None? then None else ParseCount(Trim(text.value))
  }

  predicate Blank(s: string) {
    forall i :: 0 <= i < |s| ==> IsSpace(s[i])
  }

  /** A text that neither begins nor ends in white space. */
  predicate Bare(s: string) {
    s == "" || (!IsSpace(s[0]) && !IsSpace(s[|s| - 1]))
  }

  lemma {:induction false} StartTrimmed(s: string) returns (before: string)
    ensures s == before + TrimStart(s) && Blank(before)
    ensures TrimStart(s) == "" || !IsSpace(TrimStart(s)[0])
  {
    before := "";
    if s != "" && IsSpace(s[0]) {
      before := StartTrimmed(s[1..]);
      before := [s[0]] + before;
    }
  }

  lemma {:induction false} EndTrimmed(s: string) returns (after: string)
    ensures s == TrimEnd(s) + after && Blank(after)
    ensures TrimEnd(s) == "" || !IsSpace(TrimEnd(s)[|TrimEnd(s)| - 1])
  {
    after := "";
    if s != "" && IsSpace(s[|s| - 1]) {
      after := EndTrimmed(s[..|s| - 1]);
      after := after + [s[|s| - 1]];
    }
  }

  lemma {:induction false} StartsAfter(before: string, t: string)
    requires Blank(before) && (t == "" || !IsSpace(t[0]))
    ensures TrimStart(before + t) == t
  {
    if before == "" {
      assert before + t == t;
    } else {
      assert (before + t)[1..] == before[1..] + t;
      StartsAfter(before[1..], t);
    }
  }

  lemma {:induction false} EndsBefore(t: string, after: string)
    requires Blank(after) && (t == "" || !IsSpace(t[|t| - 1]))
    ensures TrimEnd(t + after) == t
    decreases |after|
  {
    var n := |after| - 1;
    if after == "" {
      assert t + after == t;
    } else {
      assert (t + after)[..|t + after| - 1] == t + after[..n];
      EndsBefore(t, after[..n]);
    }
  }

  /** Trimming removes the white space at both ends, and nothing else. */
  lemma TrimMeaning(s: string) returns (before: string, after: string)
    ensures s == before + Trim(s) + after && Blank(before) && Blank(after) && Bare(Trim(s))
  {
    before := StartTrimmed(s);
    after := EndTrimmed(TrimStart(s));
  }

  lemma TrimIs(before: string, t: string, after: string)
    requires Blank(before) && Blank(after) && Bare(t) && t != ""
    ensures Trim(before + t + after) == t
  {
    assert before + t + after == before + (t + after) && (t + after)[0] == t[0];
    StartsAfter(before, t + after);
    EndsBefore(t, after);
  }

  /** The line is the encoding of a number in decimal digits, perhaps with a plus sign, between white space. */
  predicate Declares(line: seq<byte>, before: string, sign: string, digits: string, after: string, n: int) {
    && line == Utf8All(before + (sign + digits) + after)
    && Blank(before) && Blank(after) && (sign == "" || sign == "+")
    && digits != "" && AllDigits(digits) && n == Value(digits)
  }

  /** Which lines declare which count. */
  lemma DeclaredMeaning(line: seq<byte>, n: int)
    ensures DeclaredCount(line) == Some(n) <==>
              exists before, sign, digits, after :: Declares(line, before, sign, digits, after, n)
  {
    hide FromUtf8, Trim, Utf8All, Value;
    if DeclaredCount(line) == Some(n) {
      var text := FromUtf8(line).value;
      FromUtf8Iff(line, text);
      var before, after := TrimMeaning(text);
      var t := Trim(text);
      var sign := if t[0] == '+' then "+" else "";
      assert t == sign + t[|sign|..];
      assert Declares(line, before, sign, t[|sign|..], after, n);
    }
    if before, sign, digits, after :| Declares(line, before, sign, digits, after, n) {
      var text := before + (sign + digits) + after;
      FromUtf8Iff(line, text);
      assert IsDigit(digits[0]) && IsDigit(digits[|digits| - 1]);
      assert (sign + digits)[|sign + digits| - 1] == digits[|digits| - 1];
      TrimIs(before, sign + digits, after);
      assert (sign + digits)[|sign|..] == digits;
    }
  }

  /** Of the ASCII characters six are white space. */
  lemma AsciiSpaces(c: char)
    requires c as int < 128
    ensures IsSpace(c) <==> c in {9 as char, '\n', 11 as char, 12 as char, '\r', ' '}
  {
  }

  function SplitEnvelope(bytes: seq<byte>): Result<(seq<byte>, seq<byte>), EnvelopeError> {
    if |bytes| < COUNT_LINE_LEN + 1 || bytes[COUNT_LINE_LEN] != NEWLINE then Err(MissingCountLine)
    else if FromUtf8(bytes[..COUNT_LINE_LEN]).None? then Err(NotText)
    else
      var count := DeclaredCount(bytes[..COUNT_LINE_LEN]);
      if count.None? then Err(NotACount)
      else
        var start := COUNT_LINE_LEN + 1;
        if start + count.value > |bytes| then Err(CountExceedsFile)
        else Ok((bytes[start..start + count.value], bytes[start + count.value..]))
  }

  /** Success is only given for, and always given to, a file that is a ten-byte line declaring a count, a
      newline, a message of that many bytes and a footer; and those are what it returns. */
  lemma SplitAcceptsExactly(bytes: seq<byte>, message: seq<byte>, footer: seq<byte>)
    ensures SplitEnvelope(bytes) == Ok((message, footer)) <==>
              exists line :: IsEnvelope(bytes, line, message, footer)
  {
    if SplitEnvelope(bytes) == Ok((message, footer)) {
      assert IsEnvelope(bytes, bytes[..COUNT_LINE_LEN], message, footer);
    }
    if line :| IsEnvelope(bytes, line, message, footer) {
      assert bytes[..COUNT_LINE_LEN] == line;
      assert bytes[COUNT_LINE_LEN + 1..] == message + footer;
      assert bytes[COUNT_LINE_LEN + 1..COUNT_LINE_LEN + 1 + |message|] == message;
    }
  }

  /** Which of the errors a file is refused with. */
  lemma SplitRefusesFor(bytes: seq<byte>)
    ensures SplitEnvelope(bytes) == Err(MissingCountLine) <==> |bytes| < 11 || bytes[10] != 10
    ensures SplitEnvelope(bytes) == Err(NotText) <==> |bytes| >= 11 && bytes[10] == 10 && forall s :: Utf8All(s) != bytes[..10]
    ensures SplitEnvelope(bytes) == Err(CountExceedsFile) <==>
              |bytes| >= 11 && bytes[10] == 10 && DeclaredCount(bytes[..10]).Some? && DeclaredCount(bytes[..10]).value > |bytes| - 11
  {
    hide FromUtf8, Utf8All, ParseCount;
    if |bytes| >= 11 {
      var line := bytes[..10];
      forall s ensures FromUtf8(line) == Some(s) <==> line == Utf8All(s) {
        FromUtf8Iff(line, s);
      }
      if FromUtf8(line).Some? {
        assert Utf8All(FromUtf8(line).value) == line;
      }
    }
  }

  predicate IsEnvelope(bytes: seq<byte>, line: seq<byte>, message: seq<byte>, footer: seq<byte>) {
    |line| == 10 && DeclaredCount(line) == Some(|message|) && bytes == line + [10] + message + footer
  }

  // ----- writing an envelope -----

  function Bytes(s: string): (bytes: seq<byte>)
    requires forall i :: 0 <= i < |s| ==> s[i] as int < 128
    ensures |bytes| == |s|
  {
    seq(|s|, i requires 0 <= i < |s| => s[i] as byte)
  }

  function Spaces(n: nat): string {
    if n == 0 then "" else Spaces(n - 1) + " "
  }

  lemma {:induction false} SpacesAre(n: nat)
    ensures |Spaces(n)| == n && forall i :: 0 <= i < n ==> Spaces(n)[i] == ' '
  {
    if n > 0 {
      SpacesAre(n - 1);
    }
  }

  /** The count, padded to ten characters. */
  function CountLine(n: nat): string
    requires |Digits(n)| <= COUNT_LINE_LEN
  {
    Digits(n) + Spaces(COUNT_LINE_LEN - |Digits(n)|)
  }

  lemma DigitsCount(d: string)
    requires d != "" && AllDigits(d)
    ensures Bare(d) && ParseCount(d) == Some(Value(d)) && forall i :: 0 <= i < |d| ==> d[i] as int < 128
  {
    hide Value;
    assert IsDigit(d[0]) && IsDigit(d[|d| - 1]);
  }

  lemma CountLineReadBack(n: nat)
    requires |Digits(n)| <= COUNT_LINE_LEN
    ensures |CountLine(n)| == COUNT_LINE_LEN
    ensures forall i :: 0 <= i < COUNT_LINE_LEN ==> CountLine(n)[i] as int < 128
    ensures ParseCount(Trim(CountLine(n))) == Some(n)
  {
    hide Digits, Spaces, Trim, Value, ParseCount, Bare;
    var d, k := Digits(n), COUNT_LINE_LEN - |Digits(n)|;
    DigitsReadBack(n);
    SpacesAre(k);
    DigitsCount(d);
    TrimIs("", d, Spaces(k));
    assert "" + d + Spaces(k) == CountLine(n);
  }

  function Envelope(message: seq<byte>, footer: seq<byte>): seq<byte>
    requires |message| < Pow10(COUNT_LINE_LEN)
  {
    DigitsLength(|message|, COUNT_LINE_LEN);
    CountLineReadBack(|message|);
    Bytes(CountLine(|message|)) + [NEWLINE] + message + footer
  }

  /** Every message whose length fits the count line comes back whole, and so does its footer. */
  lemma EnvelopeRoundTrip(message: seq<byte>, footer: seq<byte>)
    requires |message| < Pow10(COUNT_LINE_LEN)
    ensures SplitEnvelope(Envelope(message, footer)) == Ok((message, footer))
  {
    hide Pow10, Digits, CountLine, Trim, ParseCount, FromUtf8;
    DigitsLength(|message|, COUNT_LINE_LEN);
    CountLineReadBack(|message|);
    var line := Bytes(CountLine(|message|));
    assert Text(line) == CountLine(|message|);
    AsciiIsUtf8(line);
    assert IsEnvelope(Envelope(message, footer), line, message, footer);
    SplitAcceptsExactly(Envelope(message, footer), message, footer);
  }
}
