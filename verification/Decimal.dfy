/** Decimal notation, as counts, rowids and shard directories are printed and read back. */
module Decimal {
  import opened Wrappers

  function DigitChar(d: nat): char
    requires d < 10
  {
    ('0' as int + d) as char
  }

  predicate IsDigit(c: char) {
    '0' <= c <= '9'
  }

  function DigitValue(c: char): (d: nat)
    requires IsDigit(c)
    ensures d < 10
  {
    c as int - '0' as int
  }

  function Digits(n: nat): (s: string)
    ensures s != ""
  {
    if n < 10 then [DigitChar(n)] else Digits(n / 10) + [DigitChar(n % 10)]
  }

  predicate AllDigits(s: string) {
    forall i :: 0 <= i < |s| ==> IsDigit(s[i])
  }

  function Value(s: string): nat
    requires AllDigits(s)
  {
    if s == "" then 0 else 10 * Value(s[..|s| - 1]) + DigitValue(s[|s| - 1])
  }

  function Pow10(k: nat): nat {
    if k == 0 then 1 else 10 * Pow10(k - 1)
  }

  lemma {:induction false} DigitsReadBack(n: nat)
    ensures AllDigits(Digits(n)) && Value(Digits(n)) == n
  {
    if n < 10 {
      assert Digits(n)[..0] == "";
    } else {
      DigitsReadBack(n / 10);
      assert Digits(n)[..|Digits(n)| - 1] == Digits(n / 10);
    }
  }

  lemma DigitsSplit(n: nat)
    requires n >= 10
    ensures Digits(n) == Digits(n / 10) + [DigitChar(n % 10)]
  {
  }

  /** Every digit in its place, as the character that shows it. */
  lemma {:induction false} DigitAt(n: nat, k: nat)
    requires k < |Digits(n)|
    ensures Pow10(k) > 0
    ensures Digits(n)[|Digits(n)| - 1 - k] as int == '0' as int + n / Pow10(k) % 10
  {
    if n >= 10 {
      DigitsSplit(n);
      if k > 0 {
        hide Digits;
        DigitAt(n / 10, k - 1);
        DivideTwice(n, Pow10(k - 1));
      }
    }
  }

  lemma DivideTwice(n: nat, p: int)
    requires p > 0
    ensures n / 10 / p == n / (10 * p)
  {
    var q, r := n / 10 / p, n / 10 % p;
    assert n / 10 == q * p + r && n == 10 * (n / 10) + n % 10;
    assert n == q * (10 * p) + (10 * r + n % 10) && 0 <= 10 * r + n % 10 < 10 * p;
    QuotientIs(n, 10 * p, q, 10 * r + n % 10);
  }

  lemma QuotientIs(n: int, d: int, q: int, r: int)
    requires d > 0 && n == q * d + r && 0 <= r < d
    ensures n / d == q
  {
    var e := n / d - q;
    assert e * d == r - n % d;
    if e != 0 {
      AtLeastOnce(if e > 0 then e else -e, d);
      assert false;
    }
  }

  lemma AtLeastOnce(e: int, d: int)
    requires e >= 1 && d > 0
    ensures e * d >= d
  {
  }

  /** The printed length is the digit count: `10^(k-1) <= n < 10^k`, one digit for zero. */
  lemma {:induction false} DigitsLength(n: nat, k: nat)
    requires k >= 1
    ensures |Digits(n)| <= k <==> n < Pow10(k)
  {
    if n >= 10 {
      if k == 1 {
        assert Pow10(1) == 10 * Pow10(0);
      } else {
        DigitsLength(n / 10, k - 1);
      }
    } else {
      Pow10AtLeast10(k);
    }
  }

  lemma {:induction false} Pow10AtLeast10(k: nat)
    requires k >= 1
    ensures Pow10(k) >= 10
  {
    if k > 1 {
      Pow10AtLeast10(k - 1);
    } else {
      assert Pow10(1) == 10 * Pow10(0);
    }
  }

  function Show(i: int): (s: string)
    ensures s != ""
  {
    if i < 0 then "-" + Digits(-i) else Digits(i)
  }

  function ParseNat(s: string): (n: Option<int>)
    ensures n.Some? ==> n.value >= 0
  {
    if s != "" && AllDigits(s) then Some(Value(s)) else None
  }

  function ParseInt(s: string): Option<int> {
    if s != "" && s[0] == '-' then
      var n := ParseNat(s[1..]);
      if n.Some? then Some(-n.value) else None
    else ParseNat(s)
  }

  lemma ShowReadBack(i: int)
    ensures ParseInt(Show(i)) == Some(i)
    ensures forall k :: 0 <= k < |Show(i)| ==> Show(i)[k] == '-' || IsDigit(Show(i)[k])
    ensures Show(i)[0] == '-' <==> i < 0
  {
    DigitsReadBack(if i < 0 then -i else i);
    if i < 0 {
      assert ("-" + Digits(-i))[1..] == Digits(-i);
    } else {
      assert IsDigit(Digits(i)[0]);
    }
  }

  /** Nothing is padded: only zero begins with the digit zero. */
  lemma {:induction false} NoLeadingZero(n: nat)
    ensures Digits(n)[0] == '0' <==> n == 0
  {
    if n >= 10 {
      NoLeadingZero(n / 10);
    }
  }
}
