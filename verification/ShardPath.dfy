/** Where a message's file lies: one directory per decimal digit of `rowid / 1000`, least
    significant first, and none at all when that is zero. */
module ShardPath {
  import opened Decimal

  /** Rust's `/` truncates toward zero. */
  function Shard(rowid: int): int {
    if rowid >= 0 then rowid / 1000 else -(-rowid / 1000)
  }

  /** One directory name per character, last character first. */
  function Backwards(s: string): seq<string> {
    if s == "" then [] else [[s[|s| - 1]]] + Backwards(s[..|s| - 1])
  }

  function ShardDirs(rowid: int): seq<string> {
    if Shard(rowid) > 0 then Backwards(Digits(Shard(rowid))) else []
  }

  /** `EmlxPathResolver::resolve`, as path components below the mailbox directory. */
  method Resolve(mailboxDir: seq<string>, rowid: int, partial: bool) returns (path: seq<string>)
    ensures path == mailboxDir + ["Data"] + ShardDirs(rowid) + ["Messages", Show(rowid) + if partial then ".partial.emlx" else ".emlx"]
  {
    var shard := Shard(rowid);
    path := mailboxDir + ["Data"];
    if shard > 0 {
      var digits := Digits(shard);
      var k := |digits|;
      assert digits[..k] == digits;
      while k > 0
        invariant 0 <= k <= |digits|
        invariant path + Backwards(digits[..k]) == mailboxDir + ["Data"] + ShardDirs(rowid)
      {
        k := k - 1;
        assert digits[..k + 1][..k] == digits[..k];
        path := path + [[digits[k]]];
      }
    }
    path := path + ["Messages"];
    var suffix := if partial then ".partial.emlx" else ".emlx";
    path := path + [Show(rowid) + suffix];
  }

  // ----- reading the directories back -----

  function LittleEndian(dirs: seq<string>): int {
    if dirs == [] then 0
    else (if |dirs[0]| == 1 && IsDigit(dirs[0][0]) then DigitValue(dirs[0][0]) else 0) + 10 * LittleEndian(dirs[1..])
  }

  lemma {:induction false} BackwardsValue(s: string)
    requires AllDigits(s)
    ensures LittleEndian(Backwards(s)) == Value(s)
    ensures |Backwards(s)| == |s|
  {
    if s != "" {
      BackwardsValue(s[..|s| - 1]);
      assert Backwards(s)[1..] == Backwards(s[..|s| - 1]);
    }
  }

  /** The directories spell `rowid / 1000`, least significant digit first. */
  lemma ShardReadBack(rowid: int)
    ensures LittleEndian(ShardDirs(rowid)) == if rowid > 0 then rowid / 1000 else 0
  {
    if Shard(rowid) > 0 {
      DigitsReadBack(Shard(rowid));
      BackwardsValue(Digits(Shard(rowid)));
    }
  }

  lemma {:induction false} BackwardsAt(s: string, k: nat)
    requires k < |s|
    ensures |Backwards(s)| == |s| && Backwards(s)[k] == [s[|s| - 1 - k]]
  {
    if |s| > 1 {
      BackwardsAt(s[..|s| - 1], if k == 0 then 0 else k - 1);
    }
  }

  /** Directory by directory: the name is a single character, the digit of that place of `rowid / 1000`. */
  lemma ShardNames(rowid: int, k: nat)
    requires k < |ShardDirs(rowid)|
    ensures Pow10(k) > 0 && rowid >= 1000
    ensures |ShardDirs(rowid)[k]| == 1 && ShardDirs(rowid)[k][0] as int == '0' as int + rowid / 1000 / Pow10(k) % 10
  {
    var n := Shard(rowid);
    hide Digits, Backwards, Pow10;
    BackwardsAt(Digits(n), 0);
    BackwardsAt(Digits(n), k);
    DigitAt(n, k);
  }

  /** The depth is the number of digits: at most `k` exactly when `rowid < 1000 * 10^k`. */
  lemma ShardDepth(rowid: int, k: nat)
    requires rowid > 0
    ensures |ShardDirs(rowid)| <= k <==> rowid < 1000 * Pow10(k)
  {
    if Shard(rowid) > 0 {
      DigitsReadBack(Shard(rowid));
      BackwardsValue(Digits(Shard(rowid)));
      if k >= 1 {
        DigitsLength(Shard(rowid), k);
      }
    } else if k >= 1 {
      Pow10AtLeast10(k);
    }
  }

  /** Two messages of a mailbox share a directory exactly when their shards agree. */
  lemma SameDirectoryIff(a: int, b: int)
    requires a > 0 && b > 0
    ensures ShardDirs(a) == ShardDirs(b) <==> a / 1000 == b / 1000
  {
    ShardReadBack(a);
    ShardReadBack(b);
  }

  function Interval(lo: int, n: nat): set<int> {
    if n == 0 then {} else Interval(lo, n - 1) + {lo + n - 1}
  }

  lemma {:induction false} IntervalSize(lo: int, n: nat)
    ensures |Interval(lo, n)| == n
    ensures forall x :: x in Interval(lo, n) <==> lo <= x < lo + n
  {
    if n > 0 {
      IntervalSize(lo, n - 1);
    }
  }

  lemma SubsetSize(a: set<int>, b: set<int>)
    requires a <= b
    ensures |a| <= |b|
  {
    assert b == a + (b - a);
  }

  /** No directory ever holds more than a thousand messages. */
  lemma DirectoryHoldsAtMost1000(rowids: set<int>, dirs: seq<string>)
    requires forall r :: r in rowids ==> r > 0 && ShardDirs(r) == dirs
    ensures |rowids| <= 1000
  {
    var lo := 1000 * LittleEndian(dirs);
    IntervalSize(lo, 1000);
    forall r | r in rowids ensures r in Interval(lo, 1000) {
      ShardReadBack(r);
    }
    SubsetSize(rowids, Interval(lo, 1000));
  }
}
