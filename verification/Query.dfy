/** The dynamic `messages` query: clauses and positional parameters appended filter by filter,
    against SQL's three-valued reading of the result. */
module Query {
  import opened Wrappers
  import opened Strings
  import opened Sql

  datatype MessageRow = MessageRow(
    rowid: int, mailbox: int, dateSent: Option<int>, dateReceived: Option<int>, read: bool, flagged: bool, deleted: bool)

  function Decode(r: RawRow): MessageRow {
    MessageRow(r.rowid, r.mailbox, r.dateSent, r.dateReceived, r.read != 0, r.flagged != 0, r.deleted != 0)
  }

  datatype MessageQuery = MessageQuery(
    rowid: Option<int>, mailboxUrl: Option<string>, account: Option<string>,
    sentFrom: Option<int>, sentTo: Option<int>,
    read: Option<bool>, flagged: Option<bool>, deleted: Option<bool>)

  // ----- the SQL fragment -----

  datatype Clause = RowidIs | MailboxIn(count: nat) | SentFrom | SentTo | ReadIs | FlaggedIs | DeletedIs

  function Marks(n: nat): string {
    if n == 0 then "" else if n == 1 then "?" else Marks(n - 1) + ", ?"
  }

  function Text(c: Clause): string {
    match c
    case RowidIs => "ROWID = ?"
    case MailboxIn(n) => "mailbox IN (" + Marks(n) + ")"
    case SentFrom => "date_sent >= ?"
    case SentTo => "date_sent <= ?"
    case ReadIs => "read = ?"
    case FlaggedIs => "flagged = ?"
    case DeletedIs => "deleted = ?"
  }

  function Joined(clauses: seq<Clause>): string {
    if clauses == [] then ""
    else if |clauses| == 1 then Text(clauses[0])
    else Joined(clauses[..|clauses| - 1]) + " AND " + Text(clauses[|clauses| - 1])
  }

  function WhereText(clauses: seq<Clause>): string {
    if clauses == [] then "" else "WHERE " + Joined(clauses)
  }

  function Placeholders(text: string): nat {
    if text == "" then 0
    else Placeholders(text[..|text| - 1]) + if text[|text| - 1] == '?' then 1 else 0
  }

  function Arity(c: Clause): nat {
    if c.MailboxIn? then c.count else 1
  }

  function Arities(clauses: seq<Clause>): nat {
    if clauses == [] then 0 else Arities(clauses[..|clauses| - 1]) + Arity(clauses[|clauses| - 1])
  }

  lemma {:induction false} PlaceholdersConcat(a: string, b: string)
    ensures Placeholders(a + b) == Placeholders(a) + Placeholders(b)
    decreases |b|
  {
    if b == "" {
      assert a + b == a;
    } else {
      assert (a + b)[..|a + b| - 1] == a + b[..|b| - 1];
      PlaceholdersConcat(a, b[..|b| - 1]);
    }
  }

  lemma {:induction false} NoMarks(text: string)
    requires '?' !in text
    ensures Placeholders(text) == 0
    decreases |text|
  {
    if text != "" {
      NoMarks(text[..|text| - 1]);
    }
  }

  lemma OneMark(text: string)
    requires '?' !in text
    ensures Placeholders(text + "?") == 1
  {
    NoMarks(text);
    assert (text + "?")[..|text|] == text;
  }

  lemma {:induction false} MarksCount(n: nat)
    ensures Placeholders(Marks(n)) == n
  {
    if n == 1 {
      OneMark("");
      assert "" + "?" == "?";
    } else if n > 1 {
      MarksCount(n - 1);
      PlaceholdersConcat(Marks(n - 1), ", ?");
      OneMark(", ");
      assert ", " + "?" == ", ?";
    }
  }

  lemma TextCount(c: Clause)
    ensures Placeholders(Text(c)) == Arity(c)
  {
    hide Placeholders, Marks;
    match c
    case MailboxIn(n) =>
      PlaceholdersConcat("mailbox IN (" + Marks(n), ")");
      PlaceholdersConcat("mailbox IN (", Marks(n));
      NoMarks("mailbox IN (");
      NoMarks(")");
      MarksCount(n);
    case RowidIs => OneMark("ROWID = "); assert "ROWID = " + "?" == Text(c);
    case SentFrom => OneMark("date_sent >= "); assert "date_sent >= " + "?" == Text(c);
    case SentTo => OneMark("date_sent <= "); assert "date_sent <= " + "?" == Text(c);
    case ReadIs => OneMark("read = "); assert "read = " + "?" == Text(c);
    case FlaggedIs => OneMark("flagged = "); assert "flagged = " + "?" == Text(c);
    case DeletedIs => OneMark("deleted = "); assert "deleted = " + "?" == Text(c);
  }

  lemma {:induction false} JoinedCount(clauses: seq<Clause>)
    ensures Placeholders(Joined(clauses)) == Arities(clauses)
  {
    if clauses != [] {
      var front, last := clauses[..|clauses| - 1], clauses[|clauses| - 1];
      TextCount(last);
      JoinedCount(front);
      if front != [] {
        PlaceholdersConcat(Joined(front) + " AND ", Text(last));
        PlaceholdersConcat(Joined(front), " AND ");
        NoMarks(" AND ");
      }
    }
  }

  /** The rendered WHERE clause has exactly one placeholder per parameter. */
  lemma WhereCount(clauses: seq<Clause>)
    ensures Placeholders(WhereText(clauses)) == Arities(clauses)
  {
    JoinedCount(clauses);
    if clauses != [] {
      PlaceholdersConcat("WHERE ", Joined(clauses));
      NoMarks("WHERE ");
    }
  }

  // ----- what SQLite makes of it -----

  function EvalClause(c: Clause, args: seq<int>, r: RawRow): Truth
    requires |args| == Arity(c)
  {
    match c
    case RowidIs => Known(r.rowid == args[0])
    case MailboxIn(_) => Known(r.mailbox in args)
    case SentFrom => if r.dateSent.None? then Unknown else Known(r.dateSent.value >= args[0])
    case SentTo => if r.dateSent.None? then Unknown else Known(r.dateSent.value <= args[0])
    case ReadIs => Known(r.read == args[0])
    case FlaggedIs => Known(r.flagged == args[0])
    case DeletedIs => Known(r.deleted == args[0])
  }

  /** Parameters are bound by position, clause after clause. */
  function EvalWhere(clauses: seq<Clause>, params: seq<int>, r: RawRow): Truth
    requires |params| == Arities(clauses)
  {
    if clauses == [] then True
    else
      var n := |clauses| - 1;
      var cut := |params| - Arity(clauses[n]);
      And(EvalWhere(clauses[..n], params[..cut], r), EvalClause(clauses[n], params[cut..], r))
  }

  predicate Selects(clauses: seq<Clause>, params: seq<int>, r: RawRow) {
    |params| == Arities(clauses) && EvalWhere(clauses, params, r) == True
  }

  lemma ArityAppend(clauses: seq<Clause>, c: Clause)
    ensures Arities(clauses + [c]) == Arities(clauses) + Arity(c)
  {
    assert (clauses + [c])[..|clauses|] == clauses;
  }

  lemma EvalAppend(clauses: seq<Clause>, params: seq<int>, c: Clause, args: seq<int>, r: RawRow)
    requires |params| == Arities(clauses) && |args| == Arity(c)
    requires |params + args| == Arities(clauses + [c])
    ensures EvalWhere(clauses + [c], params + args, r) == And(EvalWhere(clauses, params, r), EvalClause(c, args, r))
  {
    hide EvalClause, Arity, And;
    var cs, ps := clauses + [c], params + args;
    assert cs[..|cs| - 1] == clauses && cs[|cs| - 1] == c;
    assert ps[..|params|] == params && ps[|params|..] == args;
  }

  lemma AppendFilter(clauses: seq<Clause>, params: seq<int>, c: Clause, args: seq<int>, r: RawRow)
    requires |params| == Arities(clauses) && |args| == Arity(c)
    ensures |params + args| == Arities(clauses + [c])
    ensures Selects(clauses + [c], params + args, r) <==> Selects(clauses, params, r) && EvalClause(c, args, r) == True
  {
    hide EvalClause, EvalWhere, Arities, Arity;
    ArityAppend(clauses, c);
    EvalAppend(clauses, params, c, args, r);
  }

  // ----- what the text says -----

  function Separated(n: nat): seq<string> {
    if n == 0 then [] else Separated(n - 1) + ["?,"]
  }

  /** The words of a list of placeholders. */
  function ListWords(n: nat): seq<string> {
    if n == 0 then ["()"] else if n == 1 then ["(?)"] else ["(?,"] + Separated(n - 2) + ["?)"]
  }

  lemma {:induction false} OpenListWords(n: nat)
    requires n >= 1
    ensures Words("(" + Marks(n) + ",") == ["(?,"] + Separated(n - 1)
  {
    hide Words;
    if n == 1 {
      OneWord("(?,");
      assert "(" + Marks(1) + "," == "(?,";
    } else {
      OpenListWords(n - 1);
      WordsJoined("(" + Marks(n - 1) + ",", "?,");
      OneWord("?,");
      assert "(" + Marks(n) + "," == "(" + Marks(n - 1) + "," + " " + "?,";
    }
  }

  lemma ShortListText()
    ensures Words("(" + Marks(0) + ")") == ["()"] && Words("(" + Marks(1) + ")") == ["(?)"]
  {
    hide Words;
    OneWord("()");
    assert "(" + Marks(0) + ")" == "()";
    OneWord("(?)");
    assert "(" + Marks(1) + ")" == "(?)";
  }

  lemma ListText(n: nat)
    ensures Words("(" + Marks(n) + ")") == ListWords(n)
  {
    hide Words;
    if n < 2 {
      ShortListText();
    } else {
      OpenListWords(n - 1);
      WordsJoined("(" + Marks(n - 1) + ",", "?)");
      OneWord("?)");
      assert "(" + Marks(n) + ")" == "(" + Marks(n - 1) + "," + " " + "?)";
    }
  }

  lemma {:induction false} SeparatedRead(n: nat, rest: seq<string>)
    ensures MarksLeft(Separated(n) + (["?)"] + rest)) == Some(n + 1)
  {
    if n > 0 {
      SeparatedFront(n);
      var words := Separated(n) + (["?)"] + rest);
      assert words[1..] == Separated(n - 1) + (["?)"] + rest);
      SeparatedRead(n - 1, rest);
    }
  }

  lemma {:induction false} SeparatedFront(n: nat)
    requires n >= 1
    ensures Separated(n) == ["?,"] + Separated(n - 1)
  {
    if n > 1 {
      SeparatedFront(n - 1);
    }
  }

  lemma ListReads(n: nat, rest: seq<string>)
    ensures ListRead(ListWords(n) + rest) == Some((n, |ListWords(n)|))
  {
    hide Separated, MarksLeft;
    var words := ListWords(n) + rest;
    if n >= 2 {
      SeparatedRead(n - 2, rest);
      SeparatedCount(n - 2);
      assert words[0] == "(?," && words[1..] == Separated(n - 2) + (["?)"] + rest);
    } else {
      assert words[0] == ListWords(n)[0];
    }
  }

  lemma {:induction false} SeparatedCount(n: nat)
    ensures |Separated(n)| == n
  {
    if n > 0 {
      SeparatedCount(n - 1);
    }
  }

  lemma ThreeWords(a: string, b: string, c: string)
    requires ' ' !in a && ' ' !in b && ' ' !in c
    ensures Words(a + " " + b + " " + c) == [a, b, c]
  {
    hide Words;
    WordsJoined(a + " " + b, c);
    WordsJoined(a, b);
    OneWord(a);
    OneWord(b);
    OneWord(c);
  }

  function ClauseWords(c: Clause): seq<string> {
    match c
    case RowidIs => ["ROWID", "=", "?"]
    case MailboxIn(n) => ["mailbox", "IN"] + ListWords(n)
    case SentFrom => ["date_sent", ">=", "?"]
    case SentTo => ["date_sent", "<=", "?"]
    case ReadIs => ["read", "=", "?"]
    case FlaggedIs => ["flagged", "=", "?"]
    case DeletedIs => ["deleted", "=", "?"]
  }

  lemma MembershipWords(n: nat)
    ensures Words(Text(MailboxIn(n))) == ["mailbox", "IN"] + ListWords(n)
  {
    hide Words;
    ListText(n);
    WordsJoined("mailbox IN", "(" + Marks(n) + ")");
    WordsJoined("mailbox", "IN");
    OneWord("mailbox");
    OneWord("IN");
    assert "mailbox" + " " + "IN" == "mailbox IN";
    assert Text(MailboxIn(n)) == "mailbox IN" + " " + ("(" + Marks(n) + ")");
  }

  lemma TextWords(c: Clause)
    ensures Words(Text(c)) == ClauseWords(c)
  {
    hide Words, Marks, ListWords;
    match c
    case MailboxIn(n) => MembershipWords(n);
    case RowidIs => ThreeWords("ROWID", "=", "?"); assert Text(c) == "ROWID" + " " + "=" + " " + "?";
    case SentFrom => ThreeWords("date_sent", ">=", "?"); assert Text(c) == "date_sent" + " " + ">=" + " " + "?";
    case SentTo => ThreeWords("date_sent", "<=", "?"); assert Text(c) == "date_sent" + " " + "<=" + " " + "?";
    case ReadIs => ThreeWords("read", "=", "?"); assert Text(c) == "read" + " " + "=" + " " + "?";
    case FlaggedIs => ThreeWords("flagged", "=", "?"); assert Text(c) == "flagged" + " " + "=" + " " + "?";
    case DeletedIs => ThreeWords("deleted", "=", "?"); assert Text(c) == "deleted" + " " + "=" + " " + "?";
  }

  lemma MembershipReads(n: nat, args: seq<int>, r: RawRow, rest: seq<string>, params: seq<int>)
    requires |args| == n
    ensures ConditionRead(["mailbox", "IN"] + ListWords(n) + rest, args + params, r)
         == Some((Known(r.mailbox in args), 2 + |ListWords(n)|, n))
  {
    hide ListWords, ListRead;
    var words := ["mailbox", "IN"] + ListWords(n) + rest;
    assert words[2..] == ListWords(n) + rest && words[0] == "mailbox" && words[1] == "IN";
    ListReads(n, rest);
    ListNotEmpty(n);
    assert (args + params)[..n] == args;
  }

  lemma ComparisonReads(column: string, op: string, arg: int, r: RawRow, rest: seq<string>, params: seq<int>)
    requires Column(column, r).Some? && IsOperator(op)
    ensures ConditionRead([column, op, "?"] + rest, [arg] + params, r) == Some((Compare(op, Column(column, r).value, arg), 3, 1))
  {
    hide Column, Compare, ListRead;
    var words := [column, op, "?"] + rest;
    assert words[0] == column && words[1] == op && words[2] == "?" && op != "IN";
  }

  /** One clause, as SQLite reads it. */
  lemma ClauseReads(c: Clause, args: seq<int>, r: RawRow, rest: seq<string>, params: seq<int>)
    requires |args| == Arity(c)
    ensures ConditionRead(ClauseWords(c) + rest, args + params, r) == Some((EvalClause(c, args, r), |ClauseWords(c)|, Arity(c)))
  {
    hide ConditionRead, ListWords;
    if c.MailboxIn? {
      MembershipReads(c.count, args, r, rest, params);
    } else {
      assert args == [args[0]];
    }
    match c
    case MailboxIn(_) =>
    case RowidIs => ComparisonReads("ROWID", "=", args[0], r, rest, params);
    case SentFrom => ComparisonReads("date_sent", ">=", args[0], r, rest, params);
    case SentTo => ComparisonReads("date_sent", "<=", args[0], r, rest, params);
    case ReadIs => ComparisonReads("read", "=", args[0], r, rest, params);
    case FlaggedIs => ComparisonReads("flagged", "=", args[0], r, rest, params);
    case DeletedIs => ComparisonReads("deleted", "=", args[0], r, rest, params);
  }

  lemma ListNotEmpty(n: nat)
    ensures ListWords(n) != []
  {
  }

  lemma {:induction false} JoinedFront(clauses: seq<Clause>)
    requires |clauses| >= 2
    ensures Joined(clauses) == Text(clauses[0]) + " AND " + Joined(clauses[1..])
  {
    hide Text;
    var n := |clauses| - 1;
    if n == 1 {
      assert clauses[..1] == [clauses[0]] && clauses[1..] == [clauses[1]];
    } else {
      JoinedFront(clauses[..n]);
      assert clauses[..n][1..] == clauses[1..][..n - 1];
    }
  }

  lemma AndAssociates(a: Truth, b: Truth, c: Truth)
    ensures And(And(a, b), c) == And(a, And(b, c)) && And(True, a) == a && And(a, True) == a
  {
  }

  lemma {:induction false} EvalFront(c: Clause, rest: seq<Clause>, args: seq<int>, params: seq<int>, r: RawRow)
    requires |args| == Arity(c) && |params| == Arities(rest)
    requires Arities([c] + rest) == Arity(c) + Arities(rest)
    ensures EvalWhere([c] + rest, args + params, r) == And(EvalClause(c, args, r), EvalWhere(rest, params, r))
    decreases |rest|
  {
    hide EvalClause, Arity, And;
    if rest == [] {
      assert [c] + rest == [] + [c] && args + params == [] + args;
      EvalAppend([], [], c, args, r);
      AndAssociates(EvalClause(c, args, r), True, True);
    } else {
      var n := |rest| - 1;
      var mid, last := rest[..n], rest[n];
      var cut := |params| - Arity(last);
      var p, q := params[..cut], params[cut..];
      assert rest == mid + [last] && [c] + rest == ([c] + mid) + [last];
      assert params == p + q && args + params == (args + p) + q;
      hide EvalWhere, Arities;
      ArityAppend(mid, last);
      ArityFront(c, mid);
      EvalFront(c, mid, args, p, r);
      EvalAppend([c] + mid, args + p, last, q, r);
      EvalAppend(mid, p, last, q, r);
      AndAssociates(EvalClause(c, args, r), EvalWhere(mid, p, r), EvalClause(last, q, r));
    }
  }

  /** The conjunction, as SQLite reads it. */
  lemma {:induction false} JoinedReads(clauses: seq<Clause>, params: seq<int>, r: RawRow)
    requires clauses != [] && |params| == Arities(clauses)
    ensures ConditionsRead(Words(Joined(clauses)), params, r) == Some(EvalWhere(clauses, params, r))
  {
    hide Words, Text, ClauseWords, EvalClause, ConditionRead, ConditionsRead, EvalWhere, Arity, Arities, Joined, And;
    var c, rest := clauses[0], clauses[1..];
    assert clauses == [c] + rest;
    ArityFront(c, rest);
    var a := Arity(c);
    var args, more := params[..a], params[a..];
    assert params == args + more;
    EvalFront(c, rest, args, more, r);
    TextWords(c);
    if rest == [] {
      assert clauses == [c];
      OneRead(c, params, r);
    } else {
      var tail := ["AND"] + Words(Joined(rest));
      JoinedFront(clauses);
      AndWords(Text(c), Joined(rest));
      ClauseReads(c, args, r, tail, more);
      JoinedReads(rest, more, r);
      assert (ClauseWords(c) + tail)[|ClauseWords(c)| + 1..] == Words(Joined(rest));
      MoreRead(ClauseWords(c) + tail, params, r, EvalClause(c, args, r), |ClauseWords(c)|, a);
    }
  }

  lemma {:induction false} ArityFront(c: Clause, rest: seq<Clause>)
    ensures Arities([c] + rest) == Arity(c) + Arities(rest)
    decreases |rest|
  {
    hide Arity;
    if rest == [] {
      assert [c] + rest == [] + [c];
      ArityAppend([], c);
    } else {
      var n := |rest| - 1;
      assert rest == rest[..n] + [rest[n]] && [c] + rest == ([c] + rest[..n]) + [rest[n]];
      ArityFront(c, rest[..n]);
      ArityAppend([c] + rest[..n], rest[n]);
    }
  }

  lemma OneRead(c: Clause, params: seq<int>, r: RawRow)
    requires |params| == Arities([c])
    ensures Joined([c]) == Text(c) && ConditionsRead(ClauseWords(c), params, r) == Some(EvalWhere([c], params, r))
  {
    hide Text, ClauseWords, EvalClause, ConditionRead, Arity;
    assert [c][..0] == [] && params[..0] == [] && params[0..] == params;
    ClauseReads(c, params, r, [], []);
    assert ClauseWords(c) + [] == ClauseWords(c) && params + [] == params;
  }

  lemma MoreRead(words: seq<string>, params: seq<int>, r: RawRow, t: Truth, w: nat, p: nat)
    requires ConditionRead(words, params, r) == Some((t, w, p)) && w < |words| && p <= |params| && words[w] == "AND"
    requires ConditionsRead(words[w + 1..], params[p..], r).Some?
    ensures ConditionsRead(words, params, r) == Some(And(t, ConditionsRead(words[w + 1..], params[p..], r).value))
  {
    hide ConditionRead, And;
  }

  lemma AndWords(a: string, b: string)
    ensures Words(a + " AND " + b) == Words(a) + (["AND"] + Words(b))
  {
    hide Words;
    WordsJoined(a, "AND" + " " + b);
    WordsJoined("AND", b);
    OneWord("AND");
    assert a + " AND " + b == a + " " + ("AND" + " " + b);
  }

  /** The rendered text, with its parameters bound by position, means to SQLite what the clauses mean. */
  lemma WhereReads(clauses: seq<Clause>, params: seq<int>, r: RawRow)
    requires |params| == Arities(clauses)
    ensures WhereRead(WhereText(clauses), params, r) == Some(EvalWhere(clauses, params, r))
  {
    hide ConditionsRead, Words, Joined;
    if clauses != [] {
      JoinedReads(clauses, params, r);
      assert WhereText(clauses)[|"WHERE "|..] == Joined(clauses);
    }
  }

  // ----- the filters, one by one -----

  function AsInt(b: bool): int {
    if b then 1 else 0
  }

  predicate Within(boxes: Option<seq<int>>, r: RawRow) {
    boxes.Some? ==> r.mailbox in boxes.value
  }

  /** A NULL date meets no bound. */
  predicate SentWithin(q: MessageQuery, r: RawRow) {
    && (q.sentFrom.Some? ==> r.dateSent.Some? && q.sentFrom.value <= r.dateSent.value)
    && (q.sentTo.Some? ==> r.dateSent.Some? && r.dateSent.value <= q.sentTo.value)
  }

  predicate FlagsMatch(q: MessageQuery, r: RawRow) {
    && (q.read.Some? ==> r.read == AsInt(q.read.value))
    && (q.flagged.Some? ==> r.flagged == AsInt(q.flagged.value))
    && (q.deleted.Some? ==> r.deleted == AsInt(q.deleted.value))
  }

  /** The conjunction of the filters that are set. */
  predicate Meets(q: MessageQuery, boxes: Option<seq<int>>, r: RawRow) {
    && (q.rowid.Some? ==> r.rowid == q.rowid.value)
    && Within(boxes, r) && SentWithin(q, r) && FlagsMatch(q, r)
  }

  /** A query under construction: balanced, and selecting by what has been appended so far. */
  ghost predicate Means(clauses: seq<Clause>, params: seq<int>, meets: RawRow -> bool) {
    && |params| == Arities(clauses)
    && forall r :: Selects(clauses, params, r) <==> meets(r)
  }

  method Append(clauses: seq<Clause>, params: seq<int>, c: Clause, args: seq<int>, ghost before: RawRow -> bool, ghost after: RawRow -> bool)
    returns (clauses': seq<Clause>, params': seq<int>)
    requires Means(clauses, params, before) && |args| == Arity(c)
    requires forall r :: after(r) <==> before(r) && EvalClause(c, args, r) == True
    ensures Means(clauses', params', after)
  {
    clauses', params' := clauses + [c], params + args;
    forall r ensures Selects(clauses', params', r) <==> after(r) {
      AppendFilter(clauses, params, c, args, r);
    }
    AppendFilter(clauses, params, c, args, RawRow(0, 0, None, None, 0, 0, 0));
  }

  /** The first half of `execute`: identity and mailbox. */
  method BuildIdentity(q: MessageQuery, boxes: Option<seq<int>>) returns (clauses: seq<Clause>, params: seq<int>)
    ensures Means(clauses, params, (r: RawRow) => (q.rowid.Some? ==> r.rowid == q.rowid.value) && Within(boxes, r))
  {
    clauses, params := [], [];
    ghost var meets := (r: RawRow) => true;
    if q.rowid.Some? {
      ghost var next := (r: RawRow) => r.rowid == q.rowid.value;
      clauses, params := Append(clauses, params, RowidIs, [q.rowid.value], meets, next);
      meets := next;
    }
    if boxes.Some? {
      ghost var was := meets;
      ghost var next := (r: RawRow) => was(r) && r.mailbox in boxes.value;
      clauses, params := Append(clauses, params, MailboxIn(|boxes.value|), boxes.value, meets, next);
      meets := next;
    }
  }

  method BuildDates(q: MessageQuery, clauses0: seq<Clause>, params0: seq<int>, ghost before: RawRow -> bool)
    returns (clauses: seq<Clause>, params: seq<int>)
    requires Means(clauses0, params0, before)
    ensures Means(clauses, params, (r: RawRow) => before(r) && SentWithin(q, r))
  {
    clauses, params := clauses0, params0;
    ghost var meets := before;
    if q.sentFrom.Some? {
      ghost var next := (r: RawRow) => before(r) && r.dateSent.Some? && q.sentFrom.value <= r.dateSent.value;
      clauses, params := Append(clauses, params, SentFrom, [q.sentFrom.value], meets, next);
      meets := next;
    }
    if q.sentTo.Some? {
      ghost var was := meets;
      ghost var next := (r: RawRow) => was(r) && r.dateSent.Some? && r.dateSent.value <= q.sentTo.value;
      clauses, params := Append(clauses, params, SentTo, [q.sentTo.value], meets, next);
      meets := next;
    }
  }

  method BuildFlags(q: MessageQuery, clauses0: seq<Clause>, params0: seq<int>, ghost before: RawRow -> bool)
    returns (clauses: seq<Clause>, params: seq<int>)
    requires Means(clauses0, params0, before)
    ensures Means(clauses, params, (r: RawRow) => before(r) && FlagsMatch(q, r))
  {
    clauses, params := clauses0, params0;
    ghost var meets := before;
    if q.read.Some? {
      ghost var next := (r: RawRow) => before(r) && r.read == AsInt(q.read.value);
      clauses, params := Append(clauses, params, ReadIs, [AsInt(q.read.value)], meets, next);
      meets := next;
    }
    if q.flagged.Some? {
      ghost var was := meets;
      ghost var next := (r: RawRow) => was(r) && r.flagged == AsInt(q.flagged.value);
      clauses, params := Append(clauses, params, FlaggedIs, [AsInt(q.flagged.value)], meets, next);
      meets := next;
    }
    if q.deleted.Some? {
      ghost var was := meets;
      ghost var next := (r: RawRow) => was(r) && r.deleted == AsInt(q.deleted.value);
      clauses, params := Append(clauses, params, DeletedIs, [AsInt(q.deleted.value)], meets, next);
      meets := next;
    }
  }

  /** The query built for `q`, read as SQL, selects exactly the rows that meet every filter. */
  method Build(q: MessageQuery, boxes: Option<seq<int>>) returns (clauses: seq<Clause>, params: seq<int>)
    ensures Placeholders(WhereText(clauses)) == |params|
    ensures Means(clauses, params, (r: RawRow) => Meets(q, boxes, r))
    ensures forall r :: WhereRead(WhereText(clauses), params, r).Some?
    ensures forall r :: WhereRead(WhereText(clauses), params, r) == Some(True) <==> Meets(q, boxes, r)
  {
    ghost var identity := (r: RawRow) => (q.rowid.Some? ==> r.rowid == q.rowid.value) && Within(boxes, r);
    clauses, params := BuildIdentity(q, boxes);
    clauses, params := BuildDates(q, clauses, params, identity);
    clauses, params := BuildFlags(q, clauses, params, (r: RawRow) => identity(r) && SentWithin(q, r));
    WhereCount(clauses);
    hide WhereText, WhereRead, EvalWhere, Placeholders, Meets;
    forall r ensures WhereRead(WhereText(clauses), params, r).Some?
      && (WhereRead(WhereText(clauses), params, r) == Some(True) <==> Meets(q, boxes, r))
    {
      WhereReads(clauses, params, r);
      assert Selects(clauses, params, r) <==> Meets(q, boxes, r);
    }
  }

  // ----- mailbox and account filters -----

  /** One mailbox of the registry, under its normalized URL. */
  datatype Entry = Entry(normal: string, rowid: int, url: string)

  datatype QueryError = MailboxUnmatched(requested: string) | AccountUnmatched(requested: string)

  datatype Folding = Folding(normalize: string -> string, lower: string -> string)

  predicate OfAccount(f: Folding, e: Entry, account: string) {
    Contains(f.lower(e.url), "//" + f.lower(account) + "/")
  }

  /** The account is the part of the URL between two slashes and the next, up to case. */
  lemma OfAccountMeaning(f: Folding, e: Entry, account: string)
    ensures OfAccount(f, e, account) <==> exists before, after :: f.lower(e.url) == before + ("//" + f.lower(account) + "/") + after
  {
    ContainsMeaning(f.lower(e.url), "//" + f.lower(account) + "/");
  }

  ghost predicate InMailbox(f: Folding, registry: seq<Entry>, url: string, m: int) {
    exists k :: 0 <= k < |registry| && registry[k].normal == f.normalize(url) && registry[k].rowid == m
  }

  ghost predicate InAccount(f: Folding, registry: seq<Entry>, account: string, m: int) {
    exists k :: 0 <= k < |registry| && OfAccount(f, registry[k], account) && registry[k].rowid == m
  }

  /** `registry.resolve`: normal forms are the registry's keys, so at most one entry matches. */
  method Resolve(f: Folding, registry: seq<Entry>, url: string) returns (m: Option<int>)
    requires forall i, j :: 0 <= i < j < |registry| ==> registry[i].normal != registry[j].normal
    ensures forall x :: InMailbox(f, registry, url, x) <==> m == Some(x)
  {
    m := None;
    for k := 0 to |registry|
      invariant m.None? ==> forall j :: 0 <= j < k ==> registry[j].normal != f.normalize(url)
      invariant m.Some? ==> exists j :: 0 <= j < k && registry[j].normal == f.normalize(url) && registry[j].rowid == m.value
    {
      if registry[k].normal == f.normalize(url) {
        m := Some(registry[k].rowid);
      }
    }
  }

  method MailboxesForAccount(f: Folding, registry: seq<Entry>, account: string) returns (ids: seq<int>)
    ensures forall x :: InAccount(f, registry, account, x) <==> x in ids
  {
    ids := [];
    for k := 0 to |registry|
      invariant forall x :: x in ids <==> InAccount(f, registry[..k], account, x)
    {
      PrefixAccount(f, registry, account, k);
      if OfAccount(f, registry[k], account) {
        ids := ids + [registry[k].rowid];
      }
    }
    assert registry[..|registry|] == registry;
  }

  lemma PrefixAccount(f: Folding, registry: seq<Entry>, account: string, k: nat)
    requires k < |registry|
    ensures forall x :: InAccount(f, registry[..k + 1], account, x) <==>
              InAccount(f, registry[..k], account, x) || (OfAccount(f, registry[k], account) && x == registry[k].rowid)
  {
    var longer, shorter := registry[..k + 1], registry[..k];
    assert longer == shorter + [registry[k]];
    forall x ensures InAccount(f, longer, account, x) <==>
                       InAccount(f, shorter, account, x) || (OfAccount(f, registry[k], account) && x == registry[k].rowid)
    {
      if InAccount(f, shorter, account, x) {
        var j :| 0 <= j < |shorter| && OfAccount(f, shorter[j], account) && shorter[j].rowid == x;
        assert longer[j] == shorter[j];
      }
      if OfAccount(f, registry[k], account) && x == registry[k].rowid {
        assert longer[k] == registry[k];
      }
    }
  }

  /** Both filters, intersected. */
  ghost predicate MailboxAllowed(f: Folding, registry: seq<Entry>, q: MessageQuery, m: int) {
    && (q.mailboxUrl.Some? ==> InMailbox(f, registry, q.mailboxUrl.value, m))
    && (q.account.Some? ==> InAccount(f, registry, q.account.value, m))
  }

  /** `resolve_mailbox_rowids`: an unmatched filter is an error, an empty intersection is not. */
  method ResolveMailboxRowids(f: Folding, registry: seq<Entry>, q: MessageQuery) returns (r: Result<Option<seq<int>>, QueryError>)
    requires forall i, j :: 0 <= i < j < |registry| ==> registry[i].normal != registry[j].normal
    ensures r.Err? <==>
      || (q.mailboxUrl.Some? && forall x :: !InMailbox(f, registry, q.mailboxUrl.value, x))
      || (q.account.Some? && forall x :: !InAccount(f, registry, q.account.value, x))
    ensures r.Ok? ==> (r.value.None? <==> q.mailboxUrl.None? && q.account.None?)
    ensures r.Ok? && r.value.Some? ==> forall m :: m in r.value.value <==> MailboxAllowed(f, registry, q, m)
  {
    var rowids: Option<seq<int>> := None;
    if q.mailboxUrl.Some? {
      var m := Resolve(f, registry, q.mailboxUrl.value);
      if m.None? {
        return Err(MailboxUnmatched(q.mailboxUrl.value));
      }
      assert InMailbox(f, registry, q.mailboxUrl.value, m.value);
      rowids := Some([m.value]);
    }
    if q.account.Some? {
      var matches := MailboxesForAccount(f, registry, q.account.value);
      if matches == [] {
        return Err(AccountUnmatched(q.account.value));
      }
      assert InAccount(f, registry, q.account.value, matches[0]);
      if rowids.Some? {
        var kept := Retain(rowids.value, matches);
        rowids := Some(kept);
      } else {
        rowids := Some(matches);
      }
    }
    r := Ok(rowids);
  }

  method Retain(ids: seq<int>, among: seq<int>) returns (kept: seq<int>)
    ensures forall x :: x in kept <==> x in ids && x in among
  {
    kept := [];
    for k := 0 to |ids|
      invariant forall x :: x in kept <==> x in ids[..k] && x in among
    {
      assert ids[..k + 1] == ids[..k] + [ids[k]];
      if ids[k] in among {
        kept := kept + [ids[k]];
      }
    }
    assert ids[..|ids|] == ids;
  }

  // ----- the whole query -----

  /** A row that meets every filter set: the rowid, the mailbox, the account, the dates and the flags. */
  ghost predicate Wanted(f: Folding, registry: seq<Entry>, q: MessageQuery, r: RawRow) {
    && (q.rowid.Some? ==> r.rowid == q.rowid.value)
    && MailboxAllowed(f, registry, q, r.mailbox) && SentWithin(q, r) && FlagsMatch(q, r)
  }

  ghost function Answer(f: Folding, registry: seq<Entry>, q: MessageQuery, table: seq<RawRow>): seq<MessageRow> {
    if table == [] then []
    else
      var n := |table| - 1;
      Answer(f, registry, q, table[..n]) + if Wanted(f, registry, q, table[n]) then [Decode(table[n])] else []
  }

  /** A returned row shows the stored one, column by column; a flag is set unless it is 0. */
  predicate Shows(m: MessageRow, r: RawRow) {
    && m.rowid == r.rowid && m.mailbox == r.mailbox && m.dateSent == r.dateSent && m.dateReceived == r.dateReceived
    && (m.read <==> r.read != 0) && (m.flagged <==> r.flagged != 0) && (m.deleted <==> r.deleted != 0)
  }

  /** The answer consists of the rows at these positions, which ascend, and which are those of all wanted rows. */
  ghost predicate Picked(f: Folding, registry: seq<Entry>, q: MessageQuery, table: seq<RawRow>, answer: seq<MessageRow>, picks: seq<nat>) {
    && |picks| == |answer|
    && (forall j, k :: 0 <= j < k < |picks| ==> picks[j] < picks[k])
    && (forall k :: 0 <= k < |picks| ==> picks[k] < |table| && Shows(answer[k], table[picks[k]]))
    && (forall i :: 0 <= i < |table| ==> (i in picks <==> Wanted(f, registry, q, table[i])))
  }

  lemma {:induction false} AnswerPicks(f: Folding, registry: seq<Entry>, q: MessageQuery, table: seq<RawRow>) returns (picks: seq<nat>)
    ensures Picked(f, registry, q, table, Answer(f, registry, q, table), picks)
  {
    hide Wanted;
    picks := [];
    if table != [] {
      var n := |table| - 1;
      assert table == table[..n] + [table[n]];
      picks := AnswerPicks(f, registry, q, table[..n]);
      if Wanted(f, registry, q, table[n]) {
        var longer := picks + [n];
        assert longer[|picks|] == n && forall i :: i in longer <==> i in picks || i == n;
        picks := longer;
      }
    }
  }

  lemma WantedMeaning(f: Folding, registry: seq<Entry>, q: MessageQuery, table: seq<RawRow>, picks: seq<nat>)
    requires forall i :: 0 <= i < |table| ==> (i in picks <==> Wanted(f, registry, q, table[i]))
    ensures forall i :: 0 <= i < |table| ==>
      var s := table[i];
      i in picks <==>
        && (q.rowid.Some? ==> s.rowid == q.rowid.value)
        && (q.mailboxUrl.Some? ==> InMailbox(f, registry, q.mailboxUrl.value, s.mailbox))
        && (q.account.Some? ==> InAccount(f, registry, q.account.value, s.mailbox))
        && (q.sentFrom.Some? ==> s.dateSent.Some? && q.sentFrom.value <= s.dateSent.value)
        && (q.sentTo.Some? ==> s.dateSent.Some? && s.dateSent.value <= q.sentTo.value)
        && (q.read.Some? ==> s.read == if q.read.value then 1 else 0)
        && (q.flagged.Some? ==> s.flagged == if q.flagged.value then 1 else 0)
        && (q.deleted.Some? ==> s.deleted == if q.deleted.value then 1 else 0)
  {
    hide InMailbox, InAccount;
  }

  /** `execute`: an error for an unmatched mailbox or account, otherwise the rows of the table
      that meet every filter, each once and in table order. */
  method Execute(f: Folding, registry: seq<Entry>, q: MessageQuery, table: seq<RawRow>)
    returns (r: Result<seq<MessageRow>, QueryError>, ghost picks: seq<nat>)
    requires forall i, j :: 0 <= i < j < |registry| ==> registry[i].normal != registry[j].normal
    ensures r.Err? <==>
      || (q.mailboxUrl.Some? && forall x :: !InMailbox(f, registry, q.mailboxUrl.value, x))
      || (q.account.Some? && forall x :: !InAccount(f, registry, q.account.value, x))
    ensures r.Ok? ==> r.value == Answer(f, registry, q, table)
    ensures r.Ok? ==> |picks| == |r.value| && forall j, k :: 0 <= j < k < |picks| ==> picks[j] < picks[k]
    ensures r.Ok? ==> forall k :: 0 <= k < |picks| ==>
      && picks[k] < |table|
      && var m, s := r.value[k], table[picks[k]];
         && m.rowid == s.rowid && m.mailbox == s.mailbox && m.dateSent == s.dateSent && m.dateReceived == s.dateReceived
         && (m.read <==> s.read != 0) && (m.flagged <==> s.flagged != 0) && (m.deleted <==> s.deleted != 0)
    ensures r.Ok? ==> forall i :: 0 <= i < |table| ==>
      var s := table[i];
      i in picks <==>
        && (q.rowid.Some? ==> s.rowid == q.rowid.value)
        && (q.mailboxUrl.Some? ==> InMailbox(f, registry, q.mailboxUrl.value, s.mailbox))
        && (q.account.Some? ==> InAccount(f, registry, q.account.value, s.mailbox))
        && (q.sentFrom.Some? ==> s.dateSent.Some? && q.sentFrom.value <= s.dateSent.value)
        && (q.sentTo.Some? ==> s.dateSent.Some? && s.dateSent.value <= q.sentTo.value)
        && (q.read.Some? ==> s.read == if q.read.value then 1 else 0)
        && (q.flagged.Some? ==> s.flagged == if q.flagged.value then 1 else 0)
        && (q.deleted.Some? ==> s.deleted == if q.deleted.value then 1 else 0)
  {
    picks := [];
    hide Placeholders, WhereText, Selects, SentWithin, FlagsMatch, InMailbox, InAccount;
    var boxes :- ResolveMailboxRowids(f, registry, q);
    var clauses, params := Build(q, boxes);
    var rows: seq<MessageRow> := [];
    for k := 0 to |table|
      invariant rows == Answer(f, registry, q, table[..k])
    {
      assert table[..k + 1][..k] == table[..k];
      assert Meets(q, boxes, table[k]) <==> Wanted(f, registry, q, table[k]);
      if Selects(clauses, params, table[k]) {
        rows := rows + [Decode(table[k])];
      }
    }
    assert table[..|table|] == table;
    picks := AnswerPicks(f, registry, q, table);
    WantedMeaning(f, registry, q, table, picks);
    r := Ok(rows);
  }

  // ----- flags stored as something other than 0 or 1 -----

  /** The flags as a returned row shows them. */
  predicate FlagsShown(q: MessageQuery, r: MessageRow) {
    && (q.read.Some? ==> r.read == q.read.value)
    && (q.flagged.Some? ==> r.flagged == q.flagged.value)
    && (q.deleted.Some? ==> r.deleted == q.deleted.value)
  }

  /** A row that meets every filter by what it shows once returned. */
  ghost predicate WantedAsShown(f: Folding, registry: seq<Entry>, q: MessageQuery, r: RawRow) {
    && (q.rowid.Some? ==> r.rowid == q.rowid.value)
    && MailboxAllowed(f, registry, q, r.mailbox) && SentWithin(q, r) && FlagsShown(q, Decode(r))
  }

  ghost function AnswerAsShown(f: Folding, registry: seq<Entry>, q: MessageQuery, table: seq<RawRow>): seq<MessageRow> {
    if table == [] then []
    else
      var n := |table| - 1;
      AnswerAsShown(f, registry, q, table[..n]) + if WantedAsShown(f, registry, q, table[n]) then [Decode(table[n])] else []
  }

  /** A flag that is asked for is stored as a nonzero integer other than 1. */
  predicate OddFlag(q: MessageQuery, r: RawRow) {
    || (q.read == Some(true) && r.read !in {0, 1})
    || (q.flagged == Some(true) && r.flagged !in {0, 1})
    || (q.deleted == Some(true) && r.deleted !in {0, 1})
  }

  lemma WantedUnlessOdd(f: Folding, registry: seq<Entry>, q: MessageQuery, r: RawRow)
    ensures Wanted(f, registry, q, r) <==> WantedAsShown(f, registry, q, r) && !OddFlag(q, r)
  {
    hide MailboxAllowed, SentWithin;
  }

  lemma {:induction false} NothingAdded(f: Folding, registry: seq<Entry>, q: MessageQuery, table: seq<RawRow>)
    ensures |Answer(f, registry, q, table)| <= |AnswerAsShown(f, registry, q, table)|
  {
    hide Wanted, WantedAsShown;
    if table != [] {
      NothingAdded(f, registry, q, table[..|table| - 1]);
      WantedUnlessOdd(f, registry, q, table[|table| - 1]);
    }
  }

  ghost predicate NoneOdd(f: Folding, registry: seq<Entry>, q: MessageQuery, table: seq<RawRow>) {
    forall k :: 0 <= k < |table| && WantedAsShown(f, registry, q, table[k]) ==> !OddFlag(q, table[k])
  }

  /** The flag filters compare the stored integer with 0 or 1, while a returned row calls any nonzero
      integer true. The answer is nevertheless exactly the rows that, as returned, meet every
      filter, unless one of those stores a flag asked for as something other than 0 or 1. */
  lemma {:induction false} AnswerShowsFlagsIff(f: Folding, registry: seq<Entry>, q: MessageQuery, table: seq<RawRow>)
    ensures Answer(f, registry, q, table) == AnswerAsShown(f, registry, q, table) <==> NoneOdd(f, registry, q, table)
  {
    hide Wanted, WantedAsShown, OddFlag;
    if table != [] {
      var n := |table| - 1;
      var front, last := table[..n], table[n];
      assert table == front + [last];
      AnswerShowsFlagsIff(f, registry, q, front);
      NothingAdded(f, registry, q, front);
      WantedUnlessOdd(f, registry, q, last);
      LastOdd(f, registry, q, front, last);
      var a, b := Answer(f, registry, q, front), AnswerAsShown(f, registry, q, front);
      SameEnd(a, b, Decode(last));
      assert a + [] == a && b + [] == b;
    }
  }

  lemma SameEnd(a: seq<MessageRow>, b: seq<MessageRow>, d: MessageRow)
    ensures a + [d] == b + [d] <==> a == b
  {
    assert (a + [d])[..|a|] == a && (b + [d])[..|b|] == b;
  }

  lemma LastOdd(f: Folding, registry: seq<Entry>, q: MessageQuery, front: seq<RawRow>, last: RawRow)
    ensures NoneOdd(f, registry, q, front + [last]) <==>
              NoneOdd(f, registry, q, front) && (WantedAsShown(f, registry, q, last) ==> !OddFlag(q, last))
  {
    hide WantedAsShown, OddFlag;
    var all := front + [last];
    assert all[|front|] == last;
    if NoneOdd(f, registry, q, all) {
      forall k | 0 <= k < |front| && WantedAsShown(f, registry, q, front[k]) ensures !OddFlag(q, front[k]) {
        assert all[k] == front[k];
      }
    }
  }

  /** A row that shows itself as read is not found by the filter for read. */
  lemma OddFlagIsMissed(f: Folding)
    ensures var r := RawRow(1, 1, None, None, 2, 0, 0);
            var q := MessageQuery(None, None, None, None, None, Some(true), None, None);
            Decode(r).read == true && Answer(f, [], q, [r]) == [] && AnswerAsShown(f, [], q, [r]) == [Decode(r)]
  {
    var r := RawRow(1, 1, None, None, 2, 0, 0);
    assert [r][..0] == [];
  }
}
