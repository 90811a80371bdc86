/** The WHERE clauses of this program as SQLite reads them: comparisons of columns with parameters, and
    membership in a list of parameters, bound by position and joined by AND under three-valued logic. */
module Sql {
  import opened Wrappers
  import opened Strings

  /** A row as stored: dates may be NULL, flags are integers. */
  datatype RawRow = RawRow(
    rowid: int, mailbox: int, dateSent: Option<int>, dateReceived: Option<int>, read: int, flagged: int, deleted: int)

  datatype Truth = True | False | Unknown

  function And(a: Truth, b: Truth): Truth {
    if a == False || b == False then False else if a == True && b == True then True else Unknown
  }

  function Known(b: bool): Truth {
    if b then True else False
  }

  /** The value of a column, which may be NULL. */
  function Column(name: string, r: RawRow): Option<Option<int>> {
    if name == "ROWID" then Some(Some(r.rowid))
    else if name == "mailbox" then Some(Some(r.mailbox))
    else if name == "date_sent" then Some(r.dateSent)
    else if name == "date_received" then Some(r.dateReceived)
    else if name == "read" then Some(Some(r.read))
    else if name == "flagged" then Some(Some(r.flagged))
    else if name == "deleted" then Some(Some(r.deleted))
    else None
  }

  predicate IsOperator(op: string) {
    op == "=" || op == ">=" || op == "<="
  }

  /** A comparison with NULL is unknown. */
  function Compare(op: string, a: Option<int>, b: int): Truth
    requires IsOperator(op)
  {
    if a.None? then Unknown
    else if op == "=" then Known(a.value == b)
    else if op == ">=" then Known(a.value >= b)
    else Known(a.value <= b)
  }

  function Among(a: Option<int>, list: seq<int>): Truth {
    if list == [] then False else if a.None? then Unknown else Known(a.value in list)
  }

  /** How many placeholders a list has from its second on. */
  function MarksLeft(words: seq<string>): Option<nat> {
    if words == [] then None
    else if words[0] == "?)" then Some(1)
    else if words[0] == "?," then
      match MarksLeft(words[1..])
      case None => None
      case Some(n) => Some(n + 1)
    else None
  }

  /** How many placeholders the list in parentheses has that these words begin with, and how many words. */
  function ListRead(words: seq<string>): Option<(nat, nat)> {
    if words == [] then None
    else if words[0] == "()" then Some((0, 1))
    else if words[0] == "(?)" then Some((1, 1))
    else if words[0] == "(?," then
      match MarksLeft(words[1..])
      case None => None
      case Some(n) => Some((n + 1, n + 1))
    else None
  }

  /** The first condition: its truth, and how many words and parameters it takes. */
  function ConditionRead(words: seq<string>, params: seq<int>, r: RawRow): Option<(Truth, nat, nat)> {
    if |words| < 3 || Column(words[0], r).None? then None
    else
      var column := Column(words[0], r).value;
      if words[1] == "IN" then
        match ListRead(words[2..])
        case None => None
        case Some((n, taken)) => if n <= |params| then Some((Among(column, params[..n]), 2 + taken, n)) else None
      else if IsOperator(words[1]) && words[2] == "?" && params != [] then Some((Compare(words[1], column, params[0]), 3, 1))
      else None
  }

  function ConditionsRead(words: seq<string>, params: seq<int>, r: RawRow): Option<Truth>
    decreases |words|
  {
    match ConditionRead(words, params, r)
    case None => None
    case Some((t, w, p)) =>
      if w > |words| || p > |params| then None
      else if w == |words| then if p == |params| then Some(t) else None
      else if words[w] == "AND" then
        match ConditionsRead(words[w + 1..], params[p..], r)
        case None => None
        case Some(u) => Some(And(t, u))
      else None
  }

  /** The truth of a WHERE clause, or of none, for a row; if it is one, and has as many placeholders as there
      are parameters. */
  function WhereRead(text: string, params: seq<int>, r: RawRow): Option<Truth> {
    if text == "" then if params == [] then Some(True) else None
    else if "WHERE " <= text then ConditionsRead(Words(text[|"WHERE "|..]), params, r)
    else None
  }
}
