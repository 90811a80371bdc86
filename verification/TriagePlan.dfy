/** Frozen triage plans: an ordered list of rowids and an operation, stored under the hash of
    the two JSON texts run together. */
module TriagePlan {
  import opened Wrappers
  import opened Decimal
  import opened Strings

  datatype Operation =
    | SetReadState(read: bool)
    | SetFlag(flagged: bool)
    | Move(destination: string)
    | Trash

  // ----- the rowid list -----

  function ShowItems(ids: seq<int>): (s: string)
    ensures s == "" <==> ids == []
  {
    if ids == [] then ""
    else if |ids| == 1 then Show(ids[0])
    else Show(ids[0]) + "," + ShowItems(ids[1..])
  }

  function ShowList(ids: seq<int>): string {
    "[" + ShowItems(ids) + "]"
  }

  function ParseItems(s: string): Option<seq<int>>
    decreases |s|
  {
    var i := IndexOf(s, ',');
    match ParseInt(s[..i])
    case None => None
    case Some(n) =>
      if i == |s| then Some([n])
      else match ParseItems(s[i + 1..])
        case None => None
        case Some(ids) => Some([n] + ids)
  }

  function ParseList(s: string): Option<seq<int>> {
    if s == "[]" then Some([])
    else if |s| >= 2 && s[0] == '[' && s[|s| - 1] == ']' then ParseItems(s[1..|s| - 1])
    else None
  }

  lemma ShowIsPlain(i: int, c: char)
    requires c != '-' && !IsDigit(c)
    ensures c !in Show(i)
  {
    ShowReadBack(i);
  }

  lemma ParsedInTwo(p: string, q: string, n: int, ids: seq<int>)
    requires ',' !in p && ParseInt(p) == Some(n) && ParseItems(q) == Some(ids)
    ensures ParseItems(p + [','] + q) == Some([n] + ids)
  {
    hide ParseInt, IndexOf;
    var s := p + [','] + q;
    IndexAfter(p, ',', q);
    assert s[..|p|] == p && s[|p| + 1..] == q;
  }

  lemma ParsedAlone(p: string, n: int)
    requires ',' !in p && ParseInt(p) == Some(n)
    ensures ParseItems(p) == Some([n])
  {
    hide ParseInt, IndexOf;
    NoIndex(p, ',');
    assert p[..|p|] == p;
  }

  lemma {:induction false} ItemsReadBack(ids: seq<int>)
    requires ids != []
    ensures ParseItems(ShowItems(ids)) == Some(ids)
    ensures ']' !in ShowItems(ids)
    decreases |ids|
  {
    hide Show, ParseInt, ParseItems;
    ShowReadBack(ids[0]);
    ShowIsPlain(ids[0], ',');
    ShowIsPlain(ids[0], ']');
    if |ids| == 1 {
      ParsedAlone(Show(ids[0]), ids[0]);
      assert ids == [ids[0]];
    } else {
      ItemsReadBack(ids[1..]);
      ParsedInTwo(Show(ids[0]), ShowItems(ids[1..]), ids[0], ids[1..]);
      assert ShowItems(ids) == Show(ids[0]) + [','] + ShowItems(ids[1..]);
      assert ids == [ids[0]] + ids[1..];
    }
  }

  lemma ListReadBack(ids: seq<int>)
    ensures ParseList(ShowList(ids)) == Some(ids)
    ensures ']' !in "[" + ShowItems(ids)
  {
    if ids != [] {
      ItemsReadBack(ids);
      var s := ShowList(ids);
      assert s[1..|s| - 1] == ShowItems(ids);
      assert |s| > |"[]"|;
    }
  }

  /** The text: numbers in decimal, between brackets, with commas and nothing else in between. */
  lemma ListText(ids: seq<int>, i: int)
    ensures ShowList([]) == "[" + "" + "]" && ShowList([i]) == "[" + Show(i) + "]"
    ensures ids != [] ==> ShowList(ids + [i]) == "[" + (ShowItems(ids) + "," + Show(i)) + "]"
  {
    hide Show;
    assert ShowItems([]) == "" && ShowItems([i]) == Show(i);
    hide ShowItems;
    if ids != [] {
      ItemsThen(ids, i);
    }
  }

  lemma {:induction false} ItemsThen(ids: seq<int>, i: int)
    requires ids != []
    ensures ShowItems(ids + [i]) == ShowItems(ids) + "," + Show(i)
  {
    hide Show;
    var all := ids + [i];
    if |ids| > 1 {
      assert all[1..] == ids[1..] + [i];
      ItemsThen(ids[1..], i);
      assert ShowItems(all) == Show(ids[0]) + "," + (ShowItems(ids[1..]) + "," + Show(i));
      assert ShowItems(ids) == Show(ids[0]) + "," + ShowItems(ids[1..]);
      hide ShowItems;
    } else {
      assert all[1..] == [i];
    }
  }

  // ----- JSON strings -----

  function HexChar(d: nat): char
    requires d < 16
  {
    if d < 10 then ('0' as int + d) as char else ('a' as int + d - 10) as char
  }

  function HexValue(c: char): Option<nat> {
    if '0' <= c <= '9' then Some(c as int - '0' as int)
    else if 'a' <= c <= 'f' then Some(c as int - 'a' as int + 10)
    else None
  }

  function EscapeChar(c: char): string {
    if c == '\"' then "\\\""
    else if c == '\\' then "\\\\"
    else if c == '\n' then "\\n"
    else if c == '\r' then "\\r"
    else if c == '\t' then "\\t"
    else if c as int == 8 then "\\b"
    else if c as int == 12 then "\\f"
    else if c as int < 32 then "\\u00" + [HexChar(c as int / 16), HexChar(c as int % 16)]
    else [c]
  }

  function Escape(s: string): string {
    if s == "" then "" else EscapeChar(s[0]) + Escape(s[1..])
  }

  /** One character of a JSON string, and how much text it took. */
  function UnescapeChar(s: string): Option<(char, nat)>
    requires s != ""
  {
    if s[0] != '\\' then Some((s[0], 1))
    else if |s| < 2 then None
    else if s[1] == '\"' || s[1] == '\\' then Some((s[1], 2))
    else if s[1] == 'n' then Some(('\n', 2))
    else if s[1] == 'r' then Some(('\r', 2))
    else if s[1] == 't' then Some(('\t', 2))
    else if s[1] == 'b' then Some((8 as char, 2))
    else if s[1] == 'f' then Some((12 as char, 2))
    else if |s| >= 6 && s[1] == 'u' && s[2] == '0' && s[3] == '0' then
      match (HexValue(s[4]), HexValue(s[5]))
      case (Some(h), Some(l)) => Some(((16 * h + l) as char, 6))
      case _ => None
    else None
  }

  /** The string up to its closing quote, and the text after it. */
  function Unescape(s: string): Option<(string, string)>
    decreases |s|
  {
    if s == "" then None
    else if s[0] == '\"' then Some(("", s[1..]))
    else match UnescapeChar(s)
      case None => None
      case Some((c, n)) =>
        if n > |s| then None
        else match Unescape(s[n..])
          case None => None
          case Some((text, rest)) => Some(([c] + text, rest))
  }

  /** Section 7 of RFC 8259: quotation mark, backslash and control characters are escaped, and nothing else is; the
      short forms are used where there are any. */
  lemma EscapeMeaning(c: char)
    ensures EscapeChar(c) == [c] <==> c >= ' ' && c != '\"' && c != '\\'
    ensures c in {'\"', '\\'} ==> EscapeChar(c) == ['\\', c]
    ensures EscapeChar('\n') == "\\n" && EscapeChar('\r') == "\\r" && EscapeChar('\t') == "\\t"
    ensures EscapeChar(8 as char) == "\\b" && EscapeChar(12 as char) == "\\f"
    ensures c < ' ' && c !in {'\n', '\r', '\t', 8 as char, 12 as char} ==>
      && |EscapeChar(c)| == 6 && EscapeChar(c)[..4] == "\\u00"
      && EscapeChar(c)[4] == HexChar(c as int / 16) && EscapeChar(c)[5] == HexChar(c as int % 16)
  {
  }

  lemma HexReadBack(d: nat)
    requires d < 16
    ensures HexValue(HexChar(d)) == Some(d)
  {
  }

  lemma HexMeaning(c: char, d: nat)
    ensures HexValue(c) == Some(d) <==> d < 16 && c == HexChar(d)
  {
  }

  /** What is read as one character: the character itself, its short escape, or an escape by its code. */
  lemma UnescapeMeaning(s: string, c: char, n: nat)
    requires s != "" && UnescapeChar(s) == Some((c, n))
    ensures n <= |s| && n in {1, 2, 6}
    ensures n == 1 ==> s[0] == c && c != '\\'
    ensures n == 2 ==> s[..2] == EscapeChar(c)
    ensures n == 6 ==> s[..4] == "\\u00" && 0 <= c as int < 256 && s[4] == HexChar(c as int / 16) && s[5] == HexChar(c as int % 16)
  {
    if n == 6 {
      var h, l := HexValue(s[4]).value, HexValue(s[5]).value;
      HexMeaning(s[4], h);
      HexMeaning(s[5], l);
      assert c as int == 16 * h + l;
    }
  }

  lemma EscapeCharReadBack(c: char, rest: string)
    ensures EscapeChar(c) != "" && (EscapeChar(c) + rest)[0] != '\"'
    ensures UnescapeChar(EscapeChar(c) + rest) == Some((c, |EscapeChar(c)|))
  {
    if c as int < 32 {
      HexReadBack(c as int / 16);
      HexReadBack(c as int % 16);
    }
  }

  lemma {:induction false} EscapeReadBack(text: string, rest: string)
    ensures Unescape(Escape(text) + "\"" + rest) == Some((text, rest))
    decreases |text|
  {
    var s := Escape(text) + "\"" + rest;
    if text == "" {
      assert s == "\"" + rest;
      assert s[1..] == rest;
    } else {
      var tail := Escape(text[1..]) + "\"" + rest;
      assert s == EscapeChar(text[0]) + tail;
      EscapeCharReadBack(text[0], tail);
      assert s[|EscapeChar(text[0])|..] == tail;
      EscapeReadBack(text[1..], rest);
      assert text == [text[0]] + text[1..];
    }
  }

  // ----- the operation -----

  const KIND := "{\"kind\":\""
  const READ := ",\"read\":"
  const FLAGGED := ",\"flagged\":"
  const DESTINATION := ",\"destination_mailbox\":\""

  function ShowBool(b: bool): string {
    if b then "true}" else "false}"
  }

  function ParseBool(s: string): Option<bool> {
    if s == "true}" then Some(true) else if s == "false}" then Some(false) else None
  }

  function KindOf(op: Operation): string {
    match op
    case SetReadState(_) => "set_read_state"
    case SetFlag(_) => "set_flag"
    case Move(_) => "move"
    case Trash => "trash"
  }

  function FieldsOf(op: Operation): string {
    match op
    case SetReadState(read) => READ + ShowBool(read)
    case SetFlag(flagged) => FLAGGED + ShowBool(flagged)
    case Move(destination) => DESTINATION + (Escape(destination) + "\"" + "}")
    case Trash => "}"
  }

  function ShowOperation(op: Operation): string {
    KIND + (KindOf(op) + "\"" + FieldsOf(op))
  }

  function ParseFields(kind: string, s: string): Option<Operation> {
    if kind == "set_read_state" && READ <= s then
      match ParseBool(s[|READ|..])
      case Some(b) => Some(SetReadState(b))
      case None => None
    else if kind == "set_flag" && FLAGGED <= s then
      match ParseBool(s[|FLAGGED|..])
      case Some(b) => Some(SetFlag(b))
      case None => None
    else if kind == "move" && DESTINATION <= s then
      match Unescape(s[|DESTINATION|..])
      case Some((destination, rest)) => if rest == "}" then Some(Move(destination)) else None
      case None => None
    else if kind == "trash" && s == "}" then Some(Trash)
    else None
  }

  function ParseOperation(s: string): Option<Operation> {
    if KIND <= s then
      var t := s[|KIND|..];
      var i := IndexOf(t, '\"');
      if i == |t| then None else ParseFields(t[..i], t[i + 1..])
    else None
  }

  /** The JSON of each operation, piece by piece. */
  lemma OperationText(op: Operation)
    ensures match op
      case SetReadState(read) =>
        ShowOperation(op) == "{\"kind\":\"" + ("set_read_state" + "\"" + (",\"read\":" + if read then "true}" else "false}"))
      case SetFlag(flagged) =>
        ShowOperation(op) == "{\"kind\":\"" + ("set_flag" + "\"" + (",\"flagged\":" + if flagged then "true}" else "false}"))
      case Move(destination) =>
        ShowOperation(op) == "{\"kind\":\"" + ("move" + "\"" + (",\"destination_mailbox\":\"" + (Escape(destination) + "\"" + "}")))
      case Trash => ShowOperation(op) == "{\"kind\":\"" + ("trash" + "\"" + "}")
  {
    hide Escape;
  }

  lemma FieldsReadBack(op: Operation)
    ensures ParseFields(KindOf(op), FieldsOf(op)) == Some(op)
    ensures '\"' !in KindOf(op)
  {
    hide Unescape, Escape;
    match op
    case SetReadState(b) => assert FieldsOf(op)[|READ|..] == ShowBool(b);
    case SetFlag(b) => assert FieldsOf(op)[|FLAGGED|..] == ShowBool(b);
    case Move(destination) =>
      assert FieldsOf(op)[|DESTINATION|..] == Escape(destination) + "\"" + "}";
      EscapeReadBack(destination, "}");
    case Trash =>
  }

  lemma OperationReadBack(op: Operation)
    ensures ParseOperation(ShowOperation(op)) == Some(op)
  {
    hide ParseFields, FieldsOf, KindOf;
    var t := KindOf(op) + "\"" + FieldsOf(op);
    FieldsReadBack(op);
    assert ShowOperation(op)[|KIND|..] == t;
    assert t == KindOf(op) + ['\"'] + FieldsOf(op);
    IndexAfter(KindOf(op), '\"', FieldsOf(op));
    assert t[..|KindOf(op)|] == KindOf(op) && t[|KindOf(op)| + 1..] == FieldsOf(op);
  }

  lemma FieldsOnly(kind: string, s: string, op: Operation)
    requires ParseFields(kind, s) == Some(op)
    ensures kind == KindOf(op)
    ensures !op.Move? ==> s == FieldsOf(op)
    ensures op.Move? ==> DESTINATION <= s && Unescape(s[|DESTINATION|..]) == Some((op.destination, "}"))
  {
    hide Unescape, Escape;
    match op
    case SetReadState(_) => assert s == READ + s[|READ|..];
    case SetFlag(_) => assert s == FLAGGED + s[|FLAGGED|..];
    case Move(_) =>
    case Trash =>
  }

  lemma OperationParts(s: string, op: Operation) returns (kind: string, fields: string)
    requires ParseOperation(s) == Some(op)
    ensures s == KIND + (kind + ("\"" + fields)) && ParseFields(kind, fields) == Some(op)
  {
    hide ParseFields;
    var t := s[|KIND|..];
    var i := IndexOf(t, '\"');
    hide IndexOf;
    kind, fields := t[..i], t[i + 1..];
    assert s == KIND + t && t == kind + ("\"" + fields);
  }

  /** Nothing but its own text is read as an operation; only the characters of a destination may be escaped
      otherwise. */
  lemma OperationOnly(s: string, op: Operation)
    requires ParseOperation(s) == Some(op)
    ensures !op.Move? ==> s == ShowOperation(op)
    ensures op.Move? ==>
      var start := KIND + ("move" + "\"" + DESTINATION);
      start <= s && Unescape(s[|start|..]) == Some((op.destination, "}"))
  {
    hide Unescape, Escape, ParseFields, ParseOperation, FieldsOf, KindOf, ShowOperation;
    var kind, fields := OperationParts(s, op);
    FieldsOnly(kind, fields, op);
    OnlyText(op, s, fields);
  }

  lemma OnlyText(op: Operation, s: string, fields: string)
    requires s == KIND + (KindOf(op) + ("\"" + fields))
    requires !op.Move? ==> fields == FieldsOf(op)
    requires op.Move? ==> DESTINATION <= fields && Unescape(fields[|DESTINATION|..]) == Some((op.destination, "}"))
    ensures !op.Move? ==> s == ShowOperation(op)
    ensures op.Move? ==>
      var start := KIND + ("move" + "\"" + DESTINATION);
      start <= s && Unescape(s[|start|..]) == Some((op.destination, "}"))
  {
    hide Unescape, Escape, FieldsOf;
    if op.Move? {
      var start := KIND + ("move" + "\"" + DESTINATION);
      assert fields == DESTINATION + fields[|DESTINATION|..];
      assert s == start + fields[|DESTINATION|..];
    }
  }

  // ----- the hashed text -----

  function Encode(ids: seq<int>, op: Operation): string {
    ShowList(ids) + ShowOperation(op)
  }

  /** Running the two texts together loses nothing: the first closing bracket ends the list. */
  lemma EncodeInjective(ids: seq<int>, op: Operation, ids': seq<int>, op': Operation)
    requires Encode(ids, op) == Encode(ids', op')
    ensures ids == ids' && op == op'
  {
    var head, head' := "[" + ShowItems(ids), "[" + ShowItems(ids');
    ListReadBack(ids);
    ListReadBack(ids');
    assert Encode(ids, op) == head + [']'] + ShowOperation(op);
    assert Encode(ids', op') == head' + [']'] + ShowOperation(op');
    IndexAfter(head, ']', ShowOperation(op));
    IndexAfter(head', ']', ShowOperation(op'));
    assert ShowList(ids) == Encode(ids, op)[..|head| + 1];
    assert ShowList(ids') == Encode(ids', op')[..|head| + 1];
    assert ShowOperation(op) == Encode(ids, op)[|head| + 1..];
    assert ShowOperation(op') == Encode(ids', op')[|head| + 1..];
    OperationReadBack(op);
    OperationReadBack(op');
  }

  // ----- the plan table -----

  type Plans = map<string, (string, string)>

  datatype Request = Request(ids: seq<int>, op: Operation)

  datatype LoadError = NotFound | Corrupt

  /** `INSERT ... ON CONFLICT(hash) DO NOTHING`. */
  function Saved(plans: Plans, hash: string -> string, r: Request): Plans {
    var key := hash(Encode(r.ids, r.op));
    if key in plans then plans else plans[key := (ShowList(r.ids), ShowOperation(r.op))]
  }

  function SavedAll(hash: string -> string, requests: seq<Request>): Plans {
    if requests == [] then map[]
    else Saved(SavedAll(hash, requests[..|requests| - 1]), hash, requests[|requests| - 1])
  }

  function Load(plans: Plans, key: string): Result<Request, LoadError> {
    if key !in plans then Err(NotFound)
    else match (ParseList(plans[key].0), ParseOperation(plans[key].1))
      case (Some(ids), Some(op)) => Ok(Request(ids, op))
      case _ => Err(Corrupt)
  }

  /** No two of the texts actually frozen collide. */
  predicate CollisionFree(hash: string -> string, requests: seq<Request>) {
    forall i, j :: 0 <= i < |requests| && 0 <= j < |requests| ==>
      (hash(Encode(requests[i].ids, requests[i].op)) == hash(Encode(requests[j].ids, requests[j].op)) ==>
       Encode(requests[i].ids, requests[i].op) == Encode(requests[j].ids, requests[j].op))
  }

  class PlanTable {
    var plans: Plans

    constructor ()
      ensures plans == map[]
    {
      plans := map[];
    }

    method RunTriagePlan(hash: string -> string, r: Request) returns (key: string)
      modifies this
      ensures plans == Saved(old(plans), hash, r)
      ensures key == hash(Encode(r.ids, r.op)) && key in plans
      ensures forall k :: k in old(plans) ==> k in plans && plans[k] == old(plans)[k]
    {
      var rowidsJson, operationJson := ShowList(r.ids), ShowOperation(r.op);
      var hashed := rowidsJson;
      hashed := hashed + operationJson;
      key := hash(hashed);
      if key !in plans {
        plans := plans[key := (rowidsJson, operationJson)];
      }
    }

    method LoadPlan(key: string) returns (r: Result<Request, LoadError>)
      ensures r == Load(plans, key)
      ensures r == Err(NotFound) <==> key !in plans
    {
      if key !in plans {
        return Err(NotFound);
      }
      var ids, op := ParseList(plans[key].0), ParseOperation(plans[key].1);
      if ids.None? || op.None? {
        return Err(Corrupt);
      }
      r := Ok(Request(ids.value, op.value));
    }
  }

  lemma {:induction false} StoredUnder(hash: string -> string, requests: seq<Request>, key: string)
    requires key in SavedAll(hash, requests)
    ensures exists i :: 0 <= i < |requests| && key == hash(Encode(requests[i].ids, requests[i].op))
                     && SavedAll(hash, requests)[key] == (ShowList(requests[i].ids), ShowOperation(requests[i].op))
  {
    var n := |requests| - 1;
    var front := SavedAll(hash, requests[..n]);
    if key in front {
      StoredUnder(hash, requests[..n], key);
      var i :| 0 <= i < n && key == hash(Encode(requests[..n][i].ids, requests[..n][i].op))
                && front[key] == (ShowList(requests[..n][i].ids), ShowOperation(requests[..n][i].op));
      assert requests[i] == requests[..n][i];
    } else {
      assert key == hash(Encode(requests[n].ids, requests[n].op));
    }
  }

  lemma {:induction false} EverySaveKept(hash: string -> string, requests: seq<Request>, i: nat)
    requires i < |requests|
    ensures hash(Encode(requests[i].ids, requests[i].op)) in SavedAll(hash, requests)
  {
    hide Encode, ShowList, ShowOperation;
    var n := |requests| - 1;
    if i < n {
      EverySaveKept(hash, requests[..n], i);
      assert requests[..n][i] == requests[i];
    }
  }

  /** A frozen plan is what it was: after any sequence of saves, loading a returned hash gives
      back the rowids in order and the operation that produced it, however often and whatever
      else was saved before or after. */
  lemma FrozenPlansKeep(hash: string -> string, requests: seq<Request>, i: nat)
    requires i < |requests| && CollisionFree(hash, requests)
    ensures Load(SavedAll(hash, requests), hash(Encode(requests[i].ids, requests[i].op))) == Ok(requests[i])
  {
    var key := hash(Encode(requests[i].ids, requests[i].op));
    EverySaveKept(hash, requests, i);
    StoredUnder(hash, requests, key);
    var j :| 0 <= j < |requests| && key == hash(Encode(requests[j].ids, requests[j].op))
              && SavedAll(hash, requests)[key] == (ShowList(requests[j].ids), ShowOperation(requests[j].op));
    EncodeInjective(requests[i].ids, requests[i].op, requests[j].ids, requests[j].op);
    ListReadBack(requests[j].ids);
    OperationReadBack(requests[j].op);
  }

  /** Two requests freeze to the same hash exactly when they are the same plan. */
  lemma SameHashIffSamePlan(hash: string -> string, r: Request, s: Request)
    requires CollisionFree(hash, [r, s])
    ensures hash(Encode(r.ids, r.op)) == hash(Encode(s.ids, s.op)) <==> r == s
  {
    if hash(Encode(r.ids, r.op)) == hash(Encode(s.ids, s.op)) {
      assert [r, s][0] == r && [r, s][1] == s;
      EncodeInjective(r.ids, r.op, s.ids, s.op);
    }
  }
}
