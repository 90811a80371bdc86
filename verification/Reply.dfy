/** Deriving a reply: its recipients, its subject, and the header fields that keep the thread
    together. */
module Reply {
  import opened Wrappers

  datatype Address = Address(name: Option<string>, email: string)

  datatype Message = Message(
    subject: Option<string>, from: seq<Address>, to: seq<Address>, cc: seq<Address>, replyTo: seq<Address>,
    messageId: Option<string>, inReplyTo: Option<string>, references: seq<string>, text: Option<string>, html: Option<string>)

  datatype Draft = Draft(
    to: seq<Address>, subject: string, text: Option<string>, html: Option<string>,
    inReplyTo: Option<string>, references: seq<string>)

  datatype Mode = Sender | All

  datatype ReplyError = NoMessageId | NoRecipient

  // ----- case-insensitive addresses -----

  function LowerChar(c: char): char {
    if 'A' <= c <= 'Z' then (c as int + 32) as char else c
  }

  function Lower(s: string): string {
    seq(|s|, i requires 0 <= i < |s| => LowerChar(s[i]))
  }

  /** `eq_ignore_ascii_case`. */
  predicate Same(a: string, b: string) {
    Lower(a) == Lower(b)
  }

  /** Two texts are the same if they differ at most in the case of the letters A to Z. */
  lemma SameMeaning(a: string, b: string)
    ensures Same(a, b) <==>
      && |a| == |b|
      && forall i :: 0 <= i < |a| ==>
           || a[i] == b[i]
           || ('A' <= a[i] <= 'Z' && b[i] as int == a[i] as int + 32)
           || ('A' <= b[i] <= 'Z' && a[i] as int == b[i] as int + 32)
  {
    if Same(a, b) {
      forall i | 0 <= i < |a| ensures LowerChar(a[i]) == LowerChar(b[i]) {
        assert Lower(a)[i] == Lower(b)[i];
      }
    }
  }

  predicate Has(addresses: seq<Address>, email: string) {
    exists k :: 0 <= k < |addresses| && Same(addresses[k].email, email)
  }

  predicate IsOurs(ours: seq<string>, email: string) {
    exists k :: 0 <= k < |ours| && Same(ours[k], email)
  }

  // ----- recipients -----

  function Deduped(addresses: seq<Address>, ours: seq<string>): seq<Address> {
    if addresses == [] then []
    else
      var n := |addresses| - 1;
      var seen := Deduped(addresses[..n], ours);
      if IsOurs(ours, addresses[n].email) || Has(seen, addresses[n].email) then seen else seen + [addresses[n]]
  }

  method DedupExcluding(addresses: seq<Address>, ours: seq<string>) returns (seen: seq<Address>)
    ensures seen == Deduped(addresses, ours)
  {
    seen := [];
    for k := 0 to |addresses|
      invariant seen == Deduped(addresses[..k], ours)
    {
      assert addresses[..k + 1][..k] == addresses[..k];
      if !IsOurs(ours, addresses[k].email) && !Has(seen, addresses[k].email) {
        seen := seen + [addresses[k]];
      }
    }
    assert addresses[..|addresses|] == addresses;
  }

  lemma HasAppend(addresses: seq<Address>, a: Address, email: string)
    ensures Has(addresses + [a], email) <==> Has(addresses, email) || Same(a.email, email)
  {
    if Has(addresses, email) {
      var k :| 0 <= k < |addresses| && Same(addresses[k].email, email);
      assert (addresses + [a])[k] == addresses[k];
    }
    if Same(a.email, email) {
      assert (addresses + [a])[|addresses|] == a;
    }
  }

  /** The recipients are exactly the addresses given that are not ours. */
  lemma {:induction false} DedupCovers(addresses: seq<Address>, ours: seq<string>, email: string)
    ensures Has(Deduped(addresses, ours), email) <==> Has(addresses, email) && !IsOurs(ours, email)
  {
    if addresses != [] {
      var n := |addresses| - 1;
      var last := addresses[n];
      DedupCovers(addresses[..n], ours, email);
      DedupCovers(addresses[..n], ours, last.email);
      assert addresses == addresses[..n] + [last];
      HasAppend(addresses[..n], last, email);
      HasAppend(Deduped(addresses[..n], ours), last, email);
      if Same(last.email, email) {
        SameTransfers(addresses[..n], ours, last.email, email);
      }
    }
  }

  lemma SameTransfers(addresses: seq<Address>, ours: seq<string>, a: string, b: string)
    requires Same(a, b)
    ensures Has(addresses, a) <==> Has(addresses, b)
    ensures IsOurs(ours, a) <==> IsOurs(ours, b)
    ensures Has(Deduped(addresses, ours), a) <==> Has(Deduped(addresses, ours), b)
  {
  }

  lemma HasNone(addresses: seq<Address>, email: string)
    requires !Has(addresses, email)
    ensures forall j :: 0 <= j < |addresses| ==> !Same(addresses[j].email, email)
  {
  }

  /** The recipients are the addresses at these positions, which ascend, and no earlier address is the same
      up to case. */
  ghost predicate Firsts(addresses: seq<Address>, recipients: seq<Address>, picks: seq<nat>) {
    && |picks| == |recipients|
    && (forall k :: 0 <= k < |picks| ==> picks[k] < |addresses| && recipients[k] == addresses[picks[k]])
    && (forall j, k :: 0 <= j < k < |picks| ==> picks[j] < picks[k])
    && (forall k, j :: 0 <= k < |picks| && 0 <= j < picks[k] ==> !Same(addresses[j].email, addresses[picks[k]].email))
  }

  lemma FirstsKept(addresses: seq<Address>, last: Address, recipients: seq<Address>, picks: seq<nat>)
    requires Firsts(addresses, recipients, picks)
    ensures Firsts(addresses + [last], recipients, picks)
  {
    hide Same;
  }

  lemma FirstsMore(addresses: seq<Address>, last: Address, recipients: seq<Address>, picks: seq<nat>)
    requires Firsts(addresses, recipients, picks)
    requires forall j :: 0 <= j < |addresses| ==> !Same(addresses[j].email, last.email)
    ensures Firsts(addresses + [last], recipients + [last], picks + [|addresses|])
  {
    hide Same;
  }

  /** Each recipient is the first of the given addresses that equals it up to case, and the
      recipients keep the order in which they were given. */
  lemma {:induction false} DedupKeepsFirsts(addresses: seq<Address>, ours: seq<string>) returns (picks: seq<nat>)
    ensures Firsts(addresses, Deduped(addresses, ours), picks)
  {
    if addresses == [] {
      picks := [];
    } else {
      var front, last := addresses[..|addresses| - 1], addresses[|addresses| - 1];
      picks := DedupKeepsFirsts(front, ours);
      assert addresses == front + [last];
      hide Firsts;
      if !IsOurs(ours, last.email) && !Has(Deduped(front, ours), last.email) {
        DedupCovers(front, ours, last.email);
        HasNone(front, last.email);
        FirstsMore(front, last, Deduped(front, ours), picks);
        picks := picks + [|front|];
      } else {
        FirstsKept(front, last, Deduped(front, ours), picks);
      }
    }
  }

  /** No two recipients are the same address up to case. */
  lemma DedupIsDuplicateFree(addresses: seq<Address>, ours: seq<string>, j: nat, k: nat)
    requires j < k < |Deduped(addresses, ours)|
    ensures !Same(Deduped(addresses, ours)[j].email, Deduped(addresses, ours)[k].email)
  {
    var picks := DedupKeepsFirsts(addresses, ours);
    assert picks[j] < picks[k];
  }

  // ----- the reply -----

  function Addressees(source: Message, mode: Mode): seq<Address> {
    (if source.replyTo != [] then source.replyTo else source.from)
    + if mode == All then source.to + source.cc else []
  }

  function ReplySubject(subject: Option<string>): string {
    match subject
    case None => "Re:"
    case Some(s) => if "re:" <= Lower(s) then s else "Re: " + s
  }

  /** A subject that begins with "re:", up to case, is kept. */
  lemma PrefixMeaning(s: string)
    ensures "re:" <= Lower(s) <==> |s| >= 3 && s[0] in {'r', 'R'} && s[1] in {'e', 'E'} && s[2] == ':'
  {
    if |s| >= 3 {
      assert Lower(s)[0] == LowerChar(s[0]) && Lower(s)[1] == LowerChar(s[1]) && Lower(s)[2] == LowerChar(s[2]);
      assert "re:" <= Lower(s) <==> Lower(s)[..3] == "re:";
    }
  }

  /** What a reply comes to: a refusal, or a draft. */
  function Derived(source: Message, mode: Mode, ours: seq<string>): Result<Draft, ReplyError> {
    var to := Deduped(Addressees(source, mode), ours);
    if source.messageId.None? then Err(NoMessageId)
    else if to == [] then Err(NoRecipient)
    else
      Ok(Draft(to, ReplySubject(source.subject), source.text, source.html,
               source.messageId, source.references + [source.messageId.value]))
  }

  lemma HasConcat(a: seq<Address>, b: seq<Address>, email: string)
    ensures Has(a + b, email) <==> Has(a, email) || Has(b, email)
  {
    if Has(a, email) {
      var k :| 0 <= k < |a| && Same(a[k].email, email);
      assert (a + b)[k] == a[k];
    }
    if Has(b, email) {
      var k :| 0 <= k < |b| && Same(b[k].email, email);
      assert (a + b)[|a| + k] == b[k];
    }
  }

  /** Whom a draft is addressed to: everybody in Reply-To or, if there is no such field, in From; of a reply to all
      also everybody in To and in Cc; but never ourselves. */
  lemma ReplyReaches(source: Message, mode: Mode, ours: seq<string>, email: string)
    requires Derived(source, mode, ours).Ok?
    ensures Has(Derived(source, mode, ours).value.to, email) <==>
      && !IsOurs(ours, email)
      && (Has(if source.replyTo != [] then source.replyTo else source.from, email)
          || (mode == All && (Has(source.to, email) || Has(source.cc, email))))
  {
    DedupCovers(Addressees(source, mode), ours, email);
    AddresseesHave(source, mode, email);
  }

  lemma AddresseesHave(source: Message, mode: Mode, email: string)
    ensures Has(Addressees(source, mode), email) <==>
      || Has(if source.replyTo != [] then source.replyTo else source.from, email)
      || (mode == All && (Has(source.to, email) || Has(source.cc, email)))
  {
    var primary := if source.replyTo != [] then source.replyTo else source.from;
    HasConcat(primary, if mode == All then source.to + source.cc else [], email);
    HasConcat(source.to, source.cc, email);
  }

  /** In which order: the recipients are taken from Reply-To or From, then To, then Cc, each at its first
      occurrence and spelled as there, and no two are the same up to case. */
  lemma ReplyOrder(source: Message, mode: Mode, ours: seq<string>) returns (picks: seq<nat>)
    requires Derived(source, mode, ours).Ok?
    ensures var primary := if source.replyTo != [] then source.replyTo else source.from;
      Firsts(primary + if mode == All then source.to + source.cc else [], Derived(source, mode, ours).value.to, picks)
    ensures var to := Derived(source, mode, ours).value.to;
      forall j, k :: 0 <= j < k < |to| ==> !Same(to[j].email, to[k].email)
  {
    picks := DedupKeepsFirsts(Addressees(source, mode), ours);
    var to := Derived(source, mode, ours).value.to;
    forall j, k | 0 <= j < k < |to| ensures !Same(to[j].email, to[k].email) {
      DedupIsDuplicateFree(Addressees(source, mode), ours, j, k);
    }
  }

  /** The bodies are carried over, and the thread fields follow the parent's. */
  method DeriveReply(source: Message, mode: Mode, ours: seq<string>) returns (r: Result<Draft, ReplyError>, ghost picks: seq<nat>)
    ensures r == Derived(source, mode, ours)
    ensures r == Err(NoMessageId) <==> source.messageId.None?
    ensures r.Ok? ==> forall email ::
      Has(r.value.to, email) <==>
        && (forall k :: 0 <= k < |ours| ==> !Same(ours[k], email))
        && (Has(if source.replyTo != [] then source.replyTo else source.from, email)
            || (mode == All && (Has(source.to, email) || Has(source.cc, email))))
    ensures r.Ok? ==>
      Firsts((if source.replyTo != [] then source.replyTo else source.from) + if mode == All then source.to + source.cc else [],
             r.value.to, picks)
    ensures r.Ok? ==> r.value.text == source.text && r.value.html == source.html
    ensures r.Ok? ==> r.value.inReplyTo == source.messageId && r.value.references == source.references + [source.messageId.value]
    ensures r.Ok? && source.subject.None? ==> r.value.subject == "Re:"
    ensures r.Ok? && source.subject.Some? ==>
      var s := source.subject.value;
      r.value.subject == if |s| >= 3 && s[0] in {'r', 'R'} && s[1] in {'e', 'E'} && s[2] == ':' then s else "Re: " + s
  {
    picks := [];
    if source.messageId.None? {
      return Err(NoMessageId), picks;
    }
    var to := if source.replyTo != [] then source.replyTo else source.from;
    if mode == All {
      to := to + source.to;
      to := to + source.cc;
    }
    assert to == Addressees(source, mode);
    to := DedupExcluding(to, ours);
    if to == [] {
      return Err(NoRecipient), picks;
    }
    var references := source.references;
    references := references + [source.messageId.value];
    r := Ok(Draft(to, ReplySubject(source.subject), source.text, source.html, source.messageId, references));
    forall email ensures Has(r.value.to, email) <==>
      && !IsOurs(ours, email)
      && (Has(if source.replyTo != [] then source.replyTo else source.from, email)
          || (mode == All && (Has(source.to, email) || Has(source.cc, email))))
    {
      ReplyReaches(source, mode, ours, email);
    }
    picks := ReplyOrder(source, mode, ours);
    if source.subject.Some? {
      PrefixMeaning(source.subject.value);
    }
  }

  /** A reply is refused exactly without a Message-ID, or when everybody in Reply-To or From, and for a reply to all
      in To and Cc, is ourselves. */
  lemma RefusedExactly(source: Message, mode: Mode, ours: seq<string>)
    ensures Derived(source, mode, ours) == Err(NoMessageId) <==> source.messageId.None?
    ensures Derived(source, mode, ours) == Err(NoRecipient) <==>
              source.messageId.Some? && forall email ::
                (|| Has(if source.replyTo != [] then source.replyTo else source.from, email)
                 || (mode == All && (Has(source.to, email) || Has(source.cc, email)))) ==> IsOurs(ours, email)
  {
    forall email ensures Has(Addressees(source, mode), email) <==>
      || Has(if source.replyTo != [] then source.replyTo else source.from, email)
      || (mode == All && (Has(source.to, email) || Has(source.cc, email)))
    {
      AddresseesHave(source, mode, email);
    }
    var to := Deduped(Addressees(source, mode), ours);
    if to == [] {
      forall email | Has(Addressees(source, mode), email) ensures IsOurs(ours, email) {
        DedupCovers(Addressees(source, mode), ours, email);
      }
    } else {
      DedupCovers(Addressees(source, mode), ours, to[0].email);
      assert Has(to, to[0].email);
    }
  }

  // ----- threads -----

  /** The thread fields a reply to `parent` carries. */
  predicate Follows(parent: Message, subject: string, references: seq<string>, inReplyTo: Option<string>) {
    && parent.messageId.Some?
    && subject == ReplySubject(parent.subject)
    && references == parent.references + [parent.messageId.value]
    && inReplyTo == parent.messageId
  }

  /** The child was sent from a draft derived from the parent, by whomever. */
  ghost predicate RepliesTo(child: Message, parent: Message) {
    exists mode, ours :: SentFrom(child, Derived(parent, mode, ours))
  }

  predicate SentFrom(child: Message, reply: Result<Draft, ReplyError>) {
    && reply.Ok?
    && child.subject == Some(reply.value.subject)
    && child.references == reply.value.references && child.inReplyTo == reply.value.inReplyTo
  }

  lemma RepliesFollow(child: Message, parent: Message)
    requires RepliesTo(child, parent)
    ensures child.subject.Some? && Follows(parent, child.subject.value, child.references, child.inReplyTo)
  {
    var mode, ours :| SentFrom(child, Derived(parent, mode, ours));
  }

  /** A conversation in which each message was derived as a reply to the one before it. */
  ghost predicate Thread(messages: seq<Message>) {
    forall k :: 1 <= k < |messages| ==> RepliesTo(messages[k], messages[k - 1])
  }

  function Ids(messages: seq<Message>): seq<string>
    requires forall k :: 0 <= k < |messages| ==> messages[k].messageId.Some?
  {
    seq(|messages|, k requires 0 <= k < |messages| => messages[k].messageId.value)
  }

  /** After `n` replies, References is what the root had followed by all `n` ancestors' ids, oldest
      first; and it ends in the parent's id, which is also In-Reply-To. */
  lemma {:induction false} ReferencesListAncestors(messages: seq<Message>, n: nat)
    requires Thread(messages) && n < |messages|
    ensures forall k :: 0 <= k < n ==> messages[k].messageId.Some?
    ensures messages[n].references == messages[0].references + Ids(messages[..n])
    ensures n > 0 ==> messages[n].inReplyTo == Some(messages[n].references[|messages[n].references| - 1])
  {
    if n == 0 {
      assert Ids(messages[..0]) == [];
    } else {
      ReferencesListAncestors(messages, n - 1);
      RepliesFollow(messages[n], messages[n - 1]);
      assert Ids(messages[..n]) == Ids(messages[..n - 1]) + [messages[n - 1].messageId.value];
    }
  }

  lemma ReplySubjectStable(subject: Option<string>)
    ensures ReplySubject(Some(ReplySubject(subject))) == ReplySubject(subject)
  {
    var s := ReplySubject(subject);
    if subject.None? || !("re:" <= Lower(subject.value)) {
      assert s[0] == 'R' && s[1] == 'e' && s[2] == ':';
      assert Lower(s)[..3] == "re:";
    }
  }

  /** The subject changes at most once along a thread. */
  lemma {:induction false} SubjectSettles(messages: seq<Message>, n: nat)
    requires Thread(messages) && 1 <= n < |messages|
    ensures messages[n].subject == Some(ReplySubject(messages[0].subject))
  {
    RepliesFollow(messages[n], messages[n - 1]);
    if n > 1 {
      SubjectSettles(messages, n - 1);
      ReplySubjectStable(messages[0].subject);
    }
  }

  /** Section 3.6.4 of RFC 5322: a parent without References but with an In-Reply-To of one
      message identifier contributes that identifier. */
  function Rfc5322References(parent: Message): seq<string>
    requires parent.messageId.Some?
  {
    if parent.references == [] && parent.inReplyTo.Some? then [parent.inReplyTo.value, parent.messageId.value]
    else parent.references + [parent.messageId.value]
  }

  /** The References of a derived draft are those of that section exactly for parents that have
      References of their own or no In-Reply-To. */
  lemma ReferencesFollowRfc5322Iff(parent: Message, mode: Mode, ours: seq<string>)
    requires Derived(parent, mode, ours).Ok?
    ensures Derived(parent, mode, ours).value.references == Rfc5322References(parent)
       <==> parent.references != [] || parent.inReplyTo.None?
  {
    if parent.references == [] && parent.inReplyTo.Some? {
      assert |Derived(parent, mode, ours).value.references| == 1 && |Rfc5322References(parent)| == 2;
    }
  }

  /** For instance, a reply to a first reply whose client sent no References loses the root. */
  lemma RfcDivergence()
    ensures var sender := Address(None, "b@example.org");
            var parent := Message(None, [sender], [], [], [], Some("<b>"), Some("<a>"), [], None, None);
            && Derived(parent, Sender, []) == Ok(Draft([sender], "Re:", None, None, Some("<b>"), ["<b>"]))
            && Rfc5322References(parent) == ["<a>", "<b>"]
  {
    var sender := Address(None, "b@example.org");
    assert [sender] + [] == [sender] && [sender][..0] == [];
    assert Deduped([], []) == [] && [] + [sender] == [sender];
    assert Deduped([sender], []) == [sender];
    var none: seq<string> := [];
    assert none + ["<b>"] == ["<b>"];
    var parent := Message(None, [sender], [], [], [], Some("<b>"), Some("<a>"), [], None, None);
    assert Addressees(parent, Sender) == [sender];
  }
}
