/** Resolving an account filter: case-insensitively against the accounts that own a mailbox, or a
    refusal carrying the nearest identifiers. */
module Accounts {
  import opened Wrappers
  import EditDistance

  const SUGGESTION_LIMIT := 5

  datatype Unmatched = Unmatched(requested: string, available: nat, suggestions: seq<string>)

  /** `lower` and `accountOf` (which fails on a malformed URL) are the library's. */
  datatype Text = Text(lower: string -> string, accountOf: string -> Option<string>)

  ghost predicate IsAccount(t: Text, urls: seq<string>, id: string) {
    exists k :: 0 <= k < |urls| && t.accountOf(urls[k]) == Some(id)
  }

  /** One identifier, as some mailbox spells it, for each account up to case. */
  ghost predicate KnownAccounts(t: Text, urls: seq<string>, accounts: map<string, string>) {
    && (forall key :: key in accounts ==> t.lower(accounts[key]) == key && IsAccount(t, urls, accounts[key]))
    && (forall k :: 0 <= k < |urls| && t.accountOf(urls[k]).Some? ==> t.lower(t.accountOf(urls[k]).value) in accounts)
  }

  method CollectAccounts(t: Text, urls: seq<string>) returns (accounts: map<string, string>)
    ensures KnownAccounts(t, urls, accounts)
  {
    accounts := map[];
    for k := 0 to |urls|
      invariant forall key :: key in accounts ==> t.lower(accounts[key]) == key && IsAccount(t, urls, accounts[key])
      invariant forall j :: 0 <= j < k && t.accountOf(urls[j]).Some? ==> t.lower(t.accountOf(urls[j]).value) in accounts
    {
      var id := t.accountOf(urls[k]);
      if id.Some? && t.lower(id.value) !in accounts {
        assert IsAccount(t, urls, id.value);
        accounts := accounts[t.lower(id.value) := id.value];
      }
    }
  }

  /** `resolve_account`, over the known accounts' values in whatever order the map yields them.
      A match is up to case; the suggestions of a refusal are the nearest identifiers as
      spelled, nearest first, and none left out is nearer than one given. */
  method ResolveAccount(t: Text, accounts: map<string, string>, values: seq<string>, requested: string)
    returns (r: Result<string, Unmatched>, order: seq<nat>)
    requires forall v :: v in values <==> v in accounts.Values
    ensures r.Ok? <==> t.lower(requested) in accounts
    ensures r.Ok? ==> r.value == accounts[t.lower(requested)]
    ensures r.Err? ==>
      && r.error.requested == requested && r.error.available == |accounts|
      && |r.error.suggestions| == Min(5, |values|)
      && EditDistance.Covering(|values|, order) && |order| == |values|
      && (forall i :: 0 <= i < |r.error.suggestions| ==> r.error.suggestions[i] == values[order[i]])
      && (forall i, j :: 0 <= i < j < |order| ==>
            EditDistance.Dist(requested, values[order[i]]) <= EditDistance.Dist(requested, values[order[j]]))
  {
    order := [];
    if t.lower(requested) in accounts {
      return Ok(accounts[t.lower(requested)]), order;
    }
    var suggestions;
    suggestions, order := EditDistance.Suggest(s => s, values, requested, SUGGESTION_LIMIT);
    r := Err(Unmatched(requested, |accounts|, suggestions));
  }
}
