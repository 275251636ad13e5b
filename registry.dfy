/** Looking players up by part of their name (`findPlayerIdByName`). */
module Registry {
  import opened Wrappers
  import opened Text
  import opened Model

  /** The registry entry's name contains the query, ignoring ASCII case;
      nameless entries never match. */
  predicate Matches(e: Entry, query: string) {
    NameMatches(e.player.userName, ToLower(query))
  }

  /** A non-empty name contains the already lower-cased query, ignoring the
      name's case. */
  predicate NameMatches(name: string, lowerQuery: string) {
    name != [] && Contains(ToLower(name), lowerQuery)
  }

  /** Index of the first matching entry at or after `from`, in iteration
      order. */
  function FirstMatchFrom(players: seq<Entry>, query: string, from: nat): (r: Option<nat>)
    requires from <= |players|
    ensures r.None? <==> forall k :: from <= k < |players| ==> !Matches(players[k], query)
    ensures r.Some? ==> from <= r.value < |players| && Matches(players[r.value], query)
    ensures r.Some? ==> forall k :: from <= k < r.value ==> !Matches(players[k], query)
    decreases |players| - from
  {
    if from == |players| then None
    else if Matches(players[from], query) then Some(from)
    else FirstMatchFrom(players, query, from + 1)
  }

  /** Index of the first matching entry of the whole registry. */
  function FirstMatch(players: seq<Entry>, query: string): Option<nat> {
    FirstMatchFrom(players, query, 0)
  }

  /** `findPlayerIdByName`: the id of the first entry whose lower-cased name
      contains the lower-cased query, or `None` (the source's `null`). */
  method FindPlayerIdByName(players: seq<Entry>, namePart: string) returns (r: Option<Id>)
    ensures r.None? <==> forall k :: 0 <= k < |players| ==> !Matches(players[k], namePart)
    ensures r.Some? ==> FirstMatch(players, namePart).Some? && r.value == players[FirstMatch(players, namePart).value].id
  {
    var query := ToLower(namePart);
    var i := 0;
    while i < |players|
      invariant 0 <= i <= |players|
      invariant FirstMatchFrom(players, namePart, i) == FirstMatch(players, namePart)
    {
      if NameMatches(players[i].player.userName, query) {
        assert FirstMatchFrom(players, namePart, i) == Some(i);
        return Some(players[i].id);
      }
      i := i + 1;
    }
    return None;
  }
}
