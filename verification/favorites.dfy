/** The favourites page: the loaded list and removing one entry. */
module Favorites {
  import opened Wrappers
  import opened Seqs
  import opened Domain

  /** `response.data || []`; a failed request leaves the initial empty list. */
  function Initial(response: Fetched<Option<seq<Item>>>): (r: seq<Item>)
    ensures response.Got? && response.body.Some? ==> r == response.body.value
    ensures response.Failed? || response.body.None? ==> r == []
  {
    match response
    case Failed => []
    case Got(d) => d.GetOr([])
  }

  /** The page state: the list, and the id whose removal is in flight (its button is disabled). */
  datatype State = State(favorites: seq<Item>, removingId: Option<string>)

  predicate RemoveDisabled(st: State, it: Item) {
    st.removingId == Some(it.id)
  }

  /** `handleRemove` before the request: only the id is recorded. */
  function BeginRemove(st: State, id: string): (r: State)
    ensures r.favorites == st.favorites
    ensures forall it :: RemoveDisabled(r, it) <==> it.id == id
  {
    st.(removingId := Some(id))
  }

  /**
   * `handleRemove` after the request. `completed` says the awaited `removeFavorite` did not throw;
   * it never looks at the HTTP status, so an error reply with a JSON body completes too. When the
   * call completes every entry with the id is dropped and the rest kept; when it throws the list
   * is unchanged. Either way the buttons are enabled again. The second component is the toast.
   */
  function FinishRemove(st: State, id: string, completed: bool): (r: (State, string))
    ensures forall it :: !RemoveDisabled(r.0, it)
    ensures !completed ==> r.0.favorites == st.favorites && r.1 == "Failed to remove from favorites"
    ensures completed ==> r.1 == "Removed from favorites"
    ensures completed ==> forall k :: 0 <= k < |r.0.favorites| ==> r.0.favorites[k].id != id && r.0.favorites[k] in st.favorites
    ensures completed ==> forall k :: 0 <= k < |st.favorites| && st.favorites[k].id != id ==> st.favorites[k] in r.0.favorites
  {
    if completed then (State(Filter((it: Item) => it.id != id, st.favorites), None), "Removed from favorites")
    else (st.(removingId := None), "Failed to remove from favorites")
  }

  /**
   * A completed removal keeps the other entries in order, shortens the list by the number of
   * entries with that id, and a second removal of the same id changes nothing.
   */
  lemma RemoveProperties(st: State, id: string)
    ensures var after := FinishRemove(st, id, true).0.favorites;
      && IsSubsequence(after, st.favorites)
      && |after| == |st.favorites| - Count((it: Item) => it.id == id, st.favorites)
      && FinishRemove(FinishRemove(st, id, true).0, id, true).0.favorites == after
  {
    var p := (it: Item) => it.id != id;
    var after := Filter(p, st.favorites);
    FilterIsSubsequence(p, st.favorites);
    CountIsFilterLength(p, st.favorites);
    CountComplement((it: Item) => it.id == id, p, st.favorites);
    FilterAll(p, after);
  }
}
