/** The home page's "Fresh Recommendations": the first six approved listings. */
module Home {
  import opened Seqs
  import opened Domain

  const FEATURED_COUNT := 6

  /**
   * The items the home page shows: the approved items of the unfiltered list, at most six. When
   * the request fails the list stays as it started, empty.
   */
  function Featured(response: Fetched<ListBody<Item>>): (r: seq<Item>)
    ensures response.Failed? ==> r == []
    ensures |r| <= FEATURED_COUNT
    ensures forall k :: 0 <= k < |r| ==> IsApproved(r[k])
  {
    match response
    case Failed => []
    case Got(b) => Take(Filter(IsApproved, Normalise(b)), FEATURED_COUNT)
  }

  /**
   * The featured items are the first approved items of the response, in its order; there are six of them unless the
   * response has fewer approved items, in which case every approved item is shown; so the
   * "No items available yet" notice appears exactly when no item is approved.
   */
  lemma FeaturedSelection(b: ListBody<Item>)
    ensures var all := Normalise(b); var r := Featured(Got(b));
      && IsSubsequence(r, all)
      && (forall k :: 0 <= k < |r| ==> r[k] == Filter(IsApproved, all)[k])
      && |r| == (if Count(IsApproved, all) < FEATURED_COUNT then Count(IsApproved, all) else FEATURED_COUNT)
      && (Count(IsApproved, all) <= FEATURED_COUNT ==> forall k :: 0 <= k < |all| && IsApproved(all[k]) ==> all[k] in r)
      && (|r| == 0 <==> Count(IsApproved, all) == 0)
  {
    var all := Normalise(b);
    var f := Filter(IsApproved, all);
    FilterIsSubsequence(IsApproved, all);
    TakeIsSubsequence(f, FEATURED_COUNT);
    SubsequenceTransitive(Take(f, FEATURED_COUNT), f, all);
    CountIsFilterLength(IsApproved, all);
  }
}
