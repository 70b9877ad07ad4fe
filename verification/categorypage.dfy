/** The category page: its sub-category menu, the request it makes and the approved items it lists. */
module CategoryPage {
  import opened Wrappers
  import opened Text
  import opened Seqs
  import opened Domain
  import Categories
  import ItemApi

  /** `category ? CATEGORIES[category] || [] : []`: the menu is non-empty exactly for a known category. */
  function SubCategoryOptions(category: Option<string>): (r: seq<string>)
    ensures |r| > 0 <==> category.Some? && Categories.IsCategory(category.value)
    ensures category.Some? && Categories.IsCategory(category.value) ==>
      exists k :: 0 <= k < |Categories.Table| && Categories.Table[k] == (category.value, r)
  {
    if Truthy(category) then Categories.SubCategoriesOf(category.value) else []
  }

  /** `subCategory || null`: the sub-category selected on arrival, taken from the route. */
  function InitialSub(subCategory: Option<string>): (r: Option<string>)
    ensures r.Some? <==> Truthy(subCategory)
    ensures r.Some? ==> r == subCategory
  {
    if Truthy(subCategory) then subCategory else None
  }

  /** What the effect requests. `NoFetch` returns before the loading flag is cleared, so the spinner stays. */
  datatype Fetch = NoFetch | FetchAll | FetchCategory(category: string, sub: string)

  function Request(category: Option<string>, selectedSub: Option<string>): (r: Fetch)
    ensures r.NoFetch? <==> !Truthy(category)
    ensures r.FetchAll? <==> Truthy(category) && !Truthy(selectedSub)
    ensures r.FetchCategory? ==> Some(r.category) == category && Some(r.sub) == selectedSub && r.sub != ""
  {
    if !Truthy(category) then NoFetch
    else if Truthy(selectedSub) then FetchCategory(category.value, selectedSub.value)
    else FetchAll
  }

  /**
   * Whether an item of the response is listed: it must be approved, and when the whole list was
   * fetched it must also be of this category; the sub-category endpoint's items are trusted.
   */
  predicate Listed(category: string, selectedSub: Option<string>, it: Item) {
    IsApproved(it) && (Truthy(selectedSub) || it.category == Some(category))
  }

  /** `Listed` as the predicate a filter takes. */
  function ListedIn(category: string, selectedSub: Option<string>): Item -> bool {
    (it: Item) => Listed(category, selectedSub, it)
  }

  /** `item.itemCategory === category && item.status === 'APPROVED'`, the whole-list filter. */
  function ApprovedOfCategory(category: string): Item -> bool {
    (it: Item) => it.category == Some(category) && IsApproved(it)
  }

  /** The listed items after the request: a failure clears the list. */
  function Shown(category: string, selectedSub: Option<string>, response: Fetched<ListBody<Item>>): (r: seq<Item>)
    ensures response.Failed? ==> r == []
    ensures forall k :: 0 <= k < |r| ==> IsApproved(r[k])
    ensures !Truthy(selectedSub) ==> forall k :: 0 <= k < |r| ==> r[k].category == Some(category)
    ensures response.Got? ==> forall k :: 0 <= k < |r| ==> r[k] in Normalise(response.body)
  {
    match response
    case Failed => []
    case Got(b) =>
      if Truthy(selectedSub) then Filter(IsApproved, Normalise(b))
      else Filter(ApprovedOfCategory(category), Normalise(b))
  }

  /**
   * Nothing is lost: every item of the response that qualifies is listed, in the response's order,
   * and each as often as it occurs there; the two filters of the page are the one `Listed` rule.
   */
  lemma ShownIsExactlyListed(category: string, selectedSub: Option<string>, b: ListBody<Item>)
    ensures var r := Shown(category, selectedSub, Got(b));
      && (forall k :: 0 <= k < |Normalise(b)| && Listed(category, selectedSub, Normalise(b)[k]) ==> Normalise(b)[k] in r)
      && (forall k :: 0 <= k < |r| ==> Listed(category, selectedSub, r[k]))
      && IsSubsequence(r, Normalise(b))
    ensures Shown(category, selectedSub, Got(b)) == Filter(ListedIn(category, selectedSub), Normalise(b))
    ensures |Shown(category, selectedSub, Got(b))| == Count(ListedIn(category, selectedSub), Normalise(b))
  {
    var items := Normalise(b);
    if Truthy(selectedSub) {
      FilterIsSubsequence(IsApproved, items);
      FilterAgree(IsApproved, ListedIn(category, selectedSub), items);
    } else {
      FilterIsSubsequence(ApprovedOfCategory(category), items);
      FilterAgree(ApprovedOfCategory(category), ListedIn(category, selectedSub), items);
    }
    CountIsFilterLength(ListedIn(category, selectedSub), items);
  }

  /**
   * The request decides the filter: after the sub-category endpoint every approved item is
   * listed, and that endpoint is the path form `/item/{category}/{sub}`; after the whole list
   * only approved items of the category are.
   */
  lemma RequestDecidesCategoryCheck(category: string, selectedSub: Option<string>, encode: string -> string)
    requires category != ""
    ensures Request(Some(category), selectedSub).FetchCategory? ==>
      (forall it :: Listed(category, selectedSub, it) <==> IsApproved(it))
      && ItemApi.CategoryUrl(category, selectedSub, encode)
         == ItemApi.API_BASE_URL + "/item/" + encode(category) + "/" + encode(selectedSub.value)
    ensures Request(Some(category), selectedSub).FetchAll? ==>
      forall it :: Listed(category, selectedSub, it) <==> IsApproved(it) && it.category == Some(category)
  {
  }
}
