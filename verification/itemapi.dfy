/** The URLs the item endpoints request, and the query string of the item list. */
module ItemApi {
  import opened Wrappers
  import opened Text
  import opened Query
  import opened Seqs

  const API_BASE_URL := "http://localhost:5000/api/v1"

  /** The optional filters of `itemAPI.getAll`; `None` is `undefined`. */
  datatype Filters = Filters(
    page: Option<Num>,
    limit: Option<Num>,
    subCategory: Option<string>,
    minPrice: Option<Num>,
    maxPrice: Option<Num>)

  /** `getAll()` called without an argument. */
  const NoFilters := Filters(None, None, None, None, None)

  /** The values `getAll` appends for a numeric filter: one when it is defined (and truthy, if so required). */
  function NumPart(x: Option<Num>, truthyOnly: bool): (r: seq<string>)
    ensures |r| <= 1
  {
    if x.Some? && (truthyOnly ==> x.value.Truthy()) then [NumToString(x.value)] else []
  }

  /** The values `getAll` appends for the sub-category: one when it is truthy. */
  function TextPart(x: Option<string>): (r: seq<string>)
    ensures |r| <= 1
  {
    if Truthy(x) then [x.value] else []
  }

  /** The values `getAll` may append, per key, in the order it appends them. */
  function ListBlocks(f: Filters): seq<(string, seq<string>)> {
    [("page", NumPart(f.page, true)), ("limit", NumPart(f.limit, true)),
     ("subCategory", TextPart(f.subCategory)),
     ("minPrice", NumPart(f.minPrice, false)), ("maxPrice", NumPart(f.maxPrice, false))]
  }

  const ListKeys := ["page", "limit", "subCategory", "minPrice", "maxPrice"]

  lemma ListBlocksDistinct(f: Filters)
    ensures DistinctKeys(ListBlocks(f))
    ensures BlockKeys(ListBlocks(f)) == ListKeys
  {
  }

  /**
   * The query `getAll` builds: `page`, `limit` and `subCategory` only when truthy (so page 0 is left
   * out), `minPrice` and `maxPrice` whenever defined (0 included), each at most once and in that order.
   */
  function ListQuery(f: Filters): (r: Params)
    ensures Values(r, "page") == NumPart(f.page, true)
    ensures Values(r, "limit") == NumPart(f.limit, true)
    ensures Values(r, "subCategory") == TextPart(f.subCategory)
    ensures Values(r, "minPrice") == NumPart(f.minPrice, false)
    ensures Values(r, "maxPrice") == NumPart(f.maxPrice, false)
  {
    var bs := ListBlocks(f);
    ListBlocksDistinct(f);
    FlattenValuesAt(bs, 0);
    FlattenValuesAt(bs, 1);
    FlattenValuesAt(bs, 2);
    FlattenValuesAt(bs, 3);
    FlattenValuesAt(bs, 4);
    Flatten(bs)
  }

  /**
   * Which keys the list query carries: page 0 and limit 0 are dropped as falsy, an empty
   * sub-category is dropped, while a price of 0 is kept.
   */
  lemma ListQueryKeys(f: Filters)
    ensures Has(ListQuery(f), "page") <==> f.page.Some? && f.page.value.Truthy()
    ensures Has(ListQuery(f), "minPrice") <==> f.minPrice.Some?
    ensures f.minPrice == Some(Int(0)) ==> Get(ListQuery(f), "minPrice") == Some("0")
    ensures f.page == Some(Int(0)) ==> Get(ListQuery(f), "page") == None
    ensures Has(ListQuery(f), "subCategory") <==> Truthy(f.subCategory)
    ensures Has(ListQuery(f), "maxPrice") <==> f.maxPrice.Some?
    ensures f.minPrice.Some? ==> Get(ListQuery(f), "minPrice") == Some(NumToString(f.minPrice.value))
    ensures f.maxPrice.Some? ==> Get(ListQuery(f), "maxPrice") == Some(NumToString(f.maxPrice.value))
  {
    var r := ListQuery(f);
    HasIffValues(r, "page");
    HasIffValues(r, "minPrice");
    HasIffValues(r, "maxPrice");
    HasIffValues(r, "subCategory");
  }

  /** The query names its filters in the order `getAll` appends them: page, limit, subCategory, minPrice, maxPrice. */
  lemma ListQueryInOrder(f: Filters)
    ensures IsSubsequence(Keys(ListQuery(f)), ListKeys)
  {
    ListBlocksDistinct(f);
    FlattenInOrder(ListBlocks(f));
  }

  /** The list URL: `?` and the query are added only when the query is non-empty. */
  function ListUrl(f: Filters): (r: string)
    ensures |ListQuery(f)| == 0 ==> r == API_BASE_URL + "/item/all"
    ensures |ListQuery(f)| > 0 ==> r == API_BASE_URL + "/item/all?" + Serialize(ListQuery(f))
  {
    var qs := Serialize(ListQuery(f));
    API_BASE_URL + "/item/all" + (if qs == "" then "" else "?" + qs)
  }

  /** With no filters at all, the plain list URL is requested. */
  lemma UnfilteredListUrl()
    ensures ListUrl(NoFilters) == API_BASE_URL + "/item/all"
  {
  }

  /**
   * `getByCategory(category, subCategory?)`: the path form `/item/{category}/{sub}` when a
   * sub-category is given, else the list filtered by `?category=`. `encode` is `encodeURIComponent`.
   */
  function CategoryUrl(category: string, subCategory: Option<string>, encode: string -> string): (r: string)
    ensures Truthy(subCategory) ==> r == API_BASE_URL + "/item/" + encode(category) + "/" + encode(subCategory.value)
    ensures !Truthy(subCategory) ==> r == API_BASE_URL + "/item/all?category=" + encode(category)
  {
    if Truthy(subCategory) then API_BASE_URL + "/item/" + encode(category) + "/" + encode(subCategory.value)
    else API_BASE_URL + "/item/all?category=" + encode(category)
  }

  /** `itemAPI.search(q)`: the item endpoint with the single parameter `q`, encoded. */
  function SearchUrl(q: string, encode: string -> string): (r: string)
    ensures r == API_BASE_URL + "/item?" + Serialize([("q", encode(q))])
  {
    API_BASE_URL + "/item?q=" + encode(q)
  }

  /**
   * The text search never requests a list: after the base URL its path is `/item?`, where the
   * list and category URLs continue `/item/`.
   */
  lemma SearchUrlIsNotList(q: string, encode: string -> string, f: Filters, category: string, sub: Option<string>)
    ensures SearchUrl(q, encode) != ListUrl(f)
    ensures SearchUrl(q, encode) != CategoryUrl(category, sub, encode)
  {
    var n := |API_BASE_URL|;
    assert SearchUrl(q, encode)[n + 5] == '?';
    assert ListUrl(f)[n + 5] == '/';
    assert CategoryUrl(category, sub, encode)[n + 5] == '/';
  }
}
