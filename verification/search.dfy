/**
 * The search results page: which request it makes for the URL's parameters, how filter chips and
 * page links rewrite the URL, and which page numbers the pagination bar shows.
 */
module Search {
  import opened Wrappers
  import opened Text
  import opened Query
  import opened Domain
  import opened ItemApi

  const ITEMS_PER_PAGE := 20

  // ----- reading the URL -----

  /** `parseInt(searchParams.get('page') || '1')`; `parseInt` is given, since its grammar is not modelled. */
  function CurrentPage(q: Params, parseInt: string -> Num): (r: Num)
    ensures Truthy(Get(q, "page")) ==> r == parseInt(Get(q, "page").value)
    ensures !Truthy(Get(q, "page")) ==> r == parseInt("1")
  {
    parseInt(OrElse(Get(q, "page"), "1"))
  }

  /** `searchParams.get('ai') === 'true'`. */
  predicate IsAiSearch(q: Params) {
    Get(q, "ai") == Some("true")
  }

  /** `subCategory || minPrice || maxPrice || isAiSearch`: the chip row is shown. */
  predicate HasActiveFilters(q: Params) {
    Truthy(Get(q, "subCategory")) || Truthy(Get(q, "minPrice")) || Truthy(Get(q, "maxPrice")) || IsAiSearch(q)
  }

  /**
   * For every URL, only the four chip keys decide whether the chip row shows: setting or deleting
   * any other parameter, `q` and `category` included, leaves it as it was.
   */
  lemma ActiveFiltersIgnoreOtherKeys(q: Params, key: string, v: string)
    requires key != "subCategory" && key != "minPrice" && key != "maxPrice" && key != "ai"
    ensures HasActiveFilters(Delete(q, key)) == HasActiveFilters(q)
    ensures HasActiveFilters(Set(q, key, v)) == HasActiveFilters(q)
  {
    DeleteKeepsChips(q, key);
    SetKeepsChips(q, key, v);
  }

  lemma DeleteKeepsChips(q: Params, key: string)
    requires key != "subCategory" && key != "minPrice" && key != "maxPrice" && key != "ai"
    ensures HasActiveFilters(Delete(q, key)) == HasActiveFilters(q)
  {
    var d := Delete(q, key);
    forall other | other != key
      ensures Values(d, other) == Values(q, other)
    {
    }
    SameChipValues(d, q);
  }

  lemma SetKeepsChips(q: Params, key: string, v: string)
    requires key != "subCategory" && key != "minPrice" && key != "maxPrice" && key != "ai"
    ensures HasActiveFilters(Set(q, key, v)) == HasActiveFilters(q)
  {
    var t := Set(q, key, v);
    forall other | other != key
      ensures Values(t, other) == Values(q, other)
    {
    }
    SameChipValues(t, q);
  }

  /** Two URLs with the same values under the four chip keys agree on the chip row. */
  lemma SameChipValues(a: Params, b: Params)
    requires Values(a, "subCategory") == Values(b, "subCategory") && Values(a, "minPrice") == Values(b, "minPrice")
    requires Values(a, "maxPrice") == Values(b, "maxPrice") && Values(a, "ai") == Values(b, "ai")
    ensures HasActiveFilters(a) == HasActiveFilters(b)
  {
    assert Get(a, "subCategory") == Get(b, "subCategory");
    assert Get(a, "minPrice") == Get(b, "minPrice");
    assert Get(a, "maxPrice") == Get(b, "maxPrice");
    assert Get(a, "ai") == Get(b, "ai");
  }

  /** A text query or a category alone shows no chips; each chip key alone does. */
  lemma ActiveFiltersKeys(v: string)
    requires v != ""
    ensures !HasActiveFilters([("q", v), ("category", v)])
    ensures HasActiveFilters([("subCategory", v)]) && HasActiveFilters([("minPrice", v)])
    ensures HasActiveFilters([("maxPrice", v)]) && HasActiveFilters([("ai", "true")])
    ensures v != "true" ==> !HasActiveFilters([("ai", v)])
  {
  }

  // ----- which request is made -----

  /** The three ways the page loads its items. */
  datatype Request =
    | AskSearch(question: string)     // `askAPI.search(q)`
    | TextSearch(text: string)        // `itemAPI.search(q)`
    | List(filters: Filters)          // `itemAPI.getAll({...})`

  /** `min ? parseInt(min) : undefined`. */
  function ParsedIfTruthy(x: Option<string>, parseInt: string -> Num): (r: Option<Num>)
    ensures r.Some? <==> Truthy(x)
    ensures r.Some? ==> r.value == parseInt(x.value)
  {
    if Truthy(x) then Some(parseInt(x.value)) else None
  }

  /** The request `fetchItems` sends for the URL parameters `q`. */
  function Dispatch(q: Params, parseInt: string -> Num): (r: Request)
    ensures r.AskSearch? <==> Truthy(Get(q, "q")) && IsAiSearch(q)
    ensures r.TextSearch? <==> Truthy(Get(q, "q")) && !IsAiSearch(q)
    ensures r.List? <==> !Truthy(Get(q, "q"))
    ensures r.AskSearch? ==> r.question == Get(q, "q").value
    ensures r.TextSearch? ==> r.text == Get(q, "q").value
    ensures r.List? ==> r.filters.page == Some(CurrentPage(q, parseInt))
    ensures r.List? ==> r.filters.limit == Some(Int(ITEMS_PER_PAGE))
    ensures r.List? ==> (r.filters.subCategory.Some? <==> Truthy(Get(q, "subCategory")))
    ensures r.List? && r.filters.subCategory.Some? ==> r.filters.subCategory == Get(q, "subCategory")
    ensures r.List? ==> r.filters.minPrice == ParsedIfTruthy(Get(q, "minPrice"), parseInt)
    ensures r.List? ==> r.filters.maxPrice == ParsedIfTruthy(Get(q, "maxPrice"), parseInt)
  {
    var text := Get(q, "q");
    if Truthy(text) && IsAiSearch(q) then AskSearch(text.value)
    else if Truthy(text) then TextSearch(text.value)
    else
      var sub := Get(q, "subCategory");
      List(Filters(
        Some(CurrentPage(q, parseInt)),
        Some(Int(ITEMS_PER_PAGE)),
        if Truthy(sub) then sub else None,
        ParsedIfTruthy(Get(q, "minPrice"), parseInt),
        ParsedIfTruthy(Get(q, "maxPrice"), parseInt)))
  }

  /**
   * With an empty URL the page lists page 1 with 20 items per page, and nothing else, provided
   * `parseInt` reads "1" as 1.
   */
  lemma EmptyUrlListsFirstPage(parseInt: string -> Num)
    requires parseInt("1") == Int(1)
    ensures Dispatch([], parseInt).List?
    ensures var f := Dispatch([], parseInt).filters;
      Values(ListQuery(f), "page") == ["1"] && Values(ListQuery(f), "limit") == ["20"]
      && Values(ListQuery(f), "subCategory") == [] && Values(ListQuery(f), "minPrice") == []
      && Values(ListQuery(f), "maxPrice") == []
  {
    var f := Dispatch([], parseInt).filters;
    assert NatToString(20) == "20" by {
      assert NatToString(2) == "2";
      assert NatToString(0) == "0";
    }
  }

  /**
   * For every URL without a text query, the query string actually requested: `page` only when the
   * page parameter parses to a non-zero integer (page 0 and NaN are dropped), and then as its
   * numeral; `limit` always, as the numeral of `ITEMS_PER_PAGE` ("20", as `EmptyUrlListsFirstPage`
   * spells out); and `subCategory` exactly when truthy. `DispatchListPrices` covers the price bounds.
   */
  lemma DispatchListQuery(q: Params, parseInt: string -> Num)
    ensures Dispatch(q, parseInt).List? <==> !Truthy(Get(q, "q"))
    ensures Dispatch(q, parseInt).List? ==>
      var lq := ListQuery(Dispatch(q, parseInt).filters);
      && Values(lq, "page") == (if CurrentPage(q, parseInt).Truthy() then [NumToString(CurrentPage(q, parseInt))] else [])
      && Values(lq, "limit") == [NumToString(Int(ITEMS_PER_PAGE))]
      && Values(lq, "subCategory") == (if Truthy(Get(q, "subCategory")) then [Get(q, "subCategory").value] else [])
  {
  }

  /**
   * The price bounds of the list request, for every URL: each is sent iff its URL parameter is
   * truthy, as the numeral of its parse, so a bound `parseInt` cannot read is sent as "NaN".
   */
  lemma DispatchListPrices(q: Params, parseInt: string -> Num)
    ensures Dispatch(q, parseInt).List? ==>
      var lq := ListQuery(Dispatch(q, parseInt).filters);
      && (Has(lq, "minPrice") <==> Truthy(Get(q, "minPrice")))
      && (Has(lq, "maxPrice") <==> Truthy(Get(q, "maxPrice")))
      && (Truthy(Get(q, "minPrice")) ==> Get(lq, "minPrice") == Some(NumToString(parseInt(Get(q, "minPrice").value))))
      && (Truthy(Get(q, "maxPrice")) ==> Get(lq, "maxPrice") == Some(NumToString(parseInt(Get(q, "maxPrice").value))))
      && (Truthy(Get(q, "minPrice")) && parseInt(Get(q, "minPrice").value) == NaN ==> Get(lq, "minPrice") == Some("NaN"))
  {
    var r := Dispatch(q, parseInt);
    if r.List? {
      ListQueryKeys(r.filters);
    }
  }

  /**
   * The `itemAPI` URL a request goes to: the text search and the filtered list have one; the AI
   * search posts to `askAPI` instead.
   */
  function ItemUrl(r: Request, encode: string -> string): (u: Option<string>)
    ensures u.None? <==> r.AskSearch?
    ensures r.TextSearch? ==> u == Some(SearchUrl(r.text, encode))
    ensures r.List? ==> u == Some(ListUrl(r.filters))
  {
    match r
    case AskSearch(_) => None
    case TextSearch(text) => Some(SearchUrl(text, encode))
    case List(f) => Some(ListUrl(f))
  }

  /**
   * For every URL: a plain text query, untrimmed, goes to the search endpoint and never to the list;
   * without a query the list URL carries the filters read from the URL.
   */
  lemma DispatchItemUrl(q: Params, parseInt: string -> Num, encode: string -> string)
    ensures var u := ItemUrl(Dispatch(q, parseInt), encode);
      && (Truthy(Get(q, "q")) && !IsAiSearch(q) ==>
            u == Some(API_BASE_URL + "/item?" + Serialize([("q", encode(Get(q, "q").value))]))
            && forall f :: u != Some(ListUrl(f)))
      && (!Truthy(Get(q, "q")) ==> u == Some(ListUrl(Dispatch(q, parseInt).filters)))
  {
    var r := Dispatch(q, parseInt);
    if r.TextSearch? {
      forall f: Filters ensures SearchUrl(r.text, encode) != ListUrl(f) {
        SearchUrlIsNotList(r.text, encode, f, "", None);
      }
    }
  }

  /** The answer of `askAPI.search`: `results` may be absent. */
  function AskItems<T>(results: Option<seq<T>>): (r: seq<T>)
    ensures results.Some? ==> r == results.value
    ensures results.None? ==> r == []
  {
    results.GetOr([])
  }

  /**
   * `response.total || data.length`: the total the server reports when it is truthy, else the
   * number of items received. `total` is `response.total`, `None` when absent (always so for a bare array).
   */
  function TotalItems<T>(body: ListBody<T>, total: Option<int>): (r: int)
    ensures total.Some? && total.value != 0 ==> r == total.value
    ensures (total.None? || total.value == 0) ==> r == |Normalise(body)|
  {
    if total.Some? && total.value != 0 then total.value else |Normalise(body)|
  }

  // ----- pagination -----

  /** `Math.ceil(totalItems / itemsPerPage)` for a non-negative total. */
  function TotalPages(total: nat): (r: nat)
    ensures r * ITEMS_PER_PAGE >= total
    ensures r > 0 ==> (r - 1) * ITEMS_PER_PAGE < total
  {
    (total + ITEMS_PER_PAGE - 1) / ITEMS_PER_PAGE
  }

  /** The pagination bar is rendered only when there is more than one page, i.e. more than 20 items. */
  lemma PaginationShownIff(total: nat)
    ensures TotalPages(total) > 1 <==> total > ITEMS_PER_PAGE
    ensures TotalPages(total) == 0 <==> total == 0
  {
  }

  /** `currentPage > n`; a NaN page compares false. */
  predicate Above(cp: Num, n: int) {
    cp.Int? && cp.n > n
  }

  /**
   * The first page number of the window: 1, moved to `currentPage - 2` past page 3, and to
   * `totalPages - 4` near the end, when there are more than five pages.
   */
  function WindowStart(cp: Num, tp: int): (r: int)
    ensures tp <= 5 || !Above(cp, 3) ==> (r == 1 || (tp > 5 && Above(cp, tp - 2)))
    ensures tp > 5 && Above(cp, tp - 2) ==> r == tp - 4
    ensures tp > 5 && Above(cp, 3) && !Above(cp, tp - 2) ==> r == cp.n - 2
  {
    var start := if tp > 5 && Above(cp, 3) then cp.n - 2 else 1;
    if tp > 5 && Above(cp, tp - 2) then tp - 4 else start
  }

  /** The page numbers the bar shows: `min(5, totalPages)` consecutive numbers from `WindowStart`. */
  function PageWindow(cp: Num, tp: int): (r: seq<int>)
    ensures |r| == if tp < 0 then 0 else if tp < 5 then tp else 5
    ensures forall i :: 0 <= i < |r| ==> r[i] == WindowStart(cp, tp) + i
  {
    var n := if tp < 0 then 0 else if tp < 5 then tp else 5;
    seq(n, i requires 0 <= i < n => WindowStart(cp, tp) + i)
  }

  /** Each number follows the one before, so the numbers are distinct and usable as keys. */
  lemma WindowConsecutive(cp: Num, tp: int)
    ensures var w := PageWindow(cp, tp);
      (forall i :: 0 <= i < |w| - 1 ==> w[i + 1] == w[i] + 1)
      && (forall i, j :: 0 <= i < j < |w| ==> w[i] < w[j])
  {
  }

  /** Whatever the current page (even NaN or out of range), every number shown is a real page. */
  lemma WindowInRange(cp: Num, tp: int)
    ensures forall i :: 0 <= i < |PageWindow(cp, tp)| ==> 1 <= PageWindow(cp, tp)[i] <= tp
  {
  }

  /** The current page, when it is a real page, is always among the numbers shown. */
  lemma WindowContainsCurrent(cp: int, tp: int)
    requires 1 <= cp <= tp
    ensures cp in PageWindow(Int(cp), tp)
  {
    var w := PageWindow(Int(cp), tp);
    var s := WindowStart(Int(cp), tp);
    assert w[cp - s] == cp;
  }

  /** On the first three pages of a long list the bar reads 1 to 5; away from both ends the current page is in the middle. */
  lemma WindowShape(cp: Num, tp: int)
    requires tp > 5
    ensures !Above(cp, 3) ==> PageWindow(cp, tp) == [1, 2, 3, 4, 5]
    ensures Above(cp, 3) && !Above(cp, tp - 2) ==> PageWindow(cp, tp)[2] == cp.n
    ensures Above(cp, tp - 2) ==> PageWindow(cp, tp) == [tp - 4, tp - 3, tp - 2, tp - 1, tp]
  {
  }

  /** `currentPage > 1 && handlePageChange(currentPage - 1)`: the page the Previous link goes to, if any. */
  function PreviousTarget(cp: Num): (r: Option<int>)
    ensures r.Some? <==> Above(cp, 1)
    ensures r.Some? ==> r.value == cp.n - 1
  {
    if Above(cp, 1) then Some(cp.n - 1) else None
  }

  /** `currentPage < totalPages && handlePageChange(currentPage + 1)`. */
  function NextTarget(cp: Num, tp: int): (r: Option<int>)
    ensures r.Some? <==> cp.Int? && cp.n < tp
    ensures r.Some? ==> r.value == cp.n + 1
  {
    if cp.Int? && cp.n < tp then Some(cp.n + 1) else None
  }

  /** The Previous link is greyed out when `currentPage === 1`, the Next link when `currentPage === totalPages`. */
  predicate PreviousGreyed(cp: Num) {
    cp == Int(1)
  }

  predicate NextGreyed(cp: Num, tp: int) {
    cp == Int(tp)
  }

  /**
   * On a real page the links are greyed out exactly when they do nothing, and they lead to real
   * pages. Past the last page (a hand-edited URL) Next looks active but does nothing.
   */
  lemma NavigationLinks(cp: int, tp: int)
    ensures 1 <= cp <= tp ==> (PreviousTarget(Int(cp)).None? <==> PreviousGreyed(Int(cp)))
    ensures 1 <= cp <= tp ==> (NextTarget(Int(cp), tp).None? <==> NextGreyed(Int(cp), tp))
    ensures 1 <= cp <= tp && PreviousTarget(Int(cp)).Some? ==> 1 <= PreviousTarget(Int(cp)).value <= tp
    ensures 1 <= cp <= tp && NextTarget(Int(cp), tp).Some? ==> 1 <= NextTarget(Int(cp), tp).value <= tp
    ensures cp > tp ==> NextTarget(Int(cp), tp).None? && !NextGreyed(Int(cp), tp)
  {
  }

  // ----- rewriting the URL -----

  /** `handlePageChange(page)`: `page` is set to the decimal numeral of the new page. */
  function PageChange(q: Params, page: int): (r: Params)
    ensures Values(r, "page") == [IntToString(page)]
    ensures forall other :: other != "page" ==> Values(r, other) == Values(q, other)
  {
    Set(q, "page", IntToString(page))
  }

  /** After a page change the page reads back as the page chosen, for a `parseInt` that reads numerals. */
  lemma PageChangeReadsBack(q: Params, page: int, parseInt: string -> Num)
    requires forall n :: parseInt(IntToString(n)) == Int(n)
    ensures CurrentPage(PageChange(q, page), parseInt) == Int(page)
  {
  }

  /**
   * `removeFilter(key)`: `key` is deleted, `subCategory` too when the key is `category`, and the
   * page is reset to "1"; every other key keeps its values.
   */
  function RemoveFilter(q: Params, key: string): (r: Params)
    ensures Values(r, "page") == ["1"]
    ensures key != "page" ==> Values(r, key) == []
    ensures key == "category" ==> Values(r, "subCategory") == []
    ensures forall other ::
        other != key && other != "page" && !(key == "category" && other == "subCategory") ==>
          Values(r, other) == Values(q, other)
  {
    var q1 := Delete(q, key);
    var q2 := if key == "category" then Delete(q1, "subCategory") else q1;
    Set(q2, "page", "1")
  }

  /** Removing a chip turns it off: after removing `ai`, `subCategory` or a price, that filter no longer counts. */
  lemma RemoveFilterClearsChip(q: Params, key: string)
    requires key == "ai" || key == "subCategory" || key == "minPrice" || key == "maxPrice"
    ensures key == "ai" ==> !IsAiSearch(RemoveFilter(q, key))
    ensures key != "ai" ==> !Truthy(Get(RemoveFilter(q, key), key))
  {
  }
}
