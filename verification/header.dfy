/**
 * The site header's search form: its state is read from the URL, and submitting it navigates to
 * the search page with one parameter per filled-in field.
 */
module Header {
  import opened Wrappers
  import opened Text
  import opened Query
  import opened ItemApi
  import Categories

  /** The form state: five text fields (empty when unset) and the AI-search toggle. */
  datatype FilterForm = FilterForm(
    searchQuery: string,
    category: string,
    subCategory: string,
    minPrice: string,
    maxPrice: string,
    ai: bool)

  /** `searchParams.get(key) || ''`. */
  function Field(q: Params, key: string): (r: string)
    ensures Truthy(Get(q, key)) ==> r == Get(q, key).value
    ensures !Truthy(Get(q, key)) ==> r == ""
  {
    OrElse(Get(q, key), "")
  }

  /** The form state taken from the URL, on first render and whenever the URL changes. */
  function SyncFromUrl(q: Params): (r: FilterForm)
    ensures r.ai <==> Get(q, "ai") == Some("true")
    ensures r.searchQuery == Field(q, "q") && r.category == Field(q, "category")
    ensures r.subCategory == Field(q, "subCategory")
    ensures r.minPrice == Field(q, "minPrice") && r.maxPrice == Field(q, "maxPrice")
  {
    FilterForm(Field(q, "q"), Field(q, "category"), Field(q, "subCategory"),
               Field(q, "minPrice"), Field(q, "maxPrice"), Get(q, "ai") == Some("true"))
  }

  /** A URL without parameters gives the empty form with AI search off. */
  lemma SyncFromEmptyUrl()
    ensures SyncFromUrl([]) == FilterForm("", "", "", "", "", false)
  {
  }

  /** A value for a text field that is set only when non-empty. */
  function Present(v: string): (r: seq<string>)
    ensures |r| <= 1 && (|r| == 1 <==> v != "")
    ensures |r| == 1 ==> r[0] == v
  {
    if v != "" then [v] else []
  }

  /** The blocks of `navigateWithFilters`, in the order its record is built. */
  function NavigateBlocks(f: FilterForm): seq<(string, seq<string>)> {
    [("page", ["1"]),
     ("q", if Trim(f.searchQuery) != "" then [f.searchQuery] else []),
     ("ai", if f.ai then ["true"] else []),
     ("category", Present(f.category)),
     ("subCategory", Present(f.subCategory)),
     ("minPrice", Present(f.minPrice)),
     ("maxPrice", Present(f.maxPrice))]
  }

  /** The names `navigateWithFilters` may set. */
  const NavigateKeys := ["page", "q", "ai", "category", "subCategory", "minPrice", "maxPrice"]

  /** The seven names are pairwise different; the three of length eight differ in their first two letters. */
  lemma NavigateKeysDistinct()
    ensures forall i, j :: 0 <= i < j < |NavigateKeys| ==> NavigateKeys[i] != NavigateKeys[j]
  {
    assert "category"[0] != "minPrice"[0] && "category"[0] != "maxPrice"[0];
    assert "minPrice"[1] != "maxPrice"[1];
  }

  lemma NavigateBlocksDistinct(f: FilterForm)
    ensures DistinctKeys(NavigateBlocks(f))
    ensures BlockKeys(NavigateBlocks(f)) == NavigateKeys
  {
    var bs := NavigateBlocks(f);
    assert BlockKeys(bs) == NavigateKeys;
    NavigateKeysDistinct();
    forall i, j | 0 <= i < j < |bs|
      ensures bs[i].0 != bs[j].0
    {
      assert bs[i].0 == NavigateKeys[i] && bs[j].0 == NavigateKeys[j];
    }
  }

  /** The parameters `navigateWithFilters` puts in the URL: each name with its block's values, and no other name. */
  function NavigateParams(f: FilterForm): (r: Params)
    ensures forall i :: 0 <= i < |NavigateKeys| ==> Values(r, NavigateKeys[i]) == NavigateBlocks(f)[i].1
    ensures forall key :: key !in NavigateKeys ==> Values(r, key) == []
  {
    var bs := NavigateBlocks(f);
    NavigateBlocksDistinct(f);
    forall i | 0 <= i < |NavigateKeys|
      ensures Values(Flatten(bs), NavigateKeys[i]) == bs[i].1
    {
      FlattenValuesAt(bs, i);
    }
    forall key | key !in NavigateKeys
      ensures Values(Flatten(bs), key) == []
    {
      FlattenValuesAbsent(bs, key);
    }
    Flatten(bs)
  }

  /**
   * Key by key: always page 1; the query, untrimmed, only when it has a non-space character;
   * `ai=true` only in AI mode; every other field only when non-empty.
   */
  lemma NavigateParamsValues(f: FilterForm)
    ensures var r := NavigateParams(f);
      && Values(r, "page") == ["1"]
      && Values(r, "q") == (if Trim(f.searchQuery) != "" then [f.searchQuery] else [])
      && Values(r, "ai") == (if f.ai then ["true"] else [])
      && Values(r, "category") == Present(f.category)
      && Values(r, "subCategory") == Present(f.subCategory)
      && Values(r, "minPrice") == Present(f.minPrice)
      && Values(r, "maxPrice") == Present(f.maxPrice)
  {
    var r := NavigateParams(f);
    assert Values(r, NavigateKeys[0]) == NavigateBlocks(f)[0].1;
    assert Values(r, NavigateKeys[1]) == NavigateBlocks(f)[1].1;
    assert Values(r, NavigateKeys[2]) == NavigateBlocks(f)[2].1;
    assert Values(r, NavigateKeys[3]) == NavigateBlocks(f)[3].1;
    assert Values(r, NavigateKeys[4]) == NavigateBlocks(f)[4].1;
    assert Values(r, NavigateKeys[5]) == NavigateBlocks(f)[5].1;
    assert Values(r, NavigateKeys[6]) == NavigateBlocks(f)[6].1;
  }

  /** The address navigated to: the search page with the parameters serialised after `?`. */
  function NavigateUrl(f: FilterForm): (r: string)
    ensures |r| > |"/search?"| && r[..|"/search?"|] == "/search?"
  {
    "/search?" + Serialize(NavigateParams(f))
  }

  /**
   * Submitting the form and reading it back from the new URL gives the same form, except that a
   * query of white space only is dropped.
   */
  lemma NavigateThenSync(f: FilterForm)
    ensures SyncFromUrl(NavigateParams(f)) == f.(searchQuery := if Trim(f.searchQuery) == "" then "" else f.searchQuery)
  {
    var g := SyncFromUrl(NavigateParams(f));
    NavigateParamsValues(f);
    assert g.ai == f.ai;
    assert g.category == f.category;
    assert g.subCategory == f.subCategory;
    assert g.minPrice == f.minPrice;
    assert g.maxPrice == f.maxPrice;
    if Trim(f.searchQuery) != "" {
      // a query with a non-space character is non-empty, so it reads back as itself
      TrimEmptyIff(f.searchQuery);
      assert g.searchQuery == f.searchQuery;
    }
  }

  /** `clearFilters`: the four filter fields are emptied; the query and the AI toggle stay. */
  function ClearFilters(f: FilterForm): (r: FilterForm)
    ensures r.searchQuery == f.searchQuery && r.ai == f.ai
    ensures r.category == "" && r.subCategory == "" && r.minPrice == "" && r.maxPrice == ""
  {
    f.(category := "", subCategory := "", minPrice := "", maxPrice := "")
  }

  /** `selectedSubCategory || minPrice || maxPrice`: the dot on the filter button. */
  predicate HasActiveFilters(f: FilterForm) {
    f.subCategory != "" || f.minPrice != "" || f.maxPrice != ""
  }

  /** After clearing, no filter is active and a submit carries only the page, the query and the toggle. */
  lemma ClearedFormNavigates(f: FilterForm)
    ensures !HasActiveFilters(ClearFilters(f))
    ensures forall key :: key != "page" && key != "q" && key != "ai" ==> Values(NavigateParams(ClearFilters(f)), key) == []
  {
    var g := ClearFilters(f);
    forall key | key != "page" && key != "q" && key != "ai"
      ensures Values(NavigateParams(g), key) == []
    {
      if key in NavigateKeys {
        // the first three blocks are page, q and ai; the other four are empty once cleared
        var i :| 0 <= i < |NavigateKeys| && NavigateKeys[i] == key;
        assert 3 <= i && NavigateBlocks(g)[i].1 == [];
      }
    }
  }

  /** A category alone does not light the filter dot. */
  lemma CategoryIsNotAnActiveFilter(f: FilterForm, c: string)
    ensures HasActiveFilters(f.(category := c)) <==> HasActiveFilters(f)
  {
  }

  /** Choosing a category in the select: the sub-category is always reset. */
  function SelectCategory(f: FilterForm, c: string): (r: FilterForm)
    ensures r.category == c && r.subCategory == ""
    ensures r.searchQuery == f.searchQuery && r.minPrice == f.minPrice && r.maxPrice == f.maxPrice && r.ai == f.ai
  {
    f.(category := c, subCategory := "")
  }

  /** The AI toggle button. */
  function ToggleAi(f: FilterForm): (r: FilterForm)
    ensures r.ai != f.ai && r.(ai := f.ai) == f
  {
    f.(ai := !f.ai)
  }

  /**
   * `selectedCategory ? CATEGORIES[selectedCategory] || [] : []`: the sub-category options, shown
   * only when non-empty, which is exactly when a known category is selected.
   */
  function SubCategoryOptions(f: FilterForm): (r: seq<string>)
    ensures |r| > 0 <==> Categories.IsCategory(f.category)
    ensures Categories.IsCategory(f.category) ==>
      exists k :: 0 <= k < |Categories.Table| && Categories.Table[k] == (f.category, r)
  {
    if f.category != "" then Categories.SubCategoriesOf(f.category) else []
  }
}
