/** The fields and rules the post and edit forms share: required fields, the category select and image limits. */
module ListingForm {
  import opened Seqs
  import Categories

  /** The seven text fields of a listing form, `''` when empty. */
  datatype Fields = Fields(
    itemName: string,
    itemPrice: string,
    itemDescription: string,
    itemCategory: string,
    itemSubCategory: string,
    location: string,
    condition: string)

  const EmptyFields := Fields("", "", "", "", "", "", "")

  /** The `name` attributes of the inputs. */
  datatype FieldName =
    | ItemName | ItemPrice | ItemDescription | ItemCategory | ItemSubCategory | Location | Condition

  /** The value a field holds. */
  function FieldValue(f: Fields, n: FieldName): string {
    match n
    case ItemName => f.itemName
    case ItemPrice => f.itemPrice
    case ItemDescription => f.itemDescription
    case ItemCategory => f.itemCategory
    case ItemSubCategory => f.itemSubCategory
    case Location => f.location
    case Condition => f.condition
  }

  /** `{ ...formData, [name]: value }`: that field takes the value and every other field keeps its own. */
  function WithField(f: Fields, n: FieldName, v: string): (r: Fields)
    ensures FieldValue(r, n) == v
    ensures forall m :: m != n ==> FieldValue(r, m) == FieldValue(f, m)
  {
    match n
    case ItemName => f.(itemName := v)
    case ItemPrice => f.(itemPrice := v)
    case ItemDescription => f.(itemDescription := v)
    case ItemCategory => f.(itemCategory := v)
    case ItemSubCategory => f.(itemSubCategory := v)
    case Location => f.(location := v)
    case Condition => f.(condition := v)
  }

  /** The four fields both forms require before they send anything. */
  predicate Required(n: FieldName) {
    n == ItemName || n == ItemPrice || n == ItemCategory || n == ItemSubCategory
  }

  /** `itemName && itemPrice && itemCategory && itemSubCategory`. */
  predicate Complete(f: Fields) {
    f.itemName != "" && f.itemPrice != "" && f.itemCategory != "" && f.itemSubCategory != ""
  }

  /** A form is complete exactly when no required field is empty; the other three may be. */
  lemma CompleteIffRequiredFilled(f: Fields)
    ensures Complete(f) <==> forall n :: Required(n) ==> FieldValue(f, n) != ""
  {
    if !Complete(f) {
      if f.itemName == "" { assert Required(ItemName); }
      else if f.itemPrice == "" { assert Required(ItemPrice); }
      else if f.itemCategory == "" { assert Required(ItemCategory); }
      else { assert Required(ItemSubCategory) && FieldValue(f, ItemSubCategory) == ""; }
    }
  }

  /** Choosing a category: the category takes the value and the sub-category is reset to `''`. */
  function ChooseCategory(f: Fields, category: string): (r: Fields)
    ensures r.itemCategory == category && r.itemSubCategory == ""
    ensures forall m :: m != ItemCategory && m != ItemSubCategory ==> FieldValue(r, m) == FieldValue(f, m)
  {
    WithField(WithField(f, ItemCategory, category), ItemSubCategory, "")
  }

  /** A new category always leaves the form incomplete until a sub-category is chosen again. */
  lemma ChoosingCategoryNeedsSubCategory(f: Fields, category: string)
    ensures !Complete(ChooseCategory(f, category))
  {
  }

  /** `formData.itemCategory ? CATEGORIES[formData.itemCategory] || [] : []`. */
  function SubCategoryOptions(f: Fields): (r: seq<string>)
    ensures |r| > 0 <==> Categories.IsCategory(f.itemCategory)
    ensures f.itemCategory == "" ==> r == []
    ensures Categories.IsCategory(f.itemCategory) ==>
      exists k :: 0 <= k < |Categories.Table| && Categories.Table[k] == (f.itemCategory, r)
  {
    if f.itemCategory != "" then Categories.SubCategoriesOf(f.itemCategory) else []
  }

  /** An image selection is taken only when the images then held stay within the limit. */
  predicate WithinLimit(held: nat, incoming: nat, limit: nat) {
    held + incoming <= limit
  }

  /** The outcome of choosing files: the new list, and whether the files were taken. */
  datatype Added<F> = Added(files: seq<F>, accepted: bool)

  /**
   * Append `incoming` to `files` unless the images held (`others` besides `files`) would exceed
   * `limit`; a rejected selection changes nothing.
   */
  function AddFiles<F>(files: seq<F>, others: nat, incoming: seq<F>, limit: nat): (r: Added<F>)
    ensures r.accepted <==> others + |files| + |incoming| <= limit
    ensures r.accepted ==> r.files == files + incoming
    ensures !r.accepted ==> r.files == files
    ensures others + |files| <= limit ==> others + |r.files| <= limit
  {
    if others + |files| + |incoming| > limit then Added(files, false) else Added(files + incoming, true)
  }

  /**
   * The upload tile is shown exactly when one more image would be taken; when it is hidden every
   * non-empty selection is rejected.
   */
  lemma UploadTileMeansRoom<F>(files: seq<F>, others: nat, limit: nat, one: F, more: seq<F>)
    ensures others + |files| < limit <==> AddFiles(files, others, [one], limit).accepted
    ensures others + |files| >= limit ==> !AddFiles(files, others, [one] + more, limit).accepted
  {
  }

  /**
   * Removing index `i` from two parallel lists with `filter((_, k) => k !== i)` keeps them
   * parallel: equal lengths, and the k-th remaining pair is the original pair at k before the
   * removed index and at k + 1 from it on, so each file still sits beside its own preview.
   */
  lemma {:induction false} RemoveKeepsAligned<F, P>(files: seq<F>, previews: seq<P>, i: int)
    requires |files| == |previews|
    ensures |RemoveIndex(files, i)| == |RemoveIndex(previews, i)|
    ensures forall k :: 0 <= k < |RemoveIndex(files, i)| && !(0 <= i <= k) ==>
      RemoveIndex(files, i)[k] == files[k] && RemoveIndex(previews, i)[k] == previews[k]
    ensures forall k :: 0 <= k < |RemoveIndex(files, i)| && 0 <= i <= k ==>
      RemoveIndex(files, i)[k] == files[k + 1] && RemoveIndex(previews, i)[k] == previews[k + 1]
  {
    forall k | 0 <= k < |RemoveIndex(files, i)|
      ensures 0 <= i <= k ==> RemoveIndex(files, i)[k] == files[k + 1] && RemoveIndex(previews, i)[k] == previews[k + 1]
      ensures !(0 <= i <= k) ==> RemoveIndex(files, i)[k] == files[k] && RemoveIndex(previews, i)[k] == previews[k]
    {
      RemoveIndexAt(files, i, k);
      RemoveIndexAt(previews, i, k);
    }
  }
}
