/** Editing a listing: the page guard, the form prefilled from the item, and the five-image limit. */
module EditItem {
  import opened Wrappers
  import opened Text
  import opened Seqs
  import opened Domain
  import opened AuthContext
  import opened ListingForm

  const MAX_IMAGES := 5

  /** The mount effect: signed-out visitors go to sign in; anyone signed in loads the item. */
  function PageGuard(user: Option<User>): (r: Guard)
    ensures r == Proceed <==> IsAuthenticated(user)
    ensures r != Proceed ==> r == Redirect("/auth")
  {
    if !IsAuthenticated(user) then Redirect("/auth") else Proceed
  }

  /** `item.field || ''`. */
  function TextOf(x: Option<string>): (r: string)
    ensures r == "" <==> !Truthy(x)
    ensures Truthy(x) ==> r == x.value
  {
    OrElse(x, "")
  }

  /** `item.itemPrice?.toString() || ''`: a price of 0 still gives "0". */
  function PriceText(price: Option<int>): (r: string)
    ensures price.None? <==> r == ""
    ensures price.Some? ==> r == IntToString(price.value)
  {
    if price.Some? then IntToString(price.value) else ""
  }

  /** The form as the fetched item fills it: absent fields become `''`. */
  function Prefill(it: Item): (r: Fields)
    ensures r.itemName == TextOf(it.name) && r.itemPrice == PriceText(it.price)
    ensures r.itemDescription == TextOf(it.description)
    ensures r.itemCategory == TextOf(it.category) && r.itemSubCategory == TextOf(it.subCategory)
    ensures r.location == TextOf(it.location) && r.condition == TextOf(it.condition)
  {
    Fields(TextOf(it.name), PriceText(it.price), TextOf(it.description), TextOf(it.category),
           TextOf(it.subCategory), TextOf(it.location), TextOf(it.condition))
  }

  /** `item.itemImages || []`. */
  function PrefillImages(it: Item): (r: seq<string>)
    ensures it.images.None? ==> r == []
    ensures it.images.Some? ==> r == it.images.value
  {
    it.images.GetOr([])
  }

  /**
   * The prefilled form can be submitted unchanged exactly when the item has a name, a price, a
   * category and a sub-category.
   */
  lemma PrefillCompleteIff(it: Item)
    ensures Complete(Prefill(it)) <==>
      Truthy(it.name) && it.price.Some? && Truthy(it.category) && Truthy(it.subCategory)
  {
  }

  /** The images of the form: the kept URLs, the newly chosen files and their previews. */
  datatype Images<F> = Images(existing: seq<string>, newFiles: seq<F>, previews: seq<string>)

  function Held<F>(st: Images<F>): nat {
    |st.existing| + |st.newFiles|
  }

  /** `handleImageChange`: the files are appended unless the total would pass five; previews arrive later. */
  function ChooseFiles<F>(st: Images<F>, files: seq<F>): (r: (Images<F>, bool))
    ensures r.1 <==> Held(st) + |files| <= MAX_IMAGES
    ensures !r.1 ==> r.0 == st
    ensures r.1 ==> r.0 == st.(newFiles := st.newFiles + files)
    ensures Held(st) <= MAX_IMAGES ==> Held(r.0) <= MAX_IMAGES
  {
    var a := AddFiles(st.newFiles, |st.existing|, files, MAX_IMAGES);
    (st.(newFiles := a.files), a.accepted)
  }

  /** `existingImages.length + newImages.length < 5`. */
  predicate ShowUploadTile<F>(st: Images<F>) {
    Held(st) < MAX_IMAGES
  }

  /** The tile is offered exactly when a single further file would be accepted. */
  lemma UploadTileIff<F>(st: Images<F>, f: F)
    ensures ShowUploadTile(st) <==> ChooseFiles(st, [f]).1
  {
  }

  /** `removeExistingImage(i)`: only the existing list changes, losing index `i`. */
  function RemoveExisting<F>(st: Images<F>, i: int): (r: Images<F>)
    ensures r.newFiles == st.newFiles && r.previews == st.previews
    ensures !(0 <= i < |st.existing|) ==> r.existing == st.existing
    ensures 0 <= i < |st.existing| ==> |r.existing| == |st.existing| - 1
    ensures 0 <= i < |st.existing| ==> forall k :: 0 <= k < i ==> r.existing[k] == st.existing[k]
    ensures 0 <= i < |st.existing| ==> forall k :: i <= k < |r.existing| ==> r.existing[k] == st.existing[k + 1]
  {
    st.(existing := RemoveIndex(st.existing, i))
  }

  /** `removeNewImage(i)`: the file and its preview at index `i` go together. */
  function RemoveNew<F>(st: Images<F>, i: int): (r: Images<F>)
    ensures r.existing == st.existing
    ensures 0 <= i < |st.newFiles| ==> r.newFiles == st.newFiles[..i] + st.newFiles[i + 1..]
    ensures !(0 <= i < |st.newFiles|) ==> r.newFiles == st.newFiles
    ensures 0 <= i < |st.previews| ==> r.previews == st.previews[..i] + st.previews[i + 1..]
    ensures !(0 <= i < |st.previews|) ==> r.previews == st.previews
    ensures |st.newFiles| == |st.previews| ==> |r.newFiles| == |r.previews|
  {
    st.(newFiles := RemoveIndex(st.newFiles, i), previews := RemoveIndex(st.previews, i))
  }

  /** `handleSubmit`: an update is sent only for an item id and a form whose every required field is filled. */
  function SendsUpdate(f: Fields, id: Option<string>): (r: bool)
    ensures r <==> Truthy(id) && forall n :: Required(n) ==> FieldValue(f, n) != ""
  {
    CompleteIffRequiredFilled(f);
    Truthy(id) && Complete(f)
  }
}
