/** Posting a listing (behind `AuthContext.SellerPageGuard`): field changes, the eight-image limit and what counts as success. */
module PostItem {
  import opened Wrappers
  import opened Text
  import opened Seqs
  import opened Domain
  import opened AuthContext
  import opened ListingForm

  const MAX_IMAGES := 8

  /** `handleSelectChange(name, value)`: choosing the category also resets the sub-category. */
  function SelectChange(f: Fields, n: FieldName, v: string): (r: Fields)
    ensures FieldValue(r, n) == v
    ensures n == ItemCategory ==> r == ChooseCategory(f, v)
    ensures n != ItemCategory ==> r == WithField(f, n, v)
  {
    var next := WithField(f, n, v);
    if n == ItemCategory then WithField(next, ItemSubCategory, "") else next
  }

  /** Only the category select touches the sub-category as a side effect. */
  lemma SelectChangeResets(f: Fields, n: FieldName, v: string)
    ensures n == ItemCategory ==> SelectChange(f, n, v).itemSubCategory == ""
    ensures n != ItemCategory && n != ItemSubCategory ==> SelectChange(f, n, v).itemSubCategory == f.itemSubCategory
    ensures forall m :: m != n && m != ItemSubCategory ==> FieldValue(SelectChange(f, n, v), m) == FieldValue(f, m)
  {
  }

  /** `handleImageChange`: the files are appended unless the list would pass eight; previews arrive later. */
  function ChooseFiles<F>(images: seq<F>, files: seq<F>): (r: (seq<F>, bool))
    ensures r.1 <==> |images| + |files| <= MAX_IMAGES
    ensures r.1 ==> r.0 == images + files
    ensures !r.1 ==> r.0 == images
    ensures |images| <= MAX_IMAGES ==> |r.0| <= MAX_IMAGES
  {
    var a := AddFiles(images, 0, files, MAX_IMAGES);
    (a.files, a.accepted)
  }

  /** `images.length < 8`: the tile is offered exactly when a single further file would be accepted. */
  predicate ShowUploadTile<F>(images: seq<F>) {
    |images| < MAX_IMAGES
  }

  lemma UploadTileIff<F>(images: seq<F>, f: F)
    ensures ShowUploadTile(images) <==> ChooseFiles(images, [f]).1
  {
  }

  /** `removeImage(i)`: the image and its preview at index `i` go together. */
  function RemoveImage<F>(images: seq<F>, previews: seq<string>, i: int): (r: (seq<F>, seq<string>))
    ensures 0 <= i < |images| ==> r.0 == images[..i] + images[i + 1..]
    ensures !(0 <= i < |images|) ==> r.0 == images
    ensures 0 <= i < |previews| ==> r.1 == previews[..i] + previews[i + 1..]
    ensures !(0 <= i < |previews|) ==> r.1 == previews
    ensures |images| == |previews| ==> |r.0| == |r.1|
    ensures 0 <= i < |images| ==> |r.0| == |images| - 1
  {
    (RemoveIndex(images, i), RemoveIndex(previews, i))
  }

  /** The reply of `itemAPI.add`: `_id`, whether `data` is truthy, and `message`. */
  datatype PostReply = PostReply(id: Option<string>, hasData: bool, message: Option<string>)

  /** What submitting does. */
  datatype Submitted =
    | Incomplete                  // "Please fill all required fields", nothing sent
    | Posted                      // "Your ad has been posted!", then the dashboard
    | Refused(message: string)    // the server's message, or "Failed to post ad"
    | Broken                      // "Something went wrong"

  /** `handleSubmit`, given the outcome of the request it would send. */
  function Submit(f: Fields, response: Fetched<PostReply>): (r: Submitted)
    ensures r == Incomplete <==> !Complete(f)
    ensures r == Posted <==> Complete(f) && response.Got? && (Truthy(response.body.id) || response.body.hasData)
    ensures r == Broken <==> Complete(f) && response.Failed?
    ensures r.Refused? ==> r.message == OrElse(response.body.message, "Failed to post ad")
  {
    if !Complete(f) then Incomplete
    else match response
      case Failed => Broken
      case Got(reply) =>
        if Truthy(reply.id) || reply.hasData then Posted
        else Refused(OrElse(reply.message, "Failed to post ad"))
  }
}
