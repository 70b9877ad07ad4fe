/** The records the pages exchange with the backend, with absent JSON fields as `None`. */
module Domain {
  import opened Wrappers
  import Text

  const PENDING := "PENDING"
  const APPROVED := "APPROVED"
  const REJECTED := "REJECTED"
  const SOLD := "SOLD"

  const ADMIN := "ADMIN"
  const SUPER_ADMIN := "SUPER_ADMIN"

  /** A listing as the item endpoints return it. */
  datatype Item = Item(
    id: string,                      // `_id`
    name: Option<string>,            // `itemName`
    price: Option<int>,              // `itemPrice`
    description: Option<string>,     // `itemDescription`
    category: Option<string>,        // `itemCategory`
    subCategory: Option<string>,     // `itemSubCategory`
    location: Option<string>,
    condition: Option<string>,
    status: Option<string>,
    views: Option<int>,
    images: Option<seq<string>>,     // `itemImages`
    createdAt: Option<string>,       // an ISO date-time
    sellerIdPhone: Option<string>,   // `sellerId.phone` when the seller is populated
    sellerPhone: Option<string>,     // `sellerPhone`
    sellerObjPhone: Option<string>)  // `seller.phone`

  /** The signed-in identity kept in the session store. */
  datatype User = User(email: Option<string>, roles: Option<seq<string>>)

  /** A row of the admin user list. */
  datatype Account = Account(id: string, email: Option<string>, roles: Option<seq<string>>)

  /** `roles?.includes(role)`: false when the roles array is absent. */
  predicate HasRole(roles: Option<seq<string>>, role: string) {
    roles.Some? && role in roles.value
  }

  /** `item.status === s`. */
  predicate HasStatus(it: Item, s: string) {
    it.status == Some(s)
  }

  predicate IsApproved(it: Item) {
    HasStatus(it, APPROVED)
  }

  predicate IsPending(it: Item) {
    HasStatus(it, PENDING)
  }

  /** `item.status || 'PENDING'`: the badge text; an absent or empty status reads as pending. */
  function DisplayStatus(it: Item): (r: string)
    ensures Text.Truthy(it.status) ==> r == it.status.value
    ensures !Text.Truthy(it.status) ==> r == PENDING
  {
    Text.OrElse(it.status, PENDING)
  }

  /** A list response: either a bare array or an object whose `data` field may hold the array. */
  datatype ListBody<T> = Array(elems: seq<T>) | Object(data: Option<seq<T>>)

  /** `Array.isArray(response) ? response : response.data || []`. */
  function Normalise<T>(b: ListBody<T>): (r: seq<T>)
    ensures b.Array? ==> r == b.elems
    ensures b.Object? && b.data.Some? ==> r == b.data.value
    ensures b.Object? && b.data.None? ==> r == []
  {
    match b
    case Array(xs) => xs
    case Object(d) => d.GetOr([])
  }

  /** The outcome of an awaited request: a thrown error or the parsed body. */
  datatype Fetched<T> = Failed | Got(body: T)

  /** What a page's mount effect does: navigate elsewhere, or stay and load its data. */
  datatype Guard = Redirect(path: string) | Proceed
}
