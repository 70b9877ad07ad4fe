/**
 * The listing page: similar items from the same category, the favourite button, the seller's
 * phone and WhatsApp link, and the description with escaped line breaks turned into real ones.
 */
module ItemDetail {
  import opened Wrappers
  import opened Text
  import opened Seqs
  import opened Domain

  // ----- similar items -----

  /** The `data` field of the category response: absent, an array, or an object that may carry `items`. */
  datatype DataField = NoData | DataList(list: seq<Item>) | DataObject(items: Option<seq<Item>>)

  /** The category response: its `data` and its own `items`. */
  datatype CategoryReply = CategoryReply(data: DataField, items: Option<seq<Item>>)

  /**
   * `response.data?.items || response.items || response.data || []`. When `data` is an object
   * without `items` the object itself is chosen and `.filter` throws: `None`.
   */
  function CandidateItems(reply: CategoryReply): (r: Option<seq<Item>>)
    ensures reply.data.DataObject? && reply.data.items.Some? ==> r == reply.data.items
    ensures !(reply.data.DataObject? && reply.data.items.Some?) && reply.items.Some? ==> r == reply.items
    ensures r.None? <==> reply.data == DataObject(None) && reply.items.None?
    ensures reply.data == NoData && reply.items.None? ==> r == Some([])
    ensures reply.data.DataList? && reply.items.None? ==> r == Some(reply.data.list)
  {
    if reply.data.DataObject? && reply.data.items.Some? then reply.data.items
    else if reply.items.Some? then reply.items
    else match reply.data
      case DataList(xs) => Some(xs)
      case DataObject(_) => None
      case NoData => Some([])
  }

  /** `items.filter(i => i._id !== id).slice(0, 4)`. */
  function Similar(items: seq<Item>, id: string): seq<Item> {
    Take(Filter((i: Item) => i.id != id, items), 4)
  }

  /**
   * At most four similar items, none of them the item on screen: the first other items of the
   * category, in the order it returned them; fewer than four only when it has no more other items.
   */
  lemma SimilarItemsProperties(items: seq<Item>, id: string)
    ensures |Similar(items, id)| <= 4
    ensures forall k :: 0 <= k < |Similar(items, id)| ==> Similar(items, id)[k].id != id && Similar(items, id)[k] in items
    ensures IsSubsequence(Similar(items, id), items)
    ensures forall k :: 0 <= k < |Similar(items, id)| ==> Similar(items, id)[k] == Filter((i: Item) => i.id != id, items)[k]
    ensures |Similar(items, id)| < 4 ==> |Similar(items, id)| == Count((i: Item) => i.id != id, items)
  {
    var p := (i: Item) => i.id != id;
    var f := Filter(p, items);
    FilterIsSubsequence(p, items);
    CountIsFilterLength(p, items);
    TakeIsSubsequence(f, 4);
    SubsequenceTransitive(Take(f, 4), f, items);
  }

  // ----- favourites -----

  /**
   * The favourite check on load: made only with a stored token and an id; afterwards the flag is
   * whether some favourite has this id. `None` means the flag is left alone (no check, or a failed one).
   */
  function CheckFavorite(token: Option<string>, id: Option<string>, response: Fetched<Option<seq<Item>>>): (r: Option<bool>)
    ensures !Truthy(token) || !Truthy(id) ==> r.None?
    ensures Truthy(token) && Truthy(id) && response.Failed? ==> r.None?
    ensures Truthy(token) && Truthy(id) && response.Got? ==> r.Some?
    ensures r.Some? ==> (r.value <==> exists k :: 0 <= k < |response.body.GetOr([])| && response.body.GetOr([])[k].id == id.value)
  {
    if !Truthy(token) || !Truthy(id) then None
    else match response
      case Failed => None
      case Got(favs) => Some(exists k :: 0 <= k < |favs.GetOr([])| && favs.GetOr([])[k].id == id.value)
  }

  /** The request the favourite button sends. */
  datatype FavoriteCall = NoCall | AddFavorite | RemoveFavorite

  /**
   * `handleFavorite`: the request made, and the flag afterwards. `completed` says the awaited call
   * did not throw; `addFavorite` and `removeFavorite` never look at the HTTP status, so an error
   * reply with a JSON body (a 401 or a 500) completes too and flips the flag.
   */
  function ToggleFavorite(token: Option<string>, isFavorite: bool, completed: bool): (r: (FavoriteCall, bool))
    ensures r.0 == NoCall <==> !Truthy(token)
    ensures r.0 == RemoveFavorite <==> Truthy(token) && isFavorite
    ensures r.0 == NoCall || !completed ==> r.1 == isFavorite
    ensures r.0 != NoCall && completed ==> r.1 == !isFavorite
  {
    if !Truthy(token) then (NoCall, isFavorite)
    else if isFavorite then (RemoveFavorite, if completed then false else isFavorite)
    else (AddFavorite, if completed then true else isFavorite)
  }

  /** Two presses whose calls both complete restore the flag. */
  lemma ToggleTwice(token: Option<string>, isFavorite: bool)
    ensures ToggleFavorite(token, ToggleFavorite(token, isFavorite, true).1, true).1 == isFavorite
  {
  }

  // ----- the seller's phone -----

  /** `item.sellerId?.phone || item.sellerPhone || item.seller?.phone`, when one of them is non-empty. */
  function Phone(it: Item): (r: Option<string>)
    ensures r.Some? <==> Truthy(it.sellerIdPhone) || Truthy(it.sellerPhone) || Truthy(it.sellerObjPhone)
    ensures Truthy(it.sellerIdPhone) ==> r == it.sellerIdPhone
    ensures !Truthy(it.sellerIdPhone) && Truthy(it.sellerPhone) ==> r == it.sellerPhone
    ensures !Truthy(it.sellerIdPhone) && !Truthy(it.sellerPhone) ==> r == if Truthy(it.sellerObjPhone) then it.sellerObjPhone else None
  {
    if Truthy(it.sellerIdPhone) then it.sellerIdPhone
    else if Truthy(it.sellerPhone) then it.sellerPhone
    else if Truthy(it.sellerObjPhone) then it.sellerObjPhone
    else None
  }

  /** The phone is the `||` chain of the three fields, in the order the page writes them. */
  lemma PhoneIsFirstTruthy(it: Item)
    ensures Phone(it) == FirstTruthy([it.sellerIdPhone, it.sellerPhone, it.sellerObjPhone])
  {
    var xs := [it.sellerIdPhone, it.sellerPhone, it.sellerObjPhone];
    if !Truthy(xs[0]) && !Truthy(xs[1]) && !Truthy(xs[2]) {
      assert forall k :: 0 <= k < |xs| ==> !Truthy(xs[k]);
    }
  }

  /** The button text once the number is revealed. */
  function PhoneLabel(it: Item): (r: string)
    ensures Phone(it).Some? ==> r == Phone(it).value
    ensures Phone(it).None? ==> r == "No phone available"
  {
    if Phone(it).Some? then Phone(it).value else "No phone available"
  }

  /** The WhatsApp link: the digits of the phone (or of `''`) after `https://wa.me/`. */
  method WhatsAppUrl(it: Item) returns (url: string)
    ensures url == "https://wa.me/" + Digits(Phone(it).GetOr(""))
  {
    var digits := StripNonDigits(Phone(it).GetOr(""));
    url := "https://wa.me/" + digits;
  }

  /** The link keeps exactly the digits of the phone, in order, each as often as it occurs. */
  lemma {:induction false} WhatsAppDigits(s: string)
    ensures forall k :: 0 <= k < |Digits(s)| ==> IsDigit(Digits(s)[k])
    ensures Digits(s) == Filter(IsDigit, s)
    ensures IsSubsequence(Digits(s), s)
    ensures forall c :: IsDigit(c) ==> multiset(Digits(s))[c] == multiset(s)[c]
  {
    DigitsIsFilter(s);
    FilterIsSubsequence(IsDigit, s);
    forall c | IsDigit(c) ensures multiset(Digits(s))[c] == multiset(s)[c] {
      DigitsKeepsDigitCounts(s, c);
    }
  }

  lemma {:induction false} DigitsIsFilter(s: string)
    ensures Digits(s) == Filter(IsDigit, s)
  {
    if |s| > 0 {
      DigitsIsFilter(s[1..]);
    }
  }

  // ----- the description -----

  const PLACEHOLDER := "No description provided."

  /** `.replace(/\\r\\n/g, '\n').replace(/\\n/g, '\n')`: the escape texts `\r\n` and `\n` become line breaks. */
  function Unescape(s: string): string {
    ReplaceAll(ReplaceAll(s, ['\\', 'r', '\\', 'n'], "\n"), ['\\', 'n'], "\n")
  }

  /** The description paragraph: the unescaped text, or the placeholder when there is no text. */
  function Description(d: Option<string>): (r: string)
    ensures !Truthy(d) ==> r == PLACEHOLDER
    ensures Truthy(d) ==> r == Unescape(d.value)
  {
    if d.None? then PLACEHOLDER
    else
      var u := Unescape(d.value);
      ReplaceAllNonEmpty(d.value, ['\\', 'r', '\\', 'n'], "\n");
      ReplaceAllNonEmpty(ReplaceAll(d.value, ['\\', 'r', '\\', 'n'], "\n"), ['\\', 'n'], "\n");
      if u == "" then PLACEHOLDER else u
  }

  /** No escape text `\n` is left in a shown description, and text without a backslash is shown as written. */
  lemma DescriptionUnescaped(d: Option<string>)
    ensures Truthy(d) ==> !Contains(Description(d), ['\\', 'n'])
    ensures Truthy(d) && (forall k :: 0 <= k < |d.value| ==> d.value[k] != '\\') ==> Description(d) == d.value
  {
    if Truthy(d) {
      var s := d.value;
      var once := ReplaceAll(s, ['\\', 'r', '\\', 'n'], "\n");
      ReplaceAllRemovesPair(once, ['\\', 'n'], '\n');
      if forall k :: 0 <= k < |s| ==> s[k] != '\\' {
        NoBackslashNoEscape(s, ['\\', 'r', '\\', 'n']);
        ReplaceAllAbsent(s, ['\\', 'r', '\\', 'n'], "\n");
        NoBackslashNoEscape(s, ['\\', 'n']);
        ReplaceAllAbsent(s, ['\\', 'n'], "\n");
      }
    }
  }

  lemma NoBackslashNoEscape(s: string, pat: string)
    requires |pat| > 0 && pat[0] == '\\'
    requires forall k :: 0 <= k < |s| ==> s[k] != '\\'
    ensures !Contains(s, pat)
  {
    forall k: int | 0 <= k <= |s|
      ensures !OccursAt(s, pat, k)
    {
      if k + |pat| <= |s| {
        assert s[k..k + |pat|][0] == s[k];
      }
    }
  }
}
