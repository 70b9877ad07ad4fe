/** The fixed category table and its icons, in the order the selects list them. */
module Categories {
  import opened Wrappers

  /** `CATEGORIES`: each category with its sub-categories. */
  const Table: seq<(string, seq<string>)> := [
    ("Vehicles", ["Cars", "Motorbikes", "Three Wheelers", "Bicycles", "Vans", "Buses & Lorries", "Heavy Machinery", "Auto Parts"]),
    ("Property", ["Land", "Houses For Sale", "House Rentals", "Apartments", "Commercial Property"]),
    ("Electronics", ["Mobile Phones", "Computers & Tablets", "TVs", "Cameras", "Audio & MP3", "Video Games"]),
    ("Home & Garden", ["Furniture", "Home Appliances", "Garden", "Home Decor", "Kitchen Items"]),
    ("Fashion & Beauty", ["Clothing", "Shoes", "Jewelry", "Watches", "Beauty Products"]),
    ("Animals", ["Pets", "Pet Food", "Farm Animals"]),
    ("Hobby, Sport & Kids", ["Musical Instruments", "Sports & Fitness", "Children's Items", "Books"]),
    ("Business & Industry", ["Services", "Equipment", "Office Supplies"]),
    ("Education", ["Higher Education", "Textbooks", "Tuition"]),
    ("Agriculture", ["Food", "Crops", "Seeds & Plants"])
  ]

  /** `CATEGORY_ICONS`: one emoji per category. */
  const Icons: seq<(string, string)> := [
    ("Vehicles", "\U{1F697}"),
    ("Property", "\U{1F3E0}"),
    ("Electronics", "\U{1F4F1}"),
    ("Home & Garden", "\U{1F3E1}"),
    ("Fashion & Beauty", "\U{1F457}"),
    ("Animals", "\U{1F415}"),
    ("Hobby, Sport & Kids", "\U{26BD}"),
    ("Business & Industry", "\U{1F4BC}"),
    ("Education", "\U{1F4DA}"),
    ("Agriculture", "\U{1F33E}")
  ]

  /** `c` is a key of `CATEGORIES`. */
  predicate IsCategory(c: string) {
    exists k | 0 <= k < |Table| :: Table[k].0 == c
  }

  /**
   * Every category has at least one sub-category, no name is empty, no name occurs twice, and the
   * icon table lists the same keys.
   */
  lemma TableWellFormed()
    ensures |Table| == 10
    ensures forall i, j :: 0 <= i < j < |Table| ==> Table[i].0 != Table[j].0
    ensures forall k :: 0 <= k < |Table| ==> |Table[k].1| > 0 && Table[k].0 != ""
    ensures |Icons| == |Table| && forall k :: 0 <= k < |Icons| ==> Icons[k].0 == Table[k].0
  {
  }

  /**
   * `table[key]` over the table's own entries. An object literal keeps the last of duplicate keys;
   * this takes the first, which is the same entry for a table whose keys are distinct, as `Table`'s are.
   */
  function Lookup<V>(table: seq<(string, V)>, key: string): (r: Option<V>)
    ensures r.None? <==> forall k :: 0 <= k < |table| ==> table[k].0 != key
    ensures r.Some? ==> exists k :: 0 <= k < |table| && table[k] == (key, r.value)
  {
    if |table| == 0 then None
    else if table[0].0 == key then Some(table[0].1)
    else
      var r := Lookup(table[1..], key);
      assert forall k :: 0 < k < |table| ==> table[k] == table[1..][k - 1];
      r
  }

  /**
   * `category ? CATEGORIES[category] || [] : []`: the sub-categories offered for a selection;
   * an empty or unknown category offers none.
   */
  function SubCategoriesOf(category: string): (r: seq<string>)
    ensures |r| > 0 <==> IsCategory(category)
    ensures IsCategory(category) ==> exists k :: 0 <= k < |Table| && Table[k] == (category, r)
  {
    TableWellFormed();
    if category == "" then []
    else Lookup(Table, category).GetOr([])
  }
}
