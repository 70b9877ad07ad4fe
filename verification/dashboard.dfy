/** The seller dashboard (behind `AuthContext.SellerPageGuard`): the status counters and the per-row actions and defaults. */
module Dashboard {
  import opened Wrappers
  import opened Seqs
  import opened Domain
  import opened AuthContext

  predicate IsSold(it: Item) {
    HasStatus(it, SOLD)
  }

  /** The four counters: total, Active (approved), Pending and Sold. */
  datatype Counters = Counters(total: nat, active: nat, pending: nat, sold: nat)

  /** The four counters: the list length and the number of approved, pending and sold items. */
  function StatusCounters(items: seq<Item>): (r: Counters)
    ensures r.total == |items|
    ensures r.active == Count(IsApproved, items)
    ensures r.pending == Count(IsPending, items)
    ensures r.sold == Count(IsSold, items)
  {
    CountIsFilterLength(IsApproved, items);
    CountIsFilterLength(IsPending, items);
    CountIsFilterLength(IsSold, items);
    Counters(|items|, |Filter(IsApproved, items)|, |Filter(IsPending, items)|, |Filter(IsSold, items)|)
  }

  /**
   * The three status counters never add up to more than the total, and they make up the total
   * exactly when every item is approved, pending or sold; rejected and status-less items are the
   * difference.
   */
  lemma CountersWithinTotal(items: seq<Item>)
    ensures var r := StatusCounters(items); r.active + r.pending + r.sold <= r.total
    ensures var r := StatusCounters(items); r.active + r.pending + r.sold == r.total <==>
      forall k :: 0 <= k < |items| ==> IsApproved(items[k]) || IsPending(items[k]) || IsSold(items[k])
  {
    ExclusiveCountsBounded(IsApproved, IsPending, IsSold, items);
    CountsCoverAll(items);
  }

  lemma {:induction false} CountsCoverAll(items: seq<Item>)
    ensures Count(IsApproved, items) + Count(IsPending, items) + Count(IsSold, items) == |items| <==>
      forall k :: 0 <= k < |items| ==> IsApproved(items[k]) || IsPending(items[k]) || IsSold(items[k])
  {
    if |items| > 0 {
      CountsCoverAll(items[1..]);
      ExclusiveCountsBounded(IsApproved, IsPending, IsSold, items[1..]);
      if forall k :: 0 <= k < |items[1..]| ==> IsApproved(items[1..][k]) || IsPending(items[1..][k]) || IsSold(items[1..][k]) {
        assert forall k :: 1 <= k < |items| ==> items[k] == items[1..][k - 1];
      } else {
        var k :| 0 <= k < |items[1..]| && !(IsApproved(items[1..][k]) || IsPending(items[1..][k]) || IsSold(items[1..][k]));
        assert items[k + 1] == items[1..][k];
      }
    }
  }

  /** An item without a status reads as pending but is counted under no status. */
  lemma MissingStatusNotCounted(items: seq<Item>, it: Item)
    requires it.status.None?
    ensures DisplayStatus(it) == PENDING
    ensures StatusCounters(items + [it]).pending == StatusCounters(items).pending
    ensures StatusCounters(items + [it]).total == StatusCounters(items).total + 1
  {
    CountAppendOne(IsPending, items, it);
  }

  /** `item.status !== 'SOLD'`: the mark-as-sold button. */
  predicate ShowMarkSold(it: Item) {
    it.status != Some(SOLD)
  }

  /** `item.views || 0`. */
  function DisplayViews(it: Item): (r: int)
    ensures it.views.None? ==> r == 0
    ensures it.views.Some? ==> r == it.views.value
  {
    it.views.GetOr(0)
  }
}
