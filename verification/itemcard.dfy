/** The listing card: its cover image, the sold overlay and the relative posting date. */
module ItemCard {
  import opened Wrappers
  import opened Text
  import opened Domain

  /** `1000 * 60 * 60 * 24`: milliseconds per day. */
  const DAY_MS := 86400000

  /** `Math.floor(diff / DAY_MS)`: the whole days elapsed, rounded down (so negative for a future date). */
  function Days(diff: int): (r: int)
    ensures DAY_MS * r <= diff < DAY_MS * (r + 1)
  {
    diff / DAY_MS
  }

  /** Only one whole number of days brackets an elapsed time. */
  lemma DaysUnique(diff: int, n: int)
    requires DAY_MS * n <= diff < DAY_MS * (n + 1)
    ensures Days(diff) == n
  {
  }

  /**
   * `formatDate`: empty without a date; "Invalid Date" when `parseDate` (the `Date` constructor)
   * rejects it; otherwise by the days elapsed until `now`: "Today", "Yesterday", "N days ago" below a
   * week, and the calendar date `localeDate` writes from then on.
   */
  function DateLabel(createdAt: Option<string>, parseDate: string -> Option<int>, now: int, localeDate: int -> string): (r: string)
    ensures !Truthy(createdAt) ==> r == ""
    ensures Truthy(createdAt) && parseDate(createdAt.value).None? ==> r == "Invalid Date"
    ensures Truthy(createdAt) && parseDate(createdAt.value).Some? ==>
      var d := Days(now - parseDate(createdAt.value).value);
      && (2 <= d < 7 ==> r == NatToString(d) + " days ago")
      && (d < 0 ==> r == "-" + NatToString(-d) + " days ago")
  {
    if !Truthy(createdAt) then ""
    else match parseDate(createdAt.value)
      case None => "Invalid Date"
      case Some(t) =>
        var days := Days(now - t);
        if days == 0 then "Today"
        else if days == 1 then "Yesterday"
        else if days < 7 then IntToString(days) + " days ago"
        else localeDate(t)
  }

  /** The label in terms of the time elapsed, one day being `DAY_MS` milliseconds. */
  lemma DateLabelByElapsed(createdAt: Option<string>, parseDate: string -> Option<int>, now: int, localeDate: int -> string)
    ensures Truthy(createdAt) && parseDate(createdAt.value).Some? ==>
      var t := parseDate(createdAt.value).value;
      var r := DateLabel(createdAt, parseDate, now, localeDate);
      && (0 <= now - t < DAY_MS ==> r == "Today")
      && (DAY_MS <= now - t < 2 * DAY_MS ==> r == "Yesterday")
      && (2 * DAY_MS <= now - t < 7 * DAY_MS ==> exists n :: 2 <= n <= 6 && r == NatToString(n) + " days ago")
      && (now - t < 0 ==> exists n :: n >= 1 && r == "-" + NatToString(n) + " days ago")
      && (now - t >= 7 * DAY_MS ==> r == localeDate(t))
  {
    if Truthy(createdAt) && parseDate(createdAt.value).Some? {
      var t := parseDate(createdAt.value).value;
      var r := DateLabel(createdAt, parseDate, now, localeDate);
      var d := Days(now - t);
      if now - t < 0 {
        assert d <= -1;
        assert r == "-" + NatToString(-d) + " days ago";
      } else if now - t < DAY_MS {
        assert d == 0;
      } else if now - t < 2 * DAY_MS {
        assert d == 1;
      } else if now - t < 7 * DAY_MS {
        assert 2 <= d <= 6;
        assert r == NatToString(d) + " days ago";
      } else {
        assert d >= 7;
      }
    }
  }

  /** The N of "N days ago" is the number of whole days elapsed, and of "-N days ago" the days still to come. */
  lemma DaysAgoCountsDays(createdAt: Option<string>, parseDate: string -> Option<int>, now: int, localeDate: int -> string)
    ensures Truthy(createdAt) && parseDate(createdAt.value).Some? ==>
      var t := parseDate(createdAt.value).value;
      var r := DateLabel(createdAt, parseDate, now, localeDate);
      && (forall n :: 2 <= n <= 6 && DAY_MS * n <= now - t < DAY_MS * (n + 1) ==> r == NatToString(n) + " days ago")
      && (forall n :: n >= 1 && DAY_MS * -n <= now - t < DAY_MS * (1 - n) ==> r == "-" + NatToString(n) + " days ago")
  {
    if Truthy(createdAt) && parseDate(createdAt.value).Some? {
      var t := parseDate(createdAt.value).value;
      var r := DateLabel(createdAt, parseDate, now, localeDate);
      forall n | 2 <= n <= 6 && DAY_MS * n <= now - t < DAY_MS * (n + 1)
        ensures r == NatToString(n) + " days ago"
      {
        DaysUnique(now - t, n);
      }
      forall n | n >= 1 && DAY_MS * -n <= now - t < DAY_MS * (1 - n)
        ensures r == "-" + NatToString(n) + " days ago"
      {
        DaysUnique(now - t, -n);
      }
    }
  }

  /** `item.itemImages?.[0]`: the cover image, when the first image is a non-empty URL. */
  function CoverImage(it: Item): (r: Option<string>)
    ensures r.Some? <==> it.images.Some? && |it.images.value| > 0 && it.images.value[0] != ""
    ensures r.Some? ==> r.value == it.images.value[0]
  {
    if it.images.Some? && |it.images.value| > 0 && it.images.value[0] != "" then Some(it.images.value[0]) else None
  }

  /** The "SOLD" overlay covers the image of a sold item only. */
  predicate SoldOverlay(it: Item) {
    HasStatus(it, SOLD)
  }
}
