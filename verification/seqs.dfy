/** Sequence helpers shared by the pages: `Array.prototype.filter`, index removal and subsequences. */
module Seqs {

  /** `s.filter(p)`: the elements satisfying `p`, in their original order. */
  function Filter<T>(p: T -> bool, s: seq<T>): (r: seq<T>)
    ensures |r| <= |s|
    ensures forall k :: 0 <= k < |r| ==> p(r[k]) && r[k] in s
    ensures forall k :: 0 <= k < |s| && p(s[k]) ==> s[k] in r
  {
    if |s| == 0 then []
    else if p(s[0]) then [s[0]] + Filter(p, s[1..])
    else Filter(p, s[1..])
  }

  /** `a` can be obtained from `b` by deleting elements, so `a` keeps `b`'s order. */
  ghost predicate IsSubsequence<T>(a: seq<T>, b: seq<T>)
    decreases |b|
  {
    if |a| == 0 then true
    else if |b| == 0 then false
    else (a[0] == b[0] && IsSubsequence(a[1..], b[1..])) || IsSubsequence(a, b[1..])
  }

  /** Filtering never reorders: the result is a subsequence of the input. */
  lemma {:induction false} FilterIsSubsequence<T>(p: T -> bool, s: seq<T>)
    ensures IsSubsequence(Filter(p, s), s)
  {
    if |s| > 0 {
      FilterIsSubsequence(p, s[1..]);
      if p(s[0]) {
        assert Filter(p, s)[1..] == Filter(p, s[1..]);
      }
    }
  }

  /** `s.filter((_, k) => k !== i)`: remove the element at index `i`; any other `i` leaves `s` as it is. */
  function RemoveIndex<T>(s: seq<T>, i: int): (r: seq<T>)
    ensures 0 <= i < |s| ==> r == s[..i] + s[i + 1..]
    ensures !(0 <= i < |s|) ==> r == s
    decreases |s|
  {
    if |s| == 0 then []
    else if i == 0 then s[1..]
    else
      var t := RemoveIndex(s[1..], i - 1);
      assert 0 <= i < |s| ==> [s[0]] + t == s[..i] + s[i + 1..] by {
        if 0 <= i < |s| {
          assert s[..i] == [s[0]] + s[1..][..i - 1];
          assert s[i + 1..] == s[1..][i..];
        }
      }
      assert !(0 <= i < |s|) ==> [s[0]] + t == s by {
        assert s == [s[0]] + s[1..];
      }
      [s[0]] + t
  }

  /** The k-th element left after removing index `i`: the one at k before `i`, at k + 1 from `i` on. */
  lemma RemoveIndexAt<T>(s: seq<T>, i: int, k: int)
    requires 0 <= k < |RemoveIndex(s, i)|
    ensures 0 <= i <= k ==> k + 1 < |s| && RemoveIndex(s, i)[k] == s[k + 1]
    ensures !(0 <= i <= k) ==> RemoveIndex(s, i)[k] == s[k]
  {
    if 0 <= i < |s| {
      assert RemoveIndex(s, i) == s[..i] + s[i + 1..];
    }
  }

  /** `s.slice(0, n)`: the first `n` elements, or all of them when there are fewer. */
  function Take<T>(s: seq<T>, n: nat): (r: seq<T>)
    ensures |r| == if n < |s| then n else |s|
    ensures forall k :: 0 <= k < |r| ==> r[k] == s[k]
  {
    if n < |s| then s[..n] else s
  }

  /** The number of elements satisfying `p`: `s.filter(p).length`. */
  function Count<T>(p: T -> bool, s: seq<T>): (r: nat)
    ensures r <= |s|
  {
    if |s| == 0 then 0 else (if p(s[0]) then 1 else 0) + Count(p, s[1..])
  }

  lemma {:induction false} CountIsFilterLength<T>(p: T -> bool, s: seq<T>)
    ensures Count(p, s) == |Filter(p, s)|
  {
    if |s| > 0 {
      CountIsFilterLength(p, s[1..]);
    }
  }

  /** Counts under three predicates no element satisfies two of add up to at most the length. */
  lemma {:induction false} ExclusiveCountsBounded<T>(p: T -> bool, q: T -> bool, o: T -> bool, s: seq<T>)
    requires forall k :: 0 <= k < |s| ==> !(p(s[k]) && q(s[k])) && !(p(s[k]) && o(s[k])) && !(q(s[k]) && o(s[k]))
    ensures Count(p, s) + Count(q, s) + Count(o, s) <= |s|
  {
    if |s| > 0 {
      ExclusiveCountsBounded(p, q, o, s[1..]);
    }
  }

  /** Two predicates that agree on every element keep the same elements, each as often. */
  lemma {:induction false} FilterAgree<T>(p: T -> bool, q: T -> bool, s: seq<T>)
    requires forall k :: 0 <= k < |s| ==> p(s[k]) == q(s[k])
    ensures Filter(p, s) == Filter(q, s)
  {
    if |s| > 0 {
      assert forall k :: 0 <= k < |s| - 1 ==> s[1..][k] == s[k + 1];
      FilterAgree(p, q, s[1..]);
    }
  }

  /** Filtering with a predicate every element satisfies keeps the whole sequence. */
  lemma {:induction false} FilterAll<T>(p: T -> bool, s: seq<T>)
    requires forall k :: 0 <= k < |s| ==> p(s[k])
    ensures Filter(p, s) == s
  {
    if |s| > 0 {
      FilterAll(p, s[1..]);
    }
  }

  /** Appending one element adds one to the count exactly when it satisfies `p`. */
  lemma {:induction false} CountAppendOne<T>(p: T -> bool, s: seq<T>, x: T)
    ensures Count(p, s + [x]) == Count(p, s) + (if p(x) then 1 else 0)
  {
    if |s| > 0 {
      CountAppendOne(p, s[1..], x);
      assert (s + [x])[1..] == s[1..] + [x];
    } else {
      assert (s + [x])[1..] == [];
    }
  }

  /** A prefix keeps the order of the whole. */
  lemma {:induction false} PrefixIsSubsequence<T>(s: seq<T>, n: nat)
    requires n <= |s|
    ensures IsSubsequence(s[..n], s)
    decreases |s|
  {
    if n > 0 {
      PrefixIsSubsequence(s[1..], n - 1);
      assert s[..n][1..] == s[1..][..n - 1];
    } else {
      assert |s[..n]| == 0;
    }
  }

  /** A subsequence of a subsequence is a subsequence. */
  lemma {:induction false} SubsequenceTransitive<T>(a: seq<T>, b: seq<T>, c: seq<T>)
    requires IsSubsequence(a, b) && IsSubsequence(b, c)
    ensures IsSubsequence(a, c)
    decreases |c|
  {
    if |a| > 0 && |c| > 0 {
      if |b| > 0 && b[0] == c[0] && IsSubsequence(b[1..], c[1..]) {
        if a[0] == b[0] && IsSubsequence(a[1..], b[1..]) {
          SubsequenceTransitive(a[1..], b[1..], c[1..]);
        } else {
          SubsequenceTransitive(a, b[1..], c[1..]);
        }
      } else {
        SubsequenceTransitive(a, b, c[1..]);
      }
    }
  }

  /** `s.slice(0, n)` keeps the order of `s`. */
  lemma TakeIsSubsequence<T>(s: seq<T>, n: nat)
    ensures IsSubsequence(Take(s, n), s)
  {
    PrefixIsSubsequence(s, if n < |s| then n else |s|);
    assert s[..|s|] == s;
  }

  /** The elements satisfying `p` and those satisfying its negation `q` together make up the whole sequence. */
  lemma {:induction false} CountComplement<T>(p: T -> bool, q: T -> bool, s: seq<T>)
    requires forall x :: q(x) == !p(x)
    ensures Count(p, s) + Count(q, s) == |s|
  {
    if |s| > 0 {
      CountComplement(p, q, s[1..]);
    }
  }
}
