/**
 * `URLSearchParams`: an ordered list of key/value pairs in which a key may repeat.
 * Percent-encoding is not part of this model; keys and values are the decoded strings.
 */
module Query {
  import opened Wrappers
  import opened Seqs

  type Params = seq<(string, string)>

  /** `params.getAll(key)`: every value stored under `key`, in order. */
  function Values(q: Params, key: string): (r: seq<string>)
    ensures |r| <= |q|
  {
    if |q| == 0 then []
    else if q[0].0 == key then [q[0].1] + Values(q[1..], key)
    else Values(q[1..], key)
  }

  /** `params.get(key)`: the first value stored under `key`, or null. */
  function Get(q: Params, key: string): (r: Option<string>)
    ensures r == if |Values(q, key)| == 0 then None else Some(Values(q, key)[0])
  {
    if |q| == 0 then None
    else if q[0].0 == key then Some(q[0].1)
    else Get(q[1..], key)
  }

  /** `params.has(key)`. */
  predicate Has(q: Params, key: string) {
    exists k | 0 <= k < |q| :: q[k].0 == key
  }

  lemma {:induction false} HasIffValues(q: Params, key: string)
    ensures Has(q, key) <==> |Values(q, key)| > 0
  {
    if |q| > 0 {
      HasIffValues(q[1..], key);
      if Has(q[1..], key) {
        var k :| 0 <= k < |q[1..]| && q[1..][k].0 == key;
        assert q[k + 1].0 == key;
      }
      if Has(q, key) && q[0].0 != key {
        var k :| 0 <= k < |q| && q[k].0 == key;
        assert q[1..][k - 1].0 == key;
      }
    }
  }

  /** `params.append(key, value)`. */
  function Append(q: Params, key: string, value: string): (r: Params)
  {
    q + [(key, value)]
  }

  lemma {:induction false} ValuesConcat(a: Params, b: Params, key: string)
    ensures Values(a + b, key) == Values(a, key) + Values(b, key)
  {
    if |a| > 0 {
      ValuesConcat(a[1..], b, key);
      assert (a + b)[1..] == a[1..] + b;
    } else {
      assert a + b == b;
    }
  }

  /** Appending adds `value` after the existing values of `key` and touches no other key. */
  lemma AppendValues(q: Params, key: string, value: string, other: string)
    requires other != key
    ensures Values(Append(q, key, value), key) == Values(q, key) + [value]
    ensures Values(Append(q, key, value), other) == Values(q, other)
  {
    ValuesConcat(q, [(key, value)], key);
    ValuesConcat(q, [(key, value)], other);
  }

  /** `params.delete(key)`: removes every pair with that key and keeps the others in order. */
  function Delete(q: Params, key: string): (r: Params)
    ensures |r| <= |q|
    ensures Values(r, key) == []
    ensures forall other :: other != key ==> Values(r, other) == Values(q, other)
  {
    if |q| == 0 then []
    else if q[0].0 == key then Delete(q[1..], key)
    else [q[0]] + Delete(q[1..], key)
  }

  /**
   * `params.set(key, value)`: the first pair with `key` takes the new value in place, later pairs
   * with `key` are removed; when `key` is absent the pair is appended.
   */
  function Set(q: Params, key: string, value: string): (r: Params)
    ensures Values(r, key) == [value]
    ensures forall other :: other != key ==> Values(r, other) == Values(q, other)
  {
    if |q| == 0 then [(key, value)]
    else if q[0].0 == key then [(key, value)] + Delete(q[1..], key)
    else [q[0]] + Set(q[1..], key, value)
  }

  /** `set` keeps the position of an existing key: the pairs before its first occurrence are untouched. */
  lemma {:induction false} SetKeepsPrefix(q: Params, key: string, value: string, i: nat)
    requires i < |q| && q[i].0 == key
    requires forall k :: 0 <= k < i ==> q[k].0 != key
    ensures |Set(q, key, value)| > i
    ensures Set(q, key, value)[..i] == q[..i]
    ensures Set(q, key, value)[i] == (key, value)
  {
    if i > 0 {
      SetKeepsPrefix(q[1..], key, value, i - 1);
      assert Set(q, key, value) == [q[0]] + Set(q[1..], key, value);
    }
  }

  /** `params.toString()` without percent-encoding: `k=v` pairs joined by `&`. */
  function Serialize(q: Params): (r: string)
    ensures |r| == 0 <==> |q| == 0
  {
    if |q| == 0 then ""
    else if |q| == 1 then q[0].0 + "=" + q[0].1
    else q[0].0 + "=" + q[0].1 + "&" + Serialize(q[1..])
  }

  /** The keys that occur, in order of their pairs. */
  function Keys(q: Params): (r: seq<string>)
    ensures |r| == |q|
    ensures forall k :: 0 <= k < |q| ==> r[k] == q[k].0
  {
    seq(|q|, k requires 0 <= k < |q| => q[k].0)
  }

  // ----- building a query from blocks of values, one block per key -----

  /** The pairs `(key, v)` for every `v` in `vs`. */
  function Pairs(key: string, vs: seq<string>): (r: Params)
    ensures Values(r, key) == vs
    ensures forall other :: other != key ==> Values(r, other) == []
  {
    if |vs| == 0 then [] else [(key, vs[0])] + Pairs(key, vs[1..])
  }

  /** The blocks' pairs, concatenated in block order. */
  function Flatten(bs: seq<(string, seq<string>)>): Params {
    if |bs| == 0 then [] else Pairs(bs[0].0, bs[0].1) + Flatten(bs[1..])
  }

  predicate DistinctKeys(bs: seq<(string, seq<string>)>) {
    forall i, j :: 0 <= i < j < |bs| ==> bs[i].0 != bs[j].0
  }

  /** The keys of a list of blocks, in order. */
  function BlockKeys(bs: seq<(string, seq<string>)>): (r: seq<string>)
    ensures |r| == |bs| && forall i :: 0 <= i < |bs| ==> r[i] == bs[i].0
  {
    seq(|bs|, i requires 0 <= i < |bs| => bs[i].0)
  }

  /** A key that names no block has no values. */
  lemma {:induction false} FlattenValuesAbsent(bs: seq<(string, seq<string>)>, key: string)
    requires forall i :: 0 <= i < |bs| ==> bs[i].0 != key
    ensures Values(Flatten(bs), key) == []
  {
    if |bs| > 0 {
      FlattenValuesAbsent(bs[1..], key);
      ValuesConcat(Pairs(bs[0].0, bs[0].1), Flatten(bs[1..]), key);
    }
  }

  /** With pairwise different keys, each block's key has exactly that block's values. */
  lemma {:induction false} FlattenValuesAt(bs: seq<(string, seq<string>)>, i: nat)
    requires DistinctKeys(bs) && i < |bs|
    ensures Values(Flatten(bs), bs[i].0) == bs[i].1
  {
    var key := bs[i].0;
    ValuesConcat(Pairs(bs[0].0, bs[0].1), Flatten(bs[1..]), key);
    if i == 0 {
      FlattenValuesAbsent(bs[1..], key);
    } else {
      assert bs[1..][i - 1] == bs[i];
      FlattenValuesAt(bs[1..], i - 1);
    }
  }

  /** With at most one value per block, the flattened pairs follow the order of the blocks. */
  lemma {:induction false} FlattenInOrder(bs: seq<(string, seq<string>)>)
    requires forall i :: 0 <= i < |bs| ==> |bs[i].1| <= 1
    ensures IsSubsequence(Keys(Flatten(bs)), BlockKeys(bs))
  {
    if |bs| > 0 {
      FlattenInOrder(bs[1..]);
      var tail := Flatten(bs[1..]);
      assert BlockKeys(bs)[1..] == BlockKeys(bs[1..]);
      if |bs[0].1| == 0 {
        assert Flatten(bs) == tail;
      } else {
        assert bs[0].1[1..] == [];
        assert Pairs(bs[0].0, bs[0].1) == [(bs[0].0, bs[0].1[0])];
        assert Keys(Flatten(bs))[1..] == Keys(tail);
      }
    }
  }
}
