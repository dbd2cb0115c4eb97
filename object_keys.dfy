/** The order in which `Object.keys`, `Object.values` and `for…in` list the
    string keys of a plain object (OrdinaryOwnPropertyKeys, section
    10.1.11.1 of ECMA-262): the keys that are array indices first, in
    ascending numeric order, then every other key in the order it was
    created. An object is modelled by its keys in creation order; this
    module turns that order into the listing order. */
module ObjectKeys {
  import opened Text
  import opened Lists
  import opened Sorting

  /** An array index (section 6.1.7 of ECMA-262): the canonical decimal
      text, without a sign or leading zeros, of an integer below 2^32 - 1. */
  predicate IsArrayIndex(k: string)
  {
    k != [] && AllDigits(k) && (k[0] == '0' ==> k == "0") && DigitsValue(k) < 0xFFFF_FFFF
  }

  /** Every key that is not an array index. */
  predicate IsOtherKey(k: string)
  {
    !IsArrayIndex(k)
  }

  /** The numeric value of a key, the sort key among array indices. */
  function IndexValue(k: string): int
  {
    if AllDigits(k) then DigitsValue(k) else 0
  }

  /** The listing order of keys created in the order `keys`. */
  function OwnKeys(keys: seq<string>): seq<string>
  {
    SortBy(Filter(keys, IsArrayIndex), KeyAsc(IndexValue)) + Filter(keys, IsOtherKey)
  }

  /** The listing holds every key once and no other; array indices come
      first, in ascending numeric order; the other keys keep their creation
      order; and without array indices the listing is the creation order. */
  lemma {:induction false} OwnKeysSpec(keys: seq<string>)
    ensures multiset(OwnKeys(keys)) == multiset(keys) && |OwnKeys(keys)| == |keys|
    ensures forall k :: k in OwnKeys(keys) <==> k in keys
    ensures forall i, j :: 0 <= i < j < |OwnKeys(keys)| && IsArrayIndex(OwnKeys(keys)[j]) ==>
      IsArrayIndex(OwnKeys(keys)[i]) && IndexValue(OwnKeys(keys)[i]) <= IndexValue(OwnKeys(keys)[j])
    ensures Filter(OwnKeys(keys), IsOtherKey) == Filter(keys, IsOtherKey)
    ensures (forall k :: k in keys ==> !IsArrayIndex(k)) ==> OwnKeys(keys) == keys
  {
    OwnKeysPermutation(keys);
    IndicesFirst(keys);
    OthersInOrder(keys);
    if forall k :: k in keys ==> !IsArrayIndex(k) {
      FilterNone(keys, IsArrayIndex);
      FilterKeepsAll(keys, IsOtherKey);
    }
  }

  /** The listing is a rearrangement of the keys. */
  lemma {:induction false} OwnKeysPermutation(keys: seq<string>)
    ensures multiset(OwnKeys(keys)) == multiset(keys) && |OwnKeys(keys)| == |keys|
    ensures forall k :: k in OwnKeys(keys) <==> k in keys
  {
    var r := OwnKeys(keys);
    FilterSplit(keys, IsArrayIndex, IsOtherKey);
    forall k
      ensures k in r <==> k in keys
    {
      assert k in r <==> k in multiset(r);
      assert k in keys <==> k in multiset(keys);
    }
  }

  /** The sorted array indices: array indices only, ascending. */
  lemma {:induction false} SortedIndices(keys: seq<string>)
    ensures var front := SortBy(Filter(keys, IsArrayIndex), KeyAsc(IndexValue));
      (forall k :: k in front ==> IsArrayIndex(k)) &&
      (forall i, j :: 0 <= i < j < |front| ==> IndexValue(front[i]) <= IndexValue(front[j]))
  {
    var idx := Filter(keys, IsArrayIndex);
    var front := SortBy(idx, KeyAsc(IndexValue));
    forall k | k in front
      ensures IsArrayIndex(k)
    {
      SortByMembers(idx, KeyAsc(IndexValue), k);
    }
    KeyAscOrder(IndexValue);
    SortBySorted(idx, KeyAsc(IndexValue));
  }

  /** An array index is preceded only by smaller array indices. */
  lemma {:induction false} IndicesFirst(keys: seq<string>)
    ensures forall i, j :: 0 <= i < j < |OwnKeys(keys)| && IsArrayIndex(OwnKeys(keys)[j]) ==>
      IsArrayIndex(OwnKeys(keys)[i]) && IndexValue(OwnKeys(keys)[i]) <= IndexValue(OwnKeys(keys)[j])
  {
    var front := SortBy(Filter(keys, IsArrayIndex), KeyAsc(IndexValue));
    var rest := Filter(keys, IsOtherKey);
    var r := OwnKeys(keys);
    SortedIndices(keys);
    forall i, j | 0 <= i < j < |r| && IsArrayIndex(r[j])
      ensures IsArrayIndex(r[i]) && IndexValue(r[i]) <= IndexValue(r[j])
    {
      assert r[i] == front[i] && r[j] == front[j];
      assert r[i] in front;
    }
  }

  /** The other keys are listed in creation order. */
  lemma {:induction false} OthersInOrder(keys: seq<string>)
    ensures Filter(OwnKeys(keys), IsOtherKey) == Filter(keys, IsOtherKey)
  {
    var front := SortBy(Filter(keys, IsArrayIndex), KeyAsc(IndexValue));
    var rest := Filter(keys, IsOtherKey);
    SortedIndices(keys);
    FilterAppend(front, rest, IsOtherKey);
    FilterNone(front, IsOtherKey);
    FilterKeepsAll(rest, IsOtherKey);
  }

  /** A name that reads as a number is listed before one created earlier:
      `{b: …, 1: …}` lists "1" first. */
  lemma {:induction false} IndexKeyListedFirst()
    ensures OwnKeys(["b", "1"]) == ["1", "b"]
  {
    assert DigitsValue("1") == 1 by {
      assert "1"[..0] == [];
    }
    assert IsArrayIndex("1") && !IsArrayIndex("b");
    assert Filter(["b", "1"], IsArrayIndex) == ["1"] by {
      FilterCons("b", ["1"], IsArrayIndex);
      FilterCons("1", [], IsArrayIndex);
      assert ["b", "1"] == ["b"] + ["1"] && ["1"] == ["1"] + [];
    }
    assert Filter(["b", "1"], IsOtherKey) == ["b"] by {
      FilterCons("b", ["1"], IsOtherKey);
      FilterCons("1", [], IsOtherKey);
      assert ["b", "1"] == ["b"] + ["1"] && ["1"] == ["1"] + [];
    }
    assert SortBy(["1"], KeyAsc(IndexValue)) == ["1"] by {
      assert ["1"][1..] == [];
    }
  }
}
