/** A stable sort by a comparator, the behaviour of `Array.prototype.sort`
    with a comparison function. `before(a, b)` holds when the comparator
    puts `a` strictly ahead of `b` (returns a negative number for (a, b)). */
module Sorting {
  import opened Lists

  /** The comparator is consistent: never both ways, and "not ahead of"
      is transitive. */
  ghost predicate StrictWeakOrder<T(!new)>(before: (T, T) -> bool)
  {
    (forall a, b :: before(a, b) ==> !before(b, a)) &&
    (forall a, b, c :: !before(a, b) && !before(b, c) ==> !before(a, c))
  }

  /** No element is strictly ahead of an earlier one. */
  ghost predicate Sorted<T>(s: seq<T>, before: (T, T) -> bool)
  {
    forall i, j :: 0 <= i < j < |s| ==> !before(s[j], s[i])
  }

  /** Puts `x` in front of the first element it is not behind. */
  function Insert<T>(x: T, s: seq<T>, before: (T, T) -> bool): (r: seq<T>)
    ensures multiset(r) == multiset(s) + multiset{x}
  {
    if s == [] || !before(s[0], x) then [x] + s
    else
      assert s == [s[0]] + s[1..];
      [s[0]] + Insert(x, s[1..], before)
  }

  /** Insertion sort; elements that compare equal keep their input order. */
  function SortBy<T>(s: seq<T>, before: (T, T) -> bool): (r: seq<T>)
    ensures multiset(r) == multiset(s)
    ensures |r| == |s|
  {
    if s == [] then []
    else
      assert s == [s[0]] + s[1..];
      Insert(s[0], SortBy(s[1..], before), before)
  }

  lemma {:induction false} InsertSorted<T(!new)>(x: T, s: seq<T>, before: (T, T) -> bool)
    requires StrictWeakOrder(before) && Sorted(s, before)
    ensures Sorted(Insert(x, s, before), before)
  {
    var r := Insert(x, s, before);
    if s == [] || !before(s[0], x) {
      forall i, j | 0 <= i < j < |r| ensures !before(r[j], r[i]) {
        if i == 0 && j > 1 {
          assert r[j] == s[j - 1] && !before(s[j - 1], s[0]);
        }
      }
    } else {
      var tail := Insert(x, s[1..], before);
      InsertSorted(x, s[1..], before);
      forall i, j | 0 <= i < j < |r| ensures !before(r[j], r[i]) {
        if i == 0 {
          var e := r[j];
          assert e == tail[j - 1];
          assert e in multiset(tail);
          assert e == x || e in multiset(s[1..]);
          if e != x {
            var k :| 0 <= k < |s[1..]| && s[1..][k] == e;
            assert s[k + 1] == e;
          }
        }
      }
    }
  }

  /** The sort puts no element ahead of one the comparator puts before it. */
  lemma {:induction false} SortBySorted<T(!new)>(s: seq<T>, before: (T, T) -> bool)
    requires StrictWeakOrder(before)
    ensures Sorted(SortBy(s, before), before)
  {
    if s != [] {
      SortBySorted(s[1..], before);
      InsertSorted(s[0], SortBy(s[1..], before), before);
    }
  }

  /** Nothing in a sorted sequence goes before its first element. */
  lemma {:induction false} SortedHeadFirst<T(!new)>(s: seq<T>, before: (T, T) -> bool, x: T)
    requires StrictWeakOrder(before) && Sorted(s, before) && x in s
    ensures !before(x, s[0])
  {
    var j :| 0 <= j < |s| && s[j] == x;
    if j == 0 {
      assert before(x, x) ==> !before(x, x);
    }
  }

  /** A comparator that never separates two elements (one returning 0)
      leaves the sequence as it was. */
  lemma {:induction false} SortByNeverBefore<T(!new)>(s: seq<T>, before: (T, T) -> bool)
    requires forall a, b :: !before(a, b)
    ensures SortBy(s, before) == s
  {
    if s != [] {
      SortByNeverBefore(s[1..], before);
      assert [s[0]] + s[1..] == s;
    }
  }

  /** Inserting an element keeps the order of a class of elements the
      comparator never separates: the element joins that class at its
      front. */
  lemma {:induction false} InsertKeepsTies<T(!new)>(x: T, s: seq<T>, before: (T, T) -> bool, same: T -> bool)
    requires forall a, b :: same(a) && same(b) ==> !before(a, b)
    ensures Filter(Insert(x, s, before), same) == (if same(x) then [x] else []) + Filter(s, same)
  {
    if s == [] || !before(s[0], x) {
      FilterCons(x, s, same);
    } else {
      var tail := Insert(x, s[1..], before);
      var front := if same(s[0]) then [s[0]] else [];
      var mid := if same(x) then [x] else [];
      var rest := Filter(s[1..], same);
      calc {
        Filter(Insert(x, s, before), same);
      == { assert Insert(x, s, before) == [s[0]] + tail; }
        Filter([s[0]] + tail, same);
      == { FilterCons(s[0], tail, same); }
        front + Filter(tail, same);
      == { InsertKeepsTies(x, s[1..], before, same); }
        front + (mid + rest);
      == { // s[0] goes before x, so at most one of the two is in the class
           TieSwap(front, mid, rest); }
        mid + (front + rest);
      == { FilterCons(s[0], s[1..], same); assert [s[0]] + s[1..] == s; }
        mid + Filter(s, same);
      }
    }
  }

  /** Two pieces of which one is empty can change places. */
  lemma {:induction false} TieSwap<T>(front: seq<T>, mid: seq<T>, rest: seq<T>)
    requires front == [] || mid == []
    ensures front + (mid + rest) == mid + (front + rest)
  {
    if front == [] {
      assert front + (mid + rest) == mid + rest == mid + (front + rest);
    } else {
      assert front + (mid + rest) == front + rest == mid + (front + rest);
    }
  }

  /** The sort is stable: elements any two of which the comparator does
      not separate come out in their input order. */
  lemma {:induction false} SortByStable<T(!new)>(s: seq<T>, before: (T, T) -> bool, same: T -> bool)
    requires forall a, b :: same(a) && same(b) ==> !before(a, b)
    ensures Filter(SortBy(s, before), same) == Filter(s, same)
  {
    if s != [] {
      SortByStable(s[1..], before, same);
      InsertKeepsTies(s[0], SortBy(s[1..], before), before, same);
      FilterCons(s[0], s[1..], same);
      assert [s[0]] + s[1..] == s;
    }
  }

  /** Sorting keeps exactly the elements it was given. */
  lemma {:induction false} SortByMembers<T>(s: seq<T>, before: (T, T) -> bool, x: T)
    ensures x in SortBy(s, before) <==> x in s
  {
    var r := SortBy(s, before);
    assert x in r <==> x in multiset(r);
    assert x in s <==> x in multiset(s);
  }

  /** Sort by an integer key, largest first (`(a, b) => key(b) - key(a)`). */
  function KeyDesc<T>(key: T -> int): (T, T) -> bool
  {
    (a: T, b: T) => key(a) > key(b)
  }

  /** Sort by an integer key, smallest first (`(a, b) => key(a) - key(b)`). */
  function KeyAsc<T>(key: T -> int): (T, T) -> bool
  {
    (a: T, b: T) => key(a) < key(b)
  }

  lemma {:induction false} KeyDescOrder<T(!new)>(key: T -> int)
    ensures StrictWeakOrder(KeyDesc(key))
  {
  }

  lemma {:induction false} KeyAscOrder<T(!new)>(key: T -> int)
    ensures StrictWeakOrder(KeyAsc(key))
  {
  }
}
