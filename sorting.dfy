/** The library sorts the system calls: Python's `list.sort(key=..., reverse=True)` and
    `sorted(..., key=..., reverse=True)`, and JavaScript's `Array.prototype.sort` with a
    numeric comparator. All three are stable. The model is one stable sort into
    non-increasing key order, written as an insertion sort; an ascending sort by `k` is
    the descending sort by `-k`. */
module Sorting {

  /** Every element's key is at least the key of each element after it. */
  ghost predicate Descending<T>(s: seq<T>, key: T -> real)
  {
    forall i, j :: 0 <= i < j < |s| ==> key(s[i]) >= key(s[j])
  }

  /** Where a stable insertion puts x: after every leading element whose key is at
      least x's key, before the first one whose key is smaller. */
  function InsertionPoint<T>(s: seq<T>, x: T, key: T -> real): (p: nat)
    ensures p <= |s|
    ensures forall i :: 0 <= i < p ==> key(s[i]) >= key(x)
    ensures p < |s| ==> key(s[p]) < key(x)
  {
    if s == [] || key(s[0]) < key(x) then 0 else 1 + InsertionPoint(s[1..], x, key)
  }

  function Insert<T>(s: seq<T>, x: T, key: T -> real): (r: seq<T>)
    ensures multiset(r) == multiset(s) + multiset{x}
    ensures |r| == |s| + 1
  {
    var p := InsertionPoint(s, x, key);
    assert s == s[..p] + s[p..];
    s[..p] + [x] + s[p..]
  }

  /** The element at position i after the insertion: s's elements before the insertion
      point, then x, then the rest of s shifted by one. */
  lemma InsertAt<T>(s: seq<T>, x: T, key: T -> real, i: nat)
    requires i <= |s|
    ensures var p := InsertionPoint(s, x, key);
      Insert(s, x, key)[i] == if i < p then s[i] else if i == p then x else s[i - 1]
  {
  }

  /** The stable sort into non-increasing key order: each element, taken left to right,
      is inserted after every element already placed whose key is at least its own. */
  function SortDescending<T>(s: seq<T>, key: T -> real): (r: seq<T>)
    ensures multiset(r) == multiset(s)
    ensures |r| == |s|
    ensures Descending(r, key)
  {
    if s == [] then []
    else
      assert s == s[..|s| - 1] + [s[|s| - 1]];
      var r0 := SortDescending(s[..|s| - 1], key);
      InsertKeepsDescending(r0, s[|s| - 1], key);
      Insert(r0, s[|s| - 1], key)
  }

  lemma InsertKeepsDescending<T>(s: seq<T>, x: T, key: T -> real)
    requires Descending(s, key)
    ensures Descending(Insert(s, x, key), key)
  {
    var p := InsertionPoint(s, x, key);
    var r := Insert(s, x, key);
    forall i, j | 0 <= i < j < |r| ensures key(r[i]) >= key(r[j]) {
      InsertAt(s, x, key, i);
      InsertAt(s, x, key, j);
      if i == p {
        assert key(s[j - 1]) <= key(s[p]);
      }
    }
  }

  /** Stability: when the input's elements appear in strictly increasing `rank`, any two
      output elements with equal keys are still in increasing rank, i.e. in input order. */
  lemma {:induction false} SortIsStable<T>(s: seq<T>, key: T -> real, rank: T -> int)
    requires forall i, j :: 0 <= i < j < |s| ==> rank(s[i]) < rank(s[j])
    ensures forall i, j :: 0 <= i < j < |SortDescending(s, key)| && key(SortDescending(s, key)[i]) == key(SortDescending(s, key)[j])
              ==> rank(SortDescending(s, key)[i]) < rank(SortDescending(s, key)[j])
  {
    if s != [] {
      var init, x := s[..|s| - 1], s[|s| - 1];
      SortIsStable(init, key, rank);
      var r0 := SortDescending(init, key);
      forall y | y in r0 ensures rank(y) < rank(x) {
        assert y in multiset(init);
        var k :| 0 <= k < |init| && init[k] == y;
      }
      InsertKeepsStable(r0, x, key, rank);
    }
  }

  lemma InsertKeepsStable<T>(s: seq<T>, x: T, key: T -> real, rank: T -> int)
    requires Descending(s, key)
    requires forall i, j :: 0 <= i < j < |s| && key(s[i]) == key(s[j]) ==> rank(s[i]) < rank(s[j])
    requires forall y :: y in s ==> rank(y) < rank(x)
    ensures forall i, j :: 0 <= i < j < |Insert(s, x, key)| && key(Insert(s, x, key)[i]) == key(Insert(s, x, key)[j])
              ==> rank(Insert(s, x, key)[i]) < rank(Insert(s, x, key)[j])
  {
    var p := InsertionPoint(s, x, key);
    var r := Insert(s, x, key);
    forall i, j | 0 <= i < j < |r| ensures key(r[i]) == key(r[j]) ==> rank(r[i]) < rank(r[j]) {
      InsertAt(s, x, key, i);
      InsertAt(s, x, key, j);
      if i == p {
        assert key(s[j - 1]) <= key(s[p]) < key(x);
      } else if j == p {
        assert s[i] in s;
      }
    }
  }

  /** A relation that holds between the elements at any two distinct positions of the
      input still holds between any two distinct positions of the output. */
  lemma {:induction false} SortKeepsPairwise<T>(s: seq<T>, key: T -> real, ok: (T, T) -> bool)
    requires forall i, j :: 0 <= i < |s| && 0 <= j < |s| && i != j ==> ok(s[i], s[j])
    ensures forall i, j :: 0 <= i < |SortDescending(s, key)| && 0 <= j < |SortDescending(s, key)| && i != j
              ==> ok(SortDescending(s, key)[i], SortDescending(s, key)[j])
  {
    if s != [] {
      var init, x := s[..|s| - 1], s[|s| - 1];
      SortKeepsPairwise(init, key, ok);
      var r0 := SortDescending(init, key);
      forall y | y in r0 ensures ok(y, x) && ok(x, y) {
        assert y in multiset(init);
        var k :| 0 <= k < |init| && init[k] == y;
        assert s[k] == y && s[|s| - 1] == x;
      }
      InsertKeepsPairwise(r0, x, key, ok);
    }
  }

  lemma InsertKeepsPairwise<T>(s: seq<T>, x: T, key: T -> real, ok: (T, T) -> bool)
    requires forall i, j :: 0 <= i < |s| && 0 <= j < |s| && i != j ==> ok(s[i], s[j])
    requires forall y :: y in s ==> ok(y, x) && ok(x, y)
    ensures forall i, j :: 0 <= i < |Insert(s, x, key)| && 0 <= j < |Insert(s, x, key)| && i != j
              ==> ok(Insert(s, x, key)[i], Insert(s, x, key)[j])
  {
    var p := InsertionPoint(s, x, key);
    var r := Insert(s, x, key);
    forall i, j | 0 <= i < |r| && 0 <= j < |r| && i != j ensures ok(r[i], r[j]) {
      InsertAt(s, x, key, i);
      InsertAt(s, x, key, j);
      var i' := if i < p then i else i - 1;
      var j' := if j < p then j else j - 1;
      if i == p {
        assert s[j'] in s;
      } else if j == p {
        assert s[i'] in s;
      }
    }
  }
}
