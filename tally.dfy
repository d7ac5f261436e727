/**
 * Counting and "most common" selection, as done by Python's
 * `collections.Counter(...).most_common(1)`: the element with the highest
 * count, ties going to the element seen first.
 */
module Tally {

  /** Number of occurrences of `x` in `s`. */
  function Count<T(==)>(s: seq<T>, x: T): nat
  {
    multiset(s)[x]
  }

  /**
   * `k` indexes the first-seen element among the most frequent ones: nothing
   * occurs more often than `s[k]`, and everything before position `k` occurs
   * strictly less often (so `k` is also the first occurrence of `s[k]`).
   */
  ghost predicate IsFirstMost<T>(s: seq<T>, k: int)
  {
    && 0 <= k < |s|
    && (forall j :: 0 <= j < |s| ==> Count(s, s[j]) <= Count(s, s[k]))
    && (forall j :: 0 <= j < k ==> Count(s, s[j]) < Count(s, s[k]))
  }

  /** Left-to-right scan keeping the best index so far; replaces it only on a strictly larger count. */
  function ScanFrom<T(==)>(s: seq<T>, i: nat, best: nat): (k: nat)
    requires best < i <= |s|
    ensures k < |s|
    decreases |s| - i
  {
    if i == |s| then best
    else if Count(s, s[i]) > Count(s, s[best]) then ScanFrom(s, i + 1, i)
    else ScanFrom(s, i + 1, best)
  }

  /** Index of the most common element of a non-empty sequence, first-seen on ties. */
  function FirstMost<T(==)>(s: seq<T>): (k: nat)
    requires |s| > 0
    ensures k < |s|
  {
    ScanFrom(s, 1, 0)
  }

  lemma {:induction false} ScanFromIsFirstMost<T>(s: seq<T>, i: nat, best: nat)
    requires best < i <= |s|
    requires forall j :: 0 <= j < i ==> Count(s, s[j]) <= Count(s, s[best])
    requires forall j :: 0 <= j < best ==> Count(s, s[j]) < Count(s, s[best])
    ensures IsFirstMost(s, ScanFrom(s, i, best))
    decreases |s| - i
  {
    if i < |s| {
      if Count(s, s[i]) > Count(s, s[best]) {
        ScanFromIsFirstMost(s, i + 1, i);
      } else {
        ScanFromIsFirstMost(s, i + 1, best);
      }
    }
  }

  /** The scan picks the most common element, first-seen on ties. */
  lemma FirstMostIsFirstMost<T>(s: seq<T>)
    requires |s| > 0
    ensures IsFirstMost(s, FirstMost(s))
  {
    ScanFromIsFirstMost(s, 1, 0);
  }

  /** There is only one first-seen most common position. */
  lemma FirstMostUnique<T>(s: seq<T>, k1: int, k2: int)
    requires IsFirstMost(s, k1) && IsFirstMost(s, k2)
    ensures k1 == k2
  {
    assert Count(s, s[k1]) == Count(s, s[k2]);
  }

  /**
   * `Counter(s).most_common(1)[0]`: counts every element in a dictionary,
   * then keeps the first key (in first-seen order) with a strictly larger
   * count than all before it. Returns the position of that key's first
   * occurrence and its count.
   */
  method MostCommon<T(==)>(s: seq<T>) returns (k: nat, hits: nat)
    requires |s| > 0
    ensures IsFirstMost(s, k)
    ensures k == FirstMost(s)
    ensures hits == Count(s, s[k])
  {
    var counts := CountAll(s);
    k := 0;
    var j := 1;
    while j < |s|
      invariant 1 <= j <= |s| && k < j
      invariant forall m :: 0 <= m < j ==> Count(s, s[m]) <= Count(s, s[k])
      invariant forall m :: 0 <= m < k ==> Count(s, s[m]) < Count(s, s[k])
    {
      if counts[s[j]] > counts[s[k]] {
        k := j;
      }
      j := j + 1;
    }
    hits := counts[s[k]];
    FirstMostIsFirstMost(s);
    FirstMostUnique(s, k, FirstMost(s));
  }

  /** `Counter(s)`: a dictionary from each element of `s` to its number of occurrences. */
  method CountAll<T(==)>(s: seq<T>) returns (counts: map<T, nat>)
    ensures forall x :: x in counts <==> x in s
    ensures forall x :: x in counts ==> counts[x] == Count(s, x)
  {
    counts := map[];
    var i := 0;
    while i < |s|
      invariant 0 <= i <= |s|
      invariant forall x :: x in counts <==> x in s[..i]
      invariant forall x :: x in counts ==> counts[x] == Count(s[..i], x)
    {
      var x := s[i];
      assert s[..i + 1] == s[..i] + [x];
      counts := counts[x := if x in counts then counts[x] + 1 else 1];
      i := i + 1;
    }
    assert s[..|s|] == s;
  }

  /** Two different values together occur at most `|s|` times. */
  lemma {:induction false} CountOfTwo<T>(s: seq<T>, x: T, y: T)
    requires x != y
    ensures Count(s, x) + Count(s, y) <= |s|
  {
    if |s| > 0 {
      CountOfTwo(s[1..], x, y);
      assert s == [s[0]] + s[1..];
      assert multiset(s) == multiset{s[0]} + multiset(s[1..]);
    }
  }

  /** A value making up at least 90% of a sequence is its most common value. */
  lemma SupermajorityIsFirstMost<T>(s: seq<T>, x: T)
    requires |s| > 0 && 10 * Count(s, x) >= 9 * |s|
    ensures s[FirstMost(s)] == x
  {
    var k := FirstMost(s);
    FirstMostIsFirstMost(s);
    assert x in multiset(s);
    var j :| 0 <= j < |s| && s[j] == x;
    if s[k] != x {
      assert Count(s, s[j]) <= Count(s, s[k]);
      CountOfTwo(s, x, s[k]);
    }
  }
}
