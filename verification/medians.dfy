/**
 * The median of a window of elevations, as the outlier filter uses it.
 *
 * `MedianOf` is the reference definition: the middle element of the sorted
 * copy (the mean of the two middle elements for an even count), 0 for an
 * empty input. The methods `Median` and `CalculateMedian` model the two
 * identical Go helpers, which copy the input and bubble-sort the copy.
 */
module Medians {

  ghost predicate Sorted(s: seq<real>) {
    forall i, j :: 0 <= i < j < |s| ==> s[i] <= s[j]
  }

  /** Inserts `x` into a sorted sequence, keeping it sorted. */
  function Insert(x: real, s: seq<real>): (r: seq<real>)
    requires Sorted(s)
    ensures Sorted(r)
    ensures multiset(r) == multiset(s) + multiset{x}
    ensures |r| == |s| + 1
    ensures r[0] == x || (|s| > 0 && r[0] == s[0])
  {
    if |s| == 0 then [x]
    else if x <= s[0] then [x] + s
    else
      var t := Insert(x, s[1..]);
      assert s == [s[0]] + s[1..];
      assert s[0] <= t[0];
      [s[0]] + t
  }

  /** The sorted copy of `xs` (insertion sort). */
  function Sort(xs: seq<real>): (r: seq<real>)
    ensures Sorted(r)
    ensures multiset(r) == multiset(xs)
    ensures |r| == |xs|
  {
    if |xs| == 0 then []
    else
      assert xs == [xs[0]] + xs[1..];
      Insert(xs[0], Sort(xs[1..]))
  }

  /** A sequence whose neighbours are in order is sorted. */
  lemma {:induction false} SortedByNeighbours(s: seq<real>)
    requires forall k :: 0 <= k < |s| - 1 ==> s[k] <= s[k + 1]
    ensures Sorted(s)
    decreases |s|
  {
    if |s| > 1 {
      SortedByNeighbours(s[1..]);
      assert forall j :: 1 <= j < |s| ==> s[1] <= s[j] by {
        forall j | 1 <= j < |s| ensures s[1] <= s[j] {
          assert s[1..][0] <= s[1..][j - 1];
        }
      }
    }
  }

  /** The first element of a sorted sequence is its least. */
  lemma SortedHeadLeast(a: seq<real>, x: real)
    requires Sorted(a) && x in a
    ensures a[0] <= x
  {
    var k :| 0 <= k < |a| && a[k] == x;
  }

  /** Two sorted sequences holding the same elements start with the same element. */
  lemma SortedSameHead(a: seq<real>, b: seq<real>)
    requires Sorted(a) && Sorted(b)
    requires multiset(a) == multiset(b)
    requires |a| > 0 && |b| > 0
    ensures a[0] == b[0]
  {
    assert b[0] in multiset(a) && a[0] in multiset(b);
    SortedHeadLeast(a, b[0]);
    SortedHeadLeast(b, a[0]);
  }

  /** The tail of a sorted sequence is sorted and holds the other elements. */
  lemma SortedTail(a: seq<real>)
    requires Sorted(a) && |a| > 0
    ensures Sorted(a[1..])
    ensures multiset(a) == multiset{a[0]} + multiset(a[1..])
  {
    assert a == [a[0]] + a[1..];
  }

  /** Two sorted sequences holding the same elements are equal. */
  lemma {:induction false} SortedUnique(a: seq<real>, b: seq<real>)
    requires Sorted(a) && Sorted(b)
    requires multiset(a) == multiset(b)
    ensures a == b
    decreases |a|
  {
    assert |a| == |multiset(a)| == |multiset(b)| == |b|;
    if |a| > 0 {
      SortedSameHead(a, b);
      SortedTail(a);
      SortedTail(b);
      forall y ensures multiset(a[1..])[y] == multiset(b[1..])[y] {
        assert multiset(a)[y] == multiset{a[0]}[y] + multiset(a[1..])[y];
        assert multiset(b)[y] == multiset{b[0]}[y] + multiset(b[1..])[y];
      }
      assert multiset(a[1..]) == multiset(b[1..]);
      SortedUnique(a[1..], b[1..]);
      assert a == [a[0]] + a[1..];
      assert b == [b[0]] + b[1..];
    }
  }

  /** The middle of a sorted, non-empty sequence. */
  function Middle(s: seq<real>): real
    requires |s| > 0
  {
    var mid := |s| / 2;
    if |s| % 2 == 0 then (s[mid - 1] + s[mid]) / 2.0 else s[mid]
  }

  /** The median of `xs`: 0 when empty, otherwise the middle of its sorted copy. */
  function MedianOf(xs: seq<real>): real {
    if |xs| == 0 then 0.0
    else if |xs| == 1 then xs[0]
    else Middle(Sort(xs))
  }

  /** The median depends only on which values occur, not on their order. */
  lemma MedianOfPermutation(a: seq<real>, b: seq<real>)
    requires multiset(a) == multiset(b)
    ensures MedianOf(a) == MedianOf(b)
  {
    assert |a| == |multiset(a)| == |multiset(b)| == |b|;
    SortedUnique(Sort(a), Sort(b));
    if |a| == 1 {
      assert a[0] in multiset(b);
    }
  }

  /** A non-empty input's median lies between two of its elements. */
  lemma MedianBounds(xs: seq<real>)
    requires |xs| > 0
    ensures exists i :: 0 <= i < |xs| && xs[i] <= MedianOf(xs)
    ensures exists j :: 0 <= j < |xs| && MedianOf(xs) <= xs[j]
  {
    if |xs| == 1 {
      assert xs[0] <= MedianOf(xs);
    } else {
      var s := Sort(xs);
      var mid := |s| / 2;
      var lo := if |s| % 2 == 0 then mid - 1 else mid;
      assert s[lo] <= MedianOf(xs) <= s[mid];
      assert s[lo] in multiset(xs) && s[mid] in multiset(xs);
      var i :| 0 <= i < |xs| && xs[i] == s[lo];
      var j :| 0 <= j < |xs| && xs[j] == s[mid];
    }
  }

  /** Positions of a non-empty input's elements at or below and at or above its median. */
  lemma MedianWitnesses(xs: seq<real>) returns (i: nat, j: nat)
    requires |xs| > 0
    ensures i < |xs| && xs[i] <= MedianOf(xs)
    ensures j < |xs| && MedianOf(xs) <= xs[j]
  {
    MedianBounds(xs);
    i :| 0 <= i < |xs| && xs[i] <= MedianOf(xs);
    j :| 0 <= j < |xs| && MedianOf(xs) <= xs[j];
  }

  /** The median of a sequence whose elements all equal `c` is `c`. */
  lemma MedianOfConstant(xs: seq<real>, c: real)
    requires |xs| > 0
    requires forall k :: 0 <= k < |xs| ==> xs[k] == c
    ensures MedianOf(xs) == c
  {
    MedianBounds(xs);
  }

  /** Swaps the neighbours at `j` and `j + 1`. */
  function Swap(s: seq<real>, j: nat): (r: seq<real>)
    requires j + 1 < |s|
    ensures multiset(r) == multiset(s)
    ensures |r| == |s|
  {
    s[j := s[j + 1]][j + 1 := s[j]]
  }

  /** Bubble sort of a copy of `values`, with the loop bounds of the Go helpers. */
  method BubbleSort(values: seq<real>) returns (sorted: seq<real>)
    ensures Sorted(sorted)
    ensures multiset(sorted) == multiset(values)
  {
    sorted := values;
    var n := |sorted|;
    var i := 0;
    while i < n
      invariant 0 <= i <= n == |sorted|
      invariant multiset(sorted) == multiset(values)
      invariant forall a, b :: n - i <= a < b < n ==> sorted[a] <= sorted[b]
      invariant forall a, b :: 0 <= a < n - i <= b < n ==> sorted[a] <= sorted[b]
    {
      var j := 0;
      while j < n - 1 - i
        invariant 0 <= j <= n - 1 - i
        invariant n == |sorted|
        invariant multiset(sorted) == multiset(values)
        invariant forall k :: 0 <= k <= j ==> sorted[k] <= sorted[j]
        invariant forall a, b :: n - i <= a < b < n ==> sorted[a] <= sorted[b]
        invariant forall a, b :: 0 <= a < n - i <= b < n ==> sorted[a] <= sorted[b]
      {
        if sorted[j] > sorted[j + 1] {
          sorted := Swap(sorted, j);
        }
        j := j + 1;
      }
      i := i + 1;
    }
  }

  /** `median` in the analyser: 0 for empty, the element for a singleton,
      else the middle of the bubble-sorted copy; the input is not changed. */
  method Median(values: seq<real>) returns (m: real)
    ensures m == MedianOf(values)
  {
    if |values| == 0 {
      return 0.0;
    }
    if |values| == 1 {
      return values[0];
    }
    var sorted := BubbleSort(values);
    MedianOfSorted(values, sorted);
    var mid := |sorted| / 2;
    if |sorted| % 2 == 0 {
      return (sorted[mid - 1] + sorted[mid]) / 2.0;
    }
    return sorted[mid];
  }

  /** `calculateMedian`: the duplicate of `median`; both meet `MedianOf`. */
  method CalculateMedian(values: seq<real>) returns (m: real)
    ensures m == MedianOf(values)
  {
    if |values| == 0 {
      return 0.0;
    }
    if |values| == 1 {
      return values[0];
    }
    var sorted := BubbleSort(values);
    MedianOfSorted(values, sorted);
    var mid := |sorted| / 2;
    if |sorted| % 2 == 0 {
      return (sorted[mid - 1] + sorted[mid]) / 2.0;
    }
    return sorted[mid];
  }

  /** The median of `xs` is the middle of any sorted arrangement of its elements. */
  lemma MedianOfSorted(xs: seq<real>, s: seq<real>)
    requires |xs| >= 2
    requires Sorted(s) && multiset(xs) == multiset(s)
    ensures |s| == |xs|
    ensures MedianOf(xs) == Middle(s)
  {
    assert |s| == |multiset(s)| == |multiset(xs)| == |xs|;
    SortedUnique(Sort(xs), s);
  }

  /** An ordered pair's median is the mean of its two values. */
  lemma MedianOfOrderedPair(w: seq<real>)
    requires |w| == 2 && w[0] <= w[1]
    ensures MedianOf(w) == (w[0] + w[1]) / 2.0
  {
    SortedByNeighbours(w);
    MedianOfSorted(w, w);
  }

  /** A triple that one neighbour swap at `j` puts in order has the middle of
      the swapped triple as its median. */
  lemma MedianOfTriple(w: seq<real>, j: nat)
    requires |w| == 3 && j < 2
    requires Swap(w, j)[0] <= Swap(w, j)[1] <= Swap(w, j)[2]
    ensures MedianOf(w) == Swap(w, j)[1]
  {
    var s := Swap(w, j);
    SortedByNeighbours(s);
    MedianOfSorted(w, s);
  }

  /** Two neighbour swaps sort the odd-count sample. */
  lemma OddSampleSorted(xs: seq<real>) returns (s: seq<real>)
    requires |xs| == 5
    requires xs[0] == 1.0 && xs[1] == 3.0 && xs[2] == 2.0 && xs[3] == 5.0 && xs[4] == 4.0
    ensures |s| == 5 && s[2] == 3.0
    ensures Sorted(s) && multiset(xs) == multiset(s)
  {
    s := Swap(Swap(xs, 1), 3);
    assert s[0] == 1.0 && s[1] == 2.0 && s[2] == 3.0 && s[3] == 4.0 && s[4] == 5.0;
    forall k | 0 <= k < |s| - 1 ensures s[k] <= s[k + 1] {
      if k == 0 {
      } else if k == 1 {
      } else if k == 2 {
      } else {
      }
    }
    SortedByNeighbours(s);
  }

  /** Odd count: the middle of the sorted copy (unit-test sample). */
  lemma MedianOddExample(xs: seq<real>)
    requires xs == [1.0, 3.0, 2.0, 5.0, 4.0]
    ensures MedianOf(xs) == 3.0
  {
    var s := OddSampleSorted(xs);
    MedianOfSorted(xs, s);
    assert Middle(s) == 3.0;
  }

  /** Even count: the mean of the two middle values (unit-test samples). */
  lemma MedianEvenExamples(xs: seq<real>, ys: seq<real>)
    requires xs == [1.0, 2.0, 3.0, 4.0] && ys == [2.0, 8.0]
    ensures MedianOf(xs) == 2.5
    ensures MedianOf(ys) == 5.0
  {
    assert Sorted(xs) && Sorted(ys);
    MedianOfSorted(xs, xs);
    MedianOfSorted(ys, ys);
    assert Middle(xs) == 2.5 && Middle(ys) == 5.0;
  }

  /** Degenerate and constant inputs (unit-test samples). */
  lemma MedianSmallExamples()
    ensures MedianOf([5.0]) == 5.0
    ensures MedianOf([]) == 0.0
    ensures MedianOf([3.0, 3.0, 3.0]) == 3.0
  {
    MedianOfConstant([3.0, 3.0, 3.0], 3.0);
  }
}
