/** `array.sort(compare)` as the list pages use it: the filtered rows, a
    fresh array, are reordered in place by a comparator that returns a
    negative, zero or positive number. The engine's own algorithm is not
    visible, so the model sorts by insertion; what is promised is the
    result: a permutation of the input in which no row compares greater
    than the row after it. */
module TableSort {
  /** The comparator never says both `x > y` and `y > x`. */
  ghost predicate Total<T(!new)>(cmp: (T, T) -> int) {
    forall x, y :: cmp(x, y) > 0 ==> cmp(y, x) <= 0
  }

  ghost predicate Transitive<T(!new)>(cmp: (T, T) -> int) {
    forall x, y, z :: cmp(x, y) <= 0 && cmp(y, z) <= 0 ==> cmp(x, z) <= 0
  }

  /** No row compares greater than the row after it. */
  predicate Sorted<T>(s: seq<T>, cmp: (T, T) -> int) {
    forall k :: 0 < k < |s| ==> cmp(s[k - 1], s[k]) <= 0
  }

  /** Adjacent rows from `lo` to `hi` are in order. */
  predicate SortedRange<T>(s: seq<T>, cmp: (T, T) -> int, lo: int, hi: int)
    requires 0 <= lo <= hi <= |s|
  {
    forall k :: lo < k < hi ==> cmp(s[k - 1], s[k]) <= 0
  }

  /** The state of inserting row `i` into the sorted rows before it: the
      row now sits at `j`, the rows before it are in order, the rows from it
      to `i` are in order, and its two neighbours are in order with each
      other. */
  predicate Inserting<T>(s: seq<T>, cmp: (T, T) -> int, j: int, i: int) {
    0 <= j <= i < |s|
    && SortedRange(s, cmp, 0, j) && SortedRange(s, cmp, j, i + 1)
    && (0 < j < i ==> cmp(s[j - 1], s[j + 1]) <= 0)
  }

  function Swap<T>(s: seq<T>, p: int, q: int): (r: seq<T>)
    requires 0 <= p < |s| && 0 <= q < |s|
    ensures |r| == |s| && multiset(r) == multiset(s)
  {
    s[p := s[q]][q := s[p]]
  }

  /** Moving the row one place down, past a row that compares greater,
      keeps the insertion state. */
  lemma SwapStep<T(!new)>(s: seq<T>, cmp: (T, T) -> int, j: int, i: int)
    requires Total(cmp)
    requires Inserting(s, cmp, j, i) && j > 0 && cmp(s[j - 1], s[j]) > 0
    ensures Inserting(Swap(s, j - 1, j), cmp, j - 1, i)
  {
    var r := Swap(s, j - 1, j);
    assert cmp(r[j - 1], r[j]) <= 0;
    forall k | j - 1 < k < i + 1 ensures cmp(r[k - 1], r[k]) <= 0 {
      if k == j + 1 {
        assert r[k - 1] == s[j - 1] && r[k] == s[j + 1];
      } else if k > j + 1 {
        assert r[k - 1] == s[k - 1] && r[k] == s[k];
      }
    }
  }

  /** When the row reaches the front or a row not greater than it, the
      first `i + 1` rows are in order. */
  lemma InsertDone<T>(s: seq<T>, cmp: (T, T) -> int, j: int, i: int)
    requires Inserting(s, cmp, j, i)
    requires j == 0 || cmp(s[j - 1], s[j]) <= 0
    ensures SortedRange(s, cmp, 0, i + 1)
  {
  }

  method Sort<T(!new)>(a: array<T>, cmp: (T, T) -> int)
    requires Total(cmp)
    modifies a
    ensures Sorted(a[..], cmp)
    ensures multiset(a[..]) == multiset(old(a[..]))
  {
    if a.Length == 0 {
      return;
    }
    for i := 1 to a.Length
      invariant SortedRange(a[..], cmp, 0, i)
      invariant multiset(a[..]) == multiset(old(a[..]))
    {
      var j := i;
      while j > 0 && cmp(a[j - 1], a[j]) > 0
        invariant Inserting(a[..], cmp, j, i)
        invariant multiset(a[..]) == multiset(old(a[..]))
      {
        SwapStep(a[..], cmp, j, i);
        ghost var swapped := Swap(a[..], j - 1, j);
        a[j - 1], a[j] := a[j], a[j - 1];
        assert a[..] == swapped;
        j := j - 1;
      }
      InsertDone(a[..], cmp, j, i);
    }
  }

  /** With a transitive comparator, adjacent order is order between any two
      rows. */
  lemma {:induction false} SortedPairs<T(!new)>(s: seq<T>, cmp: (T, T) -> int, i: int, j: int)
    requires Transitive(cmp)
    requires Sorted(s, cmp)
    requires 0 <= i < j < |s|
    ensures cmp(s[i], s[j]) <= 0
    decreases j - i
  {
    if i + 1 < j {
      SortedPairs(s, cmp, i + 1, j);
    }
  }

  /** Sorting a fresh copy of a list: the list of the page. */
  method SortedCopy<T(!new)>(xs: seq<T>, cmp: (T, T) -> int) returns (r: seq<T>)
    requires Total(cmp)
    ensures Sorted(r, cmp)
    ensures multiset(r) == multiset(xs)
    ensures |r| == |xs|
  {
    if xs == [] {
      return [];
    }
    var a := new T[|xs|](i requires 0 <= i < |xs| => xs[i]);
    assert a[..] == xs;
    Sort(a, cmp);
    r := a[..];
    assert |r| == |multiset(r)| == |multiset(xs)| == |xs|;
  }
}
