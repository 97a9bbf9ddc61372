/** The array idioms the pages use on immutable lists: `filter` with a
    predicate, `filter((_, j) => j !== i)` to drop one index, and
    `filter(...).length` to count. */
module Lists {
  import opened Wrappers

  /** `xs.filter(p)`. */
  function Filter<T>(xs: seq<T>, p: T -> bool): (r: seq<T>)
    ensures |r| <= |xs|
    ensures forall i :: 0 <= i < |r| ==> r[i] in xs && p(r[i])
    ensures forall i :: 0 <= i < |xs| && p(xs[i]) ==> xs[i] in r
  {
    if xs == [] then []
    else (if p(xs[0]) then [xs[0]] else []) + Filter(xs[1..], p)
  }

  /** Filtering keeps the relative order: it distributes over concatenation. */
  lemma {:induction false} FilterAppend<T>(a: seq<T>, b: seq<T>, p: T -> bool)
    ensures Filter(a + b, p) == Filter(a, p) + Filter(b, p)
  {
    if a == [] {
      assert a + b == b;
    } else {
      assert (a + b)[0] == a[0];
      assert (a + b)[1..] == a[1..] + b;
      FilterAppend(a[1..], b, p);
    }
  }

  /** A filter that accepts every element returns the list unchanged. */
  lemma {:induction false} FilterKeepsAll<T>(xs: seq<T>, p: T -> bool)
    requires forall i :: 0 <= i < |xs| ==> p(xs[i])
    ensures Filter(xs, p) == xs
  {
    if xs != [] {
      FilterKeepsAll(xs[1..], p);
    }
  }

  /** The filtered list, as a multiset, is the part of the input satisfying `p`. */
  lemma {:induction false} FilterMultiset<T>(xs: seq<T>, p: T -> bool)
    ensures forall x :: multiset(Filter(xs, p))[x] == if p(x) then multiset(xs)[x] else 0
  {
    if xs != [] {
      FilterMultiset(xs[1..], p);
      var head := if p(xs[0]) then [xs[0]] else [];
      assert xs == [xs[0]] + xs[1..];
      assert multiset(xs) == multiset{xs[0]} + multiset(xs[1..]);
      assert multiset(Filter(xs, p)) == multiset(head) + multiset(Filter(xs[1..], p));
    }
  }

  /** `xs.filter(p).length`. */
  function Count<T>(xs: seq<T>, p: T -> bool): nat {
    |Filter(xs, p)|
  }

  /** An element and its complement partition the list. */
  lemma {:induction false} CountSplit<T>(xs: seq<T>, p: T -> bool, q: T -> bool)
    requires forall x :: q(x) == !p(x)
    ensures Count(xs, p) + Count(xs, q) == |xs|
  {
    if xs != [] {
      CountSplit(xs[1..], p, q);
    }
  }

  /** `y => y !== x`. */
  function Differs<T(==)>(x: T): T -> bool {
    (y: T) => y != x
  }

  /** `xs.filter(y => y !== x)` removes every `x` and keeps every other
      element; after appending an `x` that was not there it gives the list
      back. */
  lemma WithoutSpec<T>(xs: seq<T>, x: T)
    ensures x !in Filter(xs, Differs(x))
    ensures forall y :: y != x ==> (y in Filter(xs, Differs(x)) <==> y in xs)
    ensures x !in xs ==> Filter(xs + [x], Differs(x)) == xs
  {
    if x !in xs {
      FilterAppend(xs, [x], Differs(x));
      FilterKeepsAll(xs, Differs(x));
      assert Filter([x], Differs(x)) == [] + Filter([], Differs(x));
    }
  }

  /** `xs.filter((_, j) => j !== i)`, written as the filter it is: walk the
      list with the running index `j` and skip the element whose index is `i`. */
  function DropIndexFrom<T>(xs: seq<T>, i: int, j: int): seq<T> {
    if xs == [] then []
    else (if j == i then [] else [xs[0]]) + DropIndexFrom(xs[1..], i, j + 1)
  }

  function RemoveAt<T>(xs: seq<T>, i: int): seq<T> {
    DropIndexFrom(xs, i, 0)
  }

  lemma {:induction false} DropIndexFromSlices<T>(xs: seq<T>, i: int, j: int)
    ensures j <= i < j + |xs| ==> DropIndexFrom(xs, i, j) == xs[..i - j] + xs[i - j + 1..]
    ensures !(j <= i < j + |xs|) ==> DropIndexFrom(xs, i, j) == xs
  {
    if xs != [] {
      DropIndexFromSlices(xs[1..], i, j + 1);
      if j == i {
        assert xs[..0] + xs[1..] == xs[1..];
      } else if j < i < j + |xs| {
        var k := i - j;
        assert DropIndexFrom(xs, i, j) == [xs[0]] + (xs[1..][..k - 1] + xs[1..][k..]);
        assert xs[..k] == [xs[0]] + xs[1..][..k - 1];
        assert xs[k + 1..] == xs[1..][k..];
      } else {
        assert DropIndexFrom(xs, i, j) == [xs[0]] + xs[1..];
        assert xs == [xs[0]] + xs[1..];
      }
    }
  }

  /** Removing index `i` removes exactly that entry and keeps the others in
      order; an index outside the list removes nothing. */
  lemma RemoveAtSpec<T>(xs: seq<T>, i: int)
    ensures 0 <= i < |xs| ==> RemoveAt(xs, i) == xs[..i] + xs[i + 1..]
    ensures 0 <= i < |xs| ==> |RemoveAt(xs, i)| == |xs| - 1
    ensures !(0 <= i < |xs|) ==> RemoveAt(xs, i) == xs
  {
    DropIndexFromSlices(xs, i, 0);
  }

  /** `xs.map(f)`: the image of each element, in order. */
  function Map<A, B>(xs: seq<A>, f: A -> B): (r: seq<B>)
    ensures |r| == |xs| && forall i :: 0 <= i < |xs| ==> r[i] == f(xs[i])
  {
    seq(|xs|, i requires 0 <= i < |xs| => f(xs[i]))
  }

  /** `xs.map(f)` where `f` may throw: the images in order, or `None` when
      `f` fails on some element. */
  function MapAll<A, B>(xs: seq<A>, f: A -> Option<B>): Option<seq<B>> {
    if xs == [] then Some([])
    else match (f(xs[0]), MapAll(xs[1..], f))
      case (Some(y), Some(rest)) => Some([y] + rest)
      case _ => None
  }

  /** The map succeeds exactly when `f` succeeds on every element, and then
      element `i` of the result is the image of element `i`. */
  lemma {:induction false} MapAllSpec<A, B>(xs: seq<A>, f: A -> Option<B>)
    ensures MapAll(xs, f).Some? <==> forall i :: 0 <= i < |xs| ==> f(xs[i]).Some?
    ensures MapAll(xs, f).Some? ==>
      |MapAll(xs, f).value| == |xs|
      && forall i :: 0 <= i < |xs| ==> MapAll(xs, f).value[i] == f(xs[i]).value
  {
    if xs != [] {
      MapAllSpec(xs[1..], f);
      assert forall i :: 1 <= i < |xs| ==> xs[i] == xs[1..][i - 1];
    }
  }
}
