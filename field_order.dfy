/** The comparator the list pages hand to `array.sort`: the two rows' values
    of the sort field are compared with `localeCompare` when both are
    strings and by difference when both are numbers, in the chosen
    direction; any other pair compares equal. Rows come from JSON, so a
    `Date` object never occurs and the pages' `Date` branches are never
    taken. `localeCompare` is the parameter `compare`. */
module FieldOrder {
  import TableSort
  import opened SortMenu

  /** A row's value under a field name: a string, a number, or absent (an
      unknown field name reads `undefined`). */
  datatype Value = Text(s: string) | Number(n: int) | Missing

  function Compare(a: Value, b: Value, dir: Direction, compare: (string, string) -> int): (r: int)
    ensures a.Number? && b.Number? ==> (r < 0 <==> if dir == Asc then a.n < b.n else b.n < a.n)
    ensures a.Number? && b.Number? ==> (r == 0 <==> a.n == b.n)
    ensures !(a.Text? && b.Text?) && !(a.Number? && b.Number?) ==> r == 0
  {
    if a.Text? && b.Text? then (if dir == Asc then compare(a.s, b.s) else compare(b.s, a.s))
    else if a.Number? && b.Number? then (if dir == Asc then a.n - b.n else b.n - a.n)
    else 0
  }

  /** The descending order is the ascending one with the arguments swapped. */
  lemma DescendingReverses(a: Value, b: Value, compare: (string, string) -> int)
    ensures Compare(a, b, Desc, compare) == Compare(b, a, Asc, compare)
  {
  }

  /** The comparator on rows, reading the field with `field`. */
  function By<T>(field: T -> Value, dir: Direction, compare: (string, string) -> int): (T, T) -> int {
    (x: T, y: T) => Compare(field(x), field(y), dir, compare)
  }

  /** A consistent `localeCompare` makes the row comparator consistent, in
      both directions, so the rows can be sorted by it. */
  lemma ByTotal<T(!new)>(field: T -> Value, dir: Direction, compare: (string, string) -> int)
    requires TableSort.Total(compare)
    ensures TableSort.Total(By(field, dir, compare))
  {
    forall x: T, y: T | By(field, dir, compare)(x, y) > 0
      ensures By(field, dir, compare)(y, x) <= 0
    {
      var a, b := field(x), field(y);
      if a.Text? && b.Text? {
        if dir == Asc {
          assert compare(a.s, b.s) > 0;
        } else {
          assert compare(b.s, a.s) > 0;
        }
      }
    }
  }

  /** Rows sorted by a numeric field are in numeric order, smallest first
      when ascending and largest first when descending, between any two
      positions and not only neighbours. */
  lemma {:induction false} NumbersInOrder<T>(s: seq<T>, field: T -> Value, dir: Direction,
                                             compare: (string, string) -> int, i: int, j: int)
    requires TableSort.Sorted(s, By(field, dir, compare))
    requires forall k :: 0 <= k < |s| ==> field(s[k]).Number?
    requires 0 <= i <= j < |s|
    ensures dir == Asc ==> field(s[i]).n <= field(s[j]).n
    ensures dir == Desc ==> field(s[j]).n <= field(s[i]).n
    decreases j - i
  {
    if i < j {
      NumbersInOrder(s, field, dir, compare, i, j - 1);
      assert By(field, dir, compare)(s[j - 1], s[j]) <= 0;
    }
  }

  /** Rows sorted by a text field, with a transitive `localeCompare`, are in
      its order between any two positions. */
  lemma {:induction false} TextInOrder<T>(s: seq<T>, field: T -> Value, dir: Direction,
                                          compare: (string, string) -> int, i: int, j: int)
    requires TableSort.Sorted(s, By(field, dir, compare))
    requires TableSort.Transitive(compare)
    requires forall k :: 0 <= k < |s| ==> field(s[k]).Text?
    requires 0 <= i < j < |s|
    ensures dir == Asc ==> compare(field(s[i]).s, field(s[j]).s) <= 0
    ensures dir == Desc ==> compare(field(s[j]).s, field(s[i]).s) <= 0
    decreases j - i
  {
    assert By(field, dir, compare)(s[j - 1], s[j]) <= 0;
    if i < j - 1 {
      TextInOrder(s, field, dir, compare, i, j - 1);
    }
  }
}
