/** A JavaScript `Map` from auto-incremented ids to records, as the
    in-memory database uses it: a sequence of records in insertion order,
    each carrying its own id (read by `key`). `set` on a present id keeps the
    record's place, `delete` removes it, and iteration follows insertion
    order. */
module KeyedTable {
  import opened Wrappers

  /** Ids strictly increase along the sequence: what handing out ids from a
      counter and appending gives. In particular no id occurs twice. */
  predicate Increasing<T>(xs: seq<T>, key: T -> int) {
    forall i, j :: 0 <= i < j < |xs| ==> key(xs[i]) < key(xs[j])
  }

  predicate HasKey<T>(xs: seq<T>, key: T -> int, id: int) {
    exists i :: 0 <= i < |xs| && key(xs[i]) == id
  }

  /** `map.get(id)`: the first record with that id. */
  function Get<T>(xs: seq<T>, key: T -> int, id: int): (r: Option<T>)
    ensures r.Some? ==> key(r.value) == id && r.value in xs
    ensures r.None? <==> !HasKey(xs, key, id)
  {
    if xs == [] then None
    else if key(xs[0]) == id then Some(xs[0])
    else
      var r := Get(xs[1..], key, id);
      assert forall i :: 1 <= i < |xs| ==> xs[i] == xs[1..][i - 1];
      r
  }

  /** `map.delete(id)`: every record with that id goes. */
  function Remove<T>(xs: seq<T>, key: T -> int, id: int): (r: seq<T>)
    ensures |r| <= |xs|
    ensures !HasKey(r, key, id)
  {
    if xs == [] then []
    else
      var rest := Remove(xs[1..], key, id);
      if key(xs[0]) == id then rest
      else
        assert forall i :: 1 <= i < |rest| + 1 ==> ([xs[0]] + rest)[i] == rest[i - 1];
        [xs[0]] + rest
  }

  /** `map.set(id, x)` for an id already present: `x` takes the old record's
      place. */
  function Replace<T>(xs: seq<T>, key: T -> int, id: int, x: T): (r: seq<T>)
    ensures |r| == |xs|
    ensures forall i :: 0 <= i < |xs| ==> r[i] == if key(xs[i]) == id then x else xs[i]
  {
    seq(|xs|, i requires 0 <= i < |xs| => if key(xs[i]) == id then x else xs[i])
  }

  /** With distinct ids, `get` returns the unique record with that id. */
  lemma {:induction false} GetUnique<T>(xs: seq<T>, key: T -> int, i: int)
    requires Increasing(xs, key)
    requires 0 <= i < |xs|
    ensures Get(xs, key, key(xs[i])) == Some(xs[i])
  {
    if i > 0 {
      assert key(xs[0]) < key(xs[i]);
      assert xs[1..][i - 1] == xs[i];
      GetUnique(xs[1..], key, i - 1);
    }
  }

  lemma {:induction false} GetAppend<T>(xs: seq<T>, ys: seq<T>, key: T -> int, id: int)
    requires !HasKey(ys, key, id)
    ensures Get(xs + ys, key, id) == Get(xs, key, id)
  {
    if xs == [] {
      assert xs + ys == ys;
    } else {
      assert (xs + ys)[0] == xs[0];
      assert (xs + ys)[1..] == xs[1..] + ys;
      GetAppend(xs[1..], ys, key, id);
    }
  }

  /** Appending a record whose id is larger than every id present (the next
      counter value) keeps the ids increasing, makes the record findable, and
      changes no other lookup. */
  lemma AppendFresh<T>(xs: seq<T>, key: T -> int, x: T)
    requires Increasing(xs, key)
    requires forall i :: 0 <= i < |xs| ==> key(xs[i]) < key(x)
    ensures Increasing(xs + [x], key)
    ensures Get(xs + [x], key, key(x)) == Some(x)
    ensures forall id :: id != key(x) ==> Get(xs + [x], key, id) == Get(xs, key, id)
  {
    GetUnique(xs + [x], key, |xs|);
    forall id | id != key(x) ensures Get(xs + [x], key, id) == Get(xs, key, id) {
      GetAppend(xs, [x], key, id);
    }
  }

  /** After `delete(id)` no record has that id, the ids still increase, the
      other records keep their order and stay findable, and exactly one
      record went when the id was present. */
  lemma {:induction false} RemoveSpec<T>(xs: seq<T>, key: T -> int, id: int)
    requires Increasing(xs, key)
    ensures Increasing(Remove(xs, key, id), key)
    ensures |Remove(xs, key, id)| == if HasKey(xs, key, id) then |xs| - 1 else |xs|
    ensures forall other :: other != id ==> Get(Remove(xs, key, id), key, other) == Get(xs, key, other)
  {
    if xs != [] {
      var rest := xs[1..];
      assert Increasing(rest, key);
      RemoveSpec(rest, key, id);
      var r := Remove(rest, key, id);
      assert HasKey(xs, key, id) <==> key(xs[0]) == id || HasKey(rest, key, id) by {
        if HasKey(xs, key, id) {
          var k :| 0 <= k < |xs| && key(xs[k]) == id;
          if k > 0 { assert key(rest[k - 1]) == id; }
        }
        if HasKey(rest, key, id) {
          var k :| 0 <= k < |rest| && key(rest[k]) == id;
          assert key(xs[k + 1]) == id;
        }
      }
      if key(xs[0]) == id {
        assert !HasKey(rest, key, id) by {
          forall k | 0 <= k < |rest| ensures key(rest[k]) != id {
            assert key(xs[0]) < key(xs[k + 1]);
          }
        }
      } else {
        forall k | 0 <= k < |r| ensures key(xs[0]) < key(r[k]) {
          RemoveSubset(rest, key, id, k);
        }
        assert ([xs[0]] + r)[1..] == r;
      }
    }
  }

  /** Every record left by `delete` was there before. */
  lemma {:induction false} RemoveSubset<T>(xs: seq<T>, key: T -> int, id: int, k: int)
    requires 0 <= k < |Remove(xs, key, id)|
    ensures exists i :: 0 <= i < |xs| && xs[i] == Remove(xs, key, id)[k]
  {
    var rest := Remove(xs[1..], key, id);
    if key(xs[0]) == id {
      RemoveSubset(xs[1..], key, id, k);
      var i :| 0 <= i < |xs[1..]| && xs[1..][i] == rest[k];
      assert xs[i + 1] == rest[k];
    } else if k > 0 {
      RemoveSubset(xs[1..], key, id, k - 1);
      var i :| 0 <= i < |xs[1..]| && xs[1..][i] == rest[k - 1];
      assert xs[i + 1] == Remove(xs, key, id)[k];
    } else {
      assert xs[0] == Remove(xs, key, id)[0];
    }
  }

  /** Two sequences that agree except at records whose id is not `id` find
      the same record for `id`. */
  lemma {:induction false} GetSame<T>(xs: seq<T>, ys: seq<T>, key: T -> int, id: int)
    requires |xs| == |ys|
    requires forall i :: 0 <= i < |xs| ==> (xs[i] == ys[i] || (key(xs[i]) != id && key(ys[i]) != id))
    ensures Get(xs, key, id) == Get(ys, key, id)
  {
    if xs != [] {
      GetSame(xs[1..], ys[1..], key, id);
    }
  }

  /** `set(id, x)` with `x` carrying the same id keeps every id in its place,
      so the ids still increase; `get(id)` then gives `x` and every other
      lookup is unchanged. */
  lemma ReplaceSpec<T>(xs: seq<T>, key: T -> int, id: int, x: T)
    requires Increasing(xs, key)
    requires key(x) == id
    requires HasKey(xs, key, id)
    ensures Increasing(Replace(xs, key, id, x), key)
    ensures Get(Replace(xs, key, id, x), key, id) == Some(x)
    ensures forall other :: other != id ==> Get(Replace(xs, key, id, x), key, other) == Get(xs, key, other)
  {
    var r := Replace(xs, key, id, x);
    assert forall i :: 0 <= i < |xs| ==> key(r[i]) == key(xs[i]);
    var i :| 0 <= i < |xs| && key(xs[i]) == id;
    GetUnique(r, key, i);
    forall other | other != id ensures Get(r, key, other) == Get(xs, key, other) {
      GetSame(xs, r, key, other);
    }
  }
}
