/** The log entry shared by the server log controller, the browser log
    controller and the system-log page, and the newest-first bounded list all
    three keep: `logs.unshift(entry)` followed by a cut to the newest
    `cap` entries. */
module LogBuffer {
  import opened Wrappers

  /** Both controllers keep at most this many entries, and so does the page. */
  const MaxLogs: nat := 1000

  datatype Level = Info | Warn | Error

  /** `details` is any JSON value in the source; it is kept here as its
      serialised text, with `None` for a missing (or falsy) value. */
  datatype LogEntry = LogEntry(
    timestamp: string,
    level: Level,
    message: string,
    source: Option<string>,
    details: Option<string>)

  /** A call to the server log controller's `addLog`, as the controllers
      that log through it make it. */
  datatype LogLine = LogLine(level: Level, message: string)

  /** `[entry, ...buf]` cut to its first `cap` elements when it is longer. */
  function NewestFirst<T>(buf: seq<T>, entry: T, cap: nat): seq<T> {
    var grown := [entry] + buf;
    if |grown| > cap then grown[..cap] else grown
  }

  function Min(a: int, b: int): int {
    if a <= b then a else b
  }

  /** The new entry is at index 0, the list is never longer than `cap`, and
      behind the new entry come the previous entries, newest first, cut to
      `cap - 1` of them: on overflow exactly the oldest (last) ones go. */
  lemma NewestFirstSpec<T>(buf: seq<T>, entry: T, cap: nat)
    requires cap >= 1
    ensures var r := NewestFirst(buf, entry, cap);
      && |r| == Min(|buf| + 1, cap)
      && r[0] == entry
      && r[1..] == buf[..Min(|buf|, cap - 1)]
  {
    var r := NewestFirst(buf, entry, cap);
    assert r[1..] == buf[..Min(|buf|, cap - 1)];
  }

  /** Applying the rule to entries `es`, oldest first. */
  function AddAll<T>(buf: seq<T>, es: seq<T>, cap: nat): seq<T>
    decreases |es|
  {
    if es == [] then buf else AddAll(NewestFirst(buf, es[0], cap), es[1..], cap)
  }

  function Reverse<T>(s: seq<T>): (r: seq<T>)
    ensures |r| == |s|
  {
    if s == [] then [] else Reverse(s[1..]) + [s[0]]
  }

  /** Adding entries one by one keeps exactly the `cap` newest entries of
      everything seen, newest first: earlier cuts never lose an entry that
      would have survived the last one. */
  lemma {:induction false} AddAllIsNewestWindow<T>(buf: seq<T>, es: seq<T>, cap: nat)
    requires |buf| <= cap
    ensures var all := Reverse(es) + buf;
      AddAll(buf, es, cap) == all[..Min(|all|, cap)]
    decreases |es|
  {
    if es != [] {
      var next := NewestFirst(buf, es[0], cap);
      AddAllIsNewestWindow(next, es[1..], cap);
      var older := Reverse(es[1..]);
      assert Reverse(es) + buf == older + ([es[0]] + buf);
      WindowStep(older, es[0], buf, cap);
    }
  }

  /** Cutting `[e] + buf` to `cap` before putting newer entries `newer` in
      front of it does not change the newest `cap` entries of the whole. */
  lemma WindowStep<T>(newer: seq<T>, e: T, buf: seq<T>, cap: nat)
    ensures var rest := newer + NewestFirst(buf, e, cap);
      var all := newer + ([e] + buf);
      rest[..Min(|rest|, cap)] == all[..Min(|all|, cap)]
  {
    var grown := [e] + buf;
    var next := NewestFirst(buf, e, cap);
    var rest := newer + next;
    var all := newer + grown;
    var m := Min(|rest|, cap);
    assert m == Min(|all|, cap);
    assert forall k :: 0 <= k < m ==> rest[k] == all[k];
  }
}
