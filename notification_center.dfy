/** The notification store of the top bar: a newest-first list of
    notifications, each read or unread, with the actions that rebuild it.
    The clock's reading is a parameter; it supplies both the id (the
    millisecond count, in decimal) and the timestamp, so ids need not be
    unique and removal and marking act on every entry with the id. */
module Notifications {
  import Strings

  datatype Kind = Success | Failure | Info | Warning

  datatype Notification = Notification(
    id: string,
    title: string,
    message: string,
    kind: Kind,
    timestamp: string,
    read: bool)

  /** `addNotification`: the new entry, unread, goes in front. */
  function Add(ns: seq<Notification>, title: string, message: string, kind: Kind,
               nowMillis: nat, now: string): (r: seq<Notification>)
    ensures |r| == |ns| + 1
    ensures r[0] == Notification(Strings.NatToString(nowMillis), title, message, kind, now, false)
    ensures r[1..] == ns
  {
    [Notification(Strings.NatToString(nowMillis), title, message, kind, now, false)] + ns
  }

  /** `removeNotification`: every entry with the id goes, the others stay in
      order. */
  function Remove(ns: seq<Notification>, id: string): (r: seq<Notification>)
    ensures |r| <= |ns|
  {
    if ns == [] then []
    else if ns[0].id == id then Remove(ns[1..], id)
    else [ns[0]] + Remove(ns[1..], id)
  }

  function ClearAll(): (r: seq<Notification>)
    ensures |r| == 0
  {
    []
  }

  function MarkRead(n: Notification): Notification {
    n.(read := true)
  }

  /** `markAsRead`: entries with the id become read, in place. */
  function MarkAsRead(ns: seq<Notification>, id: string): (r: seq<Notification>)
    ensures |r| == |ns|
    ensures forall i :: 0 <= i < |ns| ==> r[i] == if ns[i].id == id then MarkRead(ns[i]) else ns[i]
  {
    seq(|ns|, i requires 0 <= i < |ns| => if ns[i].id == id then MarkRead(ns[i]) else ns[i])
  }

  /** `markAllAsRead`. */
  function MarkAllAsRead(ns: seq<Notification>): (r: seq<Notification>)
    ensures |r| == |ns|
    ensures forall i :: 0 <= i < |ns| ==> r[i] == MarkRead(ns[i])
  {
    seq(|ns|, i requires 0 <= i < |ns| => MarkRead(ns[i]))
  }

  /** The badge's number: entries not yet read. */
  function UnreadCount(ns: seq<Notification>): (c: nat)
    ensures c <= |ns|
  {
    if ns == [] then 0 else (if ns[0].read then 0 else 1) + UnreadCount(ns[1..])
  }

  /** No unread entries exactly when every entry is read. */
  lemma {:induction false} UnreadZeroIff(ns: seq<Notification>)
    ensures UnreadCount(ns) == 0 <==> forall i :: 0 <= i < |ns| ==> ns[i].read
  {
    if ns != [] {
      UnreadZeroIff(ns[1..]);
      assert forall i :: 1 <= i < |ns| ==> ns[i] == ns[1..][i - 1];
    }
  }

  /** A new notification adds one to the badge and keeps every older entry
      after it in its order. */
  lemma AddUnread(ns: seq<Notification>, title: string, message: string, kind: Kind, nowMillis: nat, now: string)
    ensures UnreadCount(Add(ns, title, message, kind, nowMillis, now)) == UnreadCount(ns) + 1
  {
    var r := Add(ns, title, message, kind, nowMillis, now);
    assert r[1..] == ns;
  }

  /** After removal no entry has the id, an entry with another id stays as
      often as it was there, and a list without the id is left as it is. */
  lemma RemoveSpec(ns: seq<Notification>, id: string)
    ensures forall i :: 0 <= i < |Remove(ns, id)| ==> Remove(ns, id)[i].id != id
    ensures forall n: Notification :: n.id != id ==> multiset(Remove(ns, id))[n] == multiset(ns)[n]
    ensures (forall i :: 0 <= i < |ns| ==> ns[i].id != id) ==> Remove(ns, id) == ns
  {
    RemoveDropsId(ns, id);
    RemoveKeepsOthers(ns, id);
    RemoveWithoutId(ns, id);
  }

  lemma {:induction false} RemoveDropsId(ns: seq<Notification>, id: string)
    ensures forall i :: 0 <= i < |Remove(ns, id)| ==> Remove(ns, id)[i].id != id
  {
    if ns != [] {
      RemoveDropsId(ns[1..], id);
      var rest := Remove(ns[1..], id);
      if ns[0].id != id {
        assert forall i :: 1 <= i < |rest| + 1 ==> ([ns[0]] + rest)[i] == rest[i - 1];
      }
    }
  }

  lemma {:induction false} RemoveKeepsOthers(ns: seq<Notification>, id: string)
    ensures forall n: Notification :: n.id != id ==> multiset(Remove(ns, id))[n] == multiset(ns)[n]
  {
    if ns != [] {
      RemoveKeepsOthers(ns[1..], id);
      assert ns == [ns[0]] + ns[1..];
    }
  }

  lemma {:induction false} RemoveWithoutId(ns: seq<Notification>, id: string)
    ensures (forall i :: 0 <= i < |ns| ==> ns[i].id != id) ==> Remove(ns, id) == ns
  {
    if ns != [] && forall i :: 0 <= i < |ns| ==> ns[i].id != id {
      RemoveWithoutId(ns[1..], id);
      assert forall i :: 0 <= i < |ns[1..]| ==> ns[1..][i] == ns[i + 1];
      assert ns == [ns[0]] + ns[1..];
    }
  }

  /** Removal works on each part of a list separately, so the survivors
      keep their order. */
  lemma {:induction false} RemoveAppend(a: seq<Notification>, b: seq<Notification>, id: string)
    ensures Remove(a + b, id) == Remove(a, id) + Remove(b, id)
  {
    if a != [] {
      assert (a + b)[1..] == a[1..] + b;
      RemoveAppend(a[1..], b, id);
    } else {
      assert a + b == b;
    }
  }

  /** Removing never adds unread entries. */
  lemma {:induction false} RemoveUnread(ns: seq<Notification>, id: string)
    ensures UnreadCount(Remove(ns, id)) <= UnreadCount(ns)
  {
    if ns != [] {
      RemoveUnread(ns[1..], id);
      if ns[0].id != id {
        assert ([ns[0]] + Remove(ns[1..], id))[1..] == Remove(ns[1..], id);
      }
    }
  }

  /** Marking as read leaves no unread entry with the id, never raises the
      badge, and a second marking changes nothing. */
  lemma {:induction false} MarkAsReadSpec(ns: seq<Notification>, id: string)
    ensures forall i :: 0 <= i < |ns| && ns[i].id == id ==> MarkAsRead(ns, id)[i].read
    ensures UnreadCount(MarkAsRead(ns, id)) <= UnreadCount(ns)
    ensures MarkAsRead(MarkAsRead(ns, id), id) == MarkAsRead(ns, id)
  {
    if ns != [] {
      MarkAsReadSpec(ns[1..], id);
      assert MarkAsRead(ns, id)[1..] == MarkAsRead(ns[1..], id);
    }
  }

  /** Marking everything read clears the badge and keeps every entry's
      content. */
  lemma {:induction false} MarkAllAsReadSpec(ns: seq<Notification>)
    ensures UnreadCount(MarkAllAsRead(ns)) == 0
    ensures forall i :: 0 <= i < |ns| ==> MarkAllAsRead(ns)[i].(read := ns[i].read) == ns[i]
  {
    UnreadZeroIff(MarkAllAsRead(ns));
  }
}
