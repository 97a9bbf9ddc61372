/** IP blocking on the server. A blocked IP is a row of the system-settings
    table whose key is `blocked_ip:` followed by the IP and whose value is
    the reason; listing recovers the IP from the key, and unblocking deletes
    that key. The settings table is a sequence of rows with distinct keys
    (the key is what rows are deleted by); a create on a taken key and a
    delete of a missing one fail, as the database's unique key makes them.
    Any other database failure is the parameter `failed`, and `errorText`
    is the message of the error thrown; each handler makes one log call. */
module IpBlocking {
  import opened Wrappers
  import opened Strings
  import LogBuffer

  const Prefix: string := "blocked_ip:"
  const DefaultReason: string := "Manuel engelleme"

  datatype Setting = Setting(anahtar: string, deger: string, guncellemeTarihi: string)

  /** One entry of the blocked-IP list the status endpoint returns. */
  datatype Blocked = Blocked(ip: string, sebep: string, tarih: string)

  datatype Reply = Reply(status: int, message: string)

  /** What a handler answers, the table it leaves and its log call. */
  datatype Outcome = Outcome(reply: Reply, rows: seq<Setting>, logged: LogBuffer.LogLine)

  function BlockKey(ip: string): string {
    Prefix + ip
  }

  /** `anahtar.replace('blocked_ip:', '')`. */
  function DecodeKey(anahtar: string): string {
    ReplaceFirst(anahtar, Prefix, "")
  }

  /** `sebep || 'Manuel engelleme'`. */
  function Reason(sebep: Option<string>): (r: string)
    ensures r != ""
    ensures sebep.Some? && sebep.value != "" ==> r == sebep.value
  {
    if sebep.Some? && sebep.value != "" then sebep.value else DefaultReason
  }

  /** Decoding an encoded key gives the IP back, and every listed key is the
      encoding of the IP decoded from it. */
  lemma KeyRoundTrip(ip: string, anahtar: string)
    ensures DecodeKey(BlockKey(ip)) == ip
    ensures StartsWith(anahtar, Prefix) ==> BlockKey(DecodeKey(anahtar)) == anahtar
  {
    assert StartsWith(BlockKey(ip), Prefix);
    ReplacePrefix(BlockKey(ip), Prefix);
    assert BlockKey(ip)[|Prefix|..] == ip;
    if StartsWith(anahtar, Prefix) {
      ReplacePrefix(anahtar, Prefix);
      assert anahtar == Prefix + anahtar[|Prefix|..];
    }
  }

  /** The rows the listing reads (keys starting with the prefix), as the
      status endpoint returns them, in the table's order. */
  function Listing(rows: seq<Setting>): (r: seq<Blocked>)
    ensures |r| <= |rows|
  {
    if rows == [] then []
    else
      var rest := Listing(rows[1..]);
      if StartsWith(rows[0].anahtar, Prefix)
      then [Blocked(DecodeKey(rows[0].anahtar), rows[0].deger, rows[0].guncellemeTarihi)] + rest
      else rest
  }

  lemma {:induction false} ListingAppend(a: seq<Setting>, b: seq<Setting>)
    ensures Listing(a + b) == Listing(a) + Listing(b)
  {
    if a == [] {
      assert a + b == b;
    } else {
      assert (a + b)[1..] == a[1..] + b;
      ListingAppend(a[1..], b);
    }
  }

  predicate HasKey(rows: seq<Setting>, anahtar: string) {
    exists i :: 0 <= i < |rows| && rows[i].anahtar == anahtar
  }

  predicate DistinctKeys(rows: seq<Setting>) {
    forall i, j :: 0 <= i < j < |rows| ==> rows[i].anahtar != rows[j].anahtar
  }

  /** `ipEngelle`: the new row and an info line, or, when the create fails
      (a taken key or another database failure), a 500 and an error line. */
  function IpEngelle(rows: seq<Setting>, ip: string, sebep: Option<string>, now: string,
                     failed: bool, errorText: string): Outcome {
    if failed || HasKey(rows, BlockKey(ip)) then
      Outcome(Reply(500, "IP engellenemedi"), rows,
              LogBuffer.LogLine(LogBuffer.Error, "IP engellenirken hata: " + errorText))
    else
      Outcome(Reply(200, "IP başarıyla engellendi"), rows + [Setting(BlockKey(ip), Reason(sebep), now)],
              LogBuffer.LogLine(LogBuffer.Info, "IP engellendi: " + ip))
  }

  /** The row with the key taken out. */
  function Without(rows: seq<Setting>, anahtar: string): (r: seq<Setting>)
    ensures |r| <= |rows|
    ensures !HasKey(r, anahtar)
  {
    if rows == [] then []
    else
      var rest := Without(rows[1..], anahtar);
      if rows[0].anahtar == anahtar then rest
      else
        assert forall i :: 1 <= i < |rest| + 1 ==> ([rows[0]] + rest)[i] == rest[i - 1];
        [rows[0]] + rest
  }

  /** `ipEngeliKaldir`: deletes exactly the key blocking created and logs
      it, or, when there is no such row or the database fails otherwise,
      answers 500 and logs the error. */
  function IpEngeliKaldir(rows: seq<Setting>, ip: string, failed: bool, errorText: string): Outcome {
    if !failed && HasKey(rows, BlockKey(ip)) then
      Outcome(Reply(200, "IP engeli başarıyla kaldırıldı"), Without(rows, BlockKey(ip)),
              LogBuffer.LogLine(LogBuffer.Info, "IP engeli kaldırıldı: " + ip))
    else
      Outcome(Reply(500, "IP engeli kaldırılamadı"), rows,
              LogBuffer.LogLine(LogBuffer.Error, "IP engeli kaldırılırken hata: " + errorText))
  }

  /** Blocking a new IP succeeds exactly when the database does not fail
      otherwise; it then keeps keys distinct, adds exactly one listed entry,
      at the end (the IP itself with its reason), and logs the IP. */
  lemma BlockThenList(rows: seq<Setting>, ip: string, sebep: Option<string>, now: string,
                      failed: bool, errorText: string)
    requires DistinctKeys(rows)
    requires !HasKey(rows, BlockKey(ip))
    ensures IpEngelle(rows, ip, sebep, now, failed, errorText).reply.status == 200 <==> !failed
    ensures !failed ==> DistinctKeys(IpEngelle(rows, ip, sebep, now, failed, errorText).rows)
    ensures !failed ==> Listing(IpEngelle(rows, ip, sebep, now, failed, errorText).rows)
                        == Listing(rows) + [Blocked(ip, Reason(sebep), now)]
    ensures !failed ==> IpEngelle(rows, ip, sebep, now, failed, errorText).logged
                        == LogBuffer.LogLine(LogBuffer.Info, "IP engellendi: " + ip)
  {
    var row := Setting(BlockKey(ip), Reason(sebep), now);
    ListingAppend(rows, [row]);
    assert StartsWith(row.anahtar, Prefix);
    KeyRoundTrip(ip, row.anahtar);
    assert Listing([row]) == [Blocked(ip, Reason(sebep), now)] by {
      assert [row][1..] == [];
    }
  }

  lemma {:induction false} WithoutAbsent(rows: seq<Setting>, anahtar: string)
    requires !HasKey(rows, anahtar)
    ensures Without(rows, anahtar) == rows
  {
    if rows != [] {
      assert !HasKey(rows[1..], anahtar) by {
        forall i | 0 <= i < |rows[1..]| ensures rows[1..][i].anahtar != anahtar {
          assert rows[1..][i] == rows[i + 1];
        }
      }
      WithoutAbsent(rows[1..], anahtar);
    }
  }

  lemma {:induction false} WithoutAppend(a: seq<Setting>, b: seq<Setting>, anahtar: string)
    ensures Without(a + b, anahtar) == Without(a, anahtar) + Without(b, anahtar)
  {
    if a == [] {
      assert a + b == b;
    } else {
      assert (a + b)[1..] == a[1..] + b;
      WithoutAppend(a[1..], b, anahtar);
    }
  }

  /** Unblocking right after blocking restores the table: it deletes exactly
      the row blocking created. */
  lemma BlockThenUnblock(rows: seq<Setting>, ip: string, sebep: Option<string>, now: string, e1: string, e2: string)
    requires !HasKey(rows, BlockKey(ip))
    ensures IpEngeliKaldir(IpEngelle(rows, ip, sebep, now, false, e1).rows, ip, false, e2)
         == Outcome(Reply(200, "IP engeli başarıyla kaldırıldı"), rows,
                    LogBuffer.LogLine(LogBuffer.Info, "IP engeli kaldırıldı: " + ip))
  {
    var row := Setting(BlockKey(ip), Reason(sebep), now);
    var after := rows + [row];
    assert after[|rows|] == row;
    assert HasKey(after, BlockKey(ip));
    assert IpEngelle(rows, ip, sebep, now, false, e1).rows == after;
    WithoutAppend(rows, [row], BlockKey(ip));
    WithoutAbsent(rows, BlockKey(ip));
    assert Without([row], BlockKey(ip)) == [] by {
      assert [row][1..] == [];
    }
    assert rows + [] == rows;
  }

  /** Blocking fails exactly when the IP is already blocked or the database
      fails otherwise, and unblocking exactly when it is not blocked or the
      database fails; a failure answers 500, leaves the table alone and
      logs the error's message. */
  lemma FailuresChangeNothing(rows: seq<Setting>, ip: string, sebep: Option<string>, now: string,
                              failed: bool, errorText: string)
    ensures IpEngelle(rows, ip, sebep, now, failed, errorText).reply.status == 500
            <==> failed || HasKey(rows, BlockKey(ip))
    ensures failed || HasKey(rows, BlockKey(ip)) ==>
      IpEngelle(rows, ip, sebep, now, failed, errorText)
        == Outcome(Reply(500, "IP engellenemedi"), rows,
                   LogBuffer.LogLine(LogBuffer.Error, "IP engellenirken hata: " + errorText))
    ensures IpEngeliKaldir(rows, ip, failed, errorText).reply.status == 500
            <==> failed || !HasKey(rows, BlockKey(ip))
    ensures failed || !HasKey(rows, BlockKey(ip)) ==>
      IpEngeliKaldir(rows, ip, failed, errorText)
        == Outcome(Reply(500, "IP engeli kaldırılamadı"), rows,
                   LogBuffer.LogLine(LogBuffer.Error, "IP engeli kaldırılırken hata: " + errorText))
  {
  }

  /** Rows whose key lacks the prefix are never listed. */
  lemma {:induction false} ListingIgnoresOthers(rows: seq<Setting>)
    requires forall i :: 0 <= i < |rows| ==> !StartsWith(rows[i].anahtar, Prefix)
    ensures Listing(rows) == []
  {
    if rows != [] {
      assert forall i :: 0 <= i < |rows[1..]| ==> rows[1..][i] == rows[i + 1];
      ListingIgnoresOthers(rows[1..]);
    }
  }
}
