/** The server's in-memory database: bots and administrators kept in
    insertion order under ids handed out by per-table counters that start at
    zero and are incremented before use. The clock's reading is a parameter;
    the messages the database writes to the log are recorded in `logged`. */
module MemoryDb {
  import opened Wrappers
  import opened KeyedTable

  datatype Bot = Bot(
    id: int,
    isim: string,
    token: string,
    aktif: bool,
    webhookUrl: Option<string>,
    olusturmaTarihi: string,
    guncellemeTarihi: string)

  datatype Yonetici = Yonetici(
    id: int,
    kullaniciAdi: string,
    sifreHash: string,
    olusturmaTarihi: string)

  function BotId(b: Bot): int { b.id }
  function YoneticiId(y: Yonetici): int { y.id }

  /** `Array.from(values()).find(y => y.kullanici_adi === name)`: the first
      administrator in insertion order with that user name. */
  function FindByName(ys: seq<Yonetici>, name: string): (r: Option<Yonetici>)
    ensures r.Some? ==> r.value.kullaniciAdi == name
    ensures r.Some? ==> exists i :: 0 <= i < |ys| && ys[i] == r.value
                                    && forall j :: 0 <= j < i ==> ys[j].kullaniciAdi != name
    ensures r.None? ==> forall i :: 0 <= i < |ys| ==> ys[i].kullaniciAdi != name
  {
    if ys == [] then None
    else if ys[0].kullaniciAdi == name then Some(ys[0])
    else
      var r := FindByName(ys[1..], name);
      assert forall i :: 1 <= i < |ys| ==> ys[i] == ys[1..][i - 1];
      if r.Some? then
        var k :| 0 <= k < |ys[1..]| && ys[1..][k] == r.value
                 && forall j :: 0 <= j < k ==> ys[1..][j].kullaniciAdi != name;
        assert ys[k + 1] == r.value;
        r
      else r
  }

  const InitMessage: string := "Bellek içi veritabanı başlatıldı"

  function CreatedMessage(kullaniciAdi: string): string {
    "Yönetici oluşturuldu: " + kullaniciAdi
  }

  class InMemoryDB {
    var botlar: seq<Bot>
    var yoneticiler: seq<Yonetici>
    /** The last id handed out in each table. */
    var lastBotId: nat
    var lastYoneticiId: nat
    /** Messages written to the log, oldest first. */
    var logged: seq<string>

    /** Ids are positive, increase in insertion order and never pass the
        counter, so the next id is always fresh. */
    ghost predicate Valid()
      reads this
    {
      Increasing(botlar, BotId) && Increasing(yoneticiler, YoneticiId)
      && (forall i :: 0 <= i < |botlar| ==> 1 <= botlar[i].id <= lastBotId)
      && (forall i :: 0 <= i < |yoneticiler| ==> 1 <= yoneticiler[i].id <= lastYoneticiId)
    }

    constructor()
      ensures Valid()
      ensures botlar == [] && yoneticiler == [] && lastBotId == 0 && lastYoneticiId == 0
      ensures logged == [InitMessage]
    {
      botlar := [];
      yoneticiler := [];
      lastBotId := 0;
      lastYoneticiId := 0;
      logged := [InitMessage];
    }

    /** `insertYonetici`: a new administrator under the next id, appended. */
    method InsertYonetici(kullaniciAdi: string, sifreHash: string, now: string) returns (y: Yonetici)
      requires Valid()
      modifies this
      ensures Valid()
      ensures y == Yonetici(old(lastYoneticiId) + 1, kullaniciAdi, sifreHash, now)
      ensures !HasKey(old(yoneticiler), YoneticiId, y.id)
      ensures yoneticiler == old(yoneticiler) + [y] && lastYoneticiId == y.id
      ensures botlar == old(botlar) && lastBotId == old(lastBotId)
      ensures logged == old(logged) + [CreatedMessage(kullaniciAdi)]
    {
      y := Yonetici(lastYoneticiId + 1, kullaniciAdi, sifreHash, now);
      AppendNext(yoneticiler, YoneticiId, y, lastYoneticiId);
      lastYoneticiId := lastYoneticiId + 1;
      yoneticiler := yoneticiler + [y];
      logged := logged + [CreatedMessage(kullaniciAdi)];
    }

    function GetYoneticiByKullaniciAdi(kullaniciAdi: string): Option<Yonetici>
      reads this
    {
      FindByName(yoneticiler, kullaniciAdi)
    }

    /** `deleteYonetici`: true exactly when an administrator with that id
        existed; it is gone afterwards. */
    method DeleteYonetici(id: int) returns (deleted: bool)
      requires Valid()
      modifies this
      ensures Valid()
      ensures deleted <==> HasKey(old(yoneticiler), YoneticiId, id)
      ensures yoneticiler == Remove(old(yoneticiler), YoneticiId, id)
      ensures botlar == old(botlar) && lastBotId == old(lastBotId)
      ensures lastYoneticiId == old(lastYoneticiId) && logged == old(logged)
    {
      deleted := Get(yoneticiler, YoneticiId, id).Some?;
      RemoveSpec(yoneticiler, YoneticiId, id);
      RemoveKeepsBound(yoneticiler, YoneticiId, id, lastYoneticiId);
      yoneticiler := Remove(yoneticiler, YoneticiId, id);
    }

    /** `insertBot`: a new active bot under the next id, created and updated
        now, appended. */
    method InsertBot(isim: string, token: string, now: string) returns (bot: Bot)
      requires Valid()
      modifies this
      ensures Valid()
      ensures bot == Bot(old(lastBotId) + 1, isim, token, true, None, now, now)
      ensures !HasKey(old(botlar), BotId, bot.id)
      ensures botlar == old(botlar) + [bot] && lastBotId == bot.id
      ensures yoneticiler == old(yoneticiler) && lastYoneticiId == old(lastYoneticiId)
      ensures logged == old(logged)
    {
      bot := Bot(lastBotId + 1, isim, token, true, None, now, now);
      AppendNext(botlar, BotId, bot, lastBotId);
      lastBotId := lastBotId + 1;
      botlar := botlar + [bot];
    }

    function GetAllBots(): seq<Bot>
      reads this
    {
      botlar
    }

    function GetBot(id: int): Option<Bot>
      reads this
    {
      Get(botlar, BotId, id)
    }

    /** `updateBotStatus`: the bot with that id gets the new flag and update
        time, keeping its place; `None` when there is no such bot. */
    method UpdateBotStatus(id: int, aktif: bool, now: string) returns (r: Option<Bot>)
      requires Valid()
      modifies this
      ensures Valid()
      ensures r.None? <==> !HasKey(old(botlar), BotId, id)
      ensures r.None? ==> botlar == old(botlar)
      ensures r.Some? ==> r.value == old(GetBot(id)).value.(aktif := aktif, guncellemeTarihi := now)
      ensures r.Some? ==> botlar == Replace(old(botlar), BotId, id, r.value)
      ensures r.Some? ==> GetBot(id) == r
      ensures forall other :: other != id ==> GetBot(other) == old(GetBot(other))
      ensures yoneticiler == old(yoneticiler) && lastBotId == old(lastBotId)
      ensures lastYoneticiId == old(lastYoneticiId) && logged == old(logged)
    {
      var found := Get(botlar, BotId, id);
      if found.None? {
        return None;
      }
      var bot := found.value.(aktif := aktif, guncellemeTarihi := now);
      ReplaceSpec(botlar, BotId, id, bot);
      ghost var before := botlar;
      botlar := Replace(botlar, BotId, id, bot);
      assert forall i :: 0 <= i < |botlar| ==> botlar[i].id == before[i].id;
      r := Some(bot);
    }

    /** `deleteBot`: true exactly when a bot with that id existed; it is
        gone afterwards. */
    method DeleteBot(id: int) returns (deleted: bool)
      requires Valid()
      modifies this
      ensures Valid()
      ensures deleted <==> HasKey(old(botlar), BotId, id)
      ensures botlar == Remove(old(botlar), BotId, id)
      ensures yoneticiler == old(yoneticiler) && lastBotId == old(lastBotId)
      ensures lastYoneticiId == old(lastYoneticiId) && logged == old(logged)
    {
      deleted := Get(botlar, BotId, id).Some?;
      RemoveSpec(botlar, BotId, id);
      RemoveKeepsBound(botlar, BotId, id, lastBotId);
      botlar := Remove(botlar, BotId, id);
    }
  }

  /** Appending a record under the id after the counter keeps the ids
      increasing and within the advanced counter, and the id was not taken. */
  lemma AppendNext<T>(xs: seq<T>, key: T -> int, x: T, last: nat)
    requires Increasing(xs, key)
    requires forall i :: 0 <= i < |xs| ==> 1 <= key(xs[i]) <= last
    requires key(x) == last + 1
    ensures Increasing(xs + [x], key)
    ensures forall i :: 0 <= i < |xs + [x]| ==> 1 <= key((xs + [x])[i]) <= last + 1
    ensures !HasKey(xs, key, key(x))
  {
    AppendFresh(xs, key, x);
  }

  /** Deleting keeps every remaining id within the counter's range. */
  lemma RemoveKeepsBound<T>(xs: seq<T>, key: T -> int, id: int, last: int)
    requires forall i :: 0 <= i < |xs| ==> 1 <= key(xs[i]) <= last
    ensures forall k :: 0 <= k < |Remove(xs, key, id)| ==> 1 <= key(Remove(xs, key, id)[k]) <= last
  {
    forall k | 0 <= k < |Remove(xs, key, id)|
      ensures 1 <= key(Remove(xs, key, id)[k]) <= last
    {
      RemoveSubset(xs, key, id, k);
    }
  }
}
