/** The messages page: the bots' incoming and outgoing messages, narrowed by
    a search text, a direction filter and a bot filter, sorted by the chosen
    field, exported as CSV, with the number of distinct users. `toLowerCase`,
    `localeCompare` and `new Date(s).getTime()` are the parameters `lower`,
    `compare` and `time`. */
module Mesajlar {
  import Strings
  import Lists
  import Csv
  import TableSort
  import opened SortMenu
  import opened FieldOrder

  datatype Tip = Gelen | Giden

  function TipName(t: Tip): string {
    match t
    case Gelen => "gelen"
    case Giden => "giden"
  }

  datatype Mesaj = Mesaj(
    id: int,
    kullaniciId: int,
    kullaniciAdi: string,
    botId: int,
    botAdi: string,
    mesaj: string,
    tarih: string,
    tip: Tip)

  /** The page opens sorted by date, newest first. */
  const DefaultSort: ActiveSort := ActiveSort("tarih", Desc)

  /** `mesaj[field]`: the JSON value under a field name. */
  function Field(m: Mesaj, name: string): Value {
    if name == "id" then Number(m.id)
    else if name == "kullanici_id" then Number(m.kullaniciId)
    else if name == "kullanici_adi" then Text(m.kullaniciAdi)
    else if name == "bot_id" then Number(m.botId)
    else if name == "bot_adi" then Text(m.botAdi)
    else if name == "mesaj" then Text(m.mesaj)
    else if name == "tarih" then Text(m.tarih)
    else if name == "tip" then Text(TipName(m.tip))
    else Missing
  }

  /** The page's comparator: `localeCompare` when both values are strings,
      otherwise the two dates' difference when the field is `tarih`,
      otherwise equal. Numbers are not compared. */
  function Cmp(a: Mesaj, b: Mesaj, field: string, dir: Direction,
               compare: (string, string) -> int, time: string -> int): int {
    var x, y := Field(a, field), Field(b, field);
    if x.Text? && y.Text? then (if dir == Asc then compare(x.s, y.s) else compare(y.s, x.s))
    else if field == "tarih" then (if dir == Asc then time(a.tarih) - time(b.tarih) else time(b.tarih) - time(a.tarih))
    else 0
  }

  function Order(field: string, dir: Direction, compare: (string, string) -> int,
                 time: string -> int): (Mesaj, Mesaj) -> int {
    (a: Mesaj, b: Mesaj) => Cmp(a, b, field, dir, compare, time)
  }

  /** The field's value when it is a string, and nothing otherwise. */
  function TextOnly(v: Value): Value {
    if v.Text? then v else Missing
  }

  function TextFieldFn(field: string): Mesaj -> Value {
    (m: Mesaj) => TextOnly(Field(m, field))
  }

  /** `tarih` is a string, so the date branch is never taken: the comparator
      is the string order on the field, whatever `time` is, and rows sorted
      by a numeric field all compare equal. */
  lemma OrderIsTextOrder(field: string, dir: Direction, compare: (string, string) -> int, time: string -> int)
    ensures forall a: Mesaj, b: Mesaj ::
      Order(field, dir, compare, time)(a, b) == By(TextFieldFn(field), dir, compare)(a, b)
  {
    forall a: Mesaj, b: Mesaj
      ensures Order(field, dir, compare, time)(a, b) == By(TextFieldFn(field), dir, compare)(a, b)
    {
      var x, y := Field(a, field), Field(b, field);
      assert By(TextFieldFn(field), dir, compare)(a, b) == Compare(TextOnly(x), TextOnly(y), dir, compare);
      assert Order(field, dir, compare, time)(a, b) == Cmp(a, b, field, dir, compare, time);
      if !(x.Text? && y.Text?) {
        assert field != "tarih";
        assert Compare(TextOnly(x), TextOnly(y), dir, compare) == 0;
        assert Cmp(a, b, field, dir, compare, time) == 0;
      }
    }
  }

  /** The search text occurs, ignoring case, in the text or the user name;
      the direction filter is `hepsi` or the message's direction; the bot
      filter is `hepsi` or the bot id written in decimal. */
  predicate Keep(m: Mesaj, search: string, tipFiltresi: string, botFiltresi: string, lower: string -> string) {
    (Strings.IncludesFolded(m.mesaj, search, lower) || Strings.IncludesFolded(m.kullaniciAdi, search, lower))
    && (tipFiltresi == "hepsi" || TipName(m.tip) == tipFiltresi)
    && (botFiltresi == "hepsi" || Strings.IntToString(m.botId) == botFiltresi)
  }

  function KeepFn(search: string, tipFiltresi: string, botFiltresi: string, lower: string -> string): Mesaj -> bool {
    (m: Mesaj) => Keep(m, search, tipFiltresi, botFiltresi, lower)
  }

  /** Choosing a bot in the bot filter, whose option value is the bot's id,
      keeps exactly that bot's messages. */
  lemma BotFilterById(m: Mesaj, botId: int, search: string, tipFiltresi: string, lower: string -> string)
    ensures Keep(m, search, tipFiltresi, Strings.IntToString(botId), lower)
        <==> Keep(m, search, tipFiltresi, "hepsi", lower) && m.botId == botId
  {
    assert Strings.IntToString(botId) != "hepsi" by {
      assert "hepsi"[0] == 'h';
    }
    if Strings.IntToString(m.botId) == Strings.IntToString(botId) {
      Strings.IntToStringInjective(m.botId, botId);
    }
  }

  /** `filtrelenenMesajlar`: the kept messages, in a fresh array sorted by
      the page's comparator, which orders by the field's text. */
  method FiltrelenenMesajlar(ms: seq<Mesaj>, search: string, tipFiltresi: string, botFiltresi: string,
                             siralama: ActiveSort, lower: string -> string,
                             compare: (string, string) -> int, time: string -> int)
    returns (r: seq<Mesaj>)
    requires TableSort.Total(compare)
    ensures forall m :: multiset(r)[m] == if Keep(m, search, tipFiltresi, botFiltresi, lower) then multiset(ms)[m] else 0
    ensures TableSort.Sorted(r, By(TextFieldFn(siralama.field), siralama.direction, compare))
  {
    var sonuc := Lists.Filter(ms, KeepFn(search, tipFiltresi, botFiltresi, lower));
    Lists.FilterMultiset(ms, KeepFn(search, tipFiltresi, botFiltresi, lower));
    OrderIsTextOrder(siralama.field, siralama.direction, compare, time);
    ByTotal(TextFieldFn(siralama.field), siralama.direction, compare);
    r := TableSort.SortedCopy(sonuc, Order(siralama.field, siralama.direction, compare, time));
  }

  const Header: seq<string> := ["ID", "Kullanıcı", "Bot", "Mesaj", "Tarih", "Tip"]

  function Cells(m: Mesaj): seq<string> {
    [Strings.IntToString(m.id), m.kullaniciAdi, m.botAdi, m.mesaj, m.tarih, TipName(m.tip)]
  }

  function Rows(ms: seq<Mesaj>): seq<seq<string>> {
    [Header] + seq(|ms|, i requires 0 <= i < |ms| => Cells(ms[i]))
  }

  /** `mesajlariIndir`: the header and one row per displayed message. */
  function Export(ms: seq<Mesaj>): string {
    Csv.Document(Rows(ms))
  }

  predicate Plain(s: string) {
    ',' !in s && '\n' !in s
  }

  predicate PlainMessage(m: Mesaj) {
    Plain(m.kullaniciAdi) && Plain(m.botAdi) && Plain(m.mesaj) && Plain(m.tarih)
  }

  lemma HeaderPlain()
    ensures Csv.PlainCells(Header)
  {
    forall j | 0 <= j < |Header| ensures ',' !in Header[j] && '\n' !in Header[j] {
    }
  }

  lemma RowsPlain(ms: seq<Mesaj>)
    requires forall i :: 0 <= i < |ms| ==> PlainMessage(ms[i])
    ensures forall i :: 0 <= i < |Rows(ms)| ==> |Rows(ms)[i]| >= 1 && Csv.PlainCells(Rows(ms)[i])
  {
    var rows := Rows(ms);
    HeaderPlain();
    forall i | 1 <= i < |rows| ensures |rows[i]| >= 1 && Csv.PlainCells(rows[i]) {
      assert rows[i] == Cells(ms[i - 1]);
    }
  }

  /** With no comma or line break inside a text field, the export has the
      6-column header line and then one line per message in display order,
      whose comma-separated fields are that message's 6 cells. */
  lemma ExportLayout(ms: seq<Mesaj>)
    requires forall i :: 0 <= i < |ms| ==> PlainMessage(ms[i])
    ensures |Strings.Split(Export(ms), '\n')| == |ms| + 1
    ensures Strings.Split(Strings.Split(Export(ms), '\n')[0], ',') == Header
    ensures forall i :: 0 <= i < |ms| ==> Strings.Split(Strings.Split(Export(ms), '\n')[i + 1], ',') == Cells(ms[i])
  {
    var rows := Rows(ms);
    RowsPlain(ms);
    Csv.TableLayout(rows);
    assert forall i :: 0 <= i < |ms| ==> rows[i + 1] == Cells(ms[i]);
  }

  /** `new Set(mesajlar.map(m => m.kullanici_id))`, over all messages: the
      ids that occur. */
  function UserIds(ms: seq<Mesaj>): (ids: set<int>)
    ensures forall i :: 0 <= i < |ms| ==> ms[i].kullaniciId in ids
    ensures forall x :: x in ids ==> exists i :: 0 <= i < |ms| && ms[i].kullaniciId == x
    decreases |ms|
  {
    if ms == [] then {}
    else
      var prefix := ms[..|ms| - 1];
      assert forall i :: 0 <= i < |prefix| ==> prefix[i] == ms[i];
      UserIds(prefix) + {ms[|ms| - 1].kullaniciId}
  }

  predicate DistinctIds(ms: seq<Mesaj>) {
    forall i, j :: 0 <= i < j < |ms| ==> ms[i].kullaniciId != ms[j].kullaniciId
  }

  /** A last message by a user not seen before keeps the ids distinct
      exactly when they were distinct before it. */
  lemma DistinctExtend(ms: seq<Mesaj>)
    requires ms != []
    requires ms[|ms| - 1].kullaniciId !in UserIds(ms[..|ms| - 1])
    ensures DistinctIds(ms) <==> DistinctIds(ms[..|ms| - 1])
  {
    var prefix := ms[..|ms| - 1];
    assert forall i :: 0 <= i < |prefix| ==> prefix[i] == ms[i];
  }

  /** The distinct-user count never exceeds the number of messages, and
      equals it exactly when no user wrote twice. */
  lemma {:induction false} DistinctUserCount(ms: seq<Mesaj>)
    ensures |UserIds(ms)| <= |ms|
    ensures |UserIds(ms)| == |ms| <==> DistinctIds(ms)
    decreases |ms|
  {
    if ms != [] {
      var prefix := ms[..|ms| - 1];
      var x := ms[|ms| - 1].kullaniciId;
      DistinctUserCount(prefix);
      assert UserIds(ms) == UserIds(prefix) + {x};
      CardAddOne(UserIds(prefix), x);
      if x in UserIds(prefix) {
        RepeatNotDistinct(ms);
      } else {
        DistinctExtend(ms);
      }
    }
  }

  /** Adding an element grows a set by one exactly when it was not there. */
  lemma CardAddOne(a: set<int>, x: int)
    ensures x in a ==> |a + {x}| == |a|
    ensures x !in a ==> |a + {x}| == |a| + 1
  {
    if x in a {
      assert a + {x} == a;
    }
  }

  /** A last message by a user seen before makes the ids not distinct. */
  lemma RepeatNotDistinct(ms: seq<Mesaj>)
    requires ms != []
    requires ms[|ms| - 1].kullaniciId in UserIds(ms[..|ms| - 1])
    ensures !DistinctIds(ms)
  {
    var prefix := ms[..|ms| - 1];
    var i :| 0 <= i < |prefix| && prefix[i].kullaniciId == ms[|ms| - 1].kullaniciId;
    assert ms[i] == prefix[i];
  }
}
