/** The users page: the bot users, narrowed by a search text and a status
    filter, sorted by the chosen field, exported as CSV and counted by
    status. `toLowerCase` and `localeCompare` are the parameters `lower` and
    `compare`. */
module Kullanicilar {
  import Strings
  import Lists
  import Csv
  import TableSort
  import opened SortMenu
  import opened FieldOrder

  datatype Durum = Aktif | Pasif | Engelli

  function DurumName(d: Durum): string {
    match d
    case Aktif => "aktif"
    case Pasif => "pasif"
    case Engelli => "engelli"
  }

  datatype Kullanici = Kullanici(
    id: int,
    telegramId: string,
    kullaniciAdi: string,
    ad: string,
    soyad: string,
    katilmaTarihi: string,
    sonGorulme: string,
    durum: Durum,
    mesajSayisi: int)

  /** The page opens sorted by joining date, newest first. */
  const DefaultSort: ActiveSort := ActiveSort("katilma_tarihi", Desc)

  /** `kullanici[field]`: the JSON value under a field name. */
  function Field(k: Kullanici, name: string): Value {
    if name == "id" then Number(k.id)
    else if name == "telegram_id" then Text(k.telegramId)
    else if name == "kullanici_adi" then Text(k.kullaniciAdi)
    else if name == "ad" then Text(k.ad)
    else if name == "soyad" then Text(k.soyad)
    else if name == "katilma_tarihi" then Text(k.katilmaTarihi)
    else if name == "son_gorulme" then Text(k.sonGorulme)
    else if name == "durum" then Text(DurumName(k.durum))
    else if name == "mesaj_sayisi" then Number(k.mesajSayisi)
    else Missing
  }

  function FieldFn(name: string): Kullanici -> Value {
    (k: Kullanici) => Field(k, name)
  }

  /** The search text occurs, ignoring case, in the user name, first name
      or last name, and the status filter is `hepsi` or the user's status. */
  predicate Keep(k: Kullanici, search: string, durumFiltresi: string, lower: string -> string) {
    (Strings.IncludesFolded(k.kullaniciAdi, search, lower)
     || Strings.IncludesFolded(k.ad, search, lower)
     || Strings.IncludesFolded(k.soyad, search, lower))
    && (durumFiltresi == "hepsi" || DurumName(k.durum) == durumFiltresi)
  }

  function KeepFn(search: string, durumFiltresi: string, lower: string -> string): Kullanici -> bool {
    (k: Kullanici) => Keep(k, search, durumFiltresi, lower)
  }

  /** `filtrelenmisKullanicilar`: the kept users, in a fresh array sorted by
      the active field and direction. Each kept user occurs as often as in
      the input and every other user not at all. */
  method FiltrelenmisKullanicilar(ks: seq<Kullanici>, search: string, durumFiltresi: string,
                                  siralama: ActiveSort, lower: string -> string,
                                  compare: (string, string) -> int)
    returns (r: seq<Kullanici>)
    requires TableSort.Total(compare)
    ensures forall k :: multiset(r)[k] == if Keep(k, search, durumFiltresi, lower) then multiset(ks)[k] else 0
    ensures TableSort.Sorted(r, By(FieldFn(siralama.field), siralama.direction, compare))
  {
    var sonuc := Lists.Filter(ks, KeepFn(search, durumFiltresi, lower));
    Lists.FilterMultiset(ks, KeepFn(search, durumFiltresi, lower));
    ByTotal(FieldFn(siralama.field), siralama.direction, compare);
    r := TableSort.SortedCopy(sonuc, By(FieldFn(siralama.field), siralama.direction, compare));
  }

  /** An empty search with the `hepsi` filter keeps every user, in order. */
  lemma EmptySearchKeepsAll(ks: seq<Kullanici>, lower: string -> string)
    requires lower("") == ""
    ensures Lists.Filter(ks, KeepFn("", "hepsi", lower)) == ks
  {
    forall i | 0 <= i < |ks| ensures KeepFn("", "hepsi", lower)(ks[i]) {
      Strings.EmptySearchMatches(ks[i].kullaniciAdi, lower);
    }
    Lists.FilterKeepsAll(ks, KeepFn("", "hepsi", lower));
  }

  const Header: seq<string> :=
    ["ID", "Kullanıcı Adı", "Ad", "Soyad", "Katılma Tarihi", "Son Görülme", "Durum", "Mesaj Sayısı"]

  function Cells(k: Kullanici): seq<string> {
    [Strings.IntToString(k.id), k.kullaniciAdi, k.ad, k.soyad, k.katilmaTarihi, k.sonGorulme,
     DurumName(k.durum), Strings.IntToString(k.mesajSayisi)]
  }

  function Rows(ks: seq<Kullanici>): seq<seq<string>> {
    [Header] + seq(|ks|, i requires 0 <= i < |ks| => Cells(ks[i]))
  }

  /** `kullanicilariIndir`: the header and one row per displayed user. */
  function Export(ks: seq<Kullanici>): string {
    Csv.Document(Rows(ks))
  }

  /** A cell the CSV writes as is: no comma, no line break. */
  predicate Plain(s: string) {
    ',' !in s && '\n' !in s
  }

  predicate PlainUser(k: Kullanici) {
    Plain(k.telegramId) && Plain(k.kullaniciAdi) && Plain(k.ad) && Plain(k.soyad)
    && Plain(k.katilmaTarihi) && Plain(k.sonGorulme)
  }

  lemma HeaderPlain()
    ensures Csv.PlainCells(Header)
  {
    forall j | 0 <= j < |Header| ensures ',' !in Header[j] && '\n' !in Header[j] {
    }
  }

  lemma CellsPlain(k: Kullanici)
    requires PlainUser(k)
    ensures Csv.PlainCells(Cells(k))
  {
  }

  lemma RowsPlain(ks: seq<Kullanici>)
    requires forall i :: 0 <= i < |ks| ==> PlainUser(ks[i])
    ensures forall i :: 0 <= i < |Rows(ks)| ==> |Rows(ks)[i]| >= 1 && Csv.PlainCells(Rows(ks)[i])
  {
    var rows := Rows(ks);
    HeaderPlain();
    forall i | 1 <= i < |rows| ensures |rows[i]| >= 1 && Csv.PlainCells(rows[i]) {
      assert rows[i] == Cells(ks[i - 1]);
      CellsPlain(ks[i - 1]);
    }
  }

  /** With no comma or line break inside a text field, the export has the
      8-column header line and then one line per user in display order,
      whose comma-separated fields are that user's 8 cells. */
  lemma ExportLayout(ks: seq<Kullanici>)
    requires forall i :: 0 <= i < |ks| ==> PlainUser(ks[i])
    ensures |Strings.Split(Export(ks), '\n')| == |ks| + 1
    ensures Strings.Split(Strings.Split(Export(ks), '\n')[0], ',') == Header
    ensures forall i :: 0 <= i < |ks| ==> Strings.Split(Strings.Split(Export(ks), '\n')[i + 1], ',') == Cells(ks[i])
  {
    var rows := Rows(ks);
    RowsPlain(ks);
    Csv.TableLayout(rows);
    assert forall i :: 0 <= i < |ks| ==> rows[i + 1] == Cells(ks[i]);
  }

  function HasDurum(d: Durum): Kullanici -> bool {
    (k: Kullanici) => k.durum == d
  }

  /** The status cards: `filter(k => k.durum === d).length`. */
  function CountDurum(ks: seq<Kullanici>, d: Durum): nat {
    Lists.Count(ks, HasDurum(d))
  }

  /** The active, passive and banned counts add up to the total. */
  lemma {:induction false} CountsSum(ks: seq<Kullanici>)
    ensures CountDurum(ks, Aktif) + CountDurum(ks, Pasif) + CountDurum(ks, Engelli) == |ks|
  {
    if ks != [] {
      CountsSum(ks[1..]);
    }
  }
}
