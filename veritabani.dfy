/** The database page: the database's tables, narrowed by a search text on
    their names and sorted by the chosen field, and the size unit the page
    prints. `toLowerCase` and `localeCompare` are the parameters `lower` and
    `compare`. */
module Veritabani {
  import opened Wrappers
  import Strings
  import Lists
  import TableSort
  import opened SortMenu
  import opened FieldOrder
  import opened ByteUnits

  datatype Tablo = Tablo(isim: string, satirSayisi: int, boyut: int, sonGuncelleme: string)

  /** The page opens sorted by table name, ascending. */
  const DefaultSort: ActiveSort := ActiveSort("isim", Asc)

  /** `tablo[field]`: the JSON value under a field name. */
  function Field(t: Tablo, name: string): Value {
    if name == "isim" then Text(t.isim)
    else if name == "satir_sayisi" then Number(t.satirSayisi)
    else if name == "boyut" then Number(t.boyut)
    else if name == "son_guncelleme" then Text(t.sonGuncelleme)
    else Missing
  }

  function FieldFn(name: string): Tablo -> Value {
    (t: Tablo) => Field(t, name)
  }

  /** The table's name contains the search text, ignoring case. */
  predicate Keep(t: Tablo, search: string, lower: string -> string) {
    Strings.IncludesFolded(t.isim, search, lower)
  }

  function KeepFn(search: string, lower: string -> string): Tablo -> bool {
    (t: Tablo) => Keep(t, search, lower)
  }

  /** `filtrelenenTablolar`: nothing while the status (or its table list) is
      missing; otherwise the kept tables, in a fresh array sorted by the
      active field and direction. */
  method FiltrelenenTablolar(tablolar: Option<seq<Tablo>>, search: string, siralama: ActiveSort,
                             lower: string -> string, compare: (string, string) -> int)
    returns (r: seq<Tablo>)
    requires TableSort.Total(compare)
    ensures tablolar.None? ==> r == []
    ensures tablolar.Some? ==>
      forall t :: multiset(r)[t] == if Keep(t, search, lower) then multiset(tablolar.value)[t] else 0
    ensures TableSort.Sorted(r, By(FieldFn(siralama.field), siralama.direction, compare))
  {
    if tablolar.None? {
      return [];
    }
    var sonuc := Lists.Filter(tablolar.value, KeepFn(search, lower));
    Lists.FilterMultiset(tablolar.value, KeepFn(search, lower));
    ByTotal(FieldFn(siralama.field), siralama.direction, compare);
    r := TableSort.SortedCopy(sonuc, By(FieldFn(siralama.field), siralama.direction, compare));
  }

  /** Sorting by row count or size orders the tables numerically: smallest
      first when ascending, largest first when descending. */
  lemma NumericFieldsInOrder(r: seq<Tablo>, siralama: ActiveSort, compare: (string, string) -> int, i: int, j: int)
    requires siralama.field == "satir_sayisi" || siralama.field == "boyut"
    requires TableSort.Sorted(r, By(FieldFn(siralama.field), siralama.direction, compare))
    requires 0 <= i <= j < |r|
    ensures siralama.direction == Asc ==> Field(r[i], siralama.field).n <= Field(r[j], siralama.field).n
    ensures siralama.direction == Desc ==> Field(r[j], siralama.field).n <= Field(r[i], siralama.field).n
  {
    NumbersInOrder(r, FieldFn(siralama.field), siralama.direction, compare, i, j);
  }

  /** `formatBoyut`'s unit: bytes below 1024, then KB, MB, and GB from
      1024³ on. The unit is the largest one that fits in the size, so the
      printed number is below 1024 except in gigabytes. */
  function BoyutBirimi(byte: int): (u: Unit)
    ensures byte >= 1 ==> Scale(u) <= byte
    ensures u != GB ==> byte < 1024 * Scale(u)
  {
    if byte < 1024 then B
    else if byte < 1024 * 1024 then KB
    else if byte < 1024 * 1024 * 1024 then MB
    else GB
  }

  /** A larger size never gets a smaller unit. */
  lemma BirimMonotone(a: int, b: int)
    requires a <= b
    ensures Rank(BoyutBirimi(a)) <= Rank(BoyutBirimi(b))
  {
  }
}
