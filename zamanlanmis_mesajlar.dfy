/** The scheduled-messages page: the list narrowed by a title search and a
    status filter, the buttons each message's card offers, the status each
    button asks the server for, and the per-status counts. `toLowerCase` is
    the parameter `lower`; the status request is returned rather than sent. */
module ZamanlanmisMesajlar {
  import opened Wrappers
  import Strings
  import Lists

  datatype Durum = Bekliyor | Tamamlandi | IptalEdildi | Hata

  function DurumName(d: Durum): string {
    match d
    case Bekliyor => "bekliyor"
    case Tamamlandi => "tamamlandi"
    case IptalEdildi => "iptal_edildi"
    case Hata => "hata"
  }

  datatype Zamanlanmis = Zamanlanmis(
    id: int,
    sablonId: int,
    sablonBaslik: string,
    botIds: seq<int>,
    gonderimZamani: string,
    durum: Durum,
    olusturmaTarihi: string)

  /** The title contains the search text, ignoring case, and the status
      filter is `hepsi` or the message's status. */
  predicate Keep(m: Zamanlanmis, search: string, durumFiltresi: string, lower: string -> string) {
    Strings.IncludesFolded(m.sablonBaslik, search, lower)
    && (durumFiltresi == "hepsi" || DurumName(m.durum) == durumFiltresi)
  }

  function KeepFn(search: string, durumFiltresi: string, lower: string -> string): Zamanlanmis -> bool {
    (m: Zamanlanmis) => Keep(m, search, durumFiltresi, lower)
  }

  /** `filtrelenenMesajlar`: the kept messages, in list order. */
  function Filtered(ms: seq<Zamanlanmis>, search: string, durumFiltresi: string, lower: string -> string): (r: seq<Zamanlanmis>)
    ensures forall m :: multiset(r)[m] == if Keep(m, search, durumFiltresi, lower) then multiset(ms)[m] else 0
  {
    Lists.FilterMultiset(ms, KeepFn(search, durumFiltresi, lower));
    Lists.Filter(ms, KeepFn(search, durumFiltresi, lower))
  }

  /** The kept messages keep their list order: filtering a list split in
      two is filtering each part and joining the results. */
  lemma FilteredOrder(a: seq<Zamanlanmis>, b: seq<Zamanlanmis>, search: string, durumFiltresi: string, lower: string -> string)
    ensures Filtered(a + b, search, durumFiltresi, lower)
         == Filtered(a, search, durumFiltresi, lower) + Filtered(b, search, durumFiltresi, lower)
  {
    Lists.FilterAppend(a, b, KeepFn(search, durumFiltresi, lower));
  }

  /** Choosing a status in the filter shows only messages in that status. */
  lemma FilterByStatus(ms: seq<Zamanlanmis>, search: string, d: Durum, lower: string -> string)
    ensures forall i :: 0 <= i < |Filtered(ms, search, DurumName(d), lower)| ==>
      Filtered(ms, search, DurumName(d), lower)[i].durum == d
  {
    var r := Filtered(ms, search, DurumName(d), lower);
    forall i | 0 <= i < |r| ensures r[i].durum == d {
      assert r[i] in multiset(r);
    }
  }

  /** The buttons on a card. */
  datatype Eylem = Duzenle | Durdur | YenidenBaslat | Sil

  /** The buttons a message in a status shows, left to right. */
  function Eylemler(d: Durum): (r: seq<Eylem>)
    ensures Sil in r
    ensures Duzenle in r <==> d == Bekliyor
    ensures Durdur in r <==> d == Bekliyor
    ensures YenidenBaslat in r <==> d == IptalEdildi
  {
    match d
    case Bekliyor => [Duzenle, Durdur, Sil]
    case IptalEdildi => [YenidenBaslat, Sil]
    case _ => [Sil]
  }

  /** The status a button asks `handleDurumDegistir` for: pausing cancels,
      restarting puts the message back to waiting, and editing and deleting
      ask for none (deleting has no handler). */
  function Istenen(e: Eylem): Option<Durum> {
    match e
    case Durdur => Some(IptalEdildi)
    case YenidenBaslat => Some(Bekliyor)
    case _ => None
  }

  /** The status changes a message can request from its card: never its
      own status, and at most one other. */
  function Gecisler(d: Durum): (r: set<Durum>)
    ensures forall x :: x in r <==> exists e :: e in Eylemler(d) && Istenen(e) == Some(x)
    ensures d !in r
    ensures r == if d == Bekliyor then {IptalEdildi} else if d == IptalEdildi then {Bekliyor} else {}
  {
    assert Istenen(Durdur) == Some(IptalEdildi) && Istenen(YenidenBaslat) == Some(Bekliyor);
    assert d == Bekliyor ==> Durdur in Eylemler(d);
    assert d == IptalEdildi ==> YenidenBaslat in Eylemler(d);
    set e | e in Eylemler(d) && Istenen(e).Some? :: Istenen(e).value
  }

  /** A waiting message can only be cancelled, a cancelled one only put back
      to waiting, and a completed or failed one changes no more; so every
      change a card offers can be undone from the card the message then
      shows. */
  lemma GecislerSpec()
    ensures Gecisler(Bekliyor) == {IptalEdildi}
    ensures Gecisler(IptalEdildi) == {Bekliyor}
    ensures Gecisler(Tamamlandi) == {} && Gecisler(Hata) == {}
    ensures forall d, x :: x in Gecisler(d) ==> d in Gecisler(x)
  {
    assert Durdur in Eylemler(Bekliyor);
    assert YenidenBaslat in Eylemler(IptalEdildi);
    forall d, x | x in Gecisler(d) ensures d in Gecisler(x) {
      assert d == Bekliyor || d == IptalEdildi;
    }
  }

  function HasDurum(d: Durum): Zamanlanmis -> bool {
    (m: Zamanlanmis) => m.durum == d
  }

  /** `mesajlar.filter(m => m.durum === d).length`. */
  function CountDurum(ms: seq<Zamanlanmis>, d: Durum): nat {
    Lists.Count(ms, HasDurum(d))
  }

  /** The four cards' counts add up to the number of messages. */
  lemma {:induction false} CountsSum(ms: seq<Zamanlanmis>)
    ensures CountDurum(ms, Bekliyor) + CountDurum(ms, Tamamlandi)
          + CountDurum(ms, IptalEdildi) + CountDurum(ms, Hata) == |ms|
  {
    if ms != [] {
      CountsSum(ms[1..]);
    }
  }
}
