/** The security page: the CSV report of recent logins and blocked
    addresses, the failed-login count, and the end date shown for a block. */
module GuvenlikRaporu {
  import opened Wrappers
  import Strings
  import Lists
  import Csv

  datatype GirisDurumu = Basarili | Basarisiz

  function GirisDurumuName(d: GirisDurumu): string {
    match d
    case Basarili => "basarili"
    case Basarisiz => "basarisiz"
  }

  /** A recent login; `detay` may be missing. */
  datatype Giris = Giris(id: int, kullanici: string, ip: string, tarih: string,
                         durum: GirisDurumu, detay: Option<string>)

  /** A blocked address; `bitis_tarihi` may be missing. */
  datatype EngelliIp = EngelliIp(ip: string, sebep: string, tarih: string, bitisTarihi: Option<string>)

  datatype GuvenlikDurumu = GuvenlikDurumu(sonGirisler: seq<Giris>, engellenenIpler: seq<EngelliIp>)

  const Unlimited: string := "Süresiz"

  /** `giris.detay || ''`. */
  function Detay(g: Giris): (r: string)
    ensures r == "" <==> g.detay.None? || g.detay.value == ""
    ensures r != "" ==> g.detay == Some(r)
  {
    g.detay.GetOr("")
  }

  /** `ip.bitis_tarihi || 'Süresiz'`: a missing or empty end date is
      written as unlimited, any other as it is. */
  function Bitis(b: EngelliIp): (r: string)
    ensures r != "" && (r == Unlimited || b.bitisTarihi == Some(r))
    ensures b.bitisTarihi.None? || b.bitisTarihi == Some("") ==> r == Unlimited
    ensures b.bitisTarihi.Some? && b.bitisTarihi.value != "" ==> r == b.bitisTarihi.value
  {
    if b.bitisTarihi.Some? && b.bitisTarihi.value != "" then b.bitisTarihi.value else Unlimited
  }

  /** The table shows unlimited for a block exactly when the report does
      not write a date of its own (the date itself is formatted for
      display, which is left out). */
  function ShownUnlimited(b: EngelliIp): (r: bool)
    ensures r <==> Bitis(b) == Unlimited && b.bitisTarihi != Some(Unlimited)
  {
    !(b.bitisTarihi.Some? && b.bitisTarihi.value != "")
  }

  const Title: seq<string> := ["Güvenlik Raporu"]
  const Blank: seq<string> := [""]
  const GirisTitle: seq<string> := ["Son Girişler"]
  const GirisHeader: seq<string> := ["Kullanıcı", "IP", "Tarih", "Durum", "Detay"]
  const IpTitle: seq<string> := ["Engellenen IP'ler"]
  const IpHeader: seq<string> := ["IP", "Sebep", "Tarih", "Bitiş Tarihi"]

  function GirisCells(g: Giris): seq<string> {
    [g.kullanici, g.ip, g.tarih, GirisDurumuName(g.durum), Detay(g)]
  }

  function IpCells(b: EngelliIp): seq<string> {
    [b.ip, b.sebep, b.tarih, Bitis(b)]
  }

  function Rows(d: GuvenlikDurumu): seq<seq<string>> {
    [Title, Blank, GirisTitle, GirisHeader]
    + seq(|d.sonGirisler|, i requires 0 <= i < |d.sonGirisler| => GirisCells(d.sonGirisler[i]))
    + [Blank, IpTitle, IpHeader]
    + seq(|d.engellenenIpler|, i requires 0 <= i < |d.engellenenIpler| => IpCells(d.engellenenIpler[i]))
  }

  /** `raporIndir`: nothing before the data has loaded. */
  function RaporIndir(d: Option<GuvenlikDurumu>): Option<string> {
    match d
    case None => None
    case Some(g) => Some(Csv.Document(Rows(g)))
  }

  predicate Plain(s: string) {
    ',' !in s && '\n' !in s
  }

  predicate PlainData(d: GuvenlikDurumu) {
    (forall i :: 0 <= i < |d.sonGirisler| ==>
       var g := d.sonGirisler[i];
       Plain(g.kullanici) && Plain(g.ip) && Plain(g.tarih) && (g.detay.Some? ==> Plain(g.detay.value)))
    && (forall i :: 0 <= i < |d.engellenenIpler| ==>
       var b := d.engellenenIpler[i];
       Plain(b.ip) && Plain(b.sebep) && Plain(b.tarih) && (b.bitisTarihi.Some? ==> Plain(b.bitisTarihi.value)))
  }

  lemma FixedPlain()
    ensures Csv.PlainCells(Title) && Csv.PlainCells(Blank) && Csv.PlainCells(GirisTitle)
    ensures Csv.PlainCells(GirisHeader) && Csv.PlainCells(IpTitle) && Csv.PlainCells(IpHeader)
  {
    forall j | 0 <= j < |GirisHeader| ensures ',' !in GirisHeader[j] && '\n' !in GirisHeader[j] {
    }
    forall j | 0 <= j < |IpHeader| ensures ',' !in IpHeader[j] && '\n' !in IpHeader[j] {
    }
  }

  lemma GirisPlain(g: Giris)
    requires Plain(g.kullanici) && Plain(g.ip) && Plain(g.tarih) && (g.detay.Some? ==> Plain(g.detay.value))
    ensures Csv.PlainCells(GirisCells(g))
  {
    var cells := GirisCells(g);
    forall j | 0 <= j < |cells| ensures ',' !in cells[j] && '\n' !in cells[j] {
    }
  }

  lemma IpPlain(b: EngelliIp)
    requires Plain(b.ip) && Plain(b.sebep) && Plain(b.tarih) && (b.bitisTarihi.Some? ==> Plain(b.bitisTarihi.value))
    ensures Csv.PlainCells(IpCells(b))
  {
    var cells := IpCells(b);
    forall j | 0 <= j < |cells| ensures ',' !in cells[j] && '\n' !in cells[j] {
    }
  }

  lemma RowsPlain(d: GuvenlikDurumu)
    requires PlainData(d)
    ensures forall i :: 0 <= i < |Rows(d)| ==> |Rows(d)[i]| >= 1 && Csv.PlainCells(Rows(d)[i])
  {
    var rows := Rows(d);
    var n := |d.sonGirisler|;
    FixedPlain();
    forall i | 0 <= i < |rows| ensures |rows[i]| >= 1 && Csv.PlainCells(rows[i]) {
      if 4 <= i < 4 + n {
        assert rows[i] == GirisCells(d.sonGirisler[i - 4]);
        GirisPlain(d.sonGirisler[i - 4]);
      } else if 7 + n <= i {
        assert rows[i] == IpCells(d.engellenenIpler[i - 7 - n]);
        IpPlain(d.engellenenIpler[i - 7 - n]);
      }
    }
  }

  /** Where each part of the report sits among its rows. */
  lemma RowsAt(d: GuvenlikDurumu)
    ensures var rows := Rows(d);
      var n := |d.sonGirisler|;
      && |rows| == 7 + n + |d.engellenenIpler|
      && rows[0] == Title && rows[1] == Blank && rows[2] == GirisTitle && rows[3] == GirisHeader
      && rows[4 + n] == Blank && rows[5 + n] == IpTitle && rows[6 + n] == IpHeader
      && (forall i :: 0 <= i < n ==> rows[4 + i] == GirisCells(d.sonGirisler[i]))
      && (forall i :: 0 <= i < |d.engellenenIpler| ==> rows[7 + n + i] == IpCells(d.engellenenIpler[i]))
  {
  }

  /** With no comma or line break in any field, the report is the title, a
      blank line, the login title and 5-column header, one line per login,
      a blank line, the blocked-address title and 4-column header, and one
      line per blocked address: 7 fixed lines, logins before addresses, and
      each line splits back into its cells. Without data there is no report. */
  lemma RaporLayout(d: GuvenlikDurumu)
    requires PlainData(d)
    ensures RaporIndir(None) == None
    ensures var lines := Strings.Split(RaporIndir(Some(d)).value, '\n');
      var n := |d.sonGirisler|;
      && |lines| == 7 + |d.sonGirisler| + |d.engellenenIpler|
      && Strings.Split(lines[0], ',') == Title
      && Strings.Split(lines[1], ',') == Blank
      && Strings.Split(lines[2], ',') == GirisTitle
      && Strings.Split(lines[3], ',') == GirisHeader
      && (forall i :: 0 <= i < n ==> Strings.Split(lines[4 + i], ',') == GirisCells(d.sonGirisler[i]))
      && Strings.Split(lines[4 + n], ',') == Blank
      && Strings.Split(lines[5 + n], ',') == IpTitle
      && Strings.Split(lines[6 + n], ',') == IpHeader
      && (forall i :: 0 <= i < |d.engellenenIpler| ==>
            Strings.Split(lines[7 + n + i], ',') == IpCells(d.engellenenIpler[i]))
  {
    RowsAt(d);
    RowsPlain(d);
    Csv.TableLayout(Rows(d));
  }

  function HasDurum(d: GirisDurumu): Giris -> bool {
    (g: Giris) => g.durum == d
  }

  /** The failed-login card: `filter(g => g.durum === 'basarisiz').length`. */
  function BasarisizGirisler(gs: seq<Giris>): nat {
    Lists.Count(gs, HasDurum(Basarisiz))
  }

  /** Every login is either successful or failed, so the failed count and
      the successful count add up to the number of logins, and the failed
      count is zero exactly when every login succeeded. */
  lemma {:induction false} BasarisizSpec(gs: seq<Giris>)
    ensures BasarisizGirisler(gs) + Lists.Count(gs, HasDurum(Basarili)) == |gs|
    ensures BasarisizGirisler(gs) == 0 <==> forall i :: 0 <= i < |gs| ==> gs[i].durum == Basarili
  {
    Lists.CountSplit(gs, HasDurum(Basarisiz), HasDurum(Basarili));
    if gs != [] {
      BasarisizSpec(gs[1..]);
      assert forall i :: 1 <= i < |gs| ==> gs[i] == gs[1..][i - 1];
    }
  }
}
