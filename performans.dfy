/** The performance page: the uptime shown as days, hours and minutes, and
    the CSV download of the CPU and memory samples. The samples' numbers are
    kept as the text JavaScript renders for them when a row is joined. */
module Performans {
  import opened Wrappers
  import Strings
  import Csv

  /** `formatUptime`'s three parts. */
  datatype Uptime = Uptime(days: nat, hours: nat, minutes: nat)

  /** `formatUptime(seconds)`: whole days, the whole hours left over, and the
      whole minutes left over; the leftover seconds are dropped. */
  function FormatUptime(seconds: nat): (u: Uptime)
    ensures u.hours < 24 && u.minutes < 60
    ensures Total(u) <= seconds < Total(u) + 60
  {
    var days := seconds / (24 * 60 * 60);
    var hours := (seconds % (24 * 60 * 60)) / (60 * 60);
    var minutes := (seconds % (60 * 60)) / 60;
    var inDay := seconds % (24 * 60 * 60);
    DivMod86400(seconds, days, inDay);
    DivMod3600(inDay, hours, inDay % 3600);
    DivMod3600(seconds, days * 24 + hours, inDay % 3600);
    Uptime(days, hours, minutes)
  }

  /** The seconds the three parts stand for. */
  function Total(u: Uptime): nat {
    u.days * 86400 + u.hours * 3600 + u.minutes * 60
  }

  /** Quotient and remainder by a day's seconds are the unique pair. */
  lemma DivMod86400(s: int, q: int, r: int)
    requires s == q * 86400 + r && 0 <= r < 86400
    ensures s / 86400 == q && s % 86400 == r
  {
  }

  /** Quotient and remainder by an hour's seconds are the unique pair. */
  lemma DivMod3600(s: int, q: int, r: int)
    requires s == q * 3600 + r && 0 <= r < 3600
    ensures s / 3600 == q && s % 3600 == r
  {
  }

  /** Quotient and remainder by a minute's seconds are the unique pair. */
  lemma DivMod60(s: int, q: int, r: int)
    requires s == q * 60 + r && 0 <= r < 60
    ensures s / 60 == q && s % 60 == r
  {
  }

  /** Every days/hours/minutes triple in range is what the uptime of its own
      total formats to, so the decomposition is unique. */
  lemma FormatUptimeInverse(u: Uptime, extra: nat)
    requires u.hours < 24 && u.minutes < 60 && extra < 60
    ensures FormatUptime(Total(u) + extra) == u
  {
    var s := Total(u) + extra;
    var inHour := u.minutes * 60 + extra;
    var inDay := u.hours * 3600 + inHour;
    DivMod86400(s, u.days, inDay);
    DivMod3600(inDay, u.hours, inHour);
    DivMod3600(s, u.days * 24 + u.hours, inHour);
    DivMod60(inHour, u.minutes, extra);
  }

  /** `${days}g ${hours}s ${minutes}d`. */
  function UptimeText(seconds: nat): string {
    var u := FormatUptime(seconds);
    Strings.NatToString(u.days) + "g " + Strings.NatToString(u.hours) + "s "
    + Strings.NatToString(u.minutes) + "d"
  }

  /** Less than a minute of uptime shows as zero everywhere. */
  lemma UnderAMinute(seconds: nat)
    requires seconds < 60
    ensures UptimeText(seconds) == "0g 0s 0d"
  {
    DivMod86400(seconds, 0, seconds);
    DivMod3600(seconds, 0, seconds);
    DivMod60(seconds, 0, seconds);
    assert FormatUptime(seconds) == Uptime(0, 0, 0);
    assert Strings.NatToString(0) == "0" by {
      assert Strings.DigitChar(0) == '0';
    }
  }

  /** A CPU sample: its time and its percentage, rendered. */
  datatype CpuOrnek = CpuOrnek(zaman: string, yuzde: string)

  /** A memory sample: its time and the used and total megabytes, rendered. */
  datatype BellekOrnek = BellekOrnek(zaman: string, kullanilan: string, toplam: string)

  datatype PerformansData = PerformansData(cpu: seq<CpuOrnek>, bellek: seq<BellekOrnek>)

  const CpuTitle: seq<string> := ["CPU Kullanımı"]
  const CpuHeader: seq<string> := ["Zaman", "Yüzde"]
  const Blank: seq<string> := [""]
  const BellekTitle: seq<string> := ["Bellek Kullanımı"]
  const BellekHeader: seq<string> := ["Zaman", "Kullanılan (MB)", "Toplam (MB)"]

  function CpuCells(c: CpuOrnek): seq<string> {
    [c.zaman, c.yuzde]
  }

  function BellekCells(b: BellekOrnek): seq<string> {
    [b.zaman, b.kullanilan, b.toplam]
  }

  function Rows(p: PerformansData): seq<seq<string>> {
    [CpuTitle, CpuHeader]
    + seq(|p.cpu|, i requires 0 <= i < |p.cpu| => CpuCells(p.cpu[i]))
    + [Blank, BellekTitle, BellekHeader]
    + seq(|p.bellek|, i requires 0 <= i < |p.bellek| => BellekCells(p.bellek[i]))
  }

  /** `performansVerileriniIndir`: nothing before the data has loaded. */
  function Indir(p: Option<PerformansData>): Option<string> {
    match p
    case None => None
    case Some(d) => Some(Csv.Document(Rows(d)))
  }

  predicate Plain(s: string) {
    ',' !in s && '\n' !in s
  }

  predicate PlainData(p: PerformansData) {
    (forall i :: 0 <= i < |p.cpu| ==> Plain(p.cpu[i].zaman) && Plain(p.cpu[i].yuzde))
    && (forall i :: 0 <= i < |p.bellek| ==>
          Plain(p.bellek[i].zaman) && Plain(p.bellek[i].kullanilan) && Plain(p.bellek[i].toplam))
  }

  lemma FixedPlain()
    ensures Csv.PlainCells(CpuTitle) && Csv.PlainCells(CpuHeader) && Csv.PlainCells(Blank)
    ensures Csv.PlainCells(BellekTitle) && Csv.PlainCells(BellekHeader)
  {
    forall j | 0 <= j < |CpuHeader| ensures ',' !in CpuHeader[j] && '\n' !in CpuHeader[j] {
    }
    forall j | 0 <= j < |BellekHeader| ensures ',' !in BellekHeader[j] && '\n' !in BellekHeader[j] {
    }
  }

  lemma RowsPlain(p: PerformansData)
    requires PlainData(p)
    ensures forall i :: 0 <= i < |Rows(p)| ==> |Rows(p)[i]| >= 1 && Csv.PlainCells(Rows(p)[i])
  {
    var rows := Rows(p);
    var n := |p.cpu|;
    FixedPlain();
    forall i | 0 <= i < |rows| ensures |rows[i]| >= 1 && Csv.PlainCells(rows[i]) {
      if 2 <= i < 2 + n {
        assert rows[i] == CpuCells(p.cpu[i - 2]);
      } else if 5 + n <= i {
        assert rows[i] == BellekCells(p.bellek[i - 5 - n]);
      }
    }
  }

  /** Where each part of the download sits among its rows. */
  lemma RowsAt(p: PerformansData)
    ensures var rows := Rows(p);
      var n := |p.cpu|;
      && |rows| == 5 + n + |p.bellek|
      && rows[0] == CpuTitle && rows[1] == CpuHeader
      && rows[2 + n] == Blank && rows[3 + n] == BellekTitle && rows[4 + n] == BellekHeader
      && (forall i :: 0 <= i < n ==> rows[2 + i] == CpuCells(p.cpu[i]))
      && (forall i :: 0 <= i < |p.bellek| ==> rows[5 + n + i] == BellekCells(p.bellek[i]))
  {
  }

  /** With no comma or line break in any rendered value, the download is the
      CPU title and header, one line per CPU sample, a blank line, the
      memory title and header, and one line per memory sample, each line
      splitting back into its cells; without data there is no download. */
  lemma IndirLayout(p: PerformansData)
    requires PlainData(p)
    ensures Indir(None) == None
    ensures var lines := Strings.Split(Indir(Some(p)).value, '\n');
      var n := |p.cpu|;
      && |lines| == 5 + |p.cpu| + |p.bellek|
      && Strings.Split(lines[0], ',') == CpuTitle
      && Strings.Split(lines[1], ',') == CpuHeader
      && (forall i :: 0 <= i < n ==> Strings.Split(lines[2 + i], ',') == CpuCells(p.cpu[i]))
      && Strings.Split(lines[2 + n], ',') == Blank
      && Strings.Split(lines[3 + n], ',') == BellekTitle
      && Strings.Split(lines[4 + n], ',') == BellekHeader
      && (forall i :: 0 <= i < |p.bellek| ==> Strings.Split(lines[5 + n + i], ',') == BellekCells(p.bellek[i]))
  {
    RowsAt(p);
    RowsPlain(p);
    Csv.TableLayout(Rows(p));
  }
}
