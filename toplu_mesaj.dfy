/** The bulk-send page: a template and a set of bots are chosen, the send is
    checked, and the request is built; the bot and template lists are
    narrowed by search texts, and the page estimates the number of
    recipients. `toLowerCase` is the parameter `lower`; the request itself
    is returned rather than posted. */
module TopluMesaj {
  import opened Wrappers
  import Strings
  import Lists
  import MesajSablonlari

  /** A bot as the bot list returns it; `kullanici_sayisi` may be missing. */
  datatype Bot = Bot(id: int, isim: string, aktif: bool, kullaniciSayisi: Option<int>)

  /** The template search is the templates page's filter. */
  function SablonFiltresi(ss: seq<MesajSablonlari.Sablon>, search: string, lower: string -> string): seq<MesajSablonlari.Sablon> {
    MesajSablonlari.Filtered(ss, search, lower)
  }

  /** The name contains the search text, ignoring case, and the filter is
      `hepsi`, or `aktif` for an active bot, or `pasif` for an inactive one. */
  predicate KeepBot(b: Bot, search: string, botFiltresi: string, lower: string -> string) {
    Strings.IncludesFolded(b.isim, search, lower)
    && (botFiltresi == "hepsi" || (botFiltresi == "aktif" && b.aktif) || (botFiltresi == "pasif" && !b.aktif))
  }

  function KeepBotFn(search: string, botFiltresi: string, lower: string -> string): Bot -> bool {
    (b: Bot) => KeepBot(b, search, botFiltresi, lower)
  }

  /** `filtrelenenBotlar`. */
  function FiltrelenenBotlar(bs: seq<Bot>, search: string, botFiltresi: string, lower: string -> string): seq<Bot> {
    Lists.Filter(bs, KeepBotFn(search, botFiltresi, lower))
  }

  function IsActive(b: Bot): bool { b.aktif }
  function IsInactive(b: Bot): bool { !b.aktif }

  /** With an empty search the active and the passive filter split the bots
      between them: every bot is listed under exactly one of the two. */
  lemma ActivePassiveSplit(bs: seq<Bot>, lower: string -> string)
    requires lower("") == ""
    ensures Lists.Filter(bs, KeepBotFn("", "aktif", lower)) == Lists.Filter(bs, IsActive)
    ensures Lists.Filter(bs, KeepBotFn("", "pasif", lower)) == Lists.Filter(bs, IsInactive)
    ensures |FiltrelenenBotlar(bs, "", "aktif", lower)| + |FiltrelenenBotlar(bs, "", "pasif", lower)| == |bs|
  {
    SameFilter(bs, KeepBotFn("", "aktif", lower), IsActive);
    SameFilter(bs, KeepBotFn("", "pasif", lower), IsInactive);
    Lists.CountSplit(bs, IsActive, IsInactive);
  }

  lemma {:induction false} SameFilter(bs: seq<Bot>, p: Bot -> bool, q: Bot -> bool)
    requires forall i :: 0 <= i < |bs| ==> p(bs[i]) == q(bs[i])
    ensures Lists.Filter(bs, p) == Lists.Filter(bs, q)
  {
    if bs != [] {
      SameFilter(bs[1..], p, q);
    }
  }

  /** Checking a bot's box appends its id. */
  function Check(selected: seq<int>, id: int): seq<int> {
    selected + [id]
  }

  /** Unchecking removes every occurrence of the id. */
  function Uncheck(selected: seq<int>, id: int): seq<int> {
    Lists.Filter(selected, Lists.Differs(id))
  }

  /** Checking marks the bot, unchecking clears it and touches no other
      bot, and unchecking a bot just checked restores the selection. */
  lemma ToggleSpec(selected: seq<int>, id: int)
    ensures id in Check(selected, id)
    ensures id !in Uncheck(selected, id)
    ensures forall other :: other != id ==> (other in Uncheck(selected, id) <==> other in selected)
    ensures id !in selected ==> Uncheck(Check(selected, id), id) == selected
  {
    Lists.WithoutSpec(selected, id);
  }

  function IdOf(b: Bot): int {
    b.id
  }

  /** The select-all box: checking selects every bot's id, whatever the
      filters show; unchecking clears the selection. */
  function SelectAll(bs: seq<Bot>, checked: bool): seq<int> {
    if checked then Lists.Map(bs, IdOf) else []
  }

  /** `bot.kullanici_sayisi || 0`. */
  function Users(b: Bot): int {
    b.kullaniciSayisi.GetOr(0)
  }

  /** `Tahmini Alıcı`: the bots whose id is selected, their user counts
      added up. */
  function Recipients(bs: seq<Bot>, selected: seq<int>): int {
    if bs == [] then 0
    else (if bs[0].id in selected then Users(bs[0]) else 0) + Recipients(bs[1..], selected)
  }

  function TotalUsers(bs: seq<Bot>): int {
    if bs == [] then 0 else Users(bs[0]) + TotalUsers(bs[1..])
  }

  /** No selection means no recipients, and selecting all reaches every
      bot's users. */
  lemma {:induction false} RecipientsEnds(bs: seq<Bot>)
    ensures Recipients(bs, []) == 0
    ensures Recipients(bs, SelectAll(bs, true)) == TotalUsers(bs)
  {
    if bs != [] {
      RecipientsEnds(bs[1..]);
    }
    AllSelected(bs, SelectAll(bs, true));
  }

  /** With non-negative counts a larger selection never estimates fewer
      recipients. */
  lemma {:induction false} RecipientsSpec(bs: seq<Bot>, small: seq<int>, large: seq<int>)
    requires forall x :: x in small ==> x in large
    requires forall i :: 0 <= i < |bs| ==> Users(bs[i]) >= 0
    ensures Recipients(bs, small) <= Recipients(bs, large)
  {
    if bs != [] {
      RecipientsSpec(bs[1..], small, large);
    }
  }

  lemma {:induction false} AllSelected(bs: seq<Bot>, selected: seq<int>)
    requires forall i :: 0 <= i < |bs| ==> bs[i].id in selected
    ensures Recipients(bs, selected) == TotalUsers(bs)
  {
    if bs != [] {
      AllSelected(bs[1..], selected);
    }
  }

  /** What `handleGonder` does: one of the two messages, or the request. */
  datatype Gonderim =
    | NeedTemplateAndBot
    | NeedTime
    | Request(sablonId: int, botIds: seq<int>, zamanlanmis: bool, gonderimZamani: Option<string>)

  /** A request goes out exactly when a template (an id other than 0) and
      at least one bot are chosen and a scheduled send has a non-empty
      time; it carries the choices, and a time exactly when the send is
      scheduled. */
  function HandleGonder(seciliSablon: Option<int>, seciliBotlar: seq<int>, zamanlanmis: bool,
                        gonderimZamani: string): (g: Gonderim)
    ensures g.Request? <==> seciliSablon.Some? && seciliSablon.value != 0 && seciliBotlar != []
                            && (!zamanlanmis || gonderimZamani != "")
    ensures g.NeedTemplateAndBot? <==> seciliSablon.None? || seciliSablon.value == 0 || seciliBotlar == []
    ensures g.Request? ==> g.sablonId == seciliSablon.value && g.botIds == seciliBotlar && g.zamanlanmis == zamanlanmis
                           && (g.gonderimZamani.Some? <==> zamanlanmis)
                           && (zamanlanmis ==> g.gonderimZamani.value == gonderimZamani)
  {
    if seciliSablon.None? || seciliSablon.value == 0 || |seciliBotlar| == 0 then NeedTemplateAndBot
    else if zamanlanmis && gonderimZamani == "" then NeedTime
    else Request(seciliSablon.value, seciliBotlar, zamanlanmis, if zamanlanmis then Some(gonderimZamani) else None)
  }
}
