/** The message-template page: the template list narrowed by a search text,
    and the editable list of inline buttons in the template dialog.
    `toLowerCase` is the parameter `lower`. */
module MesajSablonlari {
  import opened Wrappers
  import Strings
  import Lists

  /** An inline button; `url` and `callback_data` are optional. */
  datatype Buton = Buton(text: string, url: Option<string>, callbackData: Option<string>)

  datatype Sablon = Sablon(
    id: int,
    baslik: string,
    icerik: string,
    medyaTipleri: seq<string>,
    medyaUrls: seq<string>,
    butonlar: seq<Buton>)

  /** The title or the content contains the search text, ignoring case. */
  predicate Keep(s: Sablon, search: string, lower: string -> string) {
    Strings.IncludesFolded(s.baslik, search, lower) || Strings.IncludesFolded(s.icerik, search, lower)
  }

  function KeepFn(search: string, lower: string -> string): Sablon -> bool {
    (s: Sablon) => Keep(s, search, lower)
  }

  /** `filtrelenmisTemplates`: the kept templates, in list order. */
  function Filtered(ss: seq<Sablon>, search: string, lower: string -> string): seq<Sablon> {
    Lists.Filter(ss, KeepFn(search, lower))
  }

  /** The templates shown are exactly the matching ones, in list order, and
      an empty search shows them all. */
  lemma FilteredSpec(ss: seq<Sablon>, search: string, lower: string -> string, a: seq<Sablon>, b: seq<Sablon>)
    ensures forall s :: multiset(Filtered(ss, search, lower))[s] == if Keep(s, search, lower) then multiset(ss)[s] else 0
    ensures Filtered(a + b, search, lower) == Filtered(a, search, lower) + Filtered(b, search, lower)
    ensures lower("") == "" ==> Filtered(ss, "", lower) == ss
  {
    Lists.FilterMultiset(ss, KeepFn(search, lower));
    Lists.FilterAppend(a, b, KeepFn(search, lower));
    if lower("") == "" {
      forall i | 0 <= i < |ss| ensures KeepFn("", lower)(ss[i]) {
        Strings.EmptySearchMatches(ss[i].baslik, lower);
      }
      Lists.FilterKeepsAll(ss, KeepFn("", lower));
    }
  }

  /** The button added by the add button: empty text and an empty URL. */
  const NewButton: Buton := Buton("", Some(""), None)

  /** `handleButonEkle`. */
  function ButonEkle(bs: seq<Buton>): (r: seq<Buton>)
    ensures |r| == |bs| + 1 && r[..|bs|] == bs && r[|bs|] == NewButton
  {
    bs + [NewButton]
  }

  /** `handleButonSil`: `filter((_, i) => i !== index)`. */
  function ButonSil(bs: seq<Buton>, index: int): seq<Buton> {
    Lists.RemoveAt(bs, index)
  }

  /** Removing a button removes exactly the one at that index, the others
      keep their order, and removing the button just added gives the list
      back. */
  lemma ButonSilSpec(bs: seq<Buton>, index: int)
    ensures 0 <= index < |bs| ==> ButonSil(bs, index) == bs[..index] + bs[index + 1..]
    ensures !(0 <= index < |bs|) ==> ButonSil(bs, index) == bs
    ensures ButonSil(ButonEkle(bs), |bs|) == bs
  {
    Lists.RemoveAtSpec(bs, index);
    Lists.RemoveAtSpec(ButonEkle(bs), |bs|);
    assert ButonEkle(bs)[..|bs|] == bs;
  }

  datatype Alan = TextAlan | UrlAlan | CallbackAlan

  /** `{ ...buton, [field]: value }`. */
  function SetField(b: Buton, field: Alan, value: string): Buton {
    match field
    case TextAlan => b.(text := value)
    case UrlAlan => b.(url := Some(value))
    case CallbackAlan => b.(callbackData := Some(value))
  }

  /** What a field reads: the text, or the optional field with a missing one
      read as empty. */
  function GetField(b: Buton, field: Alan): string {
    match field
    case TextAlan => b.text
    case UrlAlan => b.url.GetOr("")
    case CallbackAlan => b.callbackData.GetOr("")
  }

  /** A written field reads back the value, and the other fields are as
      they were. */
  lemma SetFieldSpec(b: Buton, field: Alan, value: string)
    ensures GetField(SetField(b, field, value), field) == value
    ensures forall other :: other != field ==> GetField(SetField(b, field, value), other) == GetField(b, other)
  {
  }

  /** `handleButonGuncelle`: a copy of the list with the indexed button's
      field set; the source list is not changed. */
  method ButonGuncelle(bs: seq<Buton>, index: int, field: Alan, value: string) returns (r: seq<Buton>)
    requires 0 <= index < |bs|
    ensures |r| == |bs|
    ensures forall i :: 0 <= i < |bs| && i != index ==> r[i] == bs[i]
    ensures GetField(r[index], field) == value
    ensures forall other :: other != field ==> GetField(r[index], other) == GetField(bs[index], other)
  {
    var yeni := new Buton[|bs|](i requires 0 <= i < |bs| => bs[i]);
    yeni[index] := SetField(yeni[index], field, value);
    r := yeni[..];
    SetFieldSpec(bs[index], field, value);
  }

  /** The second input shows `url || callback_data || ''`: the URL when it
      reads non-empty, and the callback data (empty when missing) otherwise;
      so it always shows the field it writes. */
  function SecondValue(b: Buton): (r: string)
    ensures r == if GetField(b, UrlAlan) != "" then GetField(b, UrlAlan) else GetField(b, CallbackAlan)
    ensures r == GetField(b, SecondTarget(b))
  {
    if b.url.Some? && b.url.value != "" then b.url.value
    else if b.callbackData.Some? && b.callbackData.value != "" then b.callbackData.value
    else ""
  }

  /** The field the second input writes: `url` while the URL is non-empty,
      `callback_data` otherwise. */
  function SecondTarget(b: Buton): Alan {
    if b.url.Some? && b.url.value != "" then UrlAlan else CallbackAlan
  }

  /** Typing a non-empty value into the second input shows that value;
      clearing it shows the callback data when the URL was the field
      edited, and nothing otherwise. */
  lemma SecondInputEcho(b: Buton, value: string)
    ensures value != "" ==> SecondValue(SetField(b, SecondTarget(b), value)) == value
    ensures value == "" ==> SecondValue(SetField(b, SecondTarget(b), value))
                            == if SecondTarget(b) == UrlAlan then GetField(b, CallbackAlan) else ""
  {
  }

  /** Typing into the second input. */
  method EditSecond(bs: seq<Buton>, index: int, value: string) returns (r: seq<Buton>)
    requires 0 <= index < |bs|
    ensures |r| == |bs|
    ensures forall i :: 0 <= i < |bs| && i != index ==> r[i] == bs[i]
    ensures GetField(r[index], SecondTarget(bs[index])) == value
    ensures GetField(r[index], UrlAlan) != "" <==> GetField(bs[index], UrlAlan) != "" && value != ""
  {
    r := ButonGuncelle(bs, index, SecondTarget(bs[index]), value);
  }

  /** The type selector calls `handleButonGuncelle` twice on the same
      rendered list, so only the second call's copy is kept: choosing "URL"
      empties `callback_data` only, choosing "Callback" empties `url` only. */
  method SelectKind(bs: seq<Buton>, index: int, toUrl: bool) returns (r: seq<Buton>)
    requires 0 <= index < |bs|
    ensures |r| == |bs|
    ensures forall i :: 0 <= i < |bs| && i != index ==> r[i] == bs[i]
    ensures toUrl ==> GetField(r[index], CallbackAlan) == "" && GetField(r[index], UrlAlan) == GetField(bs[index], UrlAlan)
    ensures !toUrl ==> GetField(r[index], UrlAlan) == "" && GetField(r[index], CallbackAlan) == GetField(bs[index], CallbackAlan)
  {
    var first := if toUrl then UrlAlan else CallbackAlan;
    var second := if toUrl then CallbackAlan else UrlAlan;
    // Both copies start from the same rendered list; the first is replaced.
    r := ButonGuncelle(bs, index, first, "");
    r := ButonGuncelle(bs, index, second, "");
  }
}
