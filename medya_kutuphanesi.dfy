/** The media-library page: the media list narrowed by a search text over
    names and tags and by a type filter, the selection of media, the upload
    queue, the size unit and the per-type counts. `toLowerCase` is the
    parameter `lower`; the upload request and its outcome are parameters. */
module MedyaKutuphanesi {
  import opened Wrappers
  import Strings
  import Lists
  import opened ByteUnits

  datatype Tip = Resim | Video | Gif | Dosya

  function TipName(t: Tip): string {
    match t
    case Resim => "resim"
    case Video => "video"
    case Gif => "gif"
    case Dosya => "dosya"
  }

  datatype Medya = Medya(
    id: int,
    isim: string,
    tip: Tip,
    url: string,
    boyut: int,
    olusturmaTarihi: string,
    etiketler: seq<string>)

  /** `etiketler.some(etiket => etiket.toLowerCase().includes(...))`. */
  predicate AnyTag(tags: seq<string>, search: string, lower: string -> string)
    decreases |tags|
  {
    tags != [] && (Strings.IncludesFolded(tags[0], search, lower) || AnyTag(tags[1..], search, lower))
  }

  lemma {:induction false} AnyTagSpec(tags: seq<string>, search: string, lower: string -> string)
    ensures AnyTag(tags, search, lower) <==> exists i :: 0 <= i < |tags| && Strings.IncludesFolded(tags[i], search, lower)
    decreases |tags|
  {
    if tags != [] {
      AnyTagSpec(tags[1..], search, lower);
      if exists i :: 0 <= i < |tags| && Strings.IncludesFolded(tags[i], search, lower) {
        var i :| 0 <= i < |tags| && Strings.IncludesFolded(tags[i], search, lower);
        if i > 0 {
          assert tags[1..][i - 1] == tags[i];
        }
      }
      if AnyTag(tags[1..], search, lower) {
        var i :| 0 <= i < |tags[1..]| && Strings.IncludesFolded(tags[1..][i], search, lower);
        assert tags[i + 1] == tags[1..][i];
      }
    }
  }

  /** The search text occurs, ignoring case, in the name or in some tag,
      and the type filter is `hepsi` or the item's type. */
  predicate Keep(m: Medya, search: string, tipFiltresi: string, lower: string -> string) {
    (Strings.IncludesFolded(m.isim, search, lower) || AnyTag(m.etiketler, search, lower))
    && (tipFiltresi == "hepsi" || TipName(m.tip) == tipFiltresi)
  }

  function KeepFn(search: string, tipFiltresi: string, lower: string -> string): Medya -> bool {
    (m: Medya) => Keep(m, search, tipFiltresi, lower)
  }

  /** `filtrelenenMedyalar`: the kept items, in list order. */
  function Filtered(ms: seq<Medya>, search: string, tipFiltresi: string, lower: string -> string): (r: seq<Medya>)
    ensures forall m :: multiset(r)[m] == if Keep(m, search, tipFiltresi, lower) then multiset(ms)[m] else 0
  {
    Lists.FilterMultiset(ms, KeepFn(search, tipFiltresi, lower));
    Lists.Filter(ms, KeepFn(search, tipFiltresi, lower))
  }

  /** The kept items keep their list order: filtering a list split in two
      is filtering each part and joining the results. */
  lemma FilteredOrder(a: seq<Medya>, b: seq<Medya>, search: string, tipFiltresi: string, lower: string -> string)
    ensures Filtered(a + b, search, tipFiltresi, lower)
         == Filtered(a, search, tipFiltresi, lower) + Filtered(b, search, tipFiltresi, lower)
  {
    Lists.FilterAppend(a, b, KeepFn(search, tipFiltresi, lower));
  }

  /** An item matched only through a tag is still shown. */
  lemma TagMatchShows(m: Medya, search: string, lower: string -> string, i: int)
    requires 0 <= i < |m.etiketler| && Strings.IncludesFolded(m.etiketler[i], search, lower)
    ensures Keep(m, search, "hepsi", lower)
  {
    AnyTagSpec(m.etiketler, search, lower);
  }

  /** Clicking an item: a selected id is removed (every occurrence), any
      other id appended. */
  function Toggle(selected: seq<int>, id: int): seq<int> {
    if id in selected then Lists.Filter(selected, Lists.Differs(id)) else selected + [id]
  }

  /** A click flips the item's selection and no other; two clicks restore
      which items are selected, and the very list when the item was not
      selected. */
  lemma ToggleSpec(selected: seq<int>, id: int)
    ensures id in Toggle(selected, id) <==> id !in selected
    ensures forall other :: other != id ==> (other in Toggle(selected, id) <==> other in selected)
    ensures forall x :: x in Toggle(Toggle(selected, id), id) <==> x in selected
    ensures id !in selected ==> Toggle(Toggle(selected, id), id) == selected
  {
    Lists.WithoutSpec(selected, id);
    Lists.WithoutSpec(selected + [id], id);
    Lists.WithoutSpec(Lists.Filter(selected, Lists.Differs(id)), id);
  }

  function IdOf(m: Medya): int {
    m.id
  }

  /** The header box selects exactly the ids of the media shown now, in
      their order, or clears the selection. */
  function SelectAll(ms: seq<Medya>, search: string, tipFiltresi: string, lower: string -> string,
                     checked: bool): (r: seq<int>)
    ensures checked ==> forall id :: id in r <==> exists i :: 0 <= i < |ms| && ms[i].id == id && Keep(ms[i], search, tipFiltresi, lower)
    ensures !checked ==> r == []
  {
    if checked then
      ShownIds(ms, search, tipFiltresi, lower);
      Lists.Map(Filtered(ms, search, tipFiltresi, lower), IdOf)
    else []
  }

  /** The ids of the items shown are exactly the ids of the kept items. */
  lemma ShownIds(ms: seq<Medya>, search: string, tipFiltresi: string, lower: string -> string)
    ensures var ids := Lists.Map(Filtered(ms, search, tipFiltresi, lower), IdOf);
      forall id :: id in ids <==> exists i :: 0 <= i < |ms| && ms[i].id == id && Keep(ms[i], search, tipFiltresi, lower)
  {
    var p := KeepFn(search, tipFiltresi, lower);
    IdsOfKept(ms, p);
    assert forall i :: 0 <= i < |ms| ==> (p(ms[i]) <==> Keep(ms[i], search, tipFiltresi, lower));
  }

  lemma IdsOfKept(ms: seq<Medya>, p: Medya -> bool)
    ensures forall id :: id in Lists.Map(Lists.Filter(ms, p), IdOf) <==> exists i :: 0 <= i < |ms| && ms[i].id == id && p(ms[i])
  {
    var shown := Lists.Filter(ms, p);
    var ids := Lists.Map(shown, IdOf);
    forall id | id in ids
      ensures exists i :: 0 <= i < |ms| && ms[i].id == id && p(ms[i])
    {
      var k :| 0 <= k < |ids| && ids[k] == id;
      var i :| 0 <= i < |ms| && ms[i] == shown[k];
    }
    forall id | exists i :: 0 <= i < |ms| && ms[i].id == id && p(ms[i])
      ensures id in ids
    {
      var i :| 0 <= i < |ms| && ms[i].id == id && p(ms[i]);
      var k :| 0 <= k < |shown| && shown[k] == ms[i];
      assert ids[k] == id;
    }
  }

  /** A file chosen for upload. */
  datatype Queued = Queued(name: string, size: int)

  /** The upload dialog: the queue and whether the dialog is open. */
  datatype Upload = Upload(queue: seq<Queued>, modalOpen: bool)

  /** `handleDosyaSecimi`: no file list changes nothing; a file list
      becomes the queue and opens the dialog. */
  function DosyaSecimi(u: Upload, files: Option<seq<Queued>>): Upload {
    match files
    case None => u
    case Some(fs) => Upload(fs, true)
  }

  /** `handleDosyaYukle`: the files the request sends, if one is sent, and
      the dialog after it. `failed` is the request's outcome. */
  function DosyaYukle(u: Upload, failed: bool): (r: (Option<seq<Queued>>, Upload))
    ensures u.queue == [] ==> r.0.None? && r.1 == u
    ensures u.queue != [] ==> r.0 == Some(u.queue)
    ensures u.queue != [] && !failed ==> r.1 == Upload([], false)
    ensures u.queue != [] && failed ==> r.1 == u
  {
    if |u.queue| == 0 then (None, u)
    else if failed then (Some(u.queue), u)
    else (Some(u.queue), Upload([], false))
  }

  /** Choosing files and uploading them sends exactly the chosen files and,
      on success, closes the dialog with an empty queue; a failed upload
      leaves the chosen files queued in the open dialog, so a retry sends
      them again. An empty choice opens the dialog but sends nothing. */
  lemma UploadCycle(u: Upload, fs: seq<Queued>)
    ensures fs != [] ==> DosyaYukle(DosyaSecimi(u, Some(fs)), false) == (Some(fs), Upload([], false))
    ensures fs != [] ==> DosyaYukle(DosyaSecimi(u, Some(fs)), true) == (Some(fs), Upload(fs, true))
    ensures fs != [] ==> DosyaYukle(DosyaYukle(DosyaSecimi(u, Some(fs)), true).1, false).0 == Some(fs)
    ensures fs == [] ==> DosyaYukle(DosyaSecimi(u, Some(fs)), false) == (None, Upload([], true))
    ensures DosyaSecimi(u, None) == u
  {
  }

  /** The remove button on a queued file drops exactly that index. */
  function QueueRemove(u: Upload, index: int): (r: Upload)
    ensures 0 <= index < |u.queue| ==> r.queue == u.queue[..index] + u.queue[index + 1..]
    ensures r.modalOpen == u.modalOpen
  {
    Lists.RemoveAtSpec(u.queue, index);
    u.(queue := Lists.RemoveAt(u.queue, index))
  }

  /** `formatBoyut`'s unit on this page: bytes below 1024, KB below 1024²,
      and MB above that, however large. */
  function BoyutBirimi(byte: int): (u: Unit)
    ensures u != GB
    ensures byte >= 1 ==> Scale(u) <= byte
    ensures u != MB ==> byte < 1024 * Scale(u)
  {
    if byte < 1024 then B
    else if byte < 1024 * 1024 then KB
    else MB
  }

  function HasTip(t: Tip): Medya -> bool {
    (m: Medya) => m.tip == t
  }

  /** `medyalar.filter(m => m.tip === t).length`. */
  function CountTip(ms: seq<Medya>, t: Tip): nat {
    Lists.Count(ms, HasTip(t))
  }

  /** The four types' counts add up to the number of media. */
  lemma {:induction false} CountsSum(ms: seq<Medya>)
    ensures CountTip(ms, Resim) + CountTip(ms, Video) + CountTip(ms, Dosya) + CountTip(ms, Gif) == |ms|
  {
    if ms != [] {
      CountsSum(ms[1..]);
    }
  }

  /** The image, video and file cards never add up to more than the total
      card, and match it exactly when there is no gif, which no card counts. */
  lemma CardsTotal(ms: seq<Medya>)
    ensures CountTip(ms, Resim) + CountTip(ms, Video) + CountTip(ms, Dosya) <= |ms|
    ensures CountTip(ms, Resim) + CountTip(ms, Video) + CountTip(ms, Dosya) == |ms| <==> CountTip(ms, Gif) == 0
  {
    CountsSum(ms);
  }
}
