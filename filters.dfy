/** The shared filter bar: a map from filter id to its chosen value, edited
    one filter at a time, and the chips that show the active filters. The
    map is a value here; the component edits a copy and hands it on, which
    is the same thing. */
module FilterBar {
  import opened Wrappers

  datatype InputKind = Select | Date | Text | Number

  datatype Choice = Choice(value: string, caption: string)

  datatype FilterOption = FilterOption(id: string, caption: string, kind: InputKind, choices: seq<Choice>)

  /** `handleFilterChange`: the incoming map is copied, and the copy loses
      the key when the new value is empty or null and gets the value
      otherwise. */
  method HandleFilterChange(activeFilters: map<string, string>, id: string, value: Option<string>)
    returns (newFilters: map<string, string>)
    ensures value.None? || value.value == "" ==> id !in newFilters
    ensures value.Some? && value.value != "" ==> id in newFilters && newFilters[id] == value.value
    ensures forall k :: k != id ==> (k in newFilters <==> k in activeFilters)
    ensures forall k :: k != id && k in activeFilters ==> newFilters[k] == activeFilters[k]
    ensures |newFilters| == ActiveFilterCount(activeFilters)
      + (if value.Some? && value.value != "" && id !in activeFilters then 1 else 0)
      - (if (value.None? || value.value == "") && id in activeFilters then 1 else 0)
  {
    newFilters := activeFilters;
    if value.None? || value.value == "" {
      newFilters := newFilters - {id};
    } else {
      newFilters := newFilters[id := value.value];
    }
  }

  /** `clearFilters`: no filter and no search text. */
  function ClearFilters(): (r: (map<string, string>, string))
    ensures |r.0| == 0 && r.1 == ""
  {
    (map[], "")
  }

  /** The number on the filter button. */
  function ActiveFilterCount(activeFilters: map<string, string>): nat {
    |activeFilters.Keys|
  }

  /** `options.find(opt => opt.id === key)`: the first option with that id. */
  function FindOption(options: seq<FilterOption>, id: string): (r: Option<FilterOption>)
    ensures r.Some? ==> r.value in options && r.value.id == id
    ensures r.Some? ==>
      exists i :: 0 <= i < |options| && options[i] == r.value && forall j :: 0 <= j < i ==> options[j].id != id
    ensures r.None? ==> forall i :: 0 <= i < |options| ==> options[i].id != id
  {
    if options == [] then None
    else if options[0].id == id then Some(options[0])
    else
      var r := FindOption(options[1..], id);
      if r.Some? then
        var k :| 0 <= k < |options[1..]| && options[1..][k] == r.value
                 && forall j :: 0 <= j < k ==> options[1..][j].id != id;
        assert options[k + 1] == r.value;
        assert forall j :: 1 <= j < k + 1 ==> options[j] == options[1..][j - 1];
        r
      else r
  }

  /** `option.options?.find(opt => opt.value === value)`: the first choice
      with that value. */
  function FindChoice(choices: seq<Choice>, value: string): (r: Option<Choice>)
    ensures r.Some? ==> r.value in choices && r.value.value == value
    ensures r.Some? ==>
      exists i :: 0 <= i < |choices| && choices[i] == r.value && forall j :: 0 <= j < i ==> choices[j].value != value
    ensures r.None? ==> forall i :: 0 <= i < |choices| ==> choices[i].value != value
  {
    if choices == [] then None
    else if choices[0].value == value then Some(choices[0])
    else
      var r := FindChoice(choices[1..], value);
      if r.Some? then
        var k :| 0 <= k < |choices[1..]| && choices[1..][k] == r.value
                 && forall j :: 0 <= j < k ==> choices[1..][j].value != value;
        assert choices[k + 1] == r.value;
        assert forall j :: 1 <= j < k + 1 ==> choices[j] == choices[1..][j - 1];
        r
      else r
  }

  /** The text of an active filter's chip: for a select, the caption of the
      choice with that value, or the raw value when there is none (or its
      caption is empty); for other inputs the raw value. */
  function ChipValue(option: FilterOption, value: string): string {
    if option.kind == Select then
      match FindChoice(option.choices, value)
      case Some(c) => if c.caption != "" then c.caption else value
      case None => value
    else value
  }

  /** A chip is drawn only for a key some option declares: it reads the
      first such option's caption, `: ` and the chip value. */
  function Chip(options: seq<FilterOption>, key: string, value: string): (r: Option<string>)
    ensures r.None? <==> forall i :: 0 <= i < |options| ==> options[i].id != key
    ensures r.Some? ==>
      exists i :: 0 <= i < |options| && options[i].id == key
        && (forall j :: 0 <= j < i ==> options[j].id != key)
        && r.value == options[i].caption + ": " + ChipValue(options[i], value)
  {
    match FindOption(options, key)
    case None => None
    case Some(o) => Some(o.caption + ": " + ChipValue(o, value))
  }

  /** A chip shows a choice's caption only when that choice has the value,
      and otherwise shows the value itself. */
  lemma ChipValueSpec(option: FilterOption, value: string)
    ensures ChipValue(option, value) == value
      || (option.kind == Select
          && (exists i :: 0 <= i < |option.choices|
                && option.choices[i].value == value && option.choices[i].caption == ChipValue(option, value)))
    ensures option.kind != Select ==> ChipValue(option, value) == value
    ensures option.kind == Select && (forall i :: 0 <= i < |option.choices| ==> option.choices[i].value != value)
      ==> ChipValue(option, value) == value
  {
    if option.kind == Select {
      var c := FindChoice(option.choices, value);
      if c.Some? && c.value.caption != "" {
        var i :| 0 <= i < |option.choices| && option.choices[i] == c.value;
      }
    }
  }

  /** The chip of a select shows the caption of the FIRST choice carrying
      the value, and falls back to the value itself when that caption is
      empty; any other input shows the value. */
  lemma ChipValueFirstMatch(option: FilterOption, value: string, i: int)
    requires 0 <= i < |option.choices| && option.choices[i].value == value
    requires forall j :: 0 <= j < i ==> option.choices[j].value != value
    ensures ChipValue(option, value)
      == if option.kind == Select && option.choices[i].caption != "" then option.choices[i].caption else value
  {
    if option.kind == Select {
      var r := FindChoice(option.choices, value);
      var k :| 0 <= k < |option.choices| && option.choices[k] == r.value
               && forall j :: 0 <= j < k ==> option.choices[j].value != value;
      assert k == i;
    }
  }
}
