/** The sort menu shared by the list pages: the active sort field and
    direction, the rule a click applies, and the button's label. */
module SortMenu {
  import opened Wrappers

  datatype Direction = Asc | Desc

  datatype ActiveSort = ActiveSort(field: string, direction: Direction)

  datatype SortOption = SortOption(id: string, caption: string)

  /** A click on an option: the active field while ascending turns to
      descending; any other click sorts ascending by the clicked field. */
  function Click(active: ActiveSort, clicked: string): ActiveSort {
    ActiveSort(clicked, if active.field == clicked && active.direction == Asc then Desc else Asc)
  }

  /** Clicking the same option again and again alternates the direction,
      starting from ascending unless that option was already ascending, and
      the field is always the clicked one. */
  lemma ClickSpec(active: ActiveSort, clicked: string)
    ensures Click(active, clicked).field == clicked
    ensures Click(active, clicked).direction == Desc <==> active.field == clicked && active.direction == Asc
    ensures Click(Click(active, clicked), clicked).direction != Click(active, clicked).direction
    ensures Click(Click(Click(active, clicked), clicked), clicked) == Click(active, clicked)
  {
  }

  function FindSort(options: seq<SortOption>, field: string): (r: Option<SortOption>)
    ensures r.Some? ==> r.value.id == field
    ensures r.Some? ==>
      exists i :: 0 <= i < |options| && options[i] == r.value && forall j :: 0 <= j < i ==> options[j].id != field
    ensures r.None? ==> forall i :: 0 <= i < |options| ==> options[i].id != field
  {
    if options == [] then None
    else if options[0].id == field then Some(options[0])
    else
      var r := FindSort(options[1..], field);
      if r.Some? then
        var k :| 0 <= k < |options[1..]| && options[1..][k] == r.value
                 && forall j :: 0 <= j < k ==> options[1..][j].id != field;
        assert options[k + 1] == r.value;
        assert forall j :: 1 <= j < k + 1 ==> options[j] == options[1..][j - 1];
        r
      else r
  }

  /** `activeOption?.label || 'Sırala'`. */
  function ButtonLabel(options: seq<SortOption>, active: ActiveSort): string {
    match FindSort(options, active.field)
    case Some(o) => if o.caption != "" then o.caption else "Sırala"
    case None => "Sırala"
  }

  /** The caption is the first matching option's caption, and "Sırala" when
      that caption is empty or the active field is not an option. */
  lemma ButtonLabelSpec(options: seq<SortOption>, active: ActiveSort, i: int)
    requires 0 <= i < |options| && options[i].id == active.field
    requires forall j :: 0 <= j < i ==> options[j].id != active.field
    ensures ButtonLabel(options, active) == if options[i].caption != "" then options[i].caption else "Sırala"
  {
    var r := FindSort(options, active.field);
    var k :| 0 <= k < |options| && options[k] == r.value && forall j :: 0 <= j < k ==> options[j].id != active.field;
    assert k == i;
  }

  lemma UnknownFieldLabel(options: seq<SortOption>, active: ActiveSort)
    requires forall i :: 0 <= i < |options| ==> options[i].id != active.field
    ensures ButtonLabel(options, active) == "Sırala"
  {
  }
}
