/** The CSV exports of the pages: `rows.map(row => row.join(',')).join('\n')`.
    Cells are written as they are, without quoting. */
module Csv {
  import Strings

  function Row(cells: seq<string>): string {
    Strings.Join(cells, ",")
  }

  function Lines(rows: seq<seq<string>>): (r: seq<string>)
    ensures |r| == |rows|
    ensures forall i :: 0 <= i < |rows| ==> r[i] == Row(rows[i])
  {
    seq(|rows|, i requires 0 <= i < |rows| => Row(rows[i]))
  }

  function Document(rows: seq<seq<string>>): string {
    Strings.Join(Lines(rows), "\n")
  }

  predicate NoChar(rows: seq<seq<string>>, c: char) {
    forall i, j :: 0 <= i < |rows| && 0 <= j < |rows[i]| ==> c !in rows[i][j]
  }

  /** When no cell contains a line break, the document has one line per row,
      and line `i` is row `i` joined with commas. */
  lemma DocumentLines(rows: seq<seq<string>>)
    requires |rows| >= 1
    requires NoChar(rows, '\n')
    ensures Strings.Split(Document(rows), '\n') == Lines(rows)
  {
    var lines := Lines(rows);
    forall i | 0 <= i < |lines| ensures '\n' !in lines[i] {
      Strings.JoinNoChar(rows[i], ",", '\n');
    }
    Strings.SplitJoin(lines, '\n');
  }

  /** When no cell contains a comma, splitting a row on commas gives back
      its cells: the row has exactly as many columns as cells. */
  lemma RowCells(cells: seq<string>)
    requires |cells| >= 1
    requires forall j :: 0 <= j < |cells| ==> ',' !in cells[j]
    ensures Strings.Split(Row(cells), ',') == cells
  {
    Strings.SplitJoin(cells, ',');
  }

  /** A row none of whose cells holds a comma or a line break. */
  predicate PlainCells(cells: seq<string>) {
    forall j :: 0 <= j < |cells| ==> ',' !in cells[j] && '\n' !in cells[j]
  }

  /** When no cell contains a comma or a line break and no row is empty,
      the document splits into one line per row and each line splits back
      into its row's cells. */
  lemma TableLayout(rows: seq<seq<string>>)
    requires |rows| >= 1
    requires forall i :: 0 <= i < |rows| ==> |rows[i]| >= 1 && PlainCells(rows[i])
    ensures |Strings.Split(Document(rows), '\n')| == |rows|
    ensures forall i :: 0 <= i < |rows| ==> Strings.Split(Strings.Split(Document(rows), '\n')[i], ',') == rows[i]
  {
    assert NoChar(rows, '\n') && NoChar(rows, ',') by {
      forall i, j | 0 <= i < |rows| && 0 <= j < |rows[i]| ensures '\n' !in rows[i][j] && ',' !in rows[i][j] {
        assert PlainCells(rows[i]);
      }
    }
    DocumentLines(rows);
    forall i | 0 <= i < |rows| ensures Strings.Split(Row(rows[i]), ',') == rows[i] {
      RowCells(rows[i]);
    }
  }
}
