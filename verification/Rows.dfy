/** Rows: greedy filling of rows of a given width, and why no arrangement needs fewer rows.

    Models the loops of wrapWords and chips in apps/api/internal/ai/grammar_visual_render.go;
    widths are reals. */
module Rows {
  type Length = r: real | r >= 0.0

  datatype Word = Word(text: string, bold: bool)

  /** A piece of text and the width accounted for it. */
  datatype Cell = Cell(word: Word, width: Length)

  /** The width of a row: its cells, and a gap between neighbours. */
  function RowWidth(row: seq<Cell>, gap: Length): (w: Length)
    ensures forall c | c in row :: c.width <= w
  {
    if row == [] then 0.0
    else
      var n := |row| - 1;
      assert row == row[..n] + [row[n]];
      RowWidth(row[..n], gap) + (if n > 0 then gap else 0.0) + row[n].width
  }

  function Flatten(rows: seq<seq<Cell>>): seq<Cell> {
    if rows == [] then [] else Flatten(rows[..|rows| - 1]) + rows[|rows| - 1]
  }

  // Puts a cell in the last row if it still fits there, and in a row of its own otherwise.
  function Place(rows: seq<seq<Cell>>, c: Cell, gap: Length, box: Length): seq<seq<Cell>> {
    if rows == [] then [[c]]
    else
      var n := |rows| - 1;
      if RowWidth(rows[n], gap) + gap + c.width > box then rows + [[c]] else rows[..n] + [rows[n] + [c]]
  }

  function Greedy(cells: seq<Cell>, gap: Length, box: Length): seq<seq<Cell>> {
    if cells == [] then [] else Place(Greedy(cells[..|cells| - 1], gap, box), cells[|cells| - 1], gap, box)
  }

  predicate RowsFit(rows: seq<seq<Cell>>, gap: Length, box: Length) {
    forall r | r in rows :: RowWidth(r, gap) <= box
  }

  lemma RowGrows(row: seq<Cell>, c: Cell, gap: Length)
    ensures RowWidth(row + [c], gap) == RowWidth(row, gap) + (if row == [] then 0.0 else gap) + c.width
  {
    assert (row + [c])[..|row|] == row;
  }

  lemma FlattenGrows(rows: seq<seq<Cell>>, row: seq<Cell>)
    ensures Flatten(rows + [row]) == Flatten(rows) + row
  {
    assert (rows + [row])[..|rows|] == rows;
  }

  lemma PlaceKeeps(rows: seq<seq<Cell>>, c: Cell, gap: Length, box: Length)
    requires RowsFit(rows, gap, box) && [] !in rows && c.width <= box
    ensures var r := Place(rows, c, gap, box);
            && Flatten(r) == Flatten(rows) + [c]
            && RowsFit(r, gap, box)
            && r != [] && [] !in r
  {
    hide RowWidth, Flatten;
    RowGrows([], c, gap);
    assert RowWidth([], gap) == 0.0 && [] + [c] == [c] by { EmptyRow(gap); }
    FlattenGrows(rows, [c]);
    if rows == [] {
      assert rows + [[c]] == [[c]];
    } else {
      var n := |rows| - 1;
      assert rows == rows[..n] + [rows[n]];
      RowGrows(rows[n], c, gap);
      FlattenGrows(rows[..n], rows[n]);
      FlattenGrows(rows[..n], rows[n] + [c]);
      assert rows[n] in rows;
      assert forall x | x in rows[..n] :: x in rows;
    }
  }

  lemma EmptyRow(gap: Length)
    ensures RowWidth([], gap) == 0.0
  {
  }

  /** Every cell is placed, in order; no row is empty; every row fits when every cell does. */
  lemma {:induction false} GreedyKeepsAndFits(cells: seq<Cell>, gap: Length, box: Length)
    requires forall c | c in cells :: c.width <= box
    ensures var rows := Greedy(cells, gap, box);
            && Flatten(rows) == cells
            && RowsFit(rows, gap, box)
            && [] !in rows
            && (rows == [] <==> cells == [])
  {
    if cells != [] {
      hide RowsFit, Flatten, Place;
      var n := |cells| - 1;
      assert cells == cells[..n] + [cells[n]];
      assert forall c | c in cells[..n] :: c in cells;
      GreedyKeepsAndFits(cells[..n], gap, box);
      PlaceKeeps(Greedy(cells[..n], gap, box), cells[n], gap, box);
    } else {
      assert Flatten([]) == [];
    }
  }

  // What "at least as good" means while filling: fewer rows, or as many with no more in the last one.
  predicate NoWorse(rows: seq<seq<Cell>>, other: seq<seq<Cell>>, gap: Length) {
    && |rows| <= |other|
    && (|rows| == |other| && rows != [] ==> RowWidth(rows[|rows| - 1], gap) <= RowWidth(other[|other| - 1], gap))
  }

  lemma StaysNoWorse(rows: seq<seq<Cell>>, other: seq<seq<Cell>>, row: seq<Cell>, c: Cell, gap: Length, box: Length)
    requires NoWorse(rows, if row == [] then other else other + [row], gap)
    requires RowWidth(row + [c], gap) <= box
    ensures NoWorse(Place(rows, c, gap, box), other + [row + [c]], gap)
  {
    hide RowWidth;
    RowGrows(row, c, gap);
    RowGrows([], c, gap);
    EmptyRow(gap);
    assert [] + [c] == [c];
    if rows != [] { RowGrows(rows[|rows| - 1], c, gap); }
  }

  /** Greedy filling is optimal: any other division of the same cells into rows that fit, in the
      same order, has at least as many rows. */
  lemma {:induction false} GreedyIsOptimal(cells: seq<Cell>, other: seq<seq<Cell>>, gap: Length, box: Length)
    requires Flatten(other) == cells && RowsFit(other, gap, box)
    ensures NoWorse(Greedy(cells, gap, box), other, gap)
    ensures |Greedy(cells, gap, box)| <= |other|
    decreases |other|, |cells|
  {
    if other != [] {
      hide RowWidth, Flatten, Place, RowsFit, NoWorse;
      var n := |other| - 1;
      var rest, last := other[..n], other[n];
      assert other == rest + [last];
      FitsParts(rest, last, gap, box);
      FlattenGrows(rest, last);
      if last == [] {
        assert Flatten(rest) == cells;
        GreedyIsOptimal(cells, rest, gap, box);
        MoreRows(Greedy(cells, gap, box), other, gap);
      } else {
        var m := |last| - 1;
        var row, c := last[..m], last[m];
        assert last == row + [c];
        var before := cells[..|cells| - 1];
        assert cells[|cells| - 1] == c && before == Flatten(rest) + row;
        if row == [] {
          assert before == Flatten(rest);
          GreedyIsOptimal(before, rest, gap, box);
        } else {
          FlattenGrows(rest, row);
          FitsMore(rest, row, c, gap, box);
          GreedyIsOptimal(before, rest + [row], gap, box);
        }
        StaysNoWorse(Greedy(before, gap, box), rest, row, c, gap, box);
      }
    } else {
      assert cells == [];
      assert NoWorse([], other, gap);
    }
  }

  lemma FitsParts(rest: seq<seq<Cell>>, last: seq<Cell>, gap: Length, box: Length)
    requires RowsFit(rest + [last], gap, box)
    ensures RowsFit(rest, gap, box) && RowWidth(last, gap) <= box
  {
    hide RowWidth;
    var all := rest + [last];
    assert last in all && forall r | r in rest :: r in all;
  }

  lemma FitsMore(rest: seq<seq<Cell>>, row: seq<Cell>, c: Cell, gap: Length, box: Length)
    requires RowsFit(rest, gap, box) && RowWidth(row + [c], gap) <= box
    ensures RowsFit(rest + [row], gap, box)
  {
    RowGrows(row, c, gap);
    hide RowWidth;
  }

  lemma MoreRows(rows: seq<seq<Cell>>, other: seq<seq<Cell>>, gap: Length)
    requires |rows| < |other|
    ensures NoWorse(rows, other, gap)
  {
  }
}
