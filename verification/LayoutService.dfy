/** LayoutService: a diagram as it is drawn, step by step on a canvas.

    Models apps/api/internal/ai/grammar_visual_render.go. */
module LayoutService {
  import opened Text
  import opened Rows
  import opened Wrapping
  import opened Layout
  import opened LayoutProofs
  import opened Timeline

  method CleanStrings(tags: seq<string>) returns (out: seq<string>)
    ensures out == CleanTags(tags)
  {
    out := [];
    for i := 0 to |tags|
      invariant out == CleanTags(tags[..i])
    {
      assert tags[..i + 1][..i] == tags[..i];
      if |out| == 8 {
        FullTags(tags, i);
        return;
      }
      var t := Trim(tags[i]);
      if t != "" {
        out := out + [t];
      }
    }
    assert tags[..|tags|] == tags;
  }

  lemma {:induction false} FullTags(tags: seq<string>, i: nat)
    requires i <= |tags| && |CleanTags(tags[..i])| == 8
    ensures CleanTags(tags) == CleanTags(tags[..i])
    decreases |tags| - i
  {
    if i == |tags| {
      assert tags[..i] == tags;
    } else {
      assert tags[..i + 1][..i] == tags[..i];
      FullTags(tags, i + 1);
    }
  }

  method LayOutChips(tags: seq<string>) returns (rows: seq<seq<Cell>>)
    ensures rows == ChipRows(tags)
  {
    hide ChipCell, Greedy, RowWidth, Place, TextWidth;
    ghost var cells := ChipCells(tags);
    rows := [];
    var row: seq<Cell>, rowW: Length := [], 0.0;
    EmptyRow(CHIP_GAP);
    NoCells(cells[..0], CHIP_GAP, INNER_W);
    for i := 0 to |tags|
      invariant rowW == RowWidth(row, CHIP_GAP)
      invariant i > 0 ==> row != []
      invariant row == [] ==> rows == []
      invariant Greedy(cells[..i], CHIP_GAP, INNER_W) == if row == [] then rows else rows + [row]
    {
      var w := MeasureText(tags[i], CHIP_SIZE, false);
      w := w + 2.0 * CHIP_PAD;
      if w > INNER_W {
        w := INNER_W;
      }
      var chip := Cell(Word(tags[i], false), w);
      assert chip == cells[i] by { ChipCellIs(tags[i]); }
      assert [] + [chip] == [chip];
      GreedyStep(cells, i, rows, row, CHIP_GAP, INNER_W);
      RowGrows(row, chip, CHIP_GAP);
      RowGrows([], chip, CHIP_GAP);
      if row != [] && rowW + CHIP_GAP + w > INNER_W {
        rows := rows + [row];
        row, rowW := [], 0.0;
      }
      if row != [] {
        rowW := rowW + CHIP_GAP;
      }
      row := row + [chip];
      rowW := rowW + w;
    }
    assert cells[..|tags|] == cells;
    if row != [] {
      rows := rows + [row];
    }
  }

  lemma ChipCellIs(tag: string)
    ensures var w := TextWidth(tag, CHIP_SIZE, false) + 2.0 * CHIP_PAD;
            ChipCell(tag) == Cell(Word(tag, false), if w < INNER_W then w else INNER_W)
  {
  }

  // A block's words wrapped into at most maxLines lines, the last one marked when more were dropped.
  method WrapBlock(text: string, box: Length, st: Style) returns (lines: seq<seq<Cell>>)
    requires st.maxLines > 0
    ensures lines == BlockLines(text, box, st)
  {
    var words := SplitMarked(Trim(text));
    hide Lines, RowsFit, Flatten, MarkedWords, Cells, TrimRightAny;
    WrappingIsOptimal(words, box, st.size, st.heavy, []);
    lines := WrapWords(words, box, st.size, st.heavy);
    if |lines| > st.maxLines {
      var last := lines[st.maxLines - 1];
      assert last in lines;
      ghost var all := lines;
      lines := lines[..st.maxLines];
      var n := |last| - 1;
      var end := last[n].(word := Word(TrimRightAny(last[n].word.text, ".,;:") + ELLIPSIS, last[n].word.bold));
      assert last[n := end] == EndInEllipsis(last);
      lines := lines[st.maxLines - 1 := last[n := end]];
      assert lines == all[..st.maxLines - 1] + [EndInEllipsis(last)];
    }
  }

  method RowTotal(row: seq<Cell>) returns (total: Length)
    ensures total == RowWidth(row, CHIP_GAP)
  {
    hide RowWidth;
    total := 0.0;
    EmptyRow(CHIP_GAP);
    for i := 0 to |row|
      invariant total == RowWidth(row[..i], CHIP_GAP)
    {
      RowGrows(row[..i], row[i], CHIP_GAP);
      assert row[..i] + [row[i]] == row[..i + 1];
      if i > 0 {
        total := total + CHIP_GAP;
      }
      total := total + row[i].width;
    }
    assert row[..|row|] == row;
  }

  lemma NoItems(x: real, top: real, width: ColumnWidth)
    ensures ItemsHeight([], width) == 0.0 && ItemsShapes([], x, top, width) == []
  {
  }

  lemma NextItem(items: seq<Item>, i: nat, x: real, top: real, width: ColumnWidth)
    requires i < |items|
    ensures ItemsHeight(items[..i + 1], width) == ItemsHeight(items[..i], width) + ItemHeight(items[i], width)
    ensures ItemsShapes(items[..i + 1], x, top, width)
            == ItemsShapes(items[..i], x, top, width)
               + ItemShapes(items[i], x, top + ItemsHeight(items[..i], width), width)
  {
    hide ItemShapes, ItemHeight;
    assert items[..i + 1][..i] == items[..i];
  }

  lemma StartOfRow(left: real)
    ensures RowEnd([], left) == left
  {
  }

  lemma NextChip(row: seq<Cell>, i: nat, left: real, y: real)
    requires i < |row|
    ensures RowEnd(row[..i + 1], left) == RowEnd(row[..i], left) + row[i].width + CHIP_GAP
    ensures RowShapes(row[..i + 1], left, y)
            == RowShapes(row[..i], left, y) + [ChipAt(row[i], RowEnd(row[..i], left), y)]
  {
    hide ChipAt;
    RowGrows(row[..i], row[i], CHIP_GAP);
    EmptyRow(CHIP_GAP);
    assert row[..i] + [row[i]] == row[..i + 1] && row[..i + 1][..i] == row[..i];
  }

  lemma {:induction false} InTwoParts(d: Drawing, a: seq<Placed>, b: seq<Placed>, axisY: real)
    ensures WithEvents(d, a + b, axisY) == WithEvents(WithEvents(d, a, axisY), b, axisY)
  {
    hide WithEvent;
    if b == [] {
      assert a + b == a;
    } else {
      assert (a + b)[..|a + b| - 1] == a + b[..|b| - 1];
      InTwoParts(d, a, b[..|b| - 1], axisY);
    }
  }

  lemma InThreeParts(d: Drawing, a: seq<Placed>, b: seq<Placed>, c: seq<Placed>, axisY: real)
    ensures WithEvents(d, a + b + c, axisY) == WithEvents(WithEvents(WithEvents(d, a, axisY), b, axisY), c, axisY)
  {
    InTwoParts(d, a + b, c, axisY);
    InTwoParts(d, a, b, axisY);
  }

  class Canvas {
    var shapes: seq<Shape>

    constructor ()
      ensures shapes == []
    {
      shapes := [];
    }

    method Draw(s: Shape)
      modifies this
      ensures shapes == old(shapes) + [s]
    {
      shapes := shapes + [s];
    }

    /** Wraps text to a box, draws it from y and returns the y below it. */
    method TextBlock(text: string, x: real, y: real, box: Length, st: Style) returns (bottom: real)
      requires st.maxLines > 0
      modifies this
      ensures shapes == old(shapes) + BlockShapes(text, x, y, box, st)
      ensures bottom == y + BlockHeight(text, box, st)
    {
      hide BlockLines, Stacked, LineHeight;
      var lines := WrapBlock(text, box, st);
      ghost var all, before := LineShapes(lines, x, y, st), shapes;
      for i := 0 to |lines|
        invariant shapes == before + all[..i]
      {
        Draw(Line(x, y + Stacked(i, LineHeight(st)), st, TextOf(lines[i])));
      }
      return y + Stacked(|lines|, LineHeight(st));
    }

    method DrawItem(item: Item, x: real, y: real, width: ColumnWidth) returns (bottom: real)
      modifies this
      ensures shapes == old(shapes) + ItemShapes(item, x, y, width)
      ensures bottom == y + ItemHeight(item, width)
    {
      hide BlockShapes, BlockHeight, Blank;
      bottom := y;
      if Blank(item.text) {
        return;
      }
      bottom := bottom + 6.0;
      Draw(Dot(x + 4.0, bottom + 11.0, 3.5));
      bottom := TextBlock(item.text, x + 16.0, bottom, width - 16.0, ITEM);
      if !Blank(item.note) {
        bottom := TextBlock(item.note, x + 16.0, bottom + 1.0, width - 16.0, NOTE);
      }
    }

    method DrawHead(p: Panel, x: real, top: real, width: ColumnWidth) returns (bottom: real)
      modifies this
      ensures shapes == old(shapes) + HeadShapes(p, x, top, width)
      ensures bottom == top + HeadHeight(p, width)
    {
      hide BlockShapes, BlockHeight, Blank;
      var center := x + width / 2.0;
      bottom := TextBlock(p.heading, center, top, width, HEADING);
      if !Blank(p.subheading) {
        bottom := TextBlock(p.subheading, center, bottom + 2.0, width, SUBHEADING);
      }
      bottom := bottom + 12.0;
    }

    method DrawItems(items: seq<Item>, x: real, top: real, width: ColumnWidth) returns (bottom: real)
      modifies this
      ensures shapes == old(shapes) + ItemsShapes(items, x, top, width)
      ensures bottom == top + ItemsHeight(items, width)
    {
      hide ItemShapes, ItemHeight, ItemsShapes, ItemsHeight;
      NoItems(x, top, width);
      bottom := top;
      for i := 0 to |items|
        invariant bottom == top + ItemsHeight(items[..i], width)
        invariant shapes == old(shapes) + ItemsShapes(items[..i], x, top, width)
      {
        NextItem(items, i, x, top, width);
        bottom := DrawItem(items[i], x, bottom, width);
      }
      assert items[..|items|] == items;
    }

    /** Draws one column's contents, or with draw false only measures them: the height is the same
        either way and at any position. */
    method PanelBody(p: Panel, x: real, top: real, width: ColumnWidth, draw: bool) returns (height: real)
      modifies this
      ensures height == BodyHeight(p, width)
      ensures shapes == old(shapes) + if draw then BodyShapes(p, x, top, width) else []
    {
      hide HeadShapes, HeadHeight, ItemsShapes, ItemsHeight;
      var target := this;
      if !draw {
        target := new Canvas();
      }
      var y := target.DrawHead(p, x, top, width);
      y := target.DrawItems(AtMost(p.items, 6), x, y, width);
      return y - top;
    }

    // How tall the tallest column is; nothing is drawn.
    method MeasureColumns(panels: seq<Panel>, inner: ColumnWidth) returns (height: Length)
      modifies this
      ensures height == MaxHeight(panels, inner) && shapes == old(shapes)
    {
      hide BodyHeight, BodyShapes;
      height := 0.0;
      for i := 0 to |panels|
        invariant height == MaxHeight(panels[..i], inner)
        invariant shapes == old(shapes)
      {
        assert panels[..i + 1][..i] == panels[..i];
        var h := PanelBody(panels[i], 0.0, 0.0, inner, false);
        if h > height {
          height := h;
        }
      }
      assert panels[..|panels|] == panels;
    }

    method DrawColumn(p: Panel, x: real, top: real, width: real, height: real)
      requires width >= 232.0
      modifies this
      ensures shapes == old(shapes) + ColumnShapes(p, x, top, width, height)
    {
      hide BodyHeight, BodyShapes;
      Draw(Column(x, top, width, height));
      var _ := PanelBody(p, x + 18.0, top + 22.0, width - 36.0, true);
    }

    /** Up to three columns of one height: measured first, then drawn. */
    method DrawPanels(panels: seq<Panel>, top: real) returns (bottom: real)
      modifies this
      ensures Drawing(shapes, bottom) == WithPanels(old(shapes), panels, top)
    {
      hide ColumnShapes, WidthOf, ColumnX, MaxHeight;
      if panels == [] {
        return top;
      }
      var shown := AtMost(panels, 3);
      var width := WidthOf(|shown|);
      var height := MeasureColumns(shown, width - 36.0);
      height := height + 40.0;
      for i := 0 to |shown|
        invariant shapes == old(shapes) + ColumnsShapes(shown[..i], top, width, height)
      {
        assert shown[..i + 1][..i] == shown[..i];
        DrawColumn(shown[i], ColumnX(i, width), top, width, height);
      }
      assert shown[..|shown|] == shown;
      return top + height;
    }

    method DrawRow(row: seq<Cell>, y: real)
      modifies this
      ensures shapes == old(shapes) + RowShapes(row, RowLeft(row), y)
    {
      hide RowWidth, ChipAt;
      var total := RowTotal(row);
      var left := (VIS_W - total) / 2.0;
      var x := left;
      StartOfRow(left);
      for i := 0 to |row|
        invariant x == RowEnd(row[..i], left)
        invariant shapes == old(shapes) + RowShapes(row[..i], left, y)
      {
        NextChip(row, i, left, y);
        Draw(ChipAt(row[i], x, y));
        x := x + row[i].width + CHIP_GAP;
      }
      assert row[..|row|] == row;
    }

    /** Tags as chips in centred rows. */
    method DrawChips(tags: seq<string>, top: real) returns (bottom: real)
      modifies this
      ensures Drawing(shapes, bottom) == WithChips(old(shapes), tags, top)
    {
      hide RowShapes, ChipRows, RowTop, RowLeft;
      var rows := LayOutChips(tags);
      var y := top;
      NextRow(top, 0);
      for i := 0 to |rows|
        invariant y == RowTop(top, i)
        invariant shapes == old(shapes) + ChipShapes(rows[..i], top)
      {
        assert rows[..i + 1][..i] == rows[..i];
        NextRow(top, i);
        DrawRow(rows[i], y);
        y := y + CHIP_H + CHIP_GAP;
      }
      assert rows[..|rows|] == rows;
      return y - CHIP_GAP;
    }

    method DrawEvent(p: Placed, axisY: real, bottom: real) returns (lower: real)
      modifies this
      ensures Drawing(shapes, lower) == WithEvent(Drawing(old(shapes), bottom), p, axisY)
    {
      hide BlockShapes, BlockHeight, Blank;
      Draw(Dot(p.x, axisY, 7.0));
      var y := TextBlock(p.event.name, p.x, axisY + 26.0, p.width, NAME);
      if !Blank(p.event.note) {
        y := TextBlock(p.event.note, p.x, y + 2.0, p.width, REMARK);
      }
      lower := if bottom > y then bottom else y;
    }

    method DrawZone(list: seq<Event>, from: real, to: real, axisY: real, bottom: real) returns (lower: real)
      requires from <= to
      modifies this
      ensures Drawing(shapes, lower) == WithEvents(Drawing(old(shapes), bottom), InSpan(list, from, to), axisY)
    {
      hide WithEvent, EventX, EventWidth;
      lower := bottom;
      ghost var placed := InSpan(list, from, to);
      for i := 0 to |list|
        invariant Drawing(shapes, lower) == WithEvents(Drawing(old(shapes), bottom), placed[..i], axisY)
      {
        assert placed[..i + 1][..i] == placed[..i];
        lower := DrawEvent(Placed(list[i], EventX(from, to, |list|, i), EventWidth(from, to, |list|)), axisY, lower);
      }
      assert placed[..|list|] == placed;
    }

    method DrawAxis(axisY: real, top: real)
      modifies this
      ensures shapes == old(shapes) + Axis(axisY, top)
    {
      hide BlockShapes, BlockHeight;
      Draw(Stroke(LEFT, axisY, RIGHT, axisY));
      Draw(Stroke(RIGHT - 6.0, axisY - 6.0, RIGHT + 4.0, axisY + 6.0));
      Draw(Stroke(NOW_X, top + 8.0, NOW_X, axisY + 14.0));
      var _ := TextBlock("NOW", NOW_X, top - 10.0, 80.0, MARK);
      var _ := TextBlock("Past", LEFT, axisY + 14.0, 80.0, END);
      var _ := TextBlock("Future", RIGHT - 60.0, axisY + 14.0, 80.0, END);
    }

    method DrawTimeline(events: seq<Event>, top: real) returns (bottom: real)
      modifies this
      ensures Drawing(shapes, bottom) == WithTimeline(old(shapes), events, top)
    {
      hide Axis, WithEvents, InZone, InSpan;
      var shown := AtMost(events, 6);
      var axisY := top + 70.0;
      DrawAxis(axisY, top);
      var zones := Zones(shown);
      bottom := DrawZone(zones["past"], LEFT, NOW_X - 30.0, axisY, axisY + 40.0);
      bottom := DrawZone(AtMost(zones["now"], 1), NOW_X - 80.0, NOW_X + 80.0, axisY, bottom);
      bottom := DrawZone(zones["future"], NOW_X + 30.0, RIGHT, axisY, bottom);
      InThreeParts(Drawing(old(shapes) + Axis(axisY, top), axisY + 40.0),
                   InSpan(InZone(shown, "past"), LEFT, NOW_X - 30.0),
                   InSpan(AtMost(InZone(shown, "now"), 1), NOW_X - 80.0, NOW_X + 80.0),
                   InSpan(InZone(shown, "future"), NOW_X + 30.0, RIGHT), axisY);
    }

    /** Lays a spec out on an empty canvas and returns the height of the page, in whole units. */
    method RenderVisual(spec: Spec) returns (height: int)
      requires shapes == []
      modifies this
      ensures shapes == Diagram(spec).shapes
      ensures (height - 1) as real < Diagram(spec).bottom + VIS_PAD <= height as real
    {
      hide BlockShapes, BlockHeight, Blank, WithPanels, WithTimeline, WithChips, CleanTags;
      var y := TextBlock(spec.title, 400.0, VIS_PAD, INNER_W, TITLE);
      if !Blank(spec.rule) {
        y := TextBlock(spec.rule, 400.0, y + 6.0, INNER_W - 40.0, RULE);
      }
      assert Drawing(shapes, y) == Header(spec);
      y := y + 18.0;
      if spec.kind == "timeline" && spec.events != [] {
        y := DrawTimeline(spec.events, y);
      } else {
        y := DrawPanels(spec.panels, y);
      }
      var tags := CleanStrings(spec.tags);
      if tags != [] {
        y := DrawChips(tags, y + 16.0);
      }
      if !Blank(spec.footer) {
        y := TextBlock(spec.footer, 400.0, y + 14.0, INNER_W, FOOTER);
      }
      height := Ceiling(y + VIS_PAD);
    }
  }

  function Ceiling(r: real): (n: int)
    ensures (n - 1) as real < r <= n as real
  {
    -(-r).Floor
  }

  method Zones(events: seq<Event>) returns (zones: map<string, seq<Event>>)
    ensures "past" in zones && "now" in zones && "future" in zones
    ensures forall z | z in zones :: zones[z] == InZone(events, z)
  {
    zones := map["past" := [], "now" := [], "future" := []];
    for i := 0 to |events|
      invariant "past" in zones && "now" in zones && "future" in zones
      invariant forall z | z in zones :: zones[z] == InZone(events[..i], z)
    {
      assert events[..i + 1][..i] == events[..i];
      var z := ZoneOf(events[i]);
      zones := zones[z := zones[z] + [events[i]]];
    }
    assert events[..|events|] == events;
  }
}
