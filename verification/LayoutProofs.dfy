/** LayoutProofs: how far drawn text can run past the box it was wrapped to, and why nothing in a diagram
    of columns is placed on anything else all the same.

    About apps/api/internal/ai/grammar_visual_render.go. */
module LayoutProofs {
  import opened Text
  import opened Rows
  import opened Wrapping
  import opened Layout

  datatype Box = Box(left: real, top: real, right: real, bottom: real)

  function LeftOf(x: real, width: Length, anchor: Anchor): real { if anchor == Middle then x - width / 2.0 else x }

  /** The space a shape takes; a line of text is as wide as it is drawn. */
  function BoxOf(s: Shape): Box {
    match s
    case Line(x, top, st, words) =>
      var w := DrawnWidth(words, st.size, st.heavy);
      Box(LeftOf(x, w, st.anchor), top, LeftOf(x, w, st.anchor) + w, top + LineHeight(st))
    case Dot(cx, cy, r) => Box(cx - r, cy - r, cx + r, cy + r)
    case Column(x, y, w, h) => Box(x, y, x + w, y + h)
    case Chip(x, y, w, _) => Box(x, y, x + w, y + CHIP_H)
    case Stroke(x1, y1, x2, y2) => Box(x1, y1, x2, y2)
  }

  // What may not be covered: lines of text and chips.
  predicate Solid(s: Shape) { s.Line? || s.Chip? }

  predicate Inside(b: Box, frame: Box) {
    frame.left <= b.left && b.right <= frame.right && frame.top <= b.top && b.bottom <= frame.bottom
  }

  predicate Apart(a: Box, b: Box) {
    a.right <= b.left || b.right <= a.left || a.bottom <= b.top || b.bottom <= a.top
  }

  // A dot may hang below the frame by the slack.
  predicate Within(s: Shape, frame: Box, slack: real) {
    Inside(BoxOf(s), if s.Dot? then frame.(bottom := frame.bottom + slack) else frame)
  }

  predicate Framed(shapes: seq<Shape>, frame: Box, slack: real) { forall s | s in shapes :: Within(s, frame, slack) }

  /** No line of text or chip covers another. */
  predicate Separate(shapes: seq<Shape>) {
    forall i, j | 0 <= i < j < |shapes| && Solid(shapes[i]) && Solid(shapes[j]) ::
      Apart(BoxOf(shapes[i]), BoxOf(shapes[j]))
  }

  predicate Clear(shapes: seq<Shape>, frame: Box, slack: real) { Framed(shapes, frame, slack) && Separate(shapes) }

  predicate WithinBy(f: Box, slack: real, frame: Box, room: real) {
    && f.left <= f.right && frame.left <= frame.right
    && Inside(f, frame) && f.bottom + slack <= frame.bottom + room
  }

  lemma FramedIn(a: seq<Shape>, fa: Box, slack: real, frame: Box, room: real)
    requires Framed(a, fa, slack) && WithinBy(fa, slack, frame, room)
    ensures Framed(a, frame, room)
  {
    hide BoxOf;
  }

  lemma ClearOfPart(x: Shape, y: Shape, fa: Box, fb: Box, slack: real)
    requires Within(x, fa, slack) && Within(y, fb, slack) && Apart(fa, fb) && Solid(x) && Solid(y)
    ensures Apart(BoxOf(x), BoxOf(y))
  {
    hide BoxOf;
  }

  /** Two drawings whose frames are apart are separate together exactly when each of them is. */
  lemma SeparateBoth(a: seq<Shape>, fa: Box, b: seq<Shape>, fb: Box, slack: real)
    requires Framed(a, fa, slack) && Framed(b, fb, slack) && Apart(fa, fb)
    ensures Separate(a + b) <==> Separate(a) && Separate(b)
  {
    hide BoxOf, Apart, Within, Solid;
    var all := a + b;
    forall i, j | 0 <= i < j < |all| && Solid(all[i]) && Solid(all[j])
      ensures i < |a| <= j ==> Apart(BoxOf(all[i]), BoxOf(all[j]))
    {
      if i < |a| <= j {
        assert all[i] in a && all[j] in b;
        ClearOfPart(all[i], all[j], fa, fb, slack);
      }
    }
    if Separate(all) { PartsAreSeparate(a, b); }
  }

  lemma PartsAreSeparate(a: seq<Shape>, b: seq<Shape>)
    requires Separate(a + b)
    ensures Separate(a) && Separate(b)
  {
    hide BoxOf, Apart, Solid;
    var all := a + b;
    assert forall i | 0 <= i < |a| :: a[i] == all[i];
    assert forall i | 0 <= i < |b| :: b[i] == all[i + |a|];
  }

  lemma FramedBoth(a: seq<Shape>, fa: Box, b: seq<Shape>, fb: Box, frame: Box, slack: real)
    requires Framed(a, fa, slack) && Framed(b, fb, slack)
    requires WithinBy(fa, slack, frame, slack) && WithinBy(fb, slack, frame, slack)
    ensures Framed(a + b, frame, slack)
  {
    FramedIn(a, fa, slack, frame, slack);
    FramedIn(b, fb, slack, frame, slack);
    hide Within;
  }

  lemma ClearBoth(a: seq<Shape>, fa: Box, b: seq<Shape>, fb: Box, frame: Box, slack: real)
    requires Clear(a, fa, slack) && Clear(b, fb, slack) && Apart(fa, fb)
    requires WithinBy(fa, slack, frame, slack) && WithinBy(fb, slack, frame, slack)
    ensures Clear(a + b, frame, slack)
  {
    hide Framed, Separate;
    FramedBoth(a, fa, b, fb, frame, slack);
    SeparateBoth(a, fa, b, fb, slack);
  }

  lemma NothingIsClear(frame: Box, slack: real)
    ensures Clear([], frame, slack)
  {
  }

  // ---- text blocks -----------------------------------------------------------------------

  /** How wide a line of a block can be drawn at most: as far as a wrapped line can reach, and an ellipsis. */
  function Spread(box: Length, size: Length): Length { Reach(box, size) + 0.6 * size }

  lemma {:induction false} CutIsPrefix(s: string, cut: string)
    ensures TrimRightAny(s, cut) <= s
  {
    if s != "" && s[|s| - 1] in cut { CutIsPrefix(s[..|s| - 1], cut); }
  }

  lemma AddedWidth(a: string, b: string, size: Length, bold: bool)
    ensures TextWidth(a + b, size, bold) == TextWidth(a, size, bold) + TextWidth(b, size, bold)
  {
    EmsOfJoined(a, b);
    hide Ems;
    Distributes(Ems(a), Ems(b), size, bold);
  }

  lemma Distributes(a: Length, b: Length, size: Length, bold: bool)
    ensures Scaled(a + b, size, bold) == Scaled(a, size, bold) + Scaled(b, size, bold)
  {
  }

  lemma EndStep(line: seq<Cell>)
    requires line != []
    ensures var n := |line| - 1;
            var end := EndInEllipsis(line);
            && |end| == |line| && TextOf(end)[..n] == TextOf(line)[..n]
            && TextOf(line)[n] == line[n].word
            && TextOf(end)[n] == Word(TrimRightAny(line[n].word.text, ".,;:") + ELLIPSIS, line[n].word.bold)
  {
    hide TrimRightAny;
  }

  lemma OtherLastWord(a: seq<Word>, b: seq<Word>, size: Length, heavy: bool)
    requires |a| == |b| > 0 && a[..|a| - 1] == b[..|a| - 1] && a[|a| - 1].bold == b[|a| - 1].bold
    ensures DrawnWidth(b, size, heavy) - DrawnWidth(a, size, heavy)
            == WordWidth(b[|a| - 1], size, heavy) - WordWidth(a[|a| - 1], size, heavy)
  {
    hide WordWidth, Space;
  }

  lemma CutIsNarrower(w: Word, size: Length, heavy: bool)
    ensures WordWidth(Word(TrimRightAny(w.text, ".,;:") + ELLIPSIS, w.bold), size, heavy)
            <= WordWidth(w, size, heavy) + TextWidth(ELLIPSIS, size, heavy || w.bold)
  {
    var cut := TrimRightAny(w.text, ".,;:");
    CutIsPrefix(w.text, ".,;:");
    assert w.text == cut + w.text[|cut|..];
    LongerIsWider(cut, w.text[|cut|..], size, heavy || w.bold);
    AddedWidth(cut, ELLIPSIS, size, heavy || w.bold);
    hide TextWidth, TrimRightAny;
  }

  /** The last line kept of a text with too many lines grows by at most one ellipsis. */
  lemma EllipsisWidensLine(line: seq<Cell>, size: Length, heavy: bool)
    requires line != []
    ensures DrawnWidth(TextOf(EndInEllipsis(line)), size, heavy)
            <= DrawnWidth(TextOf(line), size, heavy) + TextWidth(ELLIPSIS, size, heavy || line[|line| - 1].word.bold)
  {
    hide *;
    EndStep(line);
    CutIsNarrower(line[|line| - 1].word, size, heavy);
    OtherLastWord(TextOf(line), TextOf(EndInEllipsis(line)), size, heavy);
  }

  lemma EllipsisIsSmall(size: Length, bold: bool)
    ensures TextWidth(ELLIPSIS, size, bold) <= 0.6 * size
  {
    SingleEms();
    hide Ems;
  }

  /** No line of a block is drawn wider than that, whatever its text. */
  lemma LineSpread(text: string, box: Length, st: Style, line: seq<Cell>)
    requires st.maxLines > 0 && st.size > 0.0 && line in BlockLines(text, box, st)
    ensures DrawnWidth(TextOf(line), st.size, st.heavy) <= Spread(box, st.size)
  {
    hide Lines, DrawnWidth, EndInEllipsis, Reach, TextWidth, RowsFit, Flatten, MarkedWords, Cells;
    var words := MarkedWords(Trim(text));
    var lines := Lines(words, box, st.size, st.heavy);
    WrappingIsOptimal(words, box, st.size, st.heavy, []);
    if line in lines {
      LineReach(words, box, st.size, st.heavy, line);
    } else {
      var last := lines[st.maxLines - 1];
      assert line == EndInEllipsis(last) && last in lines;
      LineReach(words, box, st.size, st.heavy, last);
      EllipsisWidensLine(last, st.size, st.heavy);
      EllipsisIsSmall(st.size, st.heavy || last[|last| - 1].word.bold);
    }
  }

  lemma StackedStep(i: nat, j: nat, h: Length)
    requires i < j
    ensures 0.0 <= Stacked(i, h) && Stacked(i, h) + h <= Stacked(j, h)
  {
    assert (j - i - 1) as real * h >= 0.0;
    assert j as real * h == i as real * h + h + (j - i - 1) as real * h;
  }

  function BlockFrame(x: real, y: real, spread: Length, height: Length, anchor: Anchor): Box {
    Box(LeftOf(x, spread, anchor), y, LeftOf(x, spread, anchor) + spread, y + height)
  }

  lemma LinesAreClear(lines: seq<seq<Cell>>, x: real, y: real, st: Style, spread: Length)
    requires forall line | line in lines :: DrawnWidth(TextOf(line), st.size, st.heavy) <= spread
    ensures Clear(LineShapes(lines, x, y, st),
                  BlockFrame(x, y, spread, Stacked(|lines|, LineHeight(st)), st.anchor), 0.0)
  {
    hide Stacked, LineHeight, DrawnWidth, TextOf;
    var shapes := LineShapes(lines, x, y, st);
    forall i | 0 <= i < |shapes|
      ensures Within(shapes[i], BlockFrame(x, y, spread, Stacked(|lines|, LineHeight(st)), st.anchor), 0.0)
    {
      assert lines[i] in lines;
      StackedStep(i, |lines|, LineHeight(st));
    }
    forall i, j | 0 <= i < j < |shapes|
      ensures Apart(BoxOf(shapes[i]), BoxOf(shapes[j]))
    {
      StackedStep(i, j, LineHeight(st));
    }
  }

  /** A block's lines stay between its top and the y it returns, one below the other, and across within
      its spread. */
  lemma BlockIsClear(text: string, x: real, y: real, box: Length, st: Style)
    requires st.maxLines > 0 && st.size > 0.0
    ensures Clear(BlockShapes(text, x, y, box, st),
                  BlockFrame(x, y, Spread(box, st.size), BlockHeight(text, box, st), st.anchor), 0.0)
  {
    hide BlockLines, Clear, BlockFrame, DrawnWidth, Spread;
    var lines := BlockLines(text, box, st);
    forall line | line in lines ensures DrawnWidth(TextOf(line), st.size, st.heavy) <= Spread(box, st.size) {
      LineSpread(text, box, st, line);
    }
    LinesAreClear(lines, x, y, st, Spread(box, st.size));
  }

  // ---- one column ------------------------------------------------------------------------

  const SLACK := 14.5

  // The space of a column's contents: their text can run past the column's width a little.
  function Below(x: real, top: real, width: ColumnWidth, height: real): Box {
    Box(x - 0.035 * width - 7.0, top, x + 1.07 * width + 10.0, top + height)
  }

  lemma SpreadInColumn(x: real, width: ColumnWidth)
    ensures var left, right := x - 0.035 * width - 7.0, x + 1.07 * width + 10.0;
            && left <= x + width / 2.0 - Spread(width, 22.0) / 2.0
            && x + width / 2.0 + Spread(width, 22.0) / 2.0 <= right
            && left <= x + width / 2.0 - Spread(width, 14.0) / 2.0
            && x + width / 2.0 + Spread(width, 14.0) / 2.0 <= right
            && x + 16.0 + Spread(width - 16.0, 17.0) <= right && x + 16.0 + Spread(width - 16.0, 13.0) <= right
  {
  }

  // A block placed inside a column's frame.
  lemma BlockInColumn(text: string, x: real, y: real, box: Length, st: Style, frame: Box, slack: real)
    requires st.maxLines > 0 && st.size > 0.0 && slack >= 0.0
    requires WithinBy(BlockFrame(x, y, Spread(box, st.size), BlockHeight(text, box, st), st.anchor), 0.0, frame, 0.0)
    ensures Clear(BlockShapes(text, x, y, box, st), frame, slack)
  {
    hide BlockShapes, BlockHeight, Framed, Separate, BlockFrame, Spread;
    BlockIsClear(text, x, y, box, st);
    FramedIn(BlockShapes(text, x, y, box, st),
             BlockFrame(x, y, Spread(box, st.size), BlockHeight(text, box, st), st.anchor), 0.0, frame, slack);
  }

  lemma DotIsClear(x: real, y: real, width: ColumnWidth, height: real)
    requires height >= 6.0
    ensures Clear([Dot(x + 4.0, y + 6.0 + 11.0, 3.5)], Below(x, y, width, height), SLACK)
  {
  }

  lemma ItemIsClear(item: Item, x: real, y: real, width: ColumnWidth)
    ensures Clear(ItemShapes(item, x, y, width), Below(x, y, width, ItemHeight(item, width)), SLACK)
  {
    hide BlockShapes, BlockHeight, Clear, Blank, Spread;
    var frame := Below(x, y, width, ItemHeight(item, width));
    NothingIsClear(frame, SLACK);
    SpreadInColumn(x, width);
    if !Blank(item.text) {
      var h := BlockHeight(item.text, width - 16.0, ITEM);
      var text := BlockShapes(item.text, x + 16.0, y + 6.0, width - 16.0, ITEM);
      var upper := Below(x, y, width, 6.0 + h);
      var dot := Dot(x + 4.0, y + 6.0 + 11.0, 3.5);
      DotIsClear(x, y, width, 6.0 + h);
      BlockInColumn(item.text, x + 16.0, y + 6.0, width - 16.0, ITEM, upper, SLACK);
      Behind(dot, text, upper, SLACK);
      if Blank(item.note) {
        assert [dot] + text == ItemShapes(item, x, y, width);
      } else {
        var note := BlockShapes(item.note, x + 16.0, y + 6.0 + h + 1.0, width - 16.0, NOTE);
        var lower := frame.(top := y + 6.0 + h);
        BlockInColumn(item.note, x + 16.0, y + 6.0 + h + 1.0, width - 16.0, NOTE, lower, SLACK);
        ClearBoth([dot] + text, upper, note, lower, frame, SLACK);
        assert [dot] + text + note == ItemShapes(item, x, y, width);
      }
    }
  }

  // A shape that covers nothing that matters can join any drawing.
  lemma Behind(back: Shape, shapes: seq<Shape>, frame: Box, slack: real)
    requires !Solid(back) && Clear([back], frame, slack) && Clear(shapes, frame, slack)
    ensures Clear([back] + shapes, frame, slack)
  {
    hide BoxOf, Within, Apart;
    var all := [back] + shapes;
    assert back in [back];
    forall i, j | 0 <= i < j < |all| && Solid(all[i]) && Solid(all[j])
      ensures Apart(BoxOf(all[i]), BoxOf(all[j]))
    {
      assert all[i] == shapes[i - 1] && all[j] == shapes[j - 1];
    }
  }

  lemma {:induction false} ItemsAreClear(items: seq<Item>, x: real, y: real, width: ColumnWidth)
    ensures Clear(ItemsShapes(items, x, y, width), Below(x, y, width, ItemsHeight(items, width)), SLACK)
  {
    hide Clear, ItemShapes, ItemHeight;
    if items == [] {
      NothingIsClear(Below(x, y, width, 0.0), SLACK);
    } else {
      var n := |items| - 1;
      var h := ItemsHeight(items[..n], width);
      ItemsAreClear(items[..n], x, y, width);
      ItemIsClear(items[n], x, y + h, width);
      ClearBoth(ItemsShapes(items[..n], x, y, width), Below(x, y, width, h),
                ItemShapes(items[n], x, y + h, width), Below(x, y + h, width, ItemHeight(items[n], width)),
                Below(x, y, width, ItemsHeight(items, width)), SLACK);
    }
  }

  lemma HeadIsClear(p: Panel, x: real, top: real, width: ColumnWidth)
    ensures Clear(HeadShapes(p, x, top, width), Below(x, top, width, HeadHeight(p, width)), SLACK)
  {
    hide BlockShapes, BlockHeight, Clear, Blank, Spread;
    var frame := Below(x, top, width, HeadHeight(p, width));
    SpreadInColumn(x, width);
    var h := BlockHeight(p.heading, width, HEADING);
    var heading := BlockShapes(p.heading, x + width / 2.0, top, width, HEADING);
    var upper, lower := Below(x, top, width, h), frame.(top := top + h);
    BlockInColumn(p.heading, x + width / 2.0, top, width, HEADING, upper, SLACK);
    NothingIsClear(lower, SLACK);
    var sub :=
      if Blank(p.subheading) then []
      else BlockShapes(p.subheading, x + width / 2.0, top + h + 2.0, width, SUBHEADING);
    if !Blank(p.subheading) {
      BlockInColumn(p.subheading, x + width / 2.0, top + h + 2.0, width, SUBHEADING, lower, SLACK);
    }
    ClearBoth(heading, upper, sub, lower, frame, SLACK);
  }

  /** A column's contents end where they were measured to end, whatever position they are drawn at. */
  lemma BodyIsClear(p: Panel, x: real, top: real, width: ColumnWidth)
    ensures Clear(BodyShapes(p, x, top, width), Below(x, top, width, BodyHeight(p, width)), SLACK)
  {
    hide HeadShapes, HeadHeight, ItemsShapes, ItemsHeight, Clear;
    var h, items := HeadHeight(p, width), AtMost(p.items, 6);
    HeadIsClear(p, x, top, width);
    ItemsAreClear(items, x, top + h, width);
    ClearBoth(HeadShapes(p, x, top, width), Below(x, top, width, h),
              ItemsShapes(items, x, top + h, width), Below(x, top + h, width, ItemsHeight(items, width)),
              Below(x, top, width, BodyHeight(p, width)), SLACK);
  }

  // ---- columns ---------------------------------------------------------------------------

  // How far text can be drawn past a column's edges: further than the gap only where there is one column.
  function OutLeft(width: real): real { if width <= 358.0 then 1.0 else 15.0 }
  function OutRight(width: real): real { if width <= 358.0 then 15.0 else 42.0 }

  function ColumnFrame(x: real, top: real, width: real, height: real): Box {
    Box(x - OutLeft(width), top, x + width + OutRight(width), top + height)
  }

  lemma ColumnBackIsClear(x: real, top: real, width: real, height: real)
    ensures Clear([Column(x, top, width, height)], ColumnFrame(x, top, width, height), 0.0)
  {
  }

  lemma BodyInColumn(x: real, top: real, width: real, height: real, body: Length)
    requires 232.0 <= width <= INNER_W && height >= body + 40.0
    ensures WithinBy(Below(x + 18.0, top + 22.0, width - 36.0, body), SLACK, ColumnFrame(x, top, width, height), 0.0)
  {
  }

  lemma ColumnIsClear(p: Panel, x: real, top: real, width: real, height: real)
    requires 232.0 <= width <= INNER_W && height >= BodyHeight(p, width - 36.0) + 40.0
    ensures Clear(ColumnShapes(p, x, top, width, height), ColumnFrame(x, top, width, height), 0.0)
  {
    hide BodyShapes, BodyHeight, Framed, Separate, Below, ColumnFrame, WithinBy;
    var body := BodyShapes(p, x + 18.0, top + 22.0, width - 36.0);
    var inner := Below(x + 18.0, top + 22.0, width - 36.0, BodyHeight(p, width - 36.0));
    ColumnBackIsClear(x, top, width, height);
    BodyIsClear(p, x + 18.0, top + 22.0, width - 36.0);
    BodyInColumn(x, top, width, height, BodyHeight(p, width - 36.0));
    FramedIn(body, inner, SLACK, ColumnFrame(x, top, width, height), 0.0);
    Behind(Column(x, top, width, height), body, ColumnFrame(x, top, width, height), 0.0);
  }

  lemma NextColumn(i: nat, width: real)
    ensures ColumnX(0, width) == VIS_PAD
    ensures ColumnX(i + 1, width) == ColumnX(i, width) + width + VIS_GAP
  {
  }

  function ColumnsFrame(n: nat, top: real, width: real, height: real): Box
    requires n > 0
  {
    ColumnFrame(ColumnX(n - 1, width), top, width, height).(left := VIS_PAD - OutLeft(width))
  }

  lemma {:induction false} ColumnsAreClear(panels: seq<Panel>, top: real, width: real, height: real)
    requires 232.0 <= width <= INNER_W && panels != []
    requires |panels| == 1 || width <= 358.0
    requires forall p | p in panels :: BodyHeight(p, width - 36.0) + 40.0 <= height
    ensures ColumnX(|panels| - 1, width) >= VIS_PAD
    ensures Clear(ColumnsShapes(panels, top, width, height), ColumnsFrame(|panels|, top, width, height), 0.0)
  {
    hide ColumnShapes, BodyHeight, Clear, ColumnX;
    var n := |panels| - 1;
    var x := ColumnX(n, width);
    assert panels[n] in panels && forall p | p in panels[..n] :: p in panels;
    ColumnIsClear(panels[n], x, top, width, height);
    NextColumn(0, width);
    if n == 0 {
      assert ColumnsShapes(panels[..0], top, width, height) == [];
      assert ColumnsShapes(panels, top, width, height) == ColumnShapes(panels[0], x, top, width, height);
    } else {
      NextColumn(n - 1, width);
      ColumnsAreClear(panels[..n], top, width, height);
      TallEnough(panels[n], width, height);
      ClearBoth(ColumnsShapes(panels[..n], top, width, height), ColumnsFrame(n, top, width, height),
                ColumnShapes(panels[n], x, top, width, height), ColumnFrame(x, top, width, height),
                ColumnsFrame(n + 1, top, width, height), 0.0);
    }
  }

  lemma TallEnough(p: Panel, width: real, height: real)
    requires width >= 232.0 && BodyHeight(p, width - 36.0) + 40.0 <= height
    ensures height >= 0.0
  {
  }

  /** Columns keep the margins on both sides and a gap between neighbours. */
  lemma {:induction false} ColumnsKeepMargins(n: nat, i: nat, j: nat)
    requires 1 <= n <= 3 && i < j < n
    ensures var w := WidthOf(n);
            && ColumnX(0, w) == VIS_PAD
            && ColumnX(i, w) + w + VIS_GAP <= ColumnX(j, w)
            && ColumnX(n - 1, w) + w == VIS_W - VIS_PAD
    decreases j - i
  {
    var w := WidthOf(n);
    NextColumn(i, w);
    if i + 1 < j { ColumnsKeepMargins(n, i + 1, j); }
    LastColumn(n);
  }

  lemma LastColumn(n: nat)
    requires 1 <= n <= 3
    ensures ColumnX(n - 1, WidthOf(n)) + WidthOf(n) == VIS_W - VIS_PAD
  {
  }

  // ---- chips -----------------------------------------------------------------------------

  lemma RowStep(row: seq<Cell>, x: real, y: real)
    requires row != []
    ensures var n := |row| - 1;
            var left := RowEnd(row[..n], x);
            && RowShapes(row, x, y) == RowShapes(row[..n], x, y) + [ChipAt(row[n], left, y)]
            && x + RowWidth(row[..n], CHIP_GAP) <= left
            && left + row[n].width == x + RowWidth(row, CHIP_GAP)
  {
    hide ChipAt, RowWidth;
    var n := |row| - 1;
    EmptyRow(CHIP_GAP);
    assert row[..n] + [row[n]] == row;
    RowGrows(row[..n], row[n], CHIP_GAP);
  }

  lemma {:induction false} RowIsClear(row: seq<Cell>, x: real, y: real)
    ensures Clear(RowShapes(row, x, y), Box(x, y, x + RowWidth(row, CHIP_GAP), y + CHIP_H), 0.0)
  {
    if row == [] {
      NothingIsClear(Box(x, y, x + RowWidth(row, CHIP_GAP), y + CHIP_H), 0.0);
    } else {
      hide Clear, BoxOf, RowWidth, ChipAt, RowShapes, RowEnd;
      var n := |row| - 1;
      RowIsClear(row[..n], x, y);
      RowStep(row, x, y);
      var left := RowEnd(row[..n], x);
      ChipIsClear(row[n], left, y);
      ClearBoth(RowShapes(row[..n], x, y), Box(x, y, x + RowWidth(row[..n], CHIP_GAP), y + CHIP_H),
                [ChipAt(row[n], left, y)], Box(left, y, left + row[n].width, y + CHIP_H),
                Box(x, y, x + RowWidth(row, CHIP_GAP), y + CHIP_H), 0.0);
    }
  }

  lemma ChipIsClear(c: Cell, x: real, y: real)
    ensures Clear([ChipAt(c, x, y)], Box(x, y, x + c.width, y + CHIP_H), 0.0)
  {
    hide Shortened;
  }

  /** A row of chips is centred between the margins. */
  lemma RowIsCentred(row: seq<Cell>)
    requires RowWidth(row, CHIP_GAP) <= INNER_W
    ensures var left, right := RowLeft(row), RowLeft(row) + RowWidth(row, CHIP_GAP);
            left - 0.0 == VIS_W - right && VIS_PAD <= left && right <= VIS_W - VIS_PAD
  {
  }

  lemma NextRow(top: real, i: nat)
    ensures RowTop(top, 0) == top
    ensures RowTop(top, i + 1) == RowTop(top, i) + CHIP_H + CHIP_GAP
  {
  }

  lemma {:induction false} ChipsAreClear(rows: seq<seq<Cell>>, top: real)
    requires RowsFit(rows, CHIP_GAP, INNER_W)
    ensures RowTop(top, |rows|) >= top
    ensures Clear(ChipShapes(rows, top), Box(VIS_PAD, top, VIS_W - VIS_PAD, RowTop(top, |rows|) - CHIP_GAP), 0.0)
  {
    hide Clear, RowWidth, RowShapes, RowTop;
    NextRow(top, 0);
    if rows == [] {
      NothingIsClear(Box(VIS_PAD, top, VIS_W - VIS_PAD, top - CHIP_GAP), 0.0);
    } else {
      var n := |rows| - 1;
      assert rows[n] in rows && forall r | r in rows[..n] :: r in rows;
      ChipsAreClear(rows[..n], top);
      NextRow(top, n);
      var y := RowTop(top, n);
      RowIsClear(rows[n], RowLeft(rows[n]), y);
      RowIsCentred(rows[n]);
      ClearBoth(ChipShapes(rows[..n], top), Box(VIS_PAD, top, VIS_W - VIS_PAD, y - CHIP_GAP),
                RowShapes(rows[n], RowLeft(rows[n]), y),
                Box(RowLeft(rows[n]), y, RowLeft(rows[n]) + RowWidth(rows[n], CHIP_GAP), y + CHIP_H),
                Box(VIS_PAD, top, VIS_W - VIS_PAD, RowTop(top, n + 1) - CHIP_GAP), 0.0);
    }
  }

  lemma ChipRowsFit(tags: seq<string>)
    ensures RowsFit(ChipRows(tags), CHIP_GAP, INNER_W)
    ensures Flatten(ChipRows(tags)) == ChipCells(tags)
    ensures ChipRows(tags) == [] <==> tags == []
  {
    hide Greedy, RowsFit, ChipCell, Flatten;
    GreedyKeepsAndFits(ChipCells(tags), CHIP_GAP, INNER_W);
  }

  /** The text of a chip is shortened to stay on it, half a unit inside its padding at most. */
  lemma ChipTextIsInside(tag: string, x: real, y: real)
    ensures var chip := ChipAt(ChipCell(tag), x, y);
            TextWidth(chip.text, CHIP_SIZE, false) <= chip.w - 23.5
  {
    ShortenedIsNarrow(tag, ChipCell(tag).width - 24.0, CHIP_SIZE);
    hide TextWidth;
  }

  // ---- the whole diagram -----------------------------------------------------------------

  function Page(bottom: real): Box { Box(-2.0, VIS_PAD, 810.0, bottom) }

  predicate InFrame(d: Drawing) { d.bottom >= VIS_PAD && Framed(d.shapes, Page(d.bottom), 0.0) }

  predicate Tidy(d: Drawing) { InFrame(d) && Separate(d.shapes) }

  // More drawn below what is there.
  lemma DrawnBelow(d: Drawing, more: seq<Shape>, frame: Box, bottom: real)
    requires InFrame(d) && Framed(more, frame, 0.0)
    requires d.bottom <= frame.top && frame.bottom <= bottom && frame.top <= bottom
    requires -2.0 <= frame.left <= frame.right <= 810.0
    ensures InFrame(Drawing(d.shapes + more, bottom))
    ensures Separate(d.shapes + more) <==> Separate(d.shapes) && Separate(more)
  {
    hide Framed, Separate;
    FramedBoth(d.shapes, Page(d.bottom), more, frame, Page(bottom), 0.0);
    SeparateBoth(d.shapes, Page(d.bottom), more, frame, 0.0);
  }

  // What is drawn next stays in the frame and covers nothing that is there.
  predicate GoesOn(d: Drawing, e: Drawing) {
    InFrame(e) && e.bottom >= d.bottom && (Separate(e.shapes) <==> Separate(d.shapes))
  }

  lemma BlockDrawnBelow(d: Drawing, text: string, y: real, box: Length, st: Style)
    requires InFrame(d) && d.bottom <= y && st.maxLines > 0 && st.anchor == Middle
    requires box <= INNER_W && 0.0 < st.size <= 24.0
    ensures GoesOn(d, WithBlock(d.shapes, text, 400.0, y, box, st))
  {
    var spread := Spread(box, st.size);
    assert spread <= 804.0;
    hide InFrame, Framed, Separate, BlockShapes, BlockHeight, Spread;
    BlockIsClear(text, 400.0, y, box, st);
    DrawnBelow(d, BlockShapes(text, 400.0, y, box, st),
               BlockFrame(400.0, y, spread, BlockHeight(text, box, st), Middle),
               y + BlockHeight(text, box, st));
  }

  lemma PanelsDrawnBelow(d: Drawing, panels: seq<Panel>, top: real)
    requires InFrame(d) && d.bottom <= top
    ensures GoesOn(d, WithPanels(d.shapes, panels, top))
  {
    hide InFrame, Framed, Separate, ColumnsShapes, ColumnX, BodyHeight;
    if panels == [] {
      DrawnBelow(d, [], Box(VIS_PAD, top, VIS_PAD, top), top) by {
        NothingIsClear(Box(VIS_PAD, top, VIS_PAD, top), 0.0);
      }
      assert d.shapes + [] == d.shapes;
    } else {
      var shown := AtMost(panels, 3);
      var width := WidthOf(|shown|);
      var height := MaxHeight(shown, width - 36.0) + 40.0;
      ColumnsAreClear(shown, top, width, height);
      LastColumn(|shown|);
      DrawnBelow(d, ColumnsShapes(shown, top, width, height), ColumnsFrame(|shown|, top, width, height), top + height);
    }
  }

  lemma ChipsDrawnBelow(d: Drawing, tags: seq<string>, top: real)
    requires InFrame(d) && d.bottom <= top && tags != []
    ensures GoesOn(d, WithChips(d.shapes, tags, top))
  {
    hide InFrame, Framed, Separate, ChipShapes, RowTop, ChipRows;
    var rows := ChipRows(tags);
    ChipRowsFit(tags);
    ChipsAreClear(rows, top);
    NextRow(top, |rows| - 1);
    ChipsAreClear(rows[..|rows| - 1], top) by { FitsAlso(rows); }
    DrawnBelow(d, ChipShapes(rows, top), Box(VIS_PAD, top, VIS_W - VIS_PAD, RowTop(top, |rows|) - CHIP_GAP),
               RowTop(top, |rows|) - CHIP_GAP);
  }

  lemma FitsAlso(rows: seq<seq<Cell>>)
    requires rows != [] && RowsFit(rows, CHIP_GAP, INNER_W)
    ensures RowsFit(rows[..|rows| - 1], CHIP_GAP, INNER_W)
  {
    hide RowWidth;
    assert forall r | r in rows[..|rows| - 1] :: r in rows;
  }

  lemma HeaderIsTidy(spec: Spec)
    ensures Tidy(Header(spec))
  {
    hide Framed, Separate, WithBlock, Blank;
    var start := Drawing([], VIS_PAD);
    assert Tidy(start) by { NothingIsClear(Page(VIS_PAD), 0.0); }
    BlockDrawnBelow(start, spec.title, VIS_PAD, INNER_W, TITLE);
    var title := WithBlock(start.shapes, spec.title, 400.0, VIS_PAD, INNER_W, TITLE);
    if !Blank(spec.rule) { BlockDrawnBelow(title, spec.rule, title.bottom + 6.0, INNER_W - 40.0, RULE); }
  }

  lemma FooterDrawnBelow(d: Drawing, spec: Spec)
    requires InFrame(d)
    ensures GoesOn(d, WithFooter(d, spec))
  {
    hide Framed, Separate, WithBlock, WithChips, Blank, CleanTags;
    var tags := CleanTags(spec.tags);
    if tags != [] { ChipsDrawnBelow(d, tags, d.bottom + 16.0); }
    var e := if tags == [] then d else WithChips(d.shapes, tags, d.bottom + 16.0);
    if !Blank(spec.footer) { BlockDrawnBelow(e, spec.footer, e.bottom + 14.0, INNER_W, FOOTER); }
  }

  /** In a diagram of columns, whatever the model wrote and however wide it is drawn, no line of text or
      chip covers another, every shape is above the bottom, and none runs more than 2 units past the
      left edge of the page or 10 past the right. */
  lemma NothingOverlaps(spec: Spec)
    ensures Tidy(PanelsDiagram(spec))
  {
    hide InFrame, Separate, WithPanels, WithFooter, Header;
    HeaderIsTidy(spec);
    var head := Header(spec);
    assert InFrame(head);
    PanelsDrawnBelow(head, spec.panels, head.bottom + 18.0);
    FooterDrawnBelow(WithPanels(head.shapes, spec.panels, head.bottom + 18.0), spec);
  }
}
