/** PageEdges: exactly which texts of a diagram of columns can leave the page.

    About apps/api/internal/ai/grammar_visual_render.go. */
module PageEdges {
  import opened Text
  import opened Rows
  import opened Wrapping
  import opened Layout
  import opened LayoutProofs
  import opened MarkedText

  // ---- what stays on the page ------------------------------------------------------------

  predicate OnPage(s: Shape) { 0.0 <= BoxOf(s).left && BoxOf(s).right <= VIS_W }

  predicate InPage(shapes: seq<Shape>) { forall s | s in shapes :: OnPage(s) }

  predicate LinesAtMost(text: string, box: Length, st: Style, limit: Length)
    requires st.maxLines > 0
  {
    forall line | line in BlockLines(text, box, st) :: DrawnWidth(TextOf(line), st.size, st.heavy) <= limit
  }

  lemma InPageBoth(a: seq<Shape>, b: seq<Shape>)
    ensures InPage(a + b) <==> InPage(a) && InPage(b)
  {
    hide OnPage;
    assert forall s | s in a :: s in a + b;
    assert forall s | s in b :: s in a + b;
  }

  lemma FramedInPage(shapes: seq<Shape>, frame: Box, slack: real)
    requires Framed(shapes, frame, slack) && 0.0 <= frame.left && frame.right <= VIS_W
    ensures InPage(shapes)
  {
    hide BoxOf;
  }

  // How wide a line can be from x to stay on the page.
  function Room(x: real, anchor: Anchor): real {
    if anchor == Start then VIS_W - x else if x <= VIS_W - x then 2.0 * x else 2.0 * (VIS_W - x)
  }

  /** A block stays on the page exactly when none of its lines is drawn wider than the room it has. */
  lemma BlockInPageIff(text: string, x: real, y: real, box: Length, st: Style)
    requires st.maxLines > 0 && 0.0 <= x <= VIS_W
    ensures InPage(BlockShapes(text, x, y, box, st)) <==> LinesAtMost(text, box, st, Room(x, st.anchor))
  {
    hide BlockLines, DrawnWidth, TextOf, Stacked;
    var lines, shapes := BlockLines(text, box, st), BlockShapes(text, x, y, box, st);
    forall i | 0 <= i < |lines|
      ensures OnPage(shapes[i]) <==> DrawnWidth(TextOf(lines[i]), st.size, st.heavy) <= Room(x, st.anchor)
    {
    }
    hide OnPage, Room;
    assert forall i | 0 <= i < |lines| :: lines[i] in lines && shapes[i] in shapes;
  }

  predicate ItemFits(item: Item) {
    !Blank(item.text) ==>
      && LinesAtMost(item.text, 684.0, ITEM, 734.0)
      && (!Blank(item.note) ==> LinesAtMost(item.note, 684.0, NOTE, 734.0))
  }

  lemma ItemInPageIff(item: Item, y: real)
    ensures InPage(ItemShapes(item, 50.0, y, 700.0)) <==> ItemFits(item)
  {
    hide Blank, BlockShapes, BlockHeight, InPage, LinesAtMost;
    NoneInPage();
    if !Blank(item.text) {
      var dot := [Dot(54.0, y + 6.0 + 11.0, 3.5)];
      assert InPage(dot) by { DotIsClear(50.0, y, 60.0, 6.0); FramedInPage(dot, Below(50.0, y, 60.0, 6.0), SLACK); }
      var text := BlockShapes(item.text, 66.0, y + 6.0, 684.0, ITEM);
      BlockInPageIff(item.text, 66.0, y + 6.0, 684.0, ITEM);
      InPageBoth(dot, text);
      if Blank(item.note) {
        assert ItemShapes(item, 50.0, y, 700.0) == dot + text;
      } else {
        var low := y + 6.0 + BlockHeight(item.text, 684.0, ITEM) + 1.0;
        BlockInPageIff(item.note, 66.0, low, 684.0, NOTE);
        InPageBoth(dot + text, BlockShapes(item.note, 66.0, low, 684.0, NOTE));
        assert ItemShapes(item, 50.0, y, 700.0) == dot + text + BlockShapes(item.note, 66.0, low, 684.0, NOTE);
      }
    }
  }

  lemma NoneInPage()
    ensures InPage([])
  {
  }

  predicate ItemsFit(items: seq<Item>) { forall item | item in items :: ItemFits(item) }

  lemma {:induction false} ItemsInPageIff(items: seq<Item>, y: real)
    ensures InPage(ItemsShapes(items, 50.0, y, 700.0)) <==> ItemsFit(items)
  {
    hide InPage, ItemFits, ItemShapes, ItemHeight;
    NoneInPage();
    if items != [] {
      var n := |items| - 1;
      assert items == items[..n] + [items[n]];
      ItemsInPageIff(items[..n], y);
      ItemInPageIff(items[n], y + ItemsHeight(items[..n], 700.0));
      InPageBoth(ItemsShapes(items[..n], 50.0, y, 700.0),
                 ItemShapes(items[n], 50.0, y + ItemsHeight(items[..n], 700.0), 700.0));
    }
  }

  lemma CentredInPage(text: string, y: real, box: Length, st: Style)
    requires st.maxLines > 0 && st.size > 0.0 && st.anchor == Middle && Spread(box, st.size) <= VIS_W
    ensures InPage(BlockShapes(text, 400.0, y, box, st))
  {
    hide Framed, Separate, InPage, BlockShapes, BlockHeight, Spread;
    BlockIsClear(text, 400.0, y, box, st);
    FramedInPage(BlockShapes(text, 400.0, y, box, st),
                 BlockFrame(400.0, y, Spread(box, st.size), BlockHeight(text, box, st), Middle), 0.0);
  }

  lemma LoneColumnInPageIff(p: Panel, top: real, height: real)
    ensures InPage(ColumnsShapes([p], top, INNER_W, height)) <==> ItemsFit(AtMost(p.items, 6))
  {
    hide InPage, ItemsFit, BlockShapes, BlockHeight, HeadHeight, ItemsShapes, Blank, BodyHeight;
    NoneInPage();
    var head := HeadShapes(p, 50.0, top + 22.0, 700.0);
    CentredInPage(p.heading, top + 22.0, 700.0, HEADING);
    var low := top + 22.0 + BlockHeight(p.heading, 700.0, HEADING) + 2.0;
    CentredInPage(p.subheading, low, 700.0, SUBHEADING);
    InPageBoth(BlockShapes(p.heading, 400.0, top + 22.0, 700.0, HEADING),
               if Blank(p.subheading) then []
               else BlockShapes(p.subheading, 400.0, low, 700.0, SUBHEADING));
    assert InPage(head);
    var items := ItemsShapes(AtMost(p.items, 6), 50.0, top + 22.0 + HeadHeight(p, 700.0), 700.0);
    ItemsInPageIff(AtMost(p.items, 6), top + 22.0 + HeadHeight(p, 700.0));
    InPageBoth(head, items);
    var back := [Column(32.0, top, INNER_W, height)];
    assert InPage(back) by { assert OnPage(back[0]); OneInPage(back[0]); }
    InPageBoth(back, head + items);
    assert [p][..0] == [];
    assert ColumnsShapes([p], top, INNER_W, height) == back + (head + items) by { NextColumn(0, INNER_W); }
  }

  lemma OneInPage(s: Shape)
    requires OnPage(s)
    ensures InPage([s])
  {
  }

  lemma PanelsInPageIff(before: seq<Shape>, panels: seq<Panel>, top: real)
    ensures InPage(WithPanels(before, panels, top).shapes)
            <==> InPage(before) && (|panels| == 1 ==> ItemsFit(AtMost(panels[0].items, 6)))
  {
    hide InPage, ItemsFit, Framed, Separate, ColumnsShapes, BodyHeight;
    if panels != [] {
      var shown := AtMost(panels, 3);
      var width := WidthOf(|shown|);
      var height := MaxHeight(shown, width - 36.0) + 40.0;
      InPageBoth(before, ColumnsShapes(shown, top, width, height));
      if |panels| == 1 {
        assert shown == [panels[0]];
        LoneColumnInPageIff(panels[0], top, height);
      } else {
        ColumnsAreClear(shown, top, width, height);
        LastColumn(|shown|);
        FramedInPage(ColumnsShapes(shown, top, width, height), ColumnsFrame(|shown|, top, width, height), 0.0);
      }
    }
  }

  lemma ChipsInPage(tags: seq<string>, top: real)
    ensures InPage(ChipShapes(ChipRows(tags), top))
  {
    hide InPage, Framed, Separate, ChipShapes, ChipRows;
    ChipRowsFit(tags);
    ChipsAreClear(ChipRows(tags), top);
    FramedInPage(ChipShapes(ChipRows(tags), top),
                 Box(VIS_PAD, top, VIS_W - VIS_PAD, RowTop(top, |ChipRows(tags)|) - CHIP_GAP), 0.0);
  }

  lemma HeaderInPageIff(spec: Spec)
    ensures InPage(Header(spec).shapes) <==> LinesAtMost(spec.title, INNER_W, TITLE, VIS_W)
  {
    hide InPage, LinesAtMost, BlockShapes, BlockHeight, Blank;
    var title := WithBlock([], spec.title, 400.0, VIS_PAD, INNER_W, TITLE);
    BlockInPageIff(spec.title, 400.0, VIS_PAD, INNER_W, TITLE);
    assert title.shapes == BlockShapes(spec.title, 400.0, VIS_PAD, INNER_W, TITLE);
    CentredInPage(spec.rule, title.bottom + 6.0, INNER_W - 40.0, RULE);
    InPageBoth(title.shapes, BlockShapes(spec.rule, 400.0, title.bottom + 6.0, INNER_W - 40.0, RULE));
  }

  lemma FooterInPage(d: Drawing, spec: Spec)
    ensures InPage(WithFooter(d, spec).shapes) <==> InPage(d.shapes)
  {
    hide InPage, BlockShapes, BlockHeight, Blank, ChipShapes, ChipRows, CleanTags;
    var tags := CleanTags(spec.tags);
    ChipsInPage(tags, d.bottom + 16.0);
    InPageBoth(d.shapes, ChipShapes(ChipRows(tags), d.bottom + 16.0));
    var e := if tags == [] then d else WithChips(d.shapes, tags, d.bottom + 16.0);
    CentredInPage(spec.footer, e.bottom + 14.0, INNER_W, FOOTER);
    InPageBoth(e.shapes, BlockShapes(spec.footer, 400.0, e.bottom + 14.0, INNER_W, FOOTER));
  }

  /** Exactly the diagrams of columns that stay on the page: no line of the title is drawn wider than the
      page, and a lone column has no item or note with a line drawn wider than the 734 units from where it
      starts to the page's edge. Nothing else can reach the edge. */
  lemma ColumnsStayOnPageIff(spec: Spec)
    ensures InPage(PanelsDiagram(spec).shapes)
            <==> && LinesAtMost(spec.title, INNER_W, TITLE, VIS_W)
                 && (|spec.panels| == 1 ==> ItemsFit(AtMost(spec.panels[0].items, 6)))
  {
    hide InPage, LinesAtMost, ItemsFit, Header, WithPanels, WithFooter;
    var head := Header(spec);
    HeaderInPageIff(spec);
    PanelsInPageIff(head.shapes, spec.panels, head.bottom + 18.0);
    FooterInPage(WithPanels(head.shapes, spec.panels, head.bottom + 18.0), spec);
  }

  // ---- a title that leaves the page ------------------------------------------------------

  function Ms(n: nat): (s: string)
    ensures |s| == n && forall c | c in s :: c == 'm'
  {
    if n == 0 then "" else Ms(n - 1) + "m"
  }

  lemma {:induction false} EmsOfManyMs(n: nat)
    ensures Ems(Ms(n)) == 0.86 * n as real
  {
    if n == 0 {
      assert Ems("") == 0.0;
    } else {
      hide Ems;
      EmsOfManyMs(n - 1);
      EmsOfMs();
      EmsOfJoined(Ms(n - 1), "m");
    }
  }

  const WIDE: string := Ms(35) + "a"

  lemma WideWidths()
    ensures TextWidth(WIDE, 24.0, false) == 735.84 && TextWidth(WIDE, 24.0, true) == 787.3488
    ensures TextWidth(WIDE + ELLIPSIS, 24.0, true) == 801.7296
  {
    EmsOfManyMs(35);
    SampleEms();
    SingleEms();
    hide Ems, Ms;
    EmsOfJoined(Ms(35), "a");
    EmsOfJoined(WIDE, ELLIPSIS);
  }

  lemma WideIsPlain()
    ensures PlainWord(WIDE)
  {
    LettersArePlain(WIDE);
  }

  lemma FirstWordIs(w: string, rest: string)
    requires PlainWord(w)
    ensures WordLength(w + " " + rest) == |w|
    decreases |w|
  {
    var s := w + " " + rest;
    assert s[0] == w[0] && w[0] in w;
    assert s[1..] == w[1..] + " " + rest;
    if |w| > 1 {
      assert forall c | c in w[1..] :: c in w;
      FirstWordIs(w[1..], rest);
    } else {
      assert s[1..][0] == ' ';
    }
  }

  lemma FieldsOfTwo(w: string, rest: string)
    requires PlainWord(w)
    ensures Fields(w + " " + rest) == [w] + Fields(rest)
  {
    FirstWordIs(w, rest);
    var s := w + " " + rest;
    assert s[0] == w[0] && w[0] in w;
    assert s[..|w|] == w && s[|w|..] == " " + rest;
    assert (" " + rest)[1..] == rest;
    assert Fields(" " + rest) == Fields(rest);
  }

  function Thrice(w: string): string { w + " " + (w + " " + w) }

  lemma ThriceFields(w: string)
    requires PlainWord(w)
    ensures Fields(Thrice(w)) == [w, w, w]
  {
    PlainIsOneField(w);
    FieldsOfTwo(w, w);
    FieldsOfTwo(w, w + " " + w);
    hide Fields, PlainWord;
    assert [w] + ([w] + [w]) == [w, w, w];
  }

  lemma ThriceIsTrimmed(w: string)
    requires PlainWord(w)
    ensures Trim(Thrice(w)) == Thrice(w) && '*' !in Thrice(w)
  {
    var s := Thrice(w);
    assert w[0] in w && w[|w| - 1] in w;
    assert s[0] == w[0] && s[|s| - 1] == w[|w| - 1];
    hide IsSpace, Trim;
    TrimIsTrimmed(s);
  }

  const WIDE_TITLE: string := Thrice(WIDE)

  lemma WideTitleWords()
    ensures MarkedWords(Trim(WIDE_TITLE)) == [Word(WIDE, false), Word(WIDE, false), Word(WIDE, false)]
  {
    WideIsPlain();
    hide WIDE, Thrice, MarkedWords, Fields, Trim, PlainWord;
    ThriceIsTrimmed(WIDE);
    UnmarkedWords(WIDE_TITLE);
    ThriceFields(WIDE);
  }

  lemma WideTitleLines(words: seq<Word>, c: Cell)
    requires words == [Word(WIDE, false), Word(WIDE, false), Word(WIDE, false)] && c == Cell(Word(WIDE, false), INNER_W)
    ensures Lines(words, INNER_W, 24.0, true) == [[c], [c], [c]]
  {
    WideWidths();
    hide TextWidth, WIDE;
    var cells := Cells(words, INNER_W, 24.0, true);
    assert cells == [c, c, c];
    var gap := Space(24.0, true);
    hide Space;
    RowGrows([], c, gap);
    EmptyRow(gap);
    assert [] + [c] == [c] && RowWidth([c], gap) == INNER_W;
    SpaceIsWide(24.0, true);
    assert cells[..2] == [c, c] && [c, c][..1] == [c] && [c][..0] == [];
    hide RowWidth;
    assert Greedy([c], gap, INNER_W) == [[c]];
    assert Greedy([c, c], gap, INNER_W) == [[c], [c]];
  }

  lemma WideIsNotCut()
    ensures TrimRightAny(WIDE, ".,;:") == WIDE
  {
    assert WIDE[|WIDE| - 1] == 'a';
    hide Ms;
  }

  lemma CutTitle(words: seq<Word>, c: Cell)
    requires words == MarkedWords(Trim(WIDE_TITLE)) && Lines(words, INNER_W, 24.0, true) == [[c], [c], [c]]
    ensures BlockLines(WIDE_TITLE, INNER_W, TITLE) == [[c], EndInEllipsis([c])]
  {
    hide Lines, MarkedWords, Trim, EndInEllipsis, RowsFit, Flatten, Cells;
  }

  /** The title's tolerance, its weight and its ellipsis together can take it off the page. */
  lemma TitleLeavesPage()
    ensures !LinesAtMost(WIDE_TITLE, INNER_W, TITLE, VIS_W)
  {
    WideTitleWords();
    WideWidths();
    WideIsNotCut();
    hide WIDE, WIDE_TITLE, TextWidth, Lines, MarkedWords, Trim, TrimRightAny, BlockLines, TextOf, DrawnWidth;
    var c := Cell(Word(WIDE, false), INNER_W);
    WideTitleLines(MarkedWords(Trim(WIDE_TITLE)), c);
    CutTitle(MarkedWords(Trim(WIDE_TITLE)), c);
    var end := EndInEllipsis([c]);
    assert end == [c.(word := Word(WIDE + ELLIPSIS, false))];
    LoneWord(end, 24.0, true);
    assert [[c], end][1] == end;
    assert end in BlockLines(WIDE_TITLE, INNER_W, TITLE);
  }
}
