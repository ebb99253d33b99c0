/** DiagramText: what a diagram says - every text of its spec, in order, cut only where it has to be.

    About apps/api/internal/ai/grammar_visual_render.go. */
module DiagramText {
  import opened Text
  import opened Rows
  import opened Wrapping
  import opened Layout
  import opened MarkedText
  import opened Timeline

  // ---- what a block of lines says --------------------------------------------------------

  /** A word as it is drawn: as it was written, or if it is wider than its box a prefix with an ellipsis. */
  predicate ShownAs(shown: Word, w: Word, box: Length, st: Style) {
    && shown.bold == w.bold
    && (|| shown.text == w.text
        || (&& TextWidth(w.text, st.size, st.heavy || w.bold) > box
            && exists k | 1 <= k <= |w.text| :: shown.text == w.text[..k] + ELLIPSIS))
  }

  /** The last word of a text that was cut: without its final punctuation, and with an ellipsis. */
  ghost predicate EndsCut(shown: Word, w: Word, box: Length, st: Style) {
    exists t, k: nat ::
      && ShownAs(Word(t, shown.bold), w, box, st) && k <= |t| && shown.text == t[..k] + ELLIPSIS
      && (forall i | k <= i < |t| :: t[i] in ".,;:") && (k > 0 ==> t[k - 1] !in ".,;:")
  }

  function WordsOn(lines: seq<Shape>): seq<Word> {
    if lines == [] then []
    else
      var n := |lines| - 1;
      WordsOn(lines[..n]) + if lines[n].Line? then lines[n].words else []
  }

  predicate SaysAll(said: seq<Word>, words: seq<Word>, box: Length, st: Style) {
    |said| == |words| && forall i | 0 <= i < |words| :: ShownAs(said[i], words[i], box, st)
  }

  ghost predicate SaysStart(said: seq<Word>, words: seq<Word>, box: Length, st: Style) {
    && 0 < |said| < |words|
    && (forall i | 0 <= i < |said| - 1 :: ShownAs(said[i], words[i], box, st))
    && EndsCut(said[|said| - 1], words[|said| - 1], box, st)
  }

  /** Lines of one style that say a text: all its words in order; or, when the lines it may take are used up,
      its first words, the last of them cut. */
  ghost predicate Says(lines: seq<Shape>, text: string, box: Length, st: Style) {
    var said, words := WordsOn(lines), MarkedWords(Trim(text));
    && (forall l | l in lines :: l.Line? && l.style == st && l.words != [])
    && |lines| <= st.maxLines
    && (SaysAll(said, words, box, st) || (|lines| == st.maxLines && SaysStart(said, words, box, st)))
  }

  lemma CellShows(w: Word, box: Length, st: Style)
    ensures ShownAs(CellOf(w, box, st.size, st.heavy).word, w, box, st)
  {
    hide TextWidth, TooWide;
    if TextWidth(w.text, st.size, false) > box + 0.5 { ShortenedIsLongest(w.text, box, st.size); }
  }

  lemma {:induction false} CutEnds(t: string, cut: string)
    ensures var r := TrimRightAny(t, cut);
            && |r| <= |t| && r == t[..|r|]
            && (forall i | |r| <= i < |t| :: t[i] in cut) && (r != "" ==> r[|r| - 1] !in cut)
  {
    if t != "" && t[|t| - 1] in cut { CutEnds(t[..|t| - 1], cut); }
  }

  lemma TextOfJoined(a: seq<Cell>, b: seq<Cell>)
    ensures TextOf(a + b) == TextOf(a) + TextOf(b)
  {
  }

  lemma {:induction false} LinesSay(lines: seq<seq<Cell>>, x: real, y: real, st: Style)
    ensures WordsOn(LineShapes(lines, x, y, st)) == TextOf(Flatten(lines))
  {
    hide TextOf;
    if lines == [] {
      assert TextOf([]) == [];
    } else {
      var n := |lines| - 1;
      LinesSay(lines[..n], x, y, st);
      assert LineShapes(lines, x, y, st)[..n] == LineShapes(lines[..n], x, y, st);
      TextOfJoined(Flatten(lines[..n]), lines[n]);
    }
  }

  lemma {:induction false} FirstLines(lines: seq<seq<Cell>>, m: nat)
    requires m <= |lines| && [] !in lines
    ensures Flatten(lines[..m]) <= Flatten(lines)
    ensures m < |lines| ==> |Flatten(lines[..m])| < |Flatten(lines)|
    ensures m > 0 ==> |Flatten(lines[..m])| > 0
  {
    var n := |lines| - 1;
    if m < |lines| {
      assert forall l | l in lines[..n] :: l in lines;
      assert lines[n] in lines;
      FirstLines(lines[..n], m);
      assert lines[..n][..m] == lines[..m];
    } else if lines != [] {
      assert lines[..m] == lines && lines[n] in lines;
    }
  }

  // What cutting does to the cells of the lines.
  lemma KeptCells(lines: seq<seq<Cell>>, m: nat)
    requires 0 < m < |lines| && [] !in lines
    ensures var all, said := Flatten(lines), Flatten(Kept(lines, m));
            var n := |said| - 1;
            && 0 < |said| < |all| && said[..n] == all[..n]
            && said[n].word == Word(TrimRightAny(all[n].word.text, ".,;:") + ELLIPSIS, all[n].word.bold)
  {
    var last := lines[m - 1];
    assert last in lines;
    FirstLines(lines, m);
    assert lines[..m] == lines[..m - 1] + [last];
    FlattenGrows(lines[..m - 1], last);
    FlattenGrows(lines[..m - 1], EndInEllipsis(last));
    hide TrimRightAny, Flatten;
    var before := Flatten(lines[..m - 1]);
    var head, n := before + last, |before| + |last| - 1;
    assert head == Flatten(lines)[..|head|];
    assert head[n] == last[|last| - 1];
    assert (before + EndInEllipsis(last))[..n] == head[..n];
  }

  lemma KeptSays(words: seq<Word>, cells: seq<Cell>, box: Length, st: Style, lines: seq<seq<Cell>>)
    requires cells == Cells(words, box, st.size, st.heavy) && Flatten(lines) == cells && [] !in lines
    requires |lines| > st.maxLines > 0
    ensures SaysStart(TextOf(Flatten(Kept(lines, st.maxLines))), words, box, st)
  {
    hide *;
    KeptCells(lines, st.maxLines);
    CutSays(words, cells, Flatten(Kept(lines, st.maxLines)), box, st);
  }

  lemma CutSays(words: seq<Word>, cells: seq<Cell>, said: seq<Cell>, box: Length, st: Style)
    requires cells == Cells(words, box, st.size, st.heavy) && 0 < |said| < |cells|
    requires var n := |said| - 1;
             && said[..n] == cells[..n]
             && said[n].word == Word(TrimRightAny(cells[n].word.text, ".,;:") + ELLIPSIS, cells[n].word.bold)
    ensures SaysStart(TextOf(said), words, box, st)
  {
    hide ShownAs, CellOf, TrimRightAny, EndsCut;
    var n := |said| - 1;
    forall i | 0 <= i < n ensures ShownAs(said[i].word, words[i], box, st) {
      assert said[i] == said[..n][i] == cells[i];
      CellShows(words[i], box, st);
    }
    CellShows(words[n], box, st);
    LastIsCut(cells[n].word, said[n].word, words[n], box, st);
  }

  lemma LastIsCut(t: Word, shown: Word, w: Word, box: Length, st: Style)
    requires ShownAs(t, w, box, st)
    requires shown == Word(TrimRightAny(t.text, ".,;:") + ELLIPSIS, t.bold)
    ensures EndsCut(shown, w, box, st)
  {
    CutEnds(t.text, ".,;:");
    hide ShownAs, TrimRightAny;
    var k := |TrimRightAny(t.text, ".,;:")|;
    assert Word(t.text, shown.bold) == t;
    assert shown.text == t.text[..k] + ELLIPSIS;
  }

  /** A block says its text. */
  lemma BlockSays(text: string, x: real, y: real, box: Length, st: Style)
    requires st.maxLines > 0
    ensures Says(BlockShapes(text, x, y, box, st), text, box, st)
  {
    var words := MarkedWords(Trim(text));
    var cells, lines := Cells(words, box, st.size, st.heavy), Lines(words, box, st.size, st.heavy);
    WrappingIsOptimal(words, box, st.size, st.heavy, []);
    hide Lines, MarkedWords, Trim, RowsFit, CellOf, ShownAs, EndsCut, Flatten, EndInEllipsis, LineHeight, Stacked;
    var kept := BlockLines(text, box, st);
    LinesSay(kept, x, y, st);
    NoneIsEmpty(lines, st.maxLines);
    LinesAreLines(kept, x, y, st);
    if |lines| <= st.maxLines {
      forall i | 0 <= i < |words| ensures ShownAs(TextOf(cells)[i], words[i], box, st) { CellShows(words[i], box, st); }
    } else {
      KeptSays(words, cells, box, st, lines);
    }
  }

  lemma NoneIsEmpty(lines: seq<seq<Cell>>, maxLines: nat)
    requires [] !in lines && maxLines > 0
    ensures [] !in Kept(lines, maxLines)
  {
    if |lines| > maxLines {
      assert lines[maxLines - 1] in lines;
      assert forall l | l in lines[..maxLines - 1] :: l in lines;
    }
  }

  lemma LinesAreLines(lines: seq<seq<Cell>>, x: real, y: real, st: Style)
    requires [] !in lines
    ensures forall l | l in LineShapes(lines, x, y, st) :: l.Line? && l.style == st && l.words != []
  {
    forall l | l in LineShapes(lines, x, y, st) ensures l.Line? && l.style == st && l.words != [] {
      var i :| 0 <= i < |lines| && LineShapes(lines, x, y, st)[i] == l;
      assert lines[i] in lines;
    }
  }

  // ---- what a drawing says ---------------------------------------------------------------

  /** A text, the width it is wrapped to and how it is set. */
  datatype Said = Said(text: string, box: Length, style: Style)

  function LinesOf(shapes: seq<Shape>): seq<Shape> {
    if shapes == [] then []
    else var n := |shapes| - 1; LinesOf(shapes[..n]) + if shapes[n].Line? then [shapes[n]] else []
  }

  function JoinedParts(parts: seq<seq<Shape>>): seq<Shape> {
    if parts == [] then [] else JoinedParts(parts[..|parts| - 1]) + parts[|parts| - 1]
  }

  ghost predicate SaysEach(parts: seq<seq<Shape>>, texts: seq<Said>) {
    |parts| == |texts| && forall i | 0 <= i < |texts| :: Says(parts[i], texts[i].text, texts[i].box, texts[i].style)
  }

  predicate NoChips(shapes: seq<Shape>) { forall s | s in shapes :: !s.Chip? }

  /** The lines of a drawing without chips say these texts, one after the other, and nothing else. */
  ghost predicate Spells(shapes: seq<Shape>, texts: seq<Said>) {
    NoChips(shapes) && exists parts :: SaysEach(parts, texts) && LinesOf(shapes) == JoinedParts(parts)
  }

  predicate Silent(s: Shape) { !s.Line? && !s.Chip? }

  lemma {:induction false} LinesOfJoined(a: seq<Shape>, b: seq<Shape>)
    ensures LinesOf(a + b) == LinesOf(a) + LinesOf(b)
  {
    if b == [] {
      assert a + b == a;
    } else {
      var n := |b| - 1;
      assert (a + b)[..|a| + n] == a + b[..n];
      LinesOfJoined(a, b[..n]);
    }
  }

  lemma {:induction false} PartsOfJoined(a: seq<seq<Shape>>, b: seq<seq<Shape>>)
    ensures JoinedParts(a + b) == JoinedParts(a) + JoinedParts(b)
  {
    if b == [] {
      assert a + b == a;
    } else {
      var n := |b| - 1;
      assert (a + b)[..|a| + n] == a + b[..n];
      PartsOfJoined(a, b[..n]);
    }
  }

  lemma SpellsBoth(a: seq<Shape>, ta: seq<Said>, b: seq<Shape>, tb: seq<Said>)
    requires Spells(a, ta) && Spells(b, tb)
    ensures Spells(a + b, ta + tb)
  {
    hide Says, LinesOf, JoinedParts;
    var pa :| SaysEach(pa, ta) && LinesOf(a) == JoinedParts(pa);
    var pb :| SaysEach(pb, tb) && LinesOf(b) == JoinedParts(pb);
    LinesOfJoined(a, b);
    PartsOfJoined(pa, pb);
    assert SaysEach(pa + pb, ta + tb);
  }

  lemma {:induction false} NoLinesNoText(shapes: seq<Shape>)
    requires forall s | s in shapes :: Silent(s)
    ensures LinesOf(shapes) == [] && Spells(shapes, [])
  {
    if shapes != [] {
      var n := |shapes| - 1;
      assert shapes[n] in shapes && forall s | s in shapes[..n] :: s in shapes;
      NoLinesNoText(shapes[..n]);
    }
    assert SaysEach([], []) && JoinedParts([]) == [];
  }

  // A drawing behind the text that says nothing itself.
  lemma SpellsBehind(back: seq<Shape>, a: seq<Shape>, ta: seq<Said>)
    requires Spells(a, ta) && forall s | s in back :: Silent(s)
    ensures Spells(back + a, ta)
  {
    hide Spells;
    NoLinesNoText(back);
    SpellsBoth(back, [], a, ta);
    assert [] + ta == ta;
  }

  lemma {:induction false} OnlyLines(shapes: seq<Shape>)
    requires forall i | 0 <= i < |shapes| :: shapes[i].Line?
    ensures LinesOf(shapes) == shapes
  {
    if shapes != [] {
      var n := |shapes| - 1;
      OnlyLines(shapes[..n]);
      assert shapes[..n] + [shapes[n]] == shapes;
    }
  }

  lemma BlockSpells(text: string, x: real, y: real, box: Length, st: Style)
    requires st.maxLines > 0
    ensures Spells(BlockShapes(text, x, y, box, st), [Said(text, box, st)])
  {
    BlockSays(text, x, y, box, st);
    hide BlockShapes, WordsOn, SaysAll, SaysStart, MarkedWords, Trim;
    var shapes := BlockShapes(text, x, y, box, st);
    OnlyLines(shapes);
    assert [shapes][..0] == [] && JoinedParts([]) == [];
    assert JoinedParts([shapes]) == [] + shapes;
    assert SaysEach([shapes], [Said(text, box, st)]);
  }

  // A text that is left out when it is blank.
  function Optional(text: string, box: Length, st: Style): seq<Said> {
    if AllSpaces(text) then [] else [Said(text, box, st)]
  }

  function OptionalShapes(text: string, x: real, y: real, box: Length, st: Style): seq<Shape>
    requires st.maxLines > 0
  {
    if Blank(text) then [] else BlockShapes(text, x, y, box, st)
  }

  lemma OptionalSpells(text: string, x: real, y: real, box: Length, st: Style)
    requires st.maxLines > 0
    ensures Spells(OptionalShapes(text, x, y, box, st), Optional(text, box, st))
  {
    TrimOfSpaces(text);
    hide BlockShapes, Spells, AllSpaces, Trim;
    if Blank(text) { NoLinesNoText([]); } else { BlockSpells(text, x, y, box, st); }
  }

  // Two texts, with a mark drawn behind them.
  lemma TwoSpell(whole: seq<Shape>, said: seq<Said>,
                 mark: Shape, a: seq<Shape>, ta: seq<Said>, b: seq<Shape>, tb: seq<Said>)
    requires (whole == [mark] + a + b || whole == [mark] + (a + b)) && said == ta + tb
    requires Spells(a, ta) && Spells(b, tb) && !mark.Line? && !mark.Chip?
    ensures Spells(whole, said)
  {
    assert forall s | s in [mark] :: Silent(s);
    hide *;
    SpellsBehind([mark], a, ta);
    SpellsBoth([mark] + a, ta, b, tb);
    Associates([mark], a, b);
  }

  // ---- columns ---------------------------------------------------------------------------

  function FirstOf<T>(s: seq<T>, n: nat): seq<T> { s[..if |s| < n then |s| else n] }

  /** An item and its note. */
  function ItemTexts(item: Item, width: real): seq<Said>
    requires width >= 60.0
  {
    if AllSpaces(item.text) then []
    else
      [Said(item.text, width - 16.0, Style(17.0, false, Start, 3))]
      + Optional(item.note, width - 16.0, Style(13.0, false, Start, 2))
  }

  function ItemsTexts(items: seq<Item>, width: real): seq<Said>
    requires width >= 60.0
  {
    if items == [] then []
    else var n := |items| - 1; ItemsTexts(items[..n], width) + ItemTexts(items[n], width)
  }

  /** The heading, and the subheading if there is one. */
  function HeadTexts(p: Panel, width: Length): seq<Said> {
    [Said(p.heading, width, Style(22.0, true, Middle, 2))]
    + Optional(p.subheading, width, Style(14.0, false, Middle, 3))
  }

  /** A column: its head and up to six items. */
  function PanelTexts(p: Panel, width: real): seq<Said>
    requires width >= 60.0
  {
    HeadTexts(p, width) + ItemsTexts(FirstOf(p.items, 6), width)
  }

  function PanelsTexts(panels: seq<Panel>, width: real): seq<Said>
    requires width >= 60.0
  {
    if panels == [] then []
    else var n := |panels| - 1; PanelsTexts(panels[..n], width) + PanelTexts(panels[n], width)
  }

  lemma ItemIs(item: Item, x: real, y: real, width: ColumnWidth)
    requires !Blank(item.text)
    ensures var low, w := y + 6.0 + BlockHeight(item.text, width - 16.0, ITEM) + 1.0, width - 16.0;
            && ItemShapes(item, x, y, width)
               == [Dot(x + 4.0, y + 6.0 + 11.0, 3.5)] + BlockShapes(item.text, x + 16.0, y + 6.0, w, ITEM)
                  + OptionalShapes(item.note, x + 16.0, low, w, NOTE)
            && ItemTexts(item, width) == [Said(item.text, w, ITEM)] + Optional(item.note, w, NOTE)
  {
    TrimOfSpaces(item.text);
    hide BlockShapes, BlockHeight, Trim, AllSpaces, Optional;
  }

  lemma BlankItem(item: Item, x: real, y: real, width: ColumnWidth)
    requires Blank(item.text)
    ensures ItemShapes(item, x, y, width) == [] && ItemTexts(item, width) == []
  {
    TrimOfSpaces(item.text);
    hide BlockShapes, BlockHeight, Trim, AllSpaces, Optional;
  }

  // Every style allows a block at least one line.
  lemma EachTakesALine()
    ensures HEADING.maxLines > 0 && SUBHEADING.maxLines > 0 && ITEM.maxLines > 0 && NOTE.maxLines > 0
    ensures NAME.maxLines > 0 && REMARK.maxLines > 0 && MARK.maxLines > 0 && END.maxLines > 0
    ensures TITLE.maxLines > 0 && RULE.maxLines > 0 && FOOTER.maxLines > 0 && INNER_W - 40.0 >= 0.0
  {
  }

  lemma ItemSpells(item: Item, x: real, y: real, width: ColumnWidth)
    ensures Spells(ItemShapes(item, x, y, width), ItemTexts(item, width))
  {
    hide *;
    EachTakesALine();
    if Blank(item.text) {
      BlankItem(item, x, y, width);
      NoLinesNoText([]);
    } else {
      var low, w := y + 6.0 + BlockHeight(item.text, width - 16.0, ITEM) + 1.0, width - 16.0;
      ItemIs(item, x, y, width);
      BlockSpells(item.text, x + 16.0, y + 6.0, w, ITEM);
      OptionalSpells(item.note, x + 16.0, low, w, NOTE);
      TwoSpell(ItemShapes(item, x, y, width), ItemTexts(item, width),
               Dot(x + 4.0, y + 6.0 + 11.0, 3.5),
               BlockShapes(item.text, x + 16.0, y + 6.0, w, ITEM), [Said(item.text, w, ITEM)],
               OptionalShapes(item.note, x + 16.0, low, w, NOTE), Optional(item.note, w, NOTE));
    }
  }

  lemma {:induction false} ItemsSpell(items: seq<Item>, x: real, y: real, width: ColumnWidth)
    ensures Spells(ItemsShapes(items, x, y, width), ItemsTexts(items, width))
  {
    hide Spells, ItemShapes, ItemTexts, ItemHeight;
    if items == [] {
      NoLinesNoText([]);
    } else {
      var n := |items| - 1;
      ItemsSpell(items[..n], x, y, width);
      ItemSpells(items[n], x, y + ItemsHeight(items[..n], width), width);
      SpellsBoth(ItemsShapes(items[..n], x, y, width), ItemsTexts(items[..n], width),
                 ItemShapes(items[n], x, y + ItemsHeight(items[..n], width), width), ItemTexts(items[n], width));
    }
  }

  lemma HeadIs(p: Panel, x: real, top: real, width: ColumnWidth)
    ensures var low := top + BlockHeight(p.heading, width, HEADING) + 2.0;
            && HeadShapes(p, x, top, width) == BlockShapes(p.heading, x + width / 2.0, top, width, HEADING)
                                               + OptionalShapes(p.subheading, x + width / 2.0, low, width, SUBHEADING)
            && HeadTexts(p, width) == [Said(p.heading, width, HEADING)] + Optional(p.subheading, width, SUBHEADING)
  {
    hide BlockShapes, BlockHeight, Blank, Optional;
  }

  lemma HeadSpells(p: Panel, x: real, top: real, width: ColumnWidth)
    ensures Spells(HeadShapes(p, x, top, width), HeadTexts(p, width))
  {
    hide *;
    EachTakesALine();
    var center, low := x + width / 2.0, top + BlockHeight(p.heading, width, HEADING) + 2.0;
    HeadIs(p, x, top, width);
    BlockSpells(p.heading, center, top, width, HEADING);
    OptionalSpells(p.subheading, center, low, width, SUBHEADING);
    SpellsBoth(BlockShapes(p.heading, center, top, width, HEADING), [Said(p.heading, width, HEADING)],
               OptionalShapes(p.subheading, center, low, width, SUBHEADING),
               Optional(p.subheading, width, SUBHEADING));
  }

  lemma ColumnIs(p: Panel, x: real, top: real, width: real, height: real)
    requires width >= 232.0
    ensures var w: ColumnWidth := width - 36.0;
            ColumnShapes(p, x, top, width, height)
            == [Column(x, top, width, height)]
               + (HeadShapes(p, x + 18.0, top + 22.0, w)
                  + ItemsShapes(FirstOf(p.items, 6), x + 18.0, top + 22.0 + HeadHeight(p, w), w))
  {
    hide HeadShapes, ItemsShapes, HeadHeight;
    assert AtMost(p.items, 6) == FirstOf(p.items, 6);
  }

  lemma PanelTextsAre(p: Panel, width: ColumnWidth)
    ensures PanelTexts(p, width) == HeadTexts(p, width) + ItemsTexts(FirstOf(p.items, 6), width)
  {
  }

  lemma PanelSpells(p: Panel, x: real, top: real, width: real, height: real)
    requires width >= 232.0
    ensures Spells(ColumnShapes(p, x, top, width, height), PanelTexts(p, width - 36.0))
  {
    hide *;
    var w: ColumnWidth := width - 36.0;
    var shown, low := FirstOf(p.items, 6), top + 22.0 + HeadHeight(p, w);
    ColumnIs(p, x, top, width, height);
    PanelTextsAre(p, w);
    HeadSpells(p, x + 18.0, top + 22.0, w);
    ItemsSpell(shown, x + 18.0, low, w);
    TwoSpell(ColumnShapes(p, x, top, width, height), PanelTexts(p, w),
             Column(x, top, width, height), HeadShapes(p, x + 18.0, top + 22.0, w), HeadTexts(p, w),
             ItemsShapes(shown, x + 18.0, low, w), ItemsTexts(shown, w));
  }

  lemma {:induction false} PanelsSpell(panels: seq<Panel>, top: real, width: real, height: real)
    requires width >= 232.0
    ensures Spells(ColumnsShapes(panels, top, width, height), PanelsTexts(panels, width - 36.0))
  {
    hide Spells, ColumnShapes, PanelTexts, ColumnX;
    if panels == [] {
      NoLinesNoText([]);
    } else {
      var n := |panels| - 1;
      PanelsSpell(panels[..n], top, width, height);
      PanelSpells(panels[n], ColumnX(n, width), top, width, height);
      SpellsBoth(ColumnsShapes(panels[..n], top, width, height), PanelsTexts(panels[..n], width - 36.0),
                 ColumnShapes(panels[n], ColumnX(n, width), top, width, height), PanelTexts(panels[n], width - 36.0));
    }
  }

  /** The width inside a column when n share the page. */
  function Inner(n: nat): (w: real)
    requires 1 <= n <= 3
    ensures w >= 60.0
  {
    if n == 1 then 700.0 else if n == 2 then 322.0 else 196.0
  }

  // ---- timelines -------------------------------------------------------------------------

  function Where(events: seq<Event>, keep: Event -> bool): seq<Event> {
    if events == [] then []
    else var n := |events| - 1; Where(events[..n], keep) + if keep(events[n]) then [events[n]] else []
  }

  /** An event's name, and its note if there is one. */
  function EventSaid(e: Event, box: Length): seq<Said> {
    [Said(e.name, box, Style(16.0, true, Middle, 2))] + Optional(e.note, box, Style(13.0, false, Middle, 3))
  }

  /** The names and notes of the events between two points, in the order they were written. */
  function SpanTexts(events: seq<Event>, box: Length): seq<Said> {
    if events == [] then []
    else var n := |events| - 1; SpanTexts(events[..n], box) + EventSaid(events[n], box)
  }

  function SpanBox(width: real, n: nat): Length
    requires width >= 0.0
  {
    var w := width / (n + 1) as real * 1.8;
    if w < 170.0 then w else 170.0
  }

  function PastOf(shown: seq<Event>): seq<Event> { Where(shown, (e: Event) => e.zone == "past") }

  function NowOf(shown: seq<Event>): seq<Event> {
    FirstOf(Where(shown, (e: Event) => e.zone != "past" && e.zone != "future"), 1)
  }

  function FutureOf(shown: seq<Event>): seq<Event> { Where(shown, (e: Event) => e.zone == "future") }

  /** Of the first six events those before now, the first of those now, and those after now. */
  function ZonesTexts(events: seq<Event>): seq<Said> {
    var shown := FirstOf(events, 6);
    var past, now, future := PastOf(shown), NowOf(shown), FutureOf(shown);
    SpanTexts(past, SpanBox(318.0, |past|)) + SpanTexts(now, SpanBox(160.0, |now|))
    + SpanTexts(future, SpanBox(318.0, |future|))
  }

  function AxisTexts(): seq<Said> {
    [Said("NOW", 80.0, Style(12.0, true, Middle, 1)), Said("Past", 80.0, Style(13.0, false, Start, 1)),
     Said("Future", 80.0, Style(13.0, false, Start, 1))]
  }

  /** The marks of the axis and the texts of its events. */
  function TimelineTexts(events: seq<Event>): seq<Said> { AxisTexts() + ZonesTexts(events) }

  lemma {:induction false} InZoneIs(events: seq<Event>, zone: string, keep: Event -> bool)
    requires forall e :: keep(e) <==> ZoneOf(e) == zone
    ensures InZone(events, zone) == Where(events, keep)
  {
    if events != [] {
      InZoneIs(events[..|events| - 1], zone, keep);
      hide ZoneOf;
    }
  }

  lemma EventIs(p: Placed, axisY: real)
    ensures var y := axisY + 26.0;
            var low := y + BlockHeight(p.event.name, p.width, NAME) + 2.0;
            && EventShapes(p, axisY)
               == [Dot(p.x, axisY, 7.0)]
                  + (BlockShapes(p.event.name, p.x, y, p.width, NAME)
                     + OptionalShapes(p.event.note, p.x, low, p.width, REMARK))
            && EventSaid(p.event, p.width)
               == [Said(p.event.name, p.width, NAME)] + Optional(p.event.note, p.width, REMARK)
  {
    hide BlockShapes, BlockHeight, Blank, Optional;
    var name := BlockShapes(p.event.name, p.x, axisY + 26.0, p.width, NAME);
    assert [] + name == name && name + [] == name;
  }

  lemma EventSpells(p: Placed, axisY: real)
    ensures Spells(EventShapes(p, axisY), EventSaid(p.event, p.width))
  {
    hide *;
    EachTakesALine();
    var e, y := p.event, axisY + 26.0;
    var low := y + BlockHeight(e.name, p.width, NAME) + 2.0;
    EventIs(p, axisY);
    BlockSpells(e.name, p.x, y, p.width, NAME);
    OptionalSpells(e.note, p.x, low, p.width, REMARK);
    TwoSpell(EventShapes(p, axisY), EventSaid(e, p.width), Dot(p.x, axisY, 7.0),
             BlockShapes(e.name, p.x, y, p.width, NAME), [Said(e.name, p.width, NAME)],
             OptionalShapes(e.note, p.x, low, p.width, REMARK), Optional(e.note, p.width, REMARK));
  }

  // The shapes of a list of placed events.
  function PlacedShapes(list: seq<Placed>, axisY: real): seq<Shape> {
    if list == [] then [] else PlacedShapes(list[..|list| - 1], axisY) + EventShapes(list[|list| - 1], axisY)
  }

  lemma {:induction false} PlacedJoined(a: seq<Placed>, b: seq<Placed>, axisY: real)
    ensures PlacedShapes(a + b, axisY) == PlacedShapes(a, axisY) + PlacedShapes(b, axisY)
  {
    hide EventShapes;
    if b == [] {
      assert a + b == a;
    } else {
      var n := |b| - 1;
      PlacedJoined(a, b[..n], axisY);
      PlacedGrows(a + b[..n], b[n], axisY);
      PlacedGrows(b[..n], b[n], axisY);
      assert a + b == (a + b[..n]) + [b[n]] && b == b[..n] + [b[n]];
      Associates(PlacedShapes(a, axisY), PlacedShapes(b[..n], axisY), EventShapes(b[n], axisY));
    }
  }

  lemma PlacedGrows(list: seq<Placed>, p: Placed, axisY: real)
    ensures PlacedShapes(list + [p], axisY) == PlacedShapes(list, axisY) + EventShapes(p, axisY)
  {
    hide EventShapes;
    assert (list + [p])[..|list|] == list;
  }

  lemma {:induction false} WithEventsDraws(d: Drawing, list: seq<Placed>, axisY: real)
    ensures WithEvents(d, list, axisY).shapes == d.shapes + PlacedShapes(list, axisY)
  {
    hide EventShapes, EventTexts;
    if list != [] { WithEventsDraws(d, list[..|list| - 1], axisY); }
  }

  lemma {:induction false} SpanSpells(list: seq<Event>, placed: seq<Placed>, box: Length, axisY: real)
    requires |placed| == |list| && forall i | 0 <= i < |list| :: placed[i].event == list[i] && placed[i].width == box
    ensures Spells(PlacedShapes(placed, axisY), SpanTexts(list, box))
  {
    hide Spells, EventShapes, EventSaid;
    if list == [] {
      NoLinesNoText([]);
    } else {
      var n := |list| - 1;
      SpanSpells(list[..n], placed[..n], box, axisY);
      EventSpells(placed[n], axisY);
      SpellsBoth(PlacedShapes(placed[..n], axisY), SpanTexts(list[..n], box), EventShapes(placed[n], axisY),
                 EventSaid(list[n], box));
    }
  }

  lemma ZoneSpells(list: seq<Event>, from: real, to: real, axisY: real)
    requires from <= to
    ensures Spells(PlacedShapes(InSpan(list, from, to), axisY), SpanTexts(list, SpanBox(to - from, |list|)))
  {
    hide Spells, EventX, PlacedShapes, SpanTexts;
    SpanSpells(list, InSpan(list, from, to), EventWidth(from, to, |list|), axisY);
  }

  lemma AxisIs(axisY: real, top: real)
    ensures Axis(axisY, top)
            == Strokes(axisY, top) + BlockShapes("NOW", NOW_X, top - 10.0, 80.0, MARK)
               + BlockShapes("Past", LEFT, axisY + 14.0, 80.0, END)
               + BlockShapes("Future", RIGHT - 60.0, axisY + 14.0, 80.0, END)
    ensures forall s | s in Strokes(axisY, top) :: Silent(s)
    ensures AxisTexts() == [Said("NOW", 80.0, MARK), Said("Past", 80.0, END), Said("Future", 80.0, END)]
  {
    hide BlockShapes;
  }

  lemma AxisSpells(axisY: real, top: real)
    ensures Spells(Axis(axisY, top), AxisTexts())
  {
    hide *;
    EachTakesALine();
    AxisIs(axisY, top);
    BlockSpells("NOW", NOW_X, top - 10.0, 80.0, MARK);
    BlockSpells("Past", LEFT, axisY + 14.0, 80.0, END);
    BlockSpells("Future", RIGHT - 60.0, axisY + 14.0, 80.0, END);
    ThreeMarks(Strokes(axisY, top), BlockShapes("NOW", NOW_X, top - 10.0, 80.0, MARK),
               BlockShapes("Past", LEFT, axisY + 14.0, 80.0, END),
               BlockShapes("Future", RIGHT - 60.0, axisY + 14.0, 80.0, END),
               Said("NOW", 80.0, MARK), Said("Past", 80.0, END), Said("Future", 80.0, END));
  }

  lemma ThreeMarks(back: seq<Shape>, a: seq<Shape>, b: seq<Shape>, c: seq<Shape>, ta: Said, tb: Said, tc: Said)
    requires (forall s | s in back :: Silent(s)) && Spells(a, [ta]) && Spells(b, [tb]) && Spells(c, [tc])
    ensures Spells(back + a + b + c, [ta, tb, tc])
  {
    hide Spells;
    SpellsBehind(back, a, [ta]);
    SpellsBoth(back + a, [ta], b, [tb]);
    SpellsBoth(back + a + b, [ta] + [tb], c, [tc]);
    assert [ta] + [tb] + [tc] == [ta, tb, tc];
  }

  lemma PlacesJoined(a: seq<Placed>, b: seq<Placed>, c: seq<Placed>, axisY: real, ta: seq<Said>, tb: seq<Said>,
      tc: seq<Said>)
    requires Spells(PlacedShapes(a, axisY), ta) && Spells(PlacedShapes(b, axisY), tb)
             && Spells(PlacedShapes(c, axisY), tc)
    ensures Spells(PlacedShapes(a + b + c, axisY), ta + tb + tc)
  {
    hide *;
    PlacedJoined(a + b, c, axisY);
    PlacedJoined(a, b, axisY);
    SpellsBoth(PlacedShapes(a, axisY), ta, PlacedShapes(b, axisY), tb);
    SpellsBoth(PlacedShapes(a + b, axisY), ta + tb, PlacedShapes(c, axisY), tc);
  }

  lemma PlacesAre(events: seq<Event>)
    ensures var shown := FirstOf(events, 6);
            Places(events) == InSpan(PastOf(shown), 52.0, 370.0) + InSpan(NowOf(shown), 320.0, 480.0)
                              + InSpan(FutureOf(shown), 430.0, 748.0)
  {
    var shown := AtMost(events, 6);
    assert shown == FirstOf(events, 6);
    InZoneIs(shown, "past", (e: Event) => e.zone == "past");
    InZoneIs(shown, "now", (e: Event) => e.zone != "past" && e.zone != "future");
    InZoneIs(shown, "future", (e: Event) => e.zone == "future");
    hide InZone, Where;
    assert AtMost(InZone(shown, "now"), 1) == NowOf(shown);
  }

  lemma ZonesTextsAre(events: seq<Event>)
    ensures var shown := FirstOf(events, 6);
            var past, now, future := PastOf(shown), NowOf(shown), FutureOf(shown);
            ZonesTexts(events) == SpanTexts(past, SpanBox(318.0, |past|)) + SpanTexts(now, SpanBox(160.0, |now|))
                                  + SpanTexts(future, SpanBox(318.0, |future|))
  {
  }

  lemma PlacesSpell(events: seq<Event>, axisY: real)
    ensures Spells(PlacedShapes(Places(events), axisY), ZonesTexts(events))
  {
    hide *;
    var shown := FirstOf(events, 6);
    var past, now, future := PastOf(shown), NowOf(shown), FutureOf(shown);
    PlacesAre(events);
    ZonesTextsAre(events);
    ZoneSpells(past, 52.0, 370.0, axisY);
    ZoneSpells(now, 320.0, 480.0, axisY);
    ZoneSpells(future, 430.0, 748.0, axisY);
    PlacesJoined(InSpan(past, 52.0, 370.0), InSpan(now, 320.0, 480.0), InSpan(future, 430.0, 748.0), axisY,
                 SpanTexts(past, SpanBox(318.0, |past|)), SpanTexts(now, SpanBox(160.0, |now|)),
                 SpanTexts(future, SpanBox(318.0, |future|)));
  }

  lemma TimelineIs(before: seq<Shape>, events: seq<Event>, top: real)
    ensures WithTimeline(before, events, top).shapes
            == before + (Axis(top + 70.0, top) + PlacedShapes(Places(events), top + 70.0))
  {
    WithEventsDraws(Drawing(before + Axis(top + 70.0, top), top + 110.0), Places(events), top + 70.0);
    hide Axis, PlacedShapes, Places, WithEvents;
    Associates(before, Axis(top + 70.0, top), PlacedShapes(Places(events), top + 70.0));
  }

  lemma TimelineSpells(events: seq<Event>, top: real)
    ensures Spells(Axis(top + 70.0, top) + PlacedShapes(Places(events), top + 70.0), TimelineTexts(events))
  {
    hide AxisTexts, ZonesTexts, Axis, PlacedShapes, Places, Spells;
    AxisSpells(top + 70.0, top);
    PlacesSpell(events, top + 70.0);
    SpellsBoth(Axis(top + 70.0, top), AxisTexts(), PlacedShapes(Places(events), top + 70.0), ZonesTexts(events));
  }

  // ---- chips -----------------------------------------------------------------------------

  /** A tag on its chip: as it is, or if it is wider than the widest chip's inside a prefix with an ellipsis. */
  predicate TagShown(shown: string, tag: string) {
    || shown == tag
    || (TextWidth(tag, 14.0, false) > 712.0 && exists k | 1 <= k <= |tag| :: shown == tag[..k] + ELLIPSIS)
  }

  predicate ShowsTags(chips: seq<Shape>, tags: seq<string>) {
    |chips| == |tags| && forall i | 0 <= i < |tags| :: chips[i].Chip? && TagShown(chips[i].text, tags[i])
  }

  function NotBlank(tags: seq<string>): seq<string> {
    if tags == [] then []
    else var n := |tags| - 1; NotBlank(tags[..n]) + if AllSpaces(tags[n]) then [] else [Trim(tags[n])]
  }

  lemma {:induction false} CleanTagsAre(tags: seq<string>)
    ensures CleanTags(tags) == FirstOf(NotBlank(tags), 8)
  {
    if tags != [] {
      var n := |tags| - 1;
      CleanTagsAre(tags[..n]);
      TrimOfSpaces(tags[n]);
      hide AllSpaces, Trim;
    }
  }

  // The chips of these cells, wherever they are.
  predicate Labels(chips: seq<Shape>, cells: seq<Cell>) {
    |chips| == |cells| && forall i | 0 <= i < |cells| ::
        chips[i].Chip? && chips[i].text == ChipAt(cells[i], 0.0, 0.0).text
  }

  lemma {:induction false} RowLabels(row: seq<Cell>, x: real, y: real)
    ensures Labels(RowShapes(row, x, y), row)
  {
    hide RowEnd, Shortened;
    if row != [] { RowLabels(row[..|row| - 1], x, y); }
  }

  lemma LabelsBoth(a: seq<Shape>, ca: seq<Cell>, b: seq<Shape>, cb: seq<Cell>)
    requires Labels(a, ca) && Labels(b, cb)
    ensures Labels(a + b, ca + cb)
  {
    hide ChipAt;
  }

  lemma {:induction false} RowsLabels(rows: seq<seq<Cell>>, top: real)
    ensures Labels(ChipShapes(rows, top), Flatten(rows))
  {
    assert Labels([], []);
    hide RowShapes, RowLeft, RowTop, Labels;
    if rows != [] {
      var n := |rows| - 1;
      RowsLabels(rows[..n], top);
      RowLabels(rows[n], RowLeft(rows[n]), RowTop(top, n));
      LabelsBoth(ChipShapes(rows[..n], top), Flatten(rows[..n]),
                 RowShapes(rows[n], RowLeft(rows[n]), RowTop(top, n)), rows[n]);
    }
  }

  lemma ChipShowsTag(tag: string)
    ensures TagShown(ChipAt(ChipCell(tag), 0.0, 0.0).text, tag)
  {
    hide TextWidth;
    if TextWidth(tag, 14.0, false) > 712.5 { ShortenedIsLongest(tag, 712.0, 14.0); }
  }

  lemma ChipsShowTags(tags: seq<string>, top: real)
    ensures ShowsTags(ChipShapes(ChipRows(tags), top), tags)
  {
    var cells, rows := ChipCells(tags), ChipRows(tags);
    GreedyKeepsAndFits(cells, CHIP_GAP, INNER_W);
    RowsLabels(rows, top);
    hide ChipCell, ChipCells, ChipShapes, ChipAt, TagShown, Greedy, ChipRows;
    forall i | 0 <= i < |tags| ensures TagShown(ChipShapes(rows, top)[i].text, tags[i]) { ChipShowsTag(tags[i]); }
  }

  // ---- the whole diagram -----------------------------------------------------------------

  function HeaderTexts(spec: Spec): seq<Said> {
    [Said(spec.title, 736.0, Style(24.0, true, Middle, 2))]
    + Optional(spec.rule, 696.0, Style(16.0, false, Middle, 3))
  }

  /** What is between the header and the tags: a timeline's marks and events, or up to three columns. */
  function ContentTexts(spec: Spec): seq<Said> {
    if spec.kind == "timeline" && spec.events != [] then TimelineTexts(spec.events)
    else if spec.panels == [] then []
    else var shown := FirstOf(spec.panels, 3); PanelsTexts(shown, Inner(|shown|))
  }

  function FooterTexts(spec: Spec): seq<Said> { Optional(spec.footer, 736.0, Style(14.0, false, Middle, 2)) }

  /** The tags that are not blank, trimmed, at most eight. */
  function TagsOf(spec: Spec): seq<string> { FirstOf(NotBlank(spec.tags), 8) }

  /** A drawing that says a spec: title, rule and contents, then the tags on chips, then the footer. */
  ghost predicate SaysSpec(shapes: seq<Shape>, spec: Spec) {
    exists above, chips, below ::
      && shapes == above + chips + below
      && Spells(above, HeaderTexts(spec) + ContentTexts(spec)) && ShowsTags(chips, TagsOf(spec))
      && Spells(below, FooterTexts(spec))
  }

  lemma HeaderIs(spec: Spec)
    ensures var y := VIS_PAD + BlockHeight(spec.title, INNER_W, TITLE) + 6.0;
            && Header(spec).shapes == BlockShapes(spec.title, 400.0, VIS_PAD, INNER_W, TITLE)
                                      + OptionalShapes(spec.rule, 400.0, y, INNER_W - 40.0, RULE)
            && HeaderTexts(spec) == [Said(spec.title, INNER_W, TITLE)] + Optional(spec.rule, INNER_W - 40.0, RULE)
  {
    hide BlockShapes, BlockHeight, Blank, Optional;
    var title := BlockShapes(spec.title, 400.0, VIS_PAD, INNER_W, TITLE);
    assert [] + title == title && title + [] == title;
  }

  lemma HeaderSpells(spec: Spec)
    ensures Spells(Header(spec).shapes, HeaderTexts(spec))
  {
    hide *;
    EachTakesALine();
    var y := VIS_PAD + BlockHeight(spec.title, INNER_W, TITLE) + 6.0;
    HeaderIs(spec);
    BlockSpells(spec.title, 400.0, VIS_PAD, INNER_W, TITLE);
    RuleSpells(spec, y);
    SpellsBoth(BlockShapes(spec.title, 400.0, VIS_PAD, INNER_W, TITLE), [Said(spec.title, INNER_W, TITLE)],
               OptionalShapes(spec.rule, 400.0, y, INNER_W - 40.0, RULE), Optional(spec.rule, INNER_W - 40.0, RULE));
  }

  lemma RuleSpells(spec: Spec, y: real)
    ensures Spells(OptionalShapes(spec.rule, 400.0, y, INNER_W - 40.0, RULE), Optional(spec.rule, INNER_W - 40.0, RULE))
  {
    hide Spells, OptionalShapes, Optional;
    OptionalSpells(spec.rule, 400.0, y, INNER_W - 40.0, RULE);
  }

  // Everything above the chips.
  function Above(spec: Spec): Drawing {
    var head := Header(spec);
    if IsTimeline(spec) then WithTimeline(head.shapes, spec.events, head.bottom + 18.0)
    else WithPanels(head.shapes, spec.panels, head.bottom + 18.0)
  }

  lemma AboveSpells(spec: Spec)
    ensures Spells(Above(spec).shapes, HeaderTexts(spec) + ContentTexts(spec))
  {
    var head := Header(spec);
    var top := head.bottom + 18.0;
    HeaderSpells(spec);
    if IsTimeline(spec) {
      TimelineIs(head.shapes, spec.events, top);
      TimelineSpells(spec.events, top);
      hide Header, Spells, WithTimeline, TimelineTexts, HeaderTexts, Axis, PlacedShapes, Places;
      SpellsBoth(head.shapes, HeaderTexts(spec), Axis(top + 70.0, top) + PlacedShapes(Places(spec.events), top + 70.0),
                 TimelineTexts(spec.events));
    } else {
      WithPanelsSpells(head.shapes, HeaderTexts(spec), spec, top);
    }
  }

  lemma WithPanelsSpells(before: seq<Shape>, said: seq<Said>, spec: Spec, top: real)
    requires Spells(before, said) && !IsTimeline(spec)
    ensures Spells(WithPanels(before, spec.panels, top).shapes, said + ContentTexts(spec))
  {
    hide Spells, PanelsTexts, ColumnsShapes, MaxHeight;
    if spec.panels == [] {
      assert said + [] == said;
    } else {
      var shown := AtMost(spec.panels, 3);
      assert shown == FirstOf(spec.panels, 3);
      var width := WidthOf(|shown|);
      var height := MaxHeight(shown, width - 36.0) + 40.0;
      PanelsSpell(shown, top, width, height);
      SpellsBoth(before, said, ColumnsShapes(shown, top, width, height), PanelsTexts(shown, width - 36.0));
    }
  }

  function ChipsBelow(tags: seq<string>, y: real): seq<Shape> {
    if tags == [] then [] else ChipShapes(ChipRows(tags), y)
  }

  lemma ChipsBelowShow(spec: Spec, y: real)
    ensures ShowsTags(ChipsBelow(CleanTags(spec.tags), y), TagsOf(spec))
  {
    CleanTagsAre(spec.tags);
    ChipsShowTags(CleanTags(spec.tags), y);
    hide ChipShapes, ChipRows, CleanTags, NotBlank;
  }

  lemma WithTags(d: Drawing, tags: seq<string>)
    ensures var e := if tags == [] then d else WithChips(d.shapes, tags, d.bottom + 16.0);
            e.shapes == d.shapes + ChipsBelow(tags, d.bottom + 16.0)
  {
    hide ChipShapes, ChipRows, RowTop;
    assert d.shapes + [] == d.shapes;
  }

  lemma WithFooterIs(d: Drawing, spec: Spec)
    ensures exists y :: WithFooter(d, spec).shapes == d.shapes + ChipsBelow(CleanTags(spec.tags), d.bottom + 16.0)
                                                      + OptionalShapes(spec.footer, 400.0, y, INNER_W, FOOTER)
  {
    var tags := CleanTags(spec.tags);
    WithTags(d, tags);
    hide WithChips, ChipsBelow, CleanTags, BlockShapes, BlockHeight, Blank;
    var e := if tags == [] then d else WithChips(d.shapes, tags, d.bottom + 16.0);
    assert e.shapes + [] == e.shapes;
    assert WithFooter(d, spec).shapes
        == e.shapes + OptionalShapes(spec.footer, 400.0, e.bottom + 14.0, INNER_W, FOOTER);
  }

  lemma AboveIs(spec: Spec)
    ensures WithFooter(Above(spec), spec) == Diagram(spec)
  {
    hide WithFooter, Header, WithTimeline, WithPanels;
  }

  /** A diagram says its spec. */
  lemma DiagramSays(spec: Spec)
    ensures SaysSpec(Diagram(spec).shapes, spec)
  {
    var d := Above(spec);
    AboveIs(spec);
    AboveSpells(spec);
    WithFooterIs(d, spec);
    hide Diagram, WithFooter, Above, Spells, ShowsTags, HeaderTexts, ContentTexts, Optional, OptionalShapes, TagsOf,
      ChipsBelow, CleanTags;
    var chips := ChipsBelow(CleanTags(spec.tags), d.bottom + 16.0);
    ChipsBelowShow(spec, d.bottom + 16.0);
    var y :| Diagram(spec).shapes == d.shapes + chips + OptionalShapes(spec.footer, 400.0, y, INNER_W, FOOTER);
    OptionalSpells(spec.footer, 400.0, y, INNER_W, FOOTER);
  }
}
