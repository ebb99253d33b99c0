/** Layout: what a grammar diagram draws and where - text blocks, columns measured before they are
    drawn, rows of chips, a timeline - and the whole diagram they make.

    Models apps/api/internal/ai/grammar_visual_render.go with coordinates as reals. Colours, corner
    radii, escaping and the SVG text itself are left out. */
module Layout {
  import opened Text
  import opened Rows
  import opened Wrapping

  const VIS_W: Length := 800.0
  const VIS_PAD: Length := 32.0
  const VIS_GAP: Length := 20.0
  const INNER_W: Length := 736.0  // between the margins

  datatype Anchor = Start | Middle
  datatype Style = Style(size: Length, heavy: bool, anchor: Anchor, maxLines: nat)

  datatype Item = Item(text: string, note: string)
  datatype Panel = Panel(heading: string, subheading: string, items: seq<Item>)
  datatype Event = Event(name: string, zone: string, note: string)
  datatype Spec = Spec(
    kind: string,
    title: string,
    rule: string,
    panels: seq<Panel>,
    events: seq<Event>,
    tags: seq<string>,
    footer: string)

  datatype Shape =
    | Line(x: real, top: real, style: Style, words: seq<Word>)
    | Dot(cx: real, cy: real, r: real)
    | Column(x: real, y: real, w: real, h: real)
    | Chip(x: real, y: real, w: real, text: string)
    | Stroke(x1: real, y1: real, x2: real, y2: real)

  predicate Blank(s: string) { Trim(s) == "" }

  // ---- marked text -----------------------------------------------------------------------

  function Split(s: string): (parts: seq<string>)
    ensures parts != []
  {
    if |s| < 2 then [s]
    else if s[..2] == "**" then [""] + Split(s[2..])
    else var rest := Split(s[1..]); [[s[0]] + rest[0]] + rest[1..]
  }

  function WordsOf(texts: seq<string>, bold: bool): seq<Word> {
    seq(|texts|, i requires 0 <= i < |texts| => Word(texts[i], bold))
  }

  // Every second part is marked.
  function Marked(parts: seq<string>): seq<Word> {
    if parts == [] then []
    else var n := |parts| - 1; Marked(parts[..n]) + WordsOf(Fields(parts[n]), n % 2 == 1)
  }

  function MarkedWords(text: string): seq<Word> { Marked(Split(text)) }

  method SplitMarked(text: string) returns (out: seq<Word>)
    ensures out == MarkedWords(text)
  {
    hide Fields, Split, WordsOf;
    out := [];
    var parts, bold := Split(text), false;
    for i := 0 to |parts|
      invariant out == Marked(parts[..i])
      invariant i > 0 ==> bold == ((i - 1) % 2 == 1)
      invariant i == 0 ==> !bold
    {
      assert parts[..i + 1][..i] == parts[..i];
      if i > 0 {
        bold := !bold;
      }
      var fields := Fields(parts[i]);
      out := out + WordsOf(fields, bold);
    }
    assert parts[..|parts|] == parts;
  }

  // ---- text blocks -----------------------------------------------------------------------

  function EndInEllipsis(line: seq<Cell>): seq<Cell>
    requires line != []
  {
    var n := |line| - 1;
    line[..n] + [line[n].(word := Word(TrimRightAny(line[n].word.text, ".,;:") + ELLIPSIS, line[n].word.bold))]
  }

  function Kept(lines: seq<seq<Cell>>, maxLines: nat): (kept: seq<seq<Cell>>)
    requires maxLines > 0 && [] !in lines
    ensures |kept| == if |lines| < maxLines then |lines| else maxLines
  {
    if |lines| <= maxLines then lines
    else
      assert lines[maxLines - 1] in lines;
      lines[..maxLines - 1] + [EndInEllipsis(lines[maxLines - 1])]
  }

  function BlockLines(text: string, box: Length, st: Style): seq<seq<Cell>>
    requires st.maxLines > 0
  {
    var words := MarkedWords(Trim(text));
    WrappingIsOptimal(words, box, st.size, st.heavy, []);
    Kept(Lines(words, box, st.size, st.heavy), st.maxLines)
  }

  function LineHeight(st: Style): Length { st.size * 1.35 }

  function Stacked(n: nat, h: Length): Length { n as real * h }

  function BlockHeight(text: string, box: Length, st: Style): Length
    requires st.maxLines > 0
  {
    Stacked(|BlockLines(text, box, st)|, LineHeight(st))
  }

  function LineShapes(lines: seq<seq<Cell>>, x: real, y: real, st: Style): (shapes: seq<Shape>)
    ensures |shapes| == |lines|
  {
    seq(|lines|, i requires 0 <= i < |lines| => Line(x, y + Stacked(i, LineHeight(st)), st, TextOf(lines[i])))
  }

  function BlockShapes(text: string, x: real, y: real, box: Length, st: Style): seq<Shape>
    requires st.maxLines > 0
  {
    LineShapes(BlockLines(text, box, st), x, y, st)
  }

  // ---- one column's contents -------------------------------------------------------------

  const HEADING := Style(22.0, true, Middle, 2)
  const SUBHEADING := Style(14.0, false, Middle, 3)
  const ITEM := Style(17.0, false, Start, 3)
  const NOTE := Style(13.0, false, Start, 2)

  type ColumnWidth = w: real | w >= 60.0 witness 60.0

  function ItemHeight(item: Item, width: ColumnWidth): Length {
    if Blank(item.text) then 0.0
    else
      6.0 + BlockHeight(item.text, width - 16.0, ITEM)
      + if Blank(item.note) then 0.0 else 1.0 + BlockHeight(item.note, width - 16.0, NOTE)
  }

  function ItemShapes(item: Item, x: real, y: real, width: ColumnWidth): seq<Shape> {
    if Blank(item.text) then []
    else
      [Dot(x + 4.0, y + 6.0 + 11.0, 3.5)]
      + BlockShapes(item.text, x + 16.0, y + 6.0, width - 16.0, ITEM)
      + if Blank(item.note) then []
        else
          var low := y + 6.0 + BlockHeight(item.text, width - 16.0, ITEM) + 1.0;
          BlockShapes(item.note, x + 16.0, low, width - 16.0, NOTE)
  }

  function ItemsHeight(items: seq<Item>, width: ColumnWidth): Length {
    if items == [] then 0.0
    else var n := |items| - 1; ItemsHeight(items[..n], width) + ItemHeight(items[n], width)
  }

  function ItemsShapes(items: seq<Item>, x: real, y: real, width: ColumnWidth): seq<Shape> {
    if items == [] then []
    else
      var n := |items| - 1;
      ItemsShapes(items[..n], x, y, width) + ItemShapes(items[n], x, y + ItemsHeight(items[..n], width), width)
  }

  function AtMost<T>(s: seq<T>, n: nat): (r: seq<T>)
    ensures r <= s && |r| <= n
  {
    if |s| > n then s[..n] else s
  }

  function SubHeight(p: Panel, width: ColumnWidth): Length {
    if Blank(p.subheading) then 0.0 else 2.0 + BlockHeight(p.subheading, width, SUBHEADING)
  }

  function HeadHeight(p: Panel, width: ColumnWidth): Length {
    BlockHeight(p.heading, width, HEADING) + SubHeight(p, width) + 12.0
  }

  function HeadShapes(p: Panel, x: real, top: real, width: ColumnWidth): seq<Shape> {
    BlockShapes(p.heading, x + width / 2.0, top, width, HEADING)
    + if Blank(p.subheading) then []
      else
        var low := top + BlockHeight(p.heading, width, HEADING) + 2.0;
        BlockShapes(p.subheading, x + width / 2.0, low, width, SUBHEADING)
  }

  /** How tall a column's contents are: no position enters into it. */
  function BodyHeight(p: Panel, width: ColumnWidth): Length {
    HeadHeight(p, width) + ItemsHeight(AtMost(p.items, 6), width)
  }

  function BodyShapes(p: Panel, x: real, top: real, width: ColumnWidth): seq<Shape> {
    HeadShapes(p, x, top, width) + ItemsShapes(AtMost(p.items, 6), x, top + HeadHeight(p, width), width)
  }

  // ---- columns ---------------------------------------------------------------------------

  function WidthOf(n: nat): (w: real)
    requires 1 <= n <= 3
    ensures w >= 232.0
    ensures n as real * w + (n - 1) as real * VIS_GAP == INNER_W
  {
    if n == 1 then 736.0 else if n == 2 then 358.0 else 232.0
  }

  function MaxHeight(panels: seq<Panel>, width: ColumnWidth): (h: Length)
    ensures forall p | p in panels :: BodyHeight(p, width) <= h
  {
    if panels == [] then 0.0
    else
      var n := |panels| - 1;
      assert panels == panels[..n] + [panels[n]];
      var h, rest := BodyHeight(panels[n], width), MaxHeight(panels[..n], width);
      if h > rest then h else rest
  }

  function ColumnX(i: nat, width: real): real { VIS_PAD + i as real * (width + VIS_GAP) }

  function ColumnShapes(p: Panel, x: real, top: real, width: real, height: real): seq<Shape>
    requires width >= 232.0
  {
    [Column(x, top, width, height)] + BodyShapes(p, x + 18.0, top + 22.0, width - 36.0)
  }

  function ColumnsShapes(panels: seq<Panel>, top: real, width: real, height: real): seq<Shape>
    requires width >= 232.0
  {
    if panels == [] then []
    else
      var n := |panels| - 1;
      ColumnsShapes(panels[..n], top, width, height) + ColumnShapes(panels[n], ColumnX(n, width), top, width, height)
  }

  /** What is drawn so far and the y below it. */
  datatype Drawing = Drawing(shapes: seq<Shape>, bottom: real)

  function WithPanels(before: seq<Shape>, panels: seq<Panel>, top: real): Drawing {
    if panels == [] then Drawing(before, top)
    else
      var shown := AtMost(panels, 3);
      var width := WidthOf(|shown|);
      var height := MaxHeight(shown, width - 36.0) + 40.0;
      Drawing(before + ColumnsShapes(shown, top, width, height), top + height)
  }

  // ---- chips -----------------------------------------------------------------------------

  const CHIP_SIZE: Length := 14.0
  const CHIP_PAD: Length := 12.0
  const CHIP_H: Length := 30.0
  const CHIP_GAP: Length := 8.0

  function ChipCell(tag: string): (c: Cell)
    ensures 24.0 <= c.width <= INNER_W
  {
    var w := TextWidth(tag, CHIP_SIZE, false) + 2.0 * CHIP_PAD;
    Cell(Word(tag, false), if w < INNER_W then w else INNER_W)
  }

  function ChipCells(tags: seq<string>): (cells: seq<Cell>)
    ensures |cells| == |tags|
    ensures forall i | 0 <= i < |tags| :: cells[i] == ChipCell(tags[i])
  {
    seq(|tags|, i requires 0 <= i < |tags| => ChipCell(tags[i]))
  }

  function ChipRows(tags: seq<string>): seq<seq<Cell>> {
    Greedy(ChipCells(tags), CHIP_GAP, INNER_W)
  }

  function ChipAt(c: Cell, x: real, y: real): Shape {
    Chip(x, y, c.width, Shortened(c.word.text, if c.width >= 24.0 then c.width - 24.0 else 0.0, CHIP_SIZE))
  }

  // The x after a row's first chips.
  function RowEnd(row: seq<Cell>, x: real): real {
    x + RowWidth(row, CHIP_GAP) + if row == [] then 0.0 else CHIP_GAP
  }

  function RowShapes(row: seq<Cell>, x: real, y: real): seq<Shape> {
    if row == [] then []
    else var n := |row| - 1; RowShapes(row[..n], x, y) + [ChipAt(row[n], RowEnd(row[..n], x), y)]
  }

  function RowLeft(row: seq<Cell>): real { (VIS_W - RowWidth(row, CHIP_GAP)) / 2.0 }

  function RowTop(top: real, i: nat): real { top + Stacked(i, 38.0) }

  function ChipShapes(rows: seq<seq<Cell>>, top: real): seq<Shape> {
    if rows == [] then []
    else
      var n := |rows| - 1;
      ChipShapes(rows[..n], top) + RowShapes(rows[n], RowLeft(rows[n]), RowTop(top, n))
  }

  function WithChips(before: seq<Shape>, tags: seq<string>, top: real): Drawing {
    var rows := ChipRows(tags);
    Drawing(before + ChipShapes(rows, top), RowTop(top, |rows|) - CHIP_GAP)
  }

  // ---- the whole diagram -----------------------------------------------------------------

  const TITLE := Style(24.0, true, Middle, 2)
  const RULE := Style(16.0, false, Middle, 3)
  const FOOTER := Style(14.0, false, Middle, 2)

  function WithBlock(before: seq<Shape>, text: string, x: real, y: real, box: Length, st: Style): Drawing
    requires st.maxLines > 0
  {
    Drawing(before + BlockShapes(text, x, y, box, st), y + BlockHeight(text, box, st))
  }

  function Header(spec: Spec): Drawing {
    var title := WithBlock([], spec.title, 400.0, VIS_PAD, INNER_W, TITLE);
    if Blank(spec.rule) then title
    else WithBlock(title.shapes, spec.rule, 400.0, title.bottom + 6.0, INNER_W - 40.0, RULE)
  }

  // Trimmed, blank ones dropped, at most eight.
  function CleanTags(tags: seq<string>): (r: seq<string>)
    ensures |r| <= 8
  {
    if tags == [] then []
    else
      var n := |tags| - 1;
      var r := CleanTags(tags[..n]);
      if |r| == 8 || Blank(tags[n]) then r else r + [Trim(tags[n])]
  }

  function WithFooter(d: Drawing, spec: Spec): Drawing {
    var tags := CleanTags(spec.tags);
    var e := if tags == [] then d else WithChips(d.shapes, tags, d.bottom + 16.0);
    if Blank(spec.footer) then e else WithBlock(e.shapes, spec.footer, 400.0, e.bottom + 14.0, INNER_W, FOOTER)
  }

  /** A diagram of columns. */
  function PanelsDiagram(spec: Spec): Drawing {
    var head := Header(spec);
    WithFooter(WithPanels(head.shapes, spec.panels, head.bottom + 18.0), spec)
  }
}
