/** Wrapping: estimating how wide text is, shortening it to a box and wrapping it into lines.

    Models apps/api/internal/ai/grammar_visual_render.go, with widths as reals. */
module Wrapping {
  import opened Rows

  const ELLIPSIS := "\U{2026}"

  // ---- how wide text is ------------------------------------------------------------------

  function Em(c: char): Length {
    if c == ' ' then 0.28
    else if c in "iljtf.,;:'!|()[]" then 0.32
    else if c in "mwMW" then 0.86
    else if 'A' <= c <= 'Z' then 0.68
    else 0.56
  }

  function Ems(s: string): Length {
    if s == "" then 0.0 else Ems(s[..|s| - 1]) + Em(s[|s| - 1])
  }

  /** The estimated width of s at a font size. */
  function TextWidth(s: string, size: Length, bold: bool): Length {
    Scaled(Ems(s), size, bold)
  }

  function Scaled(em: Length, size: Length, bold: bool): Length {
    (if bold then em * 1.07 else em) * size
  }

  method MeasureText(s: string, size: Length, bold: bool) returns (width: Length)
    ensures width == TextWidth(s, size, bold)
  {
    hide Em, Scaled;
    var w: Length := 0.0;
    for i := 0 to |s|
      invariant w == Ems(s[..i])
    {
      assert s[..i + 1][..i] == s[..i];
      w := w + Em(s[i]);
    }
    assert s[..|s|] == s;
    width := Scaled(w, size, bold);
  }

  lemma {:induction false} EmsOfJoined(a: string, b: string)
    ensures Ems(a + b) == Ems(a) + Ems(b)
  {
    if b == "" {
      assert a + b == a;
    } else {
      var n := |b| - 1;
      EmsOfJoined(a, b[..n]);
      assert (a + b)[..|a| + n] == a + b[..n];
    }
  }

  /** Text can only get wider by growing. */
  lemma LongerIsWider(a: string, b: string, size: Length, bold: bool)
    ensures TextWidth(a, size, bold) <= TextWidth(a + b, size, bold)
  {
    EmsOfJoined(a, b);
    hide Ems;
    WiderScales(Ems(a), Ems(a + b), size, bold);
  }

  lemma WiderScales(a: Length, b: Length, size: Length, bold: bool)
    requires a <= b
    ensures Scaled(a, size, bold) <= Scaled(b, size, bold)
  {
    assert (b - a) * size >= 0.0 && (b - a) * 1.07 * size >= 0.0;
  }

  // ---- shortening ------------------------------------------------------------------------

  predicate TooWide(s: string, n: nat, width: Length, size: Length)
    requires n <= |s|
  {
    TextWidth(s[..n] + ELLIPSIS, size, false) > width
  }

  function Longest(s: string, n: nat, width: Length, size: Length): (k: nat)
    requires n <= |s|
    ensures k <= n && (n > 0 ==> k > 0)
    ensures k <= 1 || !TooWide(s, k, width, size)
    ensures forall j | k < j <= n :: TooWide(s, j, width, size)
  {
    if n > 1 && TooWide(s, n, width, size) then Longest(s, n - 1, width, size) else n
  }

  function Shortened(s: string, width: Length, size: Length): string {
    if TextWidth(s, size, false) <= width + 0.5 then s else s[..Longest(s, |s|, width, size)] + ELLIPSIS
  }

  /** r is the longest prefix of s that leaves room for the ellipsis, and never less than one character. */
  predicate IsLongestFit(s: string, k: nat, width: Length, size: Length) {
    && 1 <= k <= |s|
    && (k > 1 ==> !TooWide(s, k, width, size))
    && forall j | k < j <= |s| :: TooWide(s, j, width, size)
  }

  lemma NothingIsNarrow(size: Length, bold: bool)
    ensures TextWidth("", size, bold) == 0.0
  {
  }

  lemma ShortenedIsLongest(s: string, width: Length, size: Length)
    requires TextWidth(s, size, false) > width + 0.5
    ensures exists k: nat :: IsLongestFit(s, k, width, size) && Shortened(s, width, size) == s[..k] + ELLIPSIS
  {
    hide TextWidth, TooWide;
    NothingIsNarrow(size, false);
    var k := Longest(s, |s|, width, size);
    assert IsLongestFit(s, k, width, size);
  }

  method Ellipsize(s: string, width: Length, size: Length) returns (r: string)
    ensures r == Shortened(s, width, size)
  {
    var w := MeasureText(s, size, false);
    if w <= width + 0.5 {
      return s;
    }
    var n := |s|;
    w := MeasureText(s[..n] + ELLIPSIS, size, false);
    while n > 1 && w > width
      invariant n <= |s| && w == TextWidth(s[..n] + ELLIPSIS, size, false)
      invariant Longest(s, n, width, size) == Longest(s, |s|, width, size)
    {
      n := n - 1;
      w := MeasureText(s[..n] + ELLIPSIS, size, false);
    }
    return s[..n] + ELLIPSIS;
  }

  // ---- wrapping --------------------------------------------------------------------------

  function CellOf(w: Word, box: Length, size: Length, heavy: bool): Cell {
    var width := TextWidth(w.text, size, heavy || w.bold);
    if width > box then Cell(Word(Shortened(w.text, box, size), w.bold), box) else Cell(w, width)
  }

  function Cells(words: seq<Word>, box: Length, size: Length, heavy: bool): (cells: seq<Cell>)
    ensures |cells| == |words|
    ensures forall i | 0 <= i < |words| :: cells[i] == CellOf(words[i], box, size, heavy)
  {
    seq(|words|, i requires 0 <= i < |words| => CellOf(words[i], box, size, heavy))
  }

  function Space(size: Length, heavy: bool): Length { TextWidth(" ", size, heavy) }

  function Lines(words: seq<Word>, box: Length, size: Length, heavy: bool): seq<seq<Cell>> {
    Greedy(Cells(words, box, size, heavy), Space(size, heavy), box)
  }

  /** Wrapping keeps every word, in order; the width accounted for each line is at most the box;
      and no other division of the words into lines that fit has fewer lines. */
  lemma WrappingIsOptimal(words: seq<Word>, box: Length, size: Length, heavy: bool, other: seq<seq<Cell>>)
    ensures Flatten(Lines(words, box, size, heavy)) == Cells(words, box, size, heavy)
    ensures RowsFit(Lines(words, box, size, heavy), Space(size, heavy), box)
    ensures [] !in Lines(words, box, size, heavy)
    ensures Flatten(other) == Cells(words, box, size, heavy) && RowsFit(other, Space(size, heavy), box)
            ==> |Lines(words, box, size, heavy)| <= |other|
  {
    hide TextWidth, Flatten, RowsFit, Greedy;
    var cells := Cells(words, box, size, heavy);
    forall c | c in cells ensures c.width <= box {}
    GreedyKeepsAndFits(cells, Space(size, heavy), box);
    if Flatten(other) == cells && RowsFit(other, Space(size, heavy), box) {
      GreedyIsOptimal(cells, other, Space(size, heavy), box);
    }
  }

  method WrapWords(words: seq<Word>, box: Length, size: Length, heavy: bool) returns (lines: seq<seq<Cell>>)
    ensures lines == Lines(words, box, size, heavy)
  {
    hide TextWidth, Shortened, Greedy, RowWidth, Place;
    ghost var cells, gap := Cells(words, box, size, heavy), Space(size, heavy);
    EmptyRow(gap);
    assert Greedy(cells[..0], gap, box) == [] by { NoCells(cells[..0], gap, box); }
    var space := MeasureText(" ", size, heavy);
    var done: seq<seq<Cell>>, line: seq<Cell>, lineW: Length := [], [], 0.0;
    for i := 0 to |words|
      invariant lineW == RowWidth(line, gap)
      invariant i > 0 ==> line != []
      invariant Greedy(cells[..i], gap, box) == if line == [] then done else done + [line]
      invariant line == [] ==> done == []
    {
      var w := words[i];
      var ww := MeasureText(w.text, size, heavy || w.bold);
      if ww > box {
        var text := Ellipsize(w.text, box, size);
        w := w.(text := text);
        ww := box;
      }
      var cell := Cell(w, ww);
      assert cell == cells[i];
      assert [] + [cell] == [cell];
      GreedyStep(cells, i, done, line, gap, box);
      RowGrows(line, cell, gap);
      RowGrows([], cell, gap);
      if line != [] && lineW + space + ww > box {
        done := done + [line];
        line, lineW := [], 0.0;
      }
      if line != [] {
        lineW := lineW + space;
      }
      line := line + [cell];
      lineW := lineW + ww;
    }
    assert cells[..|words|] == cells;
    if line != [] {
      done := done + [line];
    }
    return done;
  }

  lemma NoCells(cells: seq<Cell>, gap: Length, box: Length)
    requires cells == []
    ensures Greedy(cells, gap, box) == []
  {
  }

  lemma GreedyStep(cells: seq<Cell>, i: nat, done: seq<seq<Cell>>, line: seq<Cell>, gap: Length, box: Length)
    requires i < |cells|
    requires line == [] ==> done == []
    requires Greedy(cells[..i], gap, box) == if line == [] then done else done + [line]
    ensures Greedy(cells[..i + 1], gap, box)
            == if line != [] && RowWidth(line, gap) + gap + cells[i].width > box then done + [line] + [[cells[i]]]
               else done + [line + [cells[i]]]
  {
    hide RowWidth;
    assert cells[..i + 1][..i] == cells[..i];
    assert line == [] ==> line + [cells[i]] == [cells[i]] && done + [[cells[i]]] == [[cells[i]]];
    assert (done + [line])[..|done|] == done;
  }

  // ---- what is drawn against what is accounted -------------------------------------------

  function TextOf(line: seq<Cell>): (words: seq<Word>)
    ensures |words| == |line|
  {
    seq(|line|, i requires 0 <= i < |line| => line[i].word)
  }

  // The width a word takes when drawn.
  function WordWidth(w: Word, size: Length, heavy: bool): Length {
    TextWidth(w.text, size, heavy || w.bold)
  }

  /** A line as drawn: the space in front of a marked word is drawn in bold too. */
  function DrawnWidth(words: seq<Word>, size: Length, heavy: bool): Length {
    if words == [] then 0.0
    else
      var n := |words| - 1;
      DrawnWidth(words[..n], size, heavy)
      + (if n > 0 then Space(size, heavy || words[n].bold) else 0.0)
      + WordWidth(words[n], size, heavy)
  }

  // How many marked words of the line have a space in front of them.
  function MarkedGaps(words: seq<Word>): nat {
    if words == [] then 0
    else var n := |words| - 1; MarkedGaps(words[..n]) + if n > 0 && words[n].bold then 1 else 0
  }

  function ExtraSpace(size: Length, heavy: bool): real { Space(size, true) - Space(size, heavy) }

  // What the words of a line take beyond the width accounted for them.
  function Excess(line: seq<Cell>, size: Length, heavy: bool): real {
    if line == [] then 0.0
    else var n := |line| - 1; Excess(line[..n], size, heavy) + WordWidth(line[n].word, size, heavy) - line[n].width
  }

  lemma BoldSpace(size: Length, heavy: bool, bold: bool)
    ensures Space(size, heavy || bold) == Space(size, heavy) + if bold then ExtraSpace(size, heavy) else 0.0
  {
  }

  function Times(n: nat, x: real): real { n as real * x }

  lemma OneMoreTime(n: nat, x: real)
    ensures Times(n + 1, x) == Times(n, x) + x && Times(0, x) == 0.0
  {
  }

  lemma LineStep(line: seq<Cell>, size: Length, heavy: bool)
    requires line != []
    ensures var n := |line| - 1;
            var marked := n > 0 && line[n].word.bold;
            && TextOf(line)[..n] == TextOf(line[..n])
            && DrawnWidth(TextOf(line), size, heavy)
               == DrawnWidth(TextOf(line[..n]), size, heavy) + (if n > 0 then Space(size, heavy) else 0.0)
                  + (if marked then ExtraSpace(size, heavy) else 0.0) + WordWidth(line[n].word, size, heavy)
            && MarkedGaps(TextOf(line)) == MarkedGaps(TextOf(line[..n])) + (if marked then 1 else 0)
            && Excess(line, size, heavy)
               == Excess(line[..n], size, heavy) + WordWidth(line[n].word, size, heavy) - line[n].width
  {
    BoldSpace(size, heavy, line[|line| - 1].word.bold);
    assert TextOf(line)[..|line| - 1] == TextOf(line[..|line| - 1]);
    hide Space, ExtraSpace, WordWidth;
  }

  lemma NoLine(size: Length, heavy: bool)
    ensures TextOf([]) == [] && DrawnWidth([], size, heavy) == 0.0 && MarkedGaps([]) == 0
            && Excess([], size, heavy) == 0.0
    ensures RowWidth([], Space(size, heavy)) == 0.0
  {
  }

  /** A line is drawn exactly as wide as it is accounted, plus what its words take beyond their accounted
      widths, plus the little that each space in front of a marked word gains from being bold. */
  lemma {:induction false} DrawnIsAccounted(line: seq<Cell>, size: Length, heavy: bool)
    ensures DrawnWidth(TextOf(line), size, heavy)
            == RowWidth(line, Space(size, heavy)) + Excess(line, size, heavy)
               + Times(MarkedGaps(TextOf(line)), ExtraSpace(size, heavy))
  {
    hide *;
    NoLine(size, heavy);
    OneMoreTime(0, ExtraSpace(size, heavy));
    if line != [] {
      var n := |line| - 1;
      assert line[..n] + [line[n]] == line;
      DrawnIsAccounted(line[..n], size, heavy);
      LineStep(line, size, heavy);
      RowGrows(line[..n], line[n], Space(size, heavy));
      OneMoreTime(MarkedGaps(TextOf(line[..n])), ExtraSpace(size, heavy));
    }
  }

  // A cell accounted at the width its word takes.
  predicate Plain(c: Cell, size: Length, heavy: bool) { c.width == WordWidth(c.word, size, heavy) }

  lemma {:induction false} PlainExceedsNothing(line: seq<Cell>, size: Length, heavy: bool)
    requires forall c | c in line :: Plain(c, size, heavy)
    ensures Excess(line, size, heavy) == 0.0
  {
    if line != [] {
      hide WordWidth;
      assert line[|line| - 1] in line && forall c | c in line[..|line| - 1] :: c in line;
      PlainExceedsNothing(line[..|line| - 1], size, heavy);
    }
  }

  lemma {:induction false} NoMarkedGaps(words: seq<Word>)
    requires forall w | w in words :: !w.bold
    ensures MarkedGaps(words) == 0
  {
    if words != [] {
      assert words[|words| - 1] in words && forall w | w in words[..|words| - 1] :: w in words;
      NoMarkedGaps(words[..|words| - 1]);
    }
  }

  lemma {:induction false} InSomeRow(rows: seq<seq<Cell>>, row: seq<Cell>, c: Cell)
    requires row in rows && c in row
    ensures c in Flatten(rows)
  {
    var n := |rows| - 1;
    assert rows == rows[..n] + [rows[n]];
    if row != rows[n] { InSomeRow(rows[..n], row, c); }
  }

  // Every cell of a wrapped line was made from one of the words.
  lemma FromSomeWord(words: seq<Word>, box: Length, size: Length, heavy: bool, line: seq<Cell>, c: Cell)
    requires line in Lines(words, box, size, heavy) && c in line
    ensures exists w :: w in words && c == CellOf(w, box, size, heavy)
  {
    hide Greedy, Flatten, CellOf;
    WrappingIsOptimal(words, box, size, heavy, []);
    InSomeRow(Lines(words, box, size, heavy), line, c);
    var i :| 0 <= i < |words| && Cells(words, box, size, heavy)[i] == c;
    assert words[i] in words;
  }

  /** Nothing runs past the edge of a block whose words all fit it by themselves and are all of one
      weight. */
  lemma OneWeightFits(words: seq<Word>, box: Length, size: Length, heavy: bool, line: seq<Cell>)
    requires forall w | w in words :: WordWidth(w, size, heavy) <= box && (heavy || !w.bold)
    requires line in Lines(words, box, size, heavy)
    ensures DrawnWidth(TextOf(line), size, heavy) == RowWidth(line, Space(size, heavy)) <= box
  {
    hide TextWidth, DrawnWidth, RowWidth, MarkedGaps, Lines, Excess;
    WrappingIsOptimal(words, box, size, heavy, []);
    forall c | c in line ensures Plain(c, size, heavy) && (heavy || !c.word.bold) {
      FromSomeWord(words, box, size, heavy, line, c);
      var w :| w in words && c == CellOf(w, box, size, heavy);
    }
    DrawnIsAccounted(line, size, heavy);
    PlainExceedsNothing(line, size, heavy);
    OneMoreTime(0, ExtraSpace(size, heavy));
    if !heavy {
      forall w | w in TextOf(line) ensures !w.bold {
        var i :| 0 <= i < |line| && TextOf(line)[i] == w;
        assert line[i] in line;
      }
      NoMarkedGaps(TextOf(line));
    } else {
      HeavyHasNoExtra(size, MarkedGaps(TextOf(line)));
    }
  }

  lemma HeavyHasNoExtra(size: Length, n: nat)
    ensures Times(n, ExtraSpace(size, true)) == 0.0
  {
  }

  // ---- when one word fits ----------------------------------------------------------------

  lemma LongestIsOnlyOne(s: string, k: nat, width: Length, size: Length)
    requires IsLongestFit(s, k, width, size)
    ensures Longest(s, |s|, width, size) == k
  {
    hide TooWide;
    var n := Longest(s, |s|, width, size);
    assert !(n < k) && !(k < n);
  }

  /** A word is measured in its own weight but shortened in regular weight. In either weight it ends
      inside its box exactly when it fits, or is more than half a unit too wide in regular weight and its
      longest prefix with the ellipsis fits in its own. */
  lemma WordFitsIff(w: Word, box: Length, size: Length, heavy: bool, k: nat)
    requires TextWidth(w.text, size, false) > box + 0.5 ==> IsLongestFit(w.text, k, box, size)
    ensures WordWidth(CellOf(w, box, size, heavy).word, size, heavy) <= box
            <==> || WordWidth(w, size, heavy) <= box
                 || (TextWidth(w.text, size, false) > box + 0.5
                     && TextWidth(w.text[..k] + ELLIPSIS, size, heavy || w.bold) <= box)
  {
    BoldIsWider(w.text, size);
    hide TextWidth, IsLongestFit;
    if TextWidth(w.text, size, false) > box + 0.5 { LongestIsOnlyOne(w.text, k, box, size); }
  }

  lemma BoldIsWider(s: string, size: Length)
    ensures TextWidth(s, size, true) == 1.07 * TextWidth(s, size, false)
    ensures TextWidth(s, size, false) <= TextWidth(s, size, true)
  {
    assert Ems(s) * 1.07 * size == 1.07 * (Ems(s) * size);
  }

  lemma PrefixIsNarrower(s: string, k: nat, size: Length)
    requires 1 <= k <= |s|
    ensures TextWidth(s[..1] + ELLIPSIS, size, false) <= TextWidth(s[..k] + ELLIPSIS, size, false)
  {
    EmsOfJoined(s[..1], ELLIPSIS);
    EmsOfJoined(s[..k], ELLIPSIS);
    assert s[..k] == s[..1] + s[1..k];
    EmsOfJoined(s[..1], s[1..k]);
    hide Ems;
    WiderScales(Ems(s[..1] + ELLIPSIS), Ems(s[..k] + ELLIPSIS), size, false);
  }

  /** For an unmarked word in regular weight: when it fits, or is more than the tolerance too wide and
      has room for one character and the ellipsis. */
  lemma PlainWordFitsIff(text: string, box: Length, size: Length)
    ensures WordWidth(CellOf(Word(text, false), box, size, false).word, size, false) <= box
            <==> || TextWidth(text, size, false) <= box
                 || (TextWidth(text, size, false) > box + 0.5 && text != ""
                     && TextWidth(text[..1] + ELLIPSIS, size, false) <= box)
  {
    hide TextWidth;
    NothingIsNarrow(size, false);
    if TextWidth(text, size, false) > box + 0.5 {
      var k := Longest(text, |text|, box, size);
      PrefixIsNarrower(text, k, size);
    }
  }

  lemma SingleEms()
    ensures Ems("m") == 0.86 && Ems(ELLIPSIS) == 0.56
  {
  }

  lemma EmsOfMs()
    ensures Ems("m") == 0.86 && Ems("mm") == 1.72 && Ems("mmm") == 2.58 && Ems(ELLIPSIS) == 0.56
    ensures Ems("m" + ELLIPSIS) == 1.42 && Ems("mm" + ELLIPSIS) == 2.28 && Ems("mmm" + ELLIPSIS) == 3.14
  {
    SingleEms();
    hide Ems;
    EmsOfJoined("m", "m");
    EmsOfJoined("mm", "m");
    assert "m" + "m" == "mm" && "mm" + "m" == "mmm";
    EmsOfJoined("m", ELLIPSIS);
    EmsOfJoined("mm", ELLIPSIS);
    EmsOfJoined("mmm", ELLIPSIS);
  }

  /** Both ways a word in bold, marked or in a heading, ends outside its box: left whole because it is
      not too wide in regular weight, and shortened to what fits in regular weight only. */
  lemma BoldWordOverflows(heavy: bool, bold: bool)
    requires heavy || bold
    ensures var whole := CellOf(Word("mm", bold), 17.5, 10.0, heavy);
            whole.word.text == "mm" && whole.width == 17.5 < WordWidth(whole.word, 10.0, heavy)
    ensures var cut := CellOf(Word("mmm", bold), 23.0, 10.0, heavy);
            cut.word.text == "mm" + ELLIPSIS && cut.width == 23.0 < WordWidth(cut.word, 10.0, heavy)
  {
    EmsOfMs();
    hide Ems;
    assert "mmm"[..3] == "mmm" && "mmm"[..2] == "mm" && "mmm"[..1] == "m";
    assert IsLongestFit("mmm", 2, 23.0, 10.0);
    LongestIsOnlyOne("mmm", 2, 23.0, 10.0);
  }

  lemma SampleCells(words: seq<Word>, box: Length)
    requires words == [Word("a", false), Word("b", true)] && box == 1.4392
    ensures Cells(words, box, 1.0, false) == [Cell(words[0], 0.56), Cell(words[1], 0.5992)]
    ensures WordWidth(words[0], 1.0, false) == 0.56 && WordWidth(words[1], 1.0, false) == 0.5992
    ensures Space(1.0, false) == 0.28 && Space(1.0, true) == 0.2996
  {
    SampleEms();
    hide Ems;
  }

  lemma SampleEms()
    ensures Ems("a") == 0.56 && Ems("b") == 0.56 && Ems(" ") == 0.28
  {
  }

  /** Two words that fill a line exactly are drawn past its edge when the second one is marked. */
  lemma MarkedLineOverflows()
    ensures var words := [Word("a", false), Word("b", true)];
            var box := 1.4392;
            && Lines(words, box, 1.0, false) == [Cells(words, box, 1.0, false)]
            && DrawnWidth(words, 1.0, false) == 1.4588 > box
  {
    hide Ems, Space, WordWidth, CellOf, TextWidth, Scaled;
    var words, box := [Word("a", false), Word("b", true)], 1.4392;
    SampleCells(words, box);
    var cells := Cells(words, box, 1.0, false);
    assert cells[..1] == [cells[0]] && cells[..1][..0] == [] && cells[..0] == [];
    assert Greedy(cells[..1], 0.28, box) == [[cells[0]]];
    assert RowWidth([cells[0]], 0.28) == 0.56;
    assert [cells[0]] + [cells[1]] == cells;
    assert Greedy(cells, 0.28, box) == [cells];
    assert words[..1] == [words[0]] && [words[0]][..0] == [];
    assert DrawnWidth(words[..1], 1.0, false) == 0.56;
  }

  // ---- how far a line can run past its box -----------------------------------------------

  /** The widest a wrapped line can be drawn: bold against regular weight, on a box with its tolerance or
      on a single character with its ellipsis. */
  function Reach(box: Length, size: Length): Length {
    1.07 * if box + 0.5 > 1.42 * size then box + 0.5 else 1.42 * size
  }

  lemma EmIsSmall(c: char)
    ensures 0.28 <= Em(c) <= 0.86
  {
  }

  lemma OneCharacterIsSmall(s: string, size: Length)
    requires |s| == 1
    ensures TextWidth(s + ELLIPSIS, size, false) <= 1.42 * size
  {
    EmIsSmall(s[0]);
    EmsOfJoined(s, ELLIPSIS);
    assert s[..0] == "";
    EmsOfMs();
    assert Ems(s) == Em(s[0]);
    hide Ems, Em;
    WiderScales(Ems(s + ELLIPSIS), 1.42, size, false);
  }

  lemma ShortenedIsNarrow(s: string, box: Length, size: Length)
    ensures TextWidth(Shortened(s, box, size), size, false) <= Reach(box, size) / 1.07
  {
    hide TextWidth;
    NothingIsNarrow(size, false);
    if TextWidth(s, size, false) > box + 0.5 {
      var k := Longest(s, |s|, box, size);
      if k == 1 { OneCharacterIsSmall(s[..1], size); }
    }
  }

  lemma CellReach(w: Word, box: Length, size: Length, heavy: bool)
    ensures var c := CellOf(w, box, size, heavy);
            && WordWidth(c.word, size, heavy) <= Reach(box, size)
            && (Plain(c, size, heavy) || c.width == box)
  {
    ShortenedIsNarrow(w.text, box, size);
    BoldIsWider(Shortened(w.text, box, size), size);
    hide TextWidth, Shortened;
  }

  lemma {:induction false} RowHasGap(row: seq<Cell>, c: Cell, gap: Length)
    requires |row| >= 2 && c in row
    ensures RowWidth(row, gap) >= c.width + gap
  {
    var n := |row| - 1;
    assert row == row[..n] + [row[n]];
    if c in row[..n] && |row| > 2 { RowHasGap(row[..n], c, gap); }
  }

  lemma {:induction false} GapsAreAccounted(line: seq<Cell>, gap: Length)
    ensures Times(MarkedGaps(TextOf(line)), gap) <= RowWidth(line, gap)
  {
    hide Times;
    OneMoreTime(0, gap);
    if line != [] {
      var n := |line| - 1;
      assert line[..n] + [line[n]] == line;
      assert TextOf(line)[..n] == TextOf(line[..n]);
      GapsAreAccounted(line[..n], gap);
      OneMoreTime(MarkedGaps(TextOf(line[..n])), gap);
      RowGrows(line[..n], line[n], gap);
    }
  }

  lemma ExtraIsSmall(n: nat, size: Length, heavy: bool)
    ensures Times(n, ExtraSpace(size, heavy)) <= 0.07 * Times(n, Space(size, heavy))
  {
    assert Space(size, false) >= 0.0;
    BoldIsWider(" ", size);
    if heavy {
      HeavyHasNoExtra(size, n);
      assert Space(size, heavy) >= 0.0;
      assert n as real * Space(size, heavy) >= 0.0;
    } else {
      assert ExtraSpace(size, heavy) == 0.07 * Space(size, heavy);
      assert n as real * (0.07 * Space(size, heavy)) == 0.07 * (n as real * Space(size, heavy));
    }
  }

  /** No wrapped line is drawn wider than that, whatever its words. */
  lemma LineReach(words: seq<Word>, box: Length, size: Length, heavy: bool, line: seq<Cell>)
    requires line in Lines(words, box, size, heavy) && size > 0.0
    ensures DrawnWidth(TextOf(line), size, heavy) <= Reach(box, size)
  {
    WrappingIsOptimal(words, box, size, heavy, []);
    hide Lines, CellOf, TextWidth, WordWidth, Reach, Space, ExtraSpace, Times, DrawnWidth, RowWidth;
    var gap := Space(size, heavy);
    if |line| == 1 {
      FromSomeWord(words, box, size, heavy, line, line[0]);
      var w :| w in words && line[0] == CellOf(w, box, size, heavy);
      CellReach(w, box, size, heavy);
      LoneWord(line, size, heavy);
    } else {
      assert gap > 0.0 by { SpaceIsWide(size, heavy); }
      forall c | c in line ensures Plain(c, size, heavy) {
        FromSomeWord(words, box, size, heavy, line, c);
        var w :| w in words && c == CellOf(w, box, size, heavy);
        CellReach(w, box, size, heavy);
        RowHasGap(line, c, gap);
      }
      DrawnIsAccounted(line, size, heavy);
      PlainExceedsNothing(line, size, heavy);
      GapsAreAccounted(line, gap);
      ExtraIsSmall(MarkedGaps(TextOf(line)), size, heavy);
      ReachIsMore(box, size);
    }
  }

  lemma SpaceIsWide(size: Length, heavy: bool)
    requires size > 0.0
    ensures Space(size, heavy) > 0.0
  {
    SampleEms();
    hide Ems;
  }

  lemma ReachIsMore(box: Length, size: Length)
    ensures 1.07 * box <= Reach(box, size)
  {
  }

  lemma LoneWord(line: seq<Cell>, size: Length, heavy: bool)
    requires |line| == 1
    ensures DrawnWidth(TextOf(line), size, heavy) == WordWidth(line[0].word, size, heavy)
  {
    hide WordWidth;
    assert TextOf(line)[..0] == [];
  }
}
