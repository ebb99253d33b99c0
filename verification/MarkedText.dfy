/** MarkedText: what splitting text into marked words keeps, and text that is a single word.

    About splitMarked in apps/api/internal/ai/grammar_visual_render.go. */
module MarkedText {
  import opened Text
  import opened Rows
  import opened Wrapping
  import opened Layout

  // ---- marked text -----------------------------------------------------------------------

  /** A drawn letter: whether it is bold and whether it begins a word. */
  datatype Letter = Letter(c: char, bold: bool, first: bool)

  /** The letters of a text: two asterisks switch between plain and bold, and spaces and switches end a word. */
  function Letters(s: string, bold: bool, first: bool): seq<Letter> {
    if s == "" then []
    else if |s| >= 2 && s[..2] == "**" then Letters(s[2..], !bold, true)
    else if IsSpace(s[0]) then Letters(s[1..], bold, true)
    else [Letter(s[0], bold, first)] + Letters(s[1..], bold, false)
  }

  function WordLetters(w: Word): seq<Letter> {
    seq(|w.text|, i requires 0 <= i < |w.text| => Letter(w.text[i], w.bold, i == 0))
  }

  function LettersOf(words: seq<Word>): seq<Letter> {
    if words == [] then [] else WordLetters(words[0]) + LettersOf(words[1..])
  }

  lemma {:induction false} LettersOfJoined(a: seq<Word>, b: seq<Word>)
    ensures LettersOf(a + b) == LettersOf(a) + LettersOf(b)
  {
    hide WordLetters;
    if a == [] {
      assert a + b == b;
    } else {
      LettersOfJoined(a[1..], b);
      assert (a + b)[1..] == a[1..] + b && (a + b)[0] == a[0];
      Associates(WordLetters(a[0]), LettersOf(a[1..]), LettersOf(b));
    }
  }

  lemma Associates<T>(a: seq<T>, b: seq<T>, c: seq<T>)
    ensures a + (b + c) == a + b + c
  {
  }

  // The letters of a text without marks.
  function Runs(s: string, bold: bool, first: bool): seq<Letter> {
    if s == "" then []
    else if IsSpace(s[0]) then Runs(s[1..], bold, true)
    else [Letter(s[0], bold, first)] + Runs(s[1..], bold, false)
  }

  function RunLetters(s: string, bold: bool, first: bool): seq<Letter> {
    seq(|s|, i requires 0 <= i < |s| => Letter(s[i], bold, first && i == 0))
  }

  lemma {:induction false} FirstRun(s: string, bold: bool, first: bool)
    requires s != "" && !IsSpace(s[0])
    ensures var n := WordLength(s);
            Runs(s, bold, first) == RunLetters(s[..n], bold, first) + Runs(s[n..], bold, true)
  {
    hide IsSpace;
    var n, rest := WordLength(s), s[1..];
    if rest == "" || IsSpace(rest[0]) {
      assert s[..n] == [s[0]] && s[n..] == rest && RunLetters(s[..n], bold, first) == [Letter(s[0], bold, first)];
    } else {
      FirstRun(rest, bold, false);
      assert s[..n] == [s[0]] + rest[..n - 1] && s[n..] == rest[n - 1..];
      assert RunLetters(s[..n], bold, first)
             == [Letter(s[0], bold, first)] + RunLetters(rest[..n - 1], bold, false);
    }
  }

  lemma {:induction false} FieldsAreRuns(s: string, bold: bool)
    ensures LettersOf(WordsOf(Fields(s), bold)) == Runs(s, bold, true)
    decreases |s|
  {
    hide IsSpace;
    if s == "" {
    } else if IsSpace(s[0]) {
      FieldsAreRuns(s[1..], bold);
    } else {
      var n := WordLength(s);
      FieldsAreRuns(s[n..], bold);
      FirstRun(s, bold, true);
      assert WordsOf(Fields(s), bold)[1..] == WordsOf(Fields(s[n..]), bold);
      assert WordLetters(Word(s[..n], bold)) == RunLetters(s[..n], bold, true);
    }
  }

  // The marked words, read from the front.
  function MarkedFrom(parts: seq<string>, bold: bool): seq<Word> {
    if parts == [] then [] else WordsOf(Fields(parts[0]), bold) + MarkedFrom(parts[1..], !bold)
  }

  lemma {:induction false} MarkedFromEnd(parts: seq<string>, last: string, bold: bool)
    ensures MarkedFrom(parts + [last], bold)
            == MarkedFrom(parts, bold) + WordsOf(Fields(last), if |parts| % 2 == 0 then bold else !bold)
  {
    hide Fields, WordsOf;
    if parts == [] {
      assert MarkedFrom([last][1..], !bold) == [];
      assert parts + [last] == [last];
    } else {
      MarkedFromEnd(parts[1..], last, !bold);
      assert (parts + [last])[1..] == parts[1..] + [last];
      Associates(WordsOf(Fields(parts[0]), bold), MarkedFrom(parts[1..], !bold),
                 WordsOf(Fields(last), if |parts| % 2 == 0 then bold else !bold));
    }
  }

  lemma {:induction false} MarkedIsFromFront(parts: seq<string>)
    ensures Marked(parts) == MarkedFrom(parts, false)
  {
    hide Fields, WordsOf;
    if parts != [] {
      var n := |parts| - 1;
      MarkedIsFromFront(parts[..n]);
      MarkedFromEnd(parts[..n], parts[n], false);
      assert parts[..n] + [parts[n]] == parts;
    }
  }

  lemma {:induction false} SplitKeepsLetters(s: string, bold: bool, first: bool)
    ensures var parts := Split(s);
            Letters(s, bold, first) == Runs(parts[0], bold, first) + LettersOf(MarkedFrom(parts[1..], !bold))
    decreases |s|
  {
    hide IsSpace, Fields, WordsOf;
    var parts := Split(s);
    if |s| < 2 {
      assert parts[1..] == [];
      assert s != "" ==> s[1..] == "";
    } else if s[..2] == "**" {
      SplitKeepsLetters(s[2..], !bold, true);
      var rest := Split(s[2..]);
      assert parts[1..] == rest;
      FieldsAreRuns(rest[0], !bold);
      LettersOfJoined(WordsOf(Fields(rest[0]), !bold), MarkedFrom(rest[1..], bold));
    } else {
      SplitKeepsLetters(s[1..], bold, IsSpace(s[0]));
      var rest := Split(s[1..]);
      assert parts[1..] == rest[1..] && parts[0][1..] == rest[0] && parts[0][0] == s[0];
    }
  }

  lemma {:induction false} TrimmedLeft(s: string, bold: bool)
    ensures Letters(TrimLeft(s), bold, true) == Letters(s, bold, true)
  {
    if s != "" && IsSpace(s[0]) {
      TrimmedLeft(s[1..], bold);
      assert s[0] != '*';
      hide IsSpace;
      assert |s| >= 2 ==> s[..2][0] == s[0];
    }
  }

  lemma {:induction false} LastSpace(s: string, c: char, bold: bool, first: bool)
    requires IsSpace(c)
    ensures Letters(s + [c], bold, first) == Letters(s, bold, first)
    decreases |s|
  {
    assert c != '*';
    hide IsSpace;
    var t := s + [c];
    if s == "" {
      assert t == [c] && t[1..] == "";
    } else if |s| >= 2 && s[..2] == "**" {
      LastSpace(s[2..], c, !bold, true);
      assert t[..2] == s[..2] && t[2..] == s[2..] + [c];
    } else {
      LastSpace(s[1..], c, bold, IsSpace(s[0]));
      assert t[..2][1] != '*' || s[0] != '*';
      assert t[1..] == s[1..] + [c] && t[0] == s[0];
    }
  }

  lemma {:induction false} TrimmedRight(s: string, bold: bool)
    ensures Letters(TrimRight(s), bold, true) == Letters(s, bold, true)
  {
    hide IsSpace, Letters;
    if s != "" && IsSpace(s[|s| - 1]) {
      var n := |s| - 1;
      TrimmedRight(s[..n], bold);
      LastSpace(s[..n], s[n], bold, true);
      assert s[..n] + [s[n]] == s;
    }
  }

  /** A block's words are the letters of its text, in order, each plain or bold and at the start of a word or
      not as the text marks it. */
  lemma MarkingKeepsLetters(text: string)
    ensures LettersOf(MarkedWords(Trim(text))) == Letters(text, false, true)
  {
    var t := Trim(text);
    TrimmedLeft(text, false);
    TrimmedRight(TrimLeft(text), false);
    hide IsSpace, Letters, Fields, WordsOf, LettersOf;
    var parts := Split(t);
    SplitKeepsLetters(t, false, true);
    MarkedIsFromFront(parts);
    FieldsAreRuns(parts[0], false);
    LettersOfJoined(WordsOf(Fields(parts[0]), false), MarkedFrom(parts[1..], true));
  }

  // ---- one word on one line --------------------------------------------------------------

  predicate PlainWord(s: string) { s != "" && forall c | c in s :: !IsSpace(c) && c != '*' }

  lemma {:induction false} PlainIsOnePart(s: string)
    requires '*' !in s
    ensures Split(s) == [s]
  {
    if |s| >= 2 {
      assert s[..2][0] == s[0] != '*';
      PlainIsOnePart(s[1..]);
      assert [s[0]] + s[1..] == s;
    }
  }

  lemma {:induction false} PlainIsOneWord(s: string)
    requires forall c | c in s :: !IsSpace(c)
    ensures WordLength(s) == |s|
  {
    hide IsSpace;
    if s != "" { PlainIsOneWord(s[1..]); }
  }

  lemma PlainIsOneField(s: string)
    requires PlainWord(s)
    ensures Fields(s) == [s]
  {
    PlainIsOneWord(s);
    assert s[0] in s && s[..|s|] == s && s[|s|..] == "";
    assert Fields("") == [];
  }

  lemma UnmarkedWords(s: string)
    requires '*' !in s
    ensures MarkedWords(s) == WordsOf(Fields(s), false)
  {
    PlainIsOnePart(s);
    hide Fields, Split;
    assert [s][..0] == [];
    assert Marked([s]) == [] + WordsOf(Fields(s), false);
  }

  lemma PlainIsMarkedOnce(s: string)
    requires PlainWord(s)
    ensures MarkedWords(Trim(s)) == [Word(s, false)]
  {
    assert s[0] in s && s[|s| - 1] in s;
    TrimIsTrimmed(s);
    UnmarkedWords(s);
    PlainIsOneField(s);
  }

  /** A plain word that fits its box is a block of one line. */
  lemma OneWordBlock(s: string, x: real, y: real, box: Length, st: Style)
    requires PlainWord(s) && st.maxLines > 0 && TextWidth(s, st.size, st.heavy) <= box
    ensures BlockShapes(s, x, y, box, st) == [Line(x, y, st, [Word(s, false)])]
    ensures DrawnWidth([Word(s, false)], st.size, st.heavy) == TextWidth(s, st.size, st.heavy)
  {
    PlainIsMarkedOnce(s);
    hide TextWidth, MarkedWords, Trim, PlainWord;
    var w := Word(s, false);
    var cells := Cells([w], box, st.size, st.heavy);
    assert cells[..0] == [] && cells == [CellOf(w, box, st.size, st.heavy)];
    assert Greedy(cells[..0], Space(st.size, st.heavy), box) == [];
    assert Lines([w], box, st.size, st.heavy) == [cells];
    assert TextOf(cells) == [w] && [w][..0] == [];
  }

  lemma LetterIsPlain(c: char)
    requires 'A' <= c <= 'z'
    ensures !IsSpace(c) && c != '*'
  {
  }

  lemma LettersArePlain(s: string)
    requires s != "" && forall c | c in s :: 'A' <= c <= 'z'
    ensures PlainWord(s)
  {
    hide IsSpace;
    forall c | c in s ensures !IsSpace(c) && c != '*' { LetterIsPlain(c); }
  }
}
