/** TimelineProofs: exactly when the texts of a timeline keep clear of each other, and why everything else
    in its diagram does.

    About timeline in apps/api/internal/ai/grammar_visual_render.go. */
module TimelineProofs {
  import opened Rows
  import opened Wrapping
  import opened Layout
  import opened LayoutProofs
  import opened MarkedText
  import opened PageEdges
  import opened Timeline

  // ---- drawings that meet ----------------------------------------------------------------

  // No shape of one drawing covers one of the other.
  predicate Across(a: seq<Shape>, b: seq<Shape>) {
    forall s, t | s in a && t in b && Solid(s) && Solid(t) :: Apart(BoxOf(s), BoxOf(t))
  }

  lemma SeparateTogether(a: seq<Shape>, b: seq<Shape>)
    ensures Separate(a + b) <==> Separate(a) && Separate(b) && Across(a, b)
  {
    hide BoxOf, Apart, Solid;
    var all := a + b;
    if Separate(all) {
      PartsAreSeparate(a, b);
      forall s, t | s in a && t in b && Solid(s) && Solid(t) ensures Apart(BoxOf(s), BoxOf(t)) {
        var i, j :| 0 <= i < |a| && a[i] == s && 0 <= j < |b| && b[j] == t;
        assert all[i] == s && all[|a| + j] == t;
      }
    }
    if Separate(a) && Separate(b) && Across(a, b) {
      forall i, j | 0 <= i < j < |all| && Solid(all[i]) && Solid(all[j]) ensures Apart(BoxOf(all[i]), BoxOf(all[j])) {
        if i < |a| <= j { assert all[i] in a && all[j] in b; }
      }
    }
  }

  lemma AcrossBoth(a: seq<Shape>, b: seq<Shape>, c: seq<Shape>)
    ensures Across(a + b, c) <==> Across(a, c) && Across(b, c)
    ensures Across(c, a + b) <==> Across(c, a) && Across(c, b)
  {
    hide BoxOf, Apart, Solid;
    assert forall s | s in a :: s in a + b;
    assert forall s | s in b :: s in a + b;
  }

  lemma AcrossNothing(c: seq<Shape>)
    ensures Across([], c) && Across(c, [])
  {
  }

  // ---- the texts of one event ------------------------------------------------------------

  /** The lines of an event's text, their heights counted from the first. */
  function Texts(p: Placed): seq<Shape> { EventTexts(p, 0.0).shapes }

  // How wide a line is drawn.
  function Drawn(s: Shape): Length { if s.Line? then DrawnWidth(s.words, s.style.size, s.style.heavy) else 0.0 }

  function Lowered(s: Shape, dy: real): Shape { if s.Line? then s.(top := s.top + dy) else s }

  function AllLowered(shapes: seq<Shape>, dy: real): (r: seq<Shape>)
    ensures |r| == |shapes|
    ensures forall i | 0 <= i < |shapes| :: r[i] == Lowered(shapes[i], dy)
  {
    seq(|shapes|, i requires 0 <= i < |shapes| => Lowered(shapes[i], dy))
  }

  lemma BlockIsLowered(text: string, x: real, y: real, dy: real, box: Length, st: Style)
    requires st.maxLines > 0
    ensures BlockShapes(text, x, y + dy, box, st) == AllLowered(BlockShapes(text, x, y, box, st), dy)
  {
    hide BlockLines, Stacked, LineHeight;
  }

  lemma TextsAreLowered(p: Placed, y: real)
    ensures EventTexts(p, y).shapes == AllLowered(Texts(p), y)
    ensures EventTexts(p, y).bottom == y + EventTexts(p, 0.0).bottom
  {
    hide BlockShapes, BlockHeight, Blank;
    BlockIsLowered(p.event.name, p.x, 0.0, y, p.width, NAME);
    var h := BlockHeight(p.event.name, p.width, NAME) + 2.0;
    BlockIsLowered(p.event.note, p.x, h, y, p.width, REMARK);
    assert h + y == y + BlockHeight(p.event.name, p.width, NAME) + 2.0;
  }

  predicate TextLine(s: Shape, p: Placed) { s.Line? && s.x == p.x && s.style.anchor == Middle && s.top >= 0.0 }

  lemma BlockLineIs(text: string, p: Placed, y: real, st: Style, s: Shape)
    requires st.maxLines > 0 && st.size > 0.0 && st.anchor == Middle && y >= 0.0
    requires s in BlockShapes(text, p.x, y, p.width, st)
    ensures TextLine(s, p) && s.style == st && Drawn(s) <= Spread(p.width, st.size)
  {
    hide BlockLines, DrawnWidth, Spread, LineHeight;
    var lines := BlockLines(text, p.width, st);
    var i :| 0 <= i < |lines| && BlockShapes(text, p.x, y, p.width, st)[i] == s;
    LineSpread(text, p.width, st, lines[i]);
  }

  lemma TextSpread(p: Placed, s: Shape)
    requires s in Texts(p)
    ensures TextLine(s, p) && Drawn(s) <= Spread(p.width, 16.0)
  {
    SmallerSpreadsLess(p.width);
    hide BlockShapes, BlockHeight, Blank, Spread, Drawn, TextLine;
    if s in BlockShapes(p.event.name, p.x, 0.0, p.width, NAME) {
      BlockLineIs(p.event.name, p, 0.0, NAME, s);
    } else {
      BlockLineIs(p.event.note, p, BlockHeight(p.event.name, p.width, NAME) + 2.0, REMARK, s);
    }
  }

  lemma SmallerSpreadsLess(width: Length)
    ensures Spread(width, 13.0) <= Spread(width, 16.0)
  {
  }

  // Where an event's lines can be at most.
  function TextsFrame(p: Placed): Box {
    BlockFrame(p.x, 0.0, Spread(p.width, 16.0), EventTexts(p, 0.0).bottom, Middle)
  }

  lemma TextsAreClear(p: Placed)
    ensures Clear(Texts(p), TextsFrame(p), 0.0) && EventTexts(p, 0.0).bottom >= 0.0
  {
    hide BlockShapes, BlockHeight, Blank, Spread, Framed, Separate;
    SmallerSpreadsLess(p.width);
    var frame, h := TextsFrame(p), BlockHeight(p.event.name, p.width, NAME);
    var name := BlockShapes(p.event.name, p.x, 0.0, p.width, NAME);
    var upper := BlockFrame(p.x, 0.0, Spread(p.width, 16.0), h, Middle);
    BlockIsClear(p.event.name, p.x, 0.0, p.width, NAME);
    assert [] + name == name;
    if !Blank(p.event.note) {
      var note := BlockShapes(p.event.note, p.x, h + 2.0, p.width, REMARK);
      var lower := BlockFrame(p.x, h + 2.0, Spread(p.width, 13.0), BlockHeight(p.event.note, p.width, REMARK), Middle);
      BlockIsClear(p.event.note, p.x, h + 2.0, p.width, REMARK);
      FramedIn(note, lower, 0.0, frame.(top := h + 2.0), 0.0);
      ClearBoth(name, upper, note, frame.(top := h + 2.0), frame, 0.0);
    }
  }

  // ---- two events ------------------------------------------------------------------------

  // Two lines are partly at the same height.
  predicate Meet(s: Shape, t: Shape) {
    s.Line? && t.Line? && s.top < t.top + LineHeight(t.style) && t.top < s.top + LineHeight(s.style)
  }

  function Distance(a: Placed, b: Placed): real { if a.x <= b.x then b.x - a.x else a.x - b.x }

  /** Lines of the two events at the same height are together no wider than twice the way between them. */
  predicate RoomBetween(a: Placed, b: Placed) {
    forall s, t | s in Texts(a) && t in Texts(b) && Meet(s, t) :: (Drawn(s) + Drawn(t)) / 2.0 <= Distance(a, b)
  }

  lemma LinesApartIff(a: Placed, b: Placed, s: Shape, t: Shape, dy: real)
    requires TextLine(s, a) && TextLine(t, b)
    ensures Apart(BoxOf(Lowered(s, dy)), BoxOf(Lowered(t, dy)))
            <==> (Meet(s, t) ==> (Drawn(s) + Drawn(t)) / 2.0 <= Distance(a, b))
  {
    hide DrawnWidth, LineHeight;
  }

  lemma InLowered(shapes: seq<Shape>, dy: real, s: Shape)
    ensures s in shapes ==> Lowered(s, dy) in AllLowered(shapes, dy)
    ensures s in AllLowered(shapes, dy) ==> exists t :: t in shapes && s == Lowered(t, dy)
  {
    hide Lowered;
    if s in shapes {
      var i :| 0 <= i < |shapes| && shapes[i] == s;
      assert AllLowered(shapes, dy)[i] == Lowered(s, dy);
    }
    if s in AllLowered(shapes, dy) {
      var i :| 0 <= i < |shapes| && AllLowered(shapes, dy)[i] == s;
      assert shapes[i] in shapes;
    }
  }

  lemma TextsAcrossIff(a: Placed, b: Placed, dy: real)
    ensures Across(AllLowered(Texts(a), dy), AllLowered(Texts(b), dy)) <==> RoomBetween(a, b)
  {
    hide BoxOf, Apart, Texts, Drawn, TextLine, Distance, Meet, AllLowered, Spread;
    var ta, tb := AllLowered(Texts(a), dy), AllLowered(Texts(b), dy);
    forall s, t | s in Texts(a) && t in Texts(b)
      ensures TextLine(s, a) && TextLine(t, b)
      ensures Apart(BoxOf(Lowered(s, dy)), BoxOf(Lowered(t, dy)))
              <==> (Meet(s, t) ==> (Drawn(s) + Drawn(t)) / 2.0 <= Distance(a, b))
    {
      TextSpread(a, s);
      TextSpread(b, t);
      LinesApartIff(a, b, s, t, dy);
    }
    if Across(ta, tb) {
      forall s, t | s in Texts(a) && t in Texts(b) && Meet(s, t) ensures (Drawn(s) + Drawn(t)) / 2.0 <= Distance(a, b) {
        InLowered(Texts(a), dy, s);
        InLowered(Texts(b), dy, t);
        LineIsSolid(s, a, dy);
        LineIsSolid(t, b, dy);
      }
    }
    if RoomBetween(a, b) {
      forall s, t | s in ta && t in tb ensures Apart(BoxOf(s), BoxOf(t)) {
        InLowered(Texts(a), dy, s);
        InLowered(Texts(b), dy, t);
        var s0 :| s0 in Texts(a) && s == Lowered(s0, dy);
        var t0 :| t0 in Texts(b) && t == Lowered(t0, dy);
      }
    }
  }

  lemma LineIsSolid(s: Shape, p: Placed, dy: real)
    requires TextLine(s, p)
    ensures Solid(Lowered(s, dy))
  {
  }

  lemma DotCoversNothing(x: real, axisY: real, shapes: seq<Shape>, other: seq<Shape>)
    ensures Across([Dot(x, axisY, 7.0)] + shapes, other) <==> Across(shapes, other)
    ensures Across(other, [Dot(x, axisY, 7.0)] + shapes) <==> Across(other, shapes)
    ensures Separate([Dot(x, axisY, 7.0)] + shapes) <==> Separate(shapes)
  {
    hide BoxOf, Apart;
    var dot := [Dot(x, axisY, 7.0)];
    AcrossBoth(dot, shapes, other);
    SeparateTogether(dot, shapes);
  }

  lemma EventsAcrossIff(a: Placed, b: Placed, axisY: real)
    ensures Across(EventShapes(a, axisY), EventShapes(b, axisY)) <==> RoomBetween(a, b)
  {
    hide Across, EventTexts, RoomBetween, Separate;
    var ta, tb := EventTexts(a, axisY + 26.0).shapes, EventTexts(b, axisY + 26.0).shapes;
    TextsAreLowered(a, axisY + 26.0);
    TextsAreLowered(b, axisY + 26.0);
    TextsAcrossIff(a, b, axisY + 26.0);
    DotCoversNothing(a.x, axisY, ta, EventShapes(b, axisY));
    DotCoversNothing(b.x, axisY, tb, ta);
  }

  // ---- the marks of the axis -------------------------------------------------------------

  const PAST_END: real := 79.56      // where "Past" ends
  const FUTURE_START: real := 688.0  // where "Future" starts
  const FUTURE_END: real := 730.12

  function Marks(axisY: real, top: real): seq<Shape> {
    [Line(NOW_X, top - 10.0, MARK, [Word("NOW", false)]),
     Line(LEFT, axisY + 14.0, END, [Word("Past", false)]),
     Line(FUTURE_START, axisY + 14.0, END, [Word("Future", false)])]
  }

  lemma NextEm(s: string, c: char)
    ensures Ems(s + [c]) == Ems(s) + Em(c)
  {
    assert (s + [c])[..|s|] == s;
  }

  // Letters that are neither the narrow nor the wide ones.
  lemma LetterEm(c: char)
    ensures 'A' <= c <= 'Z' && c != 'M' && c != 'W' ==> Em(c) == 0.68
    ensures 'a' <= c <= 'z' && c != 'i' && c != 'l' && c != 'j' && c != 't' && c != 'f' && c != 'm' && c != 'w'
            ==> Em(c) == 0.56
    ensures c == 't' ==> Em(c) == 0.32
    ensures c == 'W' || c == 'm' ==> Em(c) == 0.86
  {
  }

  lemma NowEms()
    ensures Ems("NOW") == 2.22
  {
    assert Ems("") == 0.0;
    hide Ems, Em;
    LetterEm('N'); LetterEm('O'); LetterEm('W');
    NextEm("", 'N'); NextEm("N", 'O'); NextEm("NO", 'W');
    assert "" + "N" == "N" && "N" + "O" == "NO" && "NO" + "W" == "NOW";
  }

  lemma PastEms()
    ensures Ems("Past") == 2.12
  {
    assert Ems("") == 0.0;
    hide Ems, Em;
    LetterEm('P'); LetterEm('a'); LetterEm('s'); LetterEm('t');
    NextEm("", 'P'); NextEm("P", 'a'); NextEm("Pa", 's'); NextEm("Pas", 't');
    assert "" + "P" == "P" && "P" + "a" == "Pa" && "Pa" + "s" == "Pas" && "Pas" + "t" == "Past";
  }

  lemma FutureEms()
    ensures Ems("Future") == 3.24
  {
    FutEms();
    UreEms();
    hide Ems;
    EmsOfJoined("Fut", "ure");
    assert "Fut" + "ure" == "Future";
  }

  lemma FutEms()
    ensures Ems("Fut") == 1.56
  {
    assert Ems("") == 0.0;
    hide Ems, Em;
    LetterEm('F'); LetterEm('u'); LetterEm('t');
    NextEm("", 'F'); NextEm("F", 'u'); NextEm("Fu", 't');
    assert "" + "F" == "F" && "F" + "u" == "Fu" && "Fu" + "t" == "Fut";
  }

  lemma UreEms()
    ensures Ems("ure") == 1.68
  {
    assert Ems("") == 0.0;
    hide Ems, Em;
    LetterEm('u'); LetterEm('r'); LetterEm('e');
    NextEm("", 'u'); NextEm("u", 'r'); NextEm("ur", 'e');
    assert "" + "u" == "u" && "u" + "r" == "ur" && "ur" + "e" == "ure";
  }

  lemma MarkWidths()
    ensures TextWidth("NOW", 12.0, true) == 28.5048 && TextWidth("Past", 13.0, false) == 27.56
            && TextWidth("Future", 13.0, false) == 42.12
  {
    NowEms();
    PastEms();
    FutureEms();
    hide Ems;
  }

  lemma MarksArePlain()
    ensures PlainWord("NOW") && PlainWord("Past") && PlainWord("Future")
  {
    hide PlainWord;
    LettersArePlain("NOW");
    LettersArePlain("Past");
    LettersArePlain("Future");
  }

  lemma AxisIs(axisY: real, top: real)
    ensures Axis(axisY, top) == Strokes(axisY, top) + Marks(axisY, top)
    ensures Drawn(Marks(axisY, top)[0]) == 28.5048 && Drawn(Marks(axisY, top)[1]) == 27.56
            && Drawn(Marks(axisY, top)[2]) == 42.12
  {
    MarkWidths();
    MarksArePlain();
    hide TextWidth, BlockShapes, DrawnWidth, PlainWord;
    OneWordBlock("NOW", NOW_X, top - 10.0, 80.0, MARK);
    OneWordBlock("Past", LEFT, axisY + 14.0, 80.0, END);
    OneWordBlock("Future", RIGHT - 60.0, axisY + 14.0, 80.0, END);
  }

  /** The first lines of an event's text are beside "Past" and "Future", and do not reach either. */
  predicate ClearOfMarks(p: Placed) {
    forall s | s in Texts(p) && s.Line? && s.top < 5.55 ::
      PAST_END <= p.x - Drawn(s) / 2.0 && p.x + Drawn(s) / 2.0 <= FUTURE_START
  }

  lemma MarksApartIff(p: Placed, s: Shape, axisY: real, top: real)
    requires TextLine(s, p) && LEFT < p.x < FUTURE_END && axisY == top + 70.0
    ensures var line, marks := BoxOf(Lowered(s, axisY + 26.0)), Marks(axisY, top);
            && Apart(BoxOf(marks[0]), line)
            && (Apart(BoxOf(marks[1]), line) <==> (s.top < 5.55 ==> PAST_END <= p.x - Drawn(s) / 2.0))
            && (Apart(BoxOf(marks[2]), line) <==> (s.top < 5.55 ==> p.x + Drawn(s) / 2.0 <= FUTURE_START))
  {
    AxisIs(axisY, top);
    hide DrawnWidth, Axis;
  }

  lemma AxisAcrossIff(p: Placed, axisY: real, top: real)
    requires LEFT < p.x < FUTURE_END && axisY == top + 70.0
    ensures Across(Axis(axisY, top), EventShapes(p, axisY)) <==> ClearOfMarks(p)
  {
    hide *;
    var marks, texts := Marks(axisY, top), AllLowered(Texts(p), axisY + 26.0);
    assert EventShapes(p, axisY) == [Dot(p.x, axisY, 7.0)] + texts by { EventShapesAre(p, axisY); }
    AxisIs(axisY, top);
    DotCoversNothing(p.x, axisY, texts, Axis(axisY, top));
    AcrossBoth(Strokes(axisY, top), marks, texts);
    StrokesCoverNothing(axisY, top, texts);
    MarksAcrossIff(p, axisY, top);
  }

  lemma EventShapesAre(p: Placed, axisY: real)
    ensures EventShapes(p, axisY) == [Dot(p.x, axisY, 7.0)] + AllLowered(Texts(p), axisY + 26.0)
  {
    hide EventTexts, Texts, AllLowered;
    TextsAreLowered(p, axisY + 26.0);
  }

  lemma StrokesCoverNothing(axisY: real, top: real, texts: seq<Shape>)
    ensures Across(Strokes(axisY, top), texts)
  {
    hide BoxOf, Apart;
  }

  lemma MarksAcrossIff(p: Placed, axisY: real, top: real)
    requires LEFT < p.x < FUTURE_END && axisY == top + 70.0
    ensures Across(Marks(axisY, top), AllLowered(Texts(p), axisY + 26.0)) <==> ClearOfMarks(p)
  {
    hide BoxOf, Apart, Texts, Drawn, TextLine, Spread, AllLowered, Across, Lowered;
    var marks := Marks(axisY, top);
    MarksAcross(p, marks, axisY + 26.0);
    forall s | s in Texts(p)
      ensures s.Line?
      ensures (forall m | m in marks :: Apart(BoxOf(m), BoxOf(Lowered(s, axisY + 26.0))))
              <==> (s.top < 5.55 ==> PAST_END <= p.x - Drawn(s) / 2.0 && p.x + Drawn(s) / 2.0 <= FUTURE_START)
    {
      TextSpread(p, s);
      IsALine(s, p);
      MarksApartIff(p, s, axisY, top);
      assert marks[1] in marks && marks[2] in marks;
    }
  }

  lemma IsALine(s: Shape, p: Placed)
    requires TextLine(s, p)
    ensures s.Line?
  {
  }

  lemma MarksAcross(p: Placed, marks: seq<Shape>, dy: real)
    requires forall m | m in marks :: Solid(m)
    ensures Across(marks, AllLowered(Texts(p), dy))
            <==> forall s, m | s in Texts(p) && m in marks :: Apart(BoxOf(m), BoxOf(Lowered(s, dy)))
  {
    hide BoxOf, Apart, Texts, AllLowered, TextLine, Spread;
    var texts := AllLowered(Texts(p), dy);
    forall s | s in Texts(p) ensures Solid(Lowered(s, dy)) && Lowered(s, dy) in texts {
      TextSpread(p, s);
      LineIsSolid(s, p, dy);
      InLowered(Texts(p), dy, s);
    }
    forall s | s in texts ensures exists t :: t in Texts(p) && s == Lowered(t, dy) {
      InLowered(Texts(p), dy, s);
    }
    hide Lowered, Solid;
  }

  // ---- all events ------------------------------------------------------------------------

  function AllEvents(list: seq<Placed>, axisY: real): seq<Shape> {
    if list == [] then [] else AllEvents(list[..|list| - 1], axisY) + EventShapes(list[|list| - 1], axisY)
  }

  predicate AllRoom(list: seq<Placed>) { forall i, j | 0 <= i < j < |list| :: RoomBetween(list[i], list[j]) }

  /** No text of a timeline would reach another: neither of another event nor a mark of the axis. */
  predicate TimelineFits(events: seq<Event>) {
    AllRoom(Places(events)) && forall p | p in Places(events) :: ClearOfMarks(p)
  }

  lemma {:induction false} LastAcrossIff(list: seq<Placed>, q: Placed, axisY: real)
    ensures Across(AllEvents(list, axisY), EventShapes(q, axisY)) <==> forall p | p in list :: RoomBetween(p, q)
  {
    hide Across, RoomBetween, EventShapes;
    if list == [] {
      AcrossNothing(EventShapes(q, axisY));
    } else {
      var n := |list| - 1;
      assert list == list[..n] + [list[n]];
      LastAcrossIff(list[..n], q, axisY);
      AcrossBoth(AllEvents(list[..n], axisY), EventShapes(list[n], axisY), EventShapes(q, axisY));
      EventsAcrossIff(list[n], q, axisY);
    }
  }

  lemma OneEventIsSeparate(p: Placed, axisY: real)
    ensures Separate(EventShapes(p, axisY))
  {
    hide Separate, EventTexts, Across;
    TextsAreClear(p);
    TextsAreLowered(p, axisY + 26.0);
    forall s | s in Texts(p) ensures s.Line? { TextSpread(p, s); }
    LoweredIsSeparate(Texts(p), axisY + 26.0);
    DotCoversNothing(p.x, axisY, AllLowered(Texts(p), axisY + 26.0), []);
  }

  lemma LoweredIsSeparate(shapes: seq<Shape>, dy: real)
    requires Separate(shapes) && forall s | s in shapes :: s.Line?
    ensures Separate(AllLowered(shapes, dy))
  {
    hide DrawnWidth, LineHeight;
    forall i, j | 0 <= i < j < |shapes|
      ensures Apart(BoxOf(AllLowered(shapes, dy)[i]), BoxOf(AllLowered(shapes, dy)[j]))
    {
      assert shapes[i] in shapes && shapes[j] in shapes;
      assert Apart(BoxOf(shapes[i]), BoxOf(shapes[j]));
    }
  }

  lemma {:induction false} EventsSeparateIff(list: seq<Placed>, axisY: real)
    ensures Separate(AllEvents(list, axisY)) <==> AllRoom(list)
  {
    hide RoomBetween, EventShapes, Across, Separate;
    if list == [] {
      assert Separate([]) by { NothingIsClear(Page(0.0), 0.0); }
    } else {
      var n := |list| - 1;
      EventsSeparateIff(list[..n], axisY);
      OneEventIsSeparate(list[n], axisY);
      LastAcrossIff(list[..n], list[n], axisY);
      SeparateTogether(AllEvents(list[..n], axisY), EventShapes(list[n], axisY));
      LastRoom(list);
    }
  }

  lemma LastRoom(list: seq<Placed>)
    requires list != []
    ensures var n := |list| - 1;
            AllRoom(list) <==> AllRoom(list[..n]) && forall p | p in list[..n] :: RoomBetween(p, list[n])
  {
    hide RoomBetween;
    var n := |list| - 1;
    assert forall i | 0 <= i < n :: list[..n][i] == list[i] && list[i] in list[..n];
  }

  lemma {:induction false} AxisClearIff(list: seq<Placed>, axisY: real, top: real)
    requires axisY == top + 70.0 && forall p | p in list :: LEFT < p.x < FUTURE_END
    ensures Across(Axis(axisY, top), AllEvents(list, axisY)) <==> forall p | p in list :: ClearOfMarks(p)
  {
    hide Across, ClearOfMarks, EventShapes, Axis;
    if list == [] {
      AcrossNothing(Axis(axisY, top));
    } else {
      var n := |list| - 1;
      assert list == list[..n] + [list[n]];
      AxisClearIff(list[..n], axisY, top);
      AcrossBoth(AllEvents(list[..n], axisY), EventShapes(list[n], axisY), Axis(axisY, top));
      AxisAcrossIff(list[n], axisY, top);
    }
  }

  // ---- where the timeline is drawn -------------------------------------------------------

  predicate OnAxis(p: Placed) {
    && LEFT < p.x < FUTURE_END
    && Spread(p.width, 16.0) / 2.0 <= p.x <= VIS_W - Spread(p.width, 16.0) / 2.0
  }

  lemma StepOf(from: real, to: real, n: nat, i: nat)
    requires i < n <= 6 && from <= to
    ensures Step(from, to, n) * (n + 1) as real == to - from
    ensures Step(from, to, n) >= (to - from) / 7.0
    ensures from + Step(from, to, n) <= EventX(from, to, n, i) <= to - Step(from, to, n)
  {
    var step := Step(from, to, n);
    assert step * (n + 1) as real == to - from;
    assert step >= 0.0;
    assert step * (6 - n) as real >= 0.0;
    assert step * 7.0 == step * (n + 1) as real + step * (6 - n) as real;
    assert step * i as real >= 0.0 && step * (n - 1 - i) as real >= 0.0;
    assert step * (i + 1) as real == step * i as real + step;
    assert step * (n + 1) as real == step * (n - 1 - i) as real + step * (i + 1) as real + step;
  }

  lemma SpanIsOnAxis(list: seq<Event>, from: real, to: real, p: Placed)
    requires LEFT <= from && from + 80.0 <= to <= RIGHT
    requires p in InSpan(list, from, to) && |list| <= 6
    requires |list| <= 1 || from + 318.0 <= to
    ensures OnAxis(p)
  {
    var i :| 0 <= i < |list| && InSpan(list, from, to)[i] == p;
    StepOf(from, to, |list|, i);
    hide EventX;
  }

  lemma {:induction false} ZoneIsSmall(events: seq<Event>, zone: string)
    ensures |InZone(events, zone)| <= |events|
  {
    if events != [] { ZoneIsSmall(events[..|events| - 1], zone); }
  }

  lemma PlacesAreOnAxis(events: seq<Event>)
    ensures forall p | p in Places(events) :: OnAxis(p)
  {
    hide OnAxis, InZone, InSpan;
    var shown := AtMost(events, 6);
    ZoneIsSmall(shown, "past");
    ZoneIsSmall(shown, "now");
    ZoneIsSmall(shown, "future");
    forall p | p in Places(events) ensures OnAxis(p) {
      if p in InSpan(InZone(shown, "past"), LEFT, NOW_X - 30.0) {
        SpanIsOnAxis(InZone(shown, "past"), LEFT, NOW_X - 30.0, p);
      } else if p in InSpan(AtMost(InZone(shown, "now"), 1), NOW_X - 80.0, NOW_X + 80.0) {
        SpanIsOnAxis(AtMost(InZone(shown, "now"), 1), NOW_X - 80.0, NOW_X + 80.0, p);
      } else {
        SpanIsOnAxis(InZone(shown, "future"), NOW_X + 30.0, RIGHT, p);
      }
    }
  }

  /** The texts of a timeline keep clear of each other exactly when they fit. */
  lemma TimelineSeparateIff(events: seq<Event>, axisY: real, top: real)
    requires axisY == top + 70.0
    ensures Separate(Axis(axisY, top) + AllEvents(Places(events), axisY)) <==> TimelineFits(events)
  {
    hide Separate, Across, Axis, AllEvents, Places, ClearOfMarks, AllRoom, Spread;
    PlacesAreOnAxis(events);
    AxisIsSeparate(axisY, top);
    EventsSeparateIff(Places(events), axisY);
    AxisClearIff(Places(events), axisY, top);
    SeparateTogether(Axis(axisY, top), AllEvents(Places(events), axisY));
  }

  function AxisFrame(axisY: real, top: real): Box { Box(0.0, top - 10.0, VIS_W, axisY + 40.0) }

  lemma AxisIsSeparate(axisY: real, top: real)
    requires axisY == top + 70.0
    ensures Clear(Axis(axisY, top), AxisFrame(axisY, top), 0.0)
  {
    AxisIs(axisY, top);
    hide Axis, DrawnWidth;
    var marks := Marks(axisY, top);
    assert BoxOf(marks[0]).bottom <= BoxOf(marks[1]).top && BoxOf(marks[0]).bottom <= BoxOf(marks[2]).top;
    assert BoxOf(marks[1]).right <= BoxOf(marks[2]).left;
  }

  lemma EventIsFramed(p: Placed, axisY: real, bottom: real)
    requires OnAxis(p) && bottom >= axisY + 40.0 && bottom >= EventTexts(p, axisY + 26.0).bottom
    ensures Framed(EventShapes(p, axisY), Box(0.0, axisY - 10.0, VIS_W, bottom), 0.0)
  {
    hide EventTexts, Spread, Separate;
    TextsAreClear(p);
    TextsAreLowered(p, axisY + 26.0);
    var texts := EventTexts(p, axisY + 26.0).shapes;
    forall s | s in texts ensures Within(s, Box(0.0, axisY - 10.0, VIS_W, bottom), 0.0) {
      InLowered(Texts(p), axisY + 26.0, s);
      var t :| t in Texts(p) && s == Lowered(t, axisY + 26.0);
      TextSpread(p, t);
      LoweredIsWithin(t, p, axisY, bottom);
    }
  }

  lemma LoweredIsWithin(t: Shape, p: Placed, axisY: real, bottom: real)
    requires TextLine(t, p) && Within(t, TextsFrame(p), 0.0) && OnAxis(p)
    requires bottom >= EventTexts(p, 0.0).bottom + axisY + 26.0
    ensures Within(Lowered(t, axisY + 26.0), Box(0.0, axisY - 10.0, VIS_W, bottom), 0.0)
  {
    hide EventTexts, Spread, DrawnWidth, LineHeight;
  }

  lemma EventsOf(d: Drawing, list: seq<Placed>, axisY: real)
    ensures WithEvents(d, list, axisY).shapes == d.shapes + AllEvents(list, axisY)
    ensures WithEvents(d, list, axisY).bottom >= d.bottom
  {
    hide EventShapes, EventTexts;
    if list != [] { EventsOf(d, list[..|list| - 1], axisY); }
  }

  lemma {:induction false} EventsAreFramed(d: Drawing, list: seq<Placed>, axisY: real, bottom: real)
    requires forall p | p in list :: OnAxis(p)
    requires d.bottom >= axisY + 40.0 && bottom >= WithEvents(d, list, axisY).bottom
    ensures Framed(AllEvents(list, axisY), Box(0.0, axisY - 10.0, VIS_W, bottom), 0.0)
  {
    hide OnAxis, EventShapes, EventTexts, Within;
    EventsOf(d, list, axisY);
    if list != [] {
      var n := |list| - 1;
      assert list[n] in list && forall p | p in list[..n] :: p in list;
      EventsAreFramed(d, list[..n], axisY, bottom);
      EventIsFramed(list[n], axisY, bottom);
    }
  }

  /** Everything a timeline draws lies across the page, above the y it returns, and at most 10 units above
      the y it starts from. */
  lemma TimelineIsFramed(before: seq<Shape>, events: seq<Event>, top: real)
    ensures var d := WithTimeline(before, events, top);
            && d.shapes == before + (Axis(top + 70.0, top) + AllEvents(Places(events), top + 70.0))
            && Framed(Axis(top + 70.0, top) + AllEvents(Places(events), top + 70.0),
                      Box(0.0, top - 10.0, VIS_W, d.bottom), 0.0)
            && d.bottom >= top + 110.0
  {
    hide OnAxis, Axis, AllEvents, Places, WithEvents, Framed, Separate;
    var axisY := top + 70.0;
    var start := Drawing(before + Axis(axisY, top), axisY + 40.0);
    var bottom := WithEvents(start, Places(events), axisY).bottom;
    PlacesAreOnAxis(events);
    EventsOf(start, Places(events), axisY);
    EventsAreFramed(start, Places(events), axisY, bottom);
    AxisIsSeparate(axisY, top);
    FramedBoth(Axis(axisY, top), AxisFrame(axisY, top), AllEvents(Places(events), axisY),
               Box(0.0, axisY - 10.0, VIS_W, bottom),
               Box(0.0, top - 10.0, VIS_W, bottom), 0.0);
  }

  // ---- timelines that fit and timelines that do not --------------------------------------

  predicate OneEach(events: seq<Event>) {
    var shown := AtMost(events, 6);
    |InZone(shown, "past")| <= 1 && |InZone(shown, "future")| <= 1
  }

  // Where the only event of its zone stands.
  predicate StandsAlone(p: Placed) {
    || (p.x == 211.0 && p.width == 170.0)
    || (p.x == 400.0 && p.width == 144.0)
    || (p.x == 589.0 && p.width == 170.0)
  }

  lemma LoneEvent(list: seq<Event>, from: real, to: real)
    requires from <= to && |list| <= 1
    requires (from, to) in {(LEFT, NOW_X - 30.0), (NOW_X - 80.0, NOW_X + 80.0), (NOW_X + 30.0, RIGHT)}
    ensures forall p | p in InSpan(list, from, to) :: StandsAlone(p) && p.x == (from + to) / 2.0
  {
    assert |list| == 1 ==> InSpan(list, from, to) == [Placed(list[0], EventX(from, to, 1, 0), EventWidth(from, to, 1))];
  }

  lemma LoneTexts(p: Placed, s: Shape)
    requires StandsAlone(p) && s in Texts(p)
    ensures s.Line? && Drawn(s) <= if p.width == 170.0 then 192.035 else 164.215
  {
    hide Texts, Drawn;
    TextSpread(p, s);
  }

  lemma AloneHasRoom(a: Placed, b: Placed)
    requires StandsAlone(a) && StandsAlone(b) && a.x < b.x
    ensures RoomBetween(a, b)
  {
    hide Texts, Drawn, Meet;
    forall s, t | s in Texts(a) && t in Texts(b) ensures (Drawn(s) + Drawn(t)) / 2.0 <= Distance(a, b) {
      LoneTexts(a, s);
      LoneTexts(b, t);
    }
  }

  lemma AloneIsClear(p: Placed)
    requires StandsAlone(p)
    ensures ClearOfMarks(p)
  {
    hide Texts, Drawn;
    forall s | s in Texts(p)
      ensures PAST_END <= p.x - Drawn(s) / 2.0 && p.x + Drawn(s) / 2.0 <= FUTURE_START
    {
      LoneTexts(p, s);
    }
  }

  /** Whatever their texts, at most one event before and one after now always fit. */
  lemma OneEachFits(events: seq<Event>)
    requires OneEach(events)
    ensures TimelineFits(events)
  {
    hide InZone, InSpan, StandsAlone, RoomBetween, ClearOfMarks;
    var shown := AtMost(events, 6);
    var past, now, future := InZone(shown, "past"), AtMost(InZone(shown, "now"), 1), InZone(shown, "future");
    LoneEvent(past, LEFT, NOW_X - 30.0);
    LoneEvent(now, NOW_X - 80.0, NOW_X + 80.0);
    LoneEvent(future, NOW_X + 30.0, RIGHT);
    var a, b := InSpan(past, LEFT, NOW_X - 30.0), InSpan(now, NOW_X - 80.0, NOW_X + 80.0);
    var c := InSpan(future, NOW_X + 30.0, RIGHT);
    var all := Places(events);
    assert all == a + b + c;
    forall p | p in all ensures ClearOfMarks(p) { AloneIsClear(p); }
    forall i, j | 0 <= i < j < |all| ensures RoomBetween(all[i], all[j]) {
      assert all[i] in a || all[i] in b;
      assert all[j] in b || all[j] in c;
      AloneHasRoom(all[i], all[j]);
    }
  }

  /** With five or six events after now, the text of the last one always reaches "Future", however short. */
  lemma ManyFutureEventsMeetTheMark(events: seq<Event>)
    requires |InZone(AtMost(events, 6), "future")| >= 5
    requires Texts(Places(events)[|Places(events)| - 1]) != []
    ensures !TimelineFits(events)
  {
    hide Texts, InZone, ClearOfMarks, AllRoom;
    var shown := AtMost(events, 6);
    var list := InZone(shown, "future");
    ZoneIsSmall(shown, "future");
    var p := Places(events)[|Places(events)| - 1];
    var n := |list|;
    assert p == InSpan(list, NOW_X + 30.0, RIGHT)[n - 1];
    StepOf(NOW_X + 30.0, RIGHT, n, n - 1);
    LastX(n);
    StartsBesideTheMarks(p);
    MeetsFuture(p);
    assert p in Places(events);
  }

  lemma LastX(n: nat)
    requires 5 <= n <= 6
    ensures EventX(NOW_X + 30.0, RIGHT, n, n - 1) > FUTURE_START
  {
  }

  lemma StartsBesideTheMarks(p: Placed)
    requires Texts(p) != []
    ensures Texts(p)[0].Line? && Texts(p)[0].top < 5.55
  {
    hide BlockLines, Blank;
    TextSpread(p, Texts(p)[0]);
  }

  lemma MeetsFuture(p: Placed)
    requires Texts(p) != [] && Texts(p)[0].Line? && Texts(p)[0].top < 5.55 && p.x > FUTURE_START
    ensures !ClearOfMarks(p)
  {
    hide Texts, Drawn;
    assert Texts(p)[0] in Texts(p);
  }

  lemma OneWordTexts(p: Placed)
    requires PlainWord(p.event.name) && Blank(p.event.note) && TextWidth(p.event.name, 16.0, true) <= p.width
    ensures Texts(p) == [Line(p.x, 0.0, NAME, [Word(p.event.name, false)])]
    ensures Drawn(Texts(p)[0]) == TextWidth(p.event.name, 16.0, true)
  {
    OneWordBlock(p.event.name, p.x, 0.0, p.width, NAME);
    hide TextWidth, BlockShapes, DrawnWidth, PlainWord, Blank;
  }

  function Twice(name: string): seq<Event> { [Event(name, "past", ""), Event(name, "past", "")] }

  lemma TwoPastEvents(name: string)
    ensures var e := Event(name, "past", "");
            Places(Twice(name)) == [Placed(e, 158.0, 170.0), Placed(e, 264.0, 170.0)]
  {
    var list, e := Twice(name), Event(name, "past", "");
    assert list[..1] == [e] && [e][..0] == [];
    assert InZone([e], "past") == [e] && InZone([e], "now") == [] && InZone([e], "future") == [];
    assert InZone(list, "past") == list && InZone(list, "now") == [] && InZone(list, "future") == [];
  }

  lemma LoneLineMeets(a: Placed, b: Placed)
    requires PlainWord(a.event.name) && Blank(a.event.note) && TextWidth(a.event.name, 16.0, true) <= a.width
    requires b.event == a.event && b.width == a.width
    ensures RoomBetween(a, b) <==> TextWidth(a.event.name, 16.0, true) <= Distance(a, b)
    ensures ClearOfMarks(a)
            <==> && PAST_END <= a.x - TextWidth(a.event.name, 16.0, true) / 2.0
                 && a.x + TextWidth(a.event.name, 16.0, true) / 2.0 <= FUTURE_START
  {
    OneWordTexts(a);
    OneWordTexts(b);
    hide Texts, Drawn, Blank, TextWidth, PlainWord;
    assert Texts(a)[0] in Texts(a) && Texts(b)[0] in Texts(b) && Meet(Texts(a)[0], Texts(b)[0]);
  }

  lemma TwoPlacesFitIff(events: seq<Event>, a: Placed, b: Placed)
    requires Places(events) == [a, b]
    ensures TimelineFits(events) <==> RoomBetween(a, b) && ClearOfMarks(a) && ClearOfMarks(b)
  {
    hide Places, RoomBetween, ClearOfMarks;
    var all := Places(events);
    assert all[0] == a && all[1] == b;
  }

  lemma NoNote()
    ensures Blank("")
  {
  }

  /** Two events before now with the same one-word label that fits its box fit exactly when the label is
      drawn no wider than the 106 units between them. */
  lemma TwoLabelsFitIff(name: string)
    requires PlainWord(name) && TextWidth(name, 16.0, true) <= 170.0
    ensures TimelineFits(Twice(name)) <==> TextWidth(name, 16.0, true) <= 106.0
  {
    TwoPastEvents(name);
    NoNote();
    assert PAST_END == 79.56 && FUTURE_START == 688.0;
    hide *;
    var e := Event(name, "past", "");
    var a, b := Placed(e, 158.0, 170.0), Placed(e, 264.0, 170.0);
    assert Distance(a, b) == Distance(b, a) == 106.0 by { SecondX(a, b); }
    LoneLineMeets(a, b);
    LoneLineMeets(b, a);
    TwoPlacesFitIff(Twice(name), a, b);
  }

  lemma SecondX(a: Placed, b: Placed)
    requires a.x == 158.0 && b.x == 264.0
    ensures Distance(a, b) == Distance(b, a) == 106.0
  {
  }

  lemma TenEms()
    ensures Ems("mmmmmmmmmm") == 8.6
  {
    EmsOfMs();
    hide Ems;
    EmsOfJoined("mm", "mmm");
    EmsOfJoined("mmmmm", "mmmmm");
    assert "mm" + "mmm" == "mmmmm" && "mmmmm" + "mmmmm" == "mmmmmmmmmm";
  }

  /** Two labels that fit their boxes and cover each other. */
  lemma TwoLabelsMeet()
    ensures TextWidth("mmmmmmmmmm", 16.0, true) == 147.232 < 170.0
    ensures !TimelineFits(Twice("mmmmmmmmmm"))
  {
    TenEms();
    LettersArePlain("mmmmmmmmmm");
    hide Ems, TimelineFits, PlainWord;
    TwoLabelsFitIff("mmmmmmmmmm");
  }

  // ---- the whole diagram -----------------------------------------------------------------

  /** The promise that nothing is placed on top of anything else, for diagrams of either kind and as drawn:
      always kept by columns, and by a timeline exactly when its texts fit. Header, chips and footer are
      never covered. */
  lemma NothingCoveredIff(spec: Spec)
    ensures InFrame(Diagram(spec))
    ensures Separate(Diagram(spec).shapes) <==> (IsTimeline(spec) ==> TimelineFits(spec.events))
  {
    hide InFrame, Framed, Separate, Header, WithFooter, WithTimeline, PanelsDiagram, TimelineFits, Places, AllEvents,
        Axis;
    if IsTimeline(spec) {
      HeaderIsTidy(spec);
      var head := Header(spec);
      var top := head.bottom + 18.0;
      var d := WithTimeline(head.shapes, spec.events, top);
      var more := Axis(top + 70.0, top) + AllEvents(Places(spec.events), top + 70.0);
      TimelineIsFramed(head.shapes, spec.events, top);
      TimelineSeparateIff(spec.events, top + 70.0, top);
      DrawnBelow(head, more, Box(0.0, top - 10.0, VIS_W, d.bottom), d.bottom);
      assert d == Drawing(head.shapes + more, d.bottom);
      FooterDrawnBelow(d, spec);
    } else {
      NothingOverlaps(spec);
    }
  }

  /** Exactly the diagrams of either kind that stay on the page. */
  lemma StaysOnPageIff(spec: Spec)
    ensures InPage(Diagram(spec).shapes)
            <==> && LinesAtMost(spec.title, INNER_W, TITLE, VIS_W)
                 && (!IsTimeline(spec) && |spec.panels| == 1 ==> ItemsFit(AtMost(spec.panels[0].items, 6)))
  {
    hide InPage, LinesAtMost, ItemsFit, Framed, Separate, Header, WithFooter, WithTimeline, PanelsDiagram, Places,
        AllEvents, Axis;
    if IsTimeline(spec) {
      var head := Header(spec);
      var top := head.bottom + 18.0;
      var d := WithTimeline(head.shapes, spec.events, top);
      var more := Axis(top + 70.0, top) + AllEvents(Places(spec.events), top + 70.0);
      HeaderInPageIff(spec);
      TimelineIsFramed(head.shapes, spec.events, top);
      FramedInPage(more, Box(0.0, top - 10.0, VIS_W, d.bottom), 0.0);
      InPageBoth(head.shapes, more);
      FooterInPage(d, spec);
    } else {
      ColumnsStayOnPageIff(spec);
    }
  }
}
