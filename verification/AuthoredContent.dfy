/** AuthoredContent: one lesson shared by every requested level, then validated level by level - the
    levels in one slice, and all of them over the same slice of questions.

    Models shareLesson, validateAuthoredContent and the end of AuthorGrammarContent in
    apps/api/internal/ai/grammar_content.go. A copied lesson still points at the original's questions. */
module AuthoredContent {
  import opened Text
  import opened Options
  import opened Sorting
  import opened Practice

  /** A level as the model wrote it: examples and formulas by their number, questions by the length of its
      slice of them. */
  datatype Lesson = Lesson(
    level: string,
    applicable: bool,
    reason: string,
    explanation: string,
    intro: string,
    examples: nat,
    formulas: nat,
    questions: nat)

  const BASE_CODES := {"A1", "A2", "B1", "B2", "C1", "C2"}

  // ---- which lesson is shared ------------------------------------------------------------

  predicate HasText(l: Lesson) { l.applicable && Trim(l.explanation + l.intro) != "" }

  // What validation asks of an applicable level.
  predicate Teachable(l: Lesson) {
    !(Trim(l.explanation) == "" && Trim(l.intro) == "") && !(l.examples == 0 && l.formulas == 0)
  }

  function SharedLesson(written: seq<Lesson>): Option<Lesson> {
    if written == [] then None
    else if HasText(written[0]) then Some(written[0])
    else SharedLesson(written[1..])
  }

  /** A lesson with text is one that validation finds text in. */
  lemma TextIsText(l: Lesson)
    ensures Trim(l.explanation + l.intro) == "" <==> Trim(l.explanation) == "" && Trim(l.intro) == ""
  {
    hide IsSpace;
    TrimOfSpaces(l.explanation + l.intro);
    TrimOfSpaces(l.explanation);
    TrimOfSpaces(l.intro);
    var all := l.explanation + l.intro;
    assert forall c | c in l.explanation :: c in all;
    assert forall c | c in l.intro :: c in all;
  }

  lemma {:induction false} SharedHasText(written: seq<Lesson>)
    ensures match SharedLesson(written)
            case Some(l) => HasText(l)
            case None => forall l | l in written :: !HasText(l)
  {
    hide HasText;
    if written != [] {
      assert written == [written[0]] + written[1..];
      SharedHasText(written[1..]);
    }
  }

  function Copy(l: Lesson, code: string): Lesson { l.(level := code, applicable := true, reason := "") }

  function Copies(l: Lesson, requested: seq<string>): seq<Lesson> {
    if requested == [] then [] else Copies(l, requested[..|requested| - 1]) + [Copy(l, requested[|requested| - 1])]
  }

  function Shared(written: seq<Lesson>, requested: seq<string>): seq<Lesson> {
    match SharedLesson(written)
    case Some(l) => Copies(l, requested)
    case None => written
  }

  // ---- validation, level by level --------------------------------------------------------

  function Normal(l: Lesson): Lesson { l.(level := ToUpper(Trim(l.level))) }

  // What was asked for stays, normalised, if it is a refusal or can be taught.
  predicate Stays(l: Lesson, requested: seq<string>) { l.level in requested && (!l.applicable || Teachable(l)) }

  predicate Drops(l: Lesson, requested: seq<string>) { l.level in requested && l.applicable && !Teachable(l) }

  function KeptLevels(levels: seq<Lesson>, requested: seq<string>): seq<Lesson> {
    if levels == [] then []
    else
      var n := |levels| - 1;
      var l := Normal(levels[n]);
      KeptLevels(levels[..n], requested) + if Stays(l, requested) then [l] else []
  }

  function DroppedLevels(levels: seq<Lesson>, requested: seq<string>): seq<string> {
    if levels == [] then []
    else
      var n := |levels| - 1;
      var l := Normal(levels[n]);
      DroppedLevels(levels[..n], requested) + if Drops(l, requested) then [l.level] else []
  }

  lemma OneMoreLevel(levels: seq<Lesson>, l: Lesson, requested: seq<string>)
    ensures var v := Normal(l);
            && KeptLevels(levels + [l], requested)
               == KeptLevels(levels, requested) + (if Stays(v, requested) then [v] else [])
            && DroppedLevels(levels + [l], requested)
               == DroppedLevels(levels, requested) + (if Drops(v, requested) then [v.level] else [])
  {
    hide Stays, Drops, Normal;
    assert (levels + [l])[..|levels|] == levels;
  }

  lemma NoLevels(levels: seq<Lesson>, requested: seq<string>)
    ensures KeptLevels(levels[..0], requested) == [] && DroppedLevels(levels[..0], requested) == []
  {
  }

  // A level that says something and shows something.
  predicate SaysAndShows(l: Lesson) {
    !(AllSpaces(l.explanation) && AllSpaces(l.intro)) && (l.examples > 0 || l.formulas > 0)
  }

  lemma StaysIff(l: Lesson, requested: seq<string>)
    ensures var v, code := Normal(l), ToUpper(Trim(l.level));
            && v == l.(level := code)
            && (Stays(v, requested) <==> code in requested && (l.applicable ==> SaysAndShows(l)))
            && (Drops(v, requested) <==> code in requested && l.applicable && !SaysAndShows(l))
  {
    TrimOfSpaces(l.explanation);
    TrimOfSpaces(l.intro);
    hide AllSpaces, Trim, ToUpper;
  }

  /** The levels kept, in the order they were written and under their codes in capitals: of those asked for, the
      refusals and the ones that say and show something. */
  lemma {:induction false} KeptLevelsAre(levels: seq<Lesson>, requested: seq<string>) returns (at: seq<nat>)
    ensures var kept := KeptLevels(levels, requested);
            && |at| == |kept| && Places(at, |levels|)
            && (forall k | 0 <= k < |levels| ::
                  k in at <==> && ToUpper(Trim(levels[k].level)) in requested
                               && (levels[k].applicable ==> SaysAndShows(levels[k])))
            && (forall i | 0 <= i < |kept| :: kept[i] == levels[at[i]].(level := ToUpper(Trim(levels[at[i]].level))))
  {
    hide ToUpper, Trim, SaysAndShows, Stays, Drops, Normal;
    if levels == [] {
      return [];
    }
    var n := |levels| - 1;
    at := KeptLevelsAre(levels[..n], requested);
    StaysIff(levels[n], requested);
    OneMoreLevel(levels[..n], levels[n], requested);
    assert levels[..n] + [levels[n]] == levels;
    hide KeptLevels, DroppedLevels;
    OneMorePlace(at, n);
    if Stays(Normal(levels[n]), requested) { at := at + [n]; }
  }

  /** The levels named as empty: those asked for and taught that do not. */
  lemma {:induction false} DroppedLevelsAre(levels: seq<Lesson>, requested: seq<string>) returns (at: seq<nat>)
    ensures var dropped := DroppedLevels(levels, requested);
            && |at| == |dropped| && Places(at, |levels|)
            && (forall k | 0 <= k < |levels| ::
                  k in at <==> && ToUpper(Trim(levels[k].level)) in requested
                               && levels[k].applicable && !SaysAndShows(levels[k]))
            && (forall i | 0 <= i < |dropped| :: dropped[i] == ToUpper(Trim(levels[at[i]].level)))
  {
    hide ToUpper, Trim, SaysAndShows, Stays, Drops, Normal;
    if levels == [] {
      return [];
    }
    var n := |levels| - 1;
    at := DroppedLevelsAre(levels[..n], requested);
    StaysIff(levels[n], requested);
    OneMoreLevel(levels[..n], levels[n], requested);
    assert levels[..n] + [levels[n]] == levels;
    hide KeptLevels, DroppedLevels;
    OneMorePlace(at, n);
    if Drops(Normal(levels[n]), requested) { at := at + [n]; }
  }

  // ---- the whole generation --------------------------------------------------------------

  datatype Generation = Written(levels: seq<Lesson>, dropped: seq<string>) | Failed(dropped: seq<string>)

  function Authored(written: seq<Lesson>, requested: seq<string>): Generation {
    if requested == [] then Failed([])
    else
      var levels := Shared(written, requested);
      var kept, dropped := KeptLevels(levels, requested), DroppedLevels(levels, requested);
      if kept == [] then Failed(dropped) else Written(kept, dropped)
  }

  lemma CodeIsNormal(s: string)
    requires s in BASE_CODES
    ensures ToUpper(Trim(s)) == s
  {
    assert |s| == 2 && 'A' <= s[0] <= 'C' && '1' <= s[1] <= '2';
    hide BASE_CODES;
    TrimIsTrimmed(s);
    hide Trim;
    assert Trim(s) == s by { PrintableIsNoSpace(s[0]); PrintableIsNoSpace(s[1]); }
  }

  lemma PrintableIsNoSpace(c: char)
    requires '!' <= c <= '~'
    ensures !IsSpace(c)
  {
  }

  lemma CopyIs(l: Lesson, code: string, all: seq<string>)
    requires HasText(l) && code in BASE_CODES && code in all
    ensures var copy := Copy(l, code);
            && Normal(copy) == copy && copy.level == code
            && (Stays(Normal(copy), all) <==> Teachable(l))
            && (Drops(Normal(copy), all) <==> !Teachable(l))
  {
    CodeIsNormal(code);
    hide ToUpper, Trim;
  }

  lemma {:induction false} CopiesAreAlike(l: Lesson, requested: seq<string>, all: seq<string>)
    requires HasText(l) && forall c | c in requested :: c in BASE_CODES && c in all
    ensures KeptLevels(Copies(l, requested), all) == if Teachable(l) then Copies(l, requested) else []
    ensures DroppedLevels(Copies(l, requested), all) == if Teachable(l) then [] else requested
  {
    hide HasText, Teachable, Normal, Stays, Drops, BASE_CODES, KeptLevels, DroppedLevels, Copy;
    if requested == [] {
      NoLevels([], all);
    } else {
      var n := |requested| - 1;
      var code := requested[n];
      assert code in requested && forall c | c in requested[..n] :: c in requested;
      CopiesAreAlike(l, requested[..n], all);
      CopyIs(l, code, all);
      OneMoreLevel(Copies(l, requested[..n]), Copy(l, code), all);
      assert requested == requested[..n] + [code];
    }
  }

  // The refusals among the levels that were asked for.
  function Refusals(levels: seq<Lesson>, requested: seq<string>): seq<Lesson> {
    if levels == [] then []
    else
      var n := |levels| - 1;
      var l := Normal(levels[n]);
      Refusals(levels[..n], requested) + if l.level in requested && !l.applicable then [l] else []
  }

  lemma WithoutText(l: Lesson, requested: seq<string>)
    requires !HasText(l)
    ensures Stays(Normal(l), requested) <==> Normal(l).level in requested && !Normal(l).applicable
  {
    TextIsText(l);
    hide Trim;
  }

  lemma {:induction false} OnlyRefusalsAreKept(levels: seq<Lesson>, requested: seq<string>)
    requires forall l | l in levels :: !HasText(l)
    ensures KeptLevels(levels, requested) == Refusals(levels, requested)
  {
    hide HasText, Stays, Normal;
    if levels != [] {
      var n := |levels| - 1;
      assert levels[n] in levels && forall l | l in levels[..n] :: l in levels;
      WithoutText(levels[n], requested);
      OnlyRefusalsAreKept(levels[..n], requested);
    }
  }

  /** Every requested level gets the lesson under its own code, taught and without a reason. */
  lemma {:induction false} CopiesAre(l: Lesson, requested: seq<string>)
    ensures var copies := Copies(l, requested);
            && |copies| == |requested|
            && forall i | 0 <= i < |copies| ::
                 copies[i] == Lesson(requested[i], true, "", l.explanation, l.intro, l.examples, l.formulas,
                     l.questions)
  {
    if requested != [] { CopiesAre(l, requested[..|requested| - 1]); }
  }

  /** The first lesson with text decides for every level that was asked for: each gets a copy of it - the
      refusals the model wrote are gone - or, exactly when it has neither examples nor formulas, none gets
      anything. Without such a lesson the refusals asked for are all that is kept, and the generation
      fails exactly when there is none. */
  lemma FirstLessonDecides(written: seq<Lesson>, requested: seq<string>)
    requires requested != [] && forall c | c in requested :: c in BASE_CODES
    ensures match SharedLesson(written)
            case Some(l) =>
              Authored(written, requested)
              == if l.examples == 0 && l.formulas == 0 then Failed(requested) else Written(Copies(l, requested), [])
            case None =>
              && (Authored(written, requested).Failed? <==> Refusals(written, requested) == [])
              && (Authored(written, requested).Written? ==>
                    Authored(written, requested).levels == Refusals(written, requested))
  {
    SharedHasText(written);
    match SharedLesson(written) {
      case Some(l) =>
        TextIsText(l);
        CopiesAreAlike(l, requested, requested);
        assert |Copies(l, requested)| > 0;
      case None =>
        OnlyRefusalsAreKept(written, requested);
    }
  }

  /** So one bare lesson in front fails a generation that also wrote a level fit to teach. */
  lemma BareLessonFailsAll(bare: Lesson, good: Lesson, requested: seq<string>)
    requires HasText(bare) && bare.examples == 0 && bare.formulas == 0 && Teachable(good)
    requires requested != [] && forall c | c in requested :: c in BASE_CODES
    ensures Authored([bare, good], requested) == Failed(requested)
  {
    FirstLessonDecides([bare, good], requested);
  }

  // ---- the shared questions --------------------------------------------------------------

  /** The slice after one level's questions have been filtered in place. */
  function Pass(p: seq<Question>): (r: seq<Question>)
    requires |Usable(p)| <= |p|
    ensures |r| == |p|
  {
    Usable(p) + p[|Usable(p)|..]
  }

  lemma {:induction false} UsableIsShorter(p: seq<Question>)
    ensures |Usable(p)| <= |p|
  {
    hide Kept;
    if p != [] {
      UsableIsShorter(p[..|p| - 1]);
      assert |Kept(p[|p| - 1])| <= 1 by { AtMostItself(p[|p| - 1]); }
    }
  }

  lemma AtMostItself(q: Question)
    ensures |Kept(q)| <= 1
  {
  }

  function AfterPasses(p: seq<Question>, n: nat): (r: seq<Question>)
    ensures |r| == |p|
  {
    if n == 0 then p
    else
      var before := AfterPasses(p, n - 1);
      UsableIsShorter(before);
      Pass(before)
  }

  /** The questions the n-th level (from 0) is left with. */
  function LevelQuestions(p: seq<Question>, n: nat): seq<Question> {
    Usable(AfterPasses(p, n))
  }

  lemma OneMoreQuestion(p: seq<Question>, q: Question)
    ensures Usable(p + [q]) == Usable(p) + Kept(q)
  {
    hide Kept;
    assert (p + [q])[..|p|] == p;
  }

  lemma Associates(x: seq<Question>, y: seq<Question>, z: seq<Question>)
    ensures x + (y + z) == x + y + z
  {
  }

  lemma {:induction false} UsableOfJoined(a: seq<Question>, b: seq<Question>)
    ensures Usable(a + b) == Usable(a) + Usable(b)
  {
    hide Kept;
    if b == [] {
      assert a + b == a;
    } else {
      var n := |b| - 1;
      var q := b[n];
      UsableOfJoined(a, b[..n]);
      OneMoreQuestion(a + b[..n], q);
      OneMoreQuestion(b[..n], q);
      assert b == b[..n] + [q];
      Associates(a, b[..n], [q]);
      hide Usable;
      assert a + b == a + b[..n] + [q];
      Associates(Usable(a), Usable(b[..n]), Kept(q));
    }
  }

  lemma OneMorePass(p: seq<Question>)
    ensures |Usable(p)| <= |p|
    ensures Usable(Pass(p)) == Usable(p) + Usable(p[|Usable(p)|..])
  {
    hide Kept;
    UsableIsShorter(p);
    UsableOfJoined(Usable(p), p[|Usable(p)|..]);
    UsableIsIdempotent(p);
  }

  predicate CanBeUsed(q: Question) { Kept(q) != [] }

  /** No question that can be marked stands behind one that cannot. */
  predicate UsableFirst(p: seq<Question>) {
    forall i, j | 0 <= i < j < |p| && CanBeUsed(p[j]) :: CanBeUsed(p[i])
  }

  lemma LastOf(p: seq<Question>)
    requires p != []
    ensures forall q :: q in p <==> q in p[..|p| - 1] || q == p[|p| - 1]
    ensures |Usable(p)| == |Usable(p[..|p| - 1])| + if CanBeUsed(p[|p| - 1]) then 1 else 0
  {
    hide Kept;
    AtMostItself(p[|p| - 1]);
    assert p == p[..|p| - 1] + [p[|p| - 1]];
  }

  lemma {:induction false} NoneUsable(p: seq<Question>)
    ensures Usable(p) == [] <==> forall q | q in p :: !CanBeUsed(q)
  {
    hide Kept, CanBeUsed;
    if p != [] {
      hide Usable;
      NoneUsable(p[..|p| - 1]);
      LastOf(p);
      assert Usable(p) == [] <==> |Usable(p)| == 0;
    }
  }

  lemma {:induction false} AllUsable(p: seq<Question>)
    ensures |Usable(p)| == |p| <==> forall q | q in p :: CanBeUsed(q)
  {
    hide Kept, CanBeUsed;
    if p != [] {
      hide Usable;
      AllUsable(p[..|p| - 1]);
      UsableIsShorter(p[..|p| - 1]);
      LastOf(p);
    }
  }

  // Where the usable questions come first, exactly they are in front.
  lemma {:induction false} FrontIsUsable(p: seq<Question>)
    requires UsableFirst(p)
    ensures |Usable(p)| <= |p| && Usable(p[|Usable(p)|..]) == []
  {
    hide Kept;
    UsableIsShorter(p);
    if p != [] {
      var n := |p| - 1;
      FrontIsUsable(p[..n]);
      AtMostItself(p[n]);
      if CanBeUsed(p[n]) {
        assert forall q | q in p :: CanBeUsed(q);
        AllUsable(p);
        assert p[|Usable(p)|..] == [];
      } else {
        var k := |Usable(p)|;
        assert p[k..] == p[..n][k..] + [p[n]];
        UsableOfJoined(p[..n][k..], [p[n]]);
        NoneUsable([p[n]]);
      }
    }
  }

  lemma TailTells(p: seq<Question>)
    ensures |Usable(p)| <= |p|
    ensures Usable(p[|Usable(p)|..]) == [] <==> UsableFirst(p)
  {
    hide Kept, CanBeUsed;
    UsableIsShorter(p);
    var k := |Usable(p)|;
    if UsableFirst(p) { FrontIsUsable(p); }
    if Usable(p[k..]) == [] { TailIsUsable(p, k); }
  }

  lemma TailIsUsable(p: seq<Question>, k: nat)
    requires k == |Usable(p)| <= |p| && Usable(p[k..]) == []
    ensures UsableFirst(p)
  {
    hide Usable, CanBeUsed;
    UsableOfJoined(p[..k], p[k..]);
    assert p == p[..k] + p[k..];
    AllUsable(p[..k]);
    NoneUsable(p[k..]);
    forall i | 0 <= i < k ensures CanBeUsed(p[i]) { assert p[..k][i] in p[..k]; }
    forall j | k <= j < |p| ensures !CanBeUsed(p[j]) { assert p[k..][j - k] in p[k..]; }
  }

  lemma {:induction false} NothingMoreComes(p: seq<Question>, n: nat)
    requires UsableFirst(p)
    ensures LevelQuestions(p, n) == Usable(p) && |Usable(p)| <= |p|
    ensures AfterPasses(p, n)[|Usable(p)|..] == p[|Usable(p)|..]
  {
    hide Kept;
    UsableIsShorter(p);
    if n > 0 {
      NothingMoreComes(p, n - 1);
      TailTells(p);
      OneMorePass(AfterPasses(p, n - 1));
    }
  }

  /** Every level is left with the first one's questions exactly when no usable question was written
      behind an unusable one; otherwise the second level already finds the questions that the first
      one's compaction left behind in the slice a second time. */
  lemma LevelsAgreeIff(p: seq<Question>, levels: nat)
    requires levels >= 2
    ensures (forall n | 0 <= n < levels :: LevelQuestions(p, n) == Usable(p)) <==> UsableFirst(p)
  {
    hide Kept, UsableFirst;
    if UsableFirst(p) {
      forall n | 0 <= n < levels ensures LevelQuestions(p, n) == Usable(p) { NothingMoreComes(p, n); }
    } else {
      OneMorePass(p);
      TailTells(p);
      assert AfterPasses(p, 0) == p;
      assert LevelQuestions(p, 1) == Usable(p) + Usable(p[|Usable(p)|..]);
    }
  }

  // A later pass leaves in place what an earlier level has kept.
  lemma {:induction false} KeptStaysInPlace(p: seq<Question>, n: nat, m: nat)
    requires n < m
    ensures var kept := LevelQuestions(p, n); |kept| <= |p| && AfterPasses(p, m)[..|kept|] == kept
    decreases m
  {
    hide Kept, Usable;
    var kept := LevelQuestions(p, n);
    UsableIsShorter(AfterPasses(p, n));
    if m == n + 1 {
      assert AfterPasses(p, m)[..|kept|] == kept;
    } else {
      KeptStaysInPlace(p, n, m - 1);
      var before := AfterPasses(p, m - 1);
      FrontSurvives(before, kept);
      UsableOfUsable(p, n);
    }
  }

  lemma UsableOfUsable(p: seq<Question>, n: nat)
    ensures Usable(LevelQuestions(p, n)) == LevelQuestions(p, n)
  {
    UsableIsIdempotent(AfterPasses(p, n));
  }

  lemma FrontSurvives(before: seq<Question>, kept: seq<Question>)
    requires |kept| <= |before| && before[..|kept|] == kept
    ensures |Usable(before)| <= |before|
    ensures Usable(kept) == kept ==> Pass(before)[..|kept|] == kept
  {
    hide Kept;
    UsableIsShorter(before);
    UsableOfJoined(kept, before[|kept|..]);
    assert before == kept + before[|kept|..];
  }

  // ---- levels and questions in one pass --------------------------------------------------

  // How many of the levels are taught: each of them filters the questions once.
  function Taught(kept: seq<Lesson>): nat {
    if kept == [] then 0 else var n := |kept| - 1; Taught(kept[..n]) + if kept[n].applicable then 1 else 0
  }

  /** The kept levels with the lengths that filtering the shared questions p leaves them. */
  function WithQuestions(kept: seq<Lesson>, p: seq<Question>): (r: seq<Lesson>)
    ensures |r| == |kept|
  {
    if kept == [] then []
    else
      var n := |kept| - 1;
      WithQuestions(kept[..n], p)
      + [if kept[n].applicable then kept[n].(questions := |LevelQuestions(p, Taught(kept[..n]))|) else kept[n]]
  }

  lemma OneMoreKept(kept: seq<Lesson>, l: Lesson, p: seq<Question>)
    ensures Taught(kept + [l]) == Taught(kept) + if l.applicable then 1 else 0
    ensures WithQuestions(kept + [l], p)
            == WithQuestions(kept, p) + [if l.applicable then l.(questions := |LevelQuestions(p, Taught(kept))|) else l]
  {
    hide LevelQuestions;
    assert (kept + [l])[..|kept|] == kept;
  }

  /** A taught level holds the front of the shared slice that its own pass has kept. */
  predicate HoldsItsQuestions(slice: seq<Question>, kept: seq<Lesson>, p: seq<Question>, i: nat)
    requires i < |kept|
  {
    var k := WithQuestions(kept, p)[i].questions;
    kept[i].applicable ==> k <= |slice| && slice[..k] == LevelQuestions(p, Taught(kept[..i]))
  }

  lemma {:induction false} QuestionsOf(kept: seq<Lesson>, p: seq<Question>, i: nat)
    requires i < |kept| && kept[i].applicable
    ensures WithQuestions(kept, p)[i].questions == |LevelQuestions(p, Taught(kept[..i]))|
    ensures Taught(kept[..i]) < Taught(kept)
  {
    hide LevelQuestions;
    var n := |kept| - 1;
    if i < n {
      QuestionsOf(kept[..n], p, i);
      assert kept[..n][..i] == kept[..i];
    }
  }

  lemma EachHoldsItsQuestions(kept: seq<Lesson>, p: seq<Question>, i: nat)
    requires i < |kept|
    ensures HoldsItsQuestions(AfterPasses(p, Taught(kept)), kept, p, i)
  {
    if kept[i].applicable {
      QuestionsOf(kept, p, i);
      KeptStaysInPlace(p, Taught(kept[..i]), Taught(kept));
      hide AfterPasses, LevelQuestions;
    }
  }

  // A normalised level after validation, when n others before it were taught.
  function Validated(l: Lesson, requested: seq<string>, p: seq<Question>, n: nat): Lesson {
    if Stays(l, requested) && l.applicable then l.(questions := |LevelQuestions(p, n)|) else l
  }

  lemma NextKept(levels: seq<Lesson>, i: nat, requested: seq<string>, p: seq<Question>)
    requires i < |levels|
    ensures var l := Normal(levels[i]);
            var before, after := KeptLevels(levels[..i], requested), KeptLevels(levels[..i + 1], requested);
            && Taught(after) == Taught(before) + (if Stays(l, requested) && l.applicable then 1 else 0)
            && WithQuestions(after, p)
               == WithQuestions(before, p)
                  + (if Stays(l, requested) then [Validated(l, requested, p, Taught(before))] else [])
            && DroppedLevels(levels[..i + 1], requested)
               == DroppedLevels(levels[..i], requested) + (if Drops(l, requested) then [l.level] else [])
  {
    hide Stays, Drops, Normal, KeptLevels, DroppedLevels, LevelQuestions, WithQuestions, Taught;
    OneMoreLevel(levels[..i], levels[i], requested);
    assert levels[..i + 1] == levels[..i] + [levels[i]];
    var before := KeptLevels(levels[..i], requested);
    assert before + [] == before;
    OneMoreKept(before, Normal(levels[i]), p);
  }

  /** One level, normalised: whether it is kept, and if it is taught, with the questions its pass leaves it. */
  method ValidateLevel(l: Lesson, shared: array<Question>, requested: seq<string>, ghost p: seq<Question>, ghost n: nat)
    returns (v: Lesson, kept: bool, dropped: bool)
    requires shared[..] == AfterPasses(p, n)
    modifies shared
    ensures v == Validated(l, requested, p, n)
    ensures kept == Stays(l, requested) && dropped == Drops(l, requested)
    ensures shared[..] == AfterPasses(p, if kept && l.applicable then n + 1 else n)
  {
    hide Teachable, AfterPasses, LevelQuestions, Usable;
    v, kept, dropped := l, false, false;
    if l.level !in requested {
      return;
    }
    if !l.applicable {
      kept := true;
      return;
    }
    if !Teachable(l) {
      dropped := true;
      return;
    }
    NextPass(p, n);
    var k := UsablePractice(shared);
    assert shared[..] == shared[..k] + shared[k..];
    v, kept := l.(questions := k), true;
  }

  /** Compacts the levels in place, each normalised where it stands first, and names those dropped. Every
      taught level filters the questions it shares with the others: it keeps the front of the slice, and
      later levels leave that front as it is. */
  method ValidateContent(a: array<Lesson>, shared: array<Question>, requested: seq<string>)
    returns (n: nat, dropped: seq<string>)
    modifies a, shared
    ensures n <= a.Length
    ensures a[..n] == WithQuestions(KeptLevels(old(a[..]), requested), old(shared[..]))
    ensures shared[..] == AfterPasses(old(shared[..]), Taught(KeptLevels(old(a[..]), requested)))
    ensures forall i | 0 <= i < |KeptLevels(old(a[..]), requested)| ::
              HoldsItsQuestions(shared[..], KeptLevels(old(a[..]), requested), old(shared[..]), i)
    ensures forall j | n <= j < a.Length :: SameButQuestions(a[j], Normal(old(a[j])))
    ensures dropped == DroppedLevels(old(a[..]), requested)
  {
    hide *;
    ghost var was, p, kept := a[..], shared[..], [];
    n, dropped := 0, [];
    NothingKept(was, requested, p);
    for i := 0 to a.Length
      invariant n <= i
      invariant kept == KeptLevels(was[..i], requested)
      invariant a[..n] == WithQuestions(kept, p)
      invariant shared[..] == AfterPasses(p, Taught(kept))
      invariant dropped == DroppedLevels(was[..i], requested)
      invariant forall j | n <= j < i :: SameButQuestions(a[j], Normal(was[j]))
      invariant forall j | i <= j < a.Length :: a[j] == was[j]
    {
      NextKept(was, i, requested, p);
      ghost var passed := Taught(kept);
      kept := KeptLevels(was[..i + 1], requested);
      var v, keeps, drops := ValidateLevel(Normal(a[i]), shared, requested, p, passed);
      ValidatedIs(Normal(was[i]), requested, p, passed);
      a[i] := v;
      if keeps {
        a[n] := v;
        n := n + 1;
      } else if drops {
        dropped := dropped + [v.level];
      }
    }
    assert was[..a.Length] == was;
    forall i | 0 <= i < |kept| ensures HoldsItsQuestions(shared[..], kept, p, i) {
      EachHoldsItsQuestions(kept, p, i);
    }
  }

  predicate SameButQuestions(a: Lesson, b: Lesson) { a.(questions := b.questions) == b }

  lemma ValidatedIs(l: Lesson, requested: seq<string>, p: seq<Question>, n: nat)
    ensures SameButQuestions(Validated(l, requested, p, n), l) && Validated(l, requested, p, n).level == l.level
    ensures SameButQuestions(l, l)
    ensures !(Stays(l, requested) && Drops(l, requested))
  {
    hide Teachable, LevelQuestions;
  }

  lemma NothingKept(levels: seq<Lesson>, requested: seq<string>, p: seq<Question>)
    ensures KeptLevels(levels[..0], requested) == [] && DroppedLevels(levels[..0], requested) == []
    ensures Taught([]) == 0 && WithQuestions([], p) == [] && AfterPasses(p, 0) == p
  {
  }

  lemma NextPass(p: seq<Question>, n: nat)
    ensures var before := AfterPasses(p, n);
            && |Usable(before)| <= |before| && LevelQuestions(p, n) == Usable(before)
            && AfterPasses(p, n + 1) == Usable(before) + before[|Usable(before)|..]
  {
    UsableIsShorter(AfterPasses(p, n));
  }

  lemma {:induction false} FirstCopies(l: Lesson, requested: seq<string>, i: nat)
    requires i <= |requested|
    ensures |Copies(l, requested)| == |requested| && Copies(l, requested)[..i] == Copies(l, requested[..i])
  {
    hide Copy;
    if requested != [] {
      var n := |requested| - 1;
      FirstCopies(l, requested[..n], if i < n then i else n);
      if i <= n {
        assert requested[..n][..i] == requested[..i];
      } else {
        assert requested[..i] == requested;
      }
    }
  }

  lemma {:induction false} CopiesAreTaught(l: Lesson, requested: seq<string>)
    ensures Taught(Copies(l, requested)) == |requested| == |Copies(l, requested)|
  {
    if requested != [] {
      var n := |requested| - 1;
      CopiesAreTaught(l, requested[..n]);
      OneMoreKept(Copies(l, requested[..n]), Copy(l, requested[n]), []);
      hide Taught;
    }
  }

  /** Of a generation whose first lesson with text can be taught, the i-th requested level ends with the
      questions of the i-th pass over the shared slice. */
  lemma SharedLessonQuestions(l: Lesson, requested: seq<string>, p: seq<Question>, i: nat)
    requires Teachable(l) && HasText(l) && forall c | c in requested :: c in BASE_CODES
    requires i < |requested|
    ensures var kept := KeptLevels(Copies(l, requested), requested);
            && |kept| == |requested| && kept[i] == Copy(l, requested[i])
            && Taught(kept) == |requested|
            && WithQuestions(kept, p)[i].questions == |LevelQuestions(p, i)|
  {
    CopiesAreAlike(l, requested, requested);
    FirstCopies(l, requested, i);
    FirstCopies(l, requested, i + 1);
    CopiesAreTaught(l, requested);
    CopiesAreTaught(l, requested[..i]);
    assert requested[..i + 1][..i] == requested[..i];
    assert Copies(l, requested)[i] == Copies(l, requested[..i + 1])[i] == Copy(l, requested[i]);
    hide *;
    CopyIsApplicable(l, requested[i]);
    QuestionsOf(Copies(l, requested), p, i);
  }

  lemma CopyIsApplicable(l: Lesson, code: string)
    ensures Copy(l, code).applicable
  {
  }

  /** So all requested levels end with the same questions exactly when no usable question was written
      behind an unusable one. */
  lemma SharedLevelsAgreeIff(l: Lesson, requested: seq<string>, p: seq<Question>)
    requires Teachable(l) && HasText(l) && |requested| >= 2 && forall c | c in requested :: c in BASE_CODES
    ensures var levels := WithQuestions(KeptLevels(Copies(l, requested), requested), p);
            && |levels| == |requested|
            && ((forall i, j | 0 <= i < j < |levels| :: levels[i].questions == levels[j].questions) <==> UsableFirst(p))
  {
    LevelsAgreeIff(p, |requested|);
    var levels := WithQuestions(KeptLevels(Copies(l, requested), requested), p);
    forall i | 0 <= i < |requested| ensures |levels| == |requested| && levels[i].questions == |LevelQuestions(p, i)| {
      SharedLessonQuestions(l, requested, p, i);
    }
    SecondIsLonger(p);
    hide *;
    if forall i, j | 0 <= i < j < |levels| :: levels[i].questions == levels[j].questions {
      assert levels[0].questions == levels[1].questions;
    }
  }

  lemma SecondIsLonger(p: seq<Question>)
    ensures LevelQuestions(p, 0) == Usable(p)
    ensures |LevelQuestions(p, 1)| == |LevelQuestions(p, 0)| <==> UsableFirst(p)
  {
    OneMorePass(p);
    TailTells(p);
    hide Kept, UsableFirst;
    assert AfterPasses(p, 0) == p;
    assert LevelQuestions(p, 1) == Usable(p) + Usable(p[|Usable(p)|..]);
  }
}
