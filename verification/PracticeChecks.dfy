/** PracticeChecks: which questions are usable, which answers are the same, and what the check and the rounds
    make of a batch - in terms of the fields of the questions and answers themselves.

    About apps/api/internal/ai/grammar_content.go and grammar_practice.go. */
module PracticeChecks {
  import opened Options
  import opened Text
  import opened Sorting
  import opened Practice
  import opened PageChecks
  import opened PracticeWriter
  import opened PracticeRounds

  // ---- how answers are compared ----------------------------------------------------------

  lemma {:induction false} NothingButMarks(t: string, cut: string)
    ensures TrimRightAny(t, cut) == "" <==> forall c | c in t :: c in cut
  {
    if t != "" {
      var n := |t| - 1;
      assert t[n] in t && t == t[..n] + [t[n]];
      NothingButMarks(t[..n], cut);
    }
  }

  /** Case and spacing make no difference: answers of the same lower-case words are the same. */
  lemma SameWordsSameChoice(s: string, t: string)
    requires Fields(ToLower(s)) == Fields(ToLower(t))
    ensures NormalizeChoice(s) == NormalizeChoice(t)
  {
    LowerFields(s);
    LowerFields(t);
    LowerJoin(Fields(s));
    LowerJoin(Fields(t));
  }

  /** An answer that is normal already - lower case, single spaces, no mark at its end - stays as it is. */
  lemma NormalChoiceStays(s: string)
    requires s == ToLower(s) && s == Join(Fields(s), " ") && (s != "" ==> s[|s| - 1] !in ".!?,;:")
    ensures NormalizeChoice(s) == s
  {
  }

  // A longer last word.
  function LastLonger(words: seq<string>, c: char): seq<string> {
    if words == [] then [[c]] else var n := |words| - 1; words[..n] + [words[n] + [c]]
  }

  lemma {:induction false} OneMoreLetter(s: string, c: char)
    requires !IsSpace(c) && (s != "" ==> !IsSpace(s[0]) || !IsSpace(s[|s| - 1]))
    ensures WordLength(s + [c]) == if WordLength(s) == |s| then |s| + 1 else WordLength(s)
  {
    hide IsSpace;
    var t := s + [c];
    if s == "" {
      assert t[1..] == "";
    } else if !IsSpace(s[0]) {
      assert t[1..] == s[1..] + [c];
      if s[1..] != "" && IsSpace(s[1]) {
        assert t[1] == s[1];
      } else {
        OneMoreLetter(s[1..], c);
      }
    }
  }

  // The fields of a text that begins with a word.
  lemma FirstField(s: string, n: nat)
    requires s != "" && !IsSpace(s[0]) && n == WordLength(s)
    ensures 0 < n <= |s| && Fields(s) == [s[..n]] + Fields(s[n..])
  {
    hide IsSpace;
  }

  lemma NoFields()
    ensures Fields("") == []
  {
  }

  lemma LongerFirst(first: string, rest: seq<string>, c: char)
    requires rest != []
    ensures LastLonger([first] + rest, c) == [first] + LastLonger(rest, c)
  {
    assert ([first] + rest)[..|rest|] == [first] + rest[..|rest| - 1];
  }

  // One letter more, when the text is one word, and when it is not.
  lemma OneWordLonger(s: string, c: char)
    requires s != "" && !IsSpace(s[0]) && !IsSpace(c) && WordLength(s) == |s|
    ensures Fields(s + [c]) == LastLonger(Fields(s), c)
  {
    OneMoreLetter(s, c);
    hide IsSpace, Fields;
    NoFields();
    FirstField(s, |s|);
    FirstField(s + [c], |s| + 1);
    assert s[..|s|] == s && (s + [c])[..|s| + 1] == s + [c];
    assert s[|s|..] == "" && (s + [c])[|s| + 1..] == "";
  }

  lemma LaterWordLonger(s: string, c: char, n: nat)
    requires s != "" && !IsSpace(s[0]) && !IsSpace(s[|s| - 1]) && !IsSpace(c) && n == WordLength(s) < |s|
    requires Fields(s[n..] + [c]) == LastLonger(Fields(s[n..]), c)
    ensures Fields(s + [c]) == LastLonger(Fields(s), c)
  {
    hide *;
    OneMoreLetter(s, c);
    LaterWords(s, n);
    FirstField(s, n);
    assert (s + [c])[..n] == s[..n] && (s + [c])[n..] == s[n..] + [c];
    FirstField(s + [c], n);
    LongerFirst(s[..n], Fields(s[n..]), c);
  }
  lemma {:induction false} LongerFields(s: string, c: char)
    requires !IsSpace(c) && (s != "" ==> !IsSpace(s[|s| - 1]))
    ensures Fields(s + [c]) == LastLonger(Fields(s), c)
    decreases |s|
  {
    hide IsSpace, LastLonger;
    if s == "" {
      OneLetter(c);
    } else if IsSpace(s[0]) {
      assert (s + [c])[1..] == s[1..] + [c];
      LongerFields(s[1..], c);
    } else if WordLength(s) == |s| {
      OneWordLonger(s, c);
    } else {
      LongerFields(s[WordLength(s)..], c);
      LaterWordLonger(s, c, WordLength(s));
    }
  }

  lemma OneLetter(c: char)
    requires !IsSpace(c)
    ensures Fields("" + [c]) == [[c]] == LastLonger(Fields(""), c)
  {
    hide IsSpace;
    NoFields();
    assert "" + [c] == [c] && [c][1..] == "" && WordLength([c]) == 1 && [c][..1] == [c];
  }

  // What follows the first word holds another, if the last character is not a space.
  lemma LaterWords(s: string, n: nat)
    requires n < |s| && !IsSpace(s[|s| - 1])
    ensures Fields(s[n..]) != []
  {
    LastIsInAWord(s[n..]);
  }

  lemma {:induction false} LastIsInAWord(s: string)
    requires s != "" && !IsSpace(s[|s| - 1])
    ensures Fields(s) != []
  {
    hide IsSpace;
    if IsSpace(s[0]) { LastIsInAWord(s[1..]); }
  }

  lemma {:induction false} LongerJoin(words: seq<string>, c: char)
    ensures Join(LastLonger(words, c), " ") == Join(words, " ") + [c]
  {
    if |words| > 1 {
      LongerJoin(words[1..], c);
      assert LastLonger(words, c)[1..] == LastLonger(words[1..], c);
    }
  }

  lemma MarkDropped(s: string, c: char)
    requires c in ".!?,;:" && (s != "" ==> !IsSpace(s[|s| - 1]))
    ensures NormalizeChoice(s + [c]) == NormalizeChoice(s)
  {
    assert !IsSpace(c) && ToLower([c]) == [c];
    LongerFields(s, c);
    LongerJoin(Fields(s), c);
    var t := Join(Fields(s), " ");
    LowerJoined(t, [c]);
    assert ToLower(t + [c]) == ToLower(t) + [c];
    assert (ToLower(t) + [c])[..|t|] == ToLower(t);
  }

  lemma {:induction false} SpaceEndsWord(s: string, c: char)
    requires s != "" && IsSpace(s[|s| - 1])
    ensures WordLength(s + [c]) == WordLength(s) < |s|
  {
    hide IsSpace;
    var t := s + [c];
    if !IsSpace(s[0]) {
      assert t[1..] == s[1..] + [c];
      SpaceEndsWord(s[1..], c);
    }
  }

  lemma {:induction false} WordBehindSpace(s: string, c: char)
    requires s != "" && IsSpace(s[|s| - 1]) && !IsSpace(c)
    ensures Fields(s + [c]) == Fields(s) + [[c]]
    decreases |s|
  {
    hide IsSpace;
    var t := s + [c];
    if IsSpace(s[0]) {
      assert t[1..] == s[1..] + [c];
      if s[1..] == "" {
        OneLetter(c);
        NoFields();
      } else {
        WordBehindSpace(s[1..], c);
      }
    } else {
      SpaceEndsWord(s, c);
      var n := WordLength(s);
      WordBehindSpace(s[n..], c);
      hide Fields;
      FirstField(s, n);
      assert t[..n] == s[..n] && t[n..] == s[n..] + [c];
      FirstField(t, n);
    }
  }

  lemma {:induction false} OneMoreWord(words: seq<string>, w: string)
    requires words != []
    ensures Join(words + [w], " ") == Join(words, " ") + " " + w
  {
    if |words| > 1 {
      OneMoreWord(words[1..], w);
      assert (words + [w])[1..] == words[1..] + [w];
    }
  }

  lemma {:induction false} CutIsShorter(t: string, cut: string)
    ensures |TrimRightAny(t, cut)| <= |t|
  {
    if t != "" { CutIsShorter(t[..|t| - 1], cut); }
  }

  lemma NormalIs(s: string, words: seq<string>)
    requires Fields(s) == words
    ensures NormalizeChoice(s) == TrimRightAny(ToLower(Join(words, " ")), ".!?,;:")
  {
    hide Fields, Join, ToLower, TrimRightAny;
  }

  lemma MarkIs(c: char)
    requires c in ".!?,;:"
    ensures !IsSpace(c) && ToLower([c]) == [c]
  {
  }

  // A mark behind a space is dropped and the space stays.
  lemma SpaceStays(t: string, c: char)
    requires c in ".!?,;:"
    ensures TrimRightAny(ToLower(t + " " + [c]), ".!?,;:") == ToLower(t) + " "
  {
    MarkIs(c);
    LowerJoined(t + " ", [c]);
    LowerJoined(t, " ");
    assert ToLower(" ") == " ";
    var low := ToLower(t) + " ";
    assert (low + [c])[..|low|] == low;
    hide ToLower;
    assert TrimRightAny(low, ".!?,;:") == low;
  }

  lemma SpacedMarkStays(s: string, c: char)
    requires c in ".!?,;:" && s != "" && IsSpace(s[|s| - 1]) && Fields(s) != []
    ensures |NormalizeChoice(s)| < |NormalizeChoice(s + [c])|
  {
    hide *;
    MarkIs(c);
    WordBehindSpace(s, c);
    OneMoreWord(Fields(s), [c]);
    NormalIs(s, Fields(s));
    NormalIs(s + [c], Fields(s) + [[c]]);
    SpaceStays(Join(Fields(s), " "), c);
    CutIsShorter(ToLower(Join(Fields(s), " ")), ".!?,;:");
  }

  /** A final mark makes no difference exactly when it does not stand behind a space - or has nothing before it. */
  lemma FinalMarkIff(s: string, c: char)
    requires c in ".!?,;:"
    ensures NormalizeChoice(s + [c]) == NormalizeChoice(s) <==> Fields(s) == [] || !IsSpace(s[|s| - 1])
  {
    if s == "" || !IsSpace(s[|s| - 1]) {
      MarkDropped(s, c);
      NoFields();
      if Fields(s) != [] { assert s != ""; }
    } else if Fields(s) == [] {
      OnlyAMark(s, c);
    } else {
      SpacedMarkStays(s, c);
    }
  }

  lemma OnlyAMark(s: string, c: char)
    requires c in ".!?,;:" && s != "" && IsSpace(s[|s| - 1]) && Fields(s) == []
    ensures NormalizeChoice(s + [c]) == NormalizeChoice(s)
  {
    hide *;
    MarkIs(c);
    WordBehindSpace(s, c);
    NormalIs(s, []);
    NormalIs(s + [c], [[c]]);
    LoneMark(c);
  }

  lemma LoneMark(c: char)
    requires c in ".!?,;:"
    ensures TrimRightAny(ToLower(Join([[c]], " ")), ".!?,;:") == TrimRightAny(ToLower(Join([], " ")), ".!?,;:")
  {
    MarkIs(c);
    assert Join([[c]], " ") == [c] && Join([], " ") == "" && ToLower("") == "";
    hide ToLower;
    assert [c][..0] == "";
  }
  // ---- which questions are kept, and as what ---------------------------------------------

  /** The answers that say something, trimmed, in the order they were written. */
  lemma {:induction false} TrimAllIs(accepted: seq<string>) returns (at: seq<nat>)
    ensures var r := TrimAll(accepted);
            && |at| == |r| && Places(at, |accepted|)
            && (forall k | 0 <= k < |accepted| :: k in at <==> !AllSpaces(accepted[k]))
            && (forall i | 0 <= i < |r| :: r[i] == Trim(accepted[at[i]]))
  {
    hide AllSpaces, Trim;
    if accepted == [] {
      return [];
    }
    var n := |accepted| - 1;
    at := TrimAllIs(accepted[..n]);
    TrimOfSpaces(accepted[n]);
    OneMorePlace(at, n);
    if !AllSpaces(accepted[n]) { at := at + [n]; }
  }

  /** A question the marker can use: it has a prompt; as a gap question one gap and answers that say something,
      trimmed; as a choice two options or more, a key that is one of them, and no option that is blank or the
      same as another. */
  predicate CanBeMarked(q: Question) {
    && q.prompt != ""
    && (q.kind == "fill_blank" ==>
          && OneGap(q.prompt) && q.accepted != []
          && forall a | a in q.accepted :: a != "" && !IsSpace(a[0]) && !IsSpace(a[|a| - 1]))
    && (q.kind != "fill_blank" ==>
          && q.kind == "multiple_choice" && 2 <= |q.options| && 0 <= q.answerIndex < |q.options|
          && (forall o | o in q.options :: NormalizeChoice(o) != "")
          && forall i, j | 0 <= i < j < |q.options| :: NormalizeChoice(q.options[i]) != NormalizeChoice(q.options[j]))
  }

  lemma OptionsDifferIff(options: seq<string>)
    ensures OptionsDistinct(options)
            <==> && (forall o | o in options :: NormalizeChoice(o) != "")
                 && forall i, j | 0 <= i < j < |options| :: NormalizeChoice(options[i]) != NormalizeChoice(options[j])
  {
    hide NormalizeChoice;
    var keys := Keys(options);
    assert forall i | 0 <= i < |options| ::
        keys[i] == NormalizeChoice(options[i]) && options[i] in options && keys[i] in keys;
    if exists o :: o in options && NormalizeChoice(o) == "" {
      var i :| 0 <= i < |options| && NormalizeChoice(options[i]) == "";
      assert keys[i] == "";
    }
  }

  lemma MarkableIff(q: Question)
    ensures Markable(q) <==> CanBeMarked(q)
  {
    OneGapIff(q.prompt);
    OptionsDifferIff(q.options);
    hide OneGap, GapCount, IsSpace, NormalizeChoice, OptionsDistinct;
    assert forall a | a in q.accepted :: Clean(a) <==> a != "" && !IsSpace(a[0]) && !IsSpace(a[|a| - 1]);
  }
  /** What tidying makes of a question: its prompt trimmed, with every longer gap as one of three; the fields of
      its kind trimmed and those of the other kind emptied; what explains it as it was. */
  ghost predicate TidiedFrom(t: Question, q: Question) {
    && t.prompt == CollapseGaps(Trim(q.prompt))
    && t.explanation == q.explanation && t.targetRule == q.targetRule
    && (q.kind == "fill_blank" ==>
          && t.kind == "fill_blank" && t.options == [] && t.answerIndex == -1 && t.hint == Trim(q.hint)
          && IsTrimmedList(t.accepted, q.accepted))
    && (q.kind != "fill_blank" ==>
          && t.kind == "multiple_choice" && t.options == q.options && t.answerIndex == q.answerIndex
          && t.hint == "" && t.accepted == [])
  }

  ghost predicate IsTrimmedList(r: seq<string>, accepted: seq<string>) {
    exists at: seq<nat> | |at| == |r| && Places(at, |accepted|) ::
      && (forall k | 0 <= k < |accepted| :: k in at <==> !AllSpaces(accepted[k]))
      && (forall i | 0 <= i < |r| :: r[i] == Trim(accepted[at[i]]))
  }

  lemma TidiedIs(q: Question)
    ensures TidiedFrom(Tidied(q), q)
  {
    var at := TrimAllIs(q.accepted);
    hide AllSpaces, Trim, CollapseGaps, TrimAll, Places;
  }

  /** The questions kept are, in the order they were written, the tidied forms of exactly those whose tidied
      form can be marked. */
  lemma {:induction false} UsableIs(questions: seq<Question>) returns (at: seq<nat>)
    ensures var r := Usable(questions);
            && |at| == |r| && Places(at, |questions|)
            && (forall k | 0 <= k < |questions| :: k in at <==> CanBeMarked(Tidied(questions[k])))
            && (forall i | 0 <= i < |r| :: r[i] == Tidied(questions[at[i]]) && TidiedFrom(r[i], questions[at[i]]))
  {
    hide TidiedFrom, Tidied, CanBeMarked, Markable, Usable, Kept;
    if questions == [] {
      UsableEnds(questions);
      return [];
    }
    var n := |questions| - 1;
    at := UsableIs(questions[..n]);
    TidiedIs(questions[n]);
    UsableEnds(questions);
    OneMorePlace(at, n);
    assert forall k | 0 <= k < n :: questions[..n][k] == questions[k];
    if CanBeMarked(Tidied(questions[n])) { at := at + [n]; }
  }

  lemma UsableEnds(questions: seq<Question>)
    ensures questions == [] ==> Usable(questions) == []
    ensures questions != [] ==>
              var n := |questions| - 1;
              var t := Tidied(questions[n]);
              Usable(questions) == Usable(questions[..n]) + if CanBeMarked(t) then [t] else []
  {
    hide Tidied, CanBeMarked, Markable;
    if questions != [] { MarkableIff(Tidied(questions[|questions| - 1])); }
  }

  // ---- what the check leaves -------------------------------------------------------------

  predicate Same(a: string, b: string) { NormalizeChoice(a) == NormalizeChoice(b) }

  // Whether the checker accepts an answer.
  predicate Accepts(a: CheckAnswer, answer: string) {
    Same(a.answerText, answer) || exists x | x in a.acceptable :: Same(x, answer)
  }

  // Whether every fill of the checker's that says something is in the key.
  predicate KeyHasAll(q: Question, a: CheckAnswer) {
    && (NormalizeChoice(a.answerText) == "" || exists y | y in q.accepted :: Same(y, a.answerText))
    && forall x | x in a.acceptable && NormalizeChoice(x) != "" :: exists y | y in q.accepted :: Same(y, x)
  }

  /** Whether a question passes: not ambiguous; a choice, with the checker's index; a gap, with the checker's own
      answer in its key and nothing the checker accepts outside it. */
  predicate Agrees(q: Question, a: CheckAnswer) {
    && !a.ambiguous
    && (q.kind != "fill_blank" ==> a.answerIndex == q.answerIndex)
    && (q.kind == "fill_blank" ==> (exists y | y in q.accepted :: Same(y, a.answerText)) && KeyHasAll(q, a))
  }

  lemma AgreesIff(q: Question, a: CheckAnswer)
    ensures Judge(q, a).Some? <==> Agrees(q, a)
  {
    hide NormalizeChoice;
    if q.IsFillBlank() && !Open(q.accepted, Fills(a)) {
      assert NormalizeChoice(a.answerText) in Fills(a);
      forall x | x in a.acceptable ensures NormalizeChoice(x) in Fills(a) {}
    }
    if q.IsFillBlank() && KeyHasAll(q, a) {
      forall f | f in Fills(a) && f != "" ensures f in NormalForms(q.accepted) {
        if f != NormalizeChoice(a.answerText) {
          var x :| x in a.acceptable && NormalizeChoice(x) == f;
          assert exists y | y in q.accepted :: Same(y, x);
        }
      }
    }
  }

  lemma AcceptsIff(a: CheckAnswer, answer: string)
    ensures Accepts(a, answer) <==> NormalizeChoice(answer) in Fills(a)
  {
    hide NormalizeChoice;
  }

  /** A gap question's key keeps, in order, exactly the answers the checker accepts too. */
  lemma {:induction false} NarrowedTo(accepted: seq<string>, a: CheckAnswer) returns (at: seq<nat>)
    ensures var r := Narrowed(accepted, Fills(a));
            && |at| == |r| && Places(at, |accepted|)
            && (forall k | 0 <= k < |accepted| :: k in at <==> Accepts(a, accepted[k]))
            && (forall i | 0 <= i < |r| :: r[i] == accepted[at[i]])
  {
    hide NormalizeChoice, Accepts, Fills;
    if accepted == [] {
      return [];
    }
    var n := |accepted| - 1;
    at := NarrowedTo(accepted[..n], a);
    AcceptsIff(a, accepted[n]);
    OneMorePlace(at, n);
    if Accepts(a, accepted[n]) { at := at + [n]; }
  }

  /** Which of a batch are kept: a question with its number exactly when the first answer to that number agrees
      with it. */
  lemma {:induction false} JudgedIff(questions: seq<Question>, answers: seq<CheckAnswer>, s: Survivor)
    ensures s in JudgeAll(questions, answers).kept <==> FirstAgrees(questions, answers, s)
    ensures s.index in JudgeAll(questions, answers).answered
            <==> 1 <= s.index <= |questions| && exists a | a in answers :: a.index == s.index
  {
    if answers != [] {
      hide Judge;
      var n := |answers| - 1;
      var a, before := answers[n], answers[..n];
      JudgedIff(questions, before, s);
      assert answers == before + [a];
      FirstOrBefore(questions, before, a, s);
      hide FirstAgrees;
    }
  }

  predicate FirstAgrees(questions: seq<Question>, answers: seq<CheckAnswer>, s: Survivor) {
    1 <= s.index <= |questions| && exists k | 0 <= k < |answers| :: IsFirst(questions, answers, s, k)
  }

  // Answer k is the first to the number of s, and judges its question as s has it.
  predicate IsFirst(questions: seq<Question>, answers: seq<CheckAnswer>, s: Survivor, k: nat)
    requires 1 <= s.index <= |questions| && k < |answers|
  {
    && answers[k].index == s.index && Judge(questions[s.index - 1], answers[k]) == Some(s.question)
    && forall j | 0 <= j < k :: answers[j].index != s.index
  }

  lemma FirstOrBefore(questions: seq<Question>, before: seq<CheckAnswer>, a: CheckAnswer, s: Survivor)
    ensures FirstAgrees(questions, before + [a], s)
            <==> || FirstAgrees(questions, before, s)
                 || (&& 1 <= s.index <= |questions| && a.index == s.index
                     && Judge(questions[s.index - 1], a) == Some(s.question)
                     && forall x | x in before :: x.index != s.index)
  {
    hide Judge;
    var answers, n := before + [a], |before|;
    if 1 <= s.index <= |questions| {
      assert forall j | 0 <= j < n :: answers[j] == before[j];
      forall k | 0 <= k < n ensures IsFirst(questions, answers, s, k) <==> IsFirst(questions, before, s, k) {
        if IsFirst(questions, answers, s, k) {
          forall j | 0 <= j < k ensures before[j].index != s.index { assert answers[j].index != s.index; }
        }
      }
      if IsFirst(questions, answers, s, n) {
        forall j | 0 <= j < n ensures before[j].index != s.index { assert answers[j].index != s.index; }
      }
      assert IsFirst(questions, answers, s, n)
             <==> && a.index == s.index && Judge(questions[s.index - 1], a) == Some(s.question)
                  && forall j | 0 <= j < n :: before[j].index != s.index;
      assert (forall j | 0 <= j < n :: before[j].index != s.index) <==> forall x | x in before :: x.index != s.index;
      hide IsFirst;
    }
  }

  /** So is every question a check leaves, and no other. */
  lemma KeptIff(questions: seq<Question>, answers: seq<CheckAnswer>, s: Survivor)
    ensures s in Agreed(questions, answers) <==> FirstAgrees(questions, answers, s)
  {
    hide Agreed, JudgeAll, FirstAgrees;
    AgreedIsPermutation(questions, answers);
    JudgedIff(questions, answers, s);
  }

  // ---- what the rounds make --------------------------------------------------------------

  /** What is the same about two questions: prompt and options, compared as answers are. */
  function AsAsked(q: Question): string { NormalizeChoice(q.prompt + "|" + Join(q.options, "|")) }

  /** What a check leaves of a batch: the first fifteen of those that pass, or of all when there was no check. */
  function Passed(questions: seq<Question>, check: Option<seq<CheckAnswer>>): seq<Question> {
    match check
    case None => questions[..if |questions| < 15 then |questions| else 15]
    case Some(answers) =>
      var kept := Agreed(questions, answers);
      seq(if |kept| < 15 then |kept| else 15, i requires 0 <= i < |kept| => kept[i].question)
  }

  lemma AfterCheckIs(questions: seq<Question>, check: Option<seq<CheckAnswer>>)
    ensures AfterCheck(questions, check) == Passed(questions, check)
  {
    hide Agreed;
    if questions == [] && check.Some? { NobodyPasses(check.value); }
    if check.Some? {
      var kept := Agreed(questions, check.value);
      assert QuestionsOf(kept)[..if |kept| < 15 then |kept| else 15] == Passed(questions, check);
    }
  }

  lemma NobodyPasses(answers: seq<CheckAnswer>)
    ensures Agreed([], answers) == []
  {
    hide Agreed;
    if Agreed([], answers) != [] {
      var s := Agreed([], answers)[0];
      assert s in Agreed([], answers);
      KeptIff([], answers, s);
      assert false;
    }
  }

  function AllAsked(questions: seq<Question>): set<string> { set q | q in questions :: AsAsked(q) }

  /** The different questions of the rounds before the first that failed. */
  function KeysBefore(rounds: seq<Round>): set<string> {
    if rounds == [] || rounds[0].Failed? then {}
    else AllAsked(Passed(Usable(rounds[0].batch), rounds[0].check)) + KeysBefore(rounds[1..])
  }

  lemma AskedAreKeys(questions: seq<Question>)
    ensures AllAsked(questions) == KeysOf(questions)
  {
    hide NormalizeChoice, Join;
    assert forall q :: AsAsked(q) == KeyOf(q);
  }

  predicate NoneFailed(rounds: seq<Round>) { forall r | r in rounds :: r.Wrote? }

  lemma {:induction false} OneMoreRound(rounds: seq<Round>, r: Round)
    ensures !NoneFailed(rounds) || r.Failed? ==> KeysBefore(rounds + [r]) == KeysBefore(rounds)
    ensures NoneFailed(rounds) && r.Wrote? ==>
              KeysBefore(rounds + [r]) == KeysBefore(rounds) + AllAsked(Passed(Usable(r.batch), r.check))
  {
    hide AllAsked, Passed, Usable;
    var all := rounds + [r];
    if rounds == [] {
      assert all == [r] && all[1..] == [];
    } else if rounds[0].Wrote? {
      assert all[1..] == rounds[1..] + [r];
      OneMoreRound(rounds[1..], r);
      assert rounds == [rounds[0]] + rounds[1..];
    }
  }

  // The rounds so far: full, or with everything that came before a failure.
  predicate HasAll(p: Progress, rounds: seq<Round>) {
    && KeysOf(p.kept) <= KeysBefore(rounds)
    && (|p.kept| >= 15 || KeysOf(p.kept) == KeysBefore(rounds))
    && (p.over ==> !NoneFailed(rounds)) && (!p.over && |p.kept| < 15 ==> NoneFailed(rounds))
    && (p.failed <==> rounds != [] && rounds[0].Failed?)
    && (p.failed ==> p.over)
    && (rounds == [] ==> p == Progress([], false, false))
  }

  lemma RoundHasAll(p: Progress, rounds: seq<Round>, r: Round)
    requires HasAll(p, rounds)
    ensures HasAll(Advance(p, r, rounds == []), rounds + [r])
  {
    OneMoreRound(rounds, r);
    if r.Wrote? {
      AfterCheckIs(Usable(r.batch), r.check);
      AskedAreKeys(AfterCheck(Usable(r.batch), r.check));
    }
    hide KeysOf, KeysBefore, AfterCheck, Usable, AllAsked, Passed;
    assert NoneFailed(rounds + [r]) <==> NoneFailed(rounds) && r.Wrote? by {
      assert r in rounds + [r] && forall x | x in rounds :: x in rounds + [r];
    }
    if !p.over && |p.kept| < 15 && r.Wrote? {
      var batch := AfterCheck(Usable(r.batch), r.check);
      MergeLosesNothing(p.kept, batch);
    }
    assert rounds != [] ==> (rounds + [r])[0] == rounds[0];
  }

  lemma NoRounds()
    ensures AfterRounds([]) == Progress([], false, false) && HasAll(Progress([], false, false), [])
  {
  }

  lemma LastRound(rounds: seq<Round>)
    requires rounds != []
    ensures var n := |rounds| - 1;
            AfterRounds(rounds) == Advance(AfterRounds(rounds[..n]), rounds[n], rounds[..n] == [])
  {
    hide Advance;
    assert rounds[..|rounds| - 1] == [] <==> |rounds| == 1;
  }

  lemma {:induction false} RoundsHaveAll(rounds: seq<Round>)
    ensures HasAll(AfterRounds(rounds), rounds)
  {
    hide *;
    if rounds == [] {
      NoRounds();
    } else {
      var n := |rounds| - 1;
      RoundsHaveAll(rounds[..n]);
      LastRound(rounds);
      assert rounds[..n] + [rounds[n]] == rounds;
      RoundHasAll(AfterRounds(rounds[..n]), rounds[..n], rounds[n]);
    }
  }
  lemma {:induction false} AsManyKeys(questions: seq<Question>)
    requires DistinctKeys(questions)
    ensures |KeysOf(questions)| == |questions|
  {
    hide KeyOf;
    if questions != [] {
      var n := |questions| - 1;
      AsManyKeys(questions[..n]);
      KeysOfOneMore(questions[..n], questions[n]);
      assert questions[..n] + [questions[n]] == questions;
    }
  }

  lemma SmallerSet(a: set<string>, b: set<string>)
    requires a <= b
    ensures |a| <= |b|
  {
    assert b == a + (b - a);
  }

  /** There is a test exactly when the first round was written and the rounds before the first failure left eight
      different questions; it has all of them, or fifteen. */
  lemma EnoughIffTest(rounds: seq<Round>)
    requires |rounds| == ROUNDS
    ensures var keys := KeysBefore(rounds);
            && (Test(rounds).Some? <==> rounds[0].Wrote? && |keys| >= 8)
            && (Test(rounds).Some? ==>
                  && |Test(rounds).value| == (if |keys| < 15 then |keys| else 15)
                  && AllAsked(Test(rounds).value) <= keys
                  && forall i, j | 0 <= i < j < |Test(rounds).value| ::
                       AsAsked(Test(rounds).value[i]) != AsAsked(Test(rounds).value[j]))
  {
    if Test(rounds).Some? { AskedDiffer(rounds); }
    hide KeysOf, AllAsked, KeysBefore, AfterRounds, DistinctKeys, AllMarkable;
    var p, keys := AfterRounds(rounds), KeysBefore(rounds);
    RoundsHaveAll(rounds);
    RoundsKeep(rounds);
    AsManyKeys(p.kept);
    SmallerSet(KeysOf(p.kept), keys);
    FewerKeys(p.kept, Cap(p.kept));
    AskedAreKeys(Cap(p.kept));
  }

  lemma AskedDiffer(rounds: seq<Round>)
    requires |rounds| == ROUNDS && Test(rounds).Some?
    ensures var test := Test(rounds).value; forall i, j | 0 <= i < j < |test| :: AsAsked(test[i]) != AsAsked(test[j])
  {
    TestCanBeMarked(rounds);
    hide Test, NormalizeChoice, Join;
    assert forall q :: AsAsked(q) == KeyOf(q);
  }

  lemma FewerKeys(questions: seq<Question>, some: seq<Question>)
    requires some <= questions
    ensures KeysOf(some) <= KeysOf(questions)
  {
    hide KeyOf;
    forall k | k in KeysOf(some) ensures k in KeysOf(questions) {
      var q :| q in some && KeyOf(q) == k;
      assert q in questions;
    }
  }
}
