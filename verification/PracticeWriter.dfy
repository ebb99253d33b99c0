/** PracticeWriter: a test is written in rounds, each batch filtered, answered again by a checker that
    does not see the key, and merged into the questions kept so far.

    Models apps/api/internal/ai/grammar_practice.go. */
module PracticeWriter {
  import opened Text
  import opened Options
  import opened Sorting
  import opened Practice

  const SET_SIZE := 15
  const MIN_USABLE := 8
  const ROUNDS := 3

  datatype CheckAnswer = CheckAnswer(
    index: int,
    answerIndex: int,
    answerText: string,
    acceptable: seq<string>,
    ambiguous: bool)

  // ---- one question against one answer ---------------------------------------------------

  /** Every fill the checker accepts, in normal form. */
  function Fills(a: CheckAnswer): set<string> {
    {NormalizeChoice(a.answerText)} + NormalForms(a.acceptable)
  }

  function NormalForms(answers: seq<string>): set<string> {
    set x | x in answers :: NormalizeChoice(x)
  }

  // The written answers the checker accepts too.
  function Narrowed(accepted: seq<string>, fills: set<string>): seq<string> {
    if accepted == [] then []
    else
      var n := |accepted| - 1;
      Narrowed(accepted[..n], fills) + if NormalizeChoice(accepted[n]) in fills then [accepted[n]] else []
  }

  predicate Open(accepted: seq<string>, fills: set<string>) {
    exists f | f in fills :: f != "" && f !in NormalForms(accepted)
  }

  /** The question as the check leaves it, if it agrees with the key. */
  function Judge(q: Question, a: CheckAnswer): Option<Question> {
    if a.ambiguous then None
    else if q.IsFillBlank() then
      if NormalizeChoice(a.answerText) !in NormalForms(q.accepted) || Open(q.accepted, Fills(a)) then None
      else Some(q.(accepted := Narrowed(q.accepted, Fills(a))))
    else if a.answerIndex != q.answerIndex then None
    else Some(q)
  }

  lemma {:induction false} NarrowedIs(accepted: seq<string>, fills: set<string>)
    ensures forall x :: x in Narrowed(accepted, fills) <==> x in accepted && NormalizeChoice(x) in fills
  {
    hide NormalizeChoice;
    if accepted != [] {
      var n := |accepted| - 1;
      NarrowedIs(accepted[..n], fills);
      assert accepted == accepted[..n] + [accepted[n]];
    }
  }

  /** A kept choice question has the checker's index. A kept gap question's key, on non-empty normal
      forms, is exactly the set of fills the checker accepts, with the checker's own among them. */
  lemma JudgeIsSound(q: Question, a: CheckAnswer)
    requires Judge(q, a).Some?
    ensures var r := Judge(q, a).value;
            && !a.ambiguous
            && r == q.(accepted := r.accepted)
            && (!q.IsFillBlank() ==> r == q && a.answerIndex == q.answerIndex)
            && (q.IsFillBlank() ==>
                  && (forall x | x in r.accepted :: x in q.accepted)
                  && NormalForms(r.accepted) - {""} == Fills(a) - {""}
                  && NormalizeChoice(a.answerText) in NormalForms(r.accepted))
  {
    hide NormalizeChoice;
    if q.IsFillBlank() {
      NarrowedIs(q.accepted, Fills(a));
      var r := Judge(q, a).value;
      forall f | f in Fills(a) && f in NormalForms(q.accepted) ensures f in NormalForms(r.accepted) {
        var x :| x in q.accepted && NormalizeChoice(x) == f;
        assert x in r.accepted;
      }
    }
  }

  /** Agreement keeps a question markable and tidy. */
  lemma JudgeKeepsMarkable(q: Question, a: CheckAnswer)
    requires Markable(q) && Tidy(q) && Judge(q, a).Some?
    ensures Markable(Judge(q, a).value) && Tidy(Judge(q, a).value)
  {
    JudgeIsSound(q, a);
    hide NormalizeChoice, GapCount, OptionsDistinct, Trimmed, CollapseGaps;
    assert Judge(q, a).value.accepted == [] ==> NormalForms([]) == {};
  }

  // ---- a whole check ---------------------------------------------------------------------

  /** A question kept, with its number in the batch (from 1). */
  datatype Survivor = Survivor(index: int, question: Question)

  datatype Judging = Judging(kept: seq<Survivor>, answered: set<int>)

  function TakeAnswer(j: Judging, questions: seq<Question>, a: CheckAnswer): Judging {
    if !(1 <= a.index <= |questions|) || a.index in j.answered then j
    else
      var r := Judge(questions[a.index - 1], a);
      Judging(j.kept + if r.Some? then [Survivor(a.index, r.value)] else [], j.answered + {a.index})
  }

  function JudgeAll(questions: seq<Question>, answers: seq<CheckAnswer>): Judging {
    if answers == [] then Judging([], {})
    else TakeAnswer(JudgeAll(questions, answers[..|answers| - 1]), questions, answers[|answers| - 1])
  }

  // The place a prompt was last written at; where two questions share one, both go by the later.
  function LastPlace(questions: seq<Question>, prompt: string): int {
    if questions == [] then 0
    else if questions[|questions| - 1].prompt == prompt then |questions| - 1
    else LastPlace(questions[..|questions| - 1], prompt)
  }

  function PlaceOf(questions: seq<Question>): Survivor -> int {
    (s: Survivor) => LastPlace(questions, s.question.prompt)
  }

  function Agreed(questions: seq<Question>, answers: seq<CheckAnswer>): seq<Survivor> {
    StableSort(JudgeAll(questions, answers).kept, PlaceOf(questions))
  }

  function QuestionsOf(kept: seq<Survivor>): (r: seq<Question>)
    ensures |r| == |kept|
  {
    seq(|kept|, i requires 0 <= i < |kept| => kept[i].question)
  }

  /** Each kept question is the judged form of the question with its number. */
  ghost predicate FromCheck(questions: seq<Question>, answers: seq<CheckAnswer>, s: Survivor) {
    && 1 <= s.index <= |questions|
    && exists a | a in answers :: a.index == s.index && Judge(questions[s.index - 1], a) == Some(s.question)
  }

  lemma {:induction false} JudgedFromCheck(questions: seq<Question>, answers: seq<CheckAnswer>)
    ensures forall s | s in JudgeAll(questions, answers).kept ::
            FromCheck(questions, answers, s) && s.index in JudgeAll(questions, answers).answered
  {
    if answers != [] {
      hide Judge;
      var n := |answers| - 1;
      JudgedFromCheck(questions, answers[..n]);
      var a, before := answers[n], JudgeAll(questions, answers[..n]);
      assert a in answers && forall x | x in answers[..n] :: x in answers;
      forall s | s in before.kept ensures FromCheck(questions, answers, s) {
        assert FromCheck(questions, answers[..n], s);
      }
    }
  }

  // No question is judged twice.
  ghost predicate EachOnce(kept: seq<Survivor>) {
    NoRepeats(kept) && forall s, t | s in kept && t in kept && s.index == t.index :: s == t
  }

  lemma {:induction false} JudgedOnce(questions: seq<Question>, answers: seq<CheckAnswer>)
    ensures EachOnce(JudgeAll(questions, answers).kept)
  {
    if answers != [] {
      hide Judge, FromCheck;
      JudgedOnce(questions, answers[..|answers| - 1]);
      JudgedFromCheck(questions, answers[..|answers| - 1]);
      var kept := JudgeAll(questions, answers[..|answers| - 1]).kept;
      assert forall i | 0 <= i < |kept| :: kept[i] in kept;
    }
  }

  lemma AgreedIsPermutation(questions: seq<Question>, answers: seq<CheckAnswer>)
    ensures multiset(Agreed(questions, answers)) == multiset(JudgeAll(questions, answers).kept)
    ensures SortedBy(Agreed(questions, answers), PlaceOf(questions))
    ensures forall s :: s in Agreed(questions, answers) <==> s in JudgeAll(questions, answers).kept
  {
    hide JudgeAll, SortedBy, StableSort;
    SortSorts(JudgeAll(questions, answers).kept, PlaceOf(questions));
    SameElements(Agreed(questions, answers), JudgeAll(questions, answers).kept);
  }

  /** Whatever the check answers, what is kept are questions of the batch, each judged by an answer
      with its number, and still markable. */
  lemma AgreedIsSound(questions: seq<Question>, answers: seq<CheckAnswer>)
    requires forall q | q in questions :: Markable(q) && Tidy(q)
    ensures forall s | s in Agreed(questions, answers) ::
              FromCheck(questions, answers, s) && Markable(s.question) && Tidy(s.question)
  {
    hide Agreed, JudgeAll, Markable, Tidy, Judge;
    AgreedIsPermutation(questions, answers);
    JudgedFromCheck(questions, answers);
    forall s | s in Agreed(questions, answers) ensures Markable(s.question) && Tidy(s.question) {
      assert FromCheck(questions, answers, s);
      var a :| a in answers && a.index == s.index && Judge(questions[s.index - 1], a) == Some(s.question);
      assert questions[s.index - 1] in questions;
      JudgeKeepsMarkable(questions[s.index - 1], a);
    }
  }

  // ---- written order ---------------------------------------------------------------------

  predicate PromptsDistinct(questions: seq<Question>) {
    forall i, j | 0 <= i < j < |questions| :: questions[i].prompt != questions[j].prompt
  }

  predicate InWrittenOrder(kept: seq<Survivor>) {
    forall i, j | 0 <= i < j < |kept| :: kept[i].index < kept[j].index
  }

  lemma {:induction false} LastPlaceIs(questions: seq<Question>, prompt: string)
    requires exists q | q in questions :: q.prompt == prompt
    ensures var p := LastPlace(questions, prompt);
            && 0 <= p < |questions| && questions[p].prompt == prompt
            && forall i | p < i < |questions| :: questions[i].prompt != prompt
  {
    var n := |questions| - 1;
    if questions[n].prompt != prompt {
      var q :| q in questions && q.prompt == prompt;
      assert q in questions[..n];
      LastPlaceIs(questions[..n], prompt);
    }
  }

  lemma PlaceIsIndex(questions: seq<Question>, answers: seq<CheckAnswer>, s: Survivor)
    requires FromCheck(questions, answers, s) && PromptsDistinct(questions)
    ensures PlaceOf(questions)(s) == s.index - 1
  {
    var a :| a in answers && a.index == s.index && Judge(questions[s.index - 1], a) == Some(s.question);
    JudgeIsSound(questions[s.index - 1], a);
    assert questions[s.index - 1] in questions;
    LastPlaceIs(questions, s.question.prompt);
  }

  lemma DistinctIndices(questions: seq<Question>, answers: seq<CheckAnswer>)
    ensures var kept := Agreed(questions, answers);
            forall i, j | 0 <= i < j < |kept| :: kept[i].index != kept[j].index
  {
    hide Agreed, JudgeAll, FromCheck;
    AgreedIsPermutation(questions, answers);
    JudgedOnce(questions, answers);
    var kept, judged := Agreed(questions, answers), JudgeAll(questions, answers).kept;
    RearrangedNoRepeats(judged, kept);
    forall i, j | 0 <= i < j < |kept| ensures kept[i].index != kept[j].index {
      assert kept[i] in kept && kept[j] in kept;
    }
  }

  lemma DistinctPromptsKeepOrder(questions: seq<Question>, answers: seq<CheckAnswer>)
    requires PromptsDistinct(questions)
    ensures InWrittenOrder(Agreed(questions, answers))
  {
    hide Agreed, JudgeAll, FromCheck, PromptsDistinct, PlaceOf;
    AgreedIsPermutation(questions, answers);
    JudgedFromCheck(questions, answers);
    DistinctIndices(questions, answers);
    var kept := Agreed(questions, answers);
    forall s | s in kept { PlaceIsIndex(questions, answers, s); }
    assert forall i | 0 <= i < |kept| :: kept[i] in kept;
  }

  // The answer of a checker who agrees with question i's key.
  function Agreeing(questions: seq<Question>, i: nat): CheckAnswer
    requires i < |questions|
  {
    var q := questions[i];
    CheckAnswer(i + 1, q.answerIndex, if q.accepted != [] then q.accepted[0] else "", q.accepted, false)
  }

  lemma AgreeingIsKept(questions: seq<Question>, i: nat)
    requires i < |questions| && Markable(questions[i])
    ensures var r := Judge(questions[i], Agreeing(questions, i)); r.Some? && r.value.prompt == questions[i].prompt
  {
    hide NormalizeChoice, GapCount, OptionsDistinct;
    var q := questions[i];
    if q.IsFillBlank() { assert q.accepted[0] in q.accepted; }
  }

  lemma TwoAnswers(questions: seq<Question>, a: CheckAnswer, b: CheckAnswer)
    requires 1 <= a.index <= |questions| && 1 <= b.index <= |questions| && a.index != b.index
    requires Judge(questions[a.index - 1], a).Some? && Judge(questions[b.index - 1], b).Some?
    ensures JudgeAll(questions, [a, b]).kept
            == [Survivor(a.index, Judge(questions[a.index - 1], a).value),
                Survivor(b.index, Judge(questions[b.index - 1], b).value)]
  {
    hide Judge;
    var answers := [a, b];
    assert answers[..1] == [a] && [a][..0] == [];
    assert JudgeAll(questions, [a][..0]) == Judging([], {});
  }

  lemma SharedPromptSwaps(questions: seq<Question>, i: nat, j: nat)
    requires i < j < |questions| && questions[i].prompt == questions[j].prompt
    requires Markable(questions[i]) && Markable(questions[j])
    ensures !InWrittenOrder(Agreed(questions, [Agreeing(questions, j), Agreeing(questions, i)]))
  {
    AgreeingIsKept(questions, i);
    AgreeingIsKept(questions, j);
    var a, b := Agreeing(questions, j), Agreeing(questions, i);
    hide InWrittenOrder, Agreed, Markable, Judge;
    SwapsTwo(questions, a, b, i, j);
  }

  lemma SwapsTwo(questions: seq<Question>, a: CheckAnswer, b: CheckAnswer, i: nat, j: nat)
    requires i < j < |questions| && a.index == j + 1 && b.index == i + 1
    requires Judge(questions[j], a).Some? && Judge(questions[i], b).Some?
    requires Judge(questions[j], a).value.prompt == Judge(questions[i], b).value.prompt
    ensures !InWrittenOrder(Agreed(questions, [a, b]))
  {
    hide Judge, StableSort, JudgeAll;
    TwoAnswers(questions, a, b);
    var kept := JudgeAll(questions, [a, b]).kept;
    SortOfTwo(kept[0], kept[1], PlaceOf(questions));
    assert Agreed(questions, [a, b]) == kept;
  }

  /** The questions of a usable batch keep their written order under every check exactly when no two
      have the same prompt. */
  lemma OrderIsKeptIff(questions: seq<Question>)
    requires forall q | q in questions :: Markable(q)
    ensures (forall answers :: InWrittenOrder(Agreed(questions, answers))) <==> PromptsDistinct(questions)
  {
    hide Agreed, InWrittenOrder, Markable;
    if PromptsDistinct(questions) {
      forall answers
        ensures InWrittenOrder(Agreed(questions, answers))
      {
        DistinctPromptsKeepOrder(questions, answers);
      }
    } else {
      var i, j :| 0 <= i < j < |questions| && questions[i].prompt == questions[j].prompt;
      assert questions[i] in questions && questions[j] in questions;
      SharedPromptSwaps(questions, i, j);
    }
  }
}
