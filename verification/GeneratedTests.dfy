/** GeneratedTests: a generated test from the writer's answer to the learner - written in rounds, stored
    as rows, published after validation and read back.

    Joins apps/api/internal/ai/grammar_practice.go with apps/api/internal/admin/grammar_builder.go and
    grammar_map.go. */
module GeneratedTests {
  import opened Cefr
  import opened Practice
  import opened PracticeWriter
  import opened PracticeRounds
  import opened Publishing
  import opened Builder
  import opened BuilderRuns

  /** The rows a test is stored as. */
  function RowsOf(level: Level, test: seq<Question>): seq<QuestionRow> {
    DraftQuestions(level, test, Ai)
  }

  /** Whatever writer and checker returned, a test that is stored is a step every run allows, passes the
      validation that guards publishing, and is read back question by question as it was written. */
  lemma TestSurvivesStorage(rounds: seq<Round>, level: Level)
    requires |rounds| == ROUNDS && Test(rounds).Some?
    ensures var test := Test(rounds).value;
            && StepOk(WriteTest(level, test))
            && QuestionsOk(RowsOf(level, test), [])
            && forall i | 0 <= i < |test| :: DecodePractice(RowsOf(level, test)[i].columns) == test[i]
  {
    hide Test, Markable, Tidy, Problem, DecodePractice, QuestionColumns;
    TestCanBeMarked(rounds);
    var test := Test(rounds).value;
    forall i | 0 <= i < |test|
      ensures DecodePractice(RowsOf(level, test)[i].columns) == test[i] && !Problem(RowsOf(level, test)[i].columns)
    {
      assert test[i] in test;
      StoredQuestionRoundTrips(test[i]);
      MarkableHasNoProblem(test[i]);
    }
  }

  /** Storing a test keeps a sound topic sound: no page goes dark and no level loses its live test. */
  lemma TestKeepsTopicSound(s: Store, rounds: seq<Round>, level: Level)
    requires |rounds| == ROUNDS && Test(rounds).Some? && Sound(s)
    ensures var s' := Apply(s, WriteTest(level, Test(rounds).value)); Sound(s') && Follows(s, s')
  {
    hide Test, Sound, Follows, Apply, StepOk;
    TestSurvivesStorage(rounds, level);
    StepIsSound(s, WriteTest(level, Test(rounds).value));
  }
}
