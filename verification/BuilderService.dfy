/** BuilderService: the builder's handlers as they run, statement by statement, each proved to do
    what Builder says it does. */
module BuilderService {
  import opened Cefr
  import opened Options
  import opened Practice
  import opened Publishing
  import opened Builder
  import opened BuilderRuns

  // UPDATE grammar_content SET status = status WHERE selected.
  function Update(rows: seq<Row>, selected: Row -> bool, status: Status): (r: seq<Row>)
    ensures |r| == |rows|
  {
    seq(|rows|, i requires 0 <= i < |rows| => if selected(rows[i]) then rows[i].(status := status) else rows[i])
  }

  /** Publishing some keys and then others is publishing all of them at once. */
  lemma PublishInTwo(rows: seq<Row>, first: set<Key>, second: set<Key>)
    ensures PublishKeys(PublishKeys(rows, first), second) == PublishKeys(rows, first + second)
  {
    var once := PublishKeys(rows, first);
    PublishTwice(rows, first);
    forall i | 0 <= i < |rows|
      ensures PublishKeys(once, second)[i] == PublishKeys(rows, first + second)[i]
    {
      var k := rows[i].key;
      if k !in first {
        NewestIsLocal(rows, once, k, PENDING);
      }
    }
  }

  predicate AnyPending(rows: seq<Row>, keys: set<Key>) {
    exists k | k in keys :: Newest(rows, k, PENDING).Some?
  }

  lemma StillPending(rows: seq<Row>, first: set<Key>, second: set<Key>)
    ensures AnyPending(rows, first + second)
            <==> AnyPending(rows, first) || AnyPending(PublishKeys(rows, first), second)
  {
    PublishTwice(rows, first);
    forall k | k !in first
      ensures Newest(PublishKeys(rows, first), k, PENDING) == Newest(rows, k, PENDING)
    {
      NewestIsLocal(rows, PublishKeys(rows, first), k, PENDING);
    }
    if k :| k in first + second && Newest(rows, k, PENDING).Some? {
      assert k in first || (k in second && Newest(PublishKeys(rows, first), k, PENDING).Some?);
    }
  }

  lemma PublishQuestionsInTwo(questions: seq<QuestionRow>, first: set<Level>, second: set<Level>)
    ensures PublishQuestions(PublishQuestions(questions, first), second) == PublishQuestions(questions, first + second)
  {
    var once := PublishQuestions(questions, first);
    forall l: Level
      ensures HasDraftQuestion(once, l) == (HasDraftQuestion(questions, l) && l !in first)
    {
      if HasDraftQuestion(questions, l) {
        var i :| 0 <= i < |questions| && questions[i].level == Some(l) && questions[i].status == Draft;
        assert l !in first ==> once[i] == questions[i];
      }
    }
  }

  lemma PublishTasksInTwo(tasks: seq<TaskRow>, first: set<Level>, second: set<Level>)
    ensures PublishTasks(PublishTasks(tasks, first), second) == PublishTasks(tasks, first + second)
  {
    var once := PublishTasks(tasks, first);
    forall kind, l: Level
      ensures HasDraftTask(once, kind, l) == (HasDraftTask(tasks, kind, l) && l !in first)
    {
      if HasDraftTask(tasks, kind, l) {
        var i :| 0 <= i < |tasks| && tasks[i].kind == kind && tasks[i].level == l && tasks[i].status == Draft;
        assert l !in first ==> once[i] == tasks[i];
      }
    }
  }

  lemma DraftExtrasAfter(s: Store, first: set<Level>, l: Level)
    ensures var s' := s.(questions := PublishQuestions(s.questions, first), tasks := PublishTasks(s.tasks, first));
            DraftExtras(s', l) == (DraftExtras(s, l) && l !in first)
  {
    if l in first { PublishedExtrasLeaveNoDraft(s, first); }
    else {
      if HasDraftQuestion(s.questions, l) {
        var i :| 0 <= i < |s.questions| && s.questions[i].level == Some(l) && s.questions[i].status == Draft;
        assert PublishQuestions(s.questions, first)[i] == s.questions[i];
      }
      forall kind | HasDraftTask(s.tasks, kind, l) ensures HasDraftTask(PublishTasks(s.tasks, first), kind, l) {
        var i :| 0 <= i < |s.tasks| && s.tasks[i].kind == kind && s.tasks[i].level == l && s.tasks[i].status == Draft;
        assert PublishTasks(s.tasks, first)[i] == s.tasks[i];
      }
    }
  }

  lemma SomeKey(language: Language, levels: seq<Level>)
    ensures levels == [] <==> (set l | l in levels :: Key(language, l)) == {}
  {
    var keys := set l | l in levels :: Key(language, l);
    if levels != [] {
      assert levels[0] in levels;
      assert Key(language, levels[0]) in keys;
    }
  }

  lemma ExtrasIgnoreRows(s: Store, rows: seq<Row>)
    ensures forall l: Level :: DraftExtras(s.(rows := rows), l) == DraftExtras(s, l)
  {
  }

  datatype Plan = Plan(language: Language, levels: seq<Level>)

  ghost function KeysOf(plans: seq<Plan>): set<Key> {
    set p, l | p in plans && l in p.levels :: Key(p.language, l)
  }

  lemma PlannedOneMore(s: Store, languages: seq<Language>, i: nat, only: seq<Level>)
    requires i < |languages|
    ensures PlannedKeys(s, languages[..i + 1], only)
            == PlannedKeys(s, languages[..i], only) + WrittenKeys(s.rows, languages[i], only)
    ensures AnyRefused(s, languages[..i + 1], only) <==>
            || AnyRefused(s, languages[..i], only)
            || (WrittenKeys(s.rows, languages[i], only) != {} && !LanguageOk(s, languages[i], only))
  {
    hide WrittenKeys, LanguageOk;
    assert languages[..i + 1] == languages[..i] + [languages[i]];
    assert forall language ::
        language in languages[..i + 1] <==> language in languages[..i] || language == languages[i];
  }

  lemma KeysOfOneMore(plans: seq<Plan>, p: Plan)
    ensures KeysOf(plans + [p]) == KeysOf(plans) + set l | l in p.levels :: Key(p.language, l)
  {
    assert forall x :: x in plans + [p] <==> x in plans || x == p;
  }

  class GrammarBuilder {
    var rows: seq<Row>
    var questions: seq<QuestionRow>
    var tasks: seq<TaskRow>
    var topicLive: bool

    ghost predicate Valid() reads this { Ordered(rows) }

    function State(): Store reads this { Store(rows, questions, tasks, topicLive) }

    constructor ()
      ensures Valid() && State() == EMPTY
    {
      rows, questions, tasks, topicLive := [], [], [], false;
    }

    /** Swaps a level's generated questions that are not live for a new set. */
    method ReplaceAiPractice(level: Level, practice: seq<Question>)
      modifies this`questions
      ensures questions == AiPracticeReplaced(old(questions), level, practice)
    {
      var kept := Keep(questions, q => ReplacedByGeneration(q, level));
      questions := kept;
      for i := 0 to |practice|
        invariant questions == kept + DraftQuestions(level, practice, Ai)[..i]
      {
        questions := questions + [QuestionRow(Some(level), QuestionColumns(practice[i]), Draft, Ai)];
      }
      assert DraftQuestions(level, practice, Ai)[..|practice|] == DraftQuestions(level, practice, Ai);
    }

    method StoreGenerated(language: Language, levels: seq<GeneratedLevel>)
      requires Valid()
      modifies this
      ensures Valid() && State() == Apply(old(State()), Generate(language, levels))
      ensures rows == GeneratedRows(old(rows), language, levels)
              && questions == GeneratedQuestions(old(questions), levels)
    {
      ghost var rows0, questions0 := rows, questions;
      GenerationKeepsOrder(rows0, language, levels);
      for i := 0 to |levels|
        invariant rows == GeneratedRows(rows0, language, levels[..i])
        invariant questions == GeneratedQuestions(questions0, levels[..i])
        invariant tasks == old(tasks) && topicLive == old(topicLive)
      {
        assert levels[..i + 1][..i] == levels[..i];
        var g := levels[i];
        rows := rows + [GeneratedRow(rows, language, g)];
        if g.applicable && g.practice == [] {
          continue;
        }
        ReplaceAiPractice(g.level, if g.applicable then g.practice else []);
      }
      assert levels[..|levels|] == levels;
    }

    method StoreTranslated(language: Language, levels: seq<GeneratedLevel>)
      requires Valid()
      modifies this`rows
      ensures Valid() && State() == Apply(old(State()), Translate(language, levels))
      ensures rows == GeneratedRows(old(rows), language, levels)
    {
      ghost var rows0 := rows;
      GenerationKeepsOrder(rows0, language, levels);
      for i := 0 to |levels|
        invariant rows == GeneratedRows(rows0, language, levels[..i])
      {
        assert levels[..i + 1][..i] == levels[..i];
        rows := rows + [GeneratedRow(rows, language, levels[i])];
      }
      assert levels[..|levels|] == levels;
    }

    /** One saved question, tidied, or a refusal. */
    method InputPractice(input: Question) returns (ok: bool, q: Question)
      ensures ok == Markable(Tidied(InputQuestion(input)))
      ensures ok ==> q == Tidied(InputQuestion(input))
    {
      var question := InputQuestion(input);
      var one := new Question[1](_ => question);
      assert one[..] == [question];
      var n := UsablePractice(one);
      assert Usable([question]) == Kept(question) by {
        assert [question][..0] == [];
        assert Usable([]) == [];
      }
      ok, q := n == 1, one[0];
      if ok {
        assert one[0] == one[..n][0];
      }
    }

    /** Refuses the list for its first question that cannot be marked, before anything is deleted. */
    method ReplaceLevelQuestions(level: Level, input: seq<Question>) returns (ok: bool)
      modifies this`questions
      ensures ok == AllUsable(input)
      ensures questions ==
              if ok then
                Keep(old(questions), q => ReplacedBySave(q, level)) + DraftQuestions(level, TidiedInput(input), Curated)
              else old(questions)
    {
      hide Markable, Tidied, InputQuestion, QuestionColumns;
      var practice: seq<Question> := [];
      for i := 0 to |input|
        invariant practice == TidiedInput(input)[..i]
        invariant forall j | 0 <= j < i :: Markable(Tidied(InputQuestion(input[j])))
        invariant questions == old(questions)
      {
        var usable, q := InputPractice(input[i]);
        if !usable {
          assert input[i] in input;
          return false;
        }
        practice := practice + [q];
      }
      assert practice == TidiedInput(input);
      var kept := Keep(questions, q => ReplacedBySave(q, level));
      questions := kept;
      for i := 0 to |practice|
        invariant questions == kept + DraftQuestions(level, practice, Curated)[..i]
      {
        questions := questions + [QuestionRow(Some(level), QuestionColumns(practice[i]), Draft, Curated)];
      }
      assert DraftQuestions(level, practice, Curated)[..|practice|] == DraftQuestions(level, practice, Curated);
      return true;
    }

    // The edited explanation as a new draft of every other level that has one.
    method ShareExplanation(e: Edit)
      requires e.body.Some?
      modifies this`rows
      ensures rows == old(rows) + SharedRows(old(rows), e, MAX_BASE)
    {
      hide Newest;
      var latest := rows;
      for n := 0 to MAX_BASE
        invariant rows == latest + SharedRows(latest, e, n)
      {
        if Shares(latest, e, n + 1) {
          var k := Key(e.key.language, n + 1);
          var was := latest[Newest(latest, k, ANY).value].page;
          rows := rows + [Row(k, NextVersion(latest, k), Draft,
                              Page(e.title.GetOr(was.title), e.summary.GetOr(was.summary), e.body.value), Curated)];
        }
      }
    }

    /** A refused question list does not undo the explanation saved just before it. */
    method SaveGrammarLevel(e: Edit) returns (ok: bool)
      requires Valid() && EditOk(e)
      modifies this
      ensures Valid() && State() == Apply(old(State()), Save(e))
      ensures rows == SavedRows(old(rows), e) && questions == SavedQuestions(old(questions), e)
      ensures ok <==> (e.questions.None? || AllUsable(e.questions.value))
    {
      hide SharedRows, SavedRow, Ordered, AllUsable, TidiedInput;
      SavingKeepsOrder(rows, e);
      rows := rows + [SavedRow(rows, e)];
      if e.body.Some? && e.status != NotApplicable {
        ShareExplanation(e);
      }
      ok := true;
      if e.questions.Some? {
        ok := ReplaceLevelQuestions(e.key.level, e.questions.value);
      }
    }

    method StoreTasks(written: seq<TaskRow>)
      modifies this`tasks
      ensures State() == Apply(old(State()), Step.StoreTasks(written))
      ensures tasks == TasksStored(old(tasks), written)
    {
      ghost var tasks0 := tasks;
      for i := 0 to |written|
        invariant tasks == TasksStored(tasks0, written[..i])
      {
        assert written[..i + 1][..i] == written[..i];
        tasks := DropDraft(tasks, written[i]) + [written[i].(status := Draft)];
      }
      assert written[..|written|] == written;
    }

    /** What stands between the newest versions of a language and a learner reading them. */
    method CheckTopic(language: Language, only: seq<Level>) returns (levels: seq<Level>, issues: nat)
      ensures (set l | l in levels :: Key(language, l)) == WrittenKeys(rows, language, only)
      ensures issues == 0 <==> LanguageOk(State(), language, only)
    {
      levels, issues := [], 0;
      for n := 0 to 6
        invariant forall l: Level :: l in levels <==> l <= n && Wanted(only, l) && Written(rows, Key(language, l))
        invariant issues == 0 <==> forall l | l in levels :: PageOk(NewestPage(rows, Key(language, l)))
      {
        var level: Level := n + 1;
        var k := Key(language, level);
        if Wanted(only, level) && Written(rows, k) {
          levels := levels + [level];
          if !PageOk(NewestPage(rows, k)) {
            issues := issues + 1;
          }
        }
      }
      ghost var pages := issues;
      for i := 0 to |questions|
        invariant issues == 0
                  <==> && pages == 0
                       && forall j | 0 <= j < i && Checked(questions[j], only) :: !Problem(questions[j].columns)
      {
        if Checked(questions[i], only) && Problem(questions[i].columns) {
          issues := issues + 1;
        }
      }
    }

    /** Retires the live version before promoting the newest pending one: the unique index on live
        rows would refuse the other order. */
    method PublishKey(k: Key) returns (changed: bool)
      requires Valid()
      modifies this`rows
      ensures Valid() && rows == PublishKeys(old(rows), {k})
      ensures changed == Newest(old(rows), k, PENDING).Some?
    {
      PublishKeepsOrdered(rows, {k});
      OrderedMeansOrderedByVersion(rows);
      ghost var rows0 := rows;
      var draft := Newest(rows, k, PENDING);
      if draft.None? {
        return false;
      }
      var d := draft.value;
      rows := Update(rows, (r: Row) => r.key == k && r.status == Live, Archived);
      assert OneLive(rows);
      rows := rows[d := rows[d].(status := Live)];
      assert OneLive(rows);
      assert Matches(rows[d], k, {Live});
      var live := Newest(rows, k, {Live}).value;
      assert live == d;
      var version := rows[live].version;
      rows := Update(rows, (r: Row) => r.key == k && r.status in PENDING && r.version < version, Archived);
      forall i | 0 <= i < |rows0| ensures rows[i] == PublishKeys(rows0, {k})[i] {
        assert rows0[i].key == k && rows0[i].status in PENDING ==> Matches(rows0[i], k, PENDING);
        assert i < d && rows0[i].key == k ==> rows0[i].version < rows0[d].version;
        assert d < i && rows0[i].key == k ==> rows0[d].version < rows0[i].version;
      }
      return true;
    }

    method PublishLanguage(language: Language, levels: seq<Level>) returns (published: seq<Level>)
      requires Valid()
      modifies this`rows
      ensures Valid() && rows == PublishKeys(old(rows), set l | l in levels :: Key(language, l))
      ensures published == [] <==> forall l | l in levels :: Newest(old(rows), Key(language, l), PENDING).None?
    {
      ghost var rows0 := rows;
      published := [];
      ghost var done: set<Key> := {};
      assert rows == PublishKeys(rows0, done);
      hide PublishKeys, Ordered, Newest;
      for i := 0 to |levels|
        invariant Valid() && rows == PublishKeys(rows0, done)
        invariant done == set l | l in levels[..i] :: Key(language, l)
        invariant published == [] <==> forall l | l in levels[..i] :: Newest(rows0, Key(language, l), PENDING).None?
      {
        var k := Key(language, levels[i]);
        PublishTwice(rows0, done);
        PublishInTwo(rows0, done, {k});
        if k !in done { NewestIsLocal(rows0, rows, k, PENDING); }
        assert levels[..i + 1] == levels[..i] + [levels[i]];
        done := done + {k};
        var changed := PublishKey(k);
        if changed {
          published := published + [levels[i]];
        }
      }
      assert levels[..|levels|] == levels;
    }

    /** Puts a level's draft test and tasks live, replacing what was live of the same kind. */
    method PublishLevelExtras(level: Level) returns (changed: bool)
      modifies this`questions, this`tasks
      ensures questions == PublishQuestions(old(questions), {level})
      ensures tasks == PublishTasks(old(tasks), {level})
      ensures changed == old(DraftExtras(State(), level))
    {
      var q0, t0 := questions, tasks;
      changed := HasDraftQuestion(q0, level);
      if changed {
        var archived := seq(|q0|, i requires 0 <= i < |q0| =>
          if q0[i].level == Some(level) && q0[i].status == Live then q0[i].(status := Archived) else q0[i]);
        questions := seq(|q0|, i requires 0 <= i < |q0| =>
          if archived[i].level == Some(level) && archived[i].status == Draft then archived[i].(status := Live)
          else archived[i]);
      }
      assert questions == PublishQuestions(q0, {level});
      // The archiving statement asks, per kind, whether a draft is there to take over.
      var archived := seq(|t0|, i requires 0 <= i < |t0| =>
        if t0[i].level == level && t0[i].status == Live && HasDraftTask(t0, t0[i].kind, level)
        then t0[i].(status := Archived)
        else t0[i]);
      tasks := seq(|t0|, i requires 0 <= i < |t0| =>
        if archived[i].level == level && archived[i].status == Draft then archived[i].(status := Live)
        else archived[i]);
      assert tasks == PublishTasks(t0, {level});
      changed := changed || HasDraftTask(t0, Writing, level) || HasDraftTask(t0, Speaking, level);
    }

    /** The test and the tasks go live for every level whose explanation is live. */
    method PublishExtras(only: seq<Level>, changedBefore: bool) returns (changed: bool)
      modifies this`questions, this`tasks
      ensures questions == PublishQuestions(old(questions), LiveLevels(rows, only))
      ensures tasks == PublishTasks(old(tasks), LiveLevels(rows, only))
      ensures changed <==> changedBefore || exists l | l in LiveLevels(rows, only) :: old(DraftExtras(State(), l))
    {
      ghost var s0 := State();
      changed := changedBefore;
      ghost var done: set<Level> := {};
      assert questions == PublishQuestions(s0.questions, done) && tasks == PublishTasks(s0.tasks, done);
      for n := 0 to 6
        invariant done == set l | l in LiveLevels(rows, only) && l <= n
        invariant questions == PublishQuestions(s0.questions, done) && tasks == PublishTasks(s0.tasks, done)
        invariant changed <==> changedBefore || exists l | l in done :: DraftExtras(s0, l)
      {
        var level: Level := n + 1;
        if level in LiveLevels(rows, only) {
          PublishQuestionsInTwo(s0.questions, done, {level});
          PublishTasksInTwo(s0.tasks, done, {level});
          DraftExtrasAfter(s0, done, level);
          var one := PublishLevelExtras(level);
          changed := changed || one;
          done := done + {level};
        }
      }
      assert done == LiveLevels(rows, only);
    }

    method PublishLanguages(plans: seq<Plan>) returns (changed: bool)
      requires Valid()
      modifies this`rows
      ensures Valid() && rows == PublishKeys(old(rows), KeysOf(plans))
      ensures changed == AnyPending(old(rows), KeysOf(plans))
    {
      ghost var rows0 := rows;
      changed := false;
      assert rows == PublishKeys(rows0, KeysOf([]));
      hide PublishKeys;
      for i := 0 to |plans|
        invariant Valid() && rows == PublishKeys(rows0, KeysOf(plans[..i]))
        invariant changed == AnyPending(rows0, KeysOf(plans[..i]))
      {
        var p := plans[i];
        ghost var keys := set l | l in p.levels :: Key(p.language, l);
        KeysOfOneMore(plans[..i], p);
        assert plans[..i + 1] == plans[..i] + [p];
        PublishInTwo(rows0, KeysOf(plans[..i]), keys);
        StillPending(rows0, KeysOf(plans[..i]), keys);
        ghost var before := rows;
        var published := PublishLanguage(p.language, p.levels);
        assert published != [] <==> AnyPending(before, keys) by {
          forall l | l in p.levels ensures Key(p.language, l) in keys {}
        }
        changed := changed || published != [];
      }
      assert plans[..|plans|] == plans;
    }

    /** The publish transaction: all of it, or — when it put nothing live — none of it. */
    method PublishPlans(plans: seq<Plan>, only: seq<Level>) returns (outcome: Outcome)
      requires Valid()
      modifies this
      ensures Valid()
      ensures var s0 := old(State());
              var rows1 := PublishKeys(s0.rows, KeysOf(plans));
              var live := LiveLevels(rows1, only);
              if AnyPending(s0.rows, KeysOf(plans)) || (exists l | l in live :: DraftExtras(s0, l)) then
                && outcome == Published
                && State() == Store(rows1, PublishQuestions(s0.questions, live), PublishTasks(s0.tasks, live), true)
              else outcome == NothingNew && State() == s0
    {
      var s0 := State();
      var changed := PublishLanguages(plans);
      ExtrasIgnoreRows(s0, rows);
      changed := PublishExtras(only, changed);
      if !changed {
        // Rolled back.
        rows, questions, tasks := s0.rows, s0.questions, s0.tasks;
        return NothingNew;
      }
      topicLive := true;
      return Published;
    }

    /** Checks every language first; any failure stops everything. */
    method PublishGrammarContent(languages: seq<Language>, only: seq<Level>) returns (outcome: Outcome)
      requires Valid()
      modifies this
      ensures Valid() && State() == Apply(old(State()), Publish(languages, only))
      ensures outcome == PublishOutcome(old(State()), languages, only)
    {
      ghost var s0 := State();
      ghost var planned := PlannedKeys(s0, languages, only);
      var plans: seq<Plan> := [];
      var refused := false;
      for i := 0 to |languages|
        invariant State() == s0
        invariant refused == AnyRefused(s0, languages[..i], only)
        invariant !refused ==> KeysOf(plans) == PlannedKeys(s0, languages[..i], only)
        invariant forall p | p in plans :: p.levels != []
      {
        var levels, issues := CheckTopic(languages[i], only);
        PlannedOneMore(s0, languages, i, only);
        assert levels == [] <==> WrittenKeys(rows, languages[i], only) == {} by { SomeKey(languages[i], levels); }
        if levels != [] && issues > 0 {
          refused := true;
        } else if levels != [] {
          KeysOfOneMore(plans, Plan(languages[i], levels));
          plans := plans + [Plan(languages[i], levels)];
        }
      }
      assert languages[..|languages|] == languages;
      if refused {
        return Refused;
      }
      assert plans == [] <==> planned == {} by {
        if plans != [] { assert plans[0] in plans && Key(plans[0].language, plans[0].levels[0]) in KeysOf(plans); }
      }
      if plans == [] && !exists l | l in LiveLevels(rows, only) :: DraftExtras(State(), l) {
        return NothingWritten;
      }
      outcome := PublishPlans(plans, only);
    }
  }
}
