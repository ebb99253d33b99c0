/** BuilderRuns: what every operation of the content builder keeps, and what holds over any run. */
module BuilderRuns {
  import opened Cefr
  import opened Options
  import opened Practice
  import opened Publishing
  import opened Builder
  import opened PageChecks

  // ---- explanations ----------------------------------------------------------------------

  lemma {:induction false} GenerationKeepsOrder(rows: seq<Row>, language: Language, levels: seq<GeneratedLevel>)
    requires Ordered(rows)
    ensures Ordered(GeneratedRows(rows, language, levels))
    ensures Evolves(rows, GeneratedRows(rows, language, levels))
    ensures forall i | |rows| <= i < |GeneratedRows(rows, language, levels)| ::
            GeneratedRows(rows, language, levels)[i].status != Live
  {
    if levels == [] {
      EvolvesIsReflexive(rows);
    } else {
      var n := |levels| - 1;
      var r := GeneratedRows(rows, language, levels[..n]);
      var row := GeneratedRow(r, language, levels[n]);
      GenerationKeepsOrder(rows, language, levels[..n]);
      InsertKeepsOrdered(r, row);
      EvolvesIsTransitive(rows, r, r + [row]);
    }
  }

  lemma {:induction false} NewestIgnoresOthers(rows: seq<Row>, extra: seq<Row>, k: Key, want: set<Status>)
    requires forall i | 0 <= i < |extra| :: extra[i].key != k
    ensures Newest(rows + extra, k, want) == Newest(rows, k, want)
  {
    if extra == [] {
      assert rows + extra == rows;
    } else {
      var n := |extra| - 1;
      assert (rows + extra)[..|rows| + n] == rows + extra[..n];
      NewestIgnoresOthers(rows, extra[..n], k, want);
    }
  }

  lemma {:induction false} SharedLevels(rows: seq<Row>, e: Edit, n: int)
    requires 0 <= n <= MAX_BASE && e.body.Some?
    ensures forall i | 0 <= i < |SharedRows(rows, e, n)| ::
              var r := SharedRows(rows, e, n)[i]; r.key.level <= n && r.status == Draft
  {
    if n > 0 { SharedLevels(rows, e, n - 1); }
  }

  lemma {:induction false} SharingKeepsOrder(rows: seq<Row>, e: Edit, n: int)
    requires 0 <= n <= MAX_BASE && e.body.Some? && Ordered(rows)
    ensures Ordered(rows + SharedRows(rows, e, n))
    ensures Evolves(rows, rows + SharedRows(rows, e, n))
  {
    hide Ordered, Evolves;
    if n == 0 {
      assert rows + SharedRows(rows, e, 0) == rows;
      EvolvesIsReflexive(rows);
    } else {
      SharingKeepsOrder(rows, e, n - 1);
      if Shares(rows, e, n) {
        var before := SharedRows(rows, e, n - 1);
        var row := SharedRows(rows, e, n)[|before|];
        SharedLevels(rows, e, n - 1);
        NewestIgnoresOthers(rows, before, row.key, ANY);
        assert NewVersion(rows + before, row) by { SharedIsNew(rows, before, row); }
        InsertKeepsOrdered(rows + before, row);
        EvolvesIsTransitive(rows, rows + before, rows + before + [row]);
        assert rows + before + [row] == rows + SharedRows(rows, e, n);
      }
    }
  }

  lemma SharedIsNew(rows: seq<Row>, before: seq<Row>, row: Row)
    requires Newest(rows + before, row.key, ANY) == Newest(rows, row.key, ANY)
    requires row.version == NextVersion(rows, row.key) && row.status == Draft
    ensures NewVersion(rows + before, row)
  {
    hide Newest;
  }

  lemma SavingKeepsOrder(rows: seq<Row>, e: Edit)
    requires Ordered(rows) && EditOk(e)
    ensures Ordered(SavedRows(rows, e)) && Evolves(rows, SavedRows(rows, e))
    ensures forall i | |rows| <= i < |SavedRows(rows, e)| :: SavedRows(rows, e)[i].status != Live
  {
    var r := rows + [SavedRow(rows, e)];
    InsertKeepsOrdered(rows, SavedRow(rows, e));
    if e.body.Some? && e.status != NotApplicable {
      SharingKeepsOrder(r, e, MAX_BASE);
      SharedLevels(r, e, MAX_BASE);
      EvolvesIsTransitive(rows, r, r + SharedRows(r, e, MAX_BASE));
    }
  }

  // ---- what is published is what was validated -------------------------------------------

  ghost predicate LivePagesOk(rows: seq<Row>) {
    forall i | 0 <= i < |rows| && rows[i].status == Live :: !Unfit(rows[i].page)
  }

  /** The row a publish puts live is the newest row of its key, the one validation read and passed. */
  lemma PublishedIsValidated(s: Store, languages: seq<Language>, only: seq<Level>, k: Key)
    requires Ordered(s.rows) && !AnyRefused(s, languages, only)
    requires k in PlannedKeys(s, languages, only)
    ensures var i := Newest(s.rows, k, ANY).value;
            var rows := PublishKeys(s.rows, PlannedKeys(s, languages, only));
            && rows[i] == s.rows[i].(status := Live)
            && !Unfit(rows[i].page)
            && forall j | 0 <= j < |rows| && rows[j].key == k && rows[j].status == Live :: j == i
  {
    NewestIsCurrent(s.rows, k);
    var rows := PublishKeys(s.rows, PlannedKeys(s, languages, only));
    PublishKeepsOrdered(s.rows, PlannedKeys(s, languages, only));
    OrderedMeansOrderedByVersion(rows);
    var language :| language in languages && k in WrittenKeys(s.rows, language, only);
    assert LanguageOk(s, language, only);
    var i := Newest(s.rows, k, ANY).value;
    UnfitIff(s.rows[i].page);
    assert rows[i] == s.rows[i].(status := Live);
  }

  lemma PublishKeepsLivePagesOk(s: Store, languages: seq<Language>, only: seq<Level>)
    requires Ordered(s.rows) && LivePagesOk(s.rows) && !AnyRefused(s, languages, only)
    ensures LivePagesOk(PublishKeys(s.rows, PlannedKeys(s, languages, only)))
  {
    var planned := PlannedKeys(s, languages, only);
    var rows := PublishKeys(s.rows, planned);
    forall j | 0 <= j < |rows| && rows[j].status == Live
      ensures !Unfit(rows[j].page)
    {
      var k := rows[j].key;
      if k in planned {
        PublishedIsValidated(s, languages, only, k);
      } else {
        assert rows[j] == s.rows[j];
      }
    }
  }

  // ---- questions and tasks ---------------------------------------------------------------

  ghost predicate NoProblems(questions: seq<QuestionRow>) {
    forall i | 0 <= i < |questions| :: !Broken(questions[i].columns)
  }

  ghost predicate LiveQuestion(questions: seq<QuestionRow>, level: Level) {
    exists i :: 0 <= i < |questions| && questions[i].level == Some(level) && questions[i].status == Live
  }

  ghost predicate LiveTask(tasks: seq<TaskRow>, kind: TaskKind, level: Level) {
    exists i :: 0 <= i < |tasks| && tasks[i].kind == kind && tasks[i].level == level && tasks[i].status == Live
  }

  /** A level with a live test, or a live task of a kind, still has one. */
  ghost predicate ExtrasStayLive(s: Store, s': Store) {
    && (forall l: Level | LiveQuestion(s.questions, l) :: LiveQuestion(s'.questions, l))
    && (forall kind, l: Level | LiveTask(s.tasks, kind, l) :: LiveTask(s'.tasks, kind, l))
  }

  lemma {:induction false} KeepFilters(questions: seq<QuestionRow>, drop: QuestionRow -> bool)
    ensures forall q :: q in Keep(questions, drop) <==> q in questions && !drop(q)
  {
    if questions != [] {
      var n := |questions| - 1;
      KeepFilters(questions[..n], drop);
      assert questions == questions[..n] + [questions[n]];
    }
  }

  // Dropping rows that are not live and adding drafts loses no live question and adds no problem.
  lemma ReplacingKeepsLive(questions: seq<QuestionRow>, drop: QuestionRow -> bool, level: Level,
      practice: seq<Question>, source: Source)
    requires forall q | drop(q) :: q.status != Live
    ensures var r := Keep(questions, drop) + DraftQuestions(level, practice, source);
            && (forall l: Level | LiveQuestion(questions, l) :: LiveQuestion(r, l))
            && (NoProblems(questions) && (forall q | q in practice :: Markable(q)) ==> NoProblems(r))
  {
    var kept := Keep(questions, drop);
    var r := kept + DraftQuestions(level, practice, source);
    KeepFilters(questions, drop);
    forall l: Level | LiveQuestion(questions, l)
      ensures LiveQuestion(r, l)
    {
      var i :| 0 <= i < |questions| && questions[i].level == Some(l) && questions[i].status == Live;
      assert questions[i] in kept;
      var j :| 0 <= j < |kept| && kept[j] == questions[i];
      assert r[j] == questions[i];
    }
    if NoProblems(questions) && forall q | q in practice :: Markable(q) {
      forall i | 0 <= i < |r| ensures !Broken(r[i].columns) {
        if i < |kept| {
          assert r[i] == kept[i] && kept[i] in kept && kept[i] in questions;
        } else {
          assert practice[i - |kept|] in practice;
          MarkableHasNoProblem(practice[i - |kept|]);
          BrokenIff(QuestionColumns(practice[i - |kept|]));
        }
      }
    }
  }

  lemma {:induction false} GeneratedQuestionsKeepLive(questions: seq<QuestionRow>, levels: seq<GeneratedLevel>)
    ensures forall l: Level | LiveQuestion(questions, l) :: LiveQuestion(GeneratedQuestions(questions, levels), l)
    ensures NoProblems(questions) && (forall g, q | g in levels && q in g.practice :: Markable(q)) ==>
              NoProblems(GeneratedQuestions(questions, levels))
  {
    if levels != [] {
      var n := |levels| - 1;
      var g := levels[n];
      GeneratedQuestionsKeepLive(questions, levels[..n]);
      var r := GeneratedQuestions(questions, levels[..n]);
      ReplacingKeepsLive(r, q => ReplacedByGeneration(q, g.level), g.level,
                         if g.applicable then g.practice else [], Ai);
      assert g in levels && forall h | h in levels[..n] :: h in levels;
    }
  }

  lemma SavedQuestionsKeepLive(questions: seq<QuestionRow>, e: Edit)
    ensures forall l: Level | LiveQuestion(questions, l) :: LiveQuestion(SavedQuestions(questions, e), l)
    ensures NoProblems(questions) ==> NoProblems(SavedQuestions(questions, e))
  {
    if e.questions.Some? && AllUsable(e.questions.value) {
      var practice := TidiedInput(e.questions.value);
      forall q | q in practice ensures Markable(q) {
        var i :| 0 <= i < |practice| && practice[i] == q;
        assert e.questions.value[i] in e.questions.value;
      }
      ReplacingKeepsLive(questions, q => ReplacedBySave(q, e.key.level), e.key.level, practice, Curated);
    }
  }

  lemma PublishQuestionsKeepLive(questions: seq<QuestionRow>, levels: set<Level>)
    ensures forall l: Level | LiveQuestion(questions, l) :: LiveQuestion(PublishQuestions(questions, levels), l)
    ensures NoProblems(questions) ==> NoProblems(PublishQuestions(questions, levels))
  {
    var r := PublishQuestions(questions, levels);
    forall l: Level | LiveQuestion(questions, l)
      ensures LiveQuestion(r, l)
    {
      if l in levels && HasDraftQuestion(questions, l) {
        var i :| 0 <= i < |questions| && questions[i].level == Some(l) && questions[i].status == Draft;
        assert r[i].level == Some(l) && r[i].status == Live;
      } else {
        var i :| 0 <= i < |questions| && questions[i].level == Some(l) && questions[i].status == Live;
        assert r[i] == questions[i];
      }
    }
    forall i | 0 <= i < |r| ensures r[i].columns == questions[i].columns {}
  }

  // At most one draft and one live task per kind and level: the two unique indexes.
  ghost predicate TasksUnique(tasks: seq<TaskRow>) {
    forall i, j | 0 <= i < j < |tasks| && SameTask(tasks[i], tasks[j]) && tasks[i].status in {Draft, Live} ::
      tasks[i].status != tasks[j].status
  }

  lemma {:induction false} DropDraftKeeps(tasks: seq<TaskRow>, t: TaskRow)
    ensures forall x :: x in DropDraft(tasks, t) <==> x in tasks && !(SameTask(x, t) && x.status == Draft)
    ensures TasksUnique(tasks) ==> TasksUnique(DropDraft(tasks, t))
  {
    if tasks != [] {
      var n := |tasks| - 1;
      DropDraftKeeps(tasks[..n], t);
      assert tasks == tasks[..n] + [tasks[n]];
      if TasksUnique(tasks) {
        var r := DropDraft(tasks[..n], t);
        forall i | 0 <= i < |r| && SameTask(r[i], tasks[n]) && r[i].status in {Draft, Live}
          ensures r[i].status != tasks[n].status
        {
          assert r[i] in r;
          var j :| 0 <= j < n && tasks[..n][j] == r[i];
          assert tasks[j] == r[i];
        }
      }
    }
  }

  lemma {:induction false} StoringTasksKeeps(tasks: seq<TaskRow>, written: seq<TaskRow>)
    ensures TasksUnique(tasks) ==> TasksUnique(TasksStored(tasks, written))
    ensures forall kind, l: Level | LiveTask(tasks, kind, l) :: LiveTask(TasksStored(tasks, written), kind, l)
  {
    if written != [] {
      var n := |written| - 1;
      var t := written[n];
      var before := TasksStored(tasks, written[..n]);
      StoringTasksKeeps(tasks, written[..n]);
      DropDraftKeeps(before, t);
      var kept := DropDraft(before, t);
      var r := TasksStored(tasks, written);
      forall kind, l: Level | LiveTask(tasks, kind, l)
        ensures LiveTask(r, kind, l)
      {
        var i :| 0 <= i < |before| && before[i].kind == kind && before[i].level == l && before[i].status == Live;
        assert before[i] in kept;
        var j :| 0 <= j < |kept| && kept[j] == before[i];
        assert r[j] == before[i];
      }
      forall i | 0 <= i < |kept| && SameTask(kept[i], t)
        ensures kept[i].status != Draft
      {
        assert kept[i] in kept;
      }
    }
  }

  lemma PublishTasksKeep(tasks: seq<TaskRow>, levels: set<Level>)
    requires TasksUnique(tasks)
    ensures TasksUnique(PublishTasks(tasks, levels))
    ensures forall kind, l: Level | LiveTask(tasks, kind, l) :: LiveTask(PublishTasks(tasks, levels), kind, l)
  {
    var r := PublishTasks(tasks, levels);
    forall kind, l: Level | LiveTask(tasks, kind, l)
      ensures LiveTask(r, kind, l)
    {
      if l in levels && HasDraftTask(tasks, kind, l) {
        var i :| 0 <= i < |tasks| && tasks[i].kind == kind && tasks[i].level == l && tasks[i].status == Draft;
        assert r[i].status == Live && r[i].kind == kind && r[i].level == l;
      } else {
        var i :| 0 <= i < |tasks| && tasks[i].kind == kind && tasks[i].level == l && tasks[i].status == Live;
        assert r[i] == tasks[i];
      }
    }
    forall i, j | 0 <= i < j < |r| && SameTask(r[i], r[j]) && r[i].status in {Draft, Live}
      ensures r[i].status != r[j].status
    {
      assert SameTask(tasks[i], tasks[j]);
    }
  }

  // ---- runs ------------------------------------------------------------------------------

  /** What holds in every state the builder can reach. */
  ghost predicate Sound(s: Store) {
    Ordered(s.rows) && LivePagesOk(s.rows) && NoProblems(s.questions) && TasksUnique(s.tasks)
  }

  /** What relates a state to every later one. */
  ghost predicate Follows(s: Store, s': Store) {
    Evolves(s.rows, s'.rows) && ExtrasStayLive(s, s')
  }

  lemma NewRowsKeepLivePagesOk(rows: seq<Row>, rows': seq<Row>)
    requires LivePagesOk(rows) && |rows| <= |rows'| && rows'[..|rows|] == rows
    requires forall i | |rows| <= i < |rows'| :: rows'[i].status != Live
    ensures LivePagesOk(rows')
  {
    forall i | 0 <= i < |rows'| && rows'[i].status == Live ensures !Unfit(rows'[i].page) {
      assert rows'[..|rows|][i] == rows[i];
    }
  }

  lemma {:induction false} GenerationAppends(rows: seq<Row>, language: Language, levels: seq<GeneratedLevel>)
    ensures rows <= GeneratedRows(rows, language, levels)
  {
    if levels != [] { GenerationAppends(rows, language, levels[..|levels| - 1]); }
  }

  lemma PublishIsSound(s: Store, languages: seq<Language>, only: seq<Level>)
    requires Sound(s)
    ensures Sound(PublishContent(s, languages, only)) && Follows(s, PublishContent(s, languages, only))
  {
    EvolvesIsReflexive(s.rows);
    if PublishOutcome(s, languages, only) == Published {
      var planned := PlannedKeys(s, languages, only);
      PublishKeepsOrdered(s.rows, planned);
      PublishEvolves(s.rows, planned);
      PublishKeepsLivePagesOk(s, languages, only);
      var live := LiveLevels(PublishKeys(s.rows, planned), only);
      PublishQuestionsKeepLive(s.questions, live);
      PublishTasksKeep(s.tasks, live);
    }
  }

  lemma StepIsSound(s: Store, step: Step)
    requires Sound(s) && StepOk(step)
    ensures Sound(Apply(s, step)) && Follows(s, Apply(s, step))
  {
    EvolvesIsReflexive(s.rows);
    match step
    case Generate(language, levels) =>
      GenerationKeepsOrder(s.rows, language, levels);
      GenerationAppends(s.rows, language, levels);
      NewRowsKeepLivePagesOk(s.rows, GeneratedRows(s.rows, language, levels));
      GeneratedQuestionsKeepLive(s.questions, levels);
    case Translate(language, levels) =>
      GenerationKeepsOrder(s.rows, language, levels);
      GenerationAppends(s.rows, language, levels);
      NewRowsKeepLivePagesOk(s.rows, GeneratedRows(s.rows, language, levels));
    case WriteTest(level, practice) =>
      ReplacingKeepsLive(s.questions, q => ReplacedByGeneration(q, level), level, practice, Ai);
    case Save(e) =>
      SavingKeepsOrder(s.rows, e);
      NewRowsKeepLivePagesOk(s.rows, SavedRows(s.rows, e));
      SavedQuestionsKeepLive(s.questions, e);
    case StoreTasks(written) =>
      StoringTasksKeeps(s.tasks, written);
    case Publish(languages, only) =>
      PublishIsSound(s, languages, only);
  }

  lemma FollowsIsTransitive(a: Store, b: Store, c: Store)
    requires Follows(a, b) && Follows(b, c)
    ensures Follows(a, c)
  {
    EvolvesIsTransitive(a.rows, b.rows, c.rows);
  }

  /** Over any run: histories stay ordered and every live page passed validation; no text ever
      changes, no live level ever goes dark and no published version ever goes back; a live
      test or task is only ever replaced by another. */
  lemma {:induction false} EveryRunIsSound(s: Store, steps: seq<Step>)
    requires Sound(s) && forall step | step in steps :: StepOk(step)
    ensures Sound(Run(s, steps)) && Follows(s, Run(s, steps))
  {
    if steps == [] {
      EvolvesIsReflexive(s.rows);
    } else {
      var n := |steps| - 1;
      EveryRunIsSound(s, steps[..n]);
      StepIsSound(Run(s, steps[..n]), steps[n]);
      FollowsIsTransitive(s, Run(s, steps[..n]), Run(s, steps));
    }
  }

  /** From an empty topic on, every key has at most one live version, archived versions are below
      it and pending ones above it, and what is live is complete. */
  lemma EveryRunFromEmpty(steps: seq<Step>)
    requires forall step | step in steps :: StepOk(step)
    ensures Sound(Run(EMPTY, steps)) && OneLive(Run(EMPTY, steps).rows)
  {
    EveryRunIsSound(EMPTY, steps);
    OrderedMeansOrderedByVersion(Run(EMPTY, steps).rows);
  }

  // ---- publishing again, and what a publish does not look at -----------------------------

  lemma PublishedExtrasLeaveNoDraft(s: Store, levels: set<Level>)
    ensures var s' := s.(questions := PublishQuestions(s.questions, levels), tasks := PublishTasks(s.tasks, levels));
            forall l | l in levels :: !DraftExtras(s', l)
  {
    var questions, tasks := PublishQuestions(s.questions, levels), PublishTasks(s.tasks, levels);
    forall i | 0 <= i < |questions| && questions[i].level.Some? && questions[i].level.value in levels
      ensures questions[i].status != Draft
    {
      assert s.questions[i].status == Draft ==> HasDraftQuestion(s.questions, s.questions[i].level.value);
    }
    forall i | 0 <= i < |tasks| && tasks[i].level in levels
      ensures tasks[i].status != Draft
    {
      assert s.tasks[i].status == Draft ==> HasDraftTask(s.tasks, s.tasks[i].kind, s.tasks[i].level);
    }
  }

  lemma PublishKeepsWritten(rows: seq<Row>, keys: set<Key>, k: Key)
    ensures Written(PublishKeys(rows, keys), k) == Written(rows, k)
  {
    NewestIsLocal(rows, PublishKeys(rows, keys), k, ANY);
  }

  lemma PublishKeepsPlan(s: Store, s': Store, languages: seq<Language>, only: seq<Level>, keys: set<Key>)
    requires s'.rows == PublishKeys(s.rows, keys)
    ensures PlannedKeys(s', languages, only) == PlannedKeys(s, languages, only)
  {
    forall language ensures WrittenKeys(s'.rows, language, only) == WrittenKeys(s.rows, language, only) {
      forall l: Level ensures Written(s'.rows, Key(language, l)) == Written(s.rows, Key(language, l)) {
        PublishKeepsWritten(s.rows, keys, Key(language, l));
      }
    }
  }

  /** Publishing the same languages and levels again changes nothing. */
  lemma PublishingAgainChangesNothing(s: Store, languages: seq<Language>, only: seq<Level>)
    ensures PublishContent(PublishContent(s, languages, only), languages, only) == PublishContent(s, languages, only)
  {
    if PublishOutcome(s, languages, only) == Published {
      var planned := PlannedKeys(s, languages, only);
      var s' := PublishContent(s, languages, only);
      PublishKeepsPlan(s, s', languages, only, planned);
      PublishTwice(s.rows, planned);
      PublishedExtrasLeaveNoDraft(s, LiveLevels(s'.rows, only));
    }
  }

  const BROKEN := Columns(MULTIPLE_CHOICE, "?", None, None, None, None, None, "", "")

  /** A successful publish has checked every question it covers exactly when one of the languages
      asked for has something written; otherwise the waiting questions go live unread. */
  lemma QuestionsAreCheckedIff(s: Store, languages: seq<Language>, only: seq<Level>)
    ensures (forall questions: seq<QuestionRow> ::
               PublishOutcome(s.(questions := questions), languages, only) == Published ==>
                 QuestionsOk(questions, only))
            <==> (PlannedKeys(s, languages, only) != {} || LiveLevels(s.rows, only) == {})
  {
    var planned := PlannedKeys(s, languages, only);
    if planned != {} {
      var k :| k in planned;
      var language :| language in languages && k in WrittenKeys(s.rows, language, only);
      forall questions: seq<QuestionRow> | PublishOutcome(s.(questions := questions), languages, only) == Published
        ensures QuestionsOk(questions, only)
      {
        assert !AnyRefused(s.(questions := questions), languages, only);
        assert LanguageOk(s.(questions := questions), language, only);
      }
    } else {
      assert PublishKeys(s.rows, planned) == s.rows;
      if LiveLevels(s.rows, only) != {} {
        var l :| l in LiveLevels(s.rows, only);
        UnreadQuestionGoesLive(s, languages, only, l);
      }
    }
  }

  lemma UnreadQuestionGoesLive(s: Store, languages: seq<Language>, only: seq<Level>, l: Level)
    requires PlannedKeys(s, languages, only) == {} && l in LiveLevels(s.rows, only)
    ensures var questions := [QuestionRow(Some(l), BROKEN, Draft, Ai)];
            var s' := PublishContent(s.(questions := questions), languages, only);
            && PublishOutcome(s.(questions := questions), languages, only) == Published
            && !QuestionsOk(questions, only)
            && s'.questions[0].status == Live && Broken(s'.questions[0].columns)
  {
    var q := QuestionRow(Some(l), BROKEN, Draft, Ai);
    var t := s.(questions := [q]);
    assert PublishKeys(s.rows, {}) == s.rows;
    assert HasDraftQuestion(t.questions, l) by { assert t.questions[0] == q; }
    assert q in t.questions && Checked(q, only);
    forall language | language in languages ensures WrittenKeys(t.rows, language, only) == {} {
      assert forall k | k in WrittenKeys(t.rows, language, only) :: k in PlannedKeys(s, languages, only);
    }
  }

  /** Such a question is not one the builder stores: in a sound topic what goes live unread can be
      marked all the same. The missing check loses nothing as long as only the builder writes. */
  lemma UnreadIsMarkableAnyway(s: Store, languages: seq<Language>, only: seq<Level>)
    requires Sound(s)
    ensures NoProblems(PublishContent(s, languages, only).questions)
    ensures QuestionsOk(s.questions, only)
  {
    PublishIsSound(s, languages, only);
    forall q | q in s.questions ensures !Problem(q.columns) {
      var i :| 0 <= i < |s.questions| && s.questions[i] == q;
      BrokenIff(q.columns);
    }
  }
}
