/** BuilderContents: what generating, saving and writing tasks leave in the three tables of a topic, in
    terms of what was there and what was handed over.

    About storeGenerated, replaceAIPractice, saveGrammarLevel and storeTasks in
    apps/api/internal/admin/grammar_builder.go and grammar_tasks.go. */
module BuilderContents {
  import opened Cefr
  import opened Options
  import opened Text
  import opened Sorting
  import opened Practice
  import opened Publishing
  import opened Builder
  import opened PublishChecks
  import opened PracticeChecks

  // ---- versions --------------------------------------------------------------------------

  /** The version after all of the key's: 1 when there is none. */
  predicate FollowsAll(rows: seq<Row>, k: Key, version: nat) {
    && (forall j | 0 <= j < |rows| && rows[j].key == k :: rows[j].version < version)
    && (version == 1 || exists j | 0 <= j < |rows| :: rows[j].key == k && rows[j].version + 1 == version)
  }

  lemma NextFollowsAll(rows: seq<Row>, k: Key)
    ensures FollowsAll(rows, k, NextVersion(rows, k))
  {
    forall j | 0 <= j < |rows| && rows[j].key == k ensures Matches(rows[j], k, ANY) { AnyStatus(rows[j].status); }
  }

  // ---- generated levels ------------------------------------------------------------------

  /** The row a generated level becomes: a draft of what was written, or its refusal with the reason. */
  predicate HoldsLevel(row: Row, language: Language, g: GeneratedLevel) {
    && row.key == Key(language, g.level) && row.source == Ai
    && if g.applicable then row.status == Draft && row.page == g.page
       else && row.status == NotApplicable && row.page.title == g.page.title && row.page.summary == g.reason
            && row.page.body == Body("", "", 0, 0)
  }

  /** Every generated level becomes one new row, in order, above all earlier ones of its key. */
  lemma {:induction false} GenerationAdds(rows: seq<Row>, language: Language, levels: seq<GeneratedLevel>, n: nat)
    requires n < |levels|
    ensures var after := GeneratedRows(rows, language, levels);
            && |after| == |rows| + |levels| && after[..|rows|] == rows
            && HoldsLevel(after[|rows| + n], language, levels[n])
            && FollowsAll(after[..|rows| + n], Key(language, levels[n].level), after[|rows| + n].version)
  {
    hide *;
    var m := |levels| - 1;
    RowsGenerated(rows, language, levels);
    RowsGenerated(rows, language, levels[..m]);
    OneMoreGenerated(rows, language, levels);
    if n < m {
      GenerationAdds(rows, language, levels[..m], n);
      SameStart(GeneratedRows(rows, language, levels[..m]), GeneratedRows(rows, language, levels), |rows| + n);
    }
  }

  lemma SameStart(before: seq<Row>, after: seq<Row>, n: nat)
    requires |before| <= |after| && after[..|before|] == before && n < |before|
    ensures after[..n] == before[..n] && after[n] == before[n]
  {
  }

  lemma OneMoreGenerated(rows: seq<Row>, language: Language, levels: seq<GeneratedLevel>)
    requires levels != []
    ensures var m := |levels| - 1;
            var before, after := GeneratedRows(rows, language, levels[..m]), GeneratedRows(rows, language, levels);
            && |after| == |before| + 1 && after[..|before|] == before
            && HoldsLevel(after[|before|], language, levels[m])
            && FollowsAll(before, Key(language, levels[m].level), after[|before|].version)
  {
    var m := |levels| - 1;
    var before := GeneratedRows(rows, language, levels[..m]);
    assert GeneratedRows(rows, language, levels) == before + [GeneratedRow(before, language, levels[m])];
    hide GeneratedRows;
    RowHoldsLevel(before, language, levels[m]);
  }

  lemma RowHoldsLevel(rows: seq<Row>, language: Language, g: GeneratedLevel)
    ensures HoldsLevel(GeneratedRow(rows, language, g), language, g)
    ensures FollowsAll(rows, Key(language, g.level), GeneratedRow(rows, language, g).version)
  {
    NextFollowsAll(rows, Key(language, g.level));
    hide FollowsAll, NextVersion;
  }
  lemma {:induction false} RowsGenerated(rows: seq<Row>, language: Language, levels: seq<GeneratedLevel>)
    ensures var after := GeneratedRows(rows, language, levels); |after| == |rows| + |levels| && after[..|rows|] == rows
  {
    if levels != [] {
      RowsGenerated(rows, language, levels[..|levels| - 1]);
      hide GeneratedRow;
    }
  }

  // ---- questions -------------------------------------------------------------------------

  // Which rows of a list are kept, in order.
  predicate KeptAt<T(==)>(kept: seq<T>, all: seq<T>, at: seq<nat>) {
    |at| == |kept| && Places(at, |all|) && forall i | 0 <= i < |at| :: kept[i] == all[at[i]]
  }

  lemma {:induction false} KeepIs(questions: seq<QuestionRow>, drop: QuestionRow -> bool) returns (at: seq<nat>)
    ensures KeptAt(Keep(questions, drop), questions, at)
    ensures forall k | 0 <= k < |questions| :: k in at <==> !drop(questions[k])
  {
    if questions == [] {
      return [];
    }
    var n := |questions| - 1;
    at := KeepIs(questions[..n], drop);
    assert Keep(questions, drop) == Keep(questions[..n], drop) + if drop(questions[n]) then [] else [questions[n]];
    hide Keep;
    OneMorePlace(at, n);
    if !drop(questions[n]) { at := at + [n]; }
  }

  /** The new drafts of a level behind what was kept, each read back as the question that was handed over. */
  predicate EndsWithDrafts(after: seq<QuestionRow>, level: Level, practice: seq<Question>, source: Source) {
    && |after| >= |practice|
    && forall i | 0 <= i < |practice| ::
         var q := after[|after| - |practice| + i];
         && q.level == Some(level) && q.status == Draft && q.source == source
         && (Markable(practice[i]) && Tidy(practice[i]) ==> DecodePractice(q.columns) == practice[i])
  }

  lemma DraftsAreRead(kept: seq<QuestionRow>, level: Level, practice: seq<Question>, source: Source)
    ensures EndsWithDrafts(kept + DraftQuestions(level, practice, source), level, practice, source)
  {
    hide Markable, Tidy;
    forall i | 0 <= i < |practice| && Markable(practice[i]) && Tidy(practice[i])
      ensures DecodePractice(QuestionColumns(practice[i])) == practice[i]
    {
      StoredQuestionRoundTrips(practice[i]);
    }
    hide QuestionColumns, DecodePractice;
  }

  /** A new test of a level makes exactly its generated questions that are not live go: what an editor wrote,
      what is live and what belongs to other levels stays, in its order. */
  lemma NewTestReplaces(questions: seq<QuestionRow>, level: Level, practice: seq<Question>) returns (at: seq<nat>)
    ensures var after := AiPracticeReplaced(questions, level, practice);
            EndsWithDrafts(after, level, practice, Ai) && KeptAt(after[..|after| - |practice|], questions, at)
    ensures forall k | 0 <= k < |questions| ::
              k in at
              <==> || questions[k].source == Curated || questions[k].status == Live
                   || questions[k].level != Some(level)
  {
    var drop := (x: QuestionRow) => ReplacedByGeneration(x, level);
    var kept := Keep(questions, drop);
    DraftsAreRead(kept, level, practice, Ai);
    at := KeepIs(questions, drop);
    var after := AiPracticeReplaced(questions, level, practice);
    assert after == kept + DraftQuestions(level, practice, Ai) by { SameKeep(questions, level, drop); }
    assert after[..|after| - |practice|] == kept;
    hide EndsWithDrafts, KeptAt;
  }

  lemma {:induction false} SameKeep(questions: seq<QuestionRow>, level: Level, drop: QuestionRow -> bool)
    requires forall q :: drop(q) == ReplacedByGeneration(q, level)
    ensures Keep(questions, q => ReplacedByGeneration(q, level)) == Keep(questions, drop)
  {
    if questions != [] {
      SameKeep(questions[..|questions| - 1], level, drop);
      hide ReplacedByGeneration;
    }
  }

  /** Of a generation, each level in turn: a taught level without a test changes nothing, a taught one with a test
      gets it, and a refused one loses its generated questions that are not live. */
  lemma EachLevelReplaces(questions: seq<QuestionRow>, levels: seq<GeneratedLevel>, g: GeneratedLevel)
    ensures var before, after := GeneratedQuestions(questions, levels), GeneratedQuestions(questions, levels + [g]);
            && (g.applicable && g.practice == [] ==> after == before)
            && (g.applicable && g.practice != [] ==> after == AiPracticeReplaced(before, g.level, g.practice))
            && (!g.applicable ==> after == AiPracticeReplaced(before, g.level, []))
    ensures GeneratedQuestions(questions, []) == questions
  {
    hide AiPracticeReplaced;
    assert (levels + [g])[..|levels|] == levels;
  }

  lemma StaysThrough(questions: seq<QuestionRow>, level: Level, practice: seq<Question>, q: QuestionRow)
    requires q in questions && (q.source == Curated || q.status == Live || q.level != Some(level))
    ensures q in AiPracticeReplaced(questions, level, practice)
  {
    var at := NewTestReplaces(questions, level, practice);
    hide AiPracticeReplaced;
    var after := AiPracticeReplaced(questions, level, practice);
    assert |after| >= |practice|;
    hide EndsWithDrafts;
    var k :| 0 <= k < |questions| && questions[k] == q;
    var i :| 0 <= i < |at| && at[i] == k;
    assert after[..|after| - |practice|][i] == q;
  }

  /** Through a whole generation every question that an editor wrote, that is live, or whose level was not
      written stays. */
  lemma {:induction false} GenerationSpares(questions: seq<QuestionRow>, levels: seq<GeneratedLevel>, q: QuestionRow)
    requires q in questions
    requires q.source == Curated || q.status == Live || forall g | g in levels :: q.level != Some(g.level)
    ensures q in GeneratedQuestions(questions, levels)
  {
    if levels != [] {
      hide AiPracticeReplaced;
      var n := |levels| - 1;
      assert levels[n] in levels && forall g | g in levels[..n] :: g in levels;
      GenerationSpares(questions, levels[..n], q);
      var g := levels[n];
      StaysThrough(GeneratedQuestions(questions, levels[..n]), g.level, if g.applicable then g.practice else [], q);
    }
  }

  // ---- saving ----------------------------------------------------------------------------

  predicate KeptOr<T(==)>(given: Option<T>, was: T, now: T) { now == if given.Some? then given.value else was }

  /** A saved level is a new row of the editor's above all others of its key; what the edit leaves out is
      carried over from the newest row, or is empty when there is none. */
  lemma SavedRowIs(rows: seq<Row>, e: Edit, i: nat)
    requires VersionsGrow(rows)
    ensures var row := SavedRow(rows, e);
            && row.key == e.key && row.status == e.status && row.source == Curated
            && FollowsAll(rows, e.key, row.version)
            && (i < |rows| && IsNewest(rows, i) && rows[i].key == e.key ==>
                  && KeptOr(e.title, rows[i].page.title, row.page.title)
                  && KeptOr(e.summary, rows[i].page.summary, row.page.summary)
                  && KeptOr(e.body, rows[i].page.body, row.page.body))
            && ((forall j | 0 <= j < |rows| :: rows[j].key != e.key) ==>
                  && KeptOr(e.title, "", row.page.title)
                  && KeptOr(e.summary, "", row.page.summary)
                  && KeptOr(e.body, Body("", "", 0, 0), row.page.body))
  {
    NextFollowsAll(rows, e.key);
    if i < |rows| && rows[i].key == e.key { NewestIsStrict(rows, i); }
    hide NextVersion, IsNewest, FollowsAll;
  }

  /** A level other than the edited one that has something written shares the explanation: its newest row is
      neither a refusal nor history. */
  ghost predicate SharesWith(rows: seq<Row>, e: Edit, level: Level) {
    && level != e.key.level
    && exists i: nat :: i < |rows| && IsNewest(rows, i) && rows[i].key == Key(e.key.language, level)
                        && rows[i].status != NotApplicable && rows[i].status != Archived
  }

  lemma SharesIff(rows: seq<Row>, e: Edit, level: Level)
    requires VersionsGrow(rows)
    ensures Shares(rows, e, level) <==> SharesWith(rows, e, level)
  {
    var k := Key(e.key.language, level);
    if Shares(rows, e, level) { NewestIsStrict(rows, Newest(rows, k, ANY).value); }
    if SharesWith(rows, e, level) {
      var i: nat :| i < |rows| && IsNewest(rows, i) && rows[i].key == k
                    && rows[i].status != NotApplicable && rows[i].status != Archived;
      NewestIsStrict(rows, i);
    }
    hide IsNewest;
  }

  /** The draft that a level gets: the new explanation under its own title and summary, unless those were
      edited too. */
  ghost predicate SharedWith(rows: seq<Row>, e: Edit, level: Level, row: Row)
    requires e.body.Some?
  {
    && row.key == Key(e.key.language, level) && row.status == Draft && row.source == Curated
    && FollowsAll(rows, row.key, row.version) && row.page.body == e.body.value
    && forall i: nat | i < |rows| && IsNewest(rows, i) && rows[i].key == row.key ::
         KeptOr(e.title, rows[i].page.title, row.page.title)
             && KeptOr(e.summary, rows[i].page.summary, row.page.summary)
  }

  lemma SharedRowIs(rows: seq<Row>, e: Edit, level: Level)
    requires VersionsGrow(rows) && e.body.Some? && Shares(rows, e, level)
    ensures var k := Key(e.key.language, level);
            var was := rows[Newest(rows, k, ANY).value].page;
            SharedWith(rows, e, level, Row(k, NextVersion(rows, k), Draft,
                                           Page(e.title.GetOr(was.title), e.summary.GetOr(was.summary), e.body.value),
                                               Curated))
  {
    var k := Key(e.key.language, level);
    NextFollowsAll(rows, k);
    forall i: nat | i < |rows| && IsNewest(rows, i) && rows[i].key == k ensures Newest(rows, k, ANY) == Some(i) {
      NewestIsStrict(rows, i);
    }
    hide NextVersion, IsNewest, FollowsAll;
  }

  /** Exactly the levels that share get a draft, and each gets one. */
  lemma {:induction false} SharedRowsAre(rows: seq<Row>, e: Edit, n: int)
    requires VersionsGrow(rows) && e.body.Some? && 0 <= n <= MAX_BASE
    ensures forall row | row in SharedRows(rows, e, n) ::
              row.key.level <= n && SharesWith(rows, e, row.key.level) && SharedWith(rows, e, row.key.level, row)
    ensures forall level: Level | level <= n && SharesWith(rows, e, level) ::
              exists row :: row in SharedRows(rows, e, n) && row.key.level == level
  {
    hide SharesWith, SharedWith, Shares, FollowsAll;
    if n > 0 {
      SharedRowsAre(rows, e, n - 1);
      SharesIff(rows, e, n);
      if Shares(rows, e, n) {
        SharedRowIs(rows, e, n);
        var last := SharedRows(rows, e, n)[|SharedRows(rows, e, n - 1)|];
        assert last in SharedRows(rows, e, n) && last.key.level == n;
        assert forall row | row in SharedRows(rows, e, n - 1) :: row in SharedRows(rows, e, n);
      }
    }
  }

  /** The rows after a save: the saved one, and behind it the shared ones exactly when the explanation was
      edited and the level is taught. */
  lemma SavedRowsAre(rows: seq<Row>, e: Edit)
    ensures var after, saved := SavedRows(rows, e), rows + [SavedRow(rows, e)];
            && after[..|saved|] == saved
            && (e.body.Some? && e.status != NotApplicable ==> after == saved + SharedRows(saved, e, 6))
            && (e.body.None? || e.status == NotApplicable ==> after == saved)
  {
    hide SavedRow, SharedRows;
  }

  // What is stored of a list that was handed in: each question tidied.
  lemma InputIs(given: seq<Question>)
    ensures AllUsable(given) <==> forall i | 0 <= i < |given| :: CanBeMarked(TidiedInput(given)[i])
    ensures forall i | 0 <= i < |given| :: TidiedFrom(TidiedInput(given)[i], given[i]) && Tidy(TidiedInput(given)[i])
  {
    hide Markable, Tidied, CanBeMarked, TidiedFrom, Tidy;
    forall i | 0 <= i < |given|
      ensures Markable(Tidied(InputQuestion(given[i]))) <==> CanBeMarked(TidiedInput(given)[i])
      ensures TidiedFrom(TidiedInput(given)[i], given[i]) && Tidy(TidiedInput(given)[i])
    {
      MarkableIff(Tidied(InputQuestion(given[i])));
      TidiedIs(InputQuestion(given[i]));
      TidiedIsTidy(InputQuestion(given[i]));
      KindDoesNotMatter(Tidied(InputQuestion(given[i])), given[i]);
    }
    assert forall i | 0 <= i < |given| :: given[i] in given;
  }

  lemma KindDoesNotMatter(t: Question, q: Question)
    requires TidiedFrom(t, InputQuestion(q))
    ensures TidiedFrom(t, q)
  {
    hide IsTrimmedList, CollapseGaps, Trim;
  }

  /** A list is stored exactly when each of its questions can be marked once tidied. Then the level's questions of
      the two kinds that are not live go, whoever wrote them, and the list takes their place; everything else
      stays, in its order. Otherwise nothing changes. */
  lemma SavedTestReplaces(questions: seq<QuestionRow>, e: Edit, given: seq<Question>) returns (at: seq<nat>)
    requires e.questions == Some(given)
    ensures var after, tidied := SavedQuestions(questions, e), TidiedInput(given);
            && (forall i | 0 <= i < |given| :: TidiedFrom(tidied[i], given[i]))
            && ((exists i | 0 <= i < |given| :: !CanBeMarked(tidied[i])) ==> after == questions)
            && ((forall i | 0 <= i < |given| :: CanBeMarked(tidied[i])) ==>
                  && EndsWithDrafts(after, e.key.level, tidied, Curated)
                  && KeptAt(after[..|after| - |given|], questions, at)
                  && forall k | 0 <= k < |questions| ::
                       k in at <==> || questions[k].status == Live || questions[k].level != Some(e.key.level)
                                    || (&& questions[k].columns.kind != "multiple_choice"
                                        && questions[k].columns.kind != "fill_blank"))
  {
    InputIs(given);
    hide TidiedFrom, CanBeMarked, EndsWithDrafts, AllUsable, TidiedInput, Keep;
    var drop := (x: QuestionRow) => ReplacedBySave(x, e.key.level);
    at := KeepIs(questions, drop);
    if AllUsable(given) {
      var kept, tidied := Keep(questions, drop), TidiedInput(given);
      DraftsAreRead(kept, e.key.level, tidied, Curated);
      SameSave(questions, e.key.level, drop);
      var after := SavedQuestions(questions, e);
      assert after == kept + DraftQuestions(e.key.level, tidied, Curated);
      assert after[..|after| - |given|] == kept;
    }
  }

  lemma {:induction false} SameSave(questions: seq<QuestionRow>, level: Level, drop: QuestionRow -> bool)
    requires forall q :: drop(q) == ReplacedBySave(q, level)
    ensures Keep(questions, q => ReplacedBySave(q, level)) == Keep(questions, drop)
  {
    if questions != [] {
      SameSave(questions[..|questions| - 1], level, drop);
      hide ReplacedBySave;
    }
  }

  // ---- tasks -----------------------------------------------------------------------------

  lemma {:induction false} DropIs(tasks: seq<TaskRow>, t: TaskRow) returns (at: seq<nat>)
    ensures KeptAt(DropDraft(tasks, t), tasks, at)
    ensures forall k | 0 <= k < |tasks| ::
              k in at <==> !(tasks[k].kind == t.kind && tasks[k].level == t.level && tasks[k].status == Draft)
  {
    if tasks == [] {
      return [];
    }
    var n := |tasks| - 1;
    at := DropIs(tasks[..n], t);
    OneMorePlace(at, n);
    if !(SameTask(tasks[n], t) && tasks[n].status == Draft) { at := at + [n]; }
  }

  /** Each written task in turn becomes a draft in place of the draft of its kind and level; everything else stays,
      in its order. */
  lemma NewTaskReplaces(tasks: seq<TaskRow>, written: seq<TaskRow>, t: TaskRow) returns (at: seq<nat>)
    ensures var before, after := TasksStored(tasks, written), TasksStored(tasks, written + [t]);
            && |after| > 0 && after[|after| - 1] == t.(status := Draft)
            && KeptAt(after[..|after| - 1], before, at)
            && (forall k | 0 <= k < |before| ::
                  k in at <==> !(before[k].kind == t.kind && before[k].level == t.level && before[k].status == Draft))
    ensures TasksStored(tasks, []) == tasks
  {
    var before, after := TasksStored(tasks, written), TasksStored(tasks, written + [t]);
    at := DropIs(before, t);
    assert (written + [t])[..|written|] == written;
    assert after == DropDraft(before, t) + [t.(status := Draft)];
    assert after[..|after| - 1] == DropDraft(before, t);
    hide DropDraft;
  }
}
