/** PublishChecks: what refuses a publish, in terms of the pages and questions themselves.

    About checkTopic and publishGrammarContent in apps/api/internal/admin/grammar_builder.go. */
module PublishChecks {
  import opened Cefr
  import opened Options
  import opened Publishing
  import opened Builder
  import opened PageChecks

  // ---- what is refused -------------------------------------------------------------------

  /** Row i is the newest of its key. */
  predicate IsNewest(rows: seq<Row>, i: nat) {
    i < |rows| && forall j | 0 <= j < |rows| && rows[j].key == rows[i].key ::
        j == i || rows[j].version < rows[i].version
  }

  predicate Asks(languages: seq<Language>, only: seq<Level>, k: Key) {
    k.language in languages && (only == [] || k.level in only)
  }

  /** A page the publish is about: the newest of a level asked for, and not a refusal. */
  predicate Covered(rows: seq<Row>, languages: seq<Language>, only: seq<Level>, i: nat) {
    i < |rows| && IsNewest(rows, i) && Asks(languages, only, rows[i].key) && rows[i].status != NotApplicable
  }

  /** A question the publish is about. */
  predicate Asked(q: QuestionRow, only: seq<Level>) {
    && q.status != Archived
    && (q.columns.kind == "multiple_choice" || q.columns.kind == "contextual" || q.columns.kind == "fill_blank")
    && (q.level.None? || only == [] || q.level.value in only)
  }

  lemma AnyStatus(status: Status)
    ensures status in ANY
  {
    match status case Draft => case Review => case Live => case Archived => case NotApplicable =>
  }

  lemma NewestIsStrict(rows: seq<Row>, i: nat)
    requires VersionsGrow(rows) && i < |rows|
    ensures Newest(rows, rows[i].key, ANY).Some?
    ensures IsNewest(rows, i) <==> Newest(rows, rows[i].key, ANY) == Some(i)
  {
    var k := rows[i].key;
    AnyStatus(rows[i].status);
    assert Matches(rows[i], k, ANY);
    var n := Newest(rows, k, ANY).value;
    assert rows[i].version <= rows[n].version;
    forall j | 0 <= j < |rows| && rows[j].key == k && j != n ensures rows[j].version < rows[n].version {
      AnyStatus(rows[j].status);
      assert Matches(rows[j], k, ANY);
    }
  }

  // The keys of covered rows are the planned ones.
  lemma CoveredIff(rows: seq<Row>, languages: seq<Language>, only: seq<Level>, i: nat)
    requires VersionsGrow(rows) && i < |rows|
    ensures Covered(rows, languages, only, i)
            <==> && rows[i].key.language in languages
                 && rows[i].key in WrittenKeys(rows, rows[i].key.language, only)
                 && Newest(rows, rows[i].key, ANY) == Some(i)
  {
    NewestIsStrict(rows, i);
    assert rows[i].key.level in LEVELS;
    hide IsNewest, Newest;
    assert rows[i].key == Key(rows[i].key.language, rows[i].key.level);
  }

  lemma RefusedMeans(s: Store, languages: seq<Language>, only: seq<Level>) returns (i: nat)
    requires VersionsGrow(s.rows) && AnyRefused(s, languages, only)
    ensures Covered(s.rows, languages, only, i)
    ensures Unfit(s.rows[i].page) || exists q | q in s.questions :: Asked(q, only) && Broken(q.columns)
  {
    hide PageOk, Unfit, Broken, Problem, IsNewest, Newest, LEVELS;
    var language :| language in languages && WrittenKeys(s.rows, language, only) != {}
        && !LanguageOk(s, language, only);
    var k :| k in WrittenKeys(s.rows, language, only);
    if k' :| k' in WrittenKeys(s.rows, language, only) && !PageOk(NewestPage(s.rows, k')) {
      k := k';
    } else {
      var q :| q in s.questions && Checked(q, only) && Problem(q.columns);
      BrokenIff(q.columns);
      assert Asked(q, only);
    }
    NewestOfWritten(s.rows, k);
    i := Newest(s.rows, k, ANY).value;
    UnfitIff(s.rows[i].page);
    CoveredIff(s.rows, languages, only, i);
  }

  lemma NewestOfWritten(rows: seq<Row>, k: Key)
    requires Written(rows, k)
    ensures Newest(rows, k, ANY).value < |rows| && rows[Newest(rows, k, ANY).value].key == k
  {
  }

  /** A page the publish is about that is unfit, or that comes with a broken question. */
  predicate Refuses(s: Store, languages: seq<Language>, only: seq<Level>, i: nat) {
    && Covered(s.rows, languages, only, i)
    && (Unfit(s.rows[i].page) || exists q | q in s.questions :: Asked(q, only) && Broken(q.columns))
  }

  /** Exactly the publishes that are refused: one of the pages it is about is unfit, or it is about some
      page and one of the questions it is about is broken. A refused publish changes nothing. */
  lemma RefusedIff(s: Store, languages: seq<Language>, only: seq<Level>)
    requires VersionsGrow(s.rows)
    ensures PublishOutcome(s, languages, only) == Refused
            <==> exists i: nat :: Refuses(s, languages, only, i)
    ensures PublishOutcome(s, languages, only) == Refused ==> PublishContent(s, languages, only) == s
  {
    hide PageOk, Unfit, Broken, Problem, IsNewest, Newest, PublishKeys, LiveLevels, LEVELS;
    if AnyRefused(s, languages, only) {
      var i := RefusedMeans(s, languages, only);
      assert Refuses(s, languages, only, i);
    }
    forall i: nat | Refuses(s, languages, only, i) ensures AnyRefused(s, languages, only) {
      CoveredIff(s.rows, languages, only, i);
      UnfitIff(s.rows[i].page);
      var k := s.rows[i].key;
      if !Unfit(s.rows[i].page) {
        var q :| q in s.questions && Asked(q, only) && Broken(q.columns);
        BrokenIff(q.columns);
        assert Checked(q, only);
      }
      assert !LanguageOk(s, k.language, only);
    }
  }

  // ---- what a publish does ---------------------------------------------------------------

  predicate Pending(row: Row) { row.status == Draft || row.status == Review }

  /** Row i is the newest waiting one of its key. */
  predicate NewestPending(rows: seq<Row>, i: nat) {
    && i < |rows| && Pending(rows[i])
    && forall j | 0 <= j < |rows| && rows[j].key == rows[i].key && Pending(rows[j]) ::
         j == i || rows[j].version < rows[i].version
  }

  /** The key has a page that the publish is about. */
  ghost predicate IsPlanned(rows: seq<Row>, languages: seq<Language>, only: seq<Level>, k: Key) {
    exists c: nat :: Covered(rows, languages, only, c) && rows[c].key == k
  }

  lemma PlannedIff(s: Store, languages: seq<Language>, only: seq<Level>, k: Key)
    requires VersionsGrow(s.rows)
    ensures k in PlannedKeys(s, languages, only) <==> IsPlanned(s.rows, languages, only, k)
  {
    hide IsNewest, Newest, LEVELS;
    if k in PlannedKeys(s, languages, only) {
      var language :| language in languages && k in WrittenKeys(s.rows, language, only);
      NewestOfWritten(s.rows, k);
      CoveredIff(s.rows, languages, only, Newest(s.rows, k, ANY).value);
    }
    if IsPlanned(s.rows, languages, only, k) {
      var c: nat :| Covered(s.rows, languages, only, c) && s.rows[c].key == k;
      CoveredIff(s.rows, languages, only, c);
    }
  }

  lemma NewestPendingIff(rows: seq<Row>, i: nat)
    requires VersionsGrow(rows) && i < |rows|
    ensures NewestPending(rows, i) <==> Newest(rows, rows[i].key, PENDING) == Some(i)
    ensures Newest(rows, rows[i].key, PENDING).Some?
            <==> exists j | 0 <= j < |rows| :: rows[j].key == rows[i].key && Pending(rows[j])
  {
    var k := rows[i].key;
    forall j | 0 <= j < |rows| && rows[j].key == k ensures Pending(rows[j]) <==> Matches(rows[j], k, PENDING) {}
    if NewestPending(rows, i) {
      assert Matches(rows[i], k, PENDING);
      var n := Newest(rows, k, PENDING).value;
      assert rows[i].version <= rows[n].version;
    }
    if Newest(rows, k, PENDING) == Some(i) {
      forall j | 0 <= j < |rows| && rows[j].key == k && Pending(rows[j]) && j != i
        ensures rows[j].version < rows[i].version
      {
        assert Matches(rows[j], k, PENDING);
      }
    }
  }

  /** What a publish makes of row i: of a planned key with something waiting the newest waiting version goes
      live and what else is live or waiting becomes history; everything else stays. */
  lemma PublishedRows(s: Store, languages: seq<Language>, only: seq<Level>, i: nat)
    requires VersionsGrow(s.rows) && i < |s.rows| && PublishOutcome(s, languages, only) == Published
    ensures |PublishContent(s, languages, only).rows| == |s.rows|
    ensures var row := s.rows[i];
            PublishContent(s, languages, only).rows[i]
            == if !IsPlanned(s.rows, languages, only, row.key)
                  || !exists j | 0 <= j < |s.rows| :: s.rows[j].key == row.key && Pending(s.rows[j]) then row
               else if NewestPending(s.rows, i) then row.(status := Live)
               else if Pending(row) || row.status == Live then row.(status := Archived)
               else row
  {
    PlannedIff(s, languages, only, s.rows[i].key);
    NewestPendingIff(s.rows, i);
    hide PublishOutcome, PlannedKeys, IsPlanned, Newest, NewestPending, LiveLevels, PublishQuestions, PublishTasks;
  }

  predicate IsLive(rows: seq<Row>, l: Level) {
    exists i | 0 <= i < |rows| :: rows[i].key.level == l && rows[i].status == Live
  }

  predicate NewQuestion(questions: seq<QuestionRow>, l: Level) {
    exists i | 0 <= i < |questions| :: questions[i].level == Some(l) && questions[i].status == Draft
  }

  predicate NewTask(tasks: seq<TaskRow>, kind: TaskKind, l: Level) {
    exists i | 0 <= i < |tasks| :: tasks[i].level == l && tasks[i].kind == kind && tasks[i].status == Draft
  }

  lemma LiveLevelsAre(rows: seq<Row>, only: seq<Level>, l: Level)
    ensures l in LiveLevels(rows, only) <==> (only == [] || l in only) && IsLive(rows, l)
  {
    assert l in LEVELS;
  }

  function Replaced(status: Status): Status {
    match status
    case Draft => Live
    case Live => Archived
    case other => other
  }

  /** What a publish makes of the tests and tasks: those of a level asked for that is live by then, and that
      has a new test - a new task of the kind - go live or become history; everything else stays. */
  lemma PublishedExtras(s: Store, languages: seq<Language>, only: seq<Level>)
    requires PublishOutcome(s, languages, only) == Published
    ensures var t := PublishContent(s, languages, only);
            && t.topicLive && |t.questions| == |s.questions| && |t.tasks| == |s.tasks|
            && (forall i | 0 <= i < |s.questions| ::
                  var q := s.questions[i];
                  t.questions[i]
                  == if && q.level.Some? && (only == [] || q.level.value in only)
                        && IsLive(t.rows, q.level.value) && NewQuestion(s.questions, q.level.value)
                     then q.(status := Replaced(q.status)) else q)
            && (forall i | 0 <= i < |s.tasks| ::
                  var w := s.tasks[i];
                  t.tasks[i]
                  == if (only == [] || w.level in only) && IsLive(t.rows, w.level) && NewTask(s.tasks, w.kind, w.level)
                     then w.(status := Replaced(w.status)) else w)
  {
    var t := PublishContent(s, languages, only);
    hide PublishOutcome, PlannedKeys, PublishKeys;
    forall l: Level ensures l in LiveLevels(t.rows, only) <==> (only == [] || l in only) && IsLive(t.rows, l) {
      LiveLevelsAre(t.rows, only, l);
    }
    hide LiveLevels;
  }

  /** A level asked for that is live and has a new test or task. */
  ghost predicate NewExtras(s: Store, rows: seq<Row>, only: seq<Level>) {
    exists l: Level :: (only == [] || l in only) && IsLive(rows, l)
                       && (NewQuestion(s.questions, l) || NewTask(s.tasks, Writing, l) || NewTask(s.tasks, Speaking, l))
  }

  lemma DraftExtrasIff(s: Store, rows: seq<Row>, only: seq<Level>)
    ensures (exists l | l in LiveLevels(rows, only) :: DraftExtras(s, l)) <==> NewExtras(s, rows, only)
  {
    forall l: Level
      ensures l in LiveLevels(rows, only) <==> (only == [] || l in only) && IsLive(rows, l)
      ensures DraftExtras(s, l)
              <==> NewQuestion(s.questions, l) || NewTask(s.tasks, Writing, l) || NewTask(s.tasks, Speaking, l)
    {
      LiveLevelsAre(rows, only, l);
    }
    hide LiveLevels, DraftExtras, IsLive;
  }

  /** What a publish that is not refused finds to do: nothing is written when it is about no page and no live
      level has anything new, and there is nothing new when neither a page it is about nor a level live by
      then has anything waiting. */
  lemma OutcomeIff(s: Store, languages: seq<Language>, only: seq<Level>)
    requires VersionsGrow(s.rows) && PublishOutcome(s, languages, only) != Refused
    ensures var rows := PublishKeys(s.rows, PlannedKeys(s, languages, only));
            var waiting := exists i: nat ::
                NewestPending(s.rows, i) && IsPlanned(s.rows, languages, only, s.rows[i].key);
            && (PublishOutcome(s, languages, only) == NothingWritten
                <==> (forall k :: !IsPlanned(s.rows, languages, only, k)) && !NewExtras(s, s.rows, only))
            && (PublishOutcome(s, languages, only) == Published
                <==> PublishOutcome(s, languages, only) != NothingWritten && (waiting || NewExtras(s, rows, only)))
  {
    var planned := PlannedKeys(s, languages, only);
    forall k ensures k in planned <==> IsPlanned(s.rows, languages, only, k) { PlannedIff(s, languages, only, k); }
    DraftExtrasIff(s, s.rows, only);
    DraftExtrasIff(s, PublishKeys(s.rows, planned), only);
    hide IsPlanned, PlannedKeys, LiveLevels, DraftExtras, NewExtras, AnyRefused, PublishKeys, NewestPending;
    forall k | k in planned && Newest(s.rows, k, PENDING).Some?
      ensures exists i: nat :: NewestPending(s.rows, i) && s.rows[i].key == k
    {
      var i := Newest(s.rows, k, PENDING).value;
      NewestPendingIff(s.rows, i);
    }
    forall i: nat | NewestPending(s.rows, i) ensures i < |s.rows| && Newest(s.rows, s.rows[i].key, PENDING).Some? {
      InRangeIfNewest(s.rows, i);
      NewestPendingIff(s.rows, i);
    }
  }

  lemma InRangeIfNewest(rows: seq<Row>, i: nat)
    requires NewestPending(rows, i)
    ensures i < |rows|
  {
  }
}
