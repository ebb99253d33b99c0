/** Builder: the operations of the grammar content builder on one topic, and every run of them. */
module Builder {
  import opened Cefr
  import opened Options
  import opened Text
  import opened Practice
  import opened Publishing

  // ---- stored questions and tasks --------------------------------------------------------

  /** A question as its row holds it: the payload and the answer key, JSON fields that may be absent. */
  datatype Columns = Columns(
    kind: string,
    prompt: string,
    options: Option<seq<string>>,
    hint: Option<string>,
    correctIndex: Option<int>,
    legacyIndex: Option<int>,
    accepted: Option<seq<string>>,
    explanation: string,
    targetRule: string)

  datatype QuestionRow = QuestionRow(level: Option<Level>, columns: Columns, status: Status, source: Source)

  function QuestionColumns(q: Question): Columns {
    if q.IsFillBlank() then
      Columns(FILL_BLANK, q.prompt, None, Some(q.hint), None, None, Some(q.accepted), q.explanation, q.targetRule)
    else
      Columns(MULTIPLE_CHOICE, q.prompt, Some(q.options), None, Some(q.answerIndex), None, None,
              q.explanation, q.targetRule)
  }

  function DecodePractice(c: Columns): Question {
    var index :=
      if c.kind == FILL_BLANK then -1
      else if c.correctIndex.Some? then c.correctIndex.value
      else c.legacyIndex.GetOr(-1);
    Question(c.kind, c.prompt, c.options.GetOr([]), index, c.accepted.GetOr([]), c.hint.GetOr(""),
             c.explanation, c.targetRule)
  }

  /** A question that can be marked comes back from its row exactly as it was stored. */
  lemma StoredQuestionRoundTrips(q: Question)
    requires Markable(q) && Tidy(q)
    ensures DecodePractice(QuestionColumns(q)) == q
  {
  }

  datatype TaskKind = Writing | Speaking
  datatype TaskRow = TaskRow(kind: TaskKind, level: Level, text: string, status: Status, source: Source)

  datatype Store = Store(rows: seq<Row>, questions: seq<QuestionRow>, tasks: seq<TaskRow>, topicLive: bool)

  const EMPTY := Store([], [], [], false)

  // ---- what validation asks --------------------------------------------------------------

  predicate PageOk(page: Page) {
    && !(Trim(page.body.explanation) == "" && Trim(page.body.intro) == "")
    && !(page.body.examples == 0 && page.body.formulas == 0)
    && Trim(page.title) != ""
  }

  // btrim(a) <> '' in SQL: something other than a plain space.
  predicate NotBlank(a: string) { exists i | 0 <= i < |a| :: a[i] != ' ' }

  predicate Problem(c: Columns) {
    if c.kind == FILL_BLANK then
      GapCount(c.prompt) != 1 || !exists a | a in c.accepted.GetOr([]) :: NotBlank(a)
    else
      var options := |c.options.GetOr([])|;
      var answer := if c.correctIndex.Some? then c.correctIndex.value else c.legacyIndex.GetOr(-1);
      options < 2 || answer < 0 || answer >= options
  }

  predicate Wanted(only: seq<Level>, level: Level) { only == [] || level in only }

  predicate Checked(q: QuestionRow, only: seq<Level>) {
    && q.status != Archived
    && q.columns.kind in {MULTIPLE_CHOICE, "contextual", FILL_BLANK}
    && (q.level.None? || Wanted(only, q.level.value))
  }

  predicate QuestionsOk(questions: seq<QuestionRow>, only: seq<Level>) {
    forall q | q in questions && Checked(q, only) :: !Problem(q.columns)
  }

  /** A key is part of a publish when something is written for it and its newest version is no refusal. */
  predicate Written(rows: seq<Row>, k: Key) {
    var i := Newest(rows, k, ANY);
    i.Some? && rows[i.value].status != NotApplicable
  }

  function NewestPage(rows: seq<Row>, k: Key): Page
    requires Written(rows, k)
  {
    rows[Newest(rows, k, ANY).value].page
  }

  function WrittenKeys(rows: seq<Row>, language: Language, only: seq<Level>): set<Key> {
    set l: Level | l in LEVELS && Wanted(only, l) && Written(rows, Key(language, l)) :: Key(language, l)
  }

  const LEVELS: set<Level> := {1, 2, 3, 4, 5, 6}

  /** What lets a language be published: it has no page or question that breaks. */
  predicate LanguageOk(s: Store, language: Language, only: seq<Level>) {
    && (forall k | k in WrittenKeys(s.rows, language, only) :: PageOk(NewestPage(s.rows, k)))
    && QuestionsOk(s.questions, only)
  }

  /** What the builder stores as a question always passes the check that guards publishing. */
  lemma MarkableHasNoProblem(q: Question)
    requires Markable(q)
    ensures !Problem(QuestionColumns(q))
  {
    if q.IsFillBlank() {
      var a := q.accepted[0];
      assert a in q.accepted && Clean(a);
      assert NotBlank(a) by { assert !IsSpace(a[0]); }
    }
  }

  // ---- generating ------------------------------------------------------------------------

  datatype GeneratedLevel = GeneratedLevel(
    level: Level,
    applicable: bool,
    reason: string,
    page: Page,
    practice: seq<Question>)

  function GeneratedRow(rows: seq<Row>, language: Language, g: GeneratedLevel): Row {
    var k := Key(language, g.level);
    if g.applicable then Row(k, NextVersion(rows, k), Draft, g.page, Ai)
    else Row(k, NextVersion(rows, k), NotApplicable, Page(g.page.title, g.reason, EMPTY_BODY), Ai)
  }

  function GeneratedRows(rows: seq<Row>, language: Language, levels: seq<GeneratedLevel>): seq<Row> {
    if levels == [] then rows
    else
      var r := GeneratedRows(rows, language, levels[..|levels| - 1]);
      r + [GeneratedRow(r, language, levels[|levels| - 1])]
  }

  predicate ReplacedByGeneration(q: QuestionRow, level: Level) {
    q.level == Some(level) && q.source == Ai && q.status != Live
  }

  predicate ReplacedBySave(q: QuestionRow, level: Level) {
    q.level == Some(level) && q.status != Live && q.columns.kind in {MULTIPLE_CHOICE, FILL_BLANK}
  }

  function DraftQuestions(level: Level, practice: seq<Question>, source: Source): (drafts: seq<QuestionRow>)
    ensures |drafts| == |practice|
  {
    seq(|practice|, i requires 0 <= i < |practice| =>
      QuestionRow(Some(level), QuestionColumns(practice[i]), Draft, source))
  }

  function Keep(questions: seq<QuestionRow>, drop: QuestionRow -> bool): seq<QuestionRow> {
    if questions == [] then []
    else
      var n := |questions| - 1;
      Keep(questions[..n], drop) + if drop(questions[n]) then [] else [questions[n]]
  }

  /** replaceAIPractice: generated questions that are not live make room for the new set. */
  function AiPracticeReplaced(questions: seq<QuestionRow>, level: Level, practice: seq<Question>): seq<QuestionRow> {
    Keep(questions, q => ReplacedByGeneration(q, level)) + DraftQuestions(level, practice, Ai)
  }

  function GeneratedQuestions(questions: seq<QuestionRow>, levels: seq<GeneratedLevel>): seq<QuestionRow> {
    if levels == [] then questions
    else
      var g := levels[|levels| - 1];
      var r := GeneratedQuestions(questions, levels[..|levels| - 1]);
      if g.applicable && g.practice == [] then r
      else AiPracticeReplaced(r, g.level, if g.applicable then g.practice else [])
  }

  // ---- saving an edit --------------------------------------------------------------------

  datatype Edit = Edit(
    key: Key,
    title: Option<string>,
    summary: Option<string>,
    body: Option<Body>,
    status: Status,
    questions: Option<seq<Question>>)

  predicate EditOk(e: Edit) { e.status in {Draft, Review, NotApplicable} }

  // The new version carries forward from the newest one what the edit leaves out.
  function SavedRow(rows: seq<Row>, e: Edit): Row {
    var i := Newest(rows, e.key, ANY);
    var was := if i.Some? then rows[i.value].page else Page("", "", EMPTY_BODY);
    Row(e.key, NextVersion(rows, e.key), e.status,
        Page(e.title.GetOr(was.title), e.summary.GetOr(was.summary), e.body.GetOr(was.body)), Curated)
  }

  predicate Shares(rows: seq<Row>, e: Edit, level: Level) {
    && level != e.key.level
    && var i := Newest(rows, Key(e.key.language, level), ANY);
       i.Some? && rows[i.value].status !in {NotApplicable, Archived}
  }

  /** The edited explanation as a new draft of every other level up to n that has one. */
  function SharedRows(rows: seq<Row>, e: Edit, n: int): seq<Row>
    requires 0 <= n <= MAX_BASE && e.body.Some?
  {
    if n == 0 then []
    else if !Shares(rows, e, n) then SharedRows(rows, e, n - 1)
    else
      var k := Key(e.key.language, n);
      var was := rows[Newest(rows, k, ANY).value].page;
      SharedRows(rows, e, n - 1)
      + [Row(k, NextVersion(rows, k), Draft,
             Page(e.title.GetOr(was.title), e.summary.GetOr(was.summary), e.body.value), Curated)]
  }

  function SavedRows(rows: seq<Row>, e: Edit): seq<Row> {
    var r := rows + [SavedRow(rows, e)];
    if e.body.Some? && e.status != NotApplicable then r + SharedRows(r, e, MAX_BASE) else r
  }

  function InputQuestion(q: Question): Question {
    if q.kind == "" then q.(kind := MULTIPLE_CHOICE) else q
  }

  predicate AllUsable(questions: seq<Question>) {
    forall q | q in questions :: Markable(Tidied(InputQuestion(q)))
  }

  function TidiedInput(questions: seq<Question>): (r: seq<Question>)
    ensures |r| == |questions|
  {
    seq(|questions|, i requires 0 <= i < |questions| => Tidied(InputQuestion(questions[i])))
  }

  /** replaceLevelQuestions, which refuses the whole list for one question that cannot be marked. */
  function SavedQuestions(questions: seq<QuestionRow>, e: Edit): seq<QuestionRow> {
    if e.questions.None? || !AllUsable(e.questions.value) then questions
    else
      Keep(questions, q => ReplacedBySave(q, e.key.level))
      + DraftQuestions(e.key.level, TidiedInput(e.questions.value), Curated)
  }

  // ---- tasks -----------------------------------------------------------------------------

  predicate SameTask(a: TaskRow, b: TaskRow) { a.kind == b.kind && a.level == b.level }

  function DropDraft(tasks: seq<TaskRow>, t: TaskRow): seq<TaskRow> {
    if tasks == [] then []
    else
      var n := |tasks| - 1;
      DropDraft(tasks[..n], t) + if SameTask(tasks[n], t) && tasks[n].status == Draft then [] else [tasks[n]]
  }

  function TasksStored(tasks: seq<TaskRow>, written: seq<TaskRow>): seq<TaskRow> {
    if written == [] then tasks
    else
      var t := written[|written| - 1];
      DropDraft(TasksStored(tasks, written[..|written| - 1]), t) + [t.(status := Draft)]
  }

  // ---- publishing ------------------------------------------------------------------------

  function LiveLevels(rows: seq<Row>, only: seq<Level>): set<Level> {
    set l: Level | l in LEVELS && Wanted(only, l)
                   && exists i | 0 <= i < |rows| :: rows[i].status == Live && rows[i].key.level == l
  }

  predicate HasDraftQuestion(questions: seq<QuestionRow>, level: Level) {
    exists i | 0 <= i < |questions| :: questions[i].level == Some(level) && questions[i].status == Draft
  }

  predicate HasDraftTask(tasks: seq<TaskRow>, kind: TaskKind, level: Level) {
    exists i | 0 <= i < |tasks| :: tasks[i].kind == kind && tasks[i].level == level && tasks[i].status == Draft
  }

  predicate DraftExtras(s: Store, level: Level) {
    || HasDraftQuestion(s.questions, level)
    || HasDraftTask(s.tasks, Writing, level)
    || HasDraftTask(s.tasks, Speaking, level)
  }

  /** A level with a new test replaces its old one; a level without keeps what it has. */
  function PublishQuestions(questions: seq<QuestionRow>, levels: set<Level>): seq<QuestionRow> {
    seq(|questions|, i requires 0 <= i < |questions| =>
      var q := questions[i];
      if q.level.Some? && q.level.value in levels && HasDraftQuestion(questions, q.level.value) then
        q.(status := if q.status == Draft then Live else if q.status == Live then Archived else q.status)
      else q)
  }

  function PublishTasks(tasks: seq<TaskRow>, levels: set<Level>): seq<TaskRow> {
    seq(|tasks|, i requires 0 <= i < |tasks| =>
      var t := tasks[i];
      if t.level in levels && HasDraftTask(tasks, t.kind, t.level) then
        t.(status := if t.status == Draft then Live else if t.status == Live then Archived else t.status)
      else t)
  }

  datatype Outcome = Published | Refused | NothingWritten | NothingNew

  /** The keys a publish of these languages and levels is about. */
  function PlannedKeys(s: Store, languages: seq<Language>, only: seq<Level>): set<Key> {
    set language, k | language in languages && k in WrittenKeys(s.rows, language, only) :: k
  }

  predicate AnyRefused(s: Store, languages: seq<Language>, only: seq<Level>) {
    exists language | language in languages ::
      WrittenKeys(s.rows, language, only) != {} && !LanguageOk(s, language, only)
  }

  function PublishOutcome(s: Store, languages: seq<Language>, only: seq<Level>): Outcome {
    var planned := PlannedKeys(s, languages, only);
    var live := LiveLevels(PublishKeys(s.rows, planned), only);
    if AnyRefused(s, languages, only) then Refused
    else if planned == {} && !exists l | l in LiveLevels(s.rows, only) :: DraftExtras(s, l) then NothingWritten
    else if (exists k | k in planned :: Newest(s.rows, k, PENDING).Some?) || (exists l | l in live :: DraftExtras(s, l))
      then Published
    else NothingNew
  }

  function PublishContent(s: Store, languages: seq<Language>, only: seq<Level>): Store {
    if PublishOutcome(s, languages, only) != Published then s
    else
      var rows := PublishKeys(s.rows, PlannedKeys(s, languages, only));
      var live := LiveLevels(rows, only);
      Store(rows, PublishQuestions(s.questions, live), PublishTasks(s.tasks, live), true)
  }

  // ---- runs ------------------------------------------------------------------------------

  datatype Step =
    | Generate(language: Language, levels: seq<GeneratedLevel>)
    | Translate(language: Language, levels: seq<GeneratedLevel>)
    | WriteTest(level: Level, practice: seq<Question>)
    | Save(edit: Edit)
    | StoreTasks(written: seq<TaskRow>)
    | Publish(languages: seq<Language>, only: seq<Level>)

  function Apply(s: Store, step: Step): Store {
    match step
    case Generate(language, levels) =>
      s.(rows := GeneratedRows(s.rows, language, levels), questions := GeneratedQuestions(s.questions, levels))
    case Translate(language, levels) => s.(rows := GeneratedRows(s.rows, language, levels))
    case WriteTest(level, practice) => s.(questions := AiPracticeReplaced(s.questions, level, practice))
    case Save(e) => s.(rows := SavedRows(s.rows, e), questions := SavedQuestions(s.questions, e))
    case StoreTasks(written) => s.(tasks := TasksStored(s.tasks, written))
    case Publish(languages, only) => PublishContent(s, languages, only)
  }

  function Run(s: Store, steps: seq<Step>): Store {
    if steps == [] then s else Apply(Run(s, steps[..|steps| - 1]), steps[|steps| - 1])
  }

  /** What the callers guarantee: an edit's status is one the form offers, and generated tests
      are the ones the practice writer hands over. */
  predicate StepOk(step: Step) {
    match step
    case Generate(_, levels) => forall g, q | g in levels && q in g.practice :: Markable(q)
    case WriteTest(_, practice) => forall q | q in practice :: Markable(q)
    case Save(e) => EditOk(e)
    case _ => true
  }
}
