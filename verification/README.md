# Engora, verified

A Dafny model of the parts of Engora's API whose correctness is hard to see by reading one
function at a time, and proofs about them over every input and every run - and, for concurrent AI
calls, vocabulary batches, creations and status changes, every interleaving.
`dafny verify dfyconfig.toml` checks the whole project.

What is modelled, each part in its own files:

- **The grammar content builder** (`Practice`, `AuthoredContent`, `Publishing`, `Builder`, `PageChecks`,
  `PublishChecks`, `BuilderContents`, `BuilderRuns`, `PublishRaces`, `BuilderService`, `TopicStatus`). A topic's explanations are rows keyed
  by language and level, with a version and a status; questions and tasks hang off its levels.
  Generating, translating, editing and publishing add rows or move statuses. `Builder` says what each handler does to the
  three tables, `BuilderService` runs the handlers statement by statement against that, and
  `BuilderRuns` proves what every run keeps, `PublishRaces` what may happen while a topic is published.
  `PageChecks`, `PublishChecks` and `BuilderContents` say what is refused, what goes live and what each
  handler stores over the rows' own fields.
- **Generated tests** (`PracticeWriter`, `PracticeRounds`, `PracticeChecks`, `GeneratedTests`): the filter,
  the independent check, the rounds that top a test up, and the way from there into a published topic.
- **Placement forms** (`Selection`, `SelectionProofs`, `SelectionSlack`, `SelectionOrder`,
  `SelectionLevels`, `SelectionService`): the greedy allocation of stimulus groups to three bands, and the
  levels it draws on.
- **Diagrams** (`Rows`, `Wrapping`, `Layout`, `LayoutProofs`, `MarkedText`, `PageEdges`,
  `Timeline`, `TimelineProofs`, `DiagramText`, `LayoutService`): text measuring, greedy wrapping, columns
  measured before they are drawn, chips and timelines - where everything is drawn, and what it says.
- **AI calls** (`Admission`, `GatewayService`, `Ledger`): per-task slots for any number of
  concurrent callers, one retry, one record per call, and a ledger with a daily roll-up.
- **Vocabulary runs** (`Vocabulary`, `Spelling`, `VocabularyProofs`, `VocabularyService`): waves of batches
  whose answers reach one locked store in any order.
- **Evaluation jobs** (`Evaluation`, `EvaluationRuns`, `EvaluationService`): a writing section
  scored by a job that may fail anywhere and is tried again.
- **Content history** (`ContentHistory`, `StatusRaces`, `ContentService`): an item and the log of what it
  said, the handlers over the tables of all items, and creations and status changes that interleave.
- **Uzbek text** (`Uzbek`): normalisation and which corrections are believed.

`Cefr`, `Options`, `Text` and `Sorting` hold what several parts share.

How the source is read. A table is a sequence of rows in insertion order and a statement is what it
does to them. A handler is one step unless a property is about what happens between two of its
statements; a transaction either applies or does not, and where it matters it may also be applied
and reported as failed. The language model, the database's failures, the clock and the random
source are parameters that may be anything. Lower- and upper-casing are those of the English alphabet. Widths,
costs and confidences are reals. A shuffle may depend on the lengths of everything shuffled so far,
as a seeded generator's does. The builder's tables are those of one topic.

## Where the code does not do what it says

Each of these is proved, with the exact condition where there is one.

- Validation is meant to run before anything is published, and any failure to stop everything. But the
  check reads before the publishing transaction begins, and whatever is stored in between - an edit, a
  generation, a translation - goes live unread: all live pages are fit to be read exactly when the newest
  waiting version of every key about to be published is (`PublishRaces.RunInBetweenIff`,
  `PublishRaces.SaveInBetweenIff`). A generated lesson without a title is enough to break one
  (`PublishRaces.GenerationBetweenCheckAndPublish`), and nothing can do harm only when nothing is about to
  be published (`PublishRaces.EveryRunIsHarmlessIff`).
- A check is missing, though nothing is lost by it: a language with nothing written is passed over
  together with its check, and when that is so of every language asked for, waiting questions of live
  levels are published unread (`BuilderRuns.QuestionsAreCheckedIff`). What the builder itself stores can
  be marked all the same (`BuilderRuns.UnreadIsMarkableAnyway`).
- Publishing a topic by its status, on the same rows, leaves one live version per language: a topic
  with more live levels in a language loses all but one (`TopicStatus.StaysLitIff`). The order of its
  versions survives only if every live row is of the level of its language's newest row and nothing else
  of that level is pending (`TopicStatus.OrderSurvivesIff`); otherwise drafts can be left below what is
  live (`TopicStatus.OrderIsLost`). Nothing is checked either: every live page is fit to be read exactly
  when the newest row of each language is, a refused or unfinished one included
  (`TopicStatus.LivePagesStayOkIff`, `TopicStatus.RefusalGoesLive`).
- A lesson is copied to every level together with its slice of questions, and the slice is then
  compacted in place once per level. If an unusable question was written before a usable one, later
  levels find questions twice (`AuthoredContent.LevelsAgreeIff`, `AuthoredContent.SharedLevelsAgreeIff`). The first lesson with any text
  decides for all levels: a bare one fails a generation that wrote a good one too, and the refusals
  that validation is meant to keep are kept only when no lesson has text
  (`AuthoredContent.FirstLessonDecides`).
- "Case, spacing and final punctuation" are meant to make no difference between two answers: a final mark
  makes none exactly when it does not stand behind a space (`PracticeChecks.FinalMarkIff`).
- Checked questions are kept "in the order they were written" only when no two share a prompt
  (`PracticeWriter.OrderIsKeptIff`).
- "A retry never pays for an evaluation twice" holds of every run exactly when neither of two replies
  occurs: an answer the provider bills but that cannot be read, and a save rolled back after an answer
  (`EvaluationRuns.NeverPaysTwiceIff`, `EvaluationRuns.CostlyPaysTwice`).
- The roll-up stops agreeing with the ledger exactly when a user with recorded calls is deleted: the
  ledger keeps the calls without a user, the roll-up loses the user's rows
  (`Ledger.DeletionAgreesIff`).
- "Version 1 exists from the moment the item does" and a status change are two statements each, not
  one transaction; and a body edited into another with the same normal form is stored without a new
  version (`ContentHistory.StepAgreesIff`, `ContentHistory.UnnoticedEdit`): such bodies differ only in how
  their numbers are written, or in numbers that are the same as floats. When an edit comes between the two
  statements of a creation, version 1 never exists although nothing was cut off
  (`StatusRaces.CreationAgreesIff`, `StatusRaces.RevisedTooSoon`). Two status changes that cross leave the item with one status
  and its current version with the other (`StatusRaces.CrossedChanges`,
  `StatusRaces.EveryRaceAgreesIff`).
- Entries "outside the level range" are meant to be skipped, but a level with a plus has no place among the
  six: it passes every maximum, and fails every minimum (`VocabularyProofs.UnplacedIsInsideIff`). A run up to
  A2 stores words put at C1+ (`VocabularyProofs.PlusPassesMaximum`).
- "Nothing is placed on top of anything else" is true of columns and chips
  (`LayoutProofs.NothingOverlaps`), but of a timeline only when its texts fit
  (`TimelineProofs.NothingCoveredIff`): two labels of one zone that each fit their boxes can cover each
  other (`TimelineProofs.TwoLabelsMeet`), and from the fifth event after now on the last one's text is
  always on the mark "Future" (`TimelineProofs.ManyFutureEventsMeetTheMark`).
- "A single word wider than the box is shortened, not overflowed" and text measured wide "rather than
  letting text run past a box edge": a word in bold is measured in bold and shortened as if it were not,
  so it can end past its box (`Wrapping.WordFitsIff`, `Wrapping.BoldWordOverflows`), as can a line with a
  marked word (`Wrapping.MarkedLineOverflows`). How far is bounded (`Wrapping.LineReach`); only titles and
  the items of a lone column can leave the page (`TimelineProofs.StaysOnPageIff`,
  `PageEdges.TitleLeavesPage`).

## Model

| member | source | states |
|---|---|---|
| Practice.UsablePractice | apps/api/internal/ai/grammar_content.go:247-287 | compacting the caller's slice in place gives exactly the ordered filter-and-tidy of the questions it held, and leaves the rest of the slice as it was |
| Practice.TidyQuestion | apps/api/internal/ai/grammar_content.go:250-285 | one question is kept, tidied, exactly when its tidied form can be marked |
| Practice.DistinctOptions | apps/api/internal/ai/grammar_content.go:291-301 | true exactly when no option is blank or the same as another in normal form |
| Practice.UsableIsMarkable | apps/api/internal/ai/grammar_content.go:245-287 | every question let through has one gap and a key, or an in-range index over distinct options, and only its kind's fields |
| Practice.TidiedIsTidy | apps/api/internal/ai/grammar_content.go:250-284 | tidying settles a question: tidying it again changes nothing |
| Practice.UsableIsIdempotent | apps/api/internal/ai/grammar_content.go:247-287 | filtering a filtered list keeps all of it, unchanged |
| PracticeChecks.UsableIs | apps/api/internal/ai/grammar_content.go:247-287 | the questions kept are, in the order they were written, the tidied forms of exactly those that can be marked once tidied: prompt trimmed and gaps collapsed, the key's answers that say something trimmed in order, the other kind's fields emptied, options, index, explanation and rule as written |
| PracticeChecks.MarkableIff | apps/api/internal/ai/grammar_content.go:250-285 | a question can be marked exactly when it has a prompt and, for a gap, exactly one gap marker - none before or after the leftmost - and trimmed non-empty answers, or, for a choice, two options or more, none blank or the same as another, and a key among them |
| PracticeChecks.SameWordsSameChoice | apps/api/internal/ai/grammar_content.go:305-308 | answers of the same words in lower case are the same, however they are spaced |
| PracticeChecks.FinalMarkIff | apps/api/internal/ai/grammar_content.go:303-308 | a mark at the end of an answer makes no difference exactly when it has no space before it, or nothing at all |
| PracticeChecks.NormalChoiceStays | apps/api/internal/ai/grammar_content.go:305-308 | and nothing else is lost: a lower-case, single-spaced answer without a final mark is its own normal form |
| AuthoredContent.ValidateContent | apps/api/internal/ai/grammar_content.go:204-242 | one loop compacts the levels in place - the refusals and teachable levels that were asked for, normalised and in order - names the empty ones and filters the shared questions once per taught level: each level holds the front its own pass kept, whatever later passes do |
| AuthoredContent.KeptLevelsAre | apps/api/internal/ai/grammar_content.go:204-242 | the levels kept are, in order and under their codes in capitals, the refusals asked for and the levels asked for that have a text and an example or a formula |
| AuthoredContent.DroppedLevelsAre | apps/api/internal/ai/grammar_content.go:204-242 | the codes named as empty are, in order, those of the taught levels asked for that have not |
| AuthoredContent.LevelsAgreeIff | apps/api/internal/ai/grammar_content.go:177-234 | all passes over a shared slice end with the first one's questions exactly when no usable question was written behind an unusable one |
| AuthoredContent.SharedLessonQuestions | apps/api/internal/ai/grammar_content.go:162-234 | a teachable shared lesson leaves the i-th requested level with the questions of the i-th pass |
| AuthoredContent.SharedLevelsAgreeIff | apps/api/internal/ai/grammar_content.go:162-234 | so all requested levels end with the same questions exactly when no usable question was written behind an unusable one |
| AuthoredContent.CopiesAre | apps/api/internal/ai/grammar_content.go:177-200 | a shared lesson is copied under each requested code, taught, without a reason and otherwise as it is |
| AuthoredContent.FirstLessonDecides | apps/api/internal/ai/grammar_content.go:162-242 | the first lesson with text is copied to every requested level and the written refusals are gone, or the generation fails exactly when it has neither examples nor formulas; without such a lesson exactly the requested refusals are kept |
| AuthoredContent.BareLessonFailsAll | apps/api/internal/ai/grammar_content.go:221-242 | one bare lesson in front leaves no level, although a level fit to teach was written |
| Publishing.OrderedMeansOrderedByVersion | apps/api/internal/admin/grammar_builder.go:818-824 | in an ordered history a key has at most one live version, archived ones are below it and pending ones above it |
| Publishing.NewestIsCurrent | apps/api/internal/admin/grammar_map.go:369-395 | the newest version, which validation reads, is never archived, and is the newest pending one whenever something is pending above the live one |
| Publishing.InsertKeepsOrdered | apps/api/internal/admin/grammar_builder.go:183-212 | inserting the next version of a key keeps the history ordered and every live version live |
| Publishing.PublishKeepsOrdered | apps/api/internal/admin/grammar_builder.go:825-871 | publishing any set of keys keeps the history ordered |
| Publishing.PublishEvolves | apps/api/internal/admin/grammar_builder.go:825-871 | publishing changes no text and leaves every live key live at a version not below the one it had |
| Publishing.PublishTwice | apps/api/internal/admin/grammar_builder.go:825-871 | a published key has nothing pending, and publishing it again changes nothing |
| Builder.StoredQuestionRoundTrips | apps/api/internal/admin/grammar_map.go:479-512 | a question that can be marked is read back from its row exactly as it was stored |
| Builder.MarkableHasNoProblem | apps/api/internal/admin/grammar_builder.go:610-660 | what the builder stores as a question passes the SQL check that guards publishing |
| BuilderRuns.GenerationKeepsOrder | apps/api/internal/admin/grammar_builder.go:172-225 | storing generated or translated levels keeps the history ordered, its live versions live, and adds nothing live |
| BuilderRuns.SavingKeepsOrder | apps/api/internal/admin/grammar_builder.go:375-477 | saving an edit, with the explanation shared to the other levels, does the same |
| BuilderRuns.PublishedIsValidated | apps/api/internal/admin/grammar_builder.go:560-608 | the row a publish puts live is the newest of its key, the one validation read: it has a title, a text and an example or a formula, and is the only live one |
| BuilderRuns.EveryRunIsSound | apps/api/internal/admin/grammar_builder.go:685-871 | over any run: histories ordered, every live page with a title, a text and an example or a formula, no text altered, no live level dark, no published version lower, live tests and tasks only replaced |
| BuilderRuns.EveryRunFromEmpty | apps/api/internal/admin/grammar_builder.go:818-871 | from an empty topic on, every key has at most one live version in every reachable state |
| BuilderRuns.PublishingAgainChangesNothing | apps/api/internal/admin/grammar_builder.go:685-816 | publishing the same languages and levels again changes nothing |
| BuilderRuns.QuestionsAreCheckedIff | apps/api/internal/admin/grammar_builder.go:700-760 | a successful publish has checked every question it covers exactly when something is written in a language asked for, or no level is live |
| BuilderRuns.UnreadIsMarkableAnyway | apps/api/internal/admin/grammar_tasks.go:283-321 | in a sound topic, which is all the builder ever leaves, an unread publish still puts no question live that cannot be marked |
| PageChecks.UnfitIff | apps/api/internal/admin/grammar_builder.go:585-608 | a page raises an issue exactly when explanation and introduction are blank, or it has neither examples nor formulas, or its title is blank |
| PageChecks.BrokenIff | apps/api/internal/admin/grammar_builder.go:610-660 | a question does exactly when it is a gap without exactly one gap marker or without an answer that is not blank, or a choice with fewer than two options or whose key - the index, or the older field when there is none - is not one of them |
| PublishChecks.RefusedIff | apps/api/internal/admin/grammar_builder.go:560-760 | a publish is refused exactly when a page it is about - the newest of a level asked for that is no refusal - is unfit, or there is such a page and a question it is about is broken; then nothing changes |
| PublishChecks.PublishedRows | apps/api/internal/admin/grammar_builder.go:825-871 | otherwise, of every key it is about with something waiting, the newest waiting version goes live and what else is live or waiting becomes history; every other row stays as it is |
| PublishChecks.PublishedExtras | apps/api/internal/admin/grammar_tasks.go:283-321 | the tests, and the tasks of a kind, of a level asked for that is live by then and has a new one go live or become history; all others stay as they are |
| PublishChecks.OutcomeIff | apps/api/internal/admin/grammar_builder.go:730-790 | nothing is written exactly when it is about no page and no live level has a new test or task; published exactly when a page it is about or a level live by then has something waiting |
| BuilderContents.GenerationAdds | apps/api/internal/admin/grammar_builder.go:172-225 | each generated level becomes one new row, in order, a version above all of its key: a draft of what was written, or a refusal with its reason and no text |
| BuilderContents.NewTestReplaces | apps/api/internal/admin/grammar_builder.go:233-255 | a new test takes the place of exactly the level's generated questions that are not live; what an editor wrote, what is live and other levels' questions stay, in order |
| BuilderContents.EachLevelReplaces | apps/api/internal/admin/grammar_builder.go:172-225 | a taught level without a test leaves the questions alone, one with a test gets it, and a refused one loses its generated drafts |
| BuilderContents.GenerationSpares | apps/api/internal/admin/grammar_builder.go:233-255 | through a whole generation an editor's question, a live one and one of a level that was not written stay |
| BuilderContents.SavedRowIs | apps/api/internal/admin/grammar_builder.go:412-440 | a saved level is a curated row a version above all of its key that carries over from the newest one whatever the edit leaves out |
| BuilderContents.SharedRowsAre | apps/api/internal/admin/grammar_builder.go:442-464 | exactly the other levels of the language whose newest row is neither a refusal nor history get one draft each with the new explanation, under their own title and summary unless those were edited |
| BuilderContents.SavedRowsAre | apps/api/internal/admin/grammar_builder.go:412-464 | the shared drafts are written behind the saved row exactly when the explanation was edited and the level is taught |
| BuilderContents.SavedTestReplaces | apps/api/internal/admin/grammar_builder.go:484-518 | a saved list, each question tidied, takes the place of the level's questions of the two kinds that are not live; one that cannot be marked leaves everything as it was |
| BuilderContents.NewTaskReplaces | apps/api/internal/admin/grammar_tasks.go:139-171 | a written task takes the place of the draft of its kind and level and of nothing else |
| PublishRaces.RunInBetweenIff | apps/api/internal/admin/grammar_builder.go:700-790 | whatever steps of the builder come between the check and the transaction, publishing the planned keys leaves every live page fit to be read exactly when the newest waiting version of each of them is |
| PublishRaces.SaveInBetweenIff | apps/api/internal/admin/grammar_builder.go:700-790 | one edit in between leaves every live page fit to be read exactly when every version it adds to a planned key is |
| PublishRaces.EveryRunIsHarmlessIff | apps/api/internal/admin/grammar_builder.go:700-790 | everything the builder may do in between is harmless exactly when nothing is planned |
| PublishRaces.EveryEditIsHarmlessIff | apps/api/internal/admin/grammar_builder.go:700-790 | so are edits alone |
| PublishRaces.SaveBetweenCheckAndPublish | apps/api/internal/admin/grammar_builder.go:700-790 | for every sound topic and every key about to be published there is an edit that, saved in between, goes live unread and breaks its page |
| PublishRaces.GenerationBetweenCheckAndPublish | apps/api/internal/admin/grammar_builder.go:172-225 | and a generation: a lesson is not checked for a title |
| BuilderService.GrammarBuilder.StoreGenerated | apps/api/internal/admin/grammar_builder.go:172-225 | the loop over levels inserts exactly the rows and questions of the specification |
| BuilderService.GrammarBuilder.ReplaceAiPractice | apps/api/internal/admin/grammar_builder.go:233-255 | a level's generated questions that are not live are replaced by the new drafts, in order |
| BuilderService.GrammarBuilder.StoreTranslated | apps/api/internal/admin/grammar_generate_job.go:498-530 | the loop over translated levels inserts exactly the rows of the specification |
| BuilderService.GrammarBuilder.SaveGrammarLevel | apps/api/internal/admin/grammar_builder.go:375-477 | the new version, the shared drafts and the questions are those of the specification; a refused question list does not undo the explanation |
| BuilderService.GrammarBuilder.ReplaceLevelQuestions | apps/api/internal/admin/grammar_builder.go:484-518 | one question that cannot be marked refuses the list before anything is deleted |
| BuilderService.GrammarBuilder.StoreTasks | apps/api/internal/admin/grammar_tasks.go:139-171 | each written task replaces the draft of its kind and level |
| BuilderService.GrammarBuilder.CheckTopic | apps/api/internal/admin/grammar_builder.go:560-666 | the written levels are listed, and no issue is found exactly when the language may be published |
| BuilderService.GrammarBuilder.PublishLanguage | apps/api/internal/admin/grammar_builder.go:825-871 | retiring, promoting and archiving key by key publishes exactly the keys of the language's levels |
| BuilderService.GrammarBuilder.PublishLevelExtras | apps/api/internal/admin/grammar_tasks.go:283-321 | a level's draft test and tasks go live and replace what was live of their kind |
| BuilderService.GrammarBuilder.PublishGrammarContent | apps/api/internal/admin/grammar_builder.go:685-816 | the handler does what the specification says: refused, nothing written, nothing new, or all of it published |
| TopicStatus.OneLivePerLanguage | apps/api/internal/admin/grammar.go:423-444 | publishing by status keeps every text and leaves at most one live row per language |
| TopicStatus.StaysLitIff | apps/api/internal/admin/grammar.go:423-444 | no level goes dark exactly when each language's live versions are all of the level of its newest row |
| TopicStatus.OrderSurvivesIff | apps/api/internal/admin/grammar.go:423-444 | an ordered history stays ordered exactly when every live row has the key of its language's newest row and no other row of such a key is pending |
| TopicStatus.OrderIsLost | apps/api/internal/admin/grammar.go:423-444 | two drafts of one level leave a draft below the live version |
| TopicStatus.LivePagesStayOkIff | apps/api/internal/admin/grammar.go:430-444 | every live page is fit to be read exactly when the newest row of each language, whatever its status, is |
| TopicStatus.RefusalGoesLive | apps/api/internal/admin/grammar.go:430-444 | a newest row without a text goes live |
| PracticeWriter.JudgeIsSound | apps/api/internal/ai/grammar_practice.go:262-309 | a kept choice question has the checker's index; a kept gap question's key is, on non-empty normal forms, the fills the checker accepts, with its own among them |
| PracticeWriter.JudgeKeepsMarkable | apps/api/internal/ai/grammar_practice.go:269-309 | narrowing a key keeps the question markable |
| PracticeWriter.AgreedIsSound | apps/api/internal/ai/grammar_practice.go:257-318 | whatever the check answers, what is kept are questions of the batch, each judged by an answer with its number |
| PracticeChecks.AgreesIff | apps/api/internal/ai/grammar_practice.go:262-309 | a question passes exactly when the answer is not ambiguous and, for a choice, has its index or, for a gap, has its own fill in the key and accepts no fill outside it |
| PracticeChecks.NarrowedTo | apps/api/internal/ai/grammar_practice.go:270-284 | a gap's key keeps, in order, exactly the answers the checker accepts too |
| PracticeChecks.KeptIff | apps/api/internal/ai/grammar_practice.go:257-318 | what the check leaves are exactly the questions that the first answer to their number lets pass |
| PracticeWriter.OrderIsKeptIff | apps/api/internal/ai/grammar_practice.go:311-318 | a usable batch keeps its written order under every check exactly when no two prompts are equal |
| PracticeRounds.TestCanBeMarked | apps/api/internal/ai/grammar_practice.go:70-108 | whatever writer and checker return, the result is an error or 8 to 15 questions with distinct keys, all of which can be marked |
| PracticeChecks.EnoughIffTest | apps/api/internal/ai/grammar_practice.go:70-108 | there is a test exactly when the first round was written and the rounds before the first failure left eight different questions; it has all of them, or fifteen |
| PracticeRounds.MergeLosesNothing | apps/api/internal/ai/grammar_practice.go:94-101 | merging a round keeps what was kept and loses no question that is new |
| PracticeRounds.AgreedPractice | apps/api/internal/ai/grammar_practice.go:257-318 | the loop over answers with its flags and sets computes the judged and sorted questions |
| PracticeRounds.WriteGrammarPractice | apps/api/internal/ai/grammar_practice.go:70-108 | the rounds as they run, stopping at fifteen questions or a failed round, give the specified test |
| GeneratedTests.TestSurvivesStorage | apps/api/internal/admin/grammar_builder.go:233-277 | a test that was written can be stored in any run, passes the check that guards publishing and is read back as it was written |
| GeneratedTests.TestKeepsTopicSound | apps/api/internal/admin/grammar_builder.go:233-255 | storing it keeps a sound topic sound and everything live live |
| Selection.SearchOrderIsNearestFirst | apps/api/internal/assessment/selection.go:118-134 | the search order visits every level once, by non-decreasing distance, ties in the band's direction |
| SelectionProofs.GroupingPartitions | apps/api/internal/assessment/selection.go:50-66 | grouping by stimulus puts every candidate in exactly one group |
| SelectionProofs.EveryFormIsSound | apps/api/internal/assessment/selection.go:73-116 | a chosen form has the exact count per band, no candidate twice, each stimulus in one band as a prefix of its authored order, and no unused group passed over for one of a later level: for the core nearest to the start level first, for the foundation to one below it or A1, for the challenge to one above it or C2, and of two equally near the one in the band's direction |
| SelectionProofs.FailureUsesEverything | apps/api/internal/assessment/selection.go:73-108 | when choosing fails every group has been consumed |
| SelectionProofs.SlackSuffices | apps/api/internal/assessment/selection.go:44-116 | with candidates for the total plus twice the largest stimulus less one, every shuffle succeeds; with fewer than the total, none does |
| SelectionSlack.SlackIsNeeded | apps/api/internal/assessment/selection.go:44-116 | whatever the largest stimulus, there is a bank one candidate short of that bound for which every shuffle fails |
| SelectionOrder.OrderDoesNotMatterIff | apps/api/internal/assessment/selection.go:50-71 | every order of reading a bank gives the same groups exactly when the items of each stimulus agree on its level and differ in position |
| SelectionOrder.SameFormForEveryOrder | apps/api/internal/assessment/selection.go:50-116 | with distinct positions and one level per stimulus the form does not depend on the order the bank is read in |
| SelectionLevels.GroupsAre | apps/api/internal/assessment/selection.go:50-71 | one group per stimulus, and per item without one, in the order of their ids; each holds its items by position and has the level of the first of them in the bank |
| SelectionLevels.EveryoneIsGrouped | apps/api/internal/assessment/selection.go:50-71 | every candidate is in the group of its stimulus, or its own |
| SelectionLevels.EnoughOfEachLevel | apps/api/internal/assessment/selection.go:73-116 | with enough unused items at the start level, one below and one above it, the core is of the first, the foundation of the second and the challenge of the third, whatever the shuffle |
| SelectionLevels.HandedOut | apps/api/internal/assessment/selection.go:73-116 | the items handed out are the foundation's, the core's and the challenge's, each as many as asked for, group by group from its first |
| SelectionLevels.EasierFirst | apps/api/internal/assessment/selection.go:73-116 | so, when a stimulus has one level, the items are one level below, at and one above the start level, in that order |
| SelectionService.SelectItems | apps/api/internal/assessment/selection.go:44-116 | the maps, the used set and the counters choose exactly the specified form |
| SelectionService.GroupsByLevel | apps/api/internal/assessment/selection.go:50-71 | the map by level holds the groups in key order, items in authored order |
| SelectionService.EstimateIsBetween | apps/api/internal/assessment/adaptive.go:39-75 | whatever the confidences, the estimate lies between the weakest and the strongest measured section |
| SelectionService.SurerCountsMore | apps/api/internal/assessment/adaptive.go:39-75 | one more section moves the mean in proportion to its confidence, a tenth at least |
| SelectionService.FromValueIs | apps/api/internal/assessment/adaptive.go:39-75 | the estimate is the largest half step not above the mean, kept between A1 and C2 |
| SelectionService.AbilityEstimate | apps/api/internal/assessment/adaptive.go:39-75 | the loop computes the confidence-weighted mean on the half-step scale; with nothing measured the declared level stands |
| SelectionService.FillSection | apps/api/internal/assessment/adaptive.go:82-114 | the section's items are the form at the measured level if there is one, otherwise the one at the declared level, numbered from 1 |
| SelectionService.FilledTwiceIsTheSame | apps/api/internal/assessment/adaptive.go:137-147 | a section filled twice is the same section |
| Rows.GreedyIsOptimal | apps/api/internal/ai/grammar_visual_render.go:377-402 | no other division of the same cells into rows that fit, in the same order, has fewer rows |
| Rows.GreedyKeepsAndFits | apps/api/internal/ai/grammar_visual_render.go:377-402 | greedy filling keeps every cell in order, leaves no row empty and none too wide |
| Wrapping.WrapWords | apps/api/internal/ai/grammar_visual_render.go:377-402 | the loop with its running width makes exactly the greedy lines |
| Wrapping.WrappingIsOptimal | apps/api/internal/ai/grammar_visual_render.go:377-402 | wrapping keeps the words, accounts at most the box for each line and uses no more lines than any other split that fits |
| Wrapping.ShortenedIsLongest | apps/api/internal/ai/grammar_visual_render.go:429-440 | text too wide becomes its longest prefix that leaves room for the ellipsis, never under one character |
| Wrapping.Ellipsize | apps/api/internal/ai/grammar_visual_render.go:429-440 | the loop finds that prefix |
| Wrapping.LongerIsWider | apps/api/internal/ai/grammar_visual_render.go:407-427 | text can only get wider by growing |
| Wrapping.OneWeightFits | apps/api/internal/ai/grammar_visual_render.go:342-354 | a line of a block of one weight whose words fit by themselves is drawn exactly as wide as accounted, inside its box |
| Wrapping.DrawnIsAccounted | apps/api/internal/ai/grammar_visual_render.go:341-351 | any line is drawn as wide as accounted, plus what its words take beyond their accounted widths, plus what the bold spaces before marked words gain |
| Wrapping.PlainWordFitsIff | apps/api/internal/ai/grammar_visual_render.go:384-387 | exactly when an unmarked word too wide for its box still ends inside it |
| Wrapping.WordFitsIff | apps/api/internal/ai/grammar_visual_render.go:383-387 | in either weight a word ends inside its box exactly when it fits, or is more than half a unit too wide in regular weight and its longest prefix with the ellipsis fits in its own weight |
| Wrapping.BoldWordOverflows | apps/api/internal/ai/grammar_visual_render.go:383-387 | one word left whole and one word shortened that are drawn past their boxes, marked or in a heading |
| Wrapping.MarkedLineOverflows | apps/api/internal/ai/grammar_visual_render.go:341-351 | two words that fill a line exactly are drawn past it when the second is marked |
| Wrapping.LineReach | apps/api/internal/ai/grammar_visual_render.go:377-440 | no wrapped line is drawn wider than 1.07 times its box and the tolerance, or a single letter with its ellipsis, whatever its words |
| MarkedText.MarkingKeepsLetters | apps/api/internal/ai/grammar_visual_render.go:363-375 | a block's words are the letters of its text in order, each bold exactly between two markers and at the start of a word exactly behind a space or a marker |
| DiagramText.BlockSays | apps/api/internal/ai/grammar_visual_render.go:325-355 | a block's lines say all the words of its text in order, a word too wide as a prefix with an ellipsis; or, when its lines are used up, the first words, the last of them without final marks and with an ellipsis |
| DiagramText.DiagramSays | apps/api/internal/ai/grammar_visual_render.go:122-355 | a diagram says, block by block and nothing else: the title, the rule if not blank, then the headings, subheadings, items and notes of up to three columns, or the marks of the axis and the names and notes of up to six events by zone in written order; then its first eight tags that are not blank on chips; then the footer |
| LayoutProofs.EllipsisWidensLine | apps/api/internal/ai/grammar_visual_render.go:332-336 | the last line kept of a text with too many grows by at most one ellipsis |
| LayoutProofs.BlockIsClear | apps/api/internal/ai/grammar_visual_render.go:325-355 | a block's lines, as drawn, stay between its top and the y it returns, one below the other, and across within the reach of a line and one ellipsis |
| LayoutProofs.BodyIsClear | apps/api/internal/ai/grammar_visual_render.go:192-221 | at any position a column's contents end where they were measured to end |
| LayoutProofs.ColumnsKeepMargins | apps/api/internal/ai/grammar_visual_render.go:166-185 | columns keep both margins and a gap between neighbours |
| LayoutProofs.RowIsCentred | apps/api/internal/ai/grammar_visual_render.go:302-309 | a row of chips is centred and within the margins |
| LayoutProofs.ChipsAreClear | apps/api/internal/ai/grammar_visual_render.go:300-319 | chips do not overlap and stay above the y returned |
| LayoutProofs.ChipTextIsInside | apps/api/internal/ai/grammar_visual_render.go:311-316 | the text of a chip stays on it, half a unit inside its padding at most |
| LayoutProofs.NothingOverlaps | apps/api/internal/ai/grammar_visual_render.go:122-221 | in a diagram of columns, whatever the text and as it is drawn, no line of text or chip covers another, all is above the bottom, and none runs more than 2 units past the left edge or 10 past the right |
| PageEdges.TitleLeavesPage | apps/api/internal/ai/grammar_visual_render.go:126-126 | a title whose second line is drawn wider than the page |
| TimelineProofs.NothingCoveredIff | apps/api/internal/ai/grammar_visual_render.go:122-271 | in a diagram of either kind nothing covers anything exactly when, in a timeline, lines of different events at one height are together no wider than twice the way between the events and none reaches the marks beside it |
| TimelineProofs.TimelineIsFramed | apps/api/internal/ai/grammar_visual_render.go:224-271 | everything a timeline draws is across the page, above the y it returns and at most 10 units above the y it starts from |
| TimelineProofs.TwoLabelsFitIff | apps/api/internal/ai/grammar_visual_render.go:249-266 | two past events with the same one-word label that fits its box fit exactly when it is drawn no wider than the 106 units between them |
| TimelineProofs.TwoLabelsMeet | apps/api/internal/ai/grammar_visual_render.go:249-266 | two labels that fit their boxes and cover each other |
| TimelineProofs.ManyFutureEventsMeetTheMark | apps/api/internal/ai/grammar_visual_render.go:235-269 | with five or six events after now the last one's text always reaches "Future" |
| TimelineProofs.StaysOnPageIff | apps/api/internal/ai/grammar_visual_render.go:122-271 | a diagram stays on the page exactly when no line of its title is drawn wider than the page and a lone column has no item or note with a line drawn wider than 734 units |
| TimelineProofs.OneEachFits | apps/api/internal/ai/grammar_visual_render.go:249-269 | whatever their texts, at most one event before and one after now always fit |
| LayoutService.Canvas.TextBlock | apps/api/internal/ai/grammar_visual_render.go:325-355 | draws the specified lines and returns the y below them |
| LayoutService.Canvas.PanelBody | apps/api/internal/ai/grammar_visual_render.go:192-221 | drawn or only measured, at any position, the height is the same; measuring draws nothing |
| LayoutService.Canvas.DrawPanels | apps/api/internal/ai/grammar_visual_render.go:159-188 | up to three columns at the height of the tallest |
| LayoutService.Canvas.DrawChips | apps/api/internal/ai/grammar_visual_render.go:274-320 | the rows of chips and the y below them are the specified ones |
| LayoutService.Canvas.DrawTimeline | apps/api/internal/ai/grammar_visual_render.go:224-271 | the axis and the events of each zone, at most six and one of them now, are drawn as specified |
| LayoutService.Canvas.RenderVisual | apps/api/internal/ai/grammar_visual_render.go:122-154 | the canvas holds the diagram of the spec, whose words are those of its fields, and the page ends a margin below it, rounded up |
| Admission.EveryRunIsSound | apps/api/internal/ai/limiter.go:26-64 | for any interleaving, slots in use equal the calls holding one and never exceed the cap, and every call's runs and records are as promised |
| Admission.ReleaseNeverBlocks | apps/api/internal/ai/limiter.go:44-44 | in every reachable state a call that is done can give its slot back |
| Admission.FreeSlotAdmits | apps/api/internal/ai/limiter.go:46-50 | an arriving call runs at once exactly when a slot of its task is free or there is no cap; otherwise it waits if it may and is refused if not |
| Admission.EveryCallPaysItsWay | apps/api/internal/ai/gateway.go:144-203 | a call runs the provider at most twice, the second time only after status 429 or 500 and above with time left, and always then unless its deadline passed in the delay; once closed it has given its slot back once and has one record: succeeded, with the answer's usage and no code, exactly when the last run answered, otherwise with the code of the failure; a refused call has done none of this |
| Admission.CodeTells | apps/api/internal/ai/gateway.go:216-238 | the codes are "rate_limited" exactly for 429, "provider_unavailable" exactly from 500 on, "timeout" exactly for a passed deadline, "unsupported", "busy" and "error" exactly for theirs, and otherwise name the status in digits |
| Admission.EveryStepAdvances | apps/api/internal/ai/gateway.go:144-203 | every step brings a call nearer its end and touches no other call |
| Admission.HolderCanAct | apps/api/internal/ai/gateway.go:150-186 | a call holding a slot always has a step of its own to take |
| Admission.TasksAreIsolated | apps/api/internal/ai/limiter.go:14-35 | after any run a task's pool, calls and records are those of its own events alone |
| GatewayService.Gateway.Acquire | apps/api/internal/ai/limiter.go:39-64 | takes a free slot, or refuses or queues the call, as the machine does |
| GatewayService.Gateway.TakeFreed | apps/api/internal/ai/limiter.go:55-58 | a waiting call takes a freed slot and runs, as the machine does |
| GatewayService.Gateway.Release | apps/api/internal/ai/limiter.go:44-44 | gives the slot back without underflow |
| GatewayService.Gateway.Serve | apps/api/internal/ai/gateway.go:150-203 | runs, retries, records and releases as the machine's events for one call: one record more, which tells how the last run came back, and an outcome that is its answer, not implemented, or unavailable |
| Ledger.RollUpRefinesLedger | apps/api/internal/ai/usage.go:53-97 | in every reachable state, whatever transactions failed, the roll-up is the ledger grouped and summed, as long as no user with calls is deleted |
| Ledger.DeletionAgreesIff | apps/api/migrations/000005_ai.up.sql:5-32 | deleting a user keeps the agreement exactly when the ledger has no call of theirs |
| Ledger.PricesArePerMillion | apps/api/internal/ai/gateway.go:208-214 | whole millions of tokens and whole minutes cost exactly their prices |
| Ledger.CostOfTotal | apps/api/internal/ai/gateway.go:208-214 | pricing the summed usage of calls gives the sum of their prices |
| Ledger.RowsHoldReports | apps/api/internal/ai/usage.go:53-97 | whatever failed and whoever was deleted, a roll-up row exists for exactly the keys with a report recorded since, and holds all their requests, failures, tokens, audio and costs |
| Ledger.LedgerKeepsCalls | apps/api/internal/ai/usage.go:53-97 | the ledger has one row for every call recorded, in order and under different ids, with what was reported; a deletion takes away no more than its user |
| Ledger.StoredCostIsNear | apps/api/internal/ai/usage.go:62-92 | in every reachable state a row's cost and audio are what was reported for its calls, to within half a millionth of a dollar and half a hundredth of a second per call, and for calls priced alike the cost is the price of the row's tokens and the calls' audio |
| Ledger.Recorder.Record | apps/api/internal/ai/usage.go:53-97 | ledger row and roll-up in one transaction: both or neither |
| VocabularyProofs.EveryRunIsOk | apps/api/internal/admin/vocabulary.go:618-750 | for any answers in any order: at most the number asked for, a hundred at most, is added; counts and per-source counts are those of the new rows, each at the place of the minimum or later and of the maximum or earlier among the six levels - or, without a minimum, at none - and none is spelled like another or like a listed entry |
| VocabularyProofs.StoredWordIs | apps/api/internal/admin/vocabulary.go:642-671 | a word known by its spelling is skipped; any other is counted as out of range exactly when its level is outside the plan's; otherwise it is added, or skipped if the library has it, unless the write fails |
| VocabularyProofs.InsideIsNeverDropped | apps/api/internal/admin/vocabulary.go:642-671 | a batch within the plan's levels, or with bounds left empty, loses no word to them |
| VocabularyProofs.UnplacedIsInsideIff | apps/api/internal/admin/vocabulary.go:604-606 | a level that is none of the six is inside a plan exactly when the plan has no minimum |
| VocabularyProofs.PlusPassesMaximum | apps/api/internal/admin/vocabulary.go:752-755 | so every level with a plus passes every maximum |
| Vocabulary.UsableWordsAreGood | apps/api/internal/ai/vocabulary.go:417-483 | whatever the model wrote, a usable batch has trimmed, non-empty terms of the shape of a known part of speech, each explained, none excluded and none twice in any case |
| VocabularyProofs.UsableWordsAre | apps/api/internal/ai/vocabulary.go:417-483 | of a batch exactly the entries are kept, in order, whose term is not blank, of a known part of speech and its shape - one word, or two and more, not counting a "to" in front - explained, not excluded and not a repetition of a kept one in any case; each with its trimmed term, its explanations that are not blank, and its own level if that can be read |
| VocabularyProofs.WrittenAre | apps/api/internal/ai/vocabulary.go:280-310 | a batch is the usable entries of the kind asked for |
| Spelling.OneVariant | apps/api/internal/ai/vocabulary.go:67-84 | a word with one of the eight British spellings once, and no other, has the key of the word with the American one |
| Spelling.OwnKey | apps/api/internal/ai/vocabulary.go:67-84 | a word with none of them is its own key |
| VocabularyProofs.NearestIs | apps/api/internal/ai/vocabulary.go:486-506 | an unreadable level becomes the explained level nearest to B1, of two the lower |
| VocabularyProofs.BatchAccounts | apps/api/internal/admin/vocabulary.go:642-671 | every word looked at is added, skipped or out of range, and all are unless the number asked for, or a hundred, is reached or a write fails, which alone stops a batch early |
| VocabularyProofs.AnswerAccounts | apps/api/internal/admin/vocabulary.go:700-746 | no answer goes unaccounted for: a batch without a usable word fails, as does one that cannot be reviewed; otherwise each word is rejected by the review or added, skipped or out of range, unless the number asked for is reached or a write fails |
| VocabularyProofs.RunGoesOn | apps/api/internal/admin/vocabulary.go:673-746 | from empty counters a run goes on wave by wave until the number asked for, or a hundred, is reached or a write has failed; a wave takes its answers one by one and tells them all what was known when it began |
| VocabularyProofs.ListedAreKnown | apps/api/internal/admin/vocabulary.go:638-641 | every listed entry that is spelled with anything is known by its spelling from the start |
| VocabularyProofs.ReviewedAre | apps/api/internal/admin/vocabulary.go:824-846 | review keeps exactly the entries with a verdict to keep them and the shape of their kind |
| Vocabulary.SettledLevels | apps/api/internal/admin/vocabulary.go:763-817 | the word list's level for the part of speech, or its only one, wins; a level counts as checked exactly when it is not listed and writer and checker agree; otherwise the checker's is kept if it is a level, unverified; the explanation moves along |
| Vocabulary.WaveAsksForShortfall | apps/api/internal/admin/vocabulary.go:684-691 | a wave asks for exactly the shortfall and two more per batch, three to six at a time |
| Vocabulary.TopicsTakeTurns | apps/api/internal/admin/vocabulary.go:692-698 | a plan's topics are taken in turn and the thirty offered ones by steps of seven, none twice before all |
| VocabularyService.KeepUsable | apps/api/internal/ai/vocabulary.go:417-483 | the loop over raw entries with its set of seen terms keeps exactly the usable ones |
| VocabularyService.WriteVocabulary | apps/api/internal/ai/vocabulary.go:280-310 | what the writer hands over is the usable words of the kind asked for |
| VocabularyService.VocabularyRun.Store | apps/api/internal/admin/vocabulary.go:642-671 | the locked loop does to counters, rows and known spellings exactly what the specification says |
| VocabularyService.VocabularyRun.Generate | apps/api/internal/admin/vocabulary.go:673-746 | up to eight waves, ending when the target is reached or a write failed |
| VocabularyService.CheckLevels | apps/api/internal/admin/vocabulary.go:767-817 | the two passes over a batch settle every level as specified |
| EvaluationRuns.EveryRunStoresOnce | apps/api/internal/assessment/evaluation.go:62-106 | for any failures over any attempts: completed submissions and analyses correspond one to one, each analysis' mistakes are stored once, and a completed section's score is that of its stored analyses |
| EvaluationRuns.AtMostOneAnalysis | apps/api/internal/assessment/evaluation.go:180-191 | no submission ever has two analyses |
| EvaluationRuns.CompletedIsFinal | apps/api/internal/assessment/evaluation.go:74-77 | a completed section is never scored, stored to or paid for again |
| EvaluationRuns.EveryRunStoresWhatCame | apps/api/internal/assessment/evaluation.go:169-283 | in every reachable state the mistakes under an analysis are those of its evaluation, in order; answers of ten words or more, and no others, are evaluated; a completed section counts an item as missing without a word, low without an evaluation, and otherwise with the four scores and the estimate of the stored one |
| EvaluationRuns.StatusIs | apps/api/internal/assessment/evaluation.go:43-106 | an attempt completes a section exactly when it loads, is not waiting, every item is missing, done or now marked, evaluated and stored, and the result is saved; only a section still being evaluated fails after the last attempt |
| EvaluationRuns.NeverPaysTwiceIff | apps/api/internal/assessment/evaluation.go:222-246 | of the replies that may occur: no run over them pays for a submission twice exactly when they hold neither a billed answer that cannot be read nor a save rolled back after an answer |
| EvaluationRuns.CostlyPaysTwice | apps/api/internal/ai/assessment.go:144-151 | either of these replies, met in two attempts, pays twice for one submission |
| EvaluationService.Section.EvaluateWriting | apps/api/internal/assessment/evaluation.go:169-207 | the loop over responses does what the specification says, stopping at the first failure |
| EvaluationService.Section.SaveAnalysis | apps/api/internal/assessment/evaluation.go:251-283 | analysis, submission and mistakes are stored all together or not at all |
| EvaluationService.Section.HandleEvaluationJob | apps/api/internal/assessment/evaluation.go:43-60 | one attempt; only a section still being evaluated is marked failed after the last |
| EvaluationService.SpeechSecondsIs | apps/api/internal/assessment/evaluation.go:431-437 | the segments lengthen the measured time only below one second, and then to one second at most |
| EvaluationService.PauseRatio | apps/api/internal/assessment/evaluation.go:443-453 | the share of pauses over 0.7 s, between 0 and 1 |
| ContentHistory.StepAgreesIff | apps/api/internal/admin/content.go:131-152 | a step keeps the item equal to its current snapshot and the versions 1 to current exactly when it is neither half done nor an edit its normal form hides |
| ContentHistory.CreatedIs | apps/api/internal/admin/content.go:98-152 | a new item is a draft at version 1 with what was given, and difficulty 5 and no tags where nothing was; its first snapshot says so |
| ContentHistory.EditedIs | apps/api/internal/admin/content.go:174-283 | an edit sets exactly the fields it names; a new version with one snapshot that says it comes exactly of a different title, difficulty, tags or normal form of the body |
| ContentHistory.MovedIs | apps/api/internal/admin/content.go:297-351 | a status change is refused exactly for publishing a dead end; otherwise it sets the status of the item and of its version's snapshot and nothing else |
| ContentHistory.UnnoticedEdit | apps/api/internal/admin/content.go:262-283 | an edit of the body into another with the same normal form leaves the item and its current snapshot apart |
| ContentHistory.StepAgreesUpTo | apps/api/internal/admin/content.go:197-234 | up to the bodies' normal form the agreement is lost only by a half-done step |
| ContentHistory.EveryRunAgrees | apps/api/internal/admin/content.go:197-234 | over any run without half-done steps the history agrees with the item |
| ContentHistory.FaithfulFormsAgree | apps/api/internal/admin/content.go:271-283 | when different bodies have different normal forms the agreement is exact |
| ContentHistory.OldTextNeverChanges | apps/api/internal/admin/content.go:335-351 | whatever the step and wherever it breaks, no snapshot's text changes and only the current one's status can |
| ContentHistory.RestoreAppends | apps/api/internal/admin/content.go:499-540 | restoring the current version conflicts, a missing one is not found, any other is appended as a new version with its text |
| ContentHistory.RestoreIsUndone | apps/api/internal/admin/content.go:494-540 | restoring what was current before a restore brings its text back, two versions later |
| StatusRaces.EveryRaceAgreesIff | apps/api/internal/admin/content.go:335-351 | statements of status changes, edits and restores in any order: item and history agree whatever statuses were asked for exactly when the change that wrote the item last is the one its current version's status comes from |
| StatusRaces.RaceAgreesIff | apps/api/internal/admin/content.go:335-351 | for given statuses: exactly when the two last writers asked for the same one |
| StatusRaces.TurnsAgree | apps/api/internal/admin/content.go:335-351 | changes that take turns always agree, with any edits and restores in between |
| StatusRaces.CrossedChanges | apps/api/internal/admin/content.go:335-351 | a change begun last and ended first leaves its status on the item and the other's on its current version |
| StatusRaces.AloneIsAStep | apps/api/internal/admin/content.go:335-351 | a change that is not interrupted is a step of the history, and one that never ends is that step broken between its statements |
| StatusRaces.CreationAgreesIff | apps/api/internal/admin/content.go:131-152 | a creation that others interleave with leaves item and history in agreement exactly when the item was still at version 1 at its second statement and the two last writers of a status asked for the same one |
| StatusRaces.RevisedTooSoon | apps/api/internal/admin/content.go:131-152 | after an edit of the title between the two statements version 2 is the only one ever logged |
| StatusRaces.CreationAloneIsAStep | apps/api/internal/admin/content.go:131-152 | a creation that is not interrupted is a step of the history |
| ContentService.ContentStore.CreateContent | apps/api/internal/admin/content.go:131-152 | two statements, with every point between them; other items are untouched |
| ContentService.ContentStore.UpdateContent | apps/api/internal/admin/content.go:197-234 | one transaction, a new version only for what a learner would notice; other items are untouched |
| ContentService.ContentStore.SetContentStatus | apps/api/internal/admin/content.go:320-351 | the item's status and its current snapshot's among the versions of all items, in two statements |
| ContentService.ContentStore.RestoreContentVersion | apps/api/internal/admin/content.go:512-540 | one transaction that appends; other items are untouched |
| Uzbek.NormalizeIsIdempotent | apps/api/internal/ai/uzbek_proofread.go:44-59 | normalising twice is normalising once: the Latin majority can only grow |
| Uzbek.NormalizedHolds | apps/api/internal/ai/uzbek_proofread.go:29-59 | a normalised text is the trimmed one with each of six marks as the plain apostrophe and, exactly when it has more ASCII letters than others, each lookalike as its Latin letter |
| Uzbek.Pairs | apps/api/internal/ai/uzbek_proofread.go:34-42 | which of the 23 lookalikes is taken for which letter |
| Uzbek.CorrectedIsSafe | apps/api/internal/ai/uzbek_proofread.go:124-155 | a text becomes the normalised correction exactly when that is not empty, has no other letters, as many words and a length within a quarter and three; otherwise its own normal form |
| Uzbek.CorrectionsAre | apps/api/internal/ai/uzbek_proofread.go:124-144 | proofreading returns, under each key, the corrected form of its last text by its last answer exactly when that is another text, and nothing else |
| Uzbek.ProofreadUzbek | apps/api/internal/ai/uzbek_proofread.go:124-144 | the loops return exactly the texts that changed, by key |
| Uzbek.NormalizeUzbek | apps/api/internal/ai/uzbek_proofread.go:44-59 | the counting loop and the replacement compute the normal form |

## Left out

- setGrammarStatus (apps/api/internal/admin/grammar.go) is modelled on its own, in TopicStatus, and is not a step of the builder's runs, since it keeps neither their order nor their live levels; updateGrammarTopic and the seeds are left out.
- wipeGrammarContent and the other deletions of apps/api/internal/admin/grammar_delete.go: they delete by design, so "never dark" is about runs without them.
- translateAll, writeTests and writeTasks (apps/api/internal/admin/grammar_generate_job.go): what they hand over is a parameter of the steps that store it.
- levelMatrix and the views that only count or list rows.
- BuilderRuns.EveryRunIsSound: takes generated tests to be ones the practice writer returns, and an edit's status to be one the form offers; two handlers never interleave except in PublishRaces.
- Practice.UsablePractice: normalises letters of the English alphabet only, where the source lower-cases all of Unicode.
- SelectionService.FillSection: which level a code stands for and the "+" of a level are left out, since a form depends on the base level alone.
- SelectionProofs.SlackSuffices: about banks whose levels are on the scale, as the level table's ranks are.
- LayoutProofs.NothingOverlaps: drawn widths are those of the source's own estimate, not of a font. Bullets, axis lines and column backgrounds may lie behind text.
- RenderVisual's colours, corner radii, escaping and SVG text.
- Admission.FreeSlotAdmits: a freed slot may also go to a newcomer before a waiting call, where Go's channel hands it over directly; the model allows both.
- route and the choice of model; logging; the job queue's transport; audit rows; HTTP binding and authorization.
- Ledger.RollUpRefinesLedger: columns' overflow is one of the ways a transaction may fail; metadata, latency and request ids are not modelled.
- VocabularyProofs.EveryRunIsOk: the library is changed by this run alone while it lasts; translations, examples and proofreading of an entry are not modelled.
- EvaluationRuns.EveryRunStoresOnce: writing sections, one worker at a time; the scoring is a function of the scored tasks, which stand for it. After a retry a spoken answer's length is the recorded one, so nothing of the kind is claimed for speaking.
- ContentHistory.EveryRunAgrees: the seed commands that rewrite bodies are not steps.
- Uzbek.NormalizeIsIdempotent: which characters outside ASCII are letters is a parameter.
- The map iteration order of Go, where nothing depends on it.
