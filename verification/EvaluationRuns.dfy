/** EvaluationRuns: whatever fails and however often the job is tried again, each submission is
    evaluated into at most one stored analysis, and the score is that of the stored analyses.

    About apps/api/internal/assessment/evaluation.go. */
module EvaluationRuns {
  import opened Options
  import opened Evaluation

  function AllMistakes(analyses: seq<Analysis>): seq<Mistake> {
    if analyses == [] then []
    else var n := |analyses| - 1; AllMistakes(analyses[..n]) + MistakesOf(analyses[n].item, n, analyses[n].result)
  }

  function Times(s: seq<nat>, i: nat): nat {
    if s == [] then 0 else Times(s[..|s| - 1], i) + if s[|s| - 1] == i then 1 else 0
  }

  // The result of an item's stored analysis, if it has one.
  function StoredResult(s: State, i: nat): Option<Assessment> {
    if i < |s.submissions| && s.submissions[i].Done? && s.submissions[i].analysis < |s.analyses|
    then s.analyses[s.submissions[i].analysis].result else None
  }

  /** What scoring the stored analyses alone would score. */
  function StoredTasks(s: State, items: seq<Item>, n: nat, levels: set<string>): seq<Task>
    requires n <= |items|
  {
    if n == 0 then [] else StoredTasks(s, items, n - 1, levels) + [TaskOf(items[n - 1], StoredResult(s, n - 1), levels)]
  }

  predicate Answered(item: Item) { item.words.GetOr(0) > 0 }

  predicate AllDone(s: State, items: seq<Item>, n: nat)
    requires n <= |items| == |s.submissions|
  {
    forall i | 0 <= i < n && Answered(items[i]) :: s.submissions[i].Done?
  }

  /** Completed submissions and analyses correspond one to one. */
  predicate OneEach(s: State, items: seq<Item>) {
    && Ok(s, items)
    && (forall i | 0 <= i < |items| && s.submissions[i].Done? ::
       Answered(items[i]) && s.analyses[s.submissions[i].analysis].item == i)
    && (forall a | 0 <= a < |s.analyses| ::
       s.analyses[a].item < |items| && s.submissions[s.analyses[a].item] == Done(a))
  }

  /** Every answer paid for is stored or was wasted. */
  predicate PaidFor(s: State, i: nat) {
    Times(s.paid, i) == Times(s.wasted, i) + if StoredResult(s, i).Some? then 1 else 0
  }

  ghost predicate Stored(s: State, items: seq<Item>) {
    && OneEach(s, items)
    && s.mistakes == AllMistakes(s.analyses)
    && forall i :: PaidFor(s, i)
  }

  predicate ScoredFromStored(s: State, items: seq<Item>, levels: set<string>)
    requires Ok(s, items)
  {
    && (s.status == Completed <==> s.result.Some?)
    && (s.status == Completed ==>
          AllDone(s, items, |items|) && s.result.value == StoredTasks(s, items, |items|, levels))
  }

  // What later work cannot undo.
  predicate Grown(s: State, s': State) {
    && |s'.submissions| == |s.submissions|
    && s.analyses <= s'.analyses
    && forall i | 0 <= i < |s.submissions| && s.submissions[i].Done? :: s'.submissions[i] == s.submissions[i]
  }

  lemma OneMoreAnalysis(analyses: seq<Analysis>, a: Analysis)
    ensures AllMistakes(analyses + [a]) == AllMistakes(analyses) + MistakesOf(a.item, |analyses|, a.result)
  {
    assert (analyses + [a])[..|analyses|] == analyses;
  }

  lemma OneMoreTime(s: seq<nat>, x: nat, i: nat)
    ensures Times(s + [x], i) == Times(s, i) + if x == i then 1 else 0
  {
    assert (s + [x])[..|s|] == s;
  }

  lemma SaveKeeps(s: State, items: seq<Item>, i: nat, result: Option<Assessment>)
    requires OneEach(s, items) && s.mistakes == AllMistakes(s.analyses)
    requires i < |items| && !s.submissions[i].Done? && Answered(items[i])
    ensures var s' := Saved(s, i, result);
            && OneEach(s', items) && s'.mistakes == AllMistakes(s'.analyses) && Grown(s, s')
            && StoredResult(s', i) == result
            && (forall j | j != i :: StoredResult(s', j) == StoredResult(s, j))
  {
    hide AllMistakes, MistakesOf, Answered;
    OneMoreAnalysis(s.analyses, Analysis(i, result));
  }

  lemma ItemKeeps(s: State, items: seq<Item>, i: nat, r: Reply, levels: set<string>)
    requires Stored(s, items) && i < |items|
    ensures var (s', task) := EvaluateItem(s, items, i, r, levels);
            && Stored(s', items) && Grown(s, s')
            && (task.Some? ==>
                  && task.value == TaskOf(items[i], StoredResult(s', i), levels)
                  && (Answered(items[i]) ==> s'.submissions[i].Done?))
  {
    hide AllMistakes, MistakesOf, TaskOf, Times;
    if Answered(items[i]) && !s.submissions[i].Done? {
      ItemIsEvaluated(s, items, i, r, levels);
    } else {
      NotAnswered(items, i, levels);
    }
  }

  lemma NotAnswered(items: seq<Item>, i: nat, levels: set<string>)
    requires i < |items|
    ensures !Answered(items[i]) ==> forall r :: TaskOf(items[i], r, levels) == TaskOf(items[i], None, levels)
  {
  }

  function Paid(s: State, i: nat, long: bool): State { if long then s.(paid := s.paid + [i]) else s }

  function Wasted(s: State, i: nat, long: bool): State { if long then s.(wasted := s.wasted + [i]) else s }

  lemma PaidAndSaved(s: State, items: seq<Item>, i: nat, long: bool, result: Option<Assessment>)
    requires Stored(s, items) && i < |items| && Answered(items[i]) && !s.submissions[i].Done?
             && (result.Some? <==> long)
    ensures var s' := Saved(Paid(s, i, long), i, result);
            Stored(s', items) && Grown(s, s') && StoredResult(s', i) == result
  {
    hide AllMistakes, MistakesOf, Times;
    var p := Paid(s, i, long);
    SaveKeeps(p, items, i, result);
    var s' := Saved(p, i, result);
    assert forall j :: StoredResult(p, j) == StoredResult(s, j);
    forall j ensures PaidFor(s', j) {
      OneMoreTime(s.paid, i, j);
      assert PaidFor(s, j);
    }
  }

  lemma PaidAndWasted(s: State, items: seq<Item>, i: nat, long: bool)
    requires Stored(s, items) && i < |items|
    ensures var s' := Wasted(Paid(s, i, long), i, long); Stored(s', items) && Grown(s, s')
  {
    hide AllMistakes, Times;
    var s' := Wasted(Paid(s, i, long), i, long);
    assert forall j :: StoredResult(s', j) == StoredResult(s, j);
    forall j ensures PaidFor(s', j) {
      OneMoreTime(s.paid, i, j);
      OneMoreTime(s.wasted, i, j);
      assert PaidFor(s, j);
    }
  }

  function Marked(s: State, i: nat, long: bool): State
    requires i < |s.submissions|
  {
    if long then s.(submissions := s.submissions[i := Analyzing]) else s
  }

  // What happens to an item that is not done, step by step.
  lemma OpenItem(s: State, items: seq<Item>, i: nat, r: Reply, levels: set<string>)
    requires Ok(s, items) && i < |items| && Answered(items[i]) && !s.submissions[i].Done?
    ensures var long := items[i].words.value >= TOO_SHORT;
            var m, result := Marked(s, i, long), if long && r.evaluation.Valid? then Some(r.evaluation.assessment)
                else None;
            EvaluateItem(s, items, i, r, levels)
            == if long && r.markFails then (s, None)
               else if long && r.evaluation.NoAnswer? then (m, None)
               else if (long && r.evaluation.Invalid?) || r.save == RolledBack
                 then (Wasted(Paid(m, i, long), i, long), None)
               else (Saved(Paid(m, i, long), i, result),
                     if r.save == Committed then Some(TaskOf(items[i], result, levels)) else None)
  {
    hide TaskOf, MistakesOf;
  }

  lemma ItemIsEvaluated(s: State, items: seq<Item>, i: nat, r: Reply, levels: set<string>)
    requires Stored(s, items) && i < |items| && Answered(items[i]) && !s.submissions[i].Done?
    ensures var (s', task) := EvaluateItem(s, items, i, r, levels);
            && Stored(s', items) && Grown(s, s')
            && (task.Some? ==> task.value == TaskOf(items[i], StoredResult(s', i), levels) && s'.submissions[i].Done?)
  {
    StoredOneEach(s, items);
    OpenItem(s, items, i, r, levels);
    hide AllMistakes, MistakesOf, TaskOf, Times, Stored, StoredResult, EvaluateItem, Grown, Paid, Wasted;
    var long := items[i].words.value >= TOO_SHORT;
    var m := Marked(s, i, long);
    SameStored(s, s, items, i);
    SameStored(s, m, items, i);
    if long && (r.markFails || r.evaluation.NoAnswer?) {
    } else if (long && r.evaluation.Invalid?) || r.save == RolledBack {
      PaidAndWasted(m, items, i, long);
      GrownTwice(s, m, Wasted(Paid(m, i, long), i, long));
    } else {
      var result := if long then Some(r.evaluation.assessment) else None;
      PaidAndSaved(m, items, i, long, result);
      GrownTwice(s, m, Saved(Paid(m, i, long), i, result));
      SavedIsDone(Paid(m, i, long), i, result);
    }
  }

  lemma SavedIsDone(s: State, i: nat, result: Option<Assessment>)
    requires i < |s.submissions|
    ensures |Saved(s, i, result).submissions| == |s.submissions| && Saved(s, i, result).submissions[i].Done?
  {
    hide MistakesOf;
  }

  lemma GrownTwice(a: State, b: State, c: State)
    requires Grown(a, b) && Grown(b, c)
    ensures Grown(a, c)
  {
  }

  // Marking a submission as being analyzed stores nothing.
  lemma SameStored(s: State, marked: State, items: seq<Item>, i: nat)
    requires Stored(s, items) && i < |items| && !s.submissions[i].Done?
    requires marked == s || marked == s.(submissions := s.submissions[i := Analyzing])
    ensures Stored(marked, items) && Grown(s, marked)
    ensures forall j :: StoredResult(marked, j) == StoredResult(s, j)
  {
    hide AllMistakes, Times, Answered;
    assert forall j :: StoredResult(marked, j) == StoredResult(s, j);
    assert forall j :: PaidFor(s, j) ==> PaidFor(marked, j);
  }

  lemma {:induction false} StoredTasksStay(s: State, s': State, items: seq<Item>, n: nat, levels: set<string>)
    requires n <= |items| && OneEach(s, items) && AllDone(s, items, n) && Grown(s, s')
    ensures StoredTasks(s', items, n, levels) == StoredTasks(s, items, n, levels)
  {
    hide TaskOf;
    if n > 0 {
      StoredTasksStay(s, s', items, n - 1, levels);
      NotAnswered(items, n - 1, levels);
    }
  }

  lemma OneMoreItem(before: State, items: seq<Item>, n: nat, tasks: seq<Task>, r: Reply, levels: set<string>)
    requires Stored(before, items) && n < |items|
    requires AllDone(before, items, n) && tasks == StoredTasks(before, items, n, levels)
    ensures var (after, task) := EvaluateItem(before, items, n, r, levels);
            && Stored(after, items)
            && (task.Some? ==>
                  AllDone(after, items, n + 1) && tasks + [task.value] == StoredTasks(after, items, n + 1, levels))
  {
    StoredOneEach(before, items);
    ItemKeeps(before, items, n, r, levels);
    var (after, _) := EvaluateItem(before, items, n, r, levels);
    StoredOneEach(after, items);
    StoredTasksStay(before, after, items, n, levels);
    hide EvaluateItem, TaskOf, Stored, Answered, OneEach, Ok;
  }

  lemma ItemsStep(s: State, items: seq<Item>, n: nat, replies: seq<Reply>, levels: set<string>)
    requires Ok(s, items) && n < |items| == |replies|
    ensures var (before, tasks) := EvaluateItems(s, items, n, replies, levels);
            && |before.submissions| == |items|
            && EvaluateItems(s, items, n + 1, replies, levels)
               == if tasks.None? then (before, None)
                  else
                    var (after, task) := EvaluateItem(before, items, n, replies[n], levels);
                    (after, if task.None? then None else Some(tasks.value + [task.value]))
  {
    hide EvaluateItem;
  }

  /** What an attempt stores item by item: the predicates of a run, after the first n items. */
  ghost predicate ItemsOk(r: (State, Option<seq<Task>>), items: seq<Item>, n: nat, levels: set<string>)
    requires n <= |items| == |r.0.submissions|
  {
    && Stored(r.0, items)
    && (r.1.Some? ==> AllDone(r.0, items, n) && r.1.value == StoredTasks(r.0, items, n, levels))
  }

  lemma NoItemsOk(s: State, items: seq<Item>, replies: seq<Reply>, levels: set<string>)
    requires Stored(s, items) && |items| == |replies|
    ensures Ok(s, items)
    ensures EvaluateItems(s, items, 0, replies, levels) == (s, Some([]))
    ensures ItemsOk((s, Some([])), items, 0, levels)
  {
  }

  lemma NextItemOk(before: State, tasks: Option<seq<Task>>, items: seq<Item>, n: nat, r: Reply, levels: set<string>)
    requires n < |items| == |before.submissions| && Ok(before, items) && ItemsOk((before, tasks), items, n, levels)
    ensures var (after, task) := EvaluateItem(before, items, n, r, levels);
            && |after.submissions| == |items|
            && (tasks.Some? ==>
                  ItemsOk((after, if task.None? then None else Some(tasks.value + [task.value])), items, n + 1, levels))
            && (tasks.None? ==> ItemsOk((before, None), items, n + 1, levels))
  {
    if tasks.Some? { OneMoreItem(before, items, n, tasks.value, r, levels); }
    hide EvaluateItem, Stored, AllDone, StoredTasks;
  }

  lemma {:induction false} ItemsKeep(s: State, items: seq<Item>, n: nat, replies: seq<Reply>, levels: set<string>)
    requires Stored(s, items) && n <= |items| == |replies|
    ensures Ok(s, items) && |EvaluateItems(s, items, n, replies, levels).0.submissions| == |items|
    ensures ItemsOk(EvaluateItems(s, items, n, replies, levels), items, n, levels)
  {
    hide *;
    NoItemsOk(s, items, replies, levels);
    if n > 0 {
      ItemsKeep(s, items, n - 1, replies, levels);
      ItemsStep(s, items, n - 1, replies, levels);
      var (before, tasks) := EvaluateItems(s, items, n - 1, replies, levels);
      NextItemOk(before, tasks, items, n - 1, replies[n - 1], levels);
    }
  }

  lemma StoredOneEach(s: State, items: seq<Item>)
    requires Stored(s, items)
    ensures OneEach(s, items) && Ok(s, items)
  {
  }

  // Status and result say nothing about what is stored.
  lemma StatusDoesNotMatter(s: State, s': State, items: seq<Item>)
    requires Stored(s, items) && s' == s.(status := s'.status, result := s'.result)
    ensures Stored(s', items)
    ensures forall n: nat, levels | n <= |items| ::
            StoredTasks(s', items, n, levels) == StoredTasks(s, items, n, levels)
  {
    hide AllMistakes, Times, TaskOf;
    forall i ensures PaidFor(s', i) { assert PaidFor(s, i); }
    forall n: nat, levels | n <= |items| ensures StoredTasks(s', items, n, levels) == StoredTasks(s, items, n, levels) {
      SameTasks(s, s', items, n, levels);
    }
  }

  lemma {:induction false} SameTasks(s: State, s': State, items: seq<Item>, n: nat, levels: set<string>)
    requires s'.submissions == s.submissions && s'.analyses == s.analyses && n <= |items|
    ensures StoredTasks(s', items, n, levels) == StoredTasks(s, items, n, levels)
  {
    hide TaskOf;
    if n > 0 { SameTasks(s, s', items, n - 1, levels); }
  }

  /** A completed section is never touched again: not its score, its analyses or its mistakes, and
      nothing more is paid. */
  lemma CompletedIsFinal(s: State, items: seq<Item>, step: Step, levels: set<string>)
    requires Ok(s, items) && (step.Work? ==> |step.attempt.replies| == |items|)
    requires s.status == Completed
    ensures Apply(s, items, step, levels) == s
  {
  }

  lemma SectionKeeps(s: State, items: seq<Item>, a: Attempt, levels: set<string>)
    requires Stored(s, items) && ScoredFromStored(s, items, levels) && |a.replies| == |items|
    ensures var s' := EvaluateSection(s, items, a, levels).0; Stored(s', items) && ScoredFromStored(s', items, levels)
  {
    StoredOneEach(s, items);
    hide EvaluateItems, Stored, StoredTasks, TaskOf, OneEach;
    if !a.loadFails && s.status != Completed && s.status != Waiting {
      ItemsKeep(s, items, |items|, a.replies, levels);
      var (after, tasks) := EvaluateItems(s, items, |items|, a.replies, levels);
      if tasks.Some? { StatusDoesNotMatter(after, Complete(after, tasks.value), items); }
    }
  }

  lemma StepKeeps(s: State, items: seq<Item>, step: Step, levels: set<string>)
    requires Stored(s, items) && ScoredFromStored(s, items, levels)
    requires step.Work? ==> |step.attempt.replies| == |items|
    ensures var s' := Apply(s, items, step, levels); Stored(s', items) && ScoredFromStored(s', items, levels)
  {
    StoredOneEach(s, items);
    hide EvaluateSection, Stored, StoredTasks;
    if step.Work? {
      SectionKeeps(s, items, step.attempt, levels);
      var after := EvaluateSection(s, items, step.attempt, levels).0;
      StatusDoesNotMatter(after, MarkFailed(after), items);
    } else {
      StatusDoesNotMatter(s, Apply(s, items, step, levels), items);
    }
  }

  // ---- what is stored, field by field ----------------------------------------------------

  /** What an item counts for, given its stored evaluation: missing without a word; with a low score, without an
      evaluation; otherwise with the four scores of the evaluation, and its estimate if that is a level. */
  predicate TaskIs(t: Task, item: Item, stored: Option<Assessment>, levels: set<string>) {
    && t.band == item.band && t.level == item.level && t.minWords == item.minWords
    && (t.Missing? <==> item.words == None || item.words == Some(0))
    && (t.Scored? ==>
          && item.words == Some(t.words)
          && (stored.None? ==>
                && t.criteria.taskResponse == t.criteria.grammar == t.criteria.vocabulary == t.criteria.coherence == 5.0
                && t.estimate == None)
          && (stored.Some? ==>
                && t.criteria.taskResponse == stored.value.taskResponse && t.criteria.grammar == stored.value.grammar
                && t.criteria.vocabulary == stored.value.vocabulary && t.criteria.coherence == stored.value.coherence
                && (stored.value.estimate in levels
                   ==> t.estimate == Some((stored.value.estimate, stored.value.confidence)))
                && (stored.value.estimate !in levels ==> t.estimate == None)))
  }

  lemma {:induction false} StoredTasksAre(s: State, items: seq<Item>, n: nat, levels: set<string>)
    requires n <= |items|
    ensures var tasks := StoredTasks(s, items, n, levels);
            |tasks| == n && forall i | 0 <= i < n :: TaskIs(tasks[i], items[i], StoredResult(s, i), levels)
  {
    if n > 0 {
      StoredTasksAre(s, items, n - 1, levels);
      assert TaskIs(TaskOf(items[n - 1], StoredResult(s, n - 1), levels), items[n - 1], StoredResult(s, n - 1), levels);
      hide TaskIs, TaskOf, StoredResult;
    }
  }

  function TextsUnder(mistakes: seq<Mistake>, analysis: nat): seq<string> {
    if mistakes == [] then []
    else
      var n := |mistakes| - 1;
      TextsUnder(mistakes[..n], analysis) + if mistakes[n].analysis == analysis then [mistakes[n].text] else []
  }

  function TextsIn(result: Option<Assessment>): seq<string> {
    if result.None? then [] else result.value.mistakes
  }

  /** The mistakes stored under an analysis are those of its evaluation, in order, under the analysis' item;
      and there are no others. */
  predicate MistakesAre(mistakes: seq<Mistake>, analyses: seq<Analysis>) {
    && (forall a | 0 <= a < |analyses| :: TextsUnder(mistakes, a) == TextsIn(analyses[a].result))
    && (forall m | m in mistakes :: Owned(m, analyses))
  }

  predicate Owned(m: Mistake, analyses: seq<Analysis>) {
    m.analysis < |analyses| && m.item == analyses[m.analysis].item
  }

  lemma {:induction false} TextsJoined(a: seq<Mistake>, b: seq<Mistake>, analysis: nat)
    ensures TextsUnder(a + b, analysis) == TextsUnder(a, analysis) + TextsUnder(b, analysis)
  {
    if b == [] {
      assert a + b == a;
    } else {
      var n := |b| - 1;
      TextsJoined(a, b[..n], analysis);
      assert (a + b)[..|a| + n] == a + b[..n];
    }
  }

  lemma {:induction false} TextsOfOne(mistakes: seq<Mistake>, texts: seq<string>, item: nat, id: nat, analysis: nat)
    requires |mistakes| == |texts|
    requires forall i | 0 <= i < |texts| :: mistakes[i] == Mistake(item, id, texts[i])
    ensures TextsUnder(mistakes, analysis) == if analysis == id then texts else []
  {
    if texts == [] {
      assert mistakes == [];
    } else {
      var n := |texts| - 1;
      TextsOfOne(mistakes[..n], texts[..n], item, id, analysis);
      assert texts[..n] + [texts[n]] == texts;
      assert mistakes[n] == Mistake(item, id, texts[n]);
    }
  }

  // The mistakes after one more analysis.
  lemma OneMoreTexts(before: seq<Mistake>, a: Analysis, n: nat, k: nat)
    ensures TextsUnder(before + MistakesOf(a.item, n, a.result), k)
            == TextsUnder(before, k) + if k == n then TextsIn(a.result) else []
  {
    hide TextsUnder;
    TextsJoined(before, MistakesOf(a.item, n, a.result), k);
    TextsOfOne(MistakesOf(a.item, n, a.result), TextsIn(a.result), a.item, n, k);
  }

  lemma {:induction false} TextsOfAll(analyses: seq<Analysis>, k: nat)
    ensures TextsUnder(AllMistakes(analyses), k) == if k < |analyses| then TextsIn(analyses[k].result) else []
  {
    if analyses != [] {
      var n := |analyses| - 1;
      TextsOfAll(analyses[..n], k);
      OneMoreTexts(AllMistakes(analyses[..n]), analyses[n], n, k);
      hide TextsUnder, TextsIn, MistakesOf;
    }
  }

  lemma {:induction false} AllAreOwned(analyses: seq<Analysis>)
    ensures forall m | m in AllMistakes(analyses) :: Owned(m, analyses)
  {
    if analyses != [] {
      var n := |analyses| - 1;
      AllAreOwned(analyses[..n]);
      assert forall m | m in MistakesOf(analyses[n].item, n, analyses[n].result) :: Owned(m, analyses);
      hide MistakesOf;
      forall m | m in AllMistakes(analyses[..n]) ensures Owned(m, analyses) { assert Owned(m, analyses[..n]); }
    }
  }

  lemma MistakesOfAll(analyses: seq<Analysis>)
    ensures MistakesAre(AllMistakes(analyses), analyses)
  {
    AllAreOwned(analyses);
    forall k: nat
      ensures TextsUnder(AllMistakes(analyses), k) == if k < |analyses| then TextsIn(analyses[k].result) else []
    {
      TextsOfAll(analyses, k);
    }
  }
 /** What is evaluated: every stored analysis of ten words or more has an evaluation, and no shorter one has. */
  predicate LongOnes(s: State, items: seq<Item>)
    requires Ok(s, items)
  {
    forall i | 0 <= i < |items| && s.submissions[i].Done? :: StoredResult(s, i).Some? <==> items[i].words.GetOr(0) >= 10
  }

  lemma ItemKeepsLong(s: State, items: seq<Item>, i: nat, r: Reply, levels: set<string>)
    requires Ok(s, items) && i < |items| && LongOnes(s, items)
    ensures Ok(EvaluateItem(s, items, i, r, levels).0, items) && LongOnes(EvaluateItem(s, items, i, r, levels).0, items)
  {
    hide TaskOf, MistakesOf;
  }

  lemma NoItemsLong(s: State, items: seq<Item>, replies: seq<Reply>, levels: set<string>)
    requires Ok(s, items) && |items| == |replies|
    ensures EvaluateItems(s, items, 0, replies, levels) == (s, Some([]))
  {
  }

  lemma {:induction false} ItemsKeepLong(s: State, items: seq<Item>, n: nat, replies: seq<Reply>, levels: set<string>)
    requires Ok(s, items) && n <= |items| == |replies| && LongOnes(s, items)
    ensures LongOnes(EvaluateItems(s, items, n, replies, levels).0, items)
  {
    hide EvaluateItems, EvaluateItem, LongOnes;
    if n == 0 {
      NoItemsLong(s, items, replies, levels);
    } else {
      ItemsKeepLong(s, items, n - 1, replies, levels);
      ItemsStep(s, items, n - 1, replies, levels);
      var (before, tasks) := EvaluateItems(s, items, n - 1, replies, levels);
      ItemKeepsLong(before, items, n - 1, replies[n - 1], levels);
    }
  }

  lemma StepKeepsLong(s: State, items: seq<Item>, step: Step, levels: set<string>)
    requires Ok(s, items) && (step.Work? ==> |step.attempt.replies| == |items|) && LongOnes(s, items)
    ensures LongOnes(Apply(s, items, step, levels), items)
  {
    hide EvaluateItems, LongOnes;
    if step.Work? {
      ItemsKeepLong(s, items, |items|, step.attempt.replies, levels);
      SameLongOnes(EvaluateItems(s, items, |items|, step.attempt.replies, levels).0, Apply(s, items, step, levels),
          items);
    }
    SameLongOnes(s, Apply(s, items, step, levels), items);
  }

  lemma SameLongOnes(s: State, s': State, items: seq<Item>)
    requires Ok(s, items) && Ok(s', items)
    ensures s.submissions == s'.submissions && s.analyses == s'.analyses
            ==> (LongOnes(s, items) <==> LongOnes(s', items))
  {
  }

  lemma {:induction false} RunKeepsLong(items: seq<Item>, steps: seq<Step>, levels: set<string>)
    requires StepsFit(items, steps)
    ensures LongOnes(Run(items, steps, levels), items)
  {
    if steps != [] {
      hide Apply, LongOnes;
      var n := |steps| - 1;
      assert steps[n] in steps && forall x | x in steps[..n] :: x in steps;
      RunKeepsLong(items, steps[..n], levels);
      StepKeepsLong(Run(items, steps[..n], levels), items, steps[n], levels);
    }
  }

  /** In every reachable state the mistakes are those of the stored evaluations, answers of ten words or more
      and no others are evaluated, and a completed section counts each item for what is stored of it. */
  lemma EveryRunStoresWhatCame(items: seq<Item>, steps: seq<Step>, levels: set<string>)
    requires StepsFit(items, steps)
    ensures var s := Run(items, steps, levels);
            && MistakesAre(s.mistakes, s.analyses) && LongOnes(s, items)
            && (s.status == Completed ==>
                  && s.result.Some? && |s.result.value| == |items|
                  && forall i | 0 <= i < |items| :: TaskIs(s.result.value[i], items[i], StoredResult(s, i), levels))
  {
    var s := Run(items, steps, levels);
    EveryRunStoresOnce(items, steps, levels);
    RunKeepsLong(items, steps, levels);
    MistakesOfAll(s.analyses);
    StoredTasksAre(s, items, |items|, levels);
    hide TaskIs, MistakesAre, LongOnes, StoredTasks, AllMistakes, Run;
  }

  // ---- when an attempt completes a section -----------------------------------------------

  /** An item gets through an attempt: nothing was written, it is done already, or it is stored now - and, with ten
      words or more, was marked and evaluated before. */
  predicate GetsThrough(s: State, items: seq<Item>, i: nat, r: Reply)
    requires i < |items| == |s.submissions|
  {
    || items[i].words == None || items[i].words == Some(0)
    || s.submissions[i].Done?
    || (r.save == Committed && (items[i].words.value >= 10 ==> !r.markFails && r.evaluation.Valid?))
  }

  lemma ItemGetsThrough(s: State, items: seq<Item>, i: nat, r: Reply, levels: set<string>)
    requires Ok(s, items) && i < |items|
    ensures var (after, task) := EvaluateItem(s, items, i, r, levels);
            && (task.Some? <==> GetsThrough(s, items, i, r))
            && |after.submissions| == |items|
            && forall j | 0 <= j < |items| && j != i :: after.submissions[j] == s.submissions[j]
  {
    hide TaskOf, MistakesOf;
  }

  lemma {:induction false} ItemsGetThrough(s: State, items: seq<Item>, n: nat, replies: seq<Reply>, levels: set<string>)
    requires Ok(s, items) && n <= |items| == |replies|
    ensures var (after, tasks) := EvaluateItems(s, items, n, replies, levels);
            && (tasks.Some? <==> forall i | 0 <= i < n :: GetsThrough(s, items, i, replies[i]))
            && |after.submissions| == |items|
            && forall j | n <= j < |items| :: after.submissions[j] == s.submissions[j]
  {
    hide EvaluateItems, EvaluateItem;
    if n == 0 {
      NoItemsLong(s, items, replies, levels);
    } else {
      ItemsGetThrough(s, items, n - 1, replies, levels);
      ItemsStep(s, items, n - 1, replies, levels);
      var (before, tasks) := EvaluateItems(s, items, n - 1, replies, levels);
      ItemGetsThrough(before, items, n - 1, replies[n - 1], levels);
      assert GetsThrough(before, items, n - 1, replies[n - 1]) <==> GetsThrough(s, items, n - 1, replies[n - 1]);
      hide GetsThrough;
      assert EvaluateItems(s, items, n, replies, levels).1.Some?
             <==> tasks.Some? && EvaluateItem(before, items, n - 1, replies[n - 1], levels).1.Some?;
      assert (forall i | 0 <= i < n :: GetsThrough(s, items, i, replies[i]))
             <==> && (forall i | 0 <= i < n - 1 :: GetsThrough(s, items, i, replies[i]))
                  && GetsThrough(s, items, n - 1, replies[n - 1]);
    }
  }

  /** An attempt completes a section exactly when it can be loaded, is not waiting, each item gets through and the
      result is saved; only a section still being evaluated is marked failed, after the last attempt. */
  lemma StatusIs(s: State, items: seq<Item>, a: Attempt, levels: set<string>)
    requires Ok(s, items) && |a.replies| == |items|
    ensures var completes := && !a.loadFails && s.status != Waiting && a.save != RolledBack
                             && forall i | 0 <= i < |items| :: GetsThrough(s, items, i, a.replies[i]);
            Apply(s, items, Work(a), levels).status
            == if s.status == Completed || completes then Completed
               else if s.status == Evaluating && a.last then Failed
               else s.status
    ensures Apply(s, items, Retry, levels).status == if s.status == Failed then Evaluating else s.status
  {
    ItemsGetThrough(s, items, |items|, a.replies, levels);
    hide EvaluateItems, GetsThrough, Ok;
  }

  lemma {:induction false} NothingPaid(i: nat)
    ensures Times([], i) == 0
  {
  }

  /** For any pattern of failures over any number of attempts: one analysis per evaluated submission
      and its mistakes once, every paid evaluation stored or rolled back, and a completed section's
      score that of its stored analyses. */
  lemma {:induction false} EveryRunStoresOnce(items: seq<Item>, steps: seq<Step>, levels: set<string>)
    requires StepsFit(items, steps)
    ensures var s := Run(items, steps, levels); Stored(s, items) && ScoredFromStored(s, items, levels)
  {
    if steps == [] {
      forall i ensures PaidFor(Start(items), i) { NothingPaid(i); }
    } else {
      hide Apply, Stored, ScoredFromStored;
      var n := |steps| - 1;
      assert steps[n] in steps && forall x | x in steps[..n] :: x in steps;
      EveryRunStoresOnce(items, steps[..n], levels);
      StepKeeps(Run(items, steps[..n], levels), items, steps[n], levels);
    }
  }

  /** No submission has two analyses. */
  lemma AtMostOneAnalysis(items: seq<Item>, steps: seq<Step>, levels: set<string>, a: nat, b: nat)
    requires StepsFit(items, steps)
    requires var s := Run(items, steps, levels); a < b < |s.analyses|
    ensures var s := Run(items, steps, levels); s.analyses[a].item != s.analyses[b].item
  {
    EveryRunStoresOnce(items, steps, levels);
  }

  // ---- paying twice ----------------------------------------------------------------------

  /** A reply that is billed and leaves nothing behind. */
  predicate Costly(r: Reply) {
    !r.markFails && (r.evaluation.Invalid? || (r.evaluation.Valid? && r.save == RolledBack))
  }

  lemma {:induction false} NothingWasted(s: State, items: seq<Item>, n: nat, replies: seq<Reply>, levels: set<string>)
    requires Ok(s, items) && n <= |items| == |replies| && forall r | r in replies :: !Costly(r)
    ensures EvaluateItems(s, items, n, replies, levels).0.wasted == s.wasted
  {
    if n > 0 {
      hide TaskOf, MistakesOf;
      NothingWasted(s, items, n - 1, replies, levels);
      assert replies[n - 1] in replies;
    }
  }

  ghost predicate StepReplies(allowed: Reply -> bool, step: Step) {
    step.Work? ==> forall r | r in step.attempt.replies :: allowed(r)
  }

  ghost predicate Replies(allowed: Reply -> bool, steps: seq<Step>) {
    forall step | step in steps :: StepReplies(allowed, step)
  }

  lemma StepWastesNothing(s: State, items: seq<Item>, step: Step, levels: set<string>)
    requires Ok(s, items)
    requires step.Work? ==> |step.attempt.replies| == |items| && forall r | r in step.attempt.replies :: !Costly(r)
    ensures Apply(s, items, step, levels).wasted == s.wasted
  {
    hide EvaluateItems;
    if step.Work? { NothingWasted(s, items, |items|, step.attempt.replies, levels); }
  }

  lemma {:induction false} RunWastesNothing(items: seq<Item>, steps: seq<Step>, levels: set<string>,
      allowed: Reply -> bool)
    requires StepsFit(items, steps) && Replies(allowed, steps) && forall r | allowed(r) :: !Costly(r)
    ensures Run(items, steps, levels).wasted == []
  {
    if steps != [] {
      hide Apply, Ok, Costly;
      var n := |steps| - 1;
      assert steps[n] in steps && forall x | x in steps[..n] :: x in steps;
      RunWastesNothing(items, steps[..n], levels, allowed);
      assert StepReplies(allowed, steps[n]);
      StepWastesNothing(Run(items, steps[..n], levels), items, steps[n], levels);
    }
  }

  lemma PaysOnce(items: seq<Item>, steps: seq<Step>, levels: set<string>, i: nat, allowed: Reply -> bool)
    requires StepsFit(items, steps) && Replies(allowed, steps) && forall r | allowed(r) :: !Costly(r)
    ensures Times(Run(items, steps, levels).paid, i) <= 1
  {
    hide Run, Times, Replies, Costly;
    RunWastesNothing(items, steps, levels, allowed);
    EveryRunStoresOnce(items, steps, levels);
    assert PaidFor(Run(items, steps, levels), i);
    NothingPaid(i);
  }

  // A costly reply met in two attempts pays for one submission twice.
  function Twice(r: Reply): seq<Step> {
    [Work(Attempt(false, [r], Committed, false, false)), Work(Attempt(false, [r], Committed, false, false))]
  }

  lemma CostlyPaysTwice(item: Item, r: Reply, levels: set<string>)
    requires item.words.GetOr(0) >= TOO_SHORT && Costly(r)
    ensures StepsFit([item], Twice(r))
    ensures Run([item], Twice(r), levels).paid == [0, 0]
    ensures Times(Run([item], Twice(r), levels).paid, 0) == 2
  {
    var steps, items := Twice(r), [item];
    var step := steps[0];
    assert steps[..1] == [step] && [step][..0] == [];
    var start := Run(items, [], levels);
    var first := Run(items, [step], levels);
    assert EvaluateItems(start, items, 0, [r], levels) == (start, Some([]));
    assert first.paid == [0] && first.submissions == [Analyzing] && first.status == Evaluating;
    assert EvaluateItems(first, items, 0, [r], levels) == (first, Some([]));
    var paid := Run(items, steps, levels).paid;
    assert paid[..1] == [0] && [0][..0] == [];
  }

  const LONG_ITEM := Item("core", "B1", 50, Some(TOO_SHORT))

  /** Which outcomes may occur for no submission ever to be paid for twice, in any run over them: exactly
      those without an answer that cannot be read and without a save rolled back after an answer. */
  lemma NeverPaysTwiceIff(allowed: Reply -> bool)
    ensures (forall items, steps, levels, i | StepsFit(items, steps) && Replies(allowed, steps) ::
               Times(Run(items, steps, levels).paid, i) <= 1)
            <==> (forall r | allowed(r) :: !Costly(r))
  {
    hide Run, Times, StepsFit, Replies, Costly, Twice;
    if forall r | allowed(r) :: !Costly(r) {
      forall items, steps, levels, i | StepsFit(items, steps) && Replies(allowed, steps)
        ensures Times(Run(items, steps, levels).paid, i) <= 1
      {
        PaysOnce(items, steps, levels, i, allowed);
      }
    } else {
      var r :| allowed(r) && Costly(r);
      CostlyPaysTwice(LONG_ITEM, r, {});
      TwiceReplies(r, allowed);
      assert Times(Run([LONG_ITEM], Twice(r), {}).paid, 0) == 2;
    }
  }

  lemma TwiceReplies(r: Reply, allowed: Reply -> bool)
    requires allowed(r)
    ensures Replies(allowed, Twice(r))
  {
  }
}
