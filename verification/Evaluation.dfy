/** Evaluation: a background job that scores one writing section, may fail anywhere and is tried again.

    Models HandleEvaluationJob, evaluateSection, evaluateWriting, runWritingEvaluation and
    saveAnalysis in apps/api/internal/assessment/evaluation.go, for one worker at a time. The score is
    a function of the scored tasks; the tasks themselves stand for it here. */
module Evaluation {
  import opened Options

  datatype Assessment = Assessment(
    taskResponse: real,
    grammar: real,
    vocabulary: real,
    coherence: real,
    estimate: string,
    confidence: real,
    mistakes: seq<string>)

  /** One task of the section; words: how many were written, None when nothing was submitted. */
  datatype Item = Item(band: string, level: string, minWords: int, words: Option<nat>)

  /** A submission: not yet evaluated (being analyzed or not), or completed with its analysis. */
  datatype Submission = Open | Analyzing | Done(analysis: nat)

  // result: None when the answer was too short to evaluate.
  datatype Analysis = Analysis(item: nat, result: Option<Assessment>)
  datatype Mistake = Mistake(item: nat, analysis: nat, text: string)

  /** What the scoring sees of a task. */
  datatype Criteria = Criteria(taskResponse: real, grammar: real, vocabulary: real, coherence: real)
  datatype Task = Missing(band: string, level: string, minWords: int)
                | Scored(band: string, level: string, minWords: int, words: nat, criteria: Criteria,
                         estimate: Option<(string, real)>)

  datatype Status = Waiting | Evaluating | Failed | Completed

  // paid: the item of every evaluator call that was answered, and so billed, in order; wasted: the
  // items of those answers that were not stored.
  datatype State = State(
    submissions: seq<Submission>, analyses: seq<Analysis>, mistakes: seq<Mistake>,
    status: Status, result: Option<seq<Task>>, paid: seq<nat>, wasted: seq<nat>)

  /** How a transaction ends; Lost: it was committed but the caller was told it failed. */
  datatype Save = Committed | RolledBack | Lost

  /** What the evaluator comes back with; Invalid: an answer, but not one that can be read. */
  datatype Verdict = NoAnswer | Invalid | Valid(assessment: Assessment)

  /** What happens to one item in one attempt. */
  datatype Reply = Reply(markFails: bool, evaluation: Verdict, save: Save)

  const TOO_SHORT := 10
  const LOW := Criteria(5.0, 5.0, 5.0, 5.0)

  function CriteriaOf(a: Assessment): Criteria { Criteria(a.taskResponse, a.grammar, a.vocabulary, a.coherence) }

  // levels: which estimates parse as a CEFR level.
  function TaskOf(item: Item, result: Option<Assessment>, levels: set<string>): Task {
    if item.words.GetOr(0) == 0 then Missing(item.band, item.level, item.minWords)
    else if result.None? then Scored(item.band, item.level, item.minWords, item.words.value, LOW, None)
    else
      var a := result.value;
      Scored(item.band, item.level, item.minWords, item.words.value, CriteriaOf(a),
             if a.estimate in levels then Some((a.estimate, a.confidence)) else None)
  }

  function MistakesOf(item: nat, analysis: nat, result: Option<Assessment>): seq<Mistake> {
    if result.None? then []
    else
      seq(|result.value.mistakes|, i requires 0 <= i < |result.value.mistakes| =>
        Mistake(item, analysis, result.value.mistakes[i]))
  }

  // The analysis, the submission's state and the mistakes, in one transaction.
  function Saved(s: State, i: nat, result: Option<Assessment>): State
    requires i < |s.submissions|
  {
    var id := |s.analyses|;
    s.(analyses := s.analyses + [Analysis(i, result)], submissions := s.submissions[i := Done(id)],
       mistakes := s.mistakes + MistakesOf(i, id, result))
  }

  predicate Ok(s: State, items: seq<Item>) {
    && |s.submissions| == |items|
    && forall i | 0 <= i < |s.submissions| && s.submissions[i].Done? :: s.submissions[i].analysis < |s.analyses|
  }

  // One item of an attempt: the task it becomes, or None when the attempt fails here.
  function EvaluateItem(s: State, items: seq<Item>, i: nat, r: Reply, levels: set<string>): (State, Option<Task>)
    requires Ok(s, items) && i < |items|
  {
    var item := items[i];
    if item.words.GetOr(0) == 0 then (s, Some(TaskOf(item, None, levels)))
    else if s.submissions[i].Done? then (s, Some(TaskOf(item, s.analyses[s.submissions[i].analysis].result, levels)))
    else if item.words.value >= TOO_SHORT && r.markFails then (s, None)
    else
      var long := item.words.value >= TOO_SHORT;
      var marked := if long then s.(submissions := s.submissions[i := Analyzing]) else s;
      if long && r.evaluation.NoAnswer? then (marked, None)
      else if long && r.evaluation.Invalid? then
        (marked.(paid := marked.paid + [i], wasted := marked.wasted + [i]), None)
      else
        var result := if long then Some(r.evaluation.assessment) else None;
        var paid := if long then marked.(paid := marked.paid + [i]) else marked;
        match r.save
        case Committed => (Saved(paid, i, result), Some(TaskOf(item, result, levels)))
        case Lost => (Saved(paid, i, result), None)
        case RolledBack => (if long then paid.(wasted := paid.wasted + [i]) else paid, None)
  }

  // The first n items of an attempt.
  function EvaluateItems(s: State, items: seq<Item>, n: nat, replies: seq<Reply>, levels: set<string>)
    : (r: (State, Option<seq<Task>>))
    requires Ok(s, items) && n <= |items| == |replies|
    ensures Ok(r.0, items) && r.0.status == s.status && r.0.result == s.result
  {
    if n == 0 then (s, Some([]))
    else
      var (before, tasks) := EvaluateItems(s, items, n - 1, replies, levels);
      if tasks.None? then (before, None)
      else
        var (after, task) := EvaluateItem(before, items, n - 1, replies[n - 1], levels);
        (after, if task.None? then None else Some(tasks.value + [task.value]))
  }

  // The result is inserted unless there is one, with the section's status, in one transaction.
  function Complete(s: State, tasks: seq<Task>): State {
    s.(status := Completed, result := if s.result.Some? then s.result else Some(tasks))
  }

  /** One attempt of the job: whether the section can be loaded, what happens to each item and to the
      final transaction, whether finalizing the assessment fails, and whether it was the last attempt. */
  datatype Attempt = Attempt(loadFails: bool, replies: seq<Reply>, save: Save, finalizeFails: bool, last: bool)

  function EvaluateSection(s: State, items: seq<Item>, a: Attempt, levels: set<string>): (r: (State, bool))
    requires Ok(s, items) && |a.replies| == |items|
    ensures Ok(r.0, items)
  {
    if a.loadFails then (s, false)
    else if s.status == Completed then (s, !a.finalizeFails)
    else if s.status == Waiting then (s, false)
    else
      var (after, tasks) := EvaluateItems(s, items, |items|, a.replies, levels);
      if tasks.None? then (after, false)
      else match a.save
        case Committed => (Complete(after, tasks.value), !a.finalizeFails)
        case Lost => (Complete(after, tasks.value), false)
        case RolledBack => (after, false)
  }

  function MarkFailed(s: State): State { if s.status == Evaluating then s.(status := Failed) else s }

  datatype Step = Work(attempt: Attempt) | Retry

  function Apply(s: State, items: seq<Item>, step: Step, levels: set<string>): (r: State)
    requires Ok(s, items) && (step.Work? ==> |step.attempt.replies| == |items|)
    ensures Ok(r, items)
  {
    match step
    case Work(a) =>
      var (after, ok) := EvaluateSection(s, items, a, levels);
      if !ok && a.last then MarkFailed(after) else after
    case Retry => if s.status == Failed then s.(status := Evaluating) else s
  }

  predicate StepsFit(items: seq<Item>, steps: seq<Step>) {
    forall step | step in steps :: step.Work? ==> |step.attempt.replies| == |items|
  }

  function Start(items: seq<Item>): (s: State)
    ensures Ok(s, items)
  {
    State(seq(|items|, i => Open), [], [], Evaluating, None, [], [])
  }

  function Run(items: seq<Item>, steps: seq<Step>, levels: set<string>): (s: State)
    requires StepsFit(items, steps)
    ensures Ok(s, items)
  {
    if steps == [] then Start(items)
    else
      var n := |steps| - 1;
      assert forall x | x in steps[..n] :: x in steps;
      Apply(Run(items, steps[..n], levels), items, steps[n], levels)
  }
}
