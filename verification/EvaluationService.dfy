/** EvaluationService: the evaluation job as it runs over the rows it updates, and the measurements of
    a spoken answer.

    Models apps/api/internal/assessment/evaluation.go. */
module EvaluationService {
  import opened Options
  import opened Evaluation

  class Section {
    const items: seq<Item>
    const levels: set<string>
    var submissions: seq<Submission>
    var analyses: seq<Analysis>
    var mistakes: seq<Mistake>
    var status: Status
    var result: Option<seq<Task>>
    ghost var paid: seq<nat>
    ghost var wasted: seq<nat>

    ghost function Contents(): State
      reads this
    {
      State(submissions, analyses, mistakes, status, result, paid, wasted)
    }

    ghost predicate Valid()
      reads this
    {
      Ok(Contents(), items)
    }

    constructor (items: seq<Item>, levels: set<string>)
      ensures Valid() && this.items == items && this.levels == levels && Contents() == Start(items)
    {
      this.items, this.levels := items, levels;
      submissions := seq(|items|, i => Open);
      analyses, mistakes, status, result, paid, wasted := [], [], Evaluating, None, [], [];
    }

    /** The analysis, the submission's state and the mistakes in one transaction: all or nothing. */
    method SaveAnalysis(i: nat, assessment: Option<Assessment>, save: Save) returns (ok: bool)
      requires Valid() && i < |items|
      modifies this`submissions, this`analyses, this`mistakes
      ensures Contents() == if save == RolledBack then old(Contents()) else Saved(old(Contents()), i, assessment)
      ensures ok <==> save == Committed
    {
      var id := |analyses|;
      var found: seq<Mistake> := [];
      if assessment.Some? {
        var texts := assessment.value.mistakes;
        for m := 0 to |texts|
          invariant found == MistakesOf(i, id, assessment)[..m]
        {
          found := found + [Mistake(i, id, texts[m])];
        }
      }
      assert found == MistakesOf(i, id, assessment);
      if save == RolledBack {
        return false;
      }
      analyses := analyses + [Analysis(i, assessment)];
      submissions := submissions[i := Done(id)];
      mistakes := mistakes + found;
      return save == Committed;
    }

    /** Calls the evaluator, unless the answer is too short, and stores what it says. */
    method RunWritingEvaluation(i: nat, r: Reply) returns (ok: bool, assessment: Option<Assessment>)
      requires Valid() && i < |items| && items[i].words.GetOr(0) > 0 && !submissions[i].Done?
      modifies this
      ensures Valid()
      ensures EvaluateItem(old(Contents()), items, i, r, levels)
              == (Contents(), if ok then Some(TaskOf(items[i], assessment, levels)) else None)
      ensures status == old(status) && result == old(result)
    {
      hide TaskOf, MistakesOf;
      assessment := None;
      if items[i].words.value >= TOO_SHORT {
        if r.markFails {
          return false, None;
        }
        submissions := submissions[i := Analyzing];
        match r.evaluation {
          case NoAnswer =>
            return false, None;
          case Invalid =>
            paid, wasted := paid + [i], wasted + [i];
            return false, None;
          case Valid(a) =>
            assessment := Some(a);
            paid := paid + [i];
        }
      }
      ok := SaveAnalysis(i, assessment, r.save);
      if r.save == RolledBack && items[i].words.value >= TOO_SHORT {
        wasted := wasted + [i];
      }
    }

    // One item: missing, already stored, or evaluated now; None when that fails.
    method TaskFor(i: nat, r: Reply) returns (task: Option<Task>)
      requires Valid() && i < |items|
      modifies this
      ensures Valid() && EvaluateItem(old(Contents()), items, i, r, levels) == (Contents(), task)
      ensures status == old(status) && result == old(result)
    {
      hide TaskOf, EvaluateItem;
      ItemOf(Contents(), items, i, r, levels);
      if items[i].words.GetOr(0) == 0 {
        return Some(TaskOf(items[i], None, levels));
      }
      if submissions[i].Done? {
        return Some(TaskOf(items[i], analyses[submissions[i].analysis].result, levels));
      }
      var done, assessment := RunWritingEvaluation(i, r);
      task := if done then Some(TaskOf(items[i], assessment, levels)) else None;
    }

    /** Every item in turn, until one fails. */
    method EvaluateWriting(replies: seq<Reply>) returns (ok: bool, tasks: seq<Task>)
      requires Valid() && |replies| == |items|
      modifies this
      ensures Valid()
      ensures EvaluateItems(old(Contents()), items, |items|, replies, levels)
              == (Contents(), if ok then Some(tasks) else None)
      ensures status == old(status) && result == old(result)
    {
      hide EvaluateItem;
      tasks := [];
      for i := 0 to |items|
        invariant Valid()
        invariant EvaluateItems(old(Contents()), items, i, replies, levels) == (Contents(), Some(tasks))
        invariant status == old(status) && result == old(result)
      {
        var task := TaskFor(i, replies[i]);
        if task.None? {
          FailedStays(old(Contents()), items, i + 1, replies, levels);
          return false, [];
        }
        tasks := tasks + [task.value];
      }
      return true, tasks;
    }

    method EvaluateSection(a: Attempt) returns (ok: bool)
      requires Valid() && |a.replies| == |items|
      modifies this
      ensures Valid() && Evaluation.EvaluateSection(old(Contents()), items, a, levels) == (Contents(), ok)
    {
      hide EvaluateItems;
      if a.loadFails {
        return false;
      }
      match status {
        case Completed => return !a.finalizeFails;
        case Waiting => return false;
        case Evaluating =>
        case Failed =>
      }
      var done, tasks := EvaluateWriting(a.replies);
      if !done || a.save == RolledBack {
        return false;
      }
      if result.None? {
        result := Some(tasks);
      }
      status := Completed;
      return a.save == Committed && !a.finalizeFails;
    }

    /** One attempt of the job; after the last one a section still being evaluated is marked failed. */
    method HandleEvaluationJob(a: Attempt) returns (ok: bool)
      requires Valid() && |a.replies| == |items|
      modifies this
      ensures Valid() && Contents() == Apply(old(Contents()), items, Work(a), levels)
    {
      ok := EvaluateSection(a);
      if !ok && a.last && status == Evaluating {
        status := Failed;
      }
    }
  }

  lemma ItemOf(s: State, items: seq<Item>, i: nat, r: Reply, levels: set<string>)
    requires Ok(s, items) && i < |items|
    ensures items[i].words.GetOr(0) == 0
            ==> EvaluateItem(s, items, i, r, levels) == (s, Some(TaskOf(items[i], None, levels)))
    ensures items[i].words.GetOr(0) > 0 && s.submissions[i].Done? ==>
              EvaluateItem(s, items, i, r, levels)
              == (s, Some(TaskOf(items[i], s.analyses[s.submissions[i].analysis].result, levels)))
  {
    hide TaskOf;
  }

  lemma {:induction false} FailedStays(s: State, items: seq<Item>, n: nat, replies: seq<Reply>, levels: set<string>)
    requires Ok(s, items) && n <= |items| == |replies|
    requires EvaluateItems(s, items, n, replies, levels).1.None?
    ensures EvaluateItems(s, items, |items|, replies, levels) == EvaluateItems(s, items, n, replies, levels)
    decreases |items| - n
  {
    hide EvaluateItem;
    if n < |items| { FailedStays(s, items, n + 1, replies, levels); }
  }

  // ---- measuring a spoken answer ---------------------------------------------------------

  // Times in milliseconds.
  datatype Segment = Segment(start: int, end: int)

  function Max(a: real, b: real): real { if a > b then a else b }

  function Min(a: real, b: real): real { if a < b then a else b }

  function Seconds(ms: int): real { ms as real / 1000.0 }

  // The time spoken: as transcribed, or as recorded, then stretched to the last segment and cut back.
  function SpeechSeconds(transcribed: real, recordedMs: int, segments: seq<Segment>): real {
    var s := if transcribed <= 0.0 then Seconds(recordedMs) else transcribed;
    if segments != [] && segments[|segments| - 1].end > 0 then
      Min(Max(s, Seconds(segments[|segments| - 1].end)), Max(s, 1.0))
    else s
  }

  /** The segments lengthen the measured time only when it is under a second, and then to a second at
      most: a time of a second or more is kept whatever the segments say. */
  lemma SpeechSecondsIs(transcribed: real, recordedMs: int, segments: seq<Segment>)
    ensures var s := if transcribed <= 0.0 then Seconds(recordedMs) else transcribed;
            var r := SpeechSeconds(transcribed, recordedMs, segments);
            && s <= r
            && (s >= 1.0 ==> r == s)
            && (s < 1.0 ==> r <= 1.0)
            && (r > s
                <==> && s < 1.0 && segments != []
                     && segments[|segments| - 1].end > 0 && Seconds(segments[|segments| - 1].end) > s)
  {
  }

  // The pauses longer than 0.7 s between neighbouring segments.
  function Paused(segments: seq<Segment>): real {
    if |segments| < 2 then 0.0
    else
      var n := |segments| - 1;
      var gap := Seconds(segments[n].start - segments[n - 1].end);
      Paused(segments[..n]) + if gap > 0.7 then gap else 0.0
  }

  lemma {:induction false} PausedIsPositive(segments: seq<Segment>)
    ensures Paused(segments) >= 0.0
  {
    if |segments| >= 2 { PausedIsPositive(segments[..|segments| - 1]); }
  }

  /** The share of the time spent in pauses, between 0 and 1; None without two segments or any time. */
  method PauseRatio(segments: seq<Segment>, speechSeconds: real) returns (ratio: Option<real>)
    ensures ratio.None? <==> |segments| <= 1 || speechSeconds <= 0.0
    ensures ratio.Some? ==>
              && 0.0 <= ratio.value <= 1.0 && speechSeconds > 0.0
              && ratio.value == Min(Paused(segments) / speechSeconds, 1.0)
  {
    if |segments| <= 1 || speechSeconds <= 0.0 {
      return None;
    }
    var paused := 0.0;
    for i := 1 to |segments|
      invariant paused == Paused(segments[..i])
    {
      assert segments[..i + 1][..i] == segments[..i];
      var gap := Seconds(segments[i].start - segments[i - 1].end);
      if gap > 0.7 {
        paused := paused + gap;
      }
    }
    assert segments[..|segments|] == segments;
    PausedIsPositive(segments);
    assert paused / speechSeconds >= 0.0;
    return Some(Min(paused / speechSeconds, 1.0));
  }
}
