/** PracticeRounds: the rounds that make a test, as a function and as they run.

    Models WriteGrammarPractice, checkPractice, agreedPractice and capPractice in
    apps/api/internal/ai/grammar_practice.go. */
module PracticeRounds {
  import opened Text
  import opened Options
  import opened Sorting
  import opened Practice
  import opened PracticeWriter

  function Cap(questions: seq<Question>): (r: seq<Question>)
    ensures r <= questions && |r| <= SET_SIZE
  {
    if |questions| > SET_SIZE then questions[..SET_SIZE] else questions
  }

  /** The questions a check leaves of a batch; None: the check could not be had. */
  function AfterCheck(questions: seq<Question>, check: Option<seq<CheckAnswer>>): seq<Question> {
    if questions == [] then []
    else if check.None? then Cap(questions)
    else Cap(QuestionsOf(Agreed(questions, check.value)))
  }

  /** What makes two questions the same. */
  function KeyOf(q: Question): string {
    NormalizeChoice(q.prompt + "|" + Join(q.options, "|"))
  }

  function KeysOf(questions: seq<Question>): set<string> {
    set q | q in questions :: KeyOf(q)
  }

  // The new ones among a batch join those kept.
  function Merge(kept: seq<Question>, batch: seq<Question>): seq<Question> {
    if batch == [] then kept
    else
      var n := |batch| - 1;
      var before := Merge(kept, batch[..n]);
      if KeyOf(batch[n]) in KeysOf(before) then before else before + [batch[n]]
  }

  /** One round: the writer failed, or wrote a batch that was checked. */
  datatype Round = Failed | Wrote(batch: seq<Question>, check: Option<seq<CheckAnswer>>)

  // The test so far; over: a round failed, so no more are asked for.
  datatype Progress = Progress(kept: seq<Question>, over: bool, failed: bool)

  function Advance(p: Progress, r: Round, first: bool): Progress {
    if p.over || |p.kept| >= SET_SIZE then p
    else match r
      case Failed => p.(over := true, failed := first)
      case Wrote(batch, check) => p.(kept := Merge(p.kept, AfterCheck(Usable(batch), check)))
  }

  function AfterRounds(rounds: seq<Round>): Progress {
    if rounds == [] then Progress([], false, false)
    else var n := |rounds| - 1; Advance(AfterRounds(rounds[..n]), rounds[n], n == 0)
  }

  function Test(rounds: seq<Round>): Option<seq<Question>>
    requires |rounds| == ROUNDS
  {
    var p := AfterRounds(rounds);
    if p.failed || |Cap(p.kept)| < MIN_USABLE then None else Some(Cap(p.kept))
  }

  // ---- what every test is ----------------------------------------------------------------

  predicate DistinctKeys(questions: seq<Question>) {
    forall i, j | 0 <= i < j < |questions| :: KeyOf(questions[i]) != KeyOf(questions[j])
  }

  predicate AllMarkable(questions: seq<Question>) {
    forall q | q in questions :: Markable(q) && Tidy(q)
  }

  lemma CheckKeepsMarkable(questions: seq<Question>, check: Option<seq<CheckAnswer>>)
    requires AllMarkable(questions)
    ensures AllMarkable(AfterCheck(questions, check))
  {
    hide Agreed, Markable, Tidy;
    if check.Some? {
      AgreedIsSound(questions, check.value);
      var kept := Agreed(questions, check.value);
      forall q | q in QuestionsOf(kept) ensures Markable(q) && Tidy(q) {
        var i :| 0 <= i < |kept| && QuestionsOf(kept)[i] == q;
        assert kept[i] in kept;
      }
    }
  }

  lemma KeyIsAmong(questions: seq<Question>, i: nat)
    requires i < |questions|
    ensures KeyOf(questions[i]) in KeysOf(questions)
  {
    hide KeyOf;
    assert questions[i] in questions;
  }

  lemma NewKeyStaysDistinct(kept: seq<Question>, q: Question)
    requires DistinctKeys(kept) && KeyOf(q) !in KeysOf(kept)
    ensures DistinctKeys(kept + [q])
  {
    hide KeyOf, KeysOf;
    forall i | 0 <= i < |kept| { KeyIsAmong(kept, i); }
  }

  lemma {:induction false} MergeKeeps(kept: seq<Question>, batch: seq<Question>)
    requires DistinctKeys(kept) && AllMarkable(kept) && AllMarkable(batch)
    ensures DistinctKeys(Merge(kept, batch)) && AllMarkable(Merge(kept, batch))
  {
    if batch != [] {
      hide KeyOf, KeysOf, Markable, Tidy, DistinctKeys;
      var n := |batch| - 1;
      assert batch[n] in batch && forall q | q in batch[..n] :: q in batch;
      MergeKeeps(kept, batch[..n]);
      var before := Merge(kept, batch[..n]);
      if KeyOf(batch[n]) !in KeysOf(before) { NewKeyStaysDistinct(before, batch[n]); }
    }
  }

  lemma KeysOfOneMore(questions: seq<Question>, q: Question)
    ensures KeysOf(questions + [q]) == KeysOf(questions) + {KeyOf(q)}
  {
    hide KeyOf;
    forall k | k in KeysOf(questions) + {KeyOf(q)} ensures k in KeysOf(questions + [q]) {
      if k == KeyOf(q) {
        assert q in questions + [q];
      } else {
        var x :| x in questions && KeyOf(x) == k;
        assert x in questions + [q];
      }
    }
  }

  /** Merging a batch keeps what was kept, in order, and loses no question it does not already have. */
  lemma {:induction false} MergeLosesNothing(kept: seq<Question>, batch: seq<Question>)
    ensures kept <= Merge(kept, batch)
    ensures KeysOf(Merge(kept, batch)) == KeysOf(kept) + KeysOf(batch)
  {
    hide KeyOf;
    if batch != [] {
      var n := |batch| - 1;
      MergeLosesNothing(kept, batch[..n]);
      KeysOfOneMore(batch[..n], batch[n]);
      KeysOfOneMore(Merge(kept, batch[..n]), batch[n]);
      assert batch == batch[..n] + [batch[n]];
    }
  }

  lemma {:induction false} RoundsKeep(rounds: seq<Round>)
    ensures var p := AfterRounds(rounds); DistinctKeys(p.kept) && AllMarkable(p.kept)
  {
    if rounds != [] {
      hide DistinctKeys, AllMarkable, Merge, AfterCheck;
      var n := |rounds| - 1;
      RoundsKeep(rounds[..n]);
      if rounds[n].Wrote? {
        assert AllMarkable(Usable(rounds[n].batch)) by { BatchIsMarkable(rounds[n].batch); }
        CheckKeepsMarkable(Usable(rounds[n].batch), rounds[n].check);
        MergeKeeps(AfterRounds(rounds[..n]).kept, AfterCheck(Usable(rounds[n].batch), rounds[n].check));
      }
    }
  }

  lemma BatchIsMarkable(batch: seq<Question>)
    ensures AllMarkable(Usable(batch))
  {
    UsableIsMarkable(batch);
  }

  /** Whatever the writer and the checker return in up to three rounds, the result is an error or a
      test of 8 to 15 questions, no two of them the same, each of which can be marked. */
  lemma TestCanBeMarked(rounds: seq<Round>)
    requires |rounds| == ROUNDS
    ensures Test(rounds).Some? ==>
              var test := Test(rounds).value;
              && MIN_USABLE <= |test| <= SET_SIZE
              && DistinctKeys(test) && AllMarkable(test)
  {
    hide KeyOf, Markable, Tidy, AfterRounds;
    RoundsKeep(rounds);
    var p := AfterRounds(rounds);
    assert forall q | q in Cap(p.kept) :: q in p.kept;
  }

  // ---- as it runs ------------------------------------------------------------------------

  method NarrowAccepted(q: Question, a: CheckAnswer, right: set<string>) returns (accepted: seq<string>, agreed: bool)
    ensures accepted == Narrowed(q.accepted, right)
    ensures agreed
            <==> NormalizeChoice(a.answerText) in NormalForms(q.accepted) && NormalizeChoice(a.answerText) in right
  {
    hide NormalizeChoice;
    accepted, agreed := [], false;
    for i := 0 to |q.accepted|
      invariant accepted == Narrowed(q.accepted[..i], right)
      invariant agreed
                <==> && NormalizeChoice(a.answerText) in NormalForms(q.accepted[..i])
                     && NormalizeChoice(a.answerText) in right
    {
      assert q.accepted[..i + 1][..i] == q.accepted[..i];
      assert q.accepted[..i + 1] == q.accepted[..i] + [q.accepted[i]];
      var key := NormalizeChoice(q.accepted[i]);
      if key in right {
        accepted := accepted + [q.accepted[i]];
        if key == NormalizeChoice(a.answerText) {
          agreed := true;
        }
      }
    }
    assert q.accepted[..|q.accepted|] == q.accepted;
  }

  method FormsOf(answers: seq<string>) returns (forms: set<string>)
    ensures forms == NormalForms(answers)
  {
    hide NormalizeChoice;
    forms := {};
    for i := 0 to |answers|
      invariant forms == NormalForms(answers[..i])
    {
      assert answers[..i + 1] == answers[..i] + [answers[i]];
      forms := forms + {NormalizeChoice(answers[i])};
    }
    assert answers[..|answers|] == answers;
  }

  method JudgeOne(q: Question, a: CheckAnswer) returns (r: Option<Question>)
    ensures r == Judge(q, a)
  {
    hide NormalizeChoice;
    if a.ambiguous {
      return None;
    }
    if q.IsFillBlank() {
      var right := FormsOf(a.acceptable);
      right := {NormalizeChoice(a.answerText)} + right;
      var accepted, agreed := NarrowAccepted(q, a, right);
      if !agreed {
        return None;
      }
      var written := FormsOf(q.accepted);
      var open := exists fill | fill in right :: fill != "" && fill !in written;
      if open {
        return None;
      }
      return Some(q.(accepted := accepted));
    } else if a.answerIndex != q.answerIndex {
      return None;
    }
    return Some(q);
  }

  method AgreedPractice(questions: seq<Question>, answers: seq<CheckAnswer>) returns (out: seq<Question>)
    ensures out == QuestionsOf(Agreed(questions, answers))
  {
    hide Judge, StableSort, LastPlace;
    var kept: seq<Survivor>, answered: set<int> := [], {};
    for i := 0 to |answers|
      invariant JudgeAll(questions, answers[..i]) == Judging(kept, answered)
    {
      assert answers[..i + 1][..i] == answers[..i];
      var a := answers[i];
      if a.index < 1 || a.index > |questions| || a.index in answered {
        continue;
      }
      answered := answered + {a.index};
      var r := JudgeOne(questions[a.index - 1], a);
      if r.Some? {
        kept := kept + [Survivor(a.index, r.value)];
      }
    }
    assert answers[..|answers|] == answers;
    out := QuestionsOf(StableSort(kept, PlaceOf(questions)));
  }

  method CheckPractice(questions: seq<Question>, check: Option<seq<CheckAnswer>>) returns (out: seq<Question>)
    ensures out == AfterCheck(questions, check)
  {
    hide Agreed;
    if questions == [] {
      return questions;
    }
    if check.None? {
      return Cap(questions);
    }
    out := AgreedPractice(questions, check.value);
    out := Cap(out);
  }

  method MergeBatch(kept: seq<Question>, seen: set<string>, batch: seq<Question>)
    returns (kept': seq<Question>, seen': set<string>)
    requires seen == KeysOf(kept)
    ensures kept' == Merge(kept, batch) && seen' == KeysOf(kept')
  {
    hide KeyOf;
    kept', seen' := kept, seen;
    for i := 0 to |batch|
      invariant kept' == Merge(kept, batch[..i]) && seen' == KeysOf(kept')
    {
      assert batch[..i + 1][..i] == batch[..i];
      var key := KeyOf(batch[i]);
      if key in seen' {
        continue;
      }
      seen' := seen' + {key};
      kept' := kept' + [batch[i]];
    }
    assert batch[..|batch|] == batch;
  }

  // The slice a batch arrives in is compacted in place.
  method UsableOf(batch: seq<Question>) returns (usable: seq<Question>)
    ensures usable == Usable(batch)
  {
    var a := new Question[|batch|](i requires 0 <= i < |batch| => batch[i]);
    assert a[..] == batch;
    var n := UsablePractice(a);
    usable := a[..n];
  }

  /** Writes one level's test: up to three rounds, each telling the writer what is already in it. */
  method WriteGrammarPractice(rounds: seq<Round>) returns (test: Option<seq<Question>>)
    requires |rounds| == ROUNDS
    ensures test == Test(rounds)
  {
    hide Merge, AfterCheck, Usable, KeyOf;
    var kept: seq<Question>, seen: set<string> := [], {};
    var round := 0;
    while round < ROUNDS && |kept| < SET_SIZE
      invariant round <= ROUNDS
      invariant AfterRounds(rounds[..round]) == Progress(kept, false, false)
      invariant seen == KeysOf(kept)
    {
      assert rounds[..round + 1][..round] == rounds[..round];
      match rounds[round] {
        case Failed =>
          if round == 0 {
            OverStays(rounds, 1);
            return None;
          }
          OverStays(rounds, round + 1);
          break;
        case Wrote(batch, check) =>
          var usable := UsableOf(batch);
          usable := CheckPractice(usable, check);
          kept, seen := MergeBatch(kept, seen, usable);
          round := round + 1;
      }
    }
    if round == ROUNDS { assert rounds[..ROUNDS] == rounds; } else if |kept| >= SET_SIZE { OverStays(rounds, round); }
    kept := Cap(kept);
    if |kept| < MIN_USABLE {
      return None;
    }
    return Some(kept);
  }

  lemma {:induction false} OverStays(rounds: seq<Round>, n: nat)
    requires n <= |rounds|
    requires var p := AfterRounds(rounds[..n]); p.over || |p.kept| >= SET_SIZE
    ensures AfterRounds(rounds) == AfterRounds(rounds[..n])
    decreases |rounds| - n
  {
    hide Merge, AfterCheck, Usable;
    if n == |rounds| {
      assert rounds[..n] == rounds;
    } else {
      assert rounds[..n + 1][..n] == rounds[..n];
      OverStays(rounds, n + 1);
    }
  }
}
