/** VocabularyService: a vocabulary run as it happens, its counters and the map of known spellings
    updated word by word under one lock.

    Models apps/api/internal/admin/vocabulary.go. */
module VocabularyService {
  import opened Text
  import opened Options
  import opened Vocabulary

  method KeepUsable(raw: seq<Raw>, excluded: set<string>) returns (kept: seq<Word>)
    ensures kept == UsableWords(raw, excluded)
  {
    hide UsableWord;
    kept := [];
    var seen: set<string> := {};
    for i := 0 to |raw|
      invariant kept == UsableWords(raw[..i], excluded) && seen == TermsOf(kept)
    {
      assert raw[..i + 1][..i] == raw[..i];
      var w := UsableWord(raw[i], excluded, seen);
      if w.None? {
        continue;
      }
      seen := seen + {ToLower(w.value.term)};
      TermsOfOneMore(kept, w.value);
      kept := kept + [w.value];
    }
    assert raw[..|raw|] == raw;
  }

  lemma TermsOfOneMore(words: seq<Word>, w: Word)
    ensures TermsOf(words + [w]) == TermsOf(words) + {ToLower(w.term)}
  {
    hide ToLower;
    assert forall x :: x in words + [w] <==> x in words || x == w;
  }

  /** What the writer makes of the model's answer. */
  method WriteVocabulary(p: Plan, excluded: set<string>, raw: seq<Raw>) returns (words: seq<Word>)
    ensures words == Written(p, excluded, raw)
  {
    hide UsableWords, KindOf;
    var kind := if Kind(p) in {PHRASE, COLLOCATION} then Kind(p) else WORD;
    var usable := KeepUsable(raw, excluded);
    words := [];
    for i := 0 to |usable|
      invariant words == OfKind(usable[..i], kind)
    {
      assert usable[..i + 1][..i] == usable[..i];
      if KindOf(usable[i].pos) == kind {
        words := words + [usable[i]];
      }
    }
    assert usable[..|usable|] == usable;
  }

  method CheckLevels(words: seq<Word>, listed: Listing, second: Option<map<string, string>>) returns (out: seq<Word>)
    ensures out == AllSettled(words, listed, second)
  {
    hide ListedFor, AnswerFor, SetLevel, LevelRank;
    out := words;
    var settled: set<int> := {};
    for i := 0 to |words|
      invariant |out| == |words|
      invariant forall j | i <= j < |words| :: out[j] == words[j]
      invariant settled == set j | 0 <= j < i && ListedFor(listed, words[j]) != ""
      invariant forall j | 0 <= j < i ::
                  out[j] == if j in settled then SetLevel(words[j], ListedFor(listed, words[j])).(source := Listed)
                            else words[j].(source := Unverified)
    {
      var level := ListedFor(listed, words[i]);
      if level != "" {
        out := out[i := SetLevel(words[i], level).(source := Listed)];
        settled := settled + {i};
      } else {
        out := out[i := words[i].(source := Unverified)];
      }
    }
    if second.Some? {
      for i := 0 to |words|
        invariant |out| == |words|
        invariant forall j | 0 <= j < i :: out[j] == Settled(words[j], listed, second)
        invariant forall j | i <= j < |words| ::
                    out[j] == if j in settled then SetLevel(words[j], ListedFor(listed, words[j])).(source := Listed)
                              else words[j].(source := Unverified)
      {
        if i !in settled {
          var answer := AnswerFor(second.value, words[i]);
          if LevelRank(answer) >= 0 {
            if answer == out[i].level {
              out := out[i := out[i].(source := Checked)];
            } else {
              SetLevelKeepsSource(words[i], answer);
              out := out[i := SetLevel(out[i], answer)];
            }
          }
        }
      }
    }
  }

  lemma SetLevelKeepsSource(w: Word, level: string)
    ensures SetLevel(w.(source := Unverified), level) == SetLevel(w, level).(source := Unverified)
  {
  }

  method ReviewWords(words: seq<Word>, verdicts: Verdicts, kind: string) returns (kept: seq<Word>)
    ensures kept == Reviewed(words, verdicts, kind)
  {
    hide FitsKind;
    kept := [];
    for i := 0 to |words|
      invariant kept == Reviewed(words[..i], verdicts, kind)
    {
      assert words[..i + 1][..i] == words[..i];
      var t := ToLower(words[i].term);
      if t !in verdicts || !verdicts[t] || !FitsKind(words[i].term, kind) {
        continue;
      }
      kept := kept + [words[i]];
    }
    assert words[..|words|] == words;
  }

  class VocabularyRun {
    const plan: Plan
    var library: seq<Word>
    var seen: map<string, string>
    var added: nat
    var skipped: nat
    var outOfRange: nat
    var failed: nat
    var rejected: nat
    var sources: Tally
    var broken: bool

    ghost function Contents(): Run
      reads this
    {
      Run(library, seen, added, skipped, outOfRange, failed, rejected, sources, broken)
    }

    constructor (plan: Plan, library: seq<Word>, exclude: seq<string>)
      ensures this.plan == plan && Contents() == Begin(library, exclude)
    {
      this.plan, this.library := plan, library;
      added, skipped, outOfRange, failed, rejected, sources, broken := 0, 0, 0, 0, 0, Tally(0, 0, 0), false;
      seen := SeenFrom(exclude);
    }

    /** Stores a batch's words under the lock, until the target is reached or a write fails. */
    method Store(words: seq<Word>, fault: nat)
      modifies this
      ensures Contents() == StoreBatch(old(Contents()), plan, words, fault).0
    {
      hide SpellingKey, InRange, InLibrary, ToLower, Target;
      for i := 0 to |words|
        invariant StoreBatch(old(Contents()), plan, words[..i], fault) == (Contents(), false)
      {
        assert words[..i + 1][..i] == words[..i];
        if added >= Target(plan) {
          StoppedStays(old(Contents()), plan, words, fault, i);
          return;
        }
        var w := words[i];
        var key := SpellingKey(w.term);
        if key in seen && seen[key] != "" {
          skipped := skipped + 1;
          continue;
        }
        if !InRange(w.level, plan.minLevel, plan.maxLevel) {
          outOfRange := outOfRange + 1;
          continue;
        }
        if fault == i {
          broken := true;
          StoppedStays(old(Contents()), plan, words, fault, i + 1);
          return;
        }
        var stored := !InLibrary(library, w);
        seen := seen[key := ToLower(w.term)];
        if stored {
          library := library + [w];
          added := added + 1;
          sources := Bump(sources, w.source);
        } else {
          skipped := skipped + 1;
        }
      }
      assert words[..|words|] == words;
    }

    /** One batch after the model has answered: usable words, levels checked, entries reviewed, the rest
        stored. */
    method TakeBatch(excluded: set<string>, answer: Answer)
      modifies this
      ensures Contents() == Take(old(Contents()), plan, excluded, answer)
    {
      hide StoreBatch, AllSettled, Reviewed, Written;
      if answer.WriteFailed? {
        failed := failed + 1;
        return;
      }
      var words := WriteVocabulary(plan, excluded, answer.raw);
      if words == [] {
        failed := failed + 1;
        return;
      }
      var checked := CheckLevels(words, answer.listed, answer.second);
      match answer.review
      case Unreviewed =>
        Store(checked, answer.fault);
      case ReviewFailed =>
        rejected := rejected + |checked|;
        failed := failed + 1;
      case Verdict(verdicts) =>
        var kept := ReviewWords(checked, verdicts, Kind(plan));
        rejected := rejected + |checked| - |kept|;
        Store(kept, answer.fault);
    }

    /** Up to eight waves; `answers` is what each one gets back, in the order it reaches the store. */
    method Generate(answers: seq<seq<Answer>>) returns (ok: bool)
      requires |answers| == WAVES && !broken
      modifies this
      ensures Contents() == Waves(old(Contents()), plan, answers)
      ensures ok <==> !broken && added > 0
    {
      hide Wave, Take, Target;
      for wave := 0 to WAVES
        invariant Contents() == Waves(old(Contents()), plan, answers[..wave])
        invariant !broken
      {
        assert answers[..wave + 1][..wave] == answers[..wave];
        if added >= Target(plan) {
          FinishedStays(old(Contents()), plan, answers, wave);
          break;
        }
        ghost var start := Contents();
        var batches := answers[wave];
        var known := set t | t in seen.Values :: ToLower(Trim(t));
        WaveGrows(start, plan, known, batches, 0);
        for i := 0 to |batches|
          invariant Contents() == Wave(start, plan, known, batches[..i])
        {
          WaveGrows(start, plan, known, batches, i);
          TakeBatch(known, batches[i]);
        }
        assert batches[..|batches|] == batches;
        if broken {
          FinishedStays(old(Contents()), plan, answers, wave + 1);
          return false;
        }
      }
      assert answers[..WAVES] == answers;
      ok := added > 0;
    }
  }

  lemma WaveGrows(s: Run, p: Plan, known: set<string>, batches: seq<Answer>, i: nat)
    ensures Wave(s, p, known, batches[..0]) == s
    ensures i < |batches| ==>
              Wave(s, p, known, batches[..i + 1]) == Take(Wave(s, p, known, batches[..i]), p, known, batches[i])
  {
    hide Take;
    if i < |batches| { assert batches[..i + 1][..i] == batches[..i]; }
  }

  lemma {:induction false} StoppedStays(s: Run, p: Plan, words: seq<Word>, fault: nat, i: nat)
    requires i <= |words|
    requires var (t, halted) := StoreBatch(s, p, words[..i], fault); Stops(t, p, halted)
    ensures StoreBatch(s, p, words, fault) == StoreBatch(s, p, words[..i], fault)
    decreases |words| - i
  {
    hide StoreWord, Writes;
    if i == |words| {
      assert words[..i] == words;
    } else {
      assert words[..i + 1][..i] == words[..i];
      StoppedStays(s, p, words, fault, i + 1);
    }
  }

  lemma {:induction false} FinishedStays(s: Run, p: Plan, answers: seq<seq<Answer>>, i: nat)
    requires i <= |answers| && Finished(Waves(s, p, answers[..i]), p)
    ensures Waves(s, p, answers) == Waves(s, p, answers[..i])
    decreases |answers| - i
  {
    hide Wave;
    if i == |answers| {
      assert answers[..i] == answers;
    } else {
      assert answers[..i + 1][..i] == answers[..i];
      FinishedStays(s, p, answers, i + 1);
    }
  }
}
