/** VocabularyProofs: whatever comes back and in whatever order, a vocabulary run stays within its
    target, counts what it stored, and never stores an entry twice.

    About runVocabularyGeneration in apps/api/internal/admin/vocabulary.go. */
module VocabularyProofs {
  import opened Text
  import opened Options
  import opened Sorting
  import opened Vocabulary

  // ---- levels ----------------------------------------------------------------------------

  /** A level at the place of the minimum or after it; without a minimum, or with one that is no level, any. */
  predicate NotBelow(level: string, lo: string) {
    forall a | 0 <= a < 6 && CODES[a] == lo :: exists k | a <= k < 6 :: CODES[k] == level
  }

  /** A level at the place of the maximum or before it, or one that has no place; without a maximum, any. */
  predicate NotAbove(level: string, hi: string) {
    hi == "" || forall k | 0 <= k < 6 && CODES[k] == level :: exists b | k <= b < 6 :: CODES[b] == hi
  }

  predicate Inside(w: Word, p: Plan) { NotBelow(w.level, p.minLevel) && NotAbove(w.level, p.maxLevel) }

  lemma RankIs(code: string, k: nat)
    requires k < 6
    ensures LevelRank(code) == k <==> CODES[k] == code
  {
    assert CODES == ["A1", "A2", "B1", "B2", "C1", "C2"];
  }

  lemma InRangeIff(level: string, lo: string, hi: string)
    ensures InRange(level, lo, hi) <==> NotBelow(level, lo) && NotAbove(level, hi)
  {
    forall code, k: nat | k < 6 ensures LevelRank(code) == k <==> CODES[k] == code { RankIs(code, k); }
    hide LevelRank;
    var r, a, b := LevelRank(level), LevelRank(lo), LevelRank(hi);
    assert NotBelow(level, lo) <==> a < 0 || r >= a by {
      if a >= 0 { assert CODES[a] == lo; }
      if r >= 0 { assert CODES[r] == level; }
    }
    assert NotAbove(level, hi) <==> hi == "" || r <= b by {
      if b >= 0 { assert CODES[b] == hi; }
      if r >= 0 { assert CODES[r] == level; }
    }
    assert lo == "" ==> a < 0 by { assert forall k | 0 <= k < 6 :: CODES[k] != ""; }
  }

  // ---- what every run keeps --------------------------------------------------------------

  function HowMany(rows: seq<Word>, source: Source): nat {
    if rows == [] then 0
    else var n := |rows| - 1; HowMany(rows[..n], source) + if rows[n].source == source then 1 else 0
  }

  lemma {:induction false} SourcesAddUp(rows: seq<Word>)
    ensures HowMany(rows, Listed) + HowMany(rows, Checked) + HowMany(rows, Unverified) == |rows|
  {
    if rows != [] { SourcesAddUp(rows[..|rows| - 1]); }
  }

  predicate IsTally(t: Tally, rows: seq<Word>) {
    && t.listed == HowMany(rows, Listed) && t.checked == HowMany(rows, Checked)
    && t.unverified == HowMany(rows, Unverified)
  }

  /** Never more than the target, as many new rows as counted, and the per-source counts are theirs. */
  predicate Counted(s: Run, p: Plan, base: nat) {
    && base <= |s.library|
    && s.added == |s.library| - base <= Target(p)
    && IsTally(s.sources, s.library[base..])
  }

  /** Every new row is within the plan's levels. */
  predicate LevelsOk(s: Run, p: Plan, base: nat)
    requires base <= |s.library|
  {
    forall i | base <= i < |s.library| :: Inside(s.library[i], p)
  }

  /** No new row is spelled like another new one or like an entry known at the start. */
  predicate SpellingsOk(s: Run, start: map<string, string>, base: nat)
    requires base <= |s.library|
  {
    && (forall i | base <= i < |s.library| ::
          Known(s.seen, SpellingKey(s.library[i].term)) && !Known(start, SpellingKey(s.library[i].term)))
    && (forall i, j | base <= i < j < |s.library| :: SpellingKey(s.library[i].term) != SpellingKey(s.library[j].term))
  }

  // The unique index on (lower(term), part_of_speech), as far as new rows go.
  predicate IndexOk(s: Run, base: nat)
    requires base <= |s.library|
  {
    forall i, j | 0 <= i < j < |s.library| && base <= j ::
      ToLower(s.library[i].term) != ToLower(s.library[j].term) || s.library[i].pos != s.library[j].pos
  }

  ghost predicate KnowsAll(s: Run, start: map<string, string>) {
    forall k | Known(start, k) :: Known(s.seen, k)
  }

  ghost predicate RunOk(s: Run, p: Plan, start: Run) {
    var base := |start.library|;
    && Counted(s, p, base) && s.library[..base] == start.library
    && LevelsOk(s, p, base) && SpellingsOk(s, start.seen, base) && IndexOk(s, base) && KnowsAll(s, start.seen)
  }

  lemma TallyGrows(t: Tally, rows: seq<Word>, w: Word)
    requires IsTally(t, rows)
    ensures IsTally(Bump(t, w.source), rows + [w])
  {
    assert (rows + [w])[..|rows|] == rows;
  }

  lemma OneMoreRow(s: Run, s': Run, p: Plan, w: Word, base: nat)
    requires Counted(s, p, base) && s.added < Target(p)
    requires s'.library == s.library + [w] && s'.added == s.added + 1 && s'.sources == Bump(s.sources, w.source)
    ensures Counted(s', p, base)
  {
    hide IsTally, Bump, Target;
    assert s'.library[base..] == s.library[base..] + [w];
    TallyGrows(s.sources, s.library[base..], w);
  }
  lemma RowIsFresh(s: Run, s': Run, w: Word, start: map<string, string>, base: nat)
    requires base <= |s.library| && SpellingsOk(s, start, base) && KnowsAll(s, start)
    requires !Known(s.seen, SpellingKey(w.term)) && w.term != ""
    requires s'.library == s.library + [w] && s'.seen == s.seen[SpellingKey(w.term) := ToLower(w.term)]
    ensures SpellingsOk(s', start, base) && KnowsAll(s', start)
  {
    hide SpellingKey, ToLower;
    assert ToLower(w.term) != "" by { assert |ToLower(w.term)| == |w.term|; }
  }

  lemma NotInLibrary(s: Run, s': Run, w: Word, base: nat)
    requires base <= |s.library| && IndexOk(s, base) && !InLibrary(s.library, w)
    requires s'.library == s.library + [w]
    ensures IndexOk(s', base)
  {
    hide ToLower;
    assert forall i | 0 <= i < |s.library| :: s.library[i] in s.library;
  }

  // The run after a word has been stored.
  function WithRow(s: Run, w: Word): Run {
    s.(library := s.library + [w], seen := s.seen[SpellingKey(w.term) := ToLower(w.term)], added := s.added + 1,
       sources := Bump(s.sources, w.source))
  }

  lemma RowKeepsRunOk(s: Run, p: Plan, w: Word, start: Run)
    requires RunOk(s, p, start) && s.added < Target(p) && w.term != ""
    requires !Known(s.seen, SpellingKey(w.term)) && InRange(w.level, p.minLevel, p.maxLevel) && !InLibrary(s.library, w)
    ensures RunOk(WithRow(s, w), p, start)
  {
    var s', base := WithRow(s, w), |start.library|;
    assert base <= |s.library| && s'.library[..base] == s.library[..base];
    InRangeIff(w.level, p.minLevel, p.maxLevel);
    assert LevelsOk(s', p, base) by { hide InRange, NotBelow, NotAbove; }
    hide SpellingKey, ToLower, IsTally, Inside, InRange, Counted, LevelsOk, SpellingsOk, IndexOk, InLibrary, Target,
        KnowsAll;
    OneMoreRow(s, s', p, w, base);
    RowIsFresh(s, s', w, start.seen, base);
    NotInLibrary(s, s', w, base);
  }

  lemma WordKeepsRunOk(s: Run, p: Plan, w: Word, fails: bool, start: Run)
    requires RunOk(s, p, start) && s.added < Target(p) && w.term != ""
    ensures RunOk(StoreWord(s, p, w, fails), p, start)
  {
    hide SpellingKey, ToLower, InRange, RunOk, InLibrary, Target, Bump;
    if Writes(s, p, w) && !fails && !InLibrary(s.library, w) {
      RowKeepsRunOk(s, p, w, start);
    } else {
      SameRows(s, StoreWord(s, p, w, fails), p, w, fails, start);
    }
  }

  // A word that is not stored changes no row; its key may become known.
  lemma SameRows(s: Run, s': Run, p: Plan, w: Word, fails: bool, start: Run)
    requires RunOk(s, p, start) && w.term != ""
    requires s' == StoreWord(s, p, w, fails) && s'.library == s.library
    ensures RunOk(s', p, start)
  {
    hide SpellingKey, InRange, InLibrary, IsTally, Inside;
    assert |ToLower(w.term)| == |w.term|;
    assert s'.seen == s.seen || s'.seen == s.seen[SpellingKey(w.term) := ToLower(w.term)];
    hide ToLower;
    assert forall k | Known(s.seen, k) :: Known(s'.seen, k);
  }

  predicate HaveTerms(words: seq<Word>) { forall w | w in words :: w.term != "" }

  lemma {:induction false} BatchKeepsRunOk(s: Run, p: Plan, words: seq<Word>, fault: nat, start: Run)
    requires RunOk(s, p, start) && HaveTerms(words)
    ensures RunOk(StoreBatch(s, p, words, fault).0, p, start)
  {
    if words != [] {
      hide RunOk, StoreWord, Writes;
      var n := |words| - 1;
      assert words[n] in words && forall w | w in words[..n] :: w in words;
      BatchKeepsRunOk(s, p, words[..n], fault, start);
      var (before, halted) := StoreBatch(s, p, words[..n], fault);
      if !Stops(before, p, halted) { WordKeepsRunOk(before, p, words[n], fault == n, start); }
    }
  }

  /** Review keeps exactly the entries it has a verdict for, keeping them, of the shape their kind needs. */
  lemma {:induction false} ReviewedAre(words: seq<Word>, verdicts: Verdicts, kind: string)
    ensures forall w ::
              w in Reviewed(words, verdicts, kind)
              <==> && w in words && ToLower(w.term) in verdicts && verdicts[ToLower(w.term)] && FitsKind(w.term, kind)
  {
    hide FitsKind, ToLower;
    if words != [] {
      ReviewedAre(words[..|words| - 1], verdicts, kind);
      assert words == words[..|words| - 1] + [words[|words| - 1]];
    }
  }

  lemma CountersDoNotMatter(s: Run, p: Plan, start: Run, failed: nat, rejected: nat)
    requires RunOk(s, p, start)
    ensures RunOk(s.(failed := failed, rejected := rejected), p, start)
  {
    hide SpellingKey, ToLower, IsTally, Inside;
  }

  // Settling and reviewing leave the terms of a good batch as they are.
  lemma WrittenHaveTerms(p: Plan, excluded: set<string>, raw: seq<Raw>)
    ensures HaveTerms(Written(p, excluded, raw))
  {
    hide KindOf, UsableWords, OfKind;
    UsableWordsAreGood(raw, excluded);
    OfKindIs(UsableWords(raw, excluded), if Kind(p) in {PHRASE, COLLOCATION} then Kind(p) else WORD);
  }

  lemma SettledHaveTerms(words: seq<Word>, listed: Listing, second: Option<map<string, string>>)
    requires HaveTerms(words)
    ensures HaveTerms(AllSettled(words, listed, second))
  {
    forall w | w in AllSettled(words, listed, second) ensures w.term != "" {
      var i :| 0 <= i < |words| && AllSettled(words, listed, second)[i] == w;
      SettledLevels(words[i], listed, second);
      assert words[i] in words;
    }
  }

  lemma WordsKeepRunOk(s: Run, p: Plan, settled: seq<Word>, review: Review, fault: nat, start: Run)
    requires RunOk(s, p, start) && HaveTerms(settled)
    ensures RunOk(TakeWords(s, p, settled, review, fault), p, start)
  {
    hide RunOk, StoreBatch, Reviewed;
    match review {
      case Unreviewed => BatchKeepsRunOk(s, p, settled, fault, start);
      case ReviewFailed => CountersDoNotMatter(s, p, start, s.failed + 1, s.rejected + |settled|);
      case Verdict(v) =>
        var kept := Reviewed(settled, v, Kind(p));
        ReviewedAre(settled, v, Kind(p));
        CountersDoNotMatter(s, p, start, s.failed, s.rejected + |settled| - |kept|);
        BatchKeepsRunOk(s.(rejected := s.rejected + |settled| - |kept|), p, kept, fault, start);
    }
  }

  lemma AnswerKeepsRunOk(s: Run, p: Plan, excluded: set<string>, a: Answer, start: Run)
    requires RunOk(s, p, start)
    ensures RunOk(Take(s, p, excluded, a), p, start)
  {
    hide RunOk, TakeWords, AllSettled, Written, HaveTerms;
    CountersDoNotMatter(s, p, start, s.failed + 1, s.rejected);
    if a.Came? {
      WrittenHaveTerms(p, excluded, a.raw);
      SettledHaveTerms(Written(p, excluded, a.raw), a.listed, a.second);
      WordsKeepRunOk(s, p, AllSettled(Written(p, excluded, a.raw), a.listed, a.second), a.review, a.fault, start);
    }
  }

  lemma {:induction false} WaveKeepsRunOk(s: Run, p: Plan, excluded: set<string>, answers: seq<Answer>, start: Run)
    requires RunOk(s, p, start)
    ensures RunOk(Wave(s, p, excluded, answers), p, start)
  {
    if answers != [] {
      hide RunOk, Take;
      var n := |answers| - 1;
      WaveKeepsRunOk(s, p, excluded, answers[..n], start);
      AnswerKeepsRunOk(Wave(s, p, excluded, answers[..n]), p, excluded, answers[n], start);
    }
  }

  lemma {:induction false} WavesKeepRunOk(s: Run, p: Plan, answers: seq<seq<Answer>>, start: Run)
    requires RunOk(s, p, start)
    ensures RunOk(Waves(s, p, answers), p, start)
  {
    if answers != [] {
      hide RunOk, Wave, Finished;
      var n := |answers| - 1;
      WavesKeepRunOk(s, p, answers[..n], start);
      var before := Waves(s, p, answers[..n]);
      if !Finished(before, p) { WaveKeepsRunOk(before, p, Excluded(before), answers[n], start); }
    }
  }

  /** Whatever the writer, the checkers and the database do, and in whatever order the batches of each
      wave are stored: at most the number asked for is added, one at least and a hundred at most; the new rows
      are exactly the ones counted, by source, each within the levels asked for, and none is spelled like
      another or like a listed entry. */
  lemma EveryRunIsOk(library: seq<Word>, exclude: seq<string>, p: Plan, answers: seq<seq<Answer>>)
    requires |answers| == WAVES
    ensures RunOk(WholeRun(library, exclude, p, answers), p, Begin(library, exclude))
    ensures var s := WholeRun(library, exclude, p, answers);
            && s.added == s.sources.listed + s.sources.checked + s.sources.unverified
            && s.added <= 100 && (s.added <= p.count || s.added <= 1)
  {
    hide Waves, SpellingKey, ToLower, SeenFrom;
    var start := Begin(library, exclude);
    assert start.library[|library|..] == [] && start.library[..|library|] == library;
    assert RunOk(start, p, start);
    WavesKeepRunOk(start, p, answers, start);
    var s := WholeRun(library, exclude, p, answers);
    SourcesAddUp(s.library[|library|..]);
  }

  // ---- which entries are usable ----------------------------------------------------------

  const PHRASES := ["phrasal verb", "idiom", "phrase"]
  const COMBINATIONS :=
    ["verb + noun", "adjective + noun", "adverb + adjective", "adverb + verb", "noun + noun", "verb + preposition",
     "noun + preposition", "verb + adverb"]
  const CLASSES :=
    ["noun", "verb", "adjective", "adverb", "preposition", "conjunction", "pronoun", "determiner", "exclamation"]

  lemma KindIs(pos: string)
    ensures KnownPos(pos) <==> pos in CLASSES || pos in PHRASES || pos in COMBINATIONS
    ensures KindOf(pos) == "phrase" <==> pos in PHRASES
    ensures KindOf(pos) == "collocation" <==> pos in COMBINATIONS
    ensures pos !in PHRASES && pos !in COMBINATIONS ==> KindOf(pos) == "word"
  {
    assert PHRASES == PHRASE_TYPES && COMBINATIONS == PATTERNS && CLASSES == WORD_CLASSES;
    if pos in PATTERNS { assert '+' in pos && pos !in PHRASE_TYPES by { PatternsHavePlus(pos); } }
  }

  lemma PatternsHavePlus(pos: string)
    requires pos in PATTERNS
    ensures '+' in pos && pos !in PHRASE_TYPES
  {
    assert "verb + noun"[5] == "adjective + noun"[10] == "adverb + adjective"[7] == "adverb + verb"[7] == '+';
    assert "noun + noun"[5] == "verb + preposition"[5] == "noun + preposition"[5] == "verb + adverb"[5] == '+';
  }

  /** A single word; for a phrase or a combination two words or more, not counting a "to" in front. */
  predicate HasShape(term: string, several: bool) {
    var words := Fields(term);
    if several then |words| >= if words != [] && ToLower(words[0]) == "to" then 3 else 2 else |words| == 1
  }

  lemma FitsKindIff(term: string, kind: string)
    ensures FitsKind(term, kind) <==> HasShape(term, kind == "phrase" || kind == "collocation")
  {
    LowerFields(term);
    hide Fields, ToLower;
  }

  predicate ExplainedAt(w: Raw, c: string) { c in CODES && c in w.content && !AllSpaces(w.content[c]) }

  predicate Explained(w: Raw) { (exists c | c in CODES :: ExplainedAt(w, c)) || !AllSpaces(w.definition) }

  /** An explanation of a kept entry: at each level that has one, trimmed; without any, the definition, at the
      entry's level or B1. */
  ghost predicate ExplainedAs(content: map<string, string>, w: Raw) {
    if exists c | c in CODES :: ExplainedAt(w, c) then
      && (forall c :: c in content <==> ExplainedAt(w, c))
      && (forall c | c in content :: content[c] == Trim(w.content[c]))
    else content == map[(if Code(w.level) == "" then "B1" else Code(w.level)) := Trim(w.definition)]
  }

  lemma LevelTextsAre(w: Raw)
    ensures forall c :: c in LevelTexts(w) <==> ExplainedAt(w, c)
    ensures forall c | c in LevelTexts(w) :: LevelTexts(w)[c] == Trim(w.content[c])
    ensures LevelTexts(w) != map[] <==> exists c | c in CODES :: ExplainedAt(w, c)
  {
    forall c | c in w.content
      ensures Trim(w.content[c]) != "" <==> !AllSpaces(w.content[c])
    {
      TrimOfSpaces(w.content[c]);
    }
    hide AllSpaces, Trim, CODES;
    assert forall c :: c in LevelTexts(w) <==> ExplainedAt(w, c);
    if c :| c in CODES && ExplainedAt(w, c) { assert c in LevelTexts(w); }
    if LevelTexts(w) != map[] {
      var c :| c in LevelTexts(w);
      assert ExplainedAt(w, c);
    }
  }

  lemma ExplanationsAre(w: Raw)
    ensures Explanations(w) != map[] <==> Explained(w)
    ensures Explained(w) ==> ExplainedAs(Explanations(w), w)
  {
    LevelTextsAre(w);
    TrimOfSpaces(w.definition);
    hide AllSpaces, Trim, Code, CODES, LevelTexts, ExplainedAt;
    if LevelTexts(w) == map[] && Trim(w.definition) != "" {
      assert (if Code(w.level) == "" then "B1" else Code(w.level)) in Explanations(w);
    }
  }

  // A code of one of the six levels, or of one below the top with a plus.
  predicate Readable(code: string) { code in CODES || exists k | 0 <= k < 5 :: code == CODES[k] + "+" }

  lemma ReadableIff(code: string)
    ensures Readable(code) <==> Parses(code)
  {
    if k :| 0 <= k < 5 && code == CODES[k] + "+" { WithPlus(code, k); }
    if Parses(code) && code !in CODES {
      var front := code[..|code| - 1];
      var k :| 0 <= k < 6 && CODES[k] == front;
      assert code == front + "+" && "C2+" == "C2" + "+";
    }
  }

  /** An entry that can go in the library: its term is not blank, it is of a known part of speech and its shape, and
      it is explained. */
  predicate CanBeListed(w: Raw) {
    var several := w.pos in PHRASES || w.pos in COMBINATIONS;
    !AllSpaces(w.term) && (w.pos in CLASSES || several) && HasShape(Trim(w.term), several) && Explained(w)
  }

  /** What it becomes there: its term trimmed, its explanations, and its level or, if that cannot be read, the
      explained one nearest to B1. */
  ghost predicate ListedAs(r: Word, w: Raw) {
    && r.term == Trim(w.term) && r.pos == w.pos && r.source == Unverified && ExplainedAs(r.content, w)
    && r.level == if Readable(Code(w.level)) then Code(w.level) else NearestLevel(r.content, "B1")
  }

  lemma UsableIff(w: Raw, excluded: set<string>, seen: set<string>)
    ensures var r, key := UsableWord(w, excluded, seen), ToLower(Trim(w.term));
            && (r.Some? <==> CanBeListed(w) && key !in excluded && key !in seen)
            && (r.Some? ==> ListedAs(r.value, w))
  {
    TrimOfSpaces(w.term);
    ExplanationsAre(w);
    KindIs(w.pos);
    FitsKindIff(Trim(w.term), KindOf(w.pos));
    ReadableIff(Code(w.level));
    hide HasShape, PHRASES, COMBINATIONS, CLASSES, AllSpaces, Trim, ToLower, KnownPos, FitsKind, KindOf, Explanations,
      Explained, ExplainedAs, Parses, Readable, Code, NearestLevel;
  }

  function TermOf(w: Raw): string { ToLower(Trim(w.term)) }

  lemma OneMoreTerm(words: seq<Word>, w: Word)
    ensures TermsOf(words + [w]) == TermsOf(words) + {ToLower(w.term)}
  {
    hide ToLower;
    assert w in words + [w] && forall x | x in words :: x in words + [w];
    assert forall x | x in words + [w] :: x in words || x == w;
  }

  // What the last entry of a batch adds.
  lemma LastUsable(raw: seq<Raw>, excluded: set<string>) returns (more: seq<Word>)
    requires raw != []
    ensures var n := |raw| - 1;
            var kept := UsableWords(raw[..n], excluded);
            && UsableWords(raw, excluded) == kept + more
            && TermsOf(UsableWords(raw, excluded)) == TermsOf(kept) + (if more == [] then {} else {TermOf(raw[n])})
            && |more| <= 1 && (forall r | r in more :: ListedAs(r, raw[n]))
            && (more != []
                <==> CanBeListed(raw[n]) && TermOf(raw[n]) !in excluded && TermOf(raw[n]) !in TermsOf(kept))
  {
    hide CanBeListed, ListedAs, UsableWord, ToLower, Trim, TermsOf;
    var n := |raw| - 1;
    var kept := UsableWords(raw[..n], excluded);
    UsableIff(raw[n], excluded, TermsOf(kept));
    match UsableWord(raw[n], excluded, TermsOf(kept)) {
      case None => more := [];
      case Some(w) =>
        OneMoreTerm(kept, w);
        ListedTerm(w, raw[n]);
        more := [w];
    }
  }

  function TermsAt(raw: seq<Raw>, at: seq<nat>): set<string>
    requires Places(at, |raw|)
  {
    set i | 0 <= i < |at| :: TermOf(raw[at[i]])
  }

  // The entry at k does not repeat one kept before it.
  predicate FirstOfTerm(raw: seq<Raw>, at: seq<nat>, k: nat)
    requires Places(at, |raw|) && k < |raw|
  {
    forall i | 0 <= i < |at| && at[i] < k :: TermOf(raw[at[i]]) != TermOf(raw[k])
  }

  predicate KeptEntries(raw: seq<Raw>, excluded: set<string>, at: seq<nat>) {
    && Places(at, |raw|)
    && forall k | 0 <= k < |raw| ::
         k in at <==> CanBeListed(raw[k]) && TermOf(raw[k]) !in excluded && FirstOfTerm(raw, at, k)
  }

  lemma KeptEntriesGrow(raw: seq<Raw>, excluded: set<string>, before: seq<nat>, at: seq<nat>)
    requires raw != [] && KeptEntries(raw[..|raw| - 1], excluded, before)
    requires at == before || at == before + [|raw| - 1]
    requires var n := |raw| - 1;
             at != before
             <==> CanBeListed(raw[n]) && TermOf(raw[n]) !in excluded && TermOf(raw[n]) !in TermsAt(raw[..n], before)
    ensures KeptEntries(raw, excluded, at)
  {
    hide CanBeListed, TermOf;
    var n := |raw| - 1;
    PlacesGrow(raw, before, at);
    assert TermsAt(raw[..n], before) == TermsAt(raw, before);
    hide TermsAt, FirstOfTerm;
    forall k | 0 <= k < |raw|
      ensures k in at <==> CanBeListed(raw[k]) && TermOf(raw[k]) !in excluded && FirstOfTerm(raw, at, k)
    {
      assert k in at <==> if k < n then k in before else at != before;
      if k < n { assert raw[..n][k] == raw[k]; }
    }
  }

  lemma SameTerms(raw: seq<Raw>, before: seq<nat>, at: seq<nat>)
    requires raw != [] && Places(before, |raw| - 1) && (at == before || at == before + [|raw| - 1])
    ensures Places(at, |raw|)
    ensures TermsAt(raw, at) == TermsAt(raw[..|raw| - 1], before) + if at == before then {}
            else {TermOf(raw[|raw| - 1])}
  {
    hide TermOf;
    PlacesGrow(raw, before, at);
    assert TermsAt(raw[..|raw| - 1], before) == TermsAt(raw, before);
  }

  /** Of a batch exactly the entries are kept, in order, that can be listed, are not excluded, and do not repeat the
      term of one kept before, in any case. */
  lemma {:induction false} UsableWordsAre(raw: seq<Raw>, excluded: set<string>) returns (at: seq<nat>)
    ensures var r := UsableWords(raw, excluded);
            && |at| == |r| && KeptEntries(raw, excluded, at)
            && (forall i | 0 <= i < |r| :: ListedAs(r[i], raw[at[i]]))
            && TermsOf(r) == TermsAt(raw, at)
  {
    hide CanBeListed, ListedAs, ToLower, Trim, TermOf;
    if raw == [] {
      return [];
    }
    hide UsableWords, TermsOf, FirstOfTerm;
    var n := |raw| - 1;
    var before := UsableWordsAre(raw[..n], excluded);
    var more := LastUsable(raw, excluded);
    at := if more == [] then before else before + [n];
    hide TermsAt;
    SameTerms(raw, before, at);
    KeptEntriesGrow(raw, excluded, before, at);
  }

  lemma PlacesGrow(raw: seq<Raw>, before: seq<nat>, at: seq<nat>)
    requires raw != [] && Places(before, |raw| - 1) && (at == before || at == before + [|raw| - 1])
    ensures Places(before, |raw|) && Places(at, |raw|)
    ensures var n := |raw| - 1;
            && (forall k: nat | k < n :: FirstOfTerm(raw, at, k) <==> FirstOfTerm(raw[..n], before, k))
            && (FirstOfTerm(raw, at, n) <==> TermOf(raw[n]) !in TermsAt(raw, before))
            && TermsAt(raw, at) == TermsAt(raw, before) + (if at == before then {} else {TermOf(raw[n])})
  {
    hide TermOf;
    var n := |raw| - 1;
    forall k: nat | k < n ensures FirstOfTerm(raw, at, k) <==> FirstOfTerm(raw[..n], before, k) {
      if FirstOfTerm(raw, at, k) {
        forall i | 0 <= i < |before| && before[i] < k ensures TermOf(raw[..n][before[i]]) != TermOf(raw[..n][k]) {
          assert at[i] == before[i];
        }
      }
    }
    if FirstOfTerm(raw, at, n) {
      forall i | 0 <= i < |before| ensures TermOf(raw[before[i]]) != TermOf(raw[n]) { assert at[i] == before[i]; }
    }
    assert forall t :: t in TermsAt(raw, before) ==> t in TermsAt(raw, at) by {
      forall t | t in TermsAt(raw, before) ensures t in TermsAt(raw, at) {
        var i :| 0 <= i < |before| && TermOf(raw[before[i]]) == t;
        assert at[i] == before[i];
      }
    }
    if at != before { assert at[|before|] == n; }
  }

  lemma ListedTerm(r: Word, w: Raw)
    requires ListedAs(r, w)
    ensures ToLower(r.term) == TermOf(w)
  {
    hide ToLower, Trim;
  }

  /** A batch holds the usable entries of the kind that was asked for: phrases, combinations, or else words. */
  lemma WrittenAre(p: Plan, excluded: set<string>, raw: seq<Raw>, w: Word)
    ensures w in Written(p, excluded, raw)
            <==> && w in UsableWords(raw, excluded)
                 && (p.kind == "phrase" ==> w.pos in PHRASES)
                 && (p.kind == "collocation" ==> w.pos in COMBINATIONS)
                 && (p.kind != "phrase" && p.kind != "collocation" ==> w.pos !in PHRASES && w.pos !in COMBINATIONS)
  {
    KindIs(w.pos);
    OfKindIs(UsableWords(raw, excluded), if Kind(p) in {PHRASE, COLLOCATION} then Kind(p) else WORD);
    hide UsableWords, OfKind, PHRASES, COMBINATIONS, KnownPos, CLASSES;
  }

  // The level at place k, d steps from the wanted one.
  predicate Nearer(at: nat, k: nat, j: nat) {
    var dk, dj := if k < at then at - k else k - at, if j < at then at - j else j - at;
    dk < dj || (dk == dj && k <= j)
  }

  lemma {:induction false} NearestFromIs(content: map<string, string>, at: nat, d: nat)
    requires at < 6 && d <= 6
    requires forall k: nat | k < 6 && CODES[k] in content :: (if k < at then at - k else k - at) >= d
    ensures var r := NearestFrom(content, at, d);
            && (r.None? ==> forall k | 0 <= k < 6 :: CODES[k] !in content)
            && (r.Some? ==>
                  exists k: nat | k < 6 :: r.value == CODES[k] && CODES[k] in content
                                           && forall j: nat | j < 6 && CODES[j] in content :: Nearer(at, k, j))
    decreases 6 - d
  {
    if d < 6 && !(at >= d && CODES[at - d] in content) && !(at + d < 6 && CODES[at + d] in content) {
      assert forall k: nat | k < 6 && CODES[k] in content :: k != at - d && k != at + d;
      NearestFromIs(content, at, d + 1);
    } else if d < 6 {
      var k := if at >= d && CODES[at - d] in content then at - d else at + d;
      assert CODES[k] in content;
    }
  }

  /** An entry with a level that cannot be read goes to the explained level nearest to B1, of two equally near the
      lower one. */
  lemma NearestIs(content: map<string, string>)
    ensures var r := NearestLevel(content, "B1");
            && ((forall k | 0 <= k < 6 :: CODES[k] !in content) ==> r == "B1")
            && ((exists k | 0 <= k < 6 :: CODES[k] in content) ==>
                  exists k: nat | k < 6 :: r == CODES[k] && CODES[k] in content
                                           && forall j: nat | j < 6 && CODES[j] in content :: Nearer(2, k, j))
  {
    assert CODES[2] == "B1" && LevelRank("B1") == 2;
    if "B1" !in content { NearestFromIs(content, 2, 1); }
  }

  lemma {:induction false} NothingFolded(n: nat)
    requires n <= |VARIANTS|
    ensures Folded("", n) == ""
  {
    if n > 0 { NothingFolded(n - 1); }
  }

  lemma KeyOfNothing()
    ensures SpellingKey("") == ""
  {
    assert ToLower("") == "" && Fields("") == [] && Join([], " ") == "";
    NothingFolded(|VARIANTS|);
  }

  /** Every listed entry that is spelled with anything is known by its spelling from the start. */
  lemma {:induction false} ListedAreKnown(exclude: seq<string>, t: string)
    requires t in exclude && SpellingKey(t) != ""
    ensures Known(SeenFrom(exclude), SpellingKey(t))
  {
    hide SpellingKey;
    KeyOfNothing();
    var n := |exclude| - 1;
    if t != exclude[n] {
      assert t in exclude[..n];
      ListedAreKnown(exclude[..n], t);
    }
  }

  // How many of a batch the review gives no verdict to keep, or finds of another shape.
  function DroppedBy(verdicts: Verdicts, kind: string, words: seq<Word>): nat {
    if words == [] then 0
    else
      var n := |words| - 1;
      var t := ToLower(words[n].term);
      DroppedBy(verdicts, kind, words[..n])
      + if t in verdicts && verdicts[t] && HasShape(words[n].term, kind == "phrase" || kind == "collocation") then 0
        else 1
  }

  lemma {:induction false} ReviewDrops(verdicts: Verdicts, kind: string, words: seq<Word>)
    ensures |Reviewed(words, verdicts, kind)| + DroppedBy(verdicts, kind, words) == |words|
  {
    hide ToLower, FitsKind, HasShape;
    if words != [] {
      var n := |words| - 1;
      ReviewDrops(verdicts, kind, words[..n]);
      FitsKindIff(words[n].term, kind);
    }
  }

  lemma {:induction false} SettlingDropsNothing(verdicts: Verdicts, kind: string, words: seq<Word>, listed: Listing,
      second: Option<map<string, string>>)
    ensures DroppedBy(verdicts, kind, AllSettled(words, listed, second)) == DroppedBy(verdicts, kind, words)
  {
    hide ToLower, HasShape, Settled;
    if words != [] {
      var n := |words| - 1;
      SettlingDropsNothing(verdicts, kind, words[..n], listed, second);
      SettledLevels(words[n], listed, second);
      assert AllSettled(words, listed, second)[..n] == AllSettled(words[..n], listed, second);
    }
  }

  // How many of the words it was given a store looked at.
  function Looked(s: Run, t: Run): int { t.added + t.skipped + t.outOfRange - s.added - s.skipped - s.outOfRange }

  /** No answer goes unaccounted for. A batch without a usable word fails, as does one that cannot be reviewed;
      otherwise each of its words is rejected by the review or gets to the store, where each is added, skipped or out
      of range unless the number asked for is reached or a write fails. */
  lemma AnswerAccounts(s: Run, p: Plan, excluded: set<string>, a: Answer)
    ensures var t, words := Take(s, p, excluded, a), if a.Came? then Written(p, excluded, a.raw) else [];
            var kind := if p.kind == "" then "word" else p.kind;
            && t.failed == s.failed + (if words == [] || a.review.ReviewFailed? then 1 else 0)
            && t.rejected == s.rejected + (if words == [] || a.review.Unreviewed? then 0
                                           else if a.review.ReviewFailed? then |words|
                                           else DroppedBy(a.review.verdicts, kind, words))
            && 0 <= Looked(s, t) && Looked(s, t) + t.rejected - s.rejected <= |words|
            && (words != [] && !a.review.ReviewFailed? ==>
                  || Looked(s, t) + t.rejected - s.rejected == |words| || t.broken
                  || t.added >= 100 || (t.added >= p.count && t.added >= 1))
  {
    hide Written, Reviewed, DroppedBy, StoreBatch, Settled;
    if a.Came? && Written(p, excluded, a.raw) != [] {
      var settled := AllSettled(Written(p, excluded, a.raw), a.listed, a.second);
      assert |settled| == |Written(p, excluded, a.raw)|;
      hide AllSettled;
      BatchAccounts(s, p, settled, a.fault);
      OtherCountersStay(s, p, settled, a.fault);
      if a.review.Verdict? {
        var kept := Reviewed(settled, a.review.verdicts, Kind(p));
        ReviewDrops(a.review.verdicts, Kind(p), settled);
        SettlingDropsNothing(a.review.verdicts, Kind(p), Written(p, excluded, a.raw), a.listed, a.second);
        BatchAccounts(s.(rejected := s.rejected + |settled| - |kept|), p, kept, a.fault);
        OtherCountersStay(s.(rejected := s.rejected + |settled| - |kept|), p, kept, a.fault);
      }
    }
  }

  lemma {:induction false} OtherCountersStay(s: Run, p: Plan, words: seq<Word>, fault: nat)
    ensures var t := StoreBatch(s, p, words, fault).0; t.failed == s.failed && t.rejected == s.rejected
  {
    if words != [] {
      OtherCountersStay(s, p, words[..|words| - 1], fault);
      hide SpellingKey, ToLower, InRange, InLibrary, Writes, Stops, Bump;
    }
  }

  /** What storing one word does. Known by its spelling it is skipped; otherwise outside the plan's levels it is
      counted as that; otherwise, unless the write fails, it is added - or skipped if the library has it. */
  lemma StoredWordIs(s: Run, p: Plan, w: Word, fails: bool)
    ensures var t, key := StoreWord(s, p, w, fails), SpellingKey(w.term);
            var known := key in s.seen && s.seen[key] != "";
            var had := exists r | r in s.library :: ToLower(r.term) == ToLower(w.term) && r.pos == w.pos;
            var adds := !known && Inside(w, p) && !fails && !had;
            && t.outOfRange == s.outOfRange + (if !known && !Inside(w, p) then 1 else 0)
            && t.skipped == s.skipped + (if known || (Inside(w, p) && !fails && had) then 1 else 0)
            && t.broken == (s.broken || (!known && Inside(w, p) && fails))
            && t.library == s.library + (if adds then [w] else [])
            && t.added == s.added + (if adds then 1 else 0)
            && t.sources.listed == s.sources.listed + (if adds && w.source == Listed then 1 else 0)
            && t.sources.checked == s.sources.checked + (if adds && w.source == Checked then 1 else 0)
            && t.sources.unverified == s.sources.unverified + (if adds && w.source == Unverified then 1 else 0)
            && t.seen == (if known || !Inside(w, p) || fails then s.seen else s.seen[key := ToLower(w.term)])
  {
    InRangeIff(w.level, p.minLevel, p.maxLevel);
    hide SpellingKey, ToLower, InRange, NotBelow, NotAbove;
    assert s.library + [] == s.library;
  }

  /** A run goes on wave by wave until the number asked for, or a hundred, is reached or a write has failed; a wave
      takes its answers one by one, and tells them all what was known when it began. */
  lemma RunGoesOn(library: seq<Word>, exclude: seq<string>, p: Plan, waves: seq<seq<Answer>>, answers: seq<Answer>,
      a: Answer)
    ensures var start, none := Begin(library, exclude), Tally(0, 0, 0);
            && Waves(start, p, []) == start && start.library == library
            && start.added == start.skipped == start.outOfRange == start.failed == start.rejected == 0
            && start.sources == none && !start.broken
    ensures var before := Waves(Begin(library, exclude), p, waves);
            var over := before.broken || before.added >= 100 || (before.added >= p.count && before.added >= 1);
            var known := set k | k in before.seen :: ToLower(Trim(before.seen[k]));
            && (over ==> Waves(Begin(library, exclude), p, waves + [answers + [a]]) == before)
            && (!over ==>
                  && Waves(Begin(library, exclude), p, waves + [[]]) == before
                  && Waves(Begin(library, exclude), p, waves + [answers + [a]])
                     == Take(Waves(Begin(library, exclude), p, waves + [answers]), p, known, a))
  {
    hide Take, SeenFrom, ToLower, Trim;
    var s := Begin(library, exclude);
    var before := Waves(s, p, waves);
    WaveEnds(s, p, waves, answers + [a]);
    WaveEnds(s, p, waves, answers);
    WaveEnds(s, p, waves, []);
    assert (answers + [a])[..|answers|] == answers;
    assert Excluded(before) == set k | k in before.seen :: ToLower(Trim(before.seen[k]));
    hide Waves;
  }

  lemma WaveEnds(s: Run, p: Plan, waves: seq<seq<Answer>>, answers: seq<Answer>)
    ensures var before := Waves(s, p, waves);
            Waves(s, p, waves + [answers])
            == if before.broken || before.added >= 100 || (before.added >= p.count && before.added >= 1) then before
               else Wave(before, p, Excluded(before), answers)
  {
    hide Wave, Excluded;
    assert (waves + [answers])[..|waves|] == waves;
  }

  /** A batch within the plan's levels loses no word to them. */
  lemma {:induction false} InsideIsNeverDropped(s: Run, p: Plan, words: seq<Word>, fault: nat)
    requires forall w | w in words :: Inside(w, p)
    ensures StoreBatch(s, p, words, fault).0.outOfRange == s.outOfRange
  {
    hide StoreWord, Inside, Stops, Writes;
    if words != [] {
      var n := |words| - 1;
      assert words[n] in words && forall w | w in words[..n] :: w in words;
      InsideIsNeverDropped(s, p, words[..n], fault);
      StoredWordIs(StoreBatch(s, p, words[..n], fault).0, p, words[n], fault == n);
    }
  }

  /** No word of a batch goes uncounted: each one looked at is added, skipped or out of range, and all
      are looked at unless the target is reached or a write fails. */
  lemma {:induction false} BatchAccounts(s: Run, p: Plan, words: seq<Word>, fault: nat)
    ensures var (t, halted) := StoreBatch(s, p, words, fault);
            var looked := t.added + t.skipped + t.outOfRange - s.added - s.skipped - s.outOfRange;
            && 0 <= looked <= |words|
            && (looked == |words| || halted || t.added >= 100 || (t.added >= p.count && t.added >= 1))
            && (halted ==> t.broken) && (t.broken ==> halted || s.broken)
  {
    if words != [] {
      hide SpellingKey, ToLower, InRange, InLibrary;
      BatchAccounts(s, p, words[..|words| - 1], fault);
    }
  }

  /** A level that has no place, like one with a plus, passes every maximum and no minimum. */
  lemma UnplacedIsInsideIff(w: Word, p: Plan)
    requires w.level !in CODES
    ensures Inside(w, p) <==> p.minLevel !in CODES
  {
    if p.minLevel in CODES {
      var a :| 0 <= a < 6 && CODES[a] == p.minLevel;
      assert !NotBelow(w.level, p.minLevel);
    }
  }

  lemma WithPlus(level: string, k: nat)
    requires k < 6 && level == CODES[k] + "+"
    ensures level !in CODES && (k < 5 ==> Parses(level))
  {
    assert forall c | c in CODES :: |c| == 2;
    assert level[..2] == CODES[k] && level[2] == '+';
    assert k < 5 ==> CODES[k][0] != 'C' || CODES[k][1] != '2';
    assert "C2+"[..2] == "C2";
  }

  /** So a run up to a level stores words at any level with a plus, of which the writer's are kept up to C1+. */
  lemma PlusPassesMaximum(s: Run, p: Plan, w: Word, k: nat)
    requires k < 6 && w.level == CODES[k] + "+" && p.minLevel == ""
    requires !Known(s.seen, SpellingKey(w.term)) && !InLibrary(s.library, w)
    ensures StoreWord(s, p, w, false).library == s.library + [w]
    ensures k < 5 ==> Parses(w.level)
  {
    WithPlus(w.level, k);
    hide SpellingKey, StoreWord, Inside, Parses;
    UnplacedIsInsideIff(w, p);
    StoredWordIs(s, p, w, false);
  }
}
