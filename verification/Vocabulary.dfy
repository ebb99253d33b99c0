/** Vocabulary: a generation run over the lexicon - waves of batches whose words come back in any
    order and are stored one batch at a time.

    Models runVocabularyGeneration and what it calls in apps/api/internal/admin/vocabulary.go, and
    SpellingKey and FitsKind in apps/api/internal/ai/vocabulary.go. */
module Vocabulary {
  import opened Text
  import opened Options

  // ---- spelling --------------------------------------------------------------------------

  function ReplaceAll(s: string, from: string, to: string): string
    requires from != ""
    decreases |s|
  {
    if |s| < |from| then s
    else if s[..|from|] == from then to + ReplaceAll(s[|from|..], from, to)
    else [s[0]] + ReplaceAll(s[1..], from, to)
  }

  const VARIANTS: seq<(string, string)> :=
    [("ll", "l"), ("our", "or"), ("ise", "ize"), ("isation", "ization"),
     ("yse", "yze"), ("tre", "ter"), ("ogue", "og"), ("ence", "ense")]

  function Folded(s: string, n: nat): string
    requires n <= |VARIANTS|
  {
    if n == 0 then s else ReplaceAll(Folded(s, n - 1), VARIANTS[n - 1].0, VARIANTS[n - 1].1)
  }

  /** A term with British and American spelling folded together. */
  function SpellingKey(term: string): string {
    Folded(Join(Fields(ToLower(term)), " "), |VARIANTS|)
  }

  // ---- levels ----------------------------------------------------------------------------

  const CODES := ["A1", "A2", "B1", "B2", "C1", "C2"]

  function LevelRank(code: string): (r: int)
    ensures -1 <= r < 6
    ensures r >= 0 ==> CODES[r] == code
    ensures r == -1 ==> code !in CODES
  {
    if code == "A1" then 0 else if code == "A2" then 1 else if code == "B1" then 2
    else if code == "B2" then 3 else if code == "C1" then 4 else if code == "C2" then 5
    else -1
  }

  predicate InRange(level: string, lo: string, hi: string) {
    var r := LevelRank(level);
    (lo == "" || r >= LevelRank(lo)) && (hi == "" || r <= LevelRank(hi))
  }

  // ---- entries ---------------------------------------------------------------------------

  datatype Source = Listed | Checked | Unverified

  // content: the explanations, by level.
  datatype Word = Word(term: string, pos: string, level: string, content: map<string, string>, source: Source)

  /** Moves an entry, and its one explanation, to another level. */
  function SetLevel(w: Word, level: string): Word {
    if w.level == level then w
    else
      var content := if w.level in w.content && |w.content| == 1 then map[level := w.content[w.level]] else w.content;
      w.(level := level, content := content)
  }

  type ByPos = map<string, string>

  // The level the word list gives an entry: for its part of speech, or the only one it has.
  function ListedLevel(byPos: ByPos, pos: string): string {
    if pos in byPos && byPos[pos] != "" then byPos[pos]
    else if |byPos| == 1 then OneKey(byPos); var k :| k in byPos && forall j | j in byPos :: j == k; byPos[k]
    else ""
  }

  lemma OneKey(m: ByPos)
    requires |m| == 1
    ensures exists k :: k in m && forall j | j in m :: j == k
  {
    var k :| k in m.Keys;
    assert m.Keys == {k} by { assert |m.Keys - {k}| == 0; }
  }

  // ---- what the writer hands over --------------------------------------------------------

  const WORD := "word"
  const PHRASE := "phrase"
  const COLLOCATION := "collocation"

  const WORD_CLASSES :=
    ["noun", "verb", "adjective", "adverb", "preposition", "conjunction", "pronoun", "determiner", "exclamation"]
  const PHRASE_TYPES := ["phrasal verb", "idiom", "phrase"]
  const PATTERNS :=
    ["verb + noun", "adjective + noun", "adverb + adjective", "adverb + verb", "noun + noun", "verb + preposition",
     "noun + preposition", "verb + adverb"]

  predicate KnownPos(pos: string) { pos in WORD_CLASSES || pos in PHRASE_TYPES || pos in PATTERNS }

  function KindOf(pos: string): string {
    if pos in PHRASE_TYPES then PHRASE else if pos in PATTERNS then COLLOCATION else WORD
  }

  predicate FitsKind(term: string, kind: string) {
    var words := Fields(ToLower(term));
    if kind != PHRASE && kind != COLLOCATION then |words| == 1
    else |if words != [] && words[0] == "to" then words[1..] else words| >= 2
  }

  /** An entry as the model wrote it: nothing about it can be relied on. */
  datatype Raw = Raw(term: string, pos: string, level: string, content: map<string, string>, definition: string)

  function Code(level: string): string { ToUpper(Trim(level)) }

  // A code the level package reads: a base level, with a plus except at the top.
  predicate Parses(code: string) {
    code in CODES || (code != "" && code[|code| - 1] == '+' && code[..|code| - 1] in CODES && code != "C2+")
  }

  // The explanations that say something, at the levels there are.
  function LevelTexts(w: Raw): map<string, string> {
    map c | c in CODES && c in w.content && Trim(w.content[c]) != "" :: Trim(w.content[c])
  }

  // The plain definition if there is none.
  function Explanations(w: Raw): map<string, string> {
    if LevelTexts(w) == map[] && Trim(w.definition) != "" then
      map[(if Code(w.level) == "" then "B1" else Code(w.level)) := Trim(w.definition)]
    else LevelTexts(w)
  }

  // The place of the first level with an explanation, by distance d and more, the lower one first.
  function NearestFrom(content: map<string, string>, at: nat, d: nat): Option<string>
    requires at < 6 && d <= 6
    decreases 6 - d
  {
    if d == 6 then None
    else if at >= d && CODES[at - d] in content then Some(CODES[at - d])
    else if at + d < 6 && CODES[at + d] in content then Some(CODES[at + d])
    else NearestFrom(content, at, d + 1)
  }

  function NearestLevel(content: map<string, string>, want: string): string {
    if want in content then want
    else NearestFrom(content, if LevelRank(want) >= 0 then LevelRank(want) else 2, 1).GetOr(want)
  }

  // What is kept of an entry, if it can go in the library at all.
  function UsableWord(w: Raw, excluded: set<string>, seen: set<string>): Option<Word> {
    var term, content := Trim(w.term), Explanations(w);
    var key := ToLower(term);
    if term == "" || !KnownPos(w.pos) || key in excluded || key in seen then None
    else if !FitsKind(term, KindOf(w.pos)) || content == map[] then None
    else
      var level := if Parses(Code(w.level)) then Code(w.level) else NearestLevel(content, "B1");
      Some(Word(term, w.pos, level, content, Unverified))
  }

  function TermsOf(words: seq<Word>): set<string> { set w | w in words :: ToLower(w.term) }

  function UsableWords(raw: seq<Raw>, excluded: set<string>): seq<Word> {
    if raw == [] then []
    else
      var n := |raw| - 1;
      var kept := UsableWords(raw[..n], excluded);
      match UsableWord(raw[n], excluded, TermsOf(kept))
      case None => kept
      case Some(w) => kept + [w]
  }

  // Only entries of the kind asked for.
  function OfKind(words: seq<Word>, kind: string): seq<Word> {
    if words == [] then []
    else
      var n := |words| - 1;
      OfKind(words[..n], kind) + if KindOf(words[n].pos) == kind then [words[n]] else []
  }

  /** What a batch of usable words is worth: every term trimmed, not empty, not excluded and of the shape
      its part of speech needs, every entry explained, and no term twice whatever its case. */
  ghost predicate GoodBatch(words: seq<Word>, excluded: set<string>) {
    && (forall w | w in words ::
          Trimmed(w.term) && w.term != "" && KnownPos(w.pos) && FitsKind(w.term, KindOf(w.pos))
          && ToLower(w.term) !in excluded && w.content != map[] && w.source == Unverified)
    && (forall i, j | 0 <= i < j < |words| :: ToLower(words[i].term) != ToLower(words[j].term))
  }

  lemma UsableWordIs(w: Raw, excluded: set<string>, seen: set<string>)
    requires UsableWord(w, excluded, seen).Some?
    ensures GoodBatch([UsableWord(w, excluded, seen).value], excluded)
    ensures ToLower(UsableWord(w, excluded, seen).value.term) !in seen
  {
    hide Trim, ToLower, KnownPos, FitsKind, Explanations, Trimmed;
    TrimIsTrimmed(w.term);
  }

  lemma GoodBatchGrows(words: seq<Word>, w: Word, excluded: set<string>)
    requires GoodBatch(words, excluded) && GoodBatch([w], excluded) && ToLower(w.term) !in TermsOf(words)
    ensures GoodBatch(words + [w], excluded)
  {
    hide Trimmed, ToLower, KnownPos, FitsKind;
    assert w in [w];
    forall i | 0 <= i < |words| ensures ToLower(words[i].term) in TermsOf(words) { assert words[i] in words; }
  }

  /** Whatever the model wrote, what the writer hands over is a good batch. */
  lemma {:induction false} UsableWordsAreGood(raw: seq<Raw>, excluded: set<string>)
    ensures GoodBatch(UsableWords(raw, excluded), excluded)
  {
    if raw != [] {
      hide UsableWord, GoodBatch, TermsOf;
      var n := |raw| - 1;
      UsableWordsAreGood(raw[..n], excluded);
      var kept := UsableWords(raw[..n], excluded);
      var r := UsableWord(raw[n], excluded, TermsOf(kept));
      if r.Some? {
        UsableWordIs(raw[n], excluded, TermsOf(kept));
        GoodBatchGrows(kept, r.value, excluded);
      }
    } else {
      assert GoodBatch([], excluded);
    }
  }

  lemma {:induction false} OfKindIs(words: seq<Word>, kind: string)
    ensures forall w :: w in OfKind(words, kind) <==> w in words && KindOf(w.pos) == kind
  {
    hide KindOf;
    if words != [] {
      OfKindIs(words[..|words| - 1], kind);
      assert words == words[..|words| - 1] + [words[|words| - 1]];
    }
  }

  // ---- settling levels -------------------------------------------------------------------

  type Listing = map<string, ByPos>

  function ListedFor(listed: Listing, w: Word): string {
    var t := ToLower(w.term);
    ListedLevel(if t in listed then listed[t] else map[], w.pos)
  }

  function AnswerFor(answers: map<string, string>, w: Word): string {
    var t := ToLower(w.term);
    if t in answers then answers[t] else ""
  }

  // One entry's level settled by the word list or, failing that, by a second opinion when there is one.
  function Settled(w: Word, listed: Listing, second: Option<map<string, string>>): Word {
    var level := ListedFor(listed, w);
    if level != "" then SetLevel(w, level).(source := Listed)
    else if second.None? || LevelRank(AnswerFor(second.value, w)) < 0 then w.(source := Unverified)
    else if AnswerFor(second.value, w) == w.level then w.(source := Checked)
    else SetLevel(w, AnswerFor(second.value, w)).(source := Unverified)
  }

  // The level a word list gives an entry: that of its part of speech, or the only one it has.
  ghost predicate Lists(listed: Listing, w: Word, level: string) {
    && level != "" && ToLower(w.term) in listed
    && var byPos := listed[ToLower(w.term)];
       || (w.pos in byPos && byPos[w.pos] == level)
       || (&& (w.pos in byPos ==> byPos[w.pos] == "")
           && exists k :: k in byPos && byPos[k] == level && forall j | j in byPos :: j == k)
  }

  lemma OneKeyIff(m: ByPos)
    ensures |m| == 1 <==> exists k :: k in m && forall j | j in m :: j == k
  {
    if |m| == 1 { OneKey(m); }
    if k :| k in m && forall j | j in m :: j == k { assert m.Keys == {k}; }
  }

  lemma ListedForIs(listed: Listing, w: Word, level: string)
    ensures Lists(listed, w, level) <==> level != "" && ListedFor(listed, w) == level
  {
    hide ToLower;
    var t := ToLower(w.term);
    if t in listed { OneKeyIff(listed[t]); }
  }

  /** What a settled level is worth: the list's level is taken as it is; a level counts as checked only
      when writer and checker agree; when they differ the checker's is kept, unverified. The entry's
      one explanation moves with its level. */
  lemma SettledLevels(w: Word, listed: Listing, second: Option<map<string, string>>)
    ensures var r, t := Settled(w, listed, second), ToLower(w.term);
            var answer := if second.Some? && t in second.value then second.value[t] else "";
            && r.term == w.term && r.pos == w.pos
            && (r.source == Listed <==> exists level :: Lists(listed, w, level))
            && (r.source == Listed ==> Lists(listed, w, r.level))
            && (r.source == Checked
                <==> (forall level :: !Lists(listed, w, level)) && answer in CODES && answer == w.level)
            && (r.source == Checked ==> r.level == w.level)
            && (r.source == Unverified ==> r.level == (if answer in CODES then answer else w.level))
            && (w.content.Keys == {w.level} ==> r.content == map[r.level := w.content[w.level]])
  {
    hide ListedFor, AnswerFor, Lists, ToLower;
    forall level ensures Lists(listed, w, level) <==> level != "" && ListedFor(listed, w) == level {
      ListedForIs(listed, w, level);
    }
    AnswerIs(w, second);
    if w.content.Keys == {w.level} {
      assert |w.content| == 1;
      assert w.content == map[w.level := w.content[w.level]];
    }
    if ListedFor(listed, w) != "" { assert Lists(listed, w, ListedFor(listed, w)); }
    if second.Some? { RankOfCode(AnswerFor(second.value, w)); }
    RankOfCode("");
    hide LevelRank;
  }

  lemma RankOfCode(code: string)
    ensures LevelRank(code) >= 0 <==> code in CODES
    ensures "" !in CODES
  {
  }

  lemma AnswerIs(w: Word, second: Option<map<string, string>>)
    ensures second.Some? ==>
              AnswerFor(second.value, w)
              == if ToLower(w.term) in second.value then second.value[ToLower(w.term)] else ""
  {
    hide ToLower;
  }

  function AllSettled(words: seq<Word>, listed: Listing, second: Option<map<string, string>>): seq<Word> {
    seq(|words|, i requires 0 <= i < |words| => Settled(words[i], listed, second))
  }

  // The verdicts of the lexicon review, by lower-case term: whether to keep the entry.
  type Verdicts = map<string, bool>

  predicate Keeps(verdicts: Verdicts, kind: string, w: Word) {
    var t := ToLower(w.term);
    t in verdicts && verdicts[t] && FitsKind(w.term, kind)
  }

  function Reviewed(words: seq<Word>, verdicts: Verdicts, kind: string): (kept: seq<Word>)
    ensures |kept| <= |words|
  {
    if words == [] then []
    else
      var n := |words| - 1;
      Reviewed(words[..n], verdicts, kind) + if Keeps(verdicts, kind, words[n]) then [words[n]] else []
  }

  // ---- storing ---------------------------------------------------------------------------

  datatype Plan = Plan(count: int, kind: string, topics: seq<string>, minLevel: string, maxLevel: string)

  function Target(p: Plan): nat {
    var c := if p.count > 1 then p.count else 1;
    if c < 100 then c else 100
  }

  datatype Tally = Tally(listed: nat, checked: nat, unverified: nat)

  function Bump(t: Tally, s: Source): Tally {
    match s
    case Listed => t.(listed := t.listed + 1)
    case Checked => t.(checked := t.checked + 1)
    case Unverified => t.(unverified := t.unverified + 1)
  }

  // A run in progress: the library's rows, what is known by spelling, and the counters.
  datatype Run = Run(
    library: seq<Word>, seen: map<string, string>,
    added: nat, skipped: nat, outOfRange: nat, failed: nat, rejected: nat, sources: Tally, broken: bool)

  predicate InLibrary(library: seq<Word>, w: Word) {
    exists r | r in library :: ToLower(r.term) == ToLower(w.term) && r.pos == w.pos
  }

  predicate Known(seen: map<string, string>, key: string) { key in seen && seen[key] != "" }

  // Whether a word gets as far as the database.
  predicate Writes(s: Run, p: Plan, w: Word) {
    !Known(s.seen, SpellingKey(w.term)) && InRange(w.level, p.minLevel, p.maxLevel)
  }

  // The write of one word; fails: the database refused it.
  function StoreWord(s: Run, p: Plan, w: Word, fails: bool): Run {
    var key := SpellingKey(w.term);
    if Known(s.seen, key) then s.(skipped := s.skipped + 1)
    else if !InRange(w.level, p.minLevel, p.maxLevel) then s.(outOfRange := s.outOfRange + 1)
    else if fails then s.(broken := true)
    else if InLibrary(s.library, w) then s.(seen := s.seen[key := ToLower(w.term)], skipped := s.skipped + 1)
    else
      s.(library := s.library + [w], seen := s.seen[key := ToLower(w.term)], added := s.added + 1,
         sources := Bump(s.sources, w.source))
  }

  // Whether a batch stops before its next word: the target is reached, or this batch's write failed.
  predicate Stops(s: Run, p: Plan, halted: bool) { halted || s.added >= Target(p) }

  // A batch's words one after another; `fault` is the place of the word whose write fails, if any.
  function StoreBatch(s: Run, p: Plan, words: seq<Word>, fault: nat): (Run, bool) {
    if words == [] then (s, false)
    else
      var n := |words| - 1;
      var (before, halted) := StoreBatch(s, p, words[..n], fault);
      if Stops(before, p, halted) then (before, halted)
      else
        (StoreWord(before, p, words[n], fault == n), fault == n && Writes(before, p, words[n]))
  }

  /** What came back for one batch. */
  datatype Answer =
    | WriteFailed
    | Came(raw: seq<Raw>, listed: Listing, second: Option<map<string, string>>, review: Review, fault: nat)

  datatype Review = Unreviewed | ReviewFailed | Verdict(verdicts: Verdicts)

  function Kind(p: Plan): string { if p.kind == "" then WORD else p.kind }

  // The words of a batch: usable, not excluded, of the kind asked for.
  function Written(p: Plan, excluded: set<string>, raw: seq<Raw>): seq<Word> {
    OfKind(UsableWords(raw, excluded), if Kind(p) in {PHRASE, COLLOCATION} then Kind(p) else WORD)
  }

  function Take(s: Run, p: Plan, excluded: set<string>, a: Answer): Run {
    match a
    case WriteFailed => s.(failed := s.failed + 1)
    case Came(raw, listed, second, review, fault) =>
      var words := Written(p, excluded, raw);
      if words == [] then s.(failed := s.failed + 1)
      else TakeWords(s, p, AllSettled(words, listed, second), review, fault)
  }

  function TakeWords(s: Run, p: Plan, settled: seq<Word>, review: Review, fault: nat): Run {
    match review
    case Unreviewed => StoreBatch(s, p, settled, fault).0
    case ReviewFailed => s.(failed := s.failed + 1, rejected := s.rejected + |settled|)
    case Verdict(v) =>
      var kept := Reviewed(settled, v, Kind(p));
      StoreBatch(s.(rejected := s.rejected + |settled| - |kept|), p, kept, fault).0
  }

  /** A wave: the batches' answers in the order they reached the store, whatever that was. Every batch
      was told the entries known when the wave began. */
  function Wave(s: Run, p: Plan, excluded: set<string>, answers: seq<Answer>): Run {
    if answers == [] then s
    else Take(Wave(s, p, excluded, answers[..|answers| - 1]), p, excluded, answers[|answers| - 1])
  }

  function Excluded(s: Run): set<string> { set t | t in s.seen.Values :: ToLower(Trim(t)) }

  const WAVES := 8

  predicate Finished(s: Run, p: Plan) { s.broken || s.added >= Target(p) }

  // The first waves of a run; nothing more is asked once the run is finished.
  function Waves(s: Run, p: Plan, answers: seq<seq<Answer>>): Run {
    if answers == [] then s
    else
      var n := |answers| - 1;
      var before := Waves(s, p, answers[..n]);
      if Finished(before, p) then before else Wave(before, p, Excluded(before), answers[n])
  }

  function SeenFrom(exclude: seq<string>): map<string, string> {
    if exclude == [] then map[]
    else var n := |exclude| - 1; SeenFrom(exclude[..n])[SpellingKey(exclude[n]) := exclude[n]]
  }

  function Begin(library: seq<Word>, exclude: seq<string>): Run {
    Run(library, SeenFrom(exclude), 0, 0, 0, 0, 0, Tally(0, 0, 0), false)
  }

  function WholeRun(library: seq<Word>, exclude: seq<string>, p: Plan, answers: seq<seq<Answer>>): Run
    requires |answers| == WAVES
  {
    Waves(Begin(library, exclude), p, answers)
  }

  // ---- what a wave asks for --------------------------------------------------------------

  const BATCH := 4

  function Batches(want: nat): nat { (want + BATCH - 1) / BATCH }

  function AskedFor(want: nat, i: nat): int {
    (if want - i * BATCH < BATCH then want - i * BATCH else BATCH) + 2
  }

  function TotalAsked(want: nat, n: nat): int {
    if n == 0 then 0 else TotalAsked(want, n - 1) + AskedFor(want, n - 1)
  }

  lemma {:induction false} AskedSoFar(want: nat, n: nat)
    requires n <= Batches(want)
    ensures TotalAsked(want, n) == (if n * BATCH < want then n * BATCH else want) + 2 * n
    ensures forall i | 0 <= i < n :: 3 <= AskedFor(want, i) <= 6
  {
    if n > 0 { AskedSoFar(want, n - 1); }
  }

  /** A wave asks for exactly the shortfall and two more per batch, in batches of three to six. */
  lemma WaveAsksForShortfall(want: nat)
    ensures TotalAsked(want, Batches(want)) == want + 2 * Batches(want)
    ensures forall i | 0 <= i < Batches(want) :: 3 <= AskedFor(want, i) <= 6
  {
    AskedSoFar(want, Batches(want));
  }

  const OFFERED := 30  // the topics offered when a plan names none

  function TopicIndex(plan: Plan, batchIndex: nat, i: nat): nat {
    if plan.topics != [] then (batchIndex + i) % |plan.topics| else (batchIndex + i * 7) % OFFERED
  }

  lemma RemaindersDiffer(a: nat, d: nat, m: nat)
    requires 0 < d < m
    ensures (a + d) % m != a % m
  {
    var q1, q2 := (a + d) / m, a / m;
    if (a + d) % m == a % m {
      assert d == m * q1 - m * q2;
      if q1 <= q2 { Scales(m, q1, q2); } else { Scales(m, q2 + 1, q1); }
      assert false;
    }
  }

  lemma Scales(m: nat, a: int, b: int)
    requires a <= b
    ensures m * a <= m * b
  {
  }

  lemma NextInTurn(a: nat, d: nat, m: nat)
    requires m > 0
    ensures (a + d) % m == (a % m + d) % m
  {
    SameRemainder(a % m + d, a / m, m);
    assert a + d == a % m + d + a / m * m;
  }

  lemma {:induction false} SameRemainder(b: nat, q: nat, m: nat)
    requires m > 0
    ensures (b + q * m) % m == b % m
  {
    if q > 0 {
      SameRemainder(b, q - 1, m);
      var c := b + (q - 1) * m;
      assert b + q * m == c + m;
      OneMoreRound(c, m);
    }
  }

  lemma OneMoreRound(c: nat, m: nat)
    requires m > 0
    ensures (c + m) % m == c % m
  {
    var q, r := c / m, c % m;
    assert c + m == (q + 1) * m + r;
    Unique(c + m, q + 1, r, m);
  }

  lemma Unique(n: nat, q: nat, r: nat, m: nat)
    requires m > 0 && n == q * m + r && r < m
    ensures n % m == r
  {
    var k := n / m;
    assert n == k * m + n % m;
    if k < q { Scales(m, k + 1, q); } else if k > q { Scales(m, q + 1, k); }
    assert k == q;
  }

  lemma StepsOfSeven(a: nat, d: nat)
    requires 0 < d < OFFERED
    ensures (a + 7 * d) % OFFERED != a % OFFERED
  {
    var q := (a + 7 * d) / OFFERED - a / OFFERED;
    assert (a + 7 * d) % OFFERED == a % OFFERED ==> 7 * d == 30 * q;
  }

  /** Batches of a wave take different topics: a plan's own in turn, until they have all been used,
      and the offered ones by steps of seven, which meets no topic twice in thirty. */
  lemma TopicsTakeTurns(plan: Plan, batchIndex: nat, i: nat, j: nat)
    requires i < j < i + if plan.topics != [] then |plan.topics| else 30
    ensures TopicIndex(plan, batchIndex, i) != TopicIndex(plan, batchIndex, j)
    ensures TopicIndex(plan, batchIndex, i + 1)
            == if plan.topics != [] then (TopicIndex(plan, batchIndex, i) + 1) % |plan.topics|
               else (TopicIndex(plan, batchIndex, i) + 7) % 30
  {
    if plan.topics != [] {
      NextInTurn(batchIndex + i, 1, |plan.topics|); } else { NextInTurn(batchIndex + i * 7, 7, 30);
    }
    if plan.topics != [] {
      RemaindersDiffer(batchIndex + i, j - i, |plan.topics|);
    } else {
      StepsOfSeven(batchIndex + i * 7, j - i);
    }
  }
}
