/** Uzbek: one apostrophe and Latin letters in generated Uzbek text, and which of a proofreader's
    corrections are believed.

    Models apps/api/internal/ai/uzbek_proofread.go. Which characters outside ASCII are letters is a
    parameter. */
module Uzbek {
  import opened Text

  type Letters = char -> bool

  // The marks written for the apostrophe, all stored as one.
  function PlainApostrophe(c: char): char {
    if c in "\U{2BB}\U{2BC}\U{2018}\U{2019}`\U{B4}" then '\'' else c
  }

  const LOOKALIKES :=
    "\U{430}\U{435}\U{43E}\U{440}\U{441}\U{445}\U{443}\U{456}\U{43A}\U{43C}\U{442}\U{410}"
    + "\U{415}\U{41E}\U{420}\U{421}\U{425}\U{41A}\U{41C}\U{422}\U{259}\U{18F}\U{131}"
  const LATIN := "aeopcxyikmtAEOPCXKMTaAi"

  // Where c is among the lookalikes from place n on.
  function PlaceOf(c: char, n: nat): (k: nat)
    requires n <= |LOOKALIKES|
    ensures n <= k <= |LOOKALIKES|
    ensures k < |LOOKALIKES| ==> LOOKALIKES[k] == c
    ensures k == |LOOKALIKES| ==> c !in LOOKALIKES[n..]
    decreases |LOOKALIKES| - n
  {
    if n == |LOOKALIKES| || LOOKALIKES[n] == c then n else PlaceOf(c, n + 1)
  }

  /** The Latin letter a letter from another alphabet is taken for. */
  function Latin(c: char): char {
    var k := PlaceOf(c, 0);
    if k < |LATIN| then LATIN[k] else c
  }

  predicate IsAsciiLetter(c: char) { 'a' <= c <= 'z' || 'A' <= c <= 'Z' }

  predicate IsOther(c: char, letters: Letters) { c as int >= 128 && letters(c) }

  function Plain(s: string): (r: string)
    ensures |r| == |s|
  {
    seq(|s|, i requires 0 <= i < |s| => PlainApostrophe(s[i]))
  }

  function Replaced(s: string): (r: string)
    ensures |r| == |s|
  {
    seq(|s|, i requires 0 <= i < |s| => Latin(s[i]))
  }

  function LatinCount(s: string): nat {
    if s == "" then 0 else LatinCount(s[..|s| - 1]) + if IsAsciiLetter(s[|s| - 1]) then 1 else 0
  }

  function OtherCount(s: string, letters: Letters): nat {
    if s == "" then 0 else OtherCount(s[..|s| - 1], letters) + if IsOther(s[|s| - 1], letters) then 1 else 0
  }

  predicate MostlyLatin(s: string, letters: Letters) { LatinCount(s) > OtherCount(s, letters) }

  function Normalized(text: string, letters: Letters): string {
    var t := Plain(Trim(text));
    if MostlyLatin(t, letters) then Replaced(t) else t
  }

  // ---- normalising twice -----------------------------------------------------------------

  lemma PlainChar(c: char)
    ensures PlainApostrophe(PlainApostrophe(c)) == PlainApostrophe(c)
    ensures IsSpace(PlainApostrophe(c)) <==> IsSpace(c)
  {
  }

  lemma Tables()
    ensures |LOOKALIKES| == |LATIN|
    ensures forall i | 0 <= i < |LATIN| :: IsAsciiLetter(LATIN[i]) && LATIN[i] as int < 128
    ensures forall i | 0 <= i < |LOOKALIKES| ::
            LOOKALIKES[i] as int >= 128 && !IsSpace(LOOKALIKES[i]) && PlainApostrophe(LOOKALIKES[i]) == LOOKALIKES[i]
  {
  }

  /** What becomes of one character: a lookalike becomes an ASCII letter, everything else stays. */
  lemma LatinChar(c: char)
    ensures c in LOOKALIKES ==> IsAsciiLetter(Latin(c)) && Latin(c) as int < 128 && c as int >= 128
    ensures c !in LOOKALIKES ==> Latin(c) == c
    ensures Latin(Latin(c)) == Latin(c)
    ensures IsSpace(Latin(c)) <==> IsSpace(c)
    ensures PlainApostrophe(c) == c ==> PlainApostrophe(Latin(c)) == Latin(c)
  {
    Tables();
    hide IsSpace, PlainApostrophe;
    var k := PlaceOf(c, 0);
    assert LOOKALIKES[0..] == LOOKALIKES;
    if k < |LATIN| {
      assert c in LOOKALIKES;
      AsciiIsItself(LATIN[k]);
    }
  }

  lemma AsciiIsItself(c: char)
    requires IsAsciiLetter(c) && c as int < 128
    ensures Latin(c) == c && !IsSpace(c) && PlainApostrophe(c) == c
  {
    Tables();
    assert !IsSpace(c) && PlainApostrophe(c) == c;
    var k := PlaceOf(c, 0);
    assert k == |LOOKALIKES|;
  }

  lemma {:induction false} FirstPlace(k: nat, n: nat)
    requires n <= k < |LOOKALIKES| && forall i | n <= i < k :: LOOKALIKES[i] != LOOKALIKES[k]
    ensures PlaceOf(LOOKALIKES[k], n) == k
    decreases k - n
  {
    if n < k { FirstPlace(k, n + 1); }
  }

  /** Which letter is taken for which: nineteen pairs of capital and small Cyrillic letters, and three of others. */
  lemma Pairs(k: nat)
    requires k < 23
    ensures var from := ['\U{430}', '\U{435}', '\U{43E}', '\U{440}', '\U{441}', '\U{445}', '\U{443}', '\U{456}',
                         '\U{43A}', '\U{43C}', '\U{442}', '\U{410}', '\U{415}', '\U{41E}', '\U{420}', '\U{421}',
                         '\U{425}', '\U{41A}', '\U{41C}', '\U{422}', '\U{259}', '\U{18F}', '\U{131}'];
            var to := ['a', 'e', 'o', 'p', 'c', 'x', 'y', 'i', 'k', 'm', 't', 'A', 'E', 'O', 'P', 'C', 'X', 'K', 'M',
                'T',
                       'a', 'A', 'i'];
            Latin(from[k]) == to[k]
  {
    assert |LATIN| == |LOOKALIKES| == 23;
    assert forall i | 0 <= i < k :: LOOKALIKES[i] != LOOKALIKES[k];
    FirstPlace(k, 0);
    var from := ['\U{430}', '\U{435}', '\U{43E}', '\U{440}', '\U{441}', '\U{445}', '\U{443}', '\U{456}',
                 '\U{43A}', '\U{43C}', '\U{442}', '\U{410}', '\U{415}', '\U{41E}', '\U{420}', '\U{421}',
                 '\U{425}', '\U{41A}', '\U{41C}', '\U{422}', '\U{259}', '\U{18F}', '\U{131}'];
    assert from == LOOKALIKES;
  }

  lemma {:induction false} MajorityGrows(s: string, letters: Letters)
    ensures LatinCount(Replaced(s)) >= LatinCount(s)
    ensures OtherCount(Replaced(s), letters) <= OtherCount(s, letters)
  {
    if s != "" {
      hide Latin;
      var n := |s| - 1;
      MajorityGrows(s[..n], letters);
      LatinChar(s[n]);
      assert Replaced(s)[..n] == Replaced(s[..n]);
    }
  }

  lemma SettledChars(s: string)
    requires Trimmed(s)
    ensures Trimmed(Plain(s)) && Plain(Plain(s)) == Plain(s)
    ensures Trimmed(Replaced(Plain(s))) && Plain(Replaced(Plain(s))) == Replaced(Plain(s))
    ensures Replaced(Replaced(Plain(s))) == Replaced(Plain(s))
  {
    hide PlainApostrophe, Latin, IsSpace;
    var p, r := Plain(s), Replaced(Plain(s));
    forall i | 0 <= i < |s|
      ensures (IsSpace(p[i]) <==> IsSpace(s[i])) && (IsSpace(r[i]) <==> IsSpace(s[i]))
      ensures PlainApostrophe(p[i]) == p[i] && PlainApostrophe(r[i]) == r[i] && Latin(r[i]) == r[i]
    {
      PlainChar(s[i]);
      LatinChar(p[i]);
    }
  }

  /** Normalising a normalised text changes nothing: the Latin majority that let letters be replaced
      can only have grown by replacing them. */
  lemma NormalizeIsIdempotent(text: string, letters: Letters)
    ensures Normalized(Normalized(text, letters), letters) == Normalized(text, letters)
  {
    hide Plain, Replaced, Trim, Trimmed;
    TrimIsTrimmed(text);
    SettledChars(Trim(text));
    var t := Plain(Trim(text));
    MajorityGrows(t, letters);
    TrimIsTrimmed(t);
    TrimIsTrimmed(Replaced(t));
  }

  // What becomes of one character of a text, mostly Latin or not.
  predicate CharIs(r: char, c: char, latin: bool) {
    if c in "\U{2BB}\U{2BC}\U{2018}\U{2019}`\U{B4}" then r == '\''
    else if latin && c in LOOKALIKES then exists k | 0 <= k < |LATIN| && k < |LOOKALIKES| ::
      LOOKALIKES[k] == c && r == LATIN[k]
    else r == c
  }

  lemma CharBecomes(c: char)
    ensures CharIs(PlainApostrophe(c), c, false) && CharIs(Latin(PlainApostrophe(c)), c, true)
  {
    LatinChar(PlainApostrophe(c));
    Tables();
    if PlainApostrophe(c) == c && c in LOOKALIKES {
      assert LOOKALIKES[0..] == LOOKALIKES;
      assert LOOKALIKES[PlaceOf(c, 0)] == c;
    }
  }

  function AsciiLetters(s: string): set<int> {
    set i | 0 <= i < |s| && ('a' <= s[i] <= 'z' || 'A' <= s[i] <= 'Z')
  }

  function OtherLetters(s: string, letters: Letters): set<int> {
    set i | 0 <= i < |s| && s[i] as int >= 128 && letters(s[i])
  }

  lemma {:induction false} CountsAre(s: string, letters: Letters)
    ensures LatinCount(s) == |AsciiLetters(s)| && OtherCount(s, letters) == |OtherLetters(s, letters)|
  {
    if s != "" {
      var n := |s| - 1;
      CountsAre(s[..n], letters);
      assert AsciiLetters(s) == AsciiLetters(s[..n]) + if IsAsciiLetter(s[n]) then {n} else {};
      assert OtherLetters(s, letters) == OtherLetters(s[..n], letters) + if IsOther(s[n], letters) then {n} else {};
    }
  }

  /** A normalised text is the trimmed one, character by character: each of the six marks for it is the plain
      apostrophe and, exactly when it then has more ASCII letters than other ones, each lookalike is its Latin
      letter. So it holds one kind of apostrophe, and no lookalike if it was mostly Latin. */
  lemma NormalizedHolds(text: string, letters: Letters)
    ensures var t, r := Trim(text), Normalized(text, letters);
            var latin := |AsciiLetters(Plain(t))| > |OtherLetters(Plain(t), letters)|;
            && Trimmed(r) && |r| == |t| == |Plain(t)|
            && (forall i | 0 <= i < |r| :: CharIs(r[i], t[i], latin) && CharIs(Plain(t)[i], t[i], false))
            && (forall i | 0 <= i < |r| :: r[i] !in "\U{2BB}\U{2BC}\U{2018}\U{2019}`\U{B4}")
            && (latin ==> forall i | 0 <= i < |r| :: r[i] !in LOOKALIKES)
  {
    CountsAre(Plain(Trim(text)), letters);
    hide PlainApostrophe, Latin, IsSpace, Trim, Trimmed, CharIs, LatinCount, OtherCount, AsciiLetters, OtherLetters;
    TrimIsTrimmed(text);
    SettledChars(Trim(text));
    var t := Trim(text);
    forall i | 0 <= i < |t|
      ensures CharIs(PlainApostrophe(t[i]), t[i], false) && CharIs(Latin(PlainApostrophe(t[i])), t[i], true)
      ensures NoMark(PlainApostrophe(t[i])) && NoMark(Latin(PlainApostrophe(t[i])))
      ensures Latin(PlainApostrophe(t[i])) !in LOOKALIKES
    {
      CharBecomes(t[i]);
      PlainChar(t[i]);
      LatinChar(PlainApostrophe(t[i]));
      PlainIsNoMark(PlainApostrophe(t[i]));
      PlainIsNoMark(Latin(PlainApostrophe(t[i])));
      LatinIsNoLookalike(PlainApostrophe(t[i]));
    }
  }

  predicate NoMark(c: char) { c !in "\U{2BB}\U{2BC}\U{2018}\U{2019}`\U{B4}" }

  lemma PlainIsNoMark(c: char)
    requires PlainApostrophe(c) == c
    ensures NoMark(c)
  {
  }

  lemma LatinIsNoLookalike(c: char)
    ensures Latin(c) !in LOOKALIKES
  {
    LatinChar(c);
    hide Latin;
    Tables();
  }

  // ---- which corrections are believed ----------------------------------------------------

  predicate LatinOnly(text: string, letters: Letters) {
    forall c | c in text :: !IsOther(c, letters)
  }

  predicate CloseEnough(a: string, b: string) {
    && |b| <= |a| + |a| / 4 + 3
    && |b| >= |a| - |a| / 4 - 3
    && |Fields(a)| == |Fields(b)|
  }

  datatype KeyedText = KeyedText(key: string, text: string)

  // The last text under a key, None under none.
  function LastUnder(items: seq<KeyedText>, key: string): (r: string)
  {
    if items == [] then ""
    else if items[|items| - 1].key == key then items[|items| - 1].text
    else LastUnder(items[..|items| - 1], key)
  }

  predicate HasKey(items: seq<KeyedText>, key: string) { exists it | it in items :: it.key == key }

  predicate Trusted(was: string, fixed: string, letters: Letters) {
    fixed != "" && CloseEnough(was, fixed) && LatinOnly(fixed, letters)
  }

  // A text after proofreading: the correction, if it is believed.
  function Corrected(was: string, answer: string, letters: Letters): string {
    var fixed := Normalized(answer, letters);
    if Trusted(was, fixed, letters) then fixed else Normalized(was, letters)
  }

  /** Whatever the proofreader answers, a text becomes its own normal form or, exactly when that is not empty, has
      no other letters, as many words and about as many characters, the correction's; and nothing is left to
      normalise. */
  lemma CorrectedIsSafe(was: string, answer: string, letters: Letters)
    ensures var r, fixed := Corrected(was, answer, letters), Normalized(answer, letters);
            var believed := && fixed != "" && (forall c | c in fixed :: (c as int) < 128 || !letters(c))
                            && |Fields(fixed)| == |Fields(was)|
                            && |was| - |was| / 4 - 3 <= |fixed| <= |was| + |was| / 4 + 3;
            && r == (if believed then fixed else Normalized(was, letters))
            && Normalized(r, letters) == r
  {
    hide Normalized, Fields;
    NormalizeIsIdempotent(was, letters);
    NormalizeIsIdempotent(answer, letters);
  }

  function Corrections(items: seq<KeyedText>, answers: seq<KeyedText>, letters: Letters): map<string, string> {
    map it | && it in items
             && Corrected(LastUnder(items, it.key), LastUnder(answers, it.key), letters) != LastUnder(items, it.key)
      :: it.key := Corrected(LastUnder(items, it.key), LastUnder(answers, it.key), letters)
  }

  // The last text under a key.
  predicate LastIs(items: seq<KeyedText>, key: string, i: nat) {
    i < |items| && items[i].key == key && forall j | i < j < |items| :: items[j].key != key
  }

  lemma {:induction false} LastUnderIs(items: seq<KeyedText>, key: string)
    ensures forall i: nat | LastIs(items, key, i) :: LastUnder(items, key) == items[i].text
    ensures (forall i | 0 <= i < |items| :: items[i].key != key) ==> LastUnder(items, key) == ""
  {
    if items != [] {
      var n := |items| - 1;
      LastUnderIs(items[..n], key);
      if items[n].key != key {
        forall i: nat | LastIs(items, key, i) ensures LastIs(items[..n], key, i) {}
      }
    }
  }

  /** What proofreading returns: under each key, whose last text and last answer these are, the corrected text exactly
      when it is another; and nothing under other keys. */
  lemma CorrectionsAre(items: seq<KeyedText>, answers: seq<KeyedText>, letters: Letters, i: nat, answer: string)
    requires i < |items| && LastIs(items, items[i].key, i)
    requires (exists j: nat :: LastIs(answers, items[i].key, j) && answers[j].text == answer)
             || (answer == "" && forall j | 0 <= j < |answers| :: answers[j].key != items[i].key)
    ensures var out, fixed := Corrections(items, answers, letters), Corrected(items[i].text, answer, letters);
            && (items[i].key in out <==> fixed != items[i].text)
            && (items[i].key in out ==> out[items[i].key] == fixed)
            && forall k | k in out :: HasKey(items, k)
  {
    LastUnderIs(items, items[i].key);
    LastUnderIs(answers, items[i].key);
    hide Corrected, LastUnder;
    assert items[i] in items;
  }

  method CountLetters(text: string, letters: Letters) returns (latin: nat, other: nat)
    ensures latin == LatinCount(text) && other == OtherCount(text, letters)
  {
    latin, other := 0, 0;
    for i := 0 to |text|
      invariant latin == LatinCount(text[..i]) && other == OtherCount(text[..i], letters)
    {
      assert text[..i + 1][..i] == text[..i];
      if IsAsciiLetter(text[i]) {
        latin := latin + 1;
      } else if IsOther(text[i], letters) {
        other := other + 1;
      }
    }
    assert text[..|text|] == text;
  }

  method NormalizeUzbek(text: string, letters: Letters) returns (r: string)
    ensures r == Normalized(text, letters)
  {
    hide Plain, Replaced, LatinCount, OtherCount, Trim;
    r := Plain(Trim(text));
    var latin, other := CountLetters(r, letters);
    if latin > other {
      r := Replaced(r);
    }
  }

  // Each original text by its key; a key given twice keeps its last text.
  method Originals(items: seq<KeyedText>) returns (original: map<string, string>)
    ensures forall k :: k in original <==> HasKey(items, k)
    ensures forall k | k in original :: original[k] == LastUnder(items, k)
  {
    original := map[];
    for i := 0 to |items|
      invariant forall k :: k in original <==> HasKey(items[..i], k)
      invariant forall k | k in original :: original[k] == LastUnder(items[..i], k)
    {
      assert items[..i + 1][..i] == items[..i] && items[..i + 1] == items[..i] + [items[i]];
      original := original[items[i].key := items[i].text];
    }
    assert items[..|items|] == items;
  }

  method LastAnswer(answers: seq<KeyedText>, key: string, letters: Letters) returns (fixed: string)
    ensures fixed == Normalized(LastUnder(answers, key), letters)
  {
    hide Normalized;
    fixed := "";
    assert Normalized("", letters) == "" by { BlankIsNormal(letters); }
    for i := 0 to |answers|
      invariant fixed == Normalized(LastUnder(answers[..i], key), letters)
    {
      assert answers[..i + 1][..i] == answers[..i];
      if answers[i].key == key {
        fixed := NormalizeUzbek(answers[i].text, letters);
      }
    }
    assert answers[..|answers|] == answers;
  }

  lemma BlankIsNormal(letters: Letters)
    ensures Normalized("", letters) == ""
  {
  }

  /** The corrected texts of the ones that needed correcting, by key. */
  method ProofreadUzbek(items: seq<KeyedText>, answers: seq<KeyedText>, letters: Letters)
    returns (out: map<string, string>)
    ensures out == Corrections(items, answers, letters)
  {
    hide Normalized, Trusted, LastUnder;
    var original := Originals(items);
    out := map[];
    var keys := original.Keys;
    while keys != {}
      invariant keys <= original.Keys
      invariant forall k :: k in out <==>
                  k in original && k !in keys && Corrected(original[k], LastUnder(answers, k), letters) != original[k]
      invariant forall k | k in out :: out[k] == Corrected(original[k], LastUnder(answers, k), letters)
    {
      var key :| key in keys;
      var was := original[key];
      var fixed := LastAnswer(answers, key, letters);
      if !Trusted(was, fixed, letters) {
        fixed := NormalizeUzbek(was, letters);
      }
      if fixed != was {
        out := out[key := fixed];
      }
      keys := keys - {key};
    }
    ghost var expected := Corrections(items, answers, letters);
    assert out.Keys == expected.Keys;
  }
}
