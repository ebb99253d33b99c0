/** Spelling: when two spellings of a word are one entry.

    About SpellingKey in apps/api/internal/ai/vocabulary.go. */
module Spelling {
  import opened Text
  import opened Vocabulary

  predicate OccursAt(s: string, from: string, k: nat) { k + |from| <= |s| && s[k..k + |from|] == from }

  /** A spelling that does not occur in a text. */
  predicate Absent(s: string, from: string) { forall k: nat | k <= |s| :: !OccursAt(s, from, k) }

  lemma OccursInRest(s: string, from: string, k: nat)
    requires s != ""
    ensures OccursAt(s[1..], from, k) <==> OccursAt(s, from, k + 1)
  {
    if k + 1 + |from| <= |s| { assert s[1..][k..k + |from|] == s[k + 1..k + 1 + |from|]; }
  }

  lemma OccursAtStart(s: string, from: string)
    ensures OccursAt(s, from, 0) <==> |from| <= |s| && s[..|from|] == from
  {
  }

  lemma {:induction false} Unchanged(s: string, from: string, to: string)
    requires from != "" && Absent(s, from)
    ensures ReplaceAll(s, from, to) == s
    decreases |s|
  {
    hide OccursAt;
    if |s| >= |from| {
      OccursAtStart(s, from);
      forall k: nat | k <= |s[1..]| ensures !OccursAt(s[1..], from, k) { OccursInRest(s, from, k); }
      Unchanged(s[1..], from, to);
      assert !OccursAt(s, from, 0);
    }
  }

  /** A spelling that occurs once, behind a, is replaced there. */
  lemma {:induction false} ReplacedOnce(a: string, b: string, from: string, to: string)
    requires from != "" && Absent(b, from)
    requires forall k: nat | k < |a| :: !OccursAt(a + from + b, from, k)
    ensures ReplaceAll(a + from + b, from, to) == a + to + b
  {
    hide OccursAt;
    var s := a + from + b;
    if a == "" {
      Unchanged(b, from, to);
      assert s == from + b && s[..|from|] == from && s[|from|..] == b;
      assert "" + to + b == to + b;
    } else {
      OccursAtStart(s, from);
      assert !OccursAt(s, from, 0);
      assert s[1..] == a[1..] + from + b && s[0] == a[0];
      forall k: nat | k < |a[1..]| ensures !OccursAt(a[1..] + from + b, from, k) { OccursInRest(s, from, k); }
      ReplacedOnce(a[1..], b, from, to);
      assert [a[0]] + (a[1..] + to + b) == a + to + b;
    }
  }

  /** A single word in lower case. */
  predicate OneWord(s: string) { ToLower(s) == s && Fields(s) == [s] }

  // None of the variants from i to j occurs.
  predicate NoVariant(s: string, i: nat, j: nat) {
    forall n: nat | i <= n < j && n < |VARIANTS| :: Absent(s, VARIANTS[n].0)
  }

  lemma {:induction false} StaysFolded(s: string, folded: string, i: nat, j: nat)
    requires i <= j <= |VARIANTS| && Folded(s, i) == folded && NoVariant(folded, i, j)
    ensures Folded(s, j) == folded
  {
    hide Absent, ReplaceAll;
    if i < j {
      StaysFolded(s, folded, i, j - 1);
      Unchanged(folded, VARIANTS[j - 1].0, VARIANTS[j - 1].1);
    }
  }

  lemma KeyOfWord(s: string)
    requires OneWord(s)
    ensures SpellingKey(s) == Folded(s, |VARIANTS|)
  {
    hide Folded, Fields, ToLower;
    assert Join([s], " ") == s;
  }

  /** A word with none of the British spellings is its own key: two such words are one entry only if equal. */
  lemma OwnKey(s: string)
    requires OneWord(s) && NoVariant(s, 0, |VARIANTS|)
    ensures SpellingKey(s) == s
  {
    KeyOfWord(s);
    StaysFolded(s, s, 0, |VARIANTS|);
  }

  /** A word with one of the British spellings once, and no other, has the key of the word with the American one. */
  lemma OneVariant(a: string, b: string, i: nat)
    requires i < |VARIANTS|
    requires var u, v := a + VARIANTS[i].0 + b, a + VARIANTS[i].1 + b;
             && OneWord(u) && OneWord(v)
             && NoVariant(u, 0, i) && NoVariant(v, 0, |VARIANTS|)
             && Absent(b, VARIANTS[i].0)
             && forall k: nat | k < |a| :: !OccursAt(u, VARIANTS[i].0, k)
    ensures SpellingKey(a + VARIANTS[i].0 + b) == SpellingKey(a + VARIANTS[i].1 + b)
  {
    var u, v := a + VARIANTS[i].0 + b, a + VARIANTS[i].1 + b;
    KeyOfWord(u);
    OwnKey(v);
    hide OneWord, Absent, OccursAt, ReplaceAll;
    StaysFolded(u, u, 0, i);
    ReplacedOnce(a, b, VARIANTS[i].0, VARIANTS[i].1);
    StaysFolded(u, v, i + 1, |VARIANTS|);
  }
}
