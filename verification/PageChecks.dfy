/** PageChecks: what is wrong with a page or a stored question, in terms of their own fields.

    About checkTopic in apps/api/internal/admin/grammar_builder.go. */
module PageChecks {
  import opened Text
  import opened Practice
  import opened Publishing
  import opened Builder

  // ---- pages -----------------------------------------------------------------------------

  /** A page with no text, nothing to show or no title. */
  predicate Unfit(page: Page) {
    || (AllSpaces(page.body.explanation) && AllSpaces(page.body.intro))
    || (page.body.examples == 0 && page.body.formulas == 0)
    || AllSpaces(page.title)
  }

  lemma UnfitIff(page: Page)
    ensures Unfit(page) <==> !PageOk(page)
  {
    TrimOfSpaces(page.body.explanation);
    TrimOfSpaces(page.body.intro);
    TrimOfSpaces(page.title);
    hide AllSpaces, Trim;
  }

  // ---- questions -------------------------------------------------------------------------

  // A gap marker starts at k.
  predicate GapAt(s: string, k: nat) { k + 3 <= |s| && s[k] == s[k + 1] == s[k + 2] == '_' }

  /** There is a gap marker, and none is left before or after the leftmost. */
  predicate OneGap(s: string) {
    exists k | 0 <= k < |s| && GapAt(s, k) ::
      (forall j | 0 <= j < k :: !GapAt(s, j)) && (forall j | k + 3 <= j < |s| :: !GapAt(s, j))
  }

  lemma GapAtStart(s: string)
    ensures GapAt(s, 0) <==> |s| >= 3 && s[..3] == BLANK
  {
    if |s| >= 3 { assert s[..3] == [s[0], s[1], s[2]]; }
  }

  lemma GapsOfRest(s: string, n: nat)
    requires n <= |s|
    ensures forall j: nat :: GapAt(s[n..], j) <==> GapAt(s, j + n)
  {
  }

  lemma {:induction false} NoGapIff(s: string)
    ensures GapCount(s) == 0 <==> forall j | 0 <= j < |s| :: !GapAt(s, j)
    decreases |s|
  {
    if |s| >= 3 {
      GapAtStart(s);
      GapsOfRest(s, 1);
      NoGapIff(s[1..]);
      hide GapAt;
      forall j | 0 < j < |s| ensures GapAt(s[1..], j - 1) <==> GapAt(s, j) {}
    }
  }

  lemma {:induction false} OneGapIff(s: string)
    ensures GapCount(s) == 1 <==> OneGap(s)
    decreases |s|
  {
    if |s| >= 3 {
      GapAtStart(s);
      if GapAt(s, 0) {
        NoGapIff(s[3..]);
        GapsOfRest(s, 3);
        LeftmostGap(s);
      } else {
        OneGapIff(s[1..]);
        GapsOfRest(s, 1);
        LaterGap(s);
      }
    }
  }

  lemma LeftmostGap(s: string)
    requires |s| >= 3 && GapAt(s, 0)
    requires forall j: nat :: GapAt(s[3..], j) <==> GapAt(s, j + 3)
    ensures OneGap(s) <==> forall j | 0 <= j < |s[3..]| :: !GapAt(s[3..], j)
  {
    hide GapAt;
    assert |s| > 0;
    if OneGap(s) {
      var k :| 0 <= k < |s| && GapAt(s, k)
               && (forall j | 0 <= j < k :: !GapAt(s, j)) && (forall j | k + 3 <= j < |s| :: !GapAt(s, j));
      assert k == 0;
    }
    if forall j | 0 <= j < |s[3..]| :: !GapAt(s[3..], j) {
      forall j | 3 <= j < |s| ensures !GapAt(s, j) { assert !GapAt(s[3..], j - 3); }
    }
  }

  lemma LaterGap(s: string)
    requires s != "" && !GapAt(s, 0)
    requires forall j: nat :: GapAt(s[1..], j) <==> GapAt(s, j + 1)
    ensures OneGap(s) <==> OneGap(s[1..])
  {
    hide GapAt;
    var t := s[1..];
    if OneGap(s) {
      var k :| 0 <= k < |s| && GapAt(s, k)
               && (forall j | 0 <= j < k :: !GapAt(s, j)) && (forall j | k + 3 <= j < |s| :: !GapAt(s, j));
      assert k > 0 && GapAt(t, k - 1);
    }
    if OneGap(t) {
      var k :| 0 <= k < |t| && GapAt(t, k)
               && (forall j | 0 <= j < k :: !GapAt(t, j)) && (forall j | k + 3 <= j < |t| :: !GapAt(t, j));
      assert GapAt(s, k + 1);
      forall j | 0 <= j < k + 1 ensures !GapAt(s, j) { if j > 0 { assert !GapAt(t, j - 1); } }
      forall j | k + 4 <= j < |s| ensures !GapAt(s, j) { assert !GapAt(t, j - 1); }
    }
  }

  /** A gap question without exactly one gap or without an accepted answer that says something; a choice
      with fewer than two options or whose key - the index, or the older field when there is none - is not
      one of them. */
  predicate Broken(c: Columns) {
    if c.kind == "fill_blank" then
      || !OneGap(c.prompt)
      || c.accepted.None?
      || forall a, i | a in c.accepted.value && 0 <= i < |a| :: a[i] == ' '
    else
      || c.options.None? || |c.options.value| < 2
      || (c.correctIndex.None? && c.legacyIndex.None?)
      || (c.correctIndex.Some? && !(0 <= c.correctIndex.value < |c.options.value|))
      || (c.correctIndex.None? && c.legacyIndex.Some? && !(0 <= c.legacyIndex.value < |c.options.value|))
  }

  lemma BrokenIff(c: Columns)
    ensures Broken(c) <==> Problem(c)
  {
    OneGapIff(c.prompt);
    hide OneGap, GapCount;
    if c.accepted.Some? {
      forall a ensures NotBlank(a) <==> !forall i | 0 <= i < |a| :: a[i] == ' ' {}
    }
  }
}
