/** PublishRaces: what is stored between the check of a topic and the transaction that publishes it.

    About publishGrammarContent in apps/api/internal/admin/grammar_builder.go, which reads before its
    transaction begins. */
module PublishRaces {
  import opened Cefr
  import opened Options
  import opened Publishing
  import opened Builder
  import opened PageChecks
  import opened BuilderRuns

  // ---- any run in between ----------------------------------------------------------------

  /** The versions that publishing these keys would put live are fit to be read. */
  ghost predicate PromotedPagesOk(rows: seq<Row>, planned: set<Key>) {
    forall k | k in planned && Newest(rows, k, PENDING).Some? :: !Unfit(rows[Newest(rows, k, PENDING).value].page)
  }

  lemma NewestIsPromoted(rows: seq<Row>, planned: set<Key>, k: Key)
    requires k in planned && Newest(rows, k, PENDING).Some?
    ensures var i := Newest(rows, k, PENDING).value;
            PublishKeys(rows, planned)[i] == rows[i].(status := Live)
  {
  }

  lemma PublishedPagesOkIff(rows: seq<Row>, planned: set<Key>)
    requires LivePagesOk(rows) && Ordered(rows)
    ensures LivePagesOk(PublishKeys(rows, planned)) <==> PromotedPagesOk(rows, planned)
  {
    hide Unfit;
    var after := PublishKeys(rows, planned);
    if LivePagesOk(after) {
      forall k | k in planned && Newest(rows, k, PENDING).Some?
        ensures !Unfit(rows[Newest(rows, k, PENDING).value].page)
      {
        NewestIsPromoted(rows, planned, k);
      }
    }
  }

  /** The publish handler's plan is made before its transaction begins. Whatever the builder does in
      between - edits, generations, translations, other publishes - publishing the planned keys leaves
      every live page fit to be read exactly when the newest waiting version of each of them is. */
  lemma RunInBetweenIff(s: Store, steps: seq<Step>, planned: set<Key>)
    requires Sound(s) && forall step | step in steps :: StepOk(step)
    ensures var rows := Run(s, steps).rows;
            LivePagesOk(PublishKeys(rows, planned)) <==> PromotedPagesOk(rows, planned)
  {
    hide LivePagesOk, PromotedPagesOk, Ordered, Run;
    EveryRunIsSound(s, steps);
    SoundStore(Run(s, steps));
    PublishedPagesOkIff(Run(s, steps).rows, planned);
  }

  lemma SoundStore(s: Store)
    requires Sound(s)
    ensures Ordered(s.rows) && LivePagesOk(s.rows)
  {
  }

  // ---- one edit in between ---------------------------------------------------------------

  // No two of the shared drafts are of one level, and none is of the edited one.
  predicate OncePerLevel(shared: seq<Row>, level: Level, n: int) {
    && (forall i | 0 <= i < |shared| :: shared[i].key.level != level && shared[i].key.level <= n)
    && (forall i, j | 0 <= i < j < |shared| :: shared[i].key.level != shared[j].key.level)
  }

  lemma {:induction false} SharedOnce(rows: seq<Row>, e: Edit, n: int)
    requires 0 <= n <= MAX_BASE && e.body.Some?
    ensures OncePerLevel(SharedRows(rows, e, n), e.key.level, n)
  {
    if n > 0 {
      SharedOnce(rows, e, n - 1);
      hide Newest, NextVersion;
    }
  }

  lemma SavedKey(rows: seq<Row>, e: Edit)
    ensures SavedRow(rows, e).key == e.key && SavedRow(rows, e).status == e.status
  {
  }

  // An edit adds at most one version to a key.
  lemma SavedOnce(rows: seq<Row>, e: Edit)
    ensures var after := SavedRows(rows, e);
            && |rows| < |after| && after[..|rows|] == rows && after[|rows|] == SavedRow(rows, e)
            && (forall i, j | |rows| <= i < j < |after| :: after[i].key != after[j].key)
  {
    hide SharedRows, SavedRow;
    var r := rows + [SavedRow(rows, e)];
    assert SavedRow(rows, e).key == e.key by { SavedKey(rows, e); }
    if e.body.Some? && e.status != NotApplicable {
      SharedOnce(r, e, MAX_BASE);
      var after := SavedRows(rows, e);
      forall i, j | |rows| <= i < j < |after| ensures after[i].key != after[j].key {
        assert after[j] == SharedRows(r, e, MAX_BASE)[j - |r|];
        if i > |rows| { assert after[i] == SharedRows(r, e, MAX_BASE)[i - |r|]; }
      }
    }
  }

  // A waiting version that the edit added is the newest one of its key.
  lemma AddedIsNewest(rows: seq<Row>, e: Edit, i: nat)
    requires Ordered(SavedRows(rows, e)) && |rows| <= i < |SavedRows(rows, e)|
    requires SavedRows(rows, e)[i].status in PENDING
    ensures Newest(SavedRows(rows, e), SavedRows(rows, e)[i].key, PENDING) == Some(i)
  {
    hide SavedRows;
    var after := SavedRows(rows, e);
    var k := after[i].key;
    SavedOnce(rows, e);
    assert Matches(after[i], k, PENDING);
    var d := Newest(after, k, PENDING).value;
    assert after[i].version <= after[d].version;
  }

  lemma NewestAmongOld(rows: seq<Row>, after: seq<Row>, k: Key, j: nat)
    requires |rows| <= |after| && after[..|rows|] == rows && Ordered(after) && Ordered(rows)
    requires j < |rows| && Newest(after, k, PENDING) == Some(j)
    requires Newest(rows, k, ANY).Some? && rows[Newest(rows, k, ANY).value].status != NotApplicable
    ensures Newest(rows, k, ANY) == Some(j)
  {
    assert after[j] == after[..|rows|][j] == rows[j];
    var i := Newest(rows, k, ANY).value;
    assert after[i] == after[..|rows|][i] == rows[i];
    NewestIsCurrent(rows, k);
    assert Matches(rows[j], k, PENDING) && Matches(rows[j], k, ANY);
    assert rows[i].status in PENDING ==> Matches(after[i], k, PENDING);
  }

  // A waiting version that the edit did not add was read by the check.
  lemma RestWasRead(s: Store, languages: seq<Language>, only: seq<Level>, e: Edit, k: Key, j: nat)
    requires Sound(s) && EditOk(e) && !AnyRefused(s, languages, only) && k in PlannedKeys(s, languages, only)
    requires j < |s.rows| && Newest(SavedRows(s.rows, e), k, PENDING) == Some(j)
    ensures !Unfit(SavedRows(s.rows, e)[j].page)
  {
    hide SavedRows, AnyRefused, Unfit;
    var rows := SavedRows(s.rows, e);
    SavedOnce(s.rows, e);
    SavingKeepsOrder(s.rows, e);
    assert rows[j] == rows[..|s.rows|][j] == s.rows[j];
    PublishedIsValidated(s, languages, only, k);
    NewestIsCurrent(s.rows, k);
    NewestAmongOld(s.rows, rows, k, j);
  }

  /** Every version the edit adds to a planned key that would go live is fit to. */
  ghost predicate AddsGoodPages(rows: seq<Row>, e: Edit, planned: set<Key>) {
    var after := SavedRows(rows, e);
    forall i | |rows| <= i < |after| && after[i].key in planned && after[i].status in PENDING :: !Unfit(after[i].page)
  }

  lemma OneStep(s: Store, step: Step)
    ensures Run(s, [step]) == Apply(s, step)
  {
    assert [step][..0] == [] && Run(s, []) == s;
  }

  /** After a check that refused nothing, one edit saved in between leaves every live page fit to be read
      exactly when every version it adds to a planned key is: the rest was read by the check. */
  lemma SaveInBetweenIff(s: Store, languages: seq<Language>, only: seq<Level>, e: Edit)
    requires Sound(s) && EditOk(e) && !AnyRefused(s, languages, only)
    ensures var planned := PlannedKeys(s, languages, only);
            LivePagesOk(PublishKeys(SavedRows(s.rows, e), planned)) <==> AddsGoodPages(s.rows, e, planned)
  {
    hide SavedRows, AnyRefused, Unfit, PlannedKeys, Ordered, Newest, LivePagesOk, Sound;
    var planned, rows := PlannedKeys(s, languages, only), SavedRows(s.rows, e);
    SoundStore(s);
    SavingKeepsOrder(s.rows, e);
    OneStep(s, Save(e));
    RunInBetweenIff(s, [Save(e)], planned);
    if AddsGoodPages(s.rows, e, planned) {
      forall k | k in planned && Newest(rows, k, PENDING).Some?
        ensures !Unfit(rows[Newest(rows, k, PENDING).value].page)
      {
        var d := Newest(rows, k, PENDING).value;
        if d < |s.rows| { RestWasRead(s, languages, only, e, k, d); }
      }
    }
    if PromotedPagesOk(rows, planned) {
      forall i | |s.rows| <= i < |rows| && rows[i].key in planned && rows[i].status in PENDING
        ensures !Unfit(rows[i].page)
      {
        AddedIsNewest(s.rows, e, i);
      }
    }
  }

  // ---- what breaks a page ----------------------------------------------------------------

  lemma UnfitVersionIsPromoted(rows: seq<Row>, row: Row, planned: set<Key>)
    requires Ordered(rows + [row]) && row.key in planned && row.status in PENDING && Unfit(row.page)
    ensures !PromotedPagesOk(rows + [row], planned)
  {
    hide Unfit;
    var after, n := rows + [row], |rows|;
    assert Matches(after[n], row.key, PENDING);
    assert Newest(after, row.key, PENDING) == Some(n);
  }

  // One step that adds an unfit version to a planned key.
  lemma UnfitVersionGoesLive(s: Store, step: Step, row: Row, planned: set<Key>)
    requires Sound(s) && StepOk(step) && Apply(s, step).rows == s.rows + [row]
    requires row.key in planned && row.status in PENDING && Unfit(row.page)
    ensures !LivePagesOk(PublishKeys(Run(s, [step]).rows, planned))
  {
    hide Unfit, LivePagesOk, PromotedPagesOk, Sound, Ordered, Apply;
    OneStep(s, step);
    EveryRunIsSound(s, [step]);
    SoundStore(Run(s, [step]));
    RunInBetweenIff(s, [step], planned);
    UnfitVersionIsPromoted(s.rows, row, planned);
  }

  function Untitled(k: Key): Step { Save(Edit(k, Some(""), None, None, Draft, None)) }

  /** For every key about to be published there is an edit that goes live unread and breaks its page. */
  lemma SaveBetweenCheckAndPublish(s: Store, planned: set<Key>, k: Key)
    requires Sound(s) && k in planned
    ensures StepOk(Untitled(k)) && !LivePagesOk(PublishKeys(Run(s, [Untitled(k)]).rows, planned))
  {
    var e := Edit(k, Some(""), None, None, Draft, None);
    UnfitVersionGoesLive(s, Untitled(k), SavedRow(s.rows, e), planned) by { hide Sound, Newest; }
  }

  function UntitledLesson(k: Key): Step {
    Generate(k.language, [GeneratedLevel(k.level, true, "", Page("", "", Body("x", "x", 1, 1)), [])])
  }

  /** And a generation: what is generated is checked for its text and examples, not for its title. */
  lemma GenerationBetweenCheckAndPublish(s: Store, planned: set<Key>, k: Key)
    requires Sound(s) && k in planned
    ensures StepOk(UntitledLesson(k)) && !LivePagesOk(PublishKeys(Run(s, [UntitledLesson(k)]).rows, planned))
  {
    var g := GeneratedLevel(k.level, true, "", Page("", "", Body("x", "x", 1, 1)), []);
    assert [g][..0] == [] && GeneratedRows(s.rows, k.language, []) == s.rows;
    UnfitVersionGoesLive(s, UntitledLesson(k), GeneratedRow(s.rows, k.language, g), planned) by { hide Sound, Newest; }
  }

  lemma NothingPlannedIsHarmless(s: Store, planned: set<Key>, steps: seq<Step>)
    requires Sound(s) && planned == {} && forall step | step in steps :: StepOk(step)
    ensures LivePagesOk(PublishKeys(Run(s, steps).rows, planned))
  {
    hide Sound, LivePagesOk, Run;
    RunInBetweenIff(s, steps, planned);
    assert PromotedPagesOk(Run(s, steps).rows, planned);
  }

  /** So everything the builder may do in between is harmless exactly when nothing is about to be
      published. */
  lemma EveryRunIsHarmlessIff(s: Store, planned: set<Key>)
    requires Sound(s)
    ensures (forall steps | (forall step | step in steps :: StepOk(step)) ::
               LivePagesOk(PublishKeys(Run(s, steps).rows, planned)))
            <==> planned == {}
  {
    hide Sound, LivePagesOk, StepOk, Run;
    if planned == {} {
      forall steps | (forall step | step in steps :: StepOk(step))
        ensures LivePagesOk(PublishKeys(Run(s, steps).rows, planned))
      {
        NothingPlannedIsHarmless(s, planned, steps);
      }
    } else {
      var k :| k in planned;
      SaveBetweenCheckAndPublish(s, planned, k);
      assert forall step | step in [Untitled(k)] :: StepOk(step);
    }
  }

  /** Edits alone, too. */
  lemma EveryEditIsHarmlessIff(s: Store, planned: set<Key>)
    requires Sound(s)
    ensures (forall e | EditOk(e) :: LivePagesOk(PublishKeys(SavedRows(s.rows, e), planned))) <==> planned == {}
  {
    hide Sound, LivePagesOk, SavedRows, Run;
    if planned == {} {
      forall e | EditOk(e) ensures LivePagesOk(PublishKeys(SavedRows(s.rows, e), planned)) {
        OneStep(s, Save(e));
        NothingPlannedIsHarmless(s, planned, [Save(e)]);
      }
    } else {
      var k :| k in planned;
      var e := Edit(k, Some(""), None, None, Draft, None);
      OneStep(s, Save(e));
      SaveBetweenCheckAndPublish(s, planned, k);
    }
  }
}
