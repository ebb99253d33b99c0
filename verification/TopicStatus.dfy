/** TopicStatus: publishing a topic by its status - every live version of it retired, then the newest
    row of each language put live, whatever its level.

    Models the transaction of setGrammarStatus in apps/api/internal/admin/grammar.go, which works on
    the same rows as the content builder. */
module TopicStatus {
  import opened Options
  import opened Publishing
  import opened PageChecks
  import opened BuilderRuns

  // The row each language's newest version is read from; of several equally new ones, any.
  type Picks = Language -> Option<nat>

  ghost predicate NewestOfLanguage(rows: seq<Row>, picks: Picks) {
    forall language ::
      match picks(language)
      case None => forall i | 0 <= i < |rows| :: rows[i].key.language != language
      case Some(p) =>
        && p < |rows| && rows[p].key.language == language
        && forall i | 0 <= i < |rows| && rows[i].key.language == language :: rows[i].version <= rows[p].version
  }

  function TopicPublished(rows: seq<Row>, picks: Picks): (r: seq<Row>)
    ensures |r| == |rows|
  {
    seq(|rows|, i requires 0 <= i < |rows| =>
      if picks(rows[i].key.language) == Some(i) then rows[i].(status := Live)
      else if rows[i].status == Live then rows[i].(status := Archived)
      else rows[i])
  }

  /** A language is left with one live row in all, so no key ever has two. */
  lemma OneLivePerLanguage(rows: seq<Row>, picks: Picks)
    ensures var r := TopicPublished(rows, picks);
            && TextKept(rows, r) && OneLive(r)
            && forall i, j | 0 <= i < j < |r| && r[i].key.language == r[j].key.language ::
               !(r[i].status == Live && r[j].status == Live)
  {
  }

  /** No level goes dark exactly when each language's live versions are all of the level its newest row
      is of. A topic with two live levels in a language loses one. */
  lemma StaysLitIff(rows: seq<Row>, picks: Picks)
    requires NewestOfLanguage(rows, picks)
    ensures NothingGoesDark(rows, TopicPublished(rows, picks))
            <==> forall i | 0 <= i < |rows| && rows[i].status == Live ::
                 rows[picks(rows[i].key.language).value].key == rows[i].key
  {
    var r := TopicPublished(rows, picks);
    forall i | 0 <= i < |rows| && rows[i].status == Live
      ensures LiveAtLeast(r, rows[i].key, rows[i].version)
              <==> rows[picks(rows[i].key.language).value].key == rows[i].key
    {
      var p := picks(rows[i].key.language).value;
      assert r[p].status == Live && r[p].key == rows[p].key && rows[i].version <= r[p].version;
      if LiveAtLeast(r, rows[i].key, rows[i].version) {
        var j :| 0 <= j < |r| && r[j].key == rows[i].key && r[j].status == Live && rows[i].version <= r[j].version;
        assert j == p;
      }
    }
  }

  /** Nothing is read before it is put live: every live page is fit to be read exactly when the newest row
      of each language, whatever its status, is. */
  lemma LivePagesStayOkIff(rows: seq<Row>, picks: Picks)
    requires NewestOfLanguage(rows, picks)
    ensures LivePagesOk(TopicPublished(rows, picks))
            <==> forall language | picks(language).Some? :: !Unfit(rows[picks(language).value].page)
  {
    hide Unfit;
    var r := TopicPublished(rows, picks);
    if LivePagesOk(r) {
      forall language | picks(language).Some? ensures !Unfit(rows[picks(language).value].page) {
        assert r[picks(language).value].status == Live;
      }
    }
    if forall language | picks(language).Some? :: !Unfit(rows[picks(language).value].page) {
      forall i | 0 <= i < |r| && r[i].status == Live ensures !Unfit(r[i].page) {
        assert picks(rows[i].key.language) == Some(i);
      }
    }
  }

  /** So a level that was refused, or an edit that was never finished, goes live when it is the newest row
      of its language. */
  lemma RefusalGoesLive(rows: seq<Row>, picks: Picks, language: Language)
    requires NewestOfLanguage(rows, picks)
    requires picks(language).Some? && rows[picks(language).value].page.body == EMPTY_BODY
    ensures !LivePagesOk(TopicPublished(rows, picks))
  {
    LivePagesStayOkIff(rows, picks);
    hide LivePagesOk;
    assert Unfit(rows[picks(language).value].page);
  }

  /** Every live row is of its language's pick's key, and that key has nothing pending but the pick. */
  ghost predicate OnlyPicksMove(rows: seq<Row>, picks: Picks)
    requires NewestOfLanguage(rows, picks)
  {
    && (forall i | 0 <= i < |rows| && rows[i].status == Live ::
          rows[picks(rows[i].key.language).value].key == rows[i].key)
    && (forall i | 0 <= i < |rows| && rows[i].status in PENDING
                   && rows[i].key == rows[picks(rows[i].key.language).value].key ::
          picks(rows[i].key.language) == Some(i))
  }

  // A pick is the last row of its key, and never archived history.
  lemma PickIsLast(rows: seq<Row>, picks: Picks, i: nat)
    requires Ordered(rows) && NewestOfLanguage(rows, picks) && i < |rows|
    ensures var p := picks(rows[i].key.language);
            && p.Some? && p.value < |rows| && rows[p.value].key.language == rows[i].key.language
            && (rows[p.value].key == rows[i].key ==> i <= p.value)
            && rows[p.value].status != Archived
  {
    var p := picks(rows[i].key.language).value;
    assert rows[i].version <= rows[p].version;
    OrderedMeansOrderedByVersion(rows);
    assert rows[p].status == Archived ==> HasLive(rows, rows[p].key);
  }

  lemma PickedKeepsOrder(rows: seq<Row>, picks: Picks, i: nat, j: nat)
    requires Ordered(rows) && NewestOfLanguage(rows, picks) && OnlyPicksMove(rows, picks)
    requires i < j < |rows| && rows[i].key == rows[j].key
    ensures MayFollow(TopicPublished(rows, picks)[i].status, TopicPublished(rows, picks)[j].status)
  {
    PickIsLast(rows, picks, i);
    PickIsLast(rows, picks, j);
    assert MayFollow(rows[i].status, rows[j].status);
  }

  lemma PickedKeepsSuccessors(rows: seq<Row>, picks: Picks, i: nat)
    requires Ordered(rows) && NewestOfLanguage(rows, picks) && OnlyPicksMove(rows, picks)
    requires i < |rows| && TopicPublished(rows, picks)[i].status == Archived
    ensures HasLive(TopicPublished(rows, picks), rows[i].key)
  {
    var r := TopicPublished(rows, picks);
    PickIsLast(rows, picks, i);
    var p := picks(rows[i].key.language).value;
    if rows[i].status == Archived {
      assert HasLive(rows, rows[i].key);
      var j :| 0 <= j < |rows| && rows[j].key == rows[i].key && rows[j].status == Live;
      assert rows[p].key == rows[j].key;
    }
    assert r[p].status == Live && r[p].key == rows[i].key;
  }

  lemma OrderNeedsPicks(rows: seq<Row>, picks: Picks, i: nat)
    requires Ordered(rows) && NewestOfLanguage(rows, picks) && Ordered(TopicPublished(rows, picks)) && i < |rows|
    ensures var p := picks(rows[i].key.language);
            && p.Some? && p.value < |rows|
            && (rows[i].status == Live ==> rows[p.value].key == rows[i].key)
            && (rows[i].status in PENDING && rows[p.value].key == rows[i].key ==> p == Some(i))
  {
    var r := TopicPublished(rows, picks);
    PickIsLast(rows, picks, i);
    var p := picks(rows[i].key.language).value;
    assert r[p].status == Live && r[p].key == rows[p].key;
    assert r[i].status == Archived ==> HasLive(r, rows[i].key);
    assert i < p && rows[i].key == rows[p].key ==> MayFollow(r[i].status, r[p].status);
  }

  /** A history in order stays so exactly when every live row is of the level its language's newest row
      is of, and nothing else of that level is pending. */
  lemma OrderSurvivesIff(rows: seq<Row>, picks: Picks)
    requires Ordered(rows) && NewestOfLanguage(rows, picks)
    ensures Ordered(TopicPublished(rows, picks)) <==> OnlyPicksMove(rows, picks)
  {
    hide MayFollow, HasLive;
    var r := TopicPublished(rows, picks);
    if OnlyPicksMove(rows, picks) {
      forall i, j | 0 <= i < j < |r| && r[i].key == r[j].key
        ensures MayFollow(r[i].status, r[j].status)
      {
        PickedKeepsOrder(rows, picks, i, j);
      }
      forall i | 0 <= i < |r| && r[i].status == Archived
        ensures HasLive(r, r[i].key)
      {
        PickedKeepsSuccessors(rows, picks, i);
      }
    }
    if Ordered(r) {
      forall i | 0 <= i < |rows| { OrderNeedsPicks(rows, picks, i); }
    }
  }

  /** Two drafts of one level are such a history: the older is left below the one put live. */
  lemma OrderIsLost(k: Key, draft: Page, next: Page)
    ensures var rows := [Row(k, 1, Draft, draft, Curated), Row(k, 2, Draft, next, Curated)];
            forall picks | NewestOfLanguage(rows, picks) :: Ordered(rows) && !Ordered(TopicPublished(rows, picks))
  {
    var rows := [Row(k, 1, Draft, draft, Curated), Row(k, 2, Draft, next, Curated)];
    forall picks | NewestOfLanguage(rows, picks) ensures Ordered(rows) && !Ordered(TopicPublished(rows, picks)) {
      var r := TopicPublished(rows, picks);
      var p := picks(k.language);
      assert rows[1].key.language == k.language;
      assert p.Some? && rows[1].version <= rows[p.value].version;
      assert r[0].status == Draft && r[1].status == Live;
      assert !MayFollow(r[0].status, r[1].status);
    }
  }
}
