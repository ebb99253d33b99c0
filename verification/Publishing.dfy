/** Publishing: the version and status history of one grammar topic's content.

    The three tables of a topic are flat sequences of rows; a row keeps its place for ever, so a
    row's index is its identity. Models apps/api/internal/admin/grammar_builder.go with its
    siblings grammar_tasks.go, grammar_map.go and grammar_generate_job.go. */
module Publishing {
  import opened Cefr
  import opened Options

  datatype Language = En | Uz | Ru
  datatype Status = Draft | Review | Live | Archived | NotApplicable
  datatype Source = Ai | Curated
  datatype Key = Key(language: Language, level: Level)

  datatype Body = Body(intro: string, explanation: string, examples: nat, formulas: nat)
  datatype Page = Page(title: string, summary: string, body: Body)
  datatype Row = Row(key: Key, version: nat, status: Status, page: Page, source: Source)

  const EMPTY_BODY := Body("", "", 0, 0)
  const PENDING := {Draft, Review}
  const ANY := {Draft, Review, Live, Archived, NotApplicable}

  // ---- the newest row of a key -----------------------------------------------------------

  predicate Matches(row: Row, k: Key, want: set<Status>) {
    row.key == k && row.status in want
  }

  /** ORDER BY version DESC LIMIT 1, over the rows of key k whose status is wanted. */
  function Newest(rows: seq<Row>, k: Key, want: set<Status>): (r: Option<nat>)
    ensures r.None? ==> forall i | 0 <= i < |rows| :: !Matches(rows[i], k, want)
    ensures r.Some? ==>
              && r.value < |rows| && Matches(rows[r.value], k, want)
              && forall i | 0 <= i < |rows| && Matches(rows[i], k, want) :: rows[i].version <= rows[r.value].version
  {
    if rows == [] then None
    else
      var n := |rows| - 1;
      var r := Newest(rows[..n], k, want);
      if Matches(rows[n], k, want) && (r.None? || rows[r.value].version <= rows[n].version) then Some(n) else r
  }

  /** Only the key's own rows matter, and of those only whether they are wanted and how new they are. */
  lemma {:induction false} NewestIsLocal(rows: seq<Row>, rows': seq<Row>, k: Key, want: set<Status>)
    requires |rows| == |rows'|
    requires forall i | 0 <= i < |rows| ::
               && Matches(rows[i], k, want) == Matches(rows'[i], k, want)
               && rows[i].version == rows'[i].version
    ensures Newest(rows, k, want) == Newest(rows', k, want)
  {
    if rows != [] {
      var n := |rows| - 1;
      NewestIsLocal(rows[..n], rows'[..n], k, want);
    }
  }

  function NextVersion(rows: seq<Row>, k: Key): nat {
    match Newest(rows, k, ANY)
    case None => 1
    case Some(i) => rows[i].version + 1
  }

  // ---- the ordering invariant ------------------------------------------------------------

  /** What may come after what in one key's history: behind pending or live text there is
      neither live nor archived text. */
  predicate MayFollow(earlier: Status, later: Status) {
    earlier in {Draft, Review, Live} ==> later !in {Live, Archived}
  }

  predicate VersionsGrow(rows: seq<Row>) {
    forall i, j | 0 <= i < j < |rows| && rows[i].key == rows[j].key :: rows[i].version < rows[j].version
  }

  predicate StatusesInOrder(rows: seq<Row>) {
    forall i, j | 0 <= i < j < |rows| && rows[i].key == rows[j].key :: MayFollow(rows[i].status, rows[j].status)
  }

  ghost predicate HasLive(rows: seq<Row>, k: Key) {
    exists j :: 0 <= j < |rows| && rows[j].key == k && rows[j].status == Live
  }

  // Only a publish archives, and a publish leaves something live.
  ghost predicate ArchivedHasSuccessor(rows: seq<Row>) {
    forall i | 0 <= i < |rows| && rows[i].status == Archived :: HasLive(rows, rows[i].key)
  }

  /** Per key: archived versions, then at most one live version, then pending ones. */
  ghost predicate Ordered(rows: seq<Row>) {
    VersionsGrow(rows) && StatusesInOrder(rows) && ArchivedHasSuccessor(rows)
  }

  predicate OneLive(rows: seq<Row>) {
    forall i, j | 0 <= i < j < |rows| && rows[i].key == rows[j].key ::
      !(rows[i].status == Live && rows[j].status == Live)
  }

  /** The order by position is an order by version: archived below live, pending above it, and
      never two live versions of one key. */
  lemma OrderedMeansOrderedByVersion(rows: seq<Row>)
    requires Ordered(rows)
    ensures OneLive(rows)
    ensures forall i, p | 0 <= i < |rows| && 0 <= p < |rows| && rows[i].key == rows[p].key && rows[p].status == Live ::
              && (rows[i].status == Archived ==> rows[i].version < rows[p].version)
              && (rows[i].status in PENDING ==> rows[i].version > rows[p].version)
  {
    forall i, p | 0 <= i < |rows| && 0 <= p < |rows| && rows[i].key == rows[p].key && rows[p].status == Live
      ensures rows[i].status == Archived ==> rows[i].version < rows[p].version
      ensures rows[i].status in PENDING ==> rows[i].version > rows[p].version
    {
      assert i < p ==> MayFollow(rows[i].status, rows[p].status);
      assert p < i ==> MayFollow(rows[p].status, rows[i].status);
    }
    forall i, j | 0 <= i < j < |rows| && rows[i].key == rows[j].key
      ensures !(rows[i].status == Live && rows[j].status == Live)
    {
      assert MayFollow(rows[i].status, rows[j].status);
    }
  }

  /** The newest row of a key is never an archived one; if it is live, nothing is pending. */
  lemma NewestIsCurrent(rows: seq<Row>, k: Key)
    requires Ordered(rows) && Newest(rows, k, ANY).Some?
    ensures var i := Newest(rows, k, ANY).value;
            && rows[i].status != Archived
            && (rows[i].status in PENDING ==> Newest(rows, k, PENDING) == Some(i))
            && (rows[i].status == Live ==> Newest(rows, k, PENDING).None?)
  {
    OrderedMeansOrderedByVersion(rows);
    var i := Newest(rows, k, ANY).value;
    if Newest(rows, k, PENDING).Some? {
      var d := Newest(rows, k, PENDING).value;
      assert Matches(rows[d], k, ANY);
      assert rows[i].status in PENDING ==> Matches(rows[i], k, PENDING);
      assert d < i ==> rows[d].version < rows[i].version;
    }
  }

  // ---- growing a history -----------------------------------------------------------------

  /** Rows are only ever added, and what a row says, its key and its version never change. */
  predicate TextKept(rows: seq<Row>, rows': seq<Row>) {
    && |rows| <= |rows'|
    && forall i | 0 <= i < |rows| :: rows'[i] == rows[i].(status := rows'[i].status)
  }

  ghost predicate LiveAtLeast(rows: seq<Row>, k: Key, version: nat) {
    exists j :: 0 <= j < |rows| && rows[j].key == k && rows[j].status == Live && version <= rows[j].version
  }

  /** A key with a live version still has one, at least as new. */
  ghost predicate NothingGoesDark(rows: seq<Row>, rows': seq<Row>) {
    forall i | 0 <= i < |rows| && rows[i].status == Live :: LiveAtLeast(rows', rows[i].key, rows[i].version)
  }

  ghost predicate Evolves(rows: seq<Row>, rows': seq<Row>) {
    TextKept(rows, rows') && NothingGoesDark(rows, rows')
  }

  lemma EvolvesIsReflexive(rows: seq<Row>)
    ensures Evolves(rows, rows)
  {
    assert TextKept(rows, rows);
  }

  lemma EvolvesIsTransitive(a: seq<Row>, b: seq<Row>, c: seq<Row>)
    requires Evolves(a, b) && Evolves(b, c)
    ensures Evolves(a, c)
  {
    forall i | 0 <= i < |a| && a[i].status == Live
      ensures LiveAtLeast(c, a[i].key, a[i].version)
    {
      var j :| 0 <= j < |b| && b[j].key == a[i].key && b[j].status == Live && a[i].version <= b[j].version;
      assert LiveAtLeast(c, b[j].key, b[j].version);
    }
    assert TextKept(a, c) by {
      forall i | 0 <= i < |a|
        ensures c[i] == a[i].(status := c[i].status)
      {
        assert b[i] == a[i].(status := b[i].status);
      }
    }
  }

  // ---- inserting a version ---------------------------------------------------------------

  predicate NewVersion(rows: seq<Row>, row: Row) {
    row.version == NextVersion(rows, row.key) && row.status in {Draft, Review, NotApplicable}
  }

  lemma InsertKeepsOrdered(rows: seq<Row>, row: Row)
    requires Ordered(rows) && NewVersion(rows, row)
    ensures Ordered(rows + [row]) && Evolves(rows, rows + [row])
  {
    var rows' := rows + [row];
    forall i | 0 <= i < |rows| && rows[i].key == row.key
      ensures rows[i].version < row.version
    {
      assert Matches(rows[i], row.key, ANY);
    }
    forall i | 0 <= i < |rows'| && rows'[i].status == Archived
      ensures HasLive(rows', rows'[i].key)
    {
      var j :| 0 <= j < |rows| && rows[j].key == rows[i].key && rows[j].status == Live;
      assert rows'[j] == rows[j];
    }
    forall i | 0 <= i < |rows| && rows[i].status == Live
      ensures LiveAtLeast(rows', rows[i].key, rows[i].version)
    {
      assert rows'[i] == rows[i];
    }
  }

  // ---- promoting the newest pending version ----------------------------------------------

  /** What a publish of its key makes of row i: the newest pending version goes live, what was
      live or pending besides it becomes history. */
  function Promoted(rows: seq<Row>, i: nat): Row
    requires i < |rows|
  {
    match Newest(rows, rows[i].key, PENDING)
    case None => rows[i]
    case Some(d) =>
      if i == d then rows[i].(status := Live)
      else if rows[i].status in {Draft, Review, Live} then rows[i].(status := Archived)
      else rows[i]
  }

  function PublishKeys(rows: seq<Row>, keys: set<Key>): seq<Row> {
    seq(|rows|, i requires 0 <= i < |rows| => if rows[i].key in keys then Promoted(rows, i) else rows[i])
  }

  lemma PublishedRow(rows: seq<Row>, keys: set<Key>, k: Key)
    requires k in keys && Newest(rows, k, PENDING).Some?
    ensures HasLive(PublishKeys(rows, keys), k)
  {
    var d := Newest(rows, k, PENDING).value;
    assert PublishKeys(rows, keys)[d].status == Live && PublishKeys(rows, keys)[d].key == k;
  }

  lemma PublishKeepsStatusOrder(rows: seq<Row>, keys: set<Key>)
    requires VersionsGrow(rows) && StatusesInOrder(rows)
    ensures VersionsGrow(PublishKeys(rows, keys)) && StatusesInOrder(PublishKeys(rows, keys))
  {
    var rows' := PublishKeys(rows, keys);
    forall i, j | 0 <= i < j < |rows'| && rows'[i].key == rows'[j].key
      ensures MayFollow(rows'[i].status, rows'[j].status)
    {
      var k := rows[i].key;
      assert rows[j].key == k && MayFollow(rows[i].status, rows[j].status) && rows[i].version < rows[j].version;
      if k in keys && Newest(rows, k, PENDING).Some? {
        var d := Newest(rows, k, PENDING).value;
        assert rows[j].status in PENDING ==> Matches(rows[j], k, PENDING);
        assert rows[i].status in PENDING ==> Matches(rows[i], k, PENDING);
        assert d < j ==> MayFollow(rows[d].status, rows[j].status) && rows[d].version < rows[j].version;
      }
    }
  }

  lemma PublishKeepsOrdered(rows: seq<Row>, keys: set<Key>)
    requires Ordered(rows)
    ensures Ordered(PublishKeys(rows, keys))
  {
    var rows' := PublishKeys(rows, keys);
    PublishKeepsStatusOrder(rows, keys);
    forall i | 0 <= i < |rows'| && rows'[i].status == Archived
      ensures HasLive(rows', rows'[i].key)
    {
      var k := rows[i].key;
      if k in keys && Newest(rows, k, PENDING).Some? {
        PublishedRow(rows, keys, k);
      } else {
        assert HasLive(rows, k);
        var j :| 0 <= j < |rows| && rows[j].key == k && rows[j].status == Live;
        assert rows'[j] == rows[j];
      }
    }
  }

  lemma PublishEvolves(rows: seq<Row>, keys: set<Key>)
    requires Ordered(rows)
    ensures Evolves(rows, PublishKeys(rows, keys))
  {
    var rows' := PublishKeys(rows, keys);
    OrderedMeansOrderedByVersion(rows);
    forall i | 0 <= i < |rows| && rows[i].status == Live
      ensures LiveAtLeast(rows', rows[i].key, rows[i].version)
    {
      var k := rows[i].key;
      if k in keys && Newest(rows, k, PENDING).Some? {
        var d := Newest(rows, k, PENDING).value;
        assert rows'[d].status == Live && rows'[d].key == k && rows[i].version <= rows'[d].version;
      } else {
        assert rows'[i] == rows[i];
      }
    }
  }

  /** After a publish of a key nothing of it is pending, so a second publish finds nothing to do. */
  lemma PublishTwice(rows: seq<Row>, keys: set<Key>)
    ensures forall k | k in keys :: Newest(PublishKeys(rows, keys), k, PENDING).None?
    ensures PublishKeys(PublishKeys(rows, keys), keys) == PublishKeys(rows, keys)
  {
    var rows' := PublishKeys(rows, keys);
    forall i | 0 <= i < |rows| && rows[i].key in keys
      ensures rows'[i].status !in PENDING
    {
      assert rows[i].status in PENDING ==> Matches(rows[i], rows[i].key, PENDING);
    }
  }
}
