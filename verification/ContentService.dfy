/** ContentService: the handlers as they run, statement by statement, over the tables of all items and of
    all their versions.

    Models apps/api/internal/admin/content.go. */
module ContentService {
  import opened Options
  import Text
  import opened ContentHistory

  type Id = int

  /** A row of content_item_versions. */
  datatype Row = Row(id: Id, snapshot: Snapshot)

  /** The log of one item: its rows, in the order they were written. */
  function LogOf(rows: seq<Row>, id: Id): seq<Snapshot> {
    if rows == [] then []
    else
      var n := |rows| - 1;
      LogOf(rows[..n], id) + if rows[n].id == id then [rows[n].snapshot] else []
  }

  lemma OneMoreRow(rows: seq<Row>, r: Row, id: Id)
    ensures LogOf(rows + [r], id) == if r.id == id then LogOf(rows, id) + [r.snapshot] else LogOf(rows, id)
  {
    assert (rows + [r])[..|rows|] == rows;
  }

  predicate IsVersion(r: Row, id: Id, version: nat) { r.id == id && r.snapshot.version == version }

  // The update of the rows of one version of one item.
  function RowsWithStatus(rows: seq<Row>, id: Id, version: nat, status: string): (r: seq<Row>)
    ensures |r| == |rows|
  {
    seq(|rows|, i requires 0 <= i < |rows| =>
        if IsVersion(rows[i], id, version) then rows[i].(snapshot := rows[i].snapshot.(status := status)) else rows[i])
  }

  lemma {:induction false} StatusInItsLogOnly(rows: seq<Row>, id: Id, version: nat, status: string, other: Id)
    ensures LogOf(RowsWithStatus(rows, id, version, status), other)
            == if other == id then WithStatus(LogOf(rows, id), version, status) else LogOf(rows, other)
  {
    if rows != [] {
      var n := |rows| - 1;
      StatusInItsLogOnly(rows[..n], id, version, status, other);
      assert RowsWithStatus(rows, id, version, status)[..n] == RowsWithStatus(rows[..n], id, version, status);
      if rows[n].id == id {
        StatusOfJoined(LogOf(rows[..n], id), rows[n].snapshot, version, status);
      }
    }
  }

  lemma StatusOfJoined(log: seq<Snapshot>, s: Snapshot, version: nat, status: string)
    ensures WithStatus(log + [s], version, status)
            == WithStatus(log, version, status) + [if s.version == version then s.(status := status) else s]
  {
  }

  class ContentStore {
    var items: map<Id, Item>
    var versions: seq<Row>
    const norm: Norm

    /** One item and its log, as the two tables hold them. */
    ghost function Contents(id: Id): Content
      reads this
    {
      Content(if id in items then Some(items[id]) else None, LogOf(versions, id))
    }

    constructor (norm: Norm)
      ensures this.norm == norm && forall id :: Contents(id) == Run([], norm)
    {
      this.norm, items, versions := norm, map[], [];
    }

    method Insert(id: Id, s: Snapshot)
      modifies this`versions
      ensures LogOf(versions, id) == old(LogOf(versions, id)) + [s]
      ensures forall other | other != id :: LogOf(versions, other) == old(LogOf(versions, other))
    {
      forall other
        ensures LogOf(versions + [Row(id, s)], other)
                == if other == id then LogOf(versions, other) + [s] else LogOf(versions, other)
      {
        OneMoreRow(versions, Row(id, s), other);
      }
      versions := versions + [Row(id, s)];
    }

    /** Two statements: the item, then version 1 of its log. */
    method CreateContent(id: Id, title: string, body: Option<Body>, difficulty: Option<int>, tags: Option<seq<string>>,
        fault: Fault)
      returns (outcome: Outcome)
      requires id !in items
      modifies this
      ensures (Contents(id), outcome) == Take(old(Contents(id)), Create(title, body, difficulty, tags, fault), norm)
      ensures forall other | other != id :: Contents(other) == old(Contents(other))
    {
      if fault == AtStart {
        return Failed;
      }
      var text := Wording(title, body.GetOr(EMPTY_BODY), difficulty.GetOr(5), tags.GetOr([]));
      items := items[id := Item(text, "draft", 1)];
      if fault == Between {
        return Failed;
      }
      Insert(id, SnapshotOf(items[id], "Created"));
      return Ended(fault);
    }

    /** One transaction: the item is locked, edited and, if a learner would notice, logged. */
    method UpdateContent(id: Id, e: Edit, fault: Fault) returns (outcome: Outcome)
      modifies this
      ensures (Contents(id), outcome) == Take(old(Contents(id)), Update(e, fault), norm)
      ensures forall other | other != id :: Contents(other) == old(Contents(other))
    {
      if id !in items {
        return NotFound;
      }
      var current := items[id];
      var revised := Changed(current.text, e, norm);
      if fault == AtStart || fault == Between {
        return Failed;
      }
      items := items[id := Item(Edited(current.text, e), current.status, current.version + if revised then 1 else 0)];
      if revised {
        Insert(id, SnapshotOf(items[id], e.note.GetOr("")));
      }
      return Ended(fault);
    }

    /** Two statements: the item's status, then that of its current snapshot. */
    method SetContentStatus(id: Id, status: string, answerable: bool, fault: Fault) returns (outcome: Outcome)
      modifies this
      ensures (Contents(id), outcome) == Take(old(Contents(id)), SetStatus(status, answerable, fault), norm)
      ensures forall other | other != id :: Contents(other) == old(Contents(other))
    {
      if id !in items {
        return NotFound;
      }
      if status == "published" && !answerable {
        return Conflict;
      }
      if fault == AtStart {
        return Failed;
      }
      items := items[id := items[id].(status := status)];
      if fault == Between {
        return Failed;
      }
      ghost var version := items[id].version;
      forall other
        ensures LogOf(RowsWithStatus(versions, id, version, status), other)
                == if other == id then WithStatus(LogOf(versions, id), version, status) else LogOf(versions, other)
      {
        StatusInItsLogOnly(versions, id, version, status, other);
      }
      versions := RowsWithStatus(versions, id, items[id].version, status);
      return Ended(fault);
    }

    /** One transaction: an old snapshot's text comes back as a new version. */
    method RestoreContentVersion(id: Id, version: nat, fault: Fault) returns (outcome: Outcome)
      modifies this
      ensures (Contents(id), outcome) == Take(old(Contents(id)), Restore(version, fault), norm)
      ensures forall other | other != id :: Contents(other) == old(Contents(other))
    {
      if id !in items {
        return NotFound;
      }
      var current := items[id];
      if current.version == version {
        return Conflict;
      }
      var found := Find(LogOf(versions, id), version);
      if found.None? {
        return NotFound;
      }
      if fault == AtStart || fault == Between {
        return Failed;
      }
      items := items[id := Item(found.value.text, current.status, current.version + 1)];
      Insert(id, SnapshotOf(items[id], "Restored from version " + Text.Decimal(version)));
      return Ended(fault);
    }
  }
}
