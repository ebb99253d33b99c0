/** StatusRaces: the two statements of a creation and of each status change of one content item,
    interleaved with each other and with edits and restores.

    About createContent and setContentStatus in apps/api/internal/admin/content.go. A creation inserts the
    item and then its first snapshot, a change writes the item's status and then that of its current
    snapshot, both outside any transaction. */
module StatusRaces {
  import opened Options
  import opened ContentHistory

  datatype Event =
    | Begin(call: nat)    // a change that was not refused writes the item's status
    | End(call: nat)      // and then that of whichever snapshot is current
    | Whole(step: Step)   // an edit or a restore, in one transaction
    | First               // the second statement of the item's creation logs what the item says by then

  // The statuses the calls ask for.
  type Asked = nat -> string

  // Who wrote a status.
  datatype Source = Initially | Call(call: nat)

  /** The item, and where its status and that of its current snapshot come from. */
  datatype Race = Race(content: Content, item: Source, log: Source)

  predicate Transaction(e: Event) { e.Whole? ==> e.step.Update? || e.step.Restore? }

  // A version is logged once: a second row of it would be refused.
  predicate Logged(c: Content, version: nat) { exists k :: 0 <= k < |c.log| && c.log[k].version == version }

  function Happen(r: Race, e: Event, asked: Asked, norm: Norm): Race
    requires r.content.item.Some? && Transaction(e)
  {
    var i := r.content.item.value;
    match e
    case Begin(call) => Race(r.content.(item := Some(i.(status := asked(call)))), Call(call), r.log)
    case End(call) => Race(r.content.(log := WithStatus(r.content.log, i.version, asked(call))), r.item, Call(call))
    case Whole(step) =>
      var after := Take(r.content, step, norm).0;
      Race(after, r.item, if |after.log| > |r.content.log| then r.item else r.log)
    case First =>
      if Logged(r.content, i.version) then r
      else Race(r.content.(log := r.content.log + [SnapshotOf(i, "Created")]), r.item, r.item)
  }

  function Run(c: Content, events: seq<Event>, asked: Asked, norm: Norm): (r: Race)
    requires c.item.Some? && forall e | e in events :: Transaction(e)
    ensures r.content.item.Some?
  {
    if events == [] then Race(c, Initially, Initially)
    else
      var n := |events| - 1;
      assert events[n] in events && forall e | e in events[..n] :: e in events;
      Happen(Run(c, events[..n], asked, norm), events[n], asked, norm)
  }

  // What a source wrote, of an item that started with a status.
  function Wrote(s: Source, status: string, asked: Asked): string {
    match s
    case Initially => status
    case Call(call) => asked(call)
  }

  /** The history agrees but for the statuses, and those are what their sources wrote. */
  predicate Traced(r: Race, status: string, asked: Asked, norm: Norm) {
    && r.content.item.Some?
    && var i, log := r.content.item.value, r.content.log;
    && Numbered(log) && i.version == |log| > 0
    && SameText(i.text, log[|log| - 1].text, norm)
    && i.status == Wrote(r.item, status, asked)
    && log[|log| - 1].status == Wrote(r.log, status, asked)
  }

  lemma HappensTraced(r: Race, e: Event, status: string, asked: Asked, norm: Norm)
    requires Traced(r, status, asked, norm) && Transaction(e)
    ensures Traced(Happen(r, e, asked, norm), status, asked, norm)
  {
    if e.Whole? && e.step.Restore? { FindNumbered(r.content.log, e.step.version); }
    if e.First? { assert r.content.log[|r.content.log| - 1].version == r.content.item.value.version; }
  }

  lemma {:induction false} RunIsTraced(c: Content, events: seq<Event>, asked: Asked, norm: Norm)
    requires c.item.Some? && Agree(c, norm) && forall e | e in events :: Transaction(e)
    ensures Traced(Run(c, events, asked, norm), c.item.value.status, asked, norm)
  {
    if events != [] {
      hide Traced, Happen, Agree;
      var n := |events| - 1;
      assert events[n] in events && forall e | e in events[..n] :: e in events;
      RunIsTraced(c, events[..n], asked, norm);
      HappensTraced(Run(c, events[..n], asked, norm), events[n], c.item.value.status, asked, norm);
    }
  }

  // Two runs that differ in nothing but statuses.
  predicate SameButStatus(a: Race, b: Race) {
    && a.item == b.item && a.log == b.log
    && a.content.item.Some? && b.content.item.Some?
    && a.content.item.value.text == b.content.item.value.text
    && a.content.item.value.version == b.content.item.value.version
    && |a.content.log| == |b.content.log|
    && forall k | 0 <= k < |a.content.log| ::
       a.content.log[k].text == b.content.log[k].text && a.content.log[k].version == b.content.log[k].version
  }

  lemma {:induction false} FindsTheSame(a: seq<Snapshot>, b: seq<Snapshot>, version: nat)
    requires |a| == |b| && forall k | 0 <= k < |a| :: a[k].text == b[k].text && a[k].version == b[k].version
    ensures Find(a, version).Some? == Find(b, version).Some?
    ensures Find(a, version).Some? ==> Find(a, version).value.text == Find(b, version).value.text
  {
    if a != [] { FindsTheSame(a[..|a| - 1], b[..|b| - 1], version); }
  }

  lemma HappensTheSame(a: Race, b: Race, e: Event, asked: Asked, asked': Asked, norm: Norm)
    requires SameButStatus(a, b) && Transaction(e)
    ensures SameButStatus(Happen(a, e, asked, norm), Happen(b, e, asked', norm))
  {
    if e.Whole? && e.step.Restore? {
      FindsTheSame(a.content.log, b.content.log, e.step.version);
      hide Find;
    }
    if e.First? {
      assert Logged(a.content, a.content.item.value.version) <==> Logged(b.content, b.content.item.value.version);
    }
  }

  /** Where the statuses come from does not depend on what they are. */
  lemma {:induction false} SourcesAreFixed(c: Content, events: seq<Event>, asked: Asked, asked': Asked, norm: Norm)
    requires c.item.Some? && forall e | e in events :: Transaction(e)
    ensures SameButStatus(Run(c, events, asked, norm), Run(c, events, asked', norm))
  {
    if events != [] {
      hide SameButStatus, Happen;
      var n := |events| - 1;
      assert events[n] in events && forall e | e in events[..n] :: e in events;
      SourcesAreFixed(c, events[..n], asked, asked', norm);
      HappensTheSame(Run(c, events[..n], asked, norm), Run(c, events[..n], asked', norm),
                     events[n], asked, asked', norm);
    }
  }

  /** One interleaving, with the statuses it was asked for. */
  lemma RaceAgreesIff(c: Content, events: seq<Event>, asked: Asked, norm: Norm)
    requires c.item.Some? && Agree(c, norm) && forall e | e in events :: Transaction(e)
    ensures var r := Run(c, events, asked, norm);
            Agree(r.content, norm)
            <==> Wrote(r.item, c.item.value.status, asked) == Wrote(r.log, c.item.value.status, asked)
  {
    RunIsTraced(c, events, asked, norm);
    hide Run;
  }

  // Statuses that tell two sources apart.
  function Telling(s: Source, status: string): Asked {
    var other := if status == "draft" then "archived" else "draft";
    (call: nat) => if s == Call(call) || s == Initially then other else status
  }

  /** An interleaving leaves the item and its history in agreement whatever statuses were asked for exactly
      when the change that wrote the item last is also the one its current snapshot's status comes from:
      the change begun last ends last, or a later revision copied its status. */
  lemma EveryRaceAgreesIff(c: Content, events: seq<Event>, asked: Asked, norm: Norm)
    requires c.item.Some? && Agree(c, norm) && forall e | e in events :: Transaction(e)
    ensures (forall asked': Asked :: Agree(Run(c, events, asked', norm).content, norm))
            <==> Run(c, events, asked, norm).item == Run(c, events, asked, norm).log
  {
    hide Run, Agree;
    var r := Run(c, events, asked, norm);
    forall asked': Asked
      ensures Run(c, events, asked', norm).item == r.item && Run(c, events, asked', norm).log == r.log
      ensures Agree(Run(c, events, asked', norm).content, norm)
              <==> Wrote(r.item, c.item.value.status, asked') == Wrote(r.log, c.item.value.status, asked')
    {
      SourcesAreFixed(c, events, asked, asked', norm);
      RaceAgreesIff(c, events, asked', norm);
    }
    if r.item != r.log {
      var telling := Telling(r.item, c.item.value.status);
      assert !Agree(Run(c, events, telling, norm).content, norm);
    }
  }

  predicate TakesItsTurn(events: seq<Event>, i: nat)
    requires i < |events|
  {
    && (events[i].Begin? ==> i + 1 < |events| && events[i + 1] == End(events[i].call))
    && (events[i].End? ==> i > 0 && events[i - 1] == Begin(events[i].call))
  }

  // Every change ends before anything else happens.
  predicate InTurns(events: seq<Event>) { forall i | 0 <= i < |events| :: TakesItsTurn(events, i) }

  /** Changes that take turns always agree, whatever edits and restores are made in between. */
  lemma {:induction false} TurnsAgree(c: Content, events: seq<Event>, asked: Asked, norm: Norm)
    requires c.item.Some? && forall e | e in events :: Transaction(e)
    requires InTurns(events)
    ensures Run(c, events, asked, norm).item == Run(c, events, asked, norm).log
    ensures Agree(c, norm) ==> Agree(Run(c, events, asked, norm).content, norm)
  {
    hide Take, Agree;
    if events != [] {
      var n := |events| - 1;
      var before := events[..n];
      assert events[n] in events && forall e | e in before :: e in events;
      assert TakesItsTurn(events, n);
      if events[n].End? {
        assert before[n - 1] == Begin(events[n].call);
        assert before[..n - 1] == events[..n - 1];
        assert Run(c, before, asked, norm).item == Call(events[n].call);
      } else {
        forall i | 0 <= i < n ensures TakesItsTurn(before, i) { assert TakesItsTurn(events, i); }
        TurnsAgree(c, before, asked, norm);
      }
    }
    if Agree(c, norm) { RaceAgreesIff(c, events, asked, norm); }
  }

  /** A change that is not interrupted is a step of the history, and one that never ends is that step
      broken between its statements. */
  lemma AloneIsAStep(c: Content, call: nat, asked: Asked, norm: Norm)
    requires c.item.Some?
    ensures Run(c, [Begin(call), End(call)], asked, norm).content
            == Take(c, SetStatus(asked(call), true, NoFault), norm).0
    ensures Run(c, [Begin(call)], asked, norm).content == Take(c, SetStatus(asked(call), true, Between), norm).0
  {
    var both := [Begin(call), End(call)];
    assert both[..1] == [Begin(call)] && [Begin(call)][..0] == [];
    assert Run(c, [], asked, norm) == Race(c, Initially, Initially);
    assert Run(c, [Begin(call)], asked, norm) == Happen(Race(c, Initially, Initially), Begin(call), asked, norm);
  }

  /** Two changes that cross - the second begins last and ends first - leave the item with the second's
      status and its current snapshot with the first's. */
  lemma CrossedChanges(c: Content, asked: Asked, norm: Norm)
    requires c.item.Some? && Agree(c, norm)
    ensures var r := Run(c, [Begin(0), Begin(1), End(1), End(0)], asked, norm);
            && r.item == Call(1) && r.log == Call(0)
            && (Agree(r.content, norm) <==> asked(0) == asked(1))
  {
    var events := [Begin(0), Begin(1), End(1), End(0)];
    RaceAgreesIff(c, events, asked, norm);
    hide Agree;
    assert events[..3] == [Begin(0), Begin(1), End(1)] && events[..3][..2] == [Begin(0), Begin(1)];
    assert [Begin(0), Begin(1)][..1] == [Begin(0)] && [Begin(0)][..0] == [];
    assert Run(c, [Begin(0)], asked, norm).item == Call(0);
    assert Run(c, [Begin(0), Begin(1)], asked, norm).item == Call(1);
    assert Run(c, events[..3], asked, norm).item == Call(1);
  }

  // ---- creations -------------------------------------------------------------------------

  /** An item whose creation is between its two statements. */
  predicate Opened(c: Content) { c.item.Some? && c.item.value.version == 1 && c.log == [] }

  /** A history whose first version is missing. */
  predicate WithoutFirst(r: Race) {
    && r.content.item.Some? && r.content.item.value.version == |r.content.log| + 1
    && forall k | 0 <= k < |r.content.log| :: r.content.log[k].version == k + 2
  }

  lemma {:induction false} FindWithoutFirst(log: seq<Snapshot>, version: nat)
    requires forall k | 0 <= k < |log| :: log[k].version == k + 2
    ensures Find(log, version).Some? ==> 2 <= version <= |log| + 1
  {
    if log != [] { FindWithoutFirst(log[..|log| - 1], version); }
  }

  // Of the versions only a first one not yet revised can still be logged by its creation.
  lemma StaysWithoutFirst(r: Race, e: Event, asked: Asked, norm: Norm)
    requires WithoutFirst(r) && Transaction(e)
    requires e.First? ==> r.content.item.value.version > 1
    ensures WithoutFirst(Happen(r, e, asked, norm))
    ensures Happen(r, e, asked, norm).content.item.value.version >= r.content.item.value.version
  {
    if e.Whole? && e.step.Restore? { FindWithoutFirst(r.content.log, e.step.version); }
    if e.First? { assert r.content.log[|r.content.log| - 1].version == r.content.item.value.version; }
  }

  lemma FirstIsTraced(r: Race, status: string, asked: Asked, norm: Norm)
    requires WithoutFirst(r) && r.content.item.value.version == 1
             && r.content.item.value.status == Wrote(r.item, status, asked)
    ensures Traced(Happen(r, First, asked, norm), status, asked, norm)
  {
  }

  lemma ItemIsWritten(r: Race, e: Event, status: string, asked: Asked, norm: Norm)
    requires r.content.item.Some? && r.content.item.value.status == Wrote(r.item, status, asked) && Transaction(e)
    ensures var after := Happen(r, e, asked, norm);
            after.content.item.Some? && after.content.item.value.status == Wrote(after.item, status, asked)
  {
  }

  // Before the creation's second statement.
  lemma {:induction false} RunWithoutFirst(c: Content, events: seq<Event>, asked: Asked, norm: Norm)
    requires Opened(c) && First !in events && forall e | e in events :: Transaction(e)
    ensures WithoutFirst(Run(c, events, asked, norm))
    ensures Run(c, events, asked, norm).content.item.value.status
            == Wrote(Run(c, events, asked, norm).item, c.item.value.status, asked)
  {
    if events != [] {
      hide Happen, WithoutFirst;
      var n := |events| - 1;
      assert events[n] in events && forall e | e in events[..n] :: e in events;
      RunWithoutFirst(c, events[..n], asked, norm);
      StaysWithoutFirst(Run(c, events[..n], asked, norm), events[n], asked, norm);
      ItemIsWritten(Run(c, events[..n], asked, norm), events[n], c.item.value.status, asked, norm);
    }
  }

  // After it: all is well if the item was still at its first version, and never again if it was not.
  lemma {:induction false} RunAfterFirst(c: Content, events: seq<Event>, n: nat, asked: Asked, norm: Norm)
    requires Opened(c) && n < |events| && events[n] == First && First !in events[..n]
    requires forall e | e in events :: Transaction(e)
    ensures forall e | e in events[..n] :: e in events
    ensures var r := Run(c, events, asked, norm);
            if Run(c, events[..n], asked, norm).content.item.value.version == 1 then
              Traced(r, c.item.value.status, asked, norm)
            else WithoutFirst(r) && r.content.item.value.version > 1
    decreases |events|
  {
    hide Happen, WithoutFirst, Traced, Wrote;
    var m := |events| - 1;
    var before := events[..m];
    assert events[m] in events && forall e | e in before :: e in events;
    assert forall e | e in events[..n] :: e in events;
    var r := Run(c, before, asked, norm);
    if m == n {
      RunWithoutFirst(c, before, asked, norm);
      if r.content.item.value.version == 1 {
        FirstIsTraced(r, c.item.value.status, asked, norm);
      } else {
        AtLeastOne(r);
        StaysWithoutFirst(r, First, asked, norm);
      }
    } else {
      assert before[..n] == events[..n];
      RunAfterFirst(c, before, n, asked, norm);
      if Run(c, events[..n], asked, norm).content.item.value.version == 1 {
        HappensTraced(r, events[m], c.item.value.status, asked, norm);
      } else {
        StaysWithoutFirst(r, events[m], asked, norm);
      }
    }
  }

  lemma AtLeastOne(r: Race)
    requires WithoutFirst(r)
    ensures r.content.item.value.version >= 1
  {
  }

  lemma NeverAgrees(r: Race, norm: Norm)
    requires WithoutFirst(r)
    ensures !Agree(r.content, norm)
  {
  }

  lemma TracedAgreesIff(r: Race, status: string, asked: Asked, norm: Norm)
    requires Traced(r, status, asked, norm)
    ensures Agree(r.content, norm) <==> Wrote(r.item, status, asked) == Wrote(r.log, status, asked)
  {
    hide Wrote;
  }

  /** An item and its history agree after a creation that others interleave with exactly when the item was
      still at version 1 at its second statement, and the statuses agree: after an edit or a restore in
      between, version 1 never exists, although no statement was cut off. */
  lemma CreationAgreesIff(c: Content, events: seq<Event>, n: nat, asked: Asked, norm: Norm)
    requires Opened(c) && n < |events| && events[n] == First && First !in events[..n]
    requires forall e | e in events :: Transaction(e)
    ensures forall e | e in events[..n] :: e in events
    ensures var r := Run(c, events, asked, norm);
            Agree(r.content, norm)
            <==> && Run(c, events[..n], asked, norm).content.item.value.version == 1
                 && Wrote(r.item, c.item.value.status, asked) == Wrote(r.log, c.item.value.status, asked)
  {
    assert c.item.Some?;
    hide *;
    var r := Run(c, events, asked, norm);
    RunAfterFirst(c, events, n, asked, norm);
    if Run(c, events[..n], asked, norm).content.item.value.version == 1 {
      TracedAgreesIff(r, c.item.value.status, asked, norm);
    } else {
      NeverAgrees(r, norm);
    }
  }

  /** A creation that is not interrupted is a step of the history. */
  lemma CreationAloneIsAStep(title: string, body: Option<Body>, difficulty: Option<int>, tags: Option<seq<string>>,
      asked: Asked, norm: Norm)
    ensures var c := Take(Content(None, []), Create(title, body, difficulty, tags, Between), norm).0;
            && Opened(c)
            && Run(c, [First], asked, norm).content
               == Take(Content(None, []), Create(title, body, difficulty, tags, NoFault), norm).0
  {
    var c := Take(Content(None, []), Create(title, body, difficulty, tags, Between), norm).0;
    assert [First][..0] == [] && Run(c, [], asked, norm) == Race(c, Initially, Initially);
  }

  /** An edit of the title between the two statements. */
  lemma RevisedTooSoon(c: Content, title: string, asked: Asked, norm: Norm)
    requires Opened(c) && c.item.value.text.title != title
    ensures var edit := Update(Edit(Some(title), None, None, None, None), NoFault);
            var r := Run(c, [Whole(edit), First], asked, norm);
            && |r.content.log| == 1 && r.content.log[0].version == 2
            && !Agree(r.content, norm)
  {
    var edit := Update(Edit(Some(title), None, None, None, None), NoFault);
    var events := [Whole(edit), First];
    assert events[..1] == [Whole(edit)] && [Whole(edit)][..0] == [];
    assert Run(c, [], asked, norm) == Race(c, Initially, Initially);
    var r := Run(c, [Whole(edit)], asked, norm);
    assert r.content.log[0].version == 2;
    assert Logged(r.content, 2);
  }
}
