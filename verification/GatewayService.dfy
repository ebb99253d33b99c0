/** GatewayService: the gateway's shared fields and what one call does to them between two points
    where others may act. Every method is the machine of Admission taking its steps.

    Models apps/api/internal/ai/limiter.go and gateway.go. */
module GatewayService {
  import opened Admission

  datatype Outcome = Answered(usage: Usage) | NotImplemented | Unavailable

  function OutcomeOf(r: Result): Outcome {
    match r
    case Answer(u) => Answered(u)
    case Failure(Unsupported) => NotImplemented
    case Failure(_) => Unavailable
  }

  /** What an admitted call does until its result is ready. */
  function RunEvents(c: Call, first: Attempt, cut: bool, second: Attempt): seq<Event> {
    if !WorthRetrying(first) then [Returned(c, first)]
    else if cut then [Returned(c, first), DeadlinePassed(c)]
    else [Returned(c, first), BackedOff(c), Returned(c, second)]
  }

  lemma {:induction false} RunJoined(s: State, a: seq<Event>, b: seq<Event>)
    ensures Run(s, a + b) == Run(Run(s, a), b)
  {
    hide Step;
    if b == [] {
      assert a + b == a;
    } else {
      RunJoined(s, a, b[..|b| - 1]);
      assert (a + b)[..|a| + |b| - 1] == a + b[..|b| - 1];
    }
  }

  lemma RunOne(s: State, e: Event)
    ensures Run(s, [e]) == Step(s, e)
  {
    hide Step;
    assert [e][..0] == [];
  }

  // The last run is the second one exactly after a passing failure whose delay was not cut short.
  lemma RunEndsWith(s: State, c: Call, first: Attempt, cut: bool, second: Attempt)
    requires c in s.phase && s.phase[c] == Running([])
    ensures var end := Run(s, RunEvents(c, first, cut, second));
            && c in end.phase && end.phase[c].Ready?
            && Last(end.phase[c].tries) == if Passing(first) && !cut then second.result else first.result
  {
    var a, b, d := Step(s, Returned(c, first)), [Returned(c, first)], [Returned(c, first), BackedOff(c)];
    hide Run, RecordOf;
    RunOne(s, Returned(c, first));
    if WorthRetrying(first) {
      RunMore(s, b, DeadlinePassed(c));
      RunMore(s, b, BackedOff(c));
      assert b + [BackedOff(c)] == d && b + [DeadlinePassed(c)] == [Returned(c, first), DeadlinePassed(c)];
      RunMore(s, d, Returned(c, second));
      assert d + [Returned(c, second)] == [Returned(c, first), BackedOff(c), Returned(c, second)];
    }
  }
  class Gateway {
    const max: int
    var pools: map<Task, nat>
    var records: seq<Record>
    ghost var state: State  // the machine, which also knows what every other call is doing

    ghost predicate Valid()
      reads this
    {
      state.max == max && state.pools == pools && state.records == records && Sound(state)
    }

    constructor (max: int)
      ensures Valid() && this.max == max && state == Start(max)
    {
      this.max, pools, records, state := max, map[], [], Start(max);
      EveryRunIsSound(max, []);
    }

    // The pool of a task, created on first use.
    method PoolOf(task: Task) returns (n: nat)
      modifies this`pools
      ensures pools == old(pools)[task := n]
      ensures n == if task in old(pools) then old(pools)[task] else 0
    {
      n := 0;
      if task in pools {
        n := pools[task];
      }
      pools := pools[task := n];
    }

    /** Takes a slot if one is free; otherwise the call is refused at once or left waiting. */
    method Acquire(c: Call, wait: int)
      requires Valid() && c !in state.phase
      modifies this
      ensures Valid() && state == Step(old(state), Arrive(c, wait))
    {
      hide SlotsAgree, TriesOk, RecordsOk;
      StepIsSound(state, Arrive(c, wait));
      if max > 0 {
        var n := PoolOf(c.task);
        if n < max {
          pools := pools[c.task := n + 1];
        }
      }
      state := Step(state, Arrive(c, wait));
    }

    /** A waiting call takes a slot that another has given back. */
    method TakeFreed(c: Call)
      requires Valid() && c in state.phase && state.phase[c].Waiting? && Pool(state, c.task) < max
      modifies this
      ensures Valid() && state == Step(old(state), SlotFreed(c)) && state.phase[c] == Running([])
    {
      hide SlotsAgree, TriesOk, RecordsOk;
      StepIsSound(state, SlotFreed(c));
      var n := PoolOf(c.task);
      pools := pools[c.task := n + 1];
      state := Step(state, SlotFreed(c));
    }

    ghost method Happens(e: Event)
      requires Valid() && !e.Note? && !e.Arrive? && !e.SlotFreed? && !e.Leave?
      modifies this`state
      ensures Valid() && state == Step(old(state), e)
    {
      hide SlotsAgree, TriesOk, RecordsOk;
      StepIsSound(state, e);
      state := Step(state, e);
    }

    method WriteRecord(c: Call, result: Result)
      requires Valid() && c in state.phase && state.phase[c].Ready? && Last(state.phase[c].tries) == result
      modifies this`records, this`state
      ensures Valid() && state == Step(old(state), Note(c))
      ensures c in state.phase && state.phase[c].Recorded?
      ensures |records| == |old(records)| + 1 && records[..|old(records)|] == old(records)
      ensures records[|old(records)|].call == c && TellsOf(records[|old(records)|], result)
    {
      RecordTells(c, result);
      hide SlotsAgree, TriesOk, RecordsOk, RecordOf, TellsOf;
      StepIsSound(state, Note(c));
      records := records + [RecordOf(c, result)];
      state := Step(state, Note(c));
    }

    method Release(c: Call)
      requires Valid() && c in state.phase && state.phase[c].Recorded?
      modifies this`pools, this`state
      ensures Valid() && state == Step(old(state), Leave(c)) && c in state.phase && state.phase[c].Closed?
    {
      hide TriesOk, RecordsOk;
      StepIsSound(state, Leave(c));
      assert c in Holders(state, c.task) && SlotsAgree(state, c.task);
      assert Enabled(state, Leave(c));
      if max > 0 {
        pools := pools[c.task := pools[c.task] - 1];
      }
      state := Step(state, Leave(c));
    }

    // Runs the provider, and once more after a failure worth retrying unless the delay is cut short.
    method RunProvider(c: Call, first: Attempt, cut: bool, second: Attempt) returns (result: Result)
      requires Valid() && c in state.phase && state.phase[c] == Running([])
      modifies this`state
      ensures Valid() && state == Run(old(state), RunEvents(c, first, cut, second))
      ensures c in state.phase && state.phase[c].Ready? && result == Last(state.phase[c].tries)
      ensures result == if Passing(first) && !cut then second.result else first.result
    {
      RunEndsWith(state, c, first, cut, second);
      hide SlotsAgree, TriesOk, RecordsOk, RecordOf, Sound, Run, WorthRetrying, Passing;
      ghost var start := state;
      RunOne(start, Returned(c, first));
      Happens(Returned(c, first));
      result := first.result;
      if WorthRetrying(first) {
        if cut {
          RunMore(start, [Returned(c, first)], DeadlinePassed(c));
          assert [Returned(c, first)] + [DeadlinePassed(c)] == RunEvents(c, first, cut, second);
          Happens(DeadlinePassed(c));
        } else {
          RunMore(start, [Returned(c, first)], BackedOff(c));
          Happens(BackedOff(c));
          assert [Returned(c, first)] + [BackedOff(c)] == [Returned(c, first), BackedOff(c)];
          RunMore(start, [Returned(c, first), BackedOff(c)], Returned(c, second));
          assert [Returned(c, first), BackedOff(c)] + [Returned(c, second)] == RunEvents(c, first, cut, second);
          Happens(Returned(c, second));
          result := second.result;
        }
      }
    }

    /** Serves an admitted call: the provider answers `first`; after a failure worth retrying it is
        asked again and answers `second`, unless the deadline passes during the delay. */
    method Serve(c: Call, first: Attempt, cut: bool, second: Attempt) returns (outcome: Outcome)
      requires Valid() && c in state.phase && state.phase[c] == Running([])
      modifies this
      ensures Valid() && state == Run(old(state), RunEvents(c, first, cut, second) + [Note(c), Leave(c)])
      ensures c in state.phase && state.phase[c].Closed?
      ensures var last := if Passing(first) && !cut then second.result else first.result;
              && |records| == |old(records)| + 1 && records[..|old(records)|] == old(records)
              && records[|old(records)|].call == c && TellsOf(records[|old(records)|], last)
              && (last.Answer? ==> outcome == Answered(last.usage))
              && (last.Failure? ==> outcome == if last.error == Unsupported then NotImplemented else Unavailable)
    {
      hide SlotsAgree, TriesOk, RecordsOk, RecordOf, Sound, Run, RunEvents, TellsOf, Passing, Step;
      ghost var start, events := state, RunEvents(c, first, cut, second);
      var result := RunProvider(c, first, cut, second);
      RunMore(start, events, Note(c));
      WriteRecord(c, result);
      RunMore(start, events + [Note(c)], Leave(c));
      Release(c);
      assert events + [Note(c)] + [Leave(c)] == events + [Note(c), Leave(c)];
      outcome := OutcomeOf(result);
    }
  }

  lemma RunMore(s: State, events: seq<Event>, e: Event)
    ensures Run(s, events + [e]) == Step(Run(s, events), e)
  {
    RunJoined(s, events, [e]);
    RunOne(Run(s, events), e);
  }
}
