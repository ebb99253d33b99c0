/** Admission: any number of AI calls admitted per task, run, retried at most once, recorded and released.

    Models apps/api/internal/ai/limiter.go and gateway.go as a machine whose steps are the points
    where one caller touches shared state; a run is any interleaving of them. */
module Admission {
  import opened Text

  type Task = string

  datatype Call = Call(id: nat, task: Task)

  datatype Error = ProviderError(status: int) | Unsupported | Busy | DeadlineExceeded | Other
  datatype Usage = Usage(input: nat, output: nat, audio: real)
  datatype Result = Answer(usage: Usage) | Failure(error: Error)

  // One run of the provider, and whether the call's deadline had passed when it came back.
  datatype Attempt = Attempt(result: Result, spent: bool)

  datatype Phase =
    | Waiting
    | Refused
    | Running(before: seq<Attempt>)
    | BackingOff(tries: seq<Attempt>)
    | Ready(tries: seq<Attempt>)     // run, not yet recorded
    | Recorded(tries: seq<Attempt>)  // recorded, still holding its slot
    | Closed(tries: seq<Attempt>)

  datatype Record = Record(call: Call, succeeded: bool, usage: Usage, errorCode: string)

  datatype State = State(max: int, pools: map<Task, nat>, phase: map<Call, Phase>, records: seq<Record>)

  datatype Event =
    | Arrive(call: Call, wait: int)
    | SlotFreed(call: Call)
    | WaitedTooLong(call: Call)
    | Cancelled(call: Call)
    | Returned(call: Call, attempt: Attempt)
    | BackedOff(call: Call)
    | DeadlinePassed(call: Call)
    | Note(call: Call)
    | Leave(call: Call)

  const NO_USAGE := Usage(0, 0, 0.0)

  predicate Retryable(e: Error) { e.ProviderError? && (e.status == 429 || e.status >= 500) }

  // A failure that gets a second chance.
  predicate WorthRetrying(a: Attempt) { a.result.Failure? && Retryable(a.result.error) && !a.spent }

  function ErrorCode(r: Result): string {
    match r
    case Answer(_) => ""
    case Failure(Unsupported) => "unsupported"
    case Failure(Busy) => "busy"
    case Failure(DeadlineExceeded) => "timeout"
    case Failure(ProviderError(s)) =>
      if s == 429 then "rate_limited"
      else if s >= 500 then "provider_unavailable"
      else "provider_" + (if s < 0 then "-" + Decimal(-s) else Decimal(s))
    case Failure(Other) => "error"
  }

  function RecordOf(c: Call, r: Result): Record {
    Record(c, r.Answer?, if r.Answer? then r.usage else NO_USAGE, ErrorCode(r))
  }

  function Start(max: int): State { State(max, map[], map[], []) }

  // Slots in use; a pool nobody has called yet has none.
  function Pool(s: State, t: Task): nat { if t in s.pools then s.pools[t] else 0 }

  predicate Holding(p: Phase) { p.Running? || p.BackingOff? || p.Ready? || p.Recorded? }

  predicate Enabled(s: State, e: Event) {
    var c := e.call;
    match e
    case Arrive(_, _) => c !in s.phase
    case SlotFreed(_) => c in s.phase && s.phase[c].Waiting? && Pool(s, c.task) < s.max
    case WaitedTooLong(_) => c in s.phase && s.phase[c].Waiting?
    case Cancelled(_) => c in s.phase && s.phase[c].Waiting?
    case Returned(_, _) => c in s.phase && s.phase[c].Running?
    case BackedOff(_) => c in s.phase && s.phase[c].BackingOff?
    case DeadlinePassed(_) => c in s.phase && s.phase[c].BackingOff?
    case Note(_) => c in s.phase && s.phase[c].Ready?
    // receiving from an empty channel would block
    case Leave(_) => c in s.phase && s.phase[c].Recorded? && (s.max > 0 ==> Pool(s, c.task) > 0)
  }

  function To(s: State, c: Call, p: Phase): State { s.(phase := s.phase[c := p]) }

  function WithPool(s: State, t: Task, n: nat): State { s.(pools := s.pools[t := n]) }

  function Noted(s: State, r: Record): State { s.(records := s.records + [r]) }

  function Last(tries: seq<Attempt>): Result {
    if tries == [] then Failure(Other) else tries[|tries| - 1].result
  }

  /** One step; an event that is not possible changes nothing. */
  function Step(s: State, e: Event): State {
    if !Enabled(s, e) then s
    else
      var c := e.call;
      match e
      case Arrive(_, wait) =>
        if s.max <= 0 then To(s, c, Running([]))
        else if Pool(s, c.task) < s.max then To(WithPool(s, c.task, Pool(s, c.task) + 1), c, Running([]))
        else To(WithPool(s, c.task, Pool(s, c.task)), c, if wait <= 0 then Refused else Waiting)
      case SlotFreed(_) => To(WithPool(s, c.task, Pool(s, c.task) + 1), c, Running([]))
      case WaitedTooLong(_) => To(s, c, Refused)
      case Cancelled(_) => To(s, c, Refused)
      case Returned(_, a) =>
        var before := s.phase[c].before;
        To(s, c, if before == [] && WorthRetrying(a) then BackingOff([a]) else Ready(before + [a]))
      case BackedOff(_) => To(s, c, Running(s.phase[c].tries))
      case DeadlinePassed(_) => To(s, c, Ready(s.phase[c].tries))
      case Note(_) =>
        Noted(To(s, c, Recorded(s.phase[c].tries)), RecordOf(c, Last(s.phase[c].tries)))
      case Leave(_) =>
        To(if s.max > 0 then WithPool(s, c.task, Pool(s, c.task) - 1) else s, c, Closed(s.phase[c].tries))
  }

  function Run(s: State, events: seq<Event>): State {
    if events == [] then s else Step(Run(s, events[..|events| - 1]), events[|events| - 1])
  }

  // ---- what holds in every reachable state -----------------------------------------------

  function Holders(s: State, t: Task): set<Call> {
    set c | c in s.phase && c.task == t && Holding(s.phase[c])
  }

  /** Slots in use are exactly the calls holding one, and never more than the cap. */
  predicate SlotsAgree(s: State, t: Task) {
    if s.max <= 0 then t !in s.pools else Pool(s, t) == |Holders(s, t)| <= s.max
  }

  function TriesOf(p: Phase): seq<Attempt> {
    match p
    case Waiting => []
    case Refused => []
    case Running(b) => b
    case BackingOff(t) => t
    case Ready(t) => t
    case Recorded(t) => t
    case Closed(t) => t
  }

  /** At most two runs, the second only after a failure worth retrying. */
  predicate TriesOk(p: Phase) {
    var tries := TriesOf(p);
    && |tries| <= 2
    && (|tries| == 2 ==> WorthRetrying(tries[0]))
    && (p.Running? ==> |tries| <= 1 && (|tries| == 1 ==> WorthRetrying(tries[0])))
    && (p.BackingOff? ==> |tries| == 1 && WorthRetrying(tries[0]))
    && (p.Ready? || p.Recorded? || p.Closed? ==> tries != [])
  }

  function RecordsOf(records: seq<Record>, c: Call): seq<Record> {
    if records == [] then []
    else
      var n := |records| - 1;
      RecordsOf(records[..n], c) + if records[n].call == c then [records[n]] else []
  }

  /** One record for a call that has been recorded, about its last run; none for any other. */
  predicate RecordsOk(s: State, c: Call) {
    RecordsOf(s.records, c)
    == if c in s.phase && (s.phase[c].Recorded? || s.phase[c].Closed?) then [RecordOf(c, Last(s.phase[c].tries))]
       else []
  }

  ghost predicate Sound(s: State) {
    && (forall t :: SlotsAgree(s, t))
    && (forall c | c in s.phase :: TriesOk(s.phase[c]))
    && (forall c :: RecordsOk(s, c))
  }

  lemma OneDifferent(a: set<Call>, b: set<Call>, c: Call)
    requires a - {c} == b - {c}
    ensures |b| == |a| - (if c in a then 1 else 0) + (if c in b then 1 else 0)
  {
    assert a == (a - {c}) + if c in a then {c} else {};
    assert b == (b - {c}) + if c in b then {c} else {};
  }

  lemma OneMoreHolder(s: State, s': State, c: Call, t: Task)
    requires s'.phase.Keys == s.phase.Keys + {c}
    requires forall d | d in s.phase && d != c :: s'.phase[d] == s.phase[d]
    ensures |Holders(s', t)|
            == |Holders(s, t)| - (if c in Holders(s, t) then 1 else 0) + (if c in Holders(s', t) then 1 else 0)
  {
    hide Holding;
    forall d | d != c ensures d in Holders(s, t) <==> d in Holders(s', t) {
      assert d in s'.phase.Keys <==> d in s.phase.Keys;
    }
    assert Holders(s, t) - {c} == Holders(s', t) - {c};
    OneDifferent(Holders(s, t), Holders(s', t), c);
  }

  lemma StepKeepsSlots(s: State, e: Event, t: Task)
    requires SlotsAgree(s, t)
    ensures SlotsAgree(Step(s, e), t)
  {
    var s' := Step(s, e);
    if Enabled(s, e) {
      hide RecordOf, WorthRetrying;
      OneMoreHolder(s, s', e.call, t);
    }
  }

  lemma StepKeepsTries(s: State, e: Event, c: Call)
    requires c in Step(s, e).phase
    requires c in s.phase ==> TriesOk(s.phase[c])
    ensures TriesOk(Step(s, e).phase[c])
  {
    hide RecordOf;
  }

  lemma OneMoreRecord(records: seq<Record>, r: Record, c: Call)
    ensures RecordsOf(records + [r], c) == RecordsOf(records, c) + if r.call == c then [r] else []
  {
    assert (records + [r])[..|records|] == records;
  }

  lemma StepKeepsRecords(s: State, e: Event, c: Call)
    requires RecordsOk(s, c)
    ensures RecordsOk(Step(s, e), c)
  {
    hide RecordsOf, ErrorCode, WorthRetrying;
    if Enabled(s, e) && e.Note? {
      OneMoreRecord(s.records, RecordOf(e.call, Last(s.phase[e.call].tries)), c);
    }
  }

  lemma StepIsSound(s: State, e: Event)
    requires Sound(s)
    ensures Sound(Step(s, e))
  {
    var s' := Step(s, e);
    forall t ensures SlotsAgree(s', t) { StepKeepsSlots(s, e, t); }
    forall c | c in s'.phase ensures TriesOk(s'.phase[c]) { StepKeepsTries(s, e, c); }
    forall c ensures RecordsOk(s', c) { StepKeepsRecords(s, e, c); }
  }

  /** However the calls interleave: slots equal holders and respect the cap, no call runs the provider
      more than twice, and each is recorded exactly once or not at all. */
  lemma {:induction false} EveryRunIsSound(max: int, events: seq<Event>)
    ensures Sound(Run(Start(max), events))
    ensures Run(Start(max), events).max == max
  {
    if events == [] {
      forall t ensures SlotsAgree(Start(max), t) { assert Holders(Start(max), t) == {}; }
    } else {
      var n := |events| - 1;
      EveryRunIsSound(max, events[..n]);
      StepIsSound(Run(Start(max), events[..n]), events[n]);
    }
  }

  /** A slot can always be given back: releasing never blocks. */
  lemma ReleaseNeverBlocks(max: int, events: seq<Event>, c: Call)
    requires var s := Run(Start(max), events); c in s.phase && s.phase[c].Recorded?
    ensures Enabled(Run(Start(max), events), Leave(c))
  {
    hide Run, TriesOk, RecordsOk;
    EveryRunIsSound(max, events);
    var s := Run(Start(max), events);
    assert c in Holders(s, c.task);
    assert SlotsAgree(s, c.task);
  }

  /** A call that arrives while a slot of its task is free is admitted at once, and only then (unless
      there is no cap); otherwise it waits if it may, or is refused. */
  lemma FreeSlotAdmits(max: int, events: seq<Event>, c: Call, wait: int)
    requires c !in Run(Start(max), events).phase
    ensures var s := Run(Start(max), events);
            Step(s, Arrive(c, wait)).phase[c]
            == if max <= 0 || |Holders(s, c.task)| < max then Running([]) else if wait > 0 then Waiting else Refused
  {
    hide Run, TriesOk, RecordsOk;
    EveryRunIsSound(max, events);
    assert SlotsAgree(Run(Start(max), events), c.task);
  }

  // How far a call still is from its end.
  function Remaining(p: Phase): nat {
    match p
    case Waiting => 7
    case Running(b) => if b == [] then 6 else 4
    case BackingOff(_) => 5
    case Ready(_) => 2
    case Recorded(_) => 1
    case Refused => 0
    case Closed(_) => 0
  }

  /** Every step of a call brings it nearer its end, and no other call can take that away; a closed or
      refused call never acts again. So every admitted call is recorded once and released once. */
  lemma EveryStepAdvances(s: State, e: Event)
    requires Sound(s) && Enabled(s, e) && e.call in s.phase
    ensures Remaining(Step(s, e).phase[e.call]) < Remaining(s.phase[e.call])
    ensures forall d | d in s.phase && d != e.call :: Step(s, e).phase[d] == s.phase[d]
  {
    assert TriesOk(s.phase[e.call]);
  }

  /** A call that holds a slot always has a step of its own to take. */
  lemma HolderCanAct(s: State, c: Call, a: Attempt)
    requires Sound(s) && c in s.phase && Holding(s.phase[c])
    ensures exists e: Event :: e.call == c && Enabled(s, e)
  {
    var p := s.phase[c];
    assert c in Holders(s, c.task);
    assert SlotsAgree(s, c.task);
    if p.Running? { assert Enabled(s, Returned(c, a)); }
    if p.BackingOff? { assert Enabled(s, BackedOff(c)); }
    if p.Ready? { assert Enabled(s, Note(c)); }
    if p.Recorded? { assert Enabled(s, Leave(c)); }
  }

  // How often a call ran the provider, and gave a slot back, in the course of a run.
  function TimesRun(max: int, events: seq<Event>, c: Call): nat {
    if events == [] then 0
    else
      var n := |events| - 1;
      TimesRun(max, events[..n], c)
      + if events[n].Returned? && events[n].call == c && Enabled(Run(Start(max), events[..n]), events[n]) then 1 else 0
  }

  function TimesReleased(max: int, events: seq<Event>, c: Call): nat {
    if events == [] then 0
    else
      var n := |events| - 1;
      TimesReleased(max, events[..n], c)
      + if events[n].Leave? && events[n].call == c && Enabled(Run(Start(max), events[..n]), events[n]) then 1 else 0
  }

  function PhaseOf(s: State, c: Call): Phase { if c in s.phase then s.phase[c] else Waiting }

  lemma StepCounts(s: State, e: Event, c: Call)
    ensures |TriesOf(PhaseOf(Step(s, e), c))|
            == |TriesOf(PhaseOf(s, c))| + if e.Returned? && e.call == c && Enabled(s, e) then 1 else 0
    ensures (if PhaseOf(Step(s, e), c).Closed? then 1 else 0)
            == (if PhaseOf(s, c).Closed? then 1 else 0) + if e.Leave? && e.call == c && Enabled(s, e) then 1 else 0
  {
    hide RecordOf, WorthRetrying;
  }

  lemma {:induction false} CountsAgree(max: int, events: seq<Event>, c: Call)
    ensures var p := PhaseOf(Run(Start(max), events), c);
            && TimesRun(max, events, c) == |TriesOf(p)|
            && TimesReleased(max, events, c) == if p.Closed? then 1 else 0
  {
    if events != [] {
      hide Step, Enabled, TriesOf;
      var n := |events| - 1;
      CountsAgree(max, events[..n], c);
      StepCounts(Run(Start(max), events[..n]), events[n], c);
    }
  }

  // ---- what a record says ----------------------------------------------------------------

  /** A code that names a provider's status. */
  ghost predicate NamesStatus(code: string, status: int) {
    exists digits ::
      && Digits(digits) && digits != "" && Number(digits) == (if status < 0 then -status else status)
      && code == "provider_" + (if status < 0 then "-" + digits else digits)
  }

  /** A code from which the failure can be read off, except which status from 500 on it was. */
  ghost predicate Tells(code: string, e: Error) {
    && (code == "unsupported" <==> e == Unsupported)
    && (code == "busy" <==> e == Busy)
    && (code == "timeout" <==> e == DeadlineExceeded)
    && (code == "error" <==> e == Other)
    && (code == "rate_limited" <==> e == ProviderError(429))
    && (code == "provider_unavailable" <==> e.ProviderError? && e.status >= 500)
    && (e.ProviderError? && e.status < 500 && e.status != 429 ==> NamesStatus(code, e.status))
  }

  lemma CodeTells(e: Error)
    ensures Tells(ErrorCode(Failure(e)), e)
  {
    hide Decimal;
    if e.ProviderError? && e.status < 500 && e.status != 429 {
      var digits := Decimal(if e.status < 0 then -e.status else e.status);
      DecimalReads(if e.status < 0 then -e.status else e.status);
      var tail := if e.status < 0 then "-" + digits else digits;
      assert digits[0] in digits && tail[0] != 'u';
      assert ErrorCode(Failure(e)) == "provider_" + tail;
      assert ("provider_" + tail)[9] == tail[0] && "provider_unavailable"[9] == 'u';
      assert ("provider_" + tail)[0] == 'p' && "rate_limited"[0] == 'r' && "unsupported"[0] == 'u';
    }
  }

  /** The record of a call whose last run came back with r: succeeded exactly when it answered, and then with
      what the answer used; otherwise with the code of its failure. */
  ghost predicate TellsOf(record: Record, r: Result) {
    && (record.succeeded <==> r.Answer?)
    && (r.Answer? ==>
          && record.usage.input == r.usage.input && record.usage.output == r.usage.output
          && record.usage.audio == r.usage.audio && record.errorCode == "")
    && (r.Failure? ==>
          && record.usage.input == record.usage.output == 0 && record.usage.audio == 0.0 && record.errorCode != ""
          && Tells(record.errorCode, r.error))
  }

  lemma RecordTells(c: Call, r: Result)
    ensures RecordOf(c, r).call == c && TellsOf(RecordOf(c, r), r)
  {
    hide Tells, Decimal;
    if r.Failure? { CodeTells(r.error); }
  }

  /** A failure about the vendor's moment, with time left: rate limited, or 500 and above. */
  predicate Passing(a: Attempt) {
    && a.result.Failure? && a.result.error.ProviderError?
    && (a.result.error.status == 429 || 500 <= a.result.error.status) && !a.spent
  }

  // A call that stopped after one run that might have been repeated was cut off by its deadline.
  predicate CutOff(p: Phase, c: Call, events: seq<Event>) {
    (p.Ready? || p.Recorded? || p.Closed?) && |p.tries| == 1 && Passing(p.tries[0]) ==> DeadlinePassed(c) in events
  }

  lemma StepCutsOff(s: State, e: Event, c: Call, events: seq<Event>)
    requires CutOff(PhaseOf(s, c), c, events)
    ensures CutOff(PhaseOf(Step(s, e), c), c, events + [e])
  {
    hide RecordOf;
    assert forall d | d in events :: d in events + [e];
  }

  lemma {:induction false} OnlyDeadlinesCutOff(max: int, events: seq<Event>, c: Call)
    ensures CutOff(PhaseOf(Run(Start(max), events), c), c, events)
  {
    if events != [] {
      hide Step, Passing;
      var n := |events| - 1;
      OnlyDeadlinesCutOff(max, events[..n], c);
      StepCutsOff(Run(Start(max), events[..n]), events[n], c, events[..n]);
      assert events[..n] + [events[n]] == events;
    }
  }

  /** In any interleaving a call runs the provider at most twice, the second time only after a passing
      failure, and always then unless its deadline passed in the delay. Once it is closed it has given its
      slot back exactly once and has exactly one record, which tells how its last run came back; a refused
      call has done none of these. */
  lemma EveryCallPaysItsWay(max: int, events: seq<Event>, c: Call)
    ensures var s := Run(Start(max), events);
            var p, runs, releases, records := PhaseOf(s, c), TimesRun(max, events, c), TimesReleased(max, events, c),
                RecordsOf(s.records, c);
            && runs == |TriesOf(p)| <= 2
            && (p.Closed? ==>
                  && 1 <= runs && releases == 1 && |records| == 1 && records[0].call == c
                  && TellsOf(records[0], p.tries[runs - 1].result))
            && (!p.Closed? ==> releases == 0)
            && (p.Refused? || p.Waiting? ==> runs == 0 && records == [])
            && (runs == 2 ==> Passing(TriesOf(p)[0]))
            && (p.Closed? && runs == 1 && Passing(p.tries[0]) ==> DeadlinePassed(c) in events)
  {
    hide Run, SlotsAgree, RecordOf, TellsOf;
    CountsAgree(max, events, c);
    EveryRunIsSound(max, events);
    OnlyDeadlinesCutOff(max, events, c);
    var s := Run(Start(max), events);
    assert RecordsOk(s, c);
    if c in s.phase && s.phase[c].Closed? { RecordTells(c, Last(s.phase[c].tries)); }
  }

  // ---- tasks do not affect each other ----------------------------------------------------

  function RecordsAbout(records: seq<Record>, t: Task): seq<Record> {
    if records == [] then []
    else
      var n := |records| - 1;
      RecordsAbout(records[..n], t) + if records[n].call.task == t then [records[n]] else []
  }

  /** What a state says about one task. */
  function Only(s: State, t: Task): State {
    State(s.max,
      map k | k in s.pools && k == t :: s.pools[k],
      map c | c in s.phase && c.task == t :: s.phase[c],
      RecordsAbout(s.records, t))
  }

  function EventsOf(events: seq<Event>, t: Task): seq<Event> {
    if events == [] then []
    else
      var n := |events| - 1;
      EventsOf(events[..n], t) + if events[n].call.task == t then [events[n]] else []
  }

  lemma OneMoreAbout(records: seq<Record>, r: Record, t: Task)
    ensures RecordsAbout(records + [r], t) == RecordsAbout(records, t) + if r.call.task == t then [r] else []
  {
    assert (records + [r])[..|records|] == records;
  }

  lemma OnlyTo(s: State, c: Call, p: Phase, t: Task)
    ensures Only(To(s, c, p), t) == if c.task == t then To(Only(s, t), c, p) else Only(s, t)
  {
    hide RecordsAbout;
    var a, b := Only(To(s, c, p), t), if c.task == t then To(Only(s, t), c, p) else Only(s, t);
    assert a.phase == b.phase && a.pools == b.pools;
  }

  lemma OnlyWithPool(s: State, u: Task, n: nat, t: Task)
    ensures Only(WithPool(s, u, n), t) == if u == t then WithPool(Only(s, t), u, n) else Only(s, t)
  {
    hide RecordsAbout;
    var a, b := Only(WithPool(s, u, n), t), if u == t then WithPool(Only(s, t), u, n) else Only(s, t);
    assert a.phase == b.phase && a.pools == b.pools;
  }

  lemma OnlyNoted(s: State, r: Record, t: Task)
    ensures Only(Noted(s, r), t) == if r.call.task == t then Noted(Only(s, t), r) else Only(s, t)
  {
    OneMoreAbout(s.records, r, t);
    hide RecordsAbout;
  }

  lemma OnlyKeeps(s: State, c: Call, t: Task)
    requires c.task == t
    ensures Only(s, t).max == s.max && Pool(Only(s, t), t) == Pool(s, t)
    ensures c in Only(s, t).phase <==> c in s.phase
    ensures c in s.phase ==> Only(s, t).phase[c] == s.phase[c]
  {
    hide RecordsAbout;
  }

  // The moves a step can be made of, seen by one task.
  lemma OnlyMoves(s: State, c: Call, p: Phase, n: nat, t: Task)
    ensures Only(To(s, c, p), t) == if c.task == t then To(Only(s, t), c, p) else Only(s, t)
    ensures Only(To(WithPool(s, c.task, n), c, p), t)
            == if c.task == t then To(WithPool(Only(s, t), c.task, n), c, p) else Only(s, t)
  {
    OnlyTo(s, c, p, t);
    OnlyWithPool(s, c.task, n, t);
    OnlyTo(WithPool(s, c.task, n), c, p, t);
    hide *;
  }

  // The phase a possible event leaves its call in, and the slots it leaves in use.
  function NextPhase(s: State, e: Event): Phase {
    if e.call in Step(s, e).phase then Step(s, e).phase[e.call] else Waiting
  }

  lemma StepIsMove(s: State, e: Event)
    requires Enabled(s, e)
    ensures var p, n := NextPhase(s, e), Pool(Step(s, e), e.call.task);
            Step(s, e) == if e.Note? then Noted(To(s, e.call, p), RecordOf(e.call, Last(s.phase[e.call].tries)))
                          else if s.max > 0 && (e.Arrive? || e.SlotFreed? || e.Leave?)
                            then To(WithPool(s, e.call.task, n), e.call, p)
                          else To(s, e.call, p)
  {
    hide RecordOf, WorthRetrying;
  }

  lemma SameMove(a: State, b: State, e: Event)
    requires a.max == b.max && Pool(a, e.call.task) == Pool(b, e.call.task)
    requires e.call in a.phase <==> e.call in b.phase
    requires e.call in a.phase ==> a.phase[e.call] == b.phase[e.call]
    ensures Enabled(a, e) == Enabled(b, e)
    ensures Enabled(a, e) ==>
              NextPhase(a, e) == NextPhase(b, e) && Pool(Step(a, e), e.call.task) == Pool(Step(b, e), e.call.task)
  {
    hide RecordOf, WorthRetrying;
  }

  lemma OwnStep(s: State, e: Event, t: Task)
    requires e.call.task == t
    ensures Only(Step(s, e), t) == Step(Only(s, t), e)
  {
    NotPossible(s, e);
    NotPossible(Only(s, t), e);
    hide Only, Noted, RecordOf, WorthRetrying, Step, Enabled, NextPhase, To, WithPool, Pool, Last;
    OnlyKeeps(s, e.call, t);
    SameMove(s, Only(s, t), e);
    if Enabled(s, e) {
      OnlyMoves(s, e.call, NextPhase(s, e), Pool(Step(s, e), t), t);
      StepIsMove(s, e);
      StepIsMove(Only(s, t), e);
      if e.Note? {
        NotedCallIs(s, e);
        OnlyNoted(To(s, e.call, NextPhase(s, e)), RecordOf(e.call, Last(s.phase[e.call].tries)), t);
        RecordIsAbout(e.call, Last(s.phase[e.call].tries));
      }
    }
  }

  lemma NotPossible(s: State, e: Event)
    ensures !Enabled(s, e) ==> Step(s, e) == s
  {
  }

  lemma NotedCallIs(s: State, e: Event)
    requires Enabled(s, e) && e.Note?
    ensures e.call in s.phase && s.phase[e.call].Ready?
  {
  }

  lemma OtherStep(s: State, e: Event, t: Task)
    requires e.call.task != t
    ensures Only(Step(s, e), t) == Only(s, t)
  {
    hide Only, Noted, RecordOf, WorthRetrying, Retryable;
    if Enabled(s, e) {
      OnlyMoves(s, e.call, NextPhase(s, e), Pool(Step(s, e), e.call.task), t);
      StepIsMove(s, e);
      if e.Note? {
        OnlyNoted(To(s, e.call, NextPhase(s, e)), RecordOf(e.call, Last(s.phase[e.call].tries)), t);
        RecordIsAbout(e.call, Last(s.phase[e.call].tries));
      }
    }
  }

  lemma RecordIsAbout(c: Call, r: Result)
    ensures RecordOf(c, r).call == c
  {
  }

  /** What happens to one task's calls is what would happen if no other task existed: its pool, its
      calls and its records after any run are those of its own events alone. */
  lemma {:induction false} TasksAreIsolated(s: State, events: seq<Event>, t: Task)
    ensures Only(Run(s, events), t) == Run(Only(s, t), EventsOf(events, t))
  {
    hide Step, Only;
    if events != [] {
      var n := |events| - 1;
      TasksAreIsolated(s, events[..n], t);
      var own := EventsOf(events[..n], t);
      if events[n].call.task == t {
        OwnStep(Run(s, events[..n]), events[n], t);
        assert (own + [events[n]])[..|own|] == own;
      } else {
        OtherStep(Run(s, events[..n]), events[n], t);
        assert own + [] == own;
      }
    }
  }
}
