/** Ledger: what AI calls cost - one ledger row per call and a daily roll-up beside it.

    Models apps/api/internal/ai/usage.go, EstimateCost in apps/api/internal/ai/gateway.go, and the
    two tables of apps/api/migrations/000005_ai.up.sql. Money and audio are stored as whole units of
    their columns' last decimal (a millionth of a dollar, a hundredth of a second). */
module Ledger {
  import opened Options
  import opened Admission

  type User = int

  datatype Pricing = Pricing(input: real, output: real, audio: real)

  function EstimateCost(p: Pricing, u: Usage): real {
    u.input as real / 1000000.0 * p.input + u.output as real / 1000000.0 * p.output + u.audio / 60.0 * p.audio
  }

  // NUMERIC with a fixed scale: the nearest unit, halves away from zero.
  function Rounded(x: real): int {
    if x >= 0.0 then (x + 0.5).Floor else -(-x + 0.5).Floor
  }

  const COST_UNIT := 1000000.0
  const AUDIO_UNIT := 100.0

  datatype Key = Key(date: int, user: Option<User>, provider: string, model: string, task: Task)

  /** A call to be recorded, as the gateway reports it. */
  datatype Report = Report(
    id: int,
    user: Option<User>,
    provider: string,
    model: string,
    task: Task,
    succeeded: bool,
    usage: Usage,
    cost: real)

  /** A row of ai_requests. */
  datatype Entry = Entry(id: int, key: Key, failed: bool, input: nat, output: nat, audio: int, cost: int)

  /** The counters of a row of ai_usage. */
  datatype Totals = Totals(requests: nat, failures: nat, input: nat, output: nat, audio: int, cost: int)

  const NOTHING := Totals(0, 0, 0, 0, 0, 0)

  function Plus(a: Totals, b: Totals): Totals {
    Totals(a.requests + b.requests, a.failures + b.failures,
           a.input + b.input, a.output + b.output, a.audio + b.audio, a.cost + b.cost)
  }

  function EntryOf(r: Report, date: int): Entry {
    Entry(r.id, Key(date, r.user, r.provider, r.model, r.task), !r.succeeded, r.usage.input, r.usage.output,
          Rounded(r.usage.audio * AUDIO_UNIT), Rounded(r.cost * COST_UNIT))
  }

  function One(e: Entry): Totals {
    Totals(1, if e.failed then 1 else 0, e.input, e.output, e.audio, e.cost)
  }

  /** What the ledger says a roll-up row should hold. */
  function Sum(ledger: seq<Entry>, k: Key): Totals {
    if ledger == [] then NOTHING
    else
      var n := |ledger| - 1;
      if ledger[n].key == k then Plus(Sum(ledger[..n], k), One(ledger[n])) else Sum(ledger[..n], k)
  }

  datatype Books = Books(ledger: seq<Entry>, usage: map<Key, Totals>)

  const EMPTY := Books([], map[])

  /** The roll-up is the ledger, grouped: a row for exactly the keys that have calls, holding their sum. */
  ghost predicate Agree(b: Books) {
    && (forall k :: k in b.usage <==> exists e | e in b.ledger :: e.key == k)
    && (forall k | k in b.usage :: b.usage[k] == Sum(b.ledger, k))
  }

  // Where a recording transaction breaks, if it does.
  datatype Fault = NoFault | AtInsert | AtUpsert | AtCommit

  datatype Step =
    | Recording(report: Report, date: int, fault: Fault)
    | DeletingUser(user: User)

  predicate Accepted(b: Books, report: Report, fault: Fault) {
    fault == NoFault && forall e | e in b.ledger :: e.id != report.id
  }

  function Recorded(b: Books, report: Report, date: int): Books {
    var e := EntryOf(report, date);
    Books(b.ledger + [e], b.usage[e.key := Plus(if e.key in b.usage then b.usage[e.key] else NOTHING, One(e))])
  }

  // ON DELETE SET NULL in the ledger, ON DELETE CASCADE in the roll-up.
  function Forgotten(ledger: seq<Entry>, user: User): (r: seq<Entry>)
    ensures |r| == |ledger|
    ensures forall i | 0 <= i < |ledger| ::
              r[i] == if ledger[i].key.user == Some(user) then ledger[i].(key := ledger[i].key.(user := None))
                      else ledger[i]
  {
    seq(|ledger|, i requires 0 <= i < |ledger| =>
        if ledger[i].key.user == Some(user) then ledger[i].(key := ledger[i].key.(user := None)) else ledger[i])
  }

  function Deleted(b: Books, user: User): Books {
    Books(Forgotten(b.ledger, user), map k | k in b.usage && k.user != Some(user) :: b.usage[k])
  }

  function Apply(b: Books, s: Step): Books {
    match s
    case Recording(r, date, fault) => if Accepted(b, r, fault) then Recorded(b, r, date) else b
    case DeletingUser(u) => Deleted(b, u)
  }

  function Run(b: Books, steps: seq<Step>): Books {
    if steps == [] then b else Apply(Run(b, steps[..|steps| - 1]), steps[|steps| - 1])
  }

  predicate HasCalls(b: Books, user: User) { exists e | e in b.ledger :: e.key.user == Some(user) }

  lemma {:induction false} NoCallsNoSum(ledger: seq<Entry>, k: Key)
    requires forall e | e in ledger :: e.key != k
    ensures Sum(ledger, k) == NOTHING
  {
    if ledger != [] {
      var n := |ledger| - 1;
      assert ledger[n] in ledger && forall e | e in ledger[..n] :: e in ledger;
      NoCallsNoSum(ledger[..n], k);
    }
  }

  lemma SumOneMore(ledger: seq<Entry>, e: Entry, k: Key)
    ensures Sum(ledger + [e], k) == if e.key == k then Plus(Sum(ledger, k), One(e)) else Sum(ledger, k)
  {
    assert (ledger + [e])[..|ledger|] == ledger;
  }

  lemma RecordingKeepsAgreement(b: Books, report: Report, date: int)
    requires Agree(b)
    ensures Agree(Recorded(b, report, date))
  {
    hide Sum, EntryOf, One, Plus;
    var e, after := EntryOf(report, date), Recorded(b, report, date);
    assert e in after.ledger;
    assert forall x | x in after.ledger :: x in b.ledger || x == e;
    forall k ensures k in after.usage <==> exists x | x in after.ledger :: x.key == k {
      if k in b.usage {
        var x :| x in b.ledger && x.key == k;
        assert x in after.ledger;
      }
    }
    forall k | k in after.usage ensures after.usage[k] == Sum(after.ledger, k) {
      SumOneMore(b.ledger, e, k);
      if k !in b.usage { NoCallsNoSum(b.ledger, k); }
    }
  }

  // The calls counted under a key, alone.
  function Count(ledger: seq<Entry>, k: Key): nat { Sum(ledger, k).requests }

  lemma {:induction false} ForgettingMoves(ledger: seq<Entry>, user: User, k: Key)
    requires k.user == None
    ensures Count(Forgotten(ledger, user), k) == Count(ledger, k) + Count(ledger, k.(user := Some(user)))
  {
    if ledger != [] {
      var n := |ledger| - 1;
      ForgettingMoves(ledger[..n], user, k);
      assert Forgotten(ledger, user)[..n] == Forgotten(ledger[..n], user);
    }
  }

  lemma {:induction false} CallIsCounted(ledger: seq<Entry>, e: Entry)
    requires e in ledger
    ensures Count(ledger, e.key) > 0
  {
    var n := |ledger| - 1;
    if ledger[n] != e {
      assert e in ledger[..n];
      CallIsCounted(ledger[..n], e);
    }
  }

  lemma NobodyToForget(b: Books, user: User)
    requires Agree(b) && !HasCalls(b, user)
    ensures Deleted(b, user) == b
  {
    hide Sum;
    var after := Deleted(b, user);
    assert after.ledger == b.ledger by {
      forall i | 0 <= i < |b.ledger| ensures after.ledger[i] == b.ledger[i] { assert b.ledger[i] in b.ledger; }
    }
    assert after.usage == b.usage;
  }

  lemma SomebodyForgotten(b: Books, user: User)
    requires Agree(b) && HasCalls(b, user)
    ensures !Agree(Deleted(b, user))
  {
    hide Sum;
    var e :| e in b.ledger && e.key.user == Some(user);
    var i :| 0 <= i < |b.ledger| && b.ledger[i] == e;
    var after, k := Deleted(b, user), e.key.(user := None);
    assert after.ledger[i] in after.ledger && after.ledger[i].key == k;
    CallIsCounted(b.ledger, e);
    assert e.key == k.(user := Some(user));
    ForgettingMoves(b.ledger, user, k);
    if k !in b.usage { assert k !in after.usage; }
  }

  /** Deleting a user breaks the agreement exactly when the ledger has calls of theirs: the calls stay,
      without a user, while the user's roll-up rows go. */
  lemma DeletionAgreesIff(b: Books, user: User)
    requires Agree(b)
    ensures Agree(Deleted(b, user)) <==> !HasCalls(b, user)
  {
    if HasCalls(b, user) { SomebodyForgotten(b, user); } else { NobodyToForget(b, user); }
  }

  // Users are deleted only before they have made a call.
  predicate OnlyUnusedDeleted(b: Books, steps: seq<Step>) {
    steps == []
    || var n := |steps| - 1;
       OnlyUnusedDeleted(b, steps[..n]) && (steps[n].DeletingUser? ==> !HasCalls(Run(b, steps[..n]), steps[n].user))
  }

  /** In every reachable state, whatever transactions failed and wherever, the roll-up is the grouped
      ledger - as long as no user with recorded calls is deleted. */
  lemma {:induction false} RollUpRefinesLedger(steps: seq<Step>)
    requires OnlyUnusedDeleted(EMPTY, steps)
    ensures Agree(Run(EMPTY, steps))
  {
    if steps != [] {
      hide Agree, Accepted, HasCalls;
      var n := |steps| - 1;
      RollUpRefinesLedger(steps[..n]);
      var b := Run(EMPTY, steps[..n]);
      match steps[n] {
        case Recording(r, date, _) => RecordingKeepsAgreement(b, r, date);
        case DeletingUser(u) => DeletionAgreesIff(b, u);
      }
    } else {
      assert Agree(EMPTY);
    }
  }

  // ---- the recorder ----------------------------------------------------------------------

  class Recorder {
    var ledger: seq<Entry>
    var usage: map<Key, Totals>

    ghost function Contents(): Books
      reads this
    {
      Books(ledger, usage)
    }

    constructor ()
      ensures Contents() == EMPTY
    {
      ledger, usage := [], map[];
    }

    /** One transaction: the ledger row, then the roll-up; what fails changes neither table. */
    method Record(report: Report, date: int, fault: Fault)
      modifies this
      ensures Contents() == Apply(old(Contents()), Recording(report, date, fault))
    {
      hide EntryOf, Plus, One;
      var taken := exists e | e in ledger :: e.id == report.id;
      if fault == AtInsert || taken {
        return;
      }
      var e := EntryOf(report, date);
      var rows := ledger + [e];
      if fault == AtUpsert {
        return;
      }
      var totals := usage;
      if e.key in totals {
        totals := totals[e.key := Plus(totals[e.key], One(e))];
      } else {
        totals := totals[e.key := Plus(NOTHING, One(e))];
      }
      if fault == AtCommit {
        return;
      }
      ledger, usage := rows, totals;
    }
  }

  // ---- cost ------------------------------------------------------------------------------

  /** Prices are per million tokens, each way, and per minute of audio. */
  lemma PricesArePerMillion(p: Pricing, millionsIn: nat, millionsOut: nat, minutes: real)
    ensures EstimateCost(p, Usage(1000000 * millionsIn, 1000000 * millionsOut, 60.0 * minutes))
            == millionsIn as real * p.input + millionsOut as real * p.output + minutes * p.audio
  {
    assert (1000000 * millionsIn) as real / 1000000.0 == millionsIn as real;
    assert (1000000 * millionsOut) as real / 1000000.0 == millionsOut as real;
    assert 60.0 * minutes / 60.0 == minutes;
  }

  function AddUsage(a: Usage, b: Usage): Usage { Usage(a.input + b.input, a.output + b.output, a.audio + b.audio) }

  function TotalUsage(calls: seq<Usage>): Usage {
    if calls == [] then NO_USAGE else AddUsage(TotalUsage(calls[..|calls| - 1]), calls[|calls| - 1])
  }

  function TotalCost(p: Pricing, calls: seq<Usage>): real {
    if calls == [] then 0.0 else TotalCost(p, calls[..|calls| - 1]) + EstimateCost(p, calls[|calls| - 1])
  }

  lemma PerMillion(a: nat, b: nat, price: real)
    ensures (a + b) as real / 1000000.0 * price == a as real / 1000000.0 * price + b as real / 1000000.0 * price
  {
    var x, y := a as real / 1000000.0, b as real / 1000000.0;
    assert (a + b) as real / 1000000.0 == x + y;
    assert (x + y) * price == x * price + y * price;
  }

  lemma PerMinute(a: real, b: real, price: real)
    ensures (a + b) / 60.0 * price == a / 60.0 * price + b / 60.0 * price
  {
    var x, y := a / 60.0, b / 60.0;
    assert (a + b) / 60.0 == x + y;
    assert (x + y) * price == x * price + y * price;
  }

  lemma CostIsAdditive(p: Pricing, a: Usage, b: Usage)
    ensures EstimateCost(p, AddUsage(a, b)) == EstimateCost(p, a) + EstimateCost(p, b)
  {
    PerMillion(a.input, b.input, p.input);
    PerMillion(a.output, b.output, p.output);
    PerMinute(a.audio, b.audio, p.audio);
  }

  lemma NothingCostsNothing(p: Pricing)
    ensures EstimateCost(p, NO_USAGE) == 0.0
  {
  }

  /** Pricing the summed usage of a day's calls gives the sum of their prices. */
  lemma {:induction false} CostOfTotal(p: Pricing, calls: seq<Usage>)
    ensures EstimateCost(p, TotalUsage(calls)) == TotalCost(p, calls)
  {
    if calls == [] {
      NothingCostsNothing(p);
    } else {
      hide EstimateCost, AddUsage;
      CostOfTotal(p, calls[..|calls| - 1]);
      CostIsAdditive(p, TotalUsage(calls[..|calls| - 1]), calls[|calls| - 1]);
    }
  }

  lemma RoundedIsNear(x: real)
    ensures -0.5 <= Rounded(x) as real - x <= 0.5
  {
  }

  /** The reports a roll-up row is made of: those recorded under its key since its user was last deleted. */
  function RecordedUnder(steps: seq<Step>, k: Key): seq<Report> {
    if steps == [] then []
    else
      var n := |steps| - 1;
      var before := RecordedUnder(steps[..n], k);
      match steps[n]
      case Recording(r, date, fault) =>
        if Accepted(Run(EMPTY, steps[..n]), r, fault) && Key(date, r.user, r.provider, r.model, r.task) == k then
          before + [r]
        else before
      case DeletingUser(u) => if k.user == Some(u) then [] else before
  }

  function StoredCost(reports: seq<Report>): int {
    if reports == [] then 0 else var n := |reports| - 1; StoredCost(reports[..n]) + Rounded(reports[n].cost * COST_UNIT)
  }

  function StoredAudio(reports: seq<Report>): int {
    if reports == [] then 0
    else var n := |reports| - 1; StoredAudio(reports[..n]) + Rounded(reports[n].usage.audio * AUDIO_UNIT)
  }

  function FailuresIn(reports: seq<Report>): nat {
    if reports == [] then 0
    else var n := |reports| - 1; FailuresIn(reports[..n]) + if reports[n].succeeded then 0 else 1
  }

  function ReportedCost(reports: seq<Report>): real {
    if reports == [] then 0.0 else var n := |reports| - 1; ReportedCost(reports[..n]) + reports[n].cost
  }

  function Usages(reports: seq<Report>): seq<Usage> {
    seq(|reports|, i requires 0 <= i < |reports| => reports[i].usage)
  }

  // A row that holds what some reports say.
  predicate HoldsAll(t: Totals, reports: seq<Report>) {
    && t.requests == |reports| && t.failures == FailuresIn(reports)
    && t.cost == StoredCost(reports) && t.audio == StoredAudio(reports)
    && t.input == TotalUsage(Usages(reports)).input && t.output == TotalUsage(Usages(reports)).output
  }

  lemma OneMoreReport(t: Totals, reports: seq<Report>, r: Report, date: int)
    requires HoldsAll(t, reports)
    ensures HoldsAll(Plus(t, One(EntryOf(r, date))), reports + [r])
  {
    assert (reports + [r])[..|reports|] == reports;
    assert Usages(reports + [r])[..|reports|] == Usages(reports);
    hide Rounded;
  }

  lemma NoReports()
    ensures HoldsAll(NOTHING, [])
  {
  }

  // A key's row holds these reports, or there is neither.
  predicate RowHolds(usage: map<Key, Totals>, k: Key, reports: seq<Report>) {
    (k in usage <==> reports != []) && (k in usage ==> HoldsAll(usage[k], reports))
  }

  lemma RecordedIs(b: Books, r: Report, date: int)
    ensures var e := EntryOf(r, date);
            && e.key == Key(date, r.user, r.provider, r.model, r.task)
            && Recorded(b, r, date).usage
               == b.usage[e.key := Plus(if e.key in b.usage then b.usage[e.key] else NOTHING, One(e))]
  {
    hide Plus, One, Rounded;
  }

  lemma RowPut(usage: map<Key, Totals>, j: Key, t: Totals, k: Key, before: seq<Report>, now: seq<Report>)
    requires RowHolds(usage, k, before)
    requires j == k ==> now != [] && HoldsAll(t, now)
    ensures RowHolds(usage[j := t], k, if j == k then now else before)
  {
    hide HoldsAll;
  }

  lemma WithOneMore(usage: map<Key, Totals>, k: Key, before: seq<Report>, r: Report, date: int)
    requires k in usage ==> HoldsAll(usage[k], before)
    requires k !in usage ==> before == []
    ensures HoldsAll(Plus(if k in usage then usage[k] else NOTHING, One(EntryOf(r, date))), before + [r])
  {
    hide *;
    NoReports();
    if k in usage { OneMoreReport(usage[k], before, r, date); } else { OneMoreReport(NOTHING, before, r, date); }
  }
  lemma RecordingHolds(b: Books, before: seq<Report>, r: Report, date: int, k: Key)
    requires RowHolds(b.usage, k, before)
    ensures var mine := Key(date, r.user, r.provider, r.model, r.task) == k;
            RowHolds(Recorded(b, r, date).usage, k, if mine then before + [r] else before)
  {
    hide HoldsAll, Plus, One, EntryOf, Recorded, Rounded;
    RecordedIs(b, r, date);
    WithOneMore(b.usage, k, before, r, date);
    var e := EntryOf(r, date);
    RowPut(b.usage, e.key, Plus(if e.key in b.usage then b.usage[e.key] else NOTHING, One(e)), k, before, before + [r]);
  }
lemma DeletingHolds(b: Books, before: seq<Report>, user: User, k: Key)
    requires RowHolds(b.usage, k, before)
    ensures RowHolds(Deleted(b, user).usage, k, if k.user == Some(user) then [] else before)
  {
    hide HoldsAll;
  }

  /** Whatever transactions failed and whoever was deleted, there is a row for exactly the keys with a
      report recorded since, and it holds them all. */
  lemma {:induction false} RowsHoldReports(steps: seq<Step>, k: Key)
    ensures var usage, reports := Run(EMPTY, steps).usage, RecordedUnder(steps, k);
            && (k in usage <==> reports != [])
            && (k in usage ==> HoldsAll(usage[k], reports))
  {
    if steps != [] {
      hide HoldsAll, Recorded, Deleted, Accepted;
      var n := |steps| - 1;
      var b, before := Run(EMPTY, steps[..n]), RecordedUnder(steps[..n], k);
      RowsHoldReports(steps[..n], k);
      match steps[n] {
        case Recording(r, date, _) => RecordingHolds(b, before, r, date, k);
        case DeletingUser(u) => DeletingHolds(b, before, u, k);
      }
    }
  }

  lemma {:induction false} RoundingIsSmall(reports: seq<Report>)
    ensures var off := StoredCost(reports) as real - ReportedCost(reports) * 1000000.0;
            -0.5 * |reports| as real <= off <= 0.5 * |reports| as real
    ensures var off := StoredAudio(reports) as real - TotalUsage(Usages(reports)).audio * 100.0;
            -0.5 * |reports| as real <= off <= 0.5 * |reports| as real
  {
    if reports != [] {
      hide Rounded;
      var n := |reports| - 1;
      RoundingIsSmall(reports[..n]);
      RoundedIsNear(reports[n].cost * COST_UNIT);
      RoundedIsNear(reports[n].usage.audio * AUDIO_UNIT);
      assert Usages(reports)[..n] == Usages(reports[..n]);
    }
  }

  predicate PricedAt(p: Pricing, reports: seq<Report>) { forall r | r in reports :: r.cost == EstimateCost(p, r.usage) }

  lemma {:induction false} PricedTogether(p: Pricing, reports: seq<Report>)
    requires PricedAt(p, reports)
    ensures ReportedCost(reports) == EstimateCost(p, TotalUsage(Usages(reports)))
  {
    hide EstimateCost, AddUsage;
    if reports == [] {
      NothingCostsNothing(p);
    } else {
      var n := |reports| - 1;
      assert reports[n] in reports && forall r | r in reports[..n] :: r in reports;
      PricedTogether(p, reports[..n]);
      assert Usages(reports)[..n] == Usages(reports[..n]);
      CostIsAdditive(p, TotalUsage(Usages(reports[..n])), reports[n].usage);
    }
  }

  /** In every reachable state a roll-up row's cost and audio are what was reported for its calls, to within
      half a millionth of a dollar and half a hundredth of a second per call; when the calls were priced alike,
      the cost is the price of the row's tokens and the calls' audio. */
  lemma StoredCostIsNear(steps: seq<Step>, k: Key, p: Pricing)
    requires k in Run(EMPTY, steps).usage
    ensures var row, reports := Run(EMPTY, steps).usage[k], RecordedUnder(steps, k);
            var off := row.cost as real - ReportedCost(reports) * 1000000.0;
            var audio := TotalUsage(Usages(reports)).audio;
            && -0.5 * row.requests as real <= off <= 0.5 * row.requests as real
            && -0.5 * row.requests as real <= row.audio as real - audio * 100.0 <= 0.5 * row.requests as real
            && (PricedAt(p, reports) ==> ReportedCost(reports) == EstimateCost(p, Usage(row.input, row.output, audio)))
  {
    RowsHoldReports(steps, k);
    var reports := RecordedUnder(steps, k);
    RoundingIsSmall(reports);
    hide EstimateCost, Run, RecordedUnder, StoredCost, StoredAudio, ReportedCost, TotalUsage, Usages, FailuresIn;
    if PricedAt(p, reports) { PricedTogether(p, reports); }
  }

  // ---- what the ledger itself holds ------------------------------------------------------

  /** A ledger row that says what was reported; its user is the reported one until that user is deleted. */
  predicate Reports(e: Entry, r: Report) {
    && e.id == r.id && (e.failed <==> !r.succeeded)
    && e.input == r.usage.input && e.output == r.usage.output
    && e.key.provider == r.provider && e.key.model == r.model && e.key.task == r.task
    && (e.key.user == r.user || e.key.user == None)
  }

  /** What was recorded in the course of a run, in order. */
  function AllRecorded(steps: seq<Step>): seq<Report> {
    if steps == [] then []
    else
      var n := |steps| - 1;
      match steps[n]
      case Recording(r, _, fault) =>
        var ids := set e | e in Run(EMPTY, steps[..n]).ledger :: e.id;
        AllRecorded(steps[..n]) + if fault == NoFault && r.id !in ids then [r] else []
      case DeletingUser(_) => AllRecorded(steps[..n])
  }

  /** Whatever fails and whoever is deleted, the ledger has one row for every call recorded, in order, each
      with what was reported, and none twice; what is lost is only the user of a row. */
  lemma {:induction false} LedgerKeepsCalls(steps: seq<Step>)
    ensures var ledger, reports := Run(EMPTY, steps).ledger, AllRecorded(steps);
            && |ledger| == |reports| && (forall i | 0 <= i < |reports| :: Reports(ledger[i], reports[i]))
            && (forall i, j | 0 <= i < j < |ledger| :: ledger[i].id != ledger[j].id)
  {
    if steps != [] {
      hide Rounded, One, Plus;
      var n := |steps| - 1;
      LedgerKeepsCalls(steps[..n]);
      var ledger := Run(EMPTY, steps[..n]).ledger;
      assert forall i | 0 <= i < |ledger| :: ledger[i] in ledger;
    }
  }
}
