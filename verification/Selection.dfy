/** Selection: choosing one section's test form from the item bank.

    Models apps/api/internal/assessment/selection.go. Items that share a stimulus form a group and
    are taken together; three bands draw on the same groups, nearest level first. */
module Selection {
  import opened Cefr
  import opened Options
  import opened Sorting

  type Id = int  // a UUID, ordered as its text is

  datatype Candidate = Candidate(id: Id, version: int, level: int, stimulus: Option<Id>, position: int)
  datatype Band = Foundation | Core | Challenge
  datatype Pick = Pick(item: Candidate, band: Band)
  datatype Counts = Counts(foundation: int, core: int, challenge: int)
  datatype Group = Group(key: Id, level: int, items: seq<Candidate>)

  // ---- the order levels are searched in --------------------------------------------------

  function Abs(x: int): nat { if x < 0 then -x else x }

  predicate InScale(level: int) { MIN_BASE <= level <= MAX_BASE }

  /** The levels within distance d of the target, nearest first, ties in the band's direction. */
  function Around(target: Level, band: Band, d: nat): (order: seq<int>)
    ensures order != [] && order[0] == target
  {
    if d == 0 then [target] else Around(target, band, d - 1) + Ring(target, band, d)
  }

  function SearchOrder(target: Level, band: Band): seq<int> {
    Around(target, band, MAX_BASE - 1)
  }

  /** Nearer levels come first; of two equally far the upper one exactly for the challenge band. */
  predicate Before(target: Level, band: Band, a: int, b: int) {
    && a != b
    && Abs(a - target) <= Abs(b - target)
    && (Abs(a - target) == Abs(b - target) ==> (a > target <==> band == Challenge))
  }

  lemma {:induction false} AroundHas(target: Level, band: Band, d: nat, l: int)
    ensures l in Around(target, band, d) <==> InScale(l) && Abs(l - target) <= d
  {
    if d > 0 { AroundHas(target, band, d - 1, l); }
  }

  lemma AroundCovers(target: Level, band: Band, d: nat)
    ensures forall l :: l in Around(target, band, d) <==> InScale(l) && Abs(l - target) <= d
  {
    forall l ensures l in Around(target, band, d) <==> InScale(l) && Abs(l - target) <= d {
      AroundHas(target, band, d, l);
    }
  }

  predicate InOrder(target: Level, band: Band, order: seq<int>) {
    forall i, j | 0 <= i < j < |order| :: Before(target, band, order[i], order[j])
  }

  function OnScale(level: int): seq<int> { if InScale(level) then [level] else [] }

  // The levels at exactly distance d, the band's direction first.
  function Ring(target: Level, band: Band, d: nat): seq<int> {
    var down, up := OnScale(target - d), OnScale(target + d);
    if band == Challenge then up + down else down + up
  }

  lemma RingBehind(target: Level, band: Band, near: seq<int>, d: nat)
    requires d > 0 && InOrder(target, band, near)
    requires forall i | 0 <= i < |near| :: Abs(near[i] - target) < d
    ensures InOrder(target, band, near + Ring(target, band, d))
  {
    var ring := Ring(target, band, d);
    forall j | 0 <= j < |ring| ensures Abs(ring[j] - target) == d {}
  }

  lemma {:induction false} AroundIsOrdered(target: Level, band: Band, d: nat)
    ensures InOrder(target, band, Around(target, band, d))
  {
    if d > 0 {
      hide InOrder, Ring, InScale;
      AroundIsOrdered(target, band, d - 1);
      AroundCovers(target, band, d - 1);
      var near := Around(target, band, d - 1);
      assert forall i | 0 <= i < |near| :: near[i] in near;
      RingBehind(target, band, near, d);
    }
  }

  /** The search order visits every level once, nearest first. */
  lemma SearchOrderIsNearestFirst(target: Level, band: Band)
    ensures var order := SearchOrder(target, band);
            && |order| == MAX_BASE
            && order[0] == target
            && (forall l :: l in order <==> InScale(l))
            && InOrder(target, band, order)
  {
    AroundIsOrdered(target, band, MAX_BASE - 1);
    AroundCovers(target, band, MAX_BASE - 1);
    var order := SearchOrder(target, band);
    forall l ensures l in order <==> InScale(l) {}
    DistinctCovers(order, MAX_BASE);
  }

  lemma SomeElement(s: seq<int>)
    ensures s != [] ==> exists x :: x in s
  {
    if s != [] { var x := s[0]; assert x in s; }
  }

  // n distinct values that are exactly 1..n.
  lemma {:induction false} DistinctCovers(s: seq<int>, n: nat)
    requires forall i, j | 0 <= i < j < |s| :: s[i] != s[j]
    requires forall x :: x in s <==> 1 <= x <= n
    ensures |s| == n
  {
    if n > 0 {
      assert n in s;
      var i :| 0 <= i < |s| && s[i] == n;
      var rest := s[..i] + s[i + 1..];
      assert s == s[..i] + [n] + s[i + 1..];
      forall x ensures x in rest <==> x in s && x != n {}
      DistinctCovers(rest, n - 1);
    } else {
      SomeElement(s);
    }
  }

  lemma AroundStep(target: Level, band: Band, d: nat)
    requires d > 0
    ensures Around(target, band, d) == Around(target, band, d - 1) + Ring(target, band, d)
  {
  }

  method SearchLevels(target: Level, band: Band) returns (order: seq<int>)
    ensures order == SearchOrder(target, band)
  {
    order := [target];
    assert order == Around(target, band, 0);
    hide Around;
    for d := 1 to MAX_BASE
      invariant order == Around(target, band, d - 1)
    {
      var first, second := target - d, target + d;
      if band == Challenge {
        first, second := second, first;
      }
      order := order + (OnScale(first) + OnScale(second));
      assert OnScale(first) + OnScale(second) == Ring(target, band, d);
      AroundStep(target, band, d);
    }
  }

  // ---- grouping --------------------------------------------------------------------------

  function KeyOf(c: Candidate): Id { c.stimulus.GetOr(c.id) }

  function Members(cands: seq<Candidate>, k: Id): seq<Candidate> {
    if cands == [] then []
    else
      var n := |cands| - 1;
      Members(cands[..n], k) + if KeyOf(cands[n]) == k then [cands[n]] else []
  }

  // Keys in the order they are first seen.
  function FirstSeen(cands: seq<Candidate>): (keys: seq<Id>)
    ensures forall k :: k in keys <==> exists c | c in cands :: KeyOf(c) == k
    ensures forall i, j | 0 <= i < j < |keys| :: keys[i] != keys[j]
  {
    if cands == [] then []
    else
      var n := |cands| - 1;
      var keys := FirstSeen(cands[..n]);
      assert cands == cands[..n] + [cands[n]];
      var k := KeyOf(cands[n]);
      if k in keys then keys else keys + [k]
  }

  lemma {:induction false} MembersShareTheKey(cands: seq<Candidate>, k: Id)
    ensures forall c :: c in Members(cands, k) <==> c in cands && KeyOf(c) == k
  {
    if cands != [] {
      var n := |cands| - 1;
      MembersShareTheKey(cands[..n], k);
      assert cands == cands[..n] + [cands[n]];
    }
  }

  function Position(c: Candidate): int { c.position }

  function Identity(k: Id): int { k }

  function GroupOf(cands: seq<Candidate>, k: Id): Group
    requires exists c | c in cands :: KeyOf(c) == k
  {
    MembersShareTheKey(cands, k);
    Group(k, Members(cands, k)[0].level, StableSort(Members(cands, k), Position))
  }

  function SortedKeys(cands: seq<Candidate>): (keys: seq<Id>)
    ensures forall k | k in keys :: exists c | c in cands :: KeyOf(c) == k
  {
    var keys := StableSort(FirstSeen(cands), Identity);
    SortSorts(FirstSeen(cands), Identity);
    SameElements(keys, FirstSeen(cands));
    keys
  }

  function GroupsOf(cands: seq<Candidate>, keys: seq<Id>): (groups: seq<Group>)
    requires forall k | k in keys :: exists c | c in cands :: KeyOf(c) == k
    ensures |groups| == |keys|
  {
    seq(|keys|, i requires 0 <= i < |keys| => assert keys[i] in keys; GroupOf(cands, keys[i]))
  }

  /** The groups of a bank, in key order, each with its items in authored order. */
  function Groups(cands: seq<Candidate>): seq<Group> {
    GroupsOf(cands, SortedKeys(cands))
  }

  function AtLevel(groups: seq<Group>, level: int): seq<Group> {
    if groups == [] then []
    else
      var n := |groups| - 1;
      AtLevel(groups[..n], level) + if groups[n].level == level then [groups[n]] else []
  }

  // ---- shuffling -------------------------------------------------------------------------

  predicate IsPermutation(p: seq<nat>, n: nat) {
    && |p| == n
    && (forall i | 0 <= i < n :: p[i] < n)
    && (forall k | 0 <= k < n :: k in p)
  }

  lemma Contains(p: seq<nat>, n: nat)
    requires |p| == n && forall k | 0 <= k < n :: p[k] == k
    ensures forall k | 0 <= k < n :: k in p
  {
    forall k | 0 <= k < n ensures k in p { assert p[k] in p; }
  }

  function Unshuffled(lengths: seq<nat>): (p: seq<nat>)
    ensures lengths != [] ==> IsPermutation(p, lengths[|lengths| - 1])
  {
    if lengths == [] then []
    else
      var n := lengths[|lengths| - 1];
      var p := seq(n, i => i);
      Contains(p, n);
      p
  }

  // The random source: what it does to a pool depends on the lengths of all the pools it has
  // shuffled so far, this one's last.
  type Shuffler = shuffle: seq<nat> -> seq<nat> |
      forall lengths | lengths != [] :: IsPermutation(shuffle(lengths), lengths[|lengths| - 1])
    witness Unshuffled

  function Arrange(pool: seq<Group>, p: seq<nat>): seq<Group>
    requires IsPermutation(p, |pool|)
  {
    seq(|p|, i requires 0 <= i < |p| => pool[p[i]])
  }

  function ShuffledLevel(groups: seq<Group>, level: int, lengths: seq<nat>, shuffle: Shuffler): seq<Group>
  {
    var pool := AtLevel(groups, level);
    Arrange(pool, shuffle(lengths + [|pool|]))
  }

  // ---- filling the bands -----------------------------------------------------------------

  /** The first `count` items of a group. */
  datatype Taken = Taken(group: Group, count: nat)

  /** A band being filled: the groups used so far by any band, what this band took, what it still needs. */
  datatype Fill = Fill(used: set<Id>, taken: seq<Taken>, need: nat)

  function TakeGroup(f: Fill, g: Group): Fill {
    if f.need == 0 || g.key in f.used then f
    else
      var n := if f.need < |g.items| then f.need else |g.items|;
      Fill(f.used + {g.key}, f.taken + [Taken(g, n)], f.need - n)
  }

  function TakeAll(f: Fill, pool: seq<Group>): Fill {
    if pool == [] then f else TakeGroup(TakeAll(f, pool[..|pool| - 1]), pool[|pool| - 1])
  }

  function FillLevels(f: Fill, lengths: seq<nat>, order: seq<int>, groups: seq<Group>, shuffle: Shuffler)
    : (Fill, seq<nat>)
    decreases order
  {
    if order == [] || f.need == 0 then (f, lengths)
    else
      var pool := ShuffledLevel(groups, order[0], lengths, shuffle);
      FillLevels(TakeAll(f, pool), lengths + [|pool|], order[1..], groups, shuffle)
  }

  function Need(counts: Counts, band: Band): nat {
    var n := match band
      case Foundation => counts.foundation
      case Core => counts.core
      case Challenge => counts.challenge;
    if n <= 0 then 0 else n
  }

  function Target(start: Level, band: Band): Level {
    var t := start + match band case Foundation => -1 case Core => 0 case Challenge => 1;
    if t < MIN_BASE then MIN_BASE else if t > MAX_BASE then MAX_BASE else t
  }

  function FillBand(used: set<Id>, lengths: seq<nat>, band: Band, groups: seq<Group>, start: Level, counts: Counts,
      shuffle: Shuffler): (Fill, seq<nat>)
  {
    FillLevels(Fill(used, [], Need(counts, band)), lengths, SearchOrder(Target(start, band), band), groups, shuffle)
  }

  /** A test form: what each band took. */
  datatype Form = Form(foundation: seq<Taken>, core: seq<Taken>, challenge: seq<Taken>)

  // Core first, so the learner's own level gets its best content.
  function SelectForm(groups: seq<Group>, start: Level, counts: Counts, shuffle: Shuffler): Option<Form>
  {
    var (core, l1) := FillBand({}, [], Core, groups, start, counts, shuffle);
    if core.need > 0 then None
    else
      var (foundation, l2) := FillBand(core.used, l1, Foundation, groups, start, counts, shuffle);
      if foundation.need > 0 then None
      else
        var (challenge, _) := FillBand(foundation.used, l2, Challenge, groups, start, counts, shuffle);
        if challenge.need > 0 then None
        else Some(Form(foundation.taken, core.taken, challenge.taken))
  }

  function ItemsOf(taken: seq<Taken>, band: Band): seq<Pick> {
    if taken == [] then []
    else
      var n := |taken| - 1;
      ItemsOf(taken[..n], band) + Prefix(taken[n], band)
  }

  function Prefix(t: Taken, band: Band): seq<Pick> {
    seq(if t.count <= |t.group.items| then t.count else |t.group.items|,
        i requires 0 <= i < |t.group.items| => Pick(t.group.items[i], band))
  }

  /** Easier material first. */
  function Picks(form: Form): seq<Pick> {
    ItemsOf(form.foundation, Foundation) + ItemsOf(form.core, Core) + ItemsOf(form.challenge, Challenge)
  }

  function Select(cands: seq<Candidate>, start: Level, counts: Counts, shuffle: Shuffler): Option<seq<Pick>>
  {
    match SelectForm(Groups(cands), start, counts, shuffle)
    case None => None
    case Some(form) => Some(Picks(form))
  }
}
