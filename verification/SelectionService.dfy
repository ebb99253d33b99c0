/** SelectionService: form selection as it runs, over maps of groups and a set of used keys, and
    the filling of an adaptive section around the ability measured so far.

    Models apps/api/internal/assessment/selection.go and adaptive.go. */
module SelectionService {
  import opened Cefr
  import opened Options
  import opened Sorting
  import opened Selection
  import opened SelectionOrder

  // ---- grouping --------------------------------------------------------------------------

  // One more candidate read: its key joins the list unless seen, its item joins its group.
  lemma OneMoreCandidate(cands: seq<Candidate>, i: nat, k: Id)
    requires i < |cands|
    ensures var key := KeyOf(cands[i]);
            && Members(cands[..i + 1], k) == Members(cands[..i], k) + (if key == k then [cands[i]] else [])
            && FirstSeen(cands[..i + 1])
               == if key in FirstSeen(cands[..i]) then FirstSeen(cands[..i]) else FirstSeen(cands[..i]) + [key]
  {
    assert cands[..i + 1][..i] == cands[..i];
  }

  ghost predicate GroupsSoFar(groups: map<Id, Group>, cands: seq<Candidate>) {
    && (forall k | k !in groups :: Members(cands, k) == [])
    && (forall k | k in groups ::
          && Members(cands, k) != []
          && groups[k] == Group(k, Members(cands, k)[0].level, Members(cands, k)))
  }

  lemma GroupsGrow(groups: map<Id, Group>, cands: seq<Candidate>, i: nat)
    requires i < |cands| && GroupsSoFar(groups, cands[..i])
    ensures var c := cands[i];
            var g := if KeyOf(c) in groups then groups[KeyOf(c)] else Group(KeyOf(c), c.level, []);
            GroupsSoFar(groups[KeyOf(c) := g.(items := g.items + [c])], cands[..i + 1])
  {
    forall k { OneMoreCandidate(cands, i, k); }
    hide Members, FirstSeen, KeyOf;
  }

  method GroupCandidates(cands: seq<Candidate>) returns (groups: map<Id, Group>, keys: seq<Id>)
    ensures keys == FirstSeen(cands)
    ensures forall k :: k in groups <==> k in keys
    ensures GroupsSoFar(groups, cands)
  {
    groups, keys := map[], [];
    assert GroupsSoFar(groups, cands[..0]) && FirstSeen(cands[..0]) == [];
    hide FirstSeen, Members, KeyOf, GroupsSoFar;
    for i := 0 to |cands|
      invariant keys == FirstSeen(cands[..i])
      invariant forall k :: k in groups <==> k in keys
      invariant GroupsSoFar(groups, cands[..i])
    {
      var c := cands[i];
      var key := KeyOf(c);
      OneMoreCandidate(cands, i, key);
      GroupsGrow(groups, cands, i);
      var g := Group(key, c.level, []);
      if key in groups {
        g := groups[key];
      } else {
        keys := keys + [key];
      }
      groups := groups[key := g.(items := g.items + [c])];
    }
    assert cands[..|cands|] == cands;
  }

  function Lookup(byLevel: map<int, seq<Group>>, level: int): seq<Group> {
    if level in byLevel then byLevel[level] else []
  }

  lemma KeysInOrder(cands: seq<Candidate>)
    ensures SortedKeys(cands) == StableSort(FirstSeen(cands), Identity)
    ensures forall k :: k in SortedKeys(cands) <==> k in FirstSeen(cands)
    ensures |Groups(cands)| == |SortedKeys(cands)|
  {
    SortSorts(FirstSeen(cands), Identity);
    SameElements(SortedKeys(cands), FirstSeen(cands));
  }

  lemma NthGroup(cands: seq<Candidate>, i: nat)
    requires i < |SortedKeys(cands)| == |Groups(cands)|
    ensures var k := SortedKeys(cands)[i];
            && Members(cands, k) != []
            && Groups(cands)[i] == Group(k, Members(cands, k)[0].level, StableSort(Members(cands, k), Position))
  {
    hide StableSort, FirstSeen, Members;
    assert SortedKeys(cands)[i] in SortedKeys(cands);
    MembersShareTheKey(cands, SortedKeys(cands)[i]);
  }

  lemma OneMoreGroup(groups: seq<Group>, i: nat, l: int)
    requires i < |groups|
    ensures AtLevel(groups[..i + 1], l) == AtLevel(groups[..i], l) + if groups[i].level == l then [groups[i]] else []
  {
    assert groups[..i + 1][..i] == groups[..i];
  }

  method GroupsByLevel(cands: seq<Candidate>) returns (byLevel: map<int, seq<Group>>)
    ensures forall l :: Lookup(byLevel, l) == AtLevel(Groups(cands), l)
  {
    hide FirstSeen, Members, StableSort, Groups, SortedKeys, AtLevel;
    var groups, seen := GroupCandidates(cands);
    var keys := StableSort(seen, Identity);
    KeysInOrder(cands);
    ghost var all := Groups(cands);
    byLevel := map[];
    assert forall l :: AtLevel(all[..0], l) == [] by { NoGroups(all); }
    for i := 0 to |keys|
      invariant forall l :: Lookup(byLevel, l) == AtLevel(all[..i], l)
    {
      assert keys[i] in keys;
      var g := groups[keys[i]];
      g := g.(items := StableSort(g.items, Position));
      NthGroup(cands, i);
      assert g == all[i];
      ghost var before := byLevel;
      byLevel := byLevel[g.level := Lookup(byLevel, g.level) + [g]];
      forall l ensures Lookup(byLevel, l) == AtLevel(all[..i + 1], l) {
        OneMoreGroup(all, i, l);
        assert Lookup(before, l) == AtLevel(all[..i], l);
      }
    }
    assert all[..|keys|] == all;
  }

  lemma NoGroups(groups: seq<Group>)
    ensures forall l :: AtLevel(groups[..0], l) == []
  {
  }

  // ---- one band --------------------------------------------------------------------------

  lemma {:induction false} FullTakesNothing(f: Fill, pool: seq<Group>, j: nat)
    requires j <= |pool| && TakeAll(f, pool[..j]).need == 0
    ensures TakeAll(f, pool) == TakeAll(f, pool[..j])
    decreases |pool| - j
  {
    if j == |pool| {
      assert pool[..j] == pool;
    } else {
      assert pool[..j + 1][..j] == pool[..j];
      FullTakesNothing(f, pool, j + 1);
    }
  }

  method TakeItems(g: Group, band: Band, need: nat, chosen: seq<Pick>) returns (need': nat, chosen': seq<Pick>)
    ensures var n := if need < |g.items| then need else |g.items|;
            need' == need - n && chosen' == chosen + Prefix(Taken(g, n), band)
  {
    need', chosen' := need, chosen;
    var n := 0;
    while n < |g.items| && need' > 0
      invariant n <= |g.items| && need' == need - n
      invariant chosen' == chosen + Prefix(Taken(g, n), band)
    {
      chosen' := chosen' + [Pick(g.items[n], band)];
      n, need' := n + 1, need' - 1;
    }
  }

  lemma ItemsOfOneMore(taken: seq<Taken>, t: Taken, band: Band)
    ensures ItemsOf(taken + [t], band) == ItemsOf(taken, band) + Prefix(t, band)
  {
    assert (taken + [t])[..|taken|] == taken;
  }

  method TakeFromPool(pool: seq<Group>, band: Band, ghost f: Fill, used: set<Id>, need: nat, chosen: seq<Pick>)
    returns (used': set<Id>, need': nat, chosen': seq<Pick>)
    requires used == f.used && need == f.need && chosen == ItemsOf(f.taken, band)
    ensures used' == TakeAll(f, pool).used && need' == TakeAll(f, pool).need
            && chosen' == ItemsOf(TakeAll(f, pool).taken, band)
  {
    hide Prefix, ItemsOf;
    used', need', chosen' := used, need, chosen;
    for j := 0 to |pool|
      invariant used' == TakeAll(f, pool[..j]).used
      invariant need' == TakeAll(f, pool[..j]).need
      invariant chosen' == ItemsOf(TakeAll(f, pool[..j]).taken, band)
    {
      if need' == 0 {
        FullTakesNothing(f, pool, j);
        return;
      }
      assert pool[..j + 1][..j] == pool[..j];
      var g := pool[j];
      if g.key !in used' {
        ItemsOfOneMore(TakeAll(f, pool[..j]).taken, Taken(g, if need' < |g.items| then need' else |g.items|), band);
        used' := used' + {g.key};
        need', chosen' := TakeItems(g, band, need', chosen');
      }
    }
    assert pool[..|pool|] == pool;
  }

  lemma NextLevel(f: Fill, lengths: seq<nat>, order: seq<int>, i: nat, groups: seq<Group>, shuffle: Shuffler)
    requires i < |order| && f.need > 0
    ensures var pool := ShuffledLevel(groups, order[i], lengths, shuffle);
            && pool == Arrange(AtLevel(groups, order[i]), shuffle(lengths + [|AtLevel(groups, order[i])|]))
            && FillLevels(f, lengths, order[i..], groups, shuffle)
               == FillLevels(TakeAll(f, pool), lengths + [|AtLevel(groups, order[i])|], order[i + 1..], groups, shuffle)
  {
    hide AtLevel, TakeAll;
    assert order[i..][1..] == order[i + 1..];
  }

  lemma NoMoreLevels(f: Fill, lengths: seq<nat>, order: seq<int>, groups: seq<Group>, shuffle: Shuffler)
    requires order == [] || f.need == 0
    ensures FillLevels(f, lengths, order, groups, shuffle) == (f, lengths)
  {
  }

  lemma BandStarts(used: set<Id>, lengths: seq<nat>, band: Band, groups: seq<Group>, start: Level, counts: Counts,
      shuffle: Shuffler)
    ensures ItemsOf([], band) == []
    ensures FillBand(used, lengths, band, groups, start, counts, shuffle)
            == FillLevels(Fill(used, [], Need(counts, band)), lengths, SearchOrder(Target(start, band), band),
                          groups, shuffle)
  {
    hide FillLevels, SearchOrder, Need, Target;
  }

  method PickBand(byLevel: map<int, seq<Group>>, ghost groups: seq<Group>, used: set<Id>, lengths: seq<nat>,
                  band: Band, start: Level, counts: Counts, shuffle: Shuffler)
    returns (used': set<Id>, lengths': seq<nat>, need: nat, chosen: seq<Pick>)
    requires forall l :: Lookup(byLevel, l) == AtLevel(groups, l)
    ensures var (f, l) := FillBand(used, lengths, band, groups, start, counts, shuffle);
            used' == f.used && lengths' == l && need == f.need && chosen == ItemsOf(f.taken, band)
  {
    hide AtLevel, TakeAll, FillLevels, SearchOrder, ItemsOf, Target, Need, Lookup, FillBand, Arrange, ShuffledLevel,
        IsPermutation;
    used', lengths', need, chosen := used, lengths, Need(counts, band), [];
    var order := SearchLevels(Target(start, band), band);
    ghost var f := Fill(used, [], need);
    ghost var (end, last) := FillBand(used, lengths, band, groups, start, counts, shuffle);
    BandStarts(used, lengths, band, groups, start, counts, shuffle);
    assert order[0..] == order;
    var i := 0;
    while i < |order| && need > 0
      invariant i <= |order|
      invariant FillLevels(f, lengths', order[i..], groups, shuffle) == (end, last)
      invariant used' == f.used && need == f.need && chosen == ItemsOf(f.taken, band)
    {
      NextLevel(f, lengths', order, i, groups, shuffle);
      var pool := Lookup(byLevel, order[i]);
      lengths' := lengths' + [|pool|];
      pool := Arrange(pool, shuffle(lengths'));
      used', need, chosen := TakeFromPool(pool, band, f, used', need, chosen);
      f := TakeAll(f, pool);
      i := i + 1;
    }
    NoMoreLevels(f, lengths', order[i..], groups, shuffle);
  }

  /** Chooses a section's form: core first, then the band below, then the band above. */
  method SelectItems(cands: seq<Candidate>, start: Level, counts: Counts, shuffle: Shuffler)
    returns (r: Option<seq<Pick>>)
    ensures r == Select(cands, start, counts, shuffle)
  {
    var byLevel := GroupsByLevel(cands);
    ghost var groups := Groups(cands);
    var used, lengths, need, core := PickBand(byLevel, groups, {}, [], Core, start, counts, shuffle);
    if need > 0 {
      return None;
    }
    var foundation, challenge;
    used, lengths, need, foundation := PickBand(byLevel, groups, used, lengths, Foundation, start, counts, shuffle);
    if need > 0 {
      return None;
    }
    used, lengths, need, challenge := PickBand(byLevel, groups, used, lengths, Challenge, start, counts, shuffle);
    if need > 0 {
      return None;
    }
    return Some(foundation + core + challenge);
  }

  // ---- adaptive sections -----------------------------------------------------------------

  /** A scored section: its level on the half-step scale, A1 = 1 to C2 = 6, and its confidence. */
  datatype Measured = Measured(value: real, confidence: real)

  predicate OnHalfStep(v: real) { 1.0 <= v <= 6.0 && (v * 2.0).Floor as real == v * 2.0 }

  function WeightOf(confidence: real): real { if confidence > 0.1 then confidence else 0.1 }

  function WeightedSum(results: seq<Measured>): real {
    if results == [] then 0.0
    else
      var m := results[|results| - 1];
      WeightedSum(results[..|results| - 1]) + m.value * WeightOf(m.confidence)
  }

  function WeightSum(results: seq<Measured>): (w: real)
    ensures w >= 0.0 && (results != [] ==> w > 0.0)
  {
    if results == [] then 0.0
    else WeightSum(results[..|results| - 1]) + WeightOf(results[|results| - 1].confidence)
  }

  function Average(results: seq<Measured>): real
    requires results != []
  {
    WeightedSum(results) / WeightSum(results)
  }

  // The largest half step not above v, clamped to the scale; the epsilon absorbs rounding noise.
  function FromValue(v: real): real {
    var half := ((v + 0.000001) * 2.0).Floor as real / 2.0;
    if half < 1.0 then 1.0 else if half > 6.0 then 6.0 else half
  }

  lemma AddAbove(lo: real, weight: real, sum: real, value: real, w: real)
    requires w >= 0.0 && lo <= value && lo * weight <= sum
    ensures lo * (weight + w) <= sum + value * w
  {
    assert (value - lo) * w >= 0.0;
  }

  lemma AddBelow(hi: real, weight: real, sum: real, value: real, w: real)
    requires w >= 0.0 && value <= hi && sum <= hi * weight
    ensures sum + value * w <= hi * (weight + w)
  {
    assert (hi - value) * w >= 0.0;
  }

  lemma {:induction false} SumsAreAbove(results: seq<Measured>, lo: real)
    requires forall m | m in results :: lo <= m.value
    ensures lo * WeightSum(results) <= WeightedSum(results)
  {
    if results != [] {
      var n := |results| - 1;
      var m := results[n];
      assert m in results;
      SumsAreAbove(results[..n], lo);
      AddAbove(lo, WeightSum(results[..n]), WeightedSum(results[..n]), m.value, WeightOf(m.confidence));
    }
  }

  lemma {:induction false} SumsAreBelow(results: seq<Measured>, hi: real)
    requires forall m | m in results :: m.value <= hi
    ensures WeightedSum(results) <= hi * WeightSum(results)
  {
    if results != [] {
      var n := |results| - 1;
      var m := results[n];
      assert m in results;
      SumsAreBelow(results[..n], hi);
      AddBelow(hi, WeightSum(results[..n]), WeightedSum(results[..n]), m.value, WeightOf(m.confidence));
    }
  }

  /** What the scored sections say about the learner; the declared level stands when none is scored. */
  method AbilityEstimate(results: seq<Measured>, declared: real) returns (estimate: real, measured: nat)
    ensures measured == |results|
    ensures estimate == if results == [] then declared else FromValue(Average(results))
  {
    var weighted, weight := 0.0, 0.0;
    measured := 0;
    for i := 0 to |results|
      invariant weighted == WeightedSum(results[..i]) && weight == WeightSum(results[..i]) && measured == i
    {
      assert results[..i + 1][..i] == results[..i];
      var w := WeightOf(results[i].confidence);
      weighted := weighted + results[i].value * w;
      weight := weight + w;
      measured := measured + 1;
    }
    assert results[..|results|] == results;
    if measured == 0 || weight == 0.0 {
      return declared, measured;
    }
    return FromValue(weighted / weight), measured;
  }

  lemma HalfStepFloor(v: real, lo: real, hi: real)
    requires OnHalfStep(lo) && OnHalfStep(hi) && lo <= v <= hi
    ensures lo <= FromValue(v) <= hi
  {
    var x := (v + 0.000001) * 2.0;
    assert lo * 2.0 <= x < hi * 2.0 + 1.0;
    assert (lo * 2.0).Floor <= x.Floor <= (hi * 2.0).Floor;
  }

  /** Whatever the confidences, the estimate lies between the weakest and the strongest section. */
  lemma EstimateIsBetween(results: seq<Measured>, lo: real, hi: real)
    requires results != [] && OnHalfStep(lo) && OnHalfStep(hi)
    requires forall m | m in results :: lo <= m.value <= hi
    ensures lo <= FromValue(Average(results)) <= hi
  {
    hide *;
    SumsAreAbove(results, lo);
    SumsAreBelow(results, hi);
    AverageIsBetween(results, lo, hi);
    HalfStepFloor(Average(results), lo, hi);
  }

  /** A section counts in proportion to its confidence, and never less than a tenth. */
  lemma SurerCountsMore(results: seq<Measured>, m: Measured)
    requires results != []
    ensures var w := if m.confidence > 0.1 then m.confidence else 0.1;
            var before, after := WeightSum(results), WeightSum(results + [m]);
            && after == before + w
            && Average(results + [m]) * after == Average(results) * before + m.value * w
    ensures Average([m]) == m.value
  {
    var all := results + [m];
    assert all[..|results|] == results;
    assert WeightedSum(all) == WeightedSum(results) + m.value * WeightOf(m.confidence);
    hide WeightedSum;
    Times(WeightedSum(all), WeightSum(all));
    Times(WeightedSum(results), WeightSum(results));
    AloneCounts(m);
  }

  lemma AloneCounts(m: Measured)
    ensures Average([m]) == m.value
  {
    hide *;
    SumsAreAbove([m], m.value);
    SumsAreBelow([m], m.value);
    AverageIsBetween([m], m.value, m.value);
  }

  lemma Times(s: real, w: real)
    requires w > 0.0
    ensures s / w * w == s
  {
  }

  /** The level is the largest half step not above the average, kept on the scale. */
  lemma FromValueIs(v: real)
    ensures OnHalfStep(FromValue(v))
    ensures 1.0 <= v < 6.0 ==> FromValue(v) <= v + 0.000001 < FromValue(v) + 0.5
    ensures v < 1.0 - 0.000001 ==> FromValue(v) == 1.0
    ensures v >= 6.0 ==> FromValue(v) == 6.0
  {
    var n := ((v + 0.000001) * 2.0).Floor;
    var half := n as real / 2.0;
    assert half * 2.0 == n as real;
    assert (half * 2.0).Floor == n;
  }

  lemma AverageIsBetween(results: seq<Measured>, lo: real, hi: real)
    requires results != []
    requires lo * WeightSum(results) <= WeightedSum(results) <= hi * WeightSum(results)
    ensures lo <= Average(results) <= hi
  {
    hide WeightSum, WeightedSum;
    Quotient(WeightedSum(results), WeightSum(results), lo, hi);
  }

  lemma Quotient(s: real, w: real, lo: real, hi: real)
    requires w > 0.0 && lo * w <= s <= hi * w
    ensures lo <= s / w <= hi
  {
    var q := s / w;
    assert s == q * w;
    assert (q - lo) * w >= 0.0;
    assert (hi - q) * w >= 0.0;
  }

  /** The section's items, numbered from 1; the declared level is tried when the measured one
      cannot be served. */
  function Section(cands: seq<Candidate>, target: Level, declared: Level, counts: Counts, shuffle: Shuffler)
    : Option<seq<Pick>>
  {
    var picks := Select(cands, target, counts, shuffle);
    if picks.None? && target != declared then Select(cands, declared, counts, shuffle) else picks
  }

  lemma SectionIs(cands: seq<Candidate>, target: Level, declared: Level, counts: Counts, shuffle: Shuffler)
    ensures var first, second := Select(cands, target, counts, shuffle), Select(cands, declared, counts, shuffle);
            && Section(cands, target, declared, counts, shuffle) == (if first.Some? then first else second)
            && (target == declared ==> first == second)
  {
    hide Select;
  }

  method FillSection(cands: seq<Candidate>, target: Level, declared: Level, counts: Counts, shuffle: Shuffler)
    returns (rows: Option<seq<(Pick, nat)>>)
    ensures var first, second := Select(cands, target, counts, shuffle), Select(cands, declared, counts, shuffle);
            var section := if first.Some? then first else second;
            && (rows.Some? <==> section.Some?)
            && (rows.Some? ==>
                  && |rows.value| == |section.value|
                  && forall i | 0 <= i < |rows.value| :: rows.value[i] == (section.value[i], i + 1))
  {
    hide *;
    ghost var section := Section(cands, target, declared, counts, shuffle);
    SectionIs(cands, target, declared, counts, shuffle);
    var picks := SelectItems(cands, target, counts, shuffle);
    if picks.None? && target != declared {
      picks := SelectItems(cands, declared, counts, shuffle);
    }
    assert picks == section;
    if picks.None? {
      return None;
    }
    var inserted: seq<(Pick, nat)> := [];
    for i := 0 to |picks.value|
      invariant |inserted| == i
      invariant forall j | 0 <= j < i :: inserted[j] == (picks.value[j], j + 1)
    {
      inserted := inserted + [(picks.value[i], i + 1)];
    }
    return Some(inserted);
  }

  /** A section filled twice is the same section. */
  lemma FilledTwiceIsTheSame(a: seq<Candidate>, b: seq<Candidate>, target: Level, declared: Level, counts: Counts,
      shuffle: Shuffler)
    requires multiset(a) == multiset(b) && Authored(a)
    ensures Section(a, target, declared, counts, shuffle) == Section(b, target, declared, counts, shuffle)
  {
    SameFormForEveryOrder(a, b, target, counts, shuffle);
    SameFormForEveryOrder(a, b, declared, counts, shuffle);
  }
}
