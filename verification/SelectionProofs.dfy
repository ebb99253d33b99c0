/** SelectionProofs: what every chosen form keeps, when choosing succeeds, and what it depends on. */
module SelectionProofs {
  import opened Cefr
  import opened Sorting
  import opened Selection

  // ---- sizes and bags of groups ----------------------------------------------------------

  ghost predicate DistinctKeys(groups: seq<Group>) {
    forall i, j | 0 <= i < j < |groups| :: groups[i].key != groups[j].key
  }

  /** Items in the groups whose key is used. */
  function Size(groups: seq<Group>, used: set<Id>): nat {
    if groups == [] then 0
    else
      var n := |groups| - 1;
      Size(groups[..n], used) + if groups[n].key in used then |groups[n].items| else 0
  }

  function Bag(groups: seq<Group>, used: set<Id>): multiset<Candidate> {
    if groups == [] then multiset{}
    else
      var n := |groups| - 1;
      Bag(groups[..n], used) + if groups[n].key in used then multiset(groups[n].items) else multiset{}
  }

  lemma {:induction false} UseOneMore(groups: seq<Group>, used: set<Id>, g: Group)
    requires DistinctKeys(groups) && g.key !in used
    ensures g in groups ==> Size(groups, used + {g.key}) == Size(groups, used) + |g.items|
    ensures g in groups ==> Bag(groups, used + {g.key}) == Bag(groups, used) + multiset(g.items)
    ensures (forall h | h in groups :: h.key != g.key) ==>
              Size(groups, used + {g.key}) == Size(groups, used) && Bag(groups, used + {g.key}) == Bag(groups, used)
  {
    if groups != [] {
      var n := |groups| - 1;
      UseOneMore(groups[..n], used, g);
      assert groups == groups[..n] + [groups[n]];
      if g == groups[n] {
        assert forall h | h in groups[..n] :: h.key != g.key;
      }
    }
  }

  // ---- what a band takes -----------------------------------------------------------------

  /** Items taken, and items of the groups they were taken from. */
  function Count(taken: seq<Taken>): nat {
    if taken == [] then 0 else Count(taken[..|taken| - 1]) + taken[|taken| - 1].count
  }

  function Weight(taken: seq<Taken>): nat {
    if taken == [] then 0 else Weight(taken[..|taken| - 1]) + |taken[|taken| - 1].group.items|
  }

  function KeysOf(taken: seq<Taken>): set<Id> {
    set t | t in taken :: t.group.key
  }

  function ItemBag(taken: seq<Taken>): multiset<Candidate> {
    if taken == [] then multiset{}
    else
      var t := taken[|taken| - 1];
      ItemBag(taken[..|taken| - 1])
      + multiset(t.group.items[..if t.count <= |t.group.items| then t.count else |t.group.items|])
  }

  ghost predicate GoodBank(groups: seq<Group>, most: nat) {
    && DistinctKeys(groups)
    && forall g | g in groups :: 0 < |g.items| <= most
  }

  /** A band's take, counted against the groups it used up since `before`. */
  ghost predicate Accounted(groups: seq<Group>, most: nat, before: set<Id>, f: Fill) {
    && f.used == before + KeysOf(f.taken)
    && Size(groups, f.used) == Size(groups, before) + Weight(f.taken)
    && Bag(groups, before) + ItemBag(f.taken) <= Bag(groups, f.used)
    && Count(f.taken) <= Weight(f.taken) <= Count(f.taken) + (if f.need == 0 && most > 0 then most - 1 else 0)
  }

  /** Every group is taken once, in full — except that the last one may be cut short when it
      fills the band. */
  ghost predicate WellTaken(groups: seq<Group>, before: set<Id>, taken: seq<Taken>, need: nat) {
    && (forall i | 0 <= i < |taken| :: taken[i].group in groups && 0 < taken[i].count <= |taken[i].group.items|)
    && (forall i | 0 <= i < |taken| && (i < |taken| - 1 || need > 0) :: taken[i].count == |taken[i].group.items|)
    && (forall i | 0 <= i < |taken| :: taken[i].group.key !in before)
    && (forall i, j | 0 <= i < j < |taken| :: taken[i].group.key != taken[j].group.key)
  }

  lemma KeysOfAppend(taken: seq<Taken>, t: Taken)
    ensures KeysOf(taken + [t]) == KeysOf(taken) + {t.group.key}
  {
    assert forall x :: x in taken + [t] <==> x in taken || x == t;
  }

  lemma TakeGroupAccounts(groups: seq<Group>, most: nat, before: set<Id>, f: Fill, g: Group)
    requires GoodBank(groups, most) && g in groups && f.need > 0 && g.key !in f.used
    requires Accounted(groups, most, before, f)
    requires f.need > 0 ==> Weight(f.taken) == Count(f.taken)
    ensures Accounted(groups, most, before, TakeGroup(f, g))
  {
    var f' := TakeGroup(f, g);
    var t := f'.taken[|f.taken|];
    hide Bag, Size;
    UseOneMore(groups, f.used, g);
    KeysOfAppend(f.taken, t);
    assert f'.taken[..|f.taken|] == f.taken;
    FewerItems(g.items, t.count);
  }

  lemma FewerItems(items: seq<Candidate>, n: nat)
    requires n <= |items|
    ensures multiset(items[..n]) <= multiset(items)
  {
    assert items == items[..n] + items[n..];
  }

  lemma TakeGroupIsWell(groups: seq<Group>, most: nat, before: set<Id>, f: Fill, g: Group)
    requires GoodBank(groups, most) && g in groups && f.need > 0 && g.key !in f.used
    requires f.used == before + KeysOf(f.taken)
    requires WellTaken(groups, before, f.taken, f.need)
    ensures WellTaken(groups, before, TakeGroup(f, g).taken, TakeGroup(f, g).need)
  {
    forall i | 0 <= i < |f.taken| ensures f.taken[i].group.key in f.used { assert f.taken[i] in f.taken; }
  }

  /** Everything the induction over pools carries along. */
  ghost predicate Filling(groups: seq<Group>, most: nat, before: set<Id>, f: Fill) {
    Accounted(groups, most, before, f) && WellTaken(groups, before, f.taken, f.need)
  }

  // From f on to f': nothing lost, and what was taken went off what was needed.
  ghost predicate Continues(f: Fill, f': Fill) {
    f.taken <= f'.taken && f.used <= f'.used && Count(f'.taken) + f'.need == Count(f.taken) + f.need
  }

  lemma TakeGroupKeeps(groups: seq<Group>, most: nat, before: set<Id>, f: Fill, g: Group)
    requires GoodBank(groups, most) && g in groups && Filling(groups, most, before, f)
    ensures Filling(groups, most, before, TakeGroup(f, g)) && Continues(f, TakeGroup(f, g))
    ensures TakeGroup(f, g).need > 0 ==> g.key in TakeGroup(f, g).used
  {
    if f.need > 0 && g.key !in f.used {
      TakeGroupAccounts(groups, most, before, f, g);
      TakeGroupIsWell(groups, most, before, f, g);
      assert TakeGroup(f, g).taken[..|f.taken|] == f.taken;
    }
  }

  lemma ContinuesThen(f: Fill, f1: Fill, f2: Fill)
    requires Continues(f, f1) && Continues(f1, f2)
    ensures Continues(f, f2) && f1.used <= f2.used && f2.need <= f1.need + Count(f1.taken)
  {
  }

  lemma TakeOneMore(f: Fill, pool: seq<Group>)
    requires pool != []
    ensures TakeAll(f, pool) == TakeGroup(TakeAll(f, pool[..|pool| - 1]), pool[|pool| - 1])
    ensures forall g :: g in pool <==> g in pool[..|pool| - 1] || g == pool[|pool| - 1]
  {
    hide TakeGroup;
    assert pool == pool[..|pool| - 1] + [pool[|pool| - 1]];
  }

  lemma FilledGroupNeedsNoMore(f: Fill, g: Group)
    ensures f.need == 0 ==> TakeGroup(f, g) == f
  {
  }

  lemma {:induction false} TakeAllKeeps(groups: seq<Group>, most: nat, before: set<Id>, f: Fill, pool: seq<Group>)
    requires GoodBank(groups, most) && Filling(groups, most, before, f)
    requires forall g | g in pool :: g in groups
    ensures Filling(groups, most, before, TakeAll(f, pool)) && Continues(f, TakeAll(f, pool))
    ensures TakeAll(f, pool).need > 0 ==> forall g | g in pool :: g.key in TakeAll(f, pool).used
  {
    if pool != [] {
      hide *;
      var n := |pool| - 1;
      TakeOneMore(f, pool);
      var f1, f2 := TakeAll(f, pool[..n]), TakeAll(f, pool);
      TakeAllKeeps(groups, most, before, f, pool[..n]);
      TakeGroupKeeps(groups, most, before, f1, pool[n]);
      ContinuesThen(f, f1, f2);
      FilledGroupNeedsNoMore(f1, pool[n]);
    } else {
      NothingMoreTaken(f);
    }
  }

  lemma NothingMoreTaken(f: Fill)
    ensures TakeAll(f, []) == f && Continues(f, f)
  {
  }

  // ---- nearest level first ---------------------------------------------------------------

  lemma {:induction false} AtLevelFilters(groups: seq<Group>, level: int)
    ensures forall g :: g in AtLevel(groups, level) <==> g in groups && g.level == level
  {
    if groups != [] {
      var n := |groups| - 1;
      AtLevelFilters(groups[..n], level);
      assert groups == groups[..n] + [groups[n]];
    }
  }

  lemma ShuffleKeepsElements(groups: seq<Group>, level: int, lengths: seq<nat>, shuffle: Shuffler)
    ensures forall g :: g in ShuffledLevel(groups, level, lengths, shuffle) <==> g in groups && g.level == level
  {
    AtLevelFilters(groups, level);
    var pool := AtLevel(groups, level);
    var p := shuffle(lengths + [|pool|]);
    var shuffled := Arrange(pool, p);
    forall g | g in pool ensures g in shuffled {
      var k: nat :| k < |pool| && pool[k] == g;
      assert k in p;
      var i :| 0 <= i < |p| && p[i] == k;
      assert shuffled[i] == g;
    }
  }

  lemma {:induction false} TakenFromPool(f: Fill, pool: seq<Group>)
    ensures f.taken <= TakeAll(f, pool).taken
    ensures forall t | |f.taken| <= t < |TakeAll(f, pool).taken| :: TakeAll(f, pool).taken[t].group in pool
  {
    if pool != [] { TakenFromPool(f, pool[..|pool| - 1]); }
  }

  // Where a level stands in a search order.
  function Rank(order: seq<int>, level: int): nat {
    if order == [] || order[0] == level then 0 else 1 + Rank(order[1..], level)
  }

  /** When f' went on to take a group, every group of an earlier level had been used. */
  ghost predicate NearestFirst(groups: seq<Group>, order: seq<int>, f: Fill, f': Fill) {
    && f.taken <= f'.taken
    && (forall t | |f.taken| <= t < |f'.taken| :: f'.taken[t].group.level in order)
    && forall t, g | |f.taken| <= t < |f'.taken| && g in groups
                     && Rank(order, g.level) < Rank(order, f'.taken[t].group.level) ::
         g.key in f.used + KeysOf(f'.taken[..t])
  }

  lemma NearestFirstThen(groups: seq<Group>, most: nat, before: set<Id>, order: seq<int>, f: Fill, f1: Fill, f2: Fill)
    requires order != [] && Filling(groups, most, before, f) && Filling(groups, most, before, f1)
    requires f.taken <= f1.taken
    requires forall t | |f.taken| <= t < |f1.taken| :: f1.taken[t].group.level == order[0]
    requires forall g | g in groups && g.level == order[0] :: g.key in f1.used
    requires NearestFirst(groups, order[1..], f1, f2)
    ensures NearestFirst(groups, order, f, f2)
  {
    forall t, g | |f.taken| <= t < |f2.taken| && g in groups
                  && Rank(order, g.level) < Rank(order, f2.taken[t].group.level)
      ensures g.key in f.used + KeysOf(f2.taken[..t])
    {
      if t >= |f1.taken| {
        assert f1.taken <= f2.taken[..t];
        assert KeysOf(f1.taken) <= KeysOf(f2.taken[..t]) by { assert forall x | x in f1.taken :: x in f2.taken[..t]; }
        assert f1.used <= f.used + KeysOf(f2.taken[..t]);
        assert g.level != order[0] ==> g.key in f1.used + KeysOf(f2.taken[..t]);
      }
    }
    forall t | |f.taken| <= t < |f2.taken| ensures f2.taken[t].group.level in order {
      if t < |f1.taken| { assert f2.taken[t] == f1.taken[t]; }
    }
  }

  ghost predicate Filled(groups: seq<Group>, most: nat, before: set<Id>, order: seq<int>, f: Fill, f': Fill) {
    && Filling(groups, most, before, f') && Continues(f, f')
    && NearestFirst(groups, order, f, f')
    && (f'.need > 0 ==> forall g | g in groups && g.level in order :: g.key in f'.used)
  }

  // One level done and room left: the rest of the order follows on.
  lemma FilledThen(groups: seq<Group>, most: nat, before: set<Id>, order: seq<int>, f: Fill, f1: Fill, f2: Fill)
    requires order != [] && Filling(groups, most, before, f) && Filling(groups, most, before, f1) && Continues(f, f1)
    requires forall t | |f.taken| <= t < |f1.taken| :: f1.taken[t].group.level == order[0]
    requires forall g | g in groups && g.level == order[0] :: g.key in f1.used
    requires Filled(groups, most, before, order[1..], f1, f2)
    ensures Filled(groups, most, before, order, f, f2)
  {
    NearestFirstThen(groups, most, before, order, f, f1, f2);
    hide Filling, NearestFirst, Count;
    forall g | g in groups && g.level in order && f2.need > 0 ensures g.key in f2.used {
      assert g.level == order[0] || g.level in order[1..];
    }
  }

  lemma {:induction false} FillLevelsKeeps(groups: seq<Group>, most: nat, before: set<Id>, f: Fill, lengths: seq<nat>,
      order: seq<int>, shuffle: Shuffler)
    requires GoodBank(groups, most) && Filling(groups, most, before, f)
    ensures Filled(groups, most, before, order, f, FillLevels(f, lengths, order, groups, shuffle).0)
    decreases order
  {
    if order != [] && f.need > 0 {
      var pool := ShuffledLevel(groups, order[0], lengths, shuffle);
      var f1 := TakeAll(f, pool);
      ShuffleKeepsElements(groups, order[0], lengths, shuffle);
      TakeAllKeeps(groups, most, before, f, pool);
      TakenFromPool(f, pool);
      hide Filled, Filling, GoodBank, ShuffledLevel, TakeAll, Continues;
      FillLevelsKeeps(groups, most, before, f1, lengths + [|pool|], order[1..], shuffle);
      var f2 := FillLevels(f1, lengths + [|pool|], order[1..], groups, shuffle).0;
      if f1.need > 0 {
        FilledThen(groups, most, before, order, f, f1, f2);
      } else {
        FilledUp(groups, most, before, order, f, f1);
      }
    } else {
      NothingTaken(groups, most, before, order, f);
    }
  }

  lemma NothingTaken(groups: seq<Group>, most: nat, before: set<Id>, order: seq<int>, f: Fill)
    requires Filling(groups, most, before, f) && (order == [] || f.need == 0)
    ensures Filled(groups, most, before, order, f, f)
  {
  }

  lemma FilledUp(groups: seq<Group>, most: nat, before: set<Id>, order: seq<int>, f: Fill, f1: Fill)
    requires Filling(groups, most, before, f1) && Continues(f, f1) && f1.need == 0 && order != []
    requires forall t | |f.taken| <= t < |f1.taken| :: f1.taken[t].group.level == order[0]
    ensures Filled(groups, most, before, order, f, f1)
  {
  }

  // ---- one band --------------------------------------------------------------------------

  lemma {:induction false} RankIsIndex(order: seq<int>, level: int)
    requires level in order
    ensures Rank(order, level) < |order| && order[Rank(order, level)] == level
  {
    if order[0] != level { RankIsIndex(order[1..], level); }
  }

  lemma BeforeByRank(target: Level, band: Band, order: seq<int>, i: nat, j: nat)
    requires InOrder(target, band, order) && i < |order| && j < |order|
    requires Before(target, band, order[i], order[j])
    ensures i < j
  {
  }

  lemma SoonerRanksLower(target: Level, band: Band, a: int, b: int)
    requires InScale(a) && InScale(b) && Before(target, band, a, b)
    ensures Rank(SearchOrder(target, band), a) < Rank(SearchOrder(target, band), b)
  {
    var order := SearchOrder(target, band);
    SearchOrderIsNearestFirst(target, band);
    RankIsIndex(order, a);
    RankIsIndex(order, b);
    hide SearchOrder, Rank;
    var ra, rb := Rank(order, a), Rank(order, b);
    BeforeByRank(target, band, order, ra, rb);
  }

  /** No group of a level that comes before is left unused when one of a later level is taken: nearer
      levels first, and of two equally far the one in the band's direction. */
  ghost predicate NoSoonerLeft(groups: seq<Group>, before: set<Id>, taken: seq<Taken>, target: Level, band: Band) {
    forall t, g | 0 <= t < |taken| && g in groups && InScale(g.level)
                  && Before(target, band, g.level, taken[t].group.level) ::
      g.key in before + KeysOf(taken[..t])
  }

  /** A finished band: exactly the items needed; every group once and in full, in authored order,
      but for the last one's cut; the nearest groups first. */
  ghost predicate BandOk(groups: seq<Group>, before: set<Id>, taken: seq<Taken>, target: Level, band: Band, need: nat) {
    && Count(taken) == need
    && WellTaken(groups, before, taken, 0)
    && NoSoonerLeft(groups, before, taken, target, band)
  }

  lemma NearestFirstMeansNoSoonerLeft(groups: seq<Group>, used: set<Id>, need: nat, target: Level, band: Band, f: Fill)
    requires NearestFirst(groups, SearchOrder(target, band), Fill(used, [], need), f)
    ensures NoSoonerLeft(groups, used, f.taken, target, band)
  {
    SearchOrderIsNearestFirst(target, band);
    hide SearchOrder, Rank, Before;
    forall t, g | 0 <= t < |f.taken| && g in groups && InScale(g.level)
                  && Before(target, band, g.level, f.taken[t].group.level)
      ensures g.key in used + KeysOf(f.taken[..t])
    {
      SoonerRanksLower(target, band, g.level, f.taken[t].group.level);
    }
  }

  lemma EmptyFill(groups: seq<Group>, most: nat, used: set<Id>, need: nat)
    ensures Filling(groups, most, used, Fill(used, [], need))
  {
  }

  lemma BandFills(groups: seq<Group>, most: nat, used: set<Id>, lengths: seq<nat>, band: Band, start: Level,
      counts: Counts, shuffle: Shuffler)
    requires GoodBank(groups, most)
    ensures var f := FillBand(used, lengths, band, groups, start, counts, shuffle).0;
            && f.used == used + KeysOf(f.taken)
            && Bag(groups, used) + ItemBag(f.taken) <= Bag(groups, f.used)
            && Size(groups, f.used) <= Size(groups, used) + Count(f.taken)
               + (if f.need == 0 && most > 0 then most - 1 else 0)
            && Count(f.taken) + f.need == Need(counts, band)
            && (f.need == 0 ==> BandOk(groups, used, f.taken, Target(start, band), band, Need(counts, band)))
            && (f.need > 0 ==> forall g | g in groups && InScale(g.level) :: g.key in f.used)
  {
    var target := Target(start, band);
    var order := SearchOrder(target, band);
    var empty := Fill(used, [], Need(counts, band));
    var f := FillBand(used, lengths, band, groups, start, counts, shuffle).0;
    EmptyFill(groups, most, used, empty.need);
    FillLevelsKeeps(groups, most, used, empty, lengths, order, shuffle);
    assert Filling(groups, most, used, f) && NearestFirst(groups, order, empty, f);
    assert f.need > 0 ==> forall g | g in groups && g.level in order :: g.key in f.used;
    NearestFirstMeansNoSoonerLeft(groups, used, empty.need, target, band, f);
    SearchOrderIsNearestFirst(target, band);
    hide NoSoonerLeft, NearestFirst, SearchOrder, FillLevels, Target, Need, Bag, Size, WellTaken, GoodBank, ItemBag;
  }

  // ---- the whole bank --------------------------------------------------------------------

  function MemberBag(cands: seq<Candidate>, keys: seq<Id>): multiset<Candidate> {
    if keys == [] then multiset{}
    else MemberBag(cands, keys[..|keys| - 1]) + multiset(Members(cands, keys[|keys| - 1]))
  }

  /** A group holds each of its candidates as often as the bank does. */
  lemma {:induction false} MembersMultiplicity(cands: seq<Candidate>, k: Id, x: Candidate)
    ensures multiset(Members(cands, k))[x] == if KeyOf(x) == k then multiset(cands)[x] else 0
  {
    if cands != [] {
      var n := |cands| - 1;
      MembersMultiplicity(cands[..n], k, x);
      assert cands == cands[..n] + [cands[n]];
    }
  }

  lemma {:induction false} MemberBagMultiplicity(cands: seq<Candidate>, keys: seq<Id>, x: Candidate)
    requires forall i, j | 0 <= i < j < |keys| :: keys[i] != keys[j]
    ensures MemberBag(cands, keys)[x] == if KeyOf(x) in keys then multiset(cands)[x] else 0
  {
    if keys != [] {
      hide Members, KeyOf;
      var n := |keys| - 1;
      MemberBagMultiplicity(cands, keys[..n], x);
      MembersMultiplicity(cands, keys[n], x);
      assert keys == keys[..n] + [keys[n]];
    }
  }

  /** Grouping splits the bank: every candidate is in exactly one group. */
  lemma GroupingPartitions(cands: seq<Candidate>, keys: seq<Id>)
    requires forall i, j | 0 <= i < j < |keys| :: keys[i] != keys[j]
    requires forall c | c in cands :: KeyOf(c) in keys
    ensures MemberBag(cands, keys) == multiset(cands)
  {
    forall x ensures MemberBag(cands, keys)[x] == multiset(cands)[x] {
      MemberBagMultiplicity(cands, keys, x);
      assert x in multiset(cands) ==> x in cands;
    }
  }

  lemma LastGroup(cands: seq<Candidate>, keys: seq<Id>)
    requires keys != [] && forall k | k in keys :: exists c | c in cands :: KeyOf(c) == k
    ensures var n, groups := |keys| - 1, GroupsOf(cands, keys);
            && (forall k | k in keys[..n] :: k in keys)
            && groups[..n] == GroupsOf(cands, keys[..n])
            && groups[n].key == keys[n] && multiset(groups[n].items) == multiset(Members(cands, keys[n]))
  {
    assert keys[|keys| - 1] in keys;
    SortSorts(Members(cands, keys[|keys| - 1]), Position);
    hide KeyOf, Members, StableSort;
  }

  lemma {:induction false} BagOfGroups(cands: seq<Candidate>, keys: seq<Id>, all: set<Id>)
    requires forall k | k in keys :: k in all && exists c | c in cands :: KeyOf(c) == k
    ensures Bag(GroupsOf(cands, keys), all) == MemberBag(cands, keys)
  {
    hide KeyOf, Members, GroupsOf;
    if keys != [] {
      var n := |keys| - 1;
      assert keys[n] in keys && forall k | k in keys[..n] :: k in keys;
      BagOfGroups(cands, keys[..n], all);
      LastGroup(cands, keys);
    }
  }

  lemma {:induction false} SizeOfBag(groups: seq<Group>, used: set<Id>)
    ensures |Bag(groups, used)| == Size(groups, used)
  {
    if groups != [] { SizeOfBag(groups[..|groups| - 1], used); }
  }

  lemma {:induction false} UsingMore(groups: seq<Group>, used: set<Id>, more: set<Id>)
    requires forall g | g in groups && g.key in used :: g.key in more
    ensures Size(groups, used) <= Size(groups, more) && Bag(groups, used) <= Bag(groups, more)
  {
    if groups != [] {
      var n := |groups| - 1;
      assert groups == groups[..n] + [groups[n]];
      UsingMore(groups[..n], used, more);
    }
  }

  lemma StrictlySorted(s: seq<Id>)
    requires SortedBy(s, Identity) && NoRepeats(s)
    ensures forall i, j | 0 <= i < j < |s| :: s[i] < s[j]
  {
    assert forall i, j | 0 <= i < j < |s| :: Identity(s[i]) <= Identity(s[j]);
  }

  lemma DistinctSort(keys: seq<Id>)
    requires NoRepeats(keys)
    ensures var s := StableSort(keys, Identity); forall i, j | 0 <= i < j < |s| :: s[i] < s[j]
  {
    hide *;
    SortSorts(keys, Identity);
    RearrangedNoRepeats(keys, StableSort(keys, Identity));
    StrictlySorted(StableSort(keys, Identity));
  }

  function AllKeys(cands: seq<Candidate>): set<Id> { set c | c in cands :: KeyOf(c) }

  lemma SortedKeysCover(cands: seq<Candidate>)
    ensures var keys := SortedKeys(cands);
            && (forall i, j | 0 <= i < j < |keys| :: keys[i] < keys[j])
            && (forall k :: k in keys <==> k in AllKeys(cands))
  {
    DistinctSort(FirstSeen(cands));
    SortSorts(FirstSeen(cands), Identity);
    SameElements(SortedKeys(cands), FirstSeen(cands));
  }

  lemma GroupsAreOfCandidates(cands: seq<Candidate>, g: Group)
    requires g in Groups(cands)
    ensures exists c | c in cands :: g == GroupOf(cands, KeyOf(c))
  {
    var keys := SortedKeys(cands);
    SortedKeysCover(cands);
    var i :| 0 <= i < |Groups(cands)| && Groups(cands)[i] == g;
    assert keys[i] in keys;
    var c :| c in cands && KeyOf(c) == keys[i];
  }

  /** The groups of a bank hold exactly its candidates. */
  lemma GroupsHoldTheBank(cands: seq<Candidate>)
    ensures DistinctKeys(Groups(cands))
    ensures Bag(Groups(cands), AllKeys(cands)) == multiset(cands) && Size(Groups(cands), AllKeys(cands)) == |cands|
  {
    var keys := SortedKeys(cands);
    SortedKeysCover(cands);
    forall c | c in cands ensures KeyOf(c) in keys { assert KeyOf(c) in AllKeys(cands); }
    hide SortedKeys, AllKeys, GroupOf;
    GroupingPartitions(cands, keys);
    BagOfGroups(cands, keys, AllKeys(cands));
    SizeOfBag(Groups(cands), AllKeys(cands));
    assert |multiset(cands)| == |cands|;
  }

  // ---- the chosen form -------------------------------------------------------------------

  function AtLeast(n: int): nat { if n > 0 then n else 0 }

  function Total(counts: Counts): nat {
    AtLeast(counts.foundation) + AtLeast(counts.core) + AtLeast(counts.challenge)
  }

  /** No stimulus has more than `most` items. */
  ghost predicate StimuliUpTo(cands: seq<Candidate>, most: nat) {
    forall c | c in cands :: |Members(cands, KeyOf(c))| <= most
  }

  lemma BankIsGood(cands: seq<Candidate>, most: nat)
    requires StimuliUpTo(cands, most)
    ensures GoodBank(Groups(cands), most)
  {
    GroupsHoldTheBank(cands);
    forall g | g in Groups(cands) ensures 0 < |g.items| <= most {
      GroupsAreOfCandidates(cands, g);
      var c :| c in cands && g == GroupOf(cands, KeyOf(c));
      MembersShareTheKey(cands, KeyOf(c));
      assert c in Members(cands, KeyOf(c));
    }
  }

  function OneBelow(level: Level): Level { if level == 1 then 1 else level - 1 }

  function OneAbove(level: Level): Level { if level == 6 then 6 else level + 1 }

  /** What a form promises: each band is exact, whole and nearest-first given what the bands before it
      used - the core band to the learner's own level, the foundation band to the level below and the
      challenge band to the one above, as far as there is one - and together they take no candidate of the
      bank more than once. */
  ghost predicate FormOk(cands: seq<Candidate>, start: Level, counts: Counts, form: Form) {
    var groups := Groups(cands);
    var afterCore := KeysOf(form.core);
    var afterFoundation := afterCore + KeysOf(form.foundation);
    && BandOk(groups, {}, form.core, start, Core, AtLeast(counts.core))
    && BandOk(groups, afterCore, form.foundation, OneBelow(start), Foundation, AtLeast(counts.foundation))
    && BandOk(groups, afterFoundation, form.challenge, OneAbove(start), Challenge, AtLeast(counts.challenge))
    && ItemBag(form.core) + ItemBag(form.foundation) + ItemBag(form.challenge) <= multiset(cands)
  }

  lemma TargetsAndNeeds(start: Level, counts: Counts)
    ensures Target(start, Core) == start && Target(start, Foundation) == OneBelow(start)
            && Target(start, Challenge) == OneAbove(start)
    ensures && Need(counts, Core) == AtLeast(counts.core)
            && Need(counts, Foundation) == AtLeast(counts.foundation)
            && Need(counts, Challenge) == AtLeast(counts.challenge)
  {
  }

  function LargestStimulus(cands: seq<Candidate>, keys: seq<Id>): (most: nat)
    ensures forall k | k in keys :: |Members(cands, k)| <= most
  {
    if keys == [] then 0
    else
      var n := |keys| - 1;
      assert keys == keys[..n] + [keys[n]];
      var r := LargestStimulus(cands, keys[..n]);
      var m := |Members(cands, keys[n])|;
      if m > r then m else r
  }

  lemma {:induction false} NothingUsed(groups: seq<Group>)
    ensures Size(groups, {}) == 0 && Bag(groups, {}) == multiset{}
  {
    if groups != [] { NothingUsed(groups[..|groups| - 1]); }
  }

  lemma WithinTheBank(cands: seq<Candidate>, used: set<Id>)
    ensures Size(Groups(cands), used) <= |cands| && Bag(Groups(cands), used) <= multiset(cands)
    ensures (forall g | g in Groups(cands) :: g.key in used) ==> Size(Groups(cands), used) == |cands|
  {
    GroupsHoldTheBank(cands);
    var groups := Groups(cands);
    forall g | g in groups ensures g.key in AllKeys(cands) {
      GroupsAreOfCandidates(cands, g);
      var c :| c in cands && g == GroupOf(cands, KeyOf(c));
    }
    UsingMore(groups, used, AllKeys(cands));
    if forall g | g in groups :: g.key in used { UsingMore(groups, AllKeys(cands), used); }
  }

  lemma SomeLargest(cands: seq<Candidate>)
    ensures GoodBank(Groups(cands), LargestStimulus(cands, FirstSeen(cands)))
  {
    BankIsGood(cands, LargestStimulus(cands, FirstSeen(cands)));
  }

  lemma ThreeBands(all: multiset<Candidate>, a: multiset<Candidate>, b: multiset<Candidate>, c: multiset<Candidate>,
                   ab: multiset<Candidate>, bc: multiset<Candidate>, cd: multiset<Candidate>)
    requires a <= ab && ab + b <= bc && bc + c <= cd && cd <= all
    ensures a + b + c <= all
  {
  }

  /** Every form that is chosen keeps its promises. */
  lemma EveryFormIsSound(cands: seq<Candidate>, start: Level, counts: Counts, shuffle: Shuffler)
    ensures var form := SelectForm(Groups(cands), start, counts, shuffle);
            form.Some? ==> FormOk(cands, start, counts, form.value)
  {
    TargetsAndNeeds(start, counts);
    hide BandOk, FillBand, Groups, Bag, Size, ItemBag, Count, GoodBank, Need, Target, KeysOf, LargestStimulus;
    hide OneBelow, OneAbove, AtLeast;
    var groups := Groups(cands);
    var most := LargestStimulus(cands, FirstSeen(cands));
    SomeLargest(cands);
    NothingUsed(groups);
    var (core, l1) := FillBand({}, [], Core, groups, start, counts, shuffle);
    BandFills(groups, most, {}, [], Core, start, counts, shuffle);
    var (foundation, l2) := FillBand(core.used, l1, Foundation, groups, start, counts, shuffle);
    BandFills(groups, most, core.used, l1, Foundation, start, counts, shuffle);
    var (challenge, _) := FillBand(foundation.used, l2, Challenge, groups, start, counts, shuffle);
    BandFills(groups, most, foundation.used, l2, Challenge, start, counts, shuffle);
    WithinTheBank(cands, challenge.used);
    assert core.used == KeysOf(core.taken);
    ThreeBands(multiset(cands), ItemBag(core.taken), ItemBag(foundation.taken), ItemBag(challenge.taken),
               Bag(groups, core.used), Bag(groups, foundation.used), Bag(groups, challenge.used));
  }

  /** The last band a selection worked on. */
  function LastFill(groups: seq<Group>, start: Level, counts: Counts, shuffle: Shuffler): Fill {
    var (core, l1) := FillBand({}, [], Core, groups, start, counts, shuffle);
    if core.need > 0 then core
    else
      var (foundation, l2) := FillBand(core.used, l1, Foundation, groups, start, counts, shuffle);
      if foundation.need > 0 then foundation
      else FillBand(foundation.used, l2, Challenge, groups, start, counts, shuffle).0
  }

  /** A selection fails only after using every group of the scale; what it had not given out by
      then is less than two cut-short stimuli can hold. */
  lemma FailureUsesEverything(cands: seq<Candidate>, most: nat, start: Level, counts: Counts, shuffle: Shuffler)
    requires most > 0 && StimuliUpTo(cands, most)
    ensures var f := LastFill(Groups(cands), start, counts, shuffle);
            && (SelectForm(Groups(cands), start, counts, shuffle).None? <==> f.need > 0)
            && (f.need > 0 ==> forall g | g in Groups(cands) && InScale(g.level) :: g.key in f.used)
            && (f.need > 0 ==> Size(Groups(cands), f.used) < Total(counts) + 2 * (most - 1))
  {
    TargetsAndNeeds(start, counts);
    BankIsGood(cands, most);
    NothingUsed(Groups(cands));
    var groups := Groups(cands);
    var (core, l1) := FillBand({}, [], Core, groups, start, counts, shuffle);
    BandFills(groups, most, {}, [], Core, start, counts, shuffle);
    var (foundation, l2) := FillBand(core.used, l1, Foundation, groups, start, counts, shuffle);
    BandFills(groups, most, core.used, l1, Foundation, start, counts, shuffle);
    var (challenge, _) := FillBand(foundation.used, l2, Challenge, groups, start, counts, shuffle);
    BandFills(groups, most, foundation.used, l2, Challenge, start, counts, shuffle);
    hide BandOk, FillBand, Groups, Bag, Size, ItemBag, Count, GoodBank, Need, Target, StimuliUpTo;
  }

  /** With two cut-short stimuli to spare, every shuffle finds a form; with fewer candidates than
      items needed, none does. */
  lemma SlackSuffices(cands: seq<Candidate>, most: nat, start: Level, counts: Counts, shuffle: Shuffler)
    requires most > 0 && StimuliUpTo(cands, most)
    requires forall c | c in cands :: InScale(c.level)
    ensures |cands| >= Total(counts) + 2 * (most - 1) ==> Select(cands, start, counts, shuffle).Some?
    ensures |cands| < Total(counts) ==> Select(cands, start, counts, shuffle).None?
  {
    var f := LastFill(Groups(cands), start, counts, shuffle);
    FailureUsesEverything(cands, most, start, counts, shuffle);
    GroupsHoldTheBank(cands);
    forall g | g in Groups(cands) ensures InScale(g.level) {
      GroupsAreOfCandidates(cands, g);
      var c :| c in cands && g == GroupOf(cands, KeyOf(c));
      MembersShareTheKey(cands, KeyOf(c));
      assert Members(cands, KeyOf(c))[0] in Members(cands, KeyOf(c));
    }
    WithinTheBank(cands, f.used);
    if SelectForm(Groups(cands), start, counts, shuffle).Some? {
      FormNeedsItems(cands, start, counts, shuffle);
    }
  }

  lemma {:induction false} BagCount(taken: seq<Taken>)
    requires forall t | t in taken :: t.count <= |t.group.items|
    ensures |ItemBag(taken)| == Count(taken)
  {
    if taken != [] {
      var n := |taken| - 1;
      BagCount(taken[..n]);
      assert taken[n] in taken;
    }
  }

  lemma FormNeedsItems(cands: seq<Candidate>, start: Level, counts: Counts, shuffle: Shuffler)
    requires SelectForm(Groups(cands), start, counts, shuffle).Some?
    ensures Total(counts) <= |cands|
  {
    EveryFormIsSound(cands, start, counts, shuffle);
    var form := SelectForm(Groups(cands), start, counts, shuffle).value;
    BagCount(form.core);
    BagCount(form.foundation);
    BagCount(form.challenge);
    var b := ItemBag(form.core) + ItemBag(form.foundation) + ItemBag(form.challenge);
    SmallerBag(b, multiset(cands));
    assert |multiset(cands)| == |cands|;
  }

  lemma SmallerBag(a: multiset<Candidate>, b: multiset<Candidate>)
    requires a <= b
    ensures |a| <= |b|
  {
    assert b == a + (b - a);
  }
}
