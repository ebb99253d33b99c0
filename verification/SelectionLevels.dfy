/** SelectionLevels: the levels a form's items have when the bank has enough of them, and what is handed out.

    About selectItems in apps/api/internal/assessment/selection.go. */
module SelectionLevels {
  import opened Cefr
  import opened Options
  import opened Sorting
  import opened Selection
  import opened SelectionProofs

  // ---- what the groups are ---------------------------------------------------------------

  /** Items of one stimulus go together under its id, and an item without one goes under its own. */
  predicate Under(c: Candidate, k: Id) { if c.stimulus.Some? then c.stimulus.value == k else c.id == k }

  // Place i has the bank's first candidate of a group.
  predicate FirstOfGroup(cands: seq<Candidate>, k: Id, i: nat) {
    i < |cands| && Under(cands[i], k) && forall j | 0 <= j < i :: !Under(cands[j], k)
  }

  lemma {:induction false} FirstMember(cands: seq<Candidate>, k: Id) returns (i: nat)
    requires Members(cands, k) != []
    ensures FirstOfGroup(cands, k, i) && Members(cands, k)[0] == cands[i]
  {
    var n := |cands| - 1;
    if Members(cands[..n], k) != [] {
      i := FirstMember(cands[..n], k);
      assert forall j | 0 <= j < i :: cands[..n][j] == cands[j];
    } else {
      i := n;
      MembersShareTheKey(cands[..n], k);
      forall j | 0 <= j < n ensures !Under(cands[j], k) { assert cands[..n][j] in cands[..n]; }
    }
  }

  /** A bank's groups: one for each id that items go under, in the order of the ids; each holds its items sorted by
      their position, and has the level of the first of them in the bank. */
  lemma GroupsAre(cands: seq<Candidate>, n: nat) returns (i: nat)
    requires n < |Groups(cands)|
    ensures var g := Groups(cands)[n];
            && (forall c :: c in g.items <==> c in cands && Under(c, g.key))
            && (forall a, b | 0 <= a < b < |g.items| :: g.items[a].position <= g.items[b].position)
            && FirstOfGroup(cands, g.key, i) && g.level == cands[i].level
            && (forall m | 0 <= m < n :: Groups(cands)[m].key < g.key)
  {
    var keys := SortedKeys(cands);
    SortedKeysCover(cands);
    assert keys[n] in keys;
    var k := keys[n];
    var members := Members(cands, k);
    MembersShareTheKey(cands, k);
    SortSorts(members, Position);
    SameElements(StableSort(members, Position), members);
    hide StableSort, SortedKeys;
    i := FirstMember(cands, k);
    forall a, b | 0 <= a < b < |members|
      ensures StableSort(members, Position)[a].position <= StableSort(members, Position)[b].position
    {
      assert Position(StableSort(members, Position)[a]) <= Position(StableSort(members, Position)[b]);
    }
  }

  /** Every candidate is in the group of the id it goes under. */
  lemma EveryoneIsGrouped(cands: seq<Candidate>, c: Candidate)
    requires c in cands
    ensures exists g | g in Groups(cands) :: Under(c, g.key) && c in g.items
  {
    var keys := SortedKeys(cands);
    SortedKeysCover(cands);
    assert KeyOf(c) in AllKeys(cands);
    var n :| 0 <= n < |keys| && keys[n] == KeyOf(c);
    hide SortedKeys;
    var i := GroupsAre(cands, n);
    assert Groups(cands)[n] in Groups(cands);
  }

  // ---- levels ----------------------------------------------------------------------------

  /** Items of the unused groups at a level. */
  function Left(groups: seq<Group>, used: set<Id>, level: Level): nat {
    if groups == [] then 0
    else
      var n := |groups| - 1;
      var g := groups[n];
      Left(groups[..n], used, level) + if g.level == level && g.key !in used then |g.items| else 0
  }

  lemma {:induction false} LeftIsUsed(groups: seq<Group>, used: set<Id>, used': set<Id>, level: Level)
    requires used <= used'
    requires forall g | g in groups && g.level == level && g.key !in used :: g.key in used'
    ensures Size(groups, used) + Left(groups, used, level) <= Size(groups, used')
  {
    if groups != [] {
      var n := |groups| - 1;
      assert groups[n] in groups && forall g | g in groups[..n] :: g in groups;
      LeftIsUsed(groups[..n], used, used', level);
    }
  }

  lemma {:induction false} TakenUses(groups: seq<Group>, before: set<Id>, taken: seq<Taken>)
    requires DistinctKeys(groups)
    requires forall i | 0 <= i < |taken| :: taken[i].group in groups && taken[i].group.key !in before
    requires forall i, j | 0 <= i < j < |taken| :: taken[i].group.key != taken[j].group.key
    ensures Size(groups, before + KeysOf(taken)) == Size(groups, before) + Weight(taken)
  {
    if taken == [] {
      assert before + KeysOf(taken) == before;
    } else {
      var n := |taken| - 1;
      var rest, t := taken[..n], taken[n];
      TakenUses(groups, before, rest);
      KeysOfAppend(rest, t);
      assert taken == rest + [t];
      assert t.group.key !in KeysOf(rest) by {
        forall x | x in rest ensures x.group.key != t.group.key {
          var i :| 0 <= i < n && rest[i] == x;
          assert taken[i] == x;
        }
      }
      UseOneMore(groups, before + KeysOf(rest), t.group);
      assert before + KeysOf(taken) == before + KeysOf(rest) + {t.group.key};
      hide Size, KeysOf;
    }
  }

  lemma {:induction false} FullTakes(taken: seq<Taken>, t: nat)
    requires t <= |taken|
    requires forall i | 0 <= i < t :: taken[i].count == |taken[i].group.items|
    ensures Count(taken[..t]) == Weight(taken[..t])
  {
    if t > 0 {
      FullTakes(taken, t - 1);
      assert taken[..t][..t - 1] == taken[..t - 1];
    }
  }

  lemma {:induction false} CountGrows(taken: seq<Taken>, t: nat)
    requires t < |taken|
    ensures Count(taken[..t]) + taken[t].count <= Count(taken)
  {
    var n := |taken| - 1;
    if t < n {
      CountGrows(taken[..n], t);
      assert taken[..n][..t] == taken[..t];
    }
  }

  /** A band that finds enough at its level takes nothing of any other. */
  lemma OneLevelOnly(groups: seq<Group>, before: set<Id>, taken: seq<Taken>, level: Level, band: Band, need: nat)
    requires DistinctKeys(groups) && BandOk(groups, before, taken, level, band, need)
    requires Left(groups, before, level) >= need
    ensures forall t | 0 <= t < |taken| :: taken[t].group.level == level
  {
    if t :| 0 <= t < |taken| && taken[t].group.level != level {
      var first := taken[..t];
      forall g | g in groups && g.level == level && g.key !in before ensures g.key in before + KeysOf(first) {
        assert Before(level, band, g.level, taken[t].group.level);
      }
      TakenUses(groups, before, first);
      LeftIsUsed(groups, before, before + KeysOf(first), level);
      FullTakes(taken, t);
      CountGrows(taken, t);
      assert false;
    }
  }

  lemma OneGroupPerKey(groups: seq<Group>, g: Group, h: Group)
    requires DistinctKeys(groups) && g in groups && h in groups && g.key == h.key
    ensures g == h
  {
  }

  lemma LeftElsewhere(groups: seq<Group>, used: set<Id>, more: seq<Taken>, level: Level)
    requires DistinctKeys(groups)
    requires forall i | 0 <= i < |more| :: more[i].group in groups && more[i].group.level != level
    ensures Left(groups, used + KeysOf(more), level) == Left(groups, used, level)
  {
    forall g | g in groups && g.level == level ensures g.key !in KeysOf(more) {
      forall t | t in more ensures t.group.key != g.key {
        var i :| 0 <= i < |more| && more[i] == t;
        if t.group.key == g.key { OneGroupPerKey(groups, g, t.group); }
      }
    }
    SameLeft(groups, used, used + KeysOf(more), level);
  }

  lemma {:induction false} SameLeft(groups: seq<Group>, used: set<Id>, used': set<Id>, level: Level)
    requires forall g | g in groups && g.level == level :: g.key in used <==> g.key in used'
    ensures Left(groups, used, level) == Left(groups, used', level)
  {
    if groups != [] {
      var n := |groups| - 1;
      assert groups[n] in groups && forall g | g in groups[..n] :: g in groups;
      SameLeft(groups[..n], used, used', level);
    }
  }

  /** With enough at the learner's level, at the one below and at the one above, a form takes its core from
      the first, its foundation from the second and its challenge from the third, whatever the shuffle. */
  lemma EnoughOfEachLevel(cands: seq<Candidate>, start: Level, counts: Counts, form: Form)
    requires FormOk(cands, start, counts, form) && 1 < start < 6
    requires && Left(Groups(cands), {}, start) >= AtLeast(counts.core)
             && Left(Groups(cands), {}, start - 1) >= AtLeast(counts.foundation)
             && Left(Groups(cands), {}, start + 1) >= AtLeast(counts.challenge)
    ensures forall t | t in form.core :: t.group.level == start
    ensures forall t | t in form.foundation :: t.group.level == start - 1
    ensures forall t | t in form.challenge :: t.group.level == start + 1
  {
    var groups := Groups(cands);
    GroupsHoldTheBank(cands);
    hide Groups, Left, Bag, Size;
    OneLevelOnly(groups, {}, form.core, start, Core, AtLeast(counts.core));
    LeftElsewhere(groups, {}, form.core, start - 1);
    assert {} + KeysOf(form.core) == KeysOf(form.core);
    OneLevelOnly(groups, KeysOf(form.core), form.foundation, start - 1, Foundation, AtLeast(counts.foundation));
    LeftElsewhere(groups, {}, form.core, start + 1);
    LeftElsewhere(groups, KeysOf(form.core), form.foundation, start + 1);
    OneLevelOnly(groups, KeysOf(form.core) + KeysOf(form.foundation), form.challenge, start + 1, Challenge,
        AtLeast(counts.challenge));
  }

  // ---- what is handed out ----------------------------------------------------------------

  /** The picks of a band: its groups' items in the order they were taken, each group from its first. */
  predicate PicksOf(picks: seq<Pick>, taken: seq<Taken>, band: Band)
    decreases |taken|
  {
    if taken == [] then picks == []
    else
      var t := taken[|taken| - 1];
      && t.count <= |t.group.items| && t.count <= |picks|
      && (forall i | 0 <= i < t.count :: picks[|picks| - t.count + i] == Pick(t.group.items[i], band))
      && PicksOf(picks[..|picks| - t.count], taken[..|taken| - 1], band)
  }

  lemma {:induction false} ItemsArePicks(taken: seq<Taken>, band: Band)
    requires forall t | t in taken :: t.count <= |t.group.items|
    ensures PicksOf(ItemsOf(taken, band), taken, band) && |ItemsOf(taken, band)| == Count(taken)
    ensures forall p | p in ItemsOf(taken, band) ::
              p.band == band && exists t :: t in taken && p.item in t.group.items
  {
    if taken != [] {
      var n := |taken| - 1;
      var t := taken[n];
      assert t in taken && forall x | x in taken[..n] :: x in taken;
      ItemsArePicks(taken[..n], band);
      var before, picks := ItemsOf(taken[..n], band), ItemsOf(taken, band);
      assert picks[..|picks| - t.count] == before;
      forall p | p in picks ensures p.band == band && exists x :: x in taken && p.item in x.group.items {
        if p in before {
          var x :| x in taken[..n] && p.item in x.group.items;
        } else {
          assert p in Prefix(t, band);
          assert p.item in t.group.items;
        }
      }
    }
  }

  lemma ThreeParts(a: seq<Pick>, b: seq<Pick>, c: seq<Pick>)
    ensures var all := a + b + c;
            all[..|a|] == a && all[|a|..|a| + |b|] == b && all[|a| + |b|..] == c
  {
  }

  lemma BandIsPicked(groups: seq<Group>, before: set<Id>, taken: seq<Taken>, level: Level, band: Band, need: nat)
    requires BandOk(groups, before, taken, level, band, need)
    ensures PicksOf(ItemsOf(taken, band), taken, band) && |ItemsOf(taken, band)| == need
  {
    hide NoSoonerLeft, PicksOf, ItemsOf;
    WellTakenCounts(taken);
    ItemsArePicks(taken, band);
  }

  lemma SelectedForm(cands: seq<Candidate>, start: Level, counts: Counts, shuffle: Shuffler) returns (form: Form)
    requires Select(cands, start, counts, shuffle).Some?
    ensures SelectForm(Groups(cands), start, counts, shuffle) == Some(form) && FormOk(cands, start, counts, form)
    ensures Select(cands, start, counts, shuffle).value
            == ItemsOf(form.foundation, Foundation) + ItemsOf(form.core, Core) + ItemsOf(form.challenge, Challenge)
  {
    hide Groups, SelectForm, FormOk, ItemsOf;
    form := SelectForm(Groups(cands), start, counts, shuffle).value;
    EveryFormIsSound(cands, start, counts, shuffle);
  }

  /** What is handed out: the foundation band, then the core, then the challenge, each as many items as were
      asked for, in the order they were taken. */
  lemma HandedOut(cands: seq<Candidate>, start: Level, counts: Counts, shuffle: Shuffler) returns (form: Form)
    requires Select(cands, start, counts, shuffle).Some?
    ensures FormOk(cands, start, counts, form)
    ensures var picks := Select(cands, start, counts, shuffle).value;
            var f, c, h := AtLeast(counts.foundation), AtLeast(counts.core), AtLeast(counts.challenge);
            && |picks| == f + c + h
            && PicksOf(picks[..f], form.foundation, Foundation)
            && PicksOf(picks[f..f + c], form.core, Core)
            && PicksOf(picks[f + c..], form.challenge, Challenge)
  {
    hide Groups, Select, BandOk, PicksOf, ItemsOf, AtLeast, OneBelow, OneAbove, ItemBag, KeysOf;
    form := SelectedForm(cands, start, counts, shuffle);
    var groups, afterCore := Groups(cands), KeysOf(form.core);
    BandIsPicked(groups, {}, form.core, start, Core, AtLeast(counts.core));
    BandIsPicked(groups, afterCore, form.foundation, OneBelow(start), Foundation, AtLeast(counts.foundation));
    BandIsPicked(groups, afterCore + KeysOf(form.foundation), form.challenge, OneAbove(start), Challenge,
        AtLeast(counts.challenge));
    ThreeParts(ItemsOf(form.foundation, Foundation), ItemsOf(form.core, Core), ItemsOf(form.challenge, Challenge));
  }

  lemma WellTakenCounts(taken: seq<Taken>)
    requires forall i | 0 <= i < |taken| :: taken[i].count <= |taken[i].group.items|
    ensures forall t | t in taken :: t.count <= |t.group.items|
  {
  }

  /** The items of a stimulus have one level. */
  predicate OneLevelEach(cands: seq<Candidate>) {
    forall c, d | c in cands && d in cands && Under(d, if c.stimulus.Some? then c.stimulus.value else c.id) ::
      c.level == d.level
  }

  /** So a B1 learner, say, gets A2 items first, then B1, then B2 - when the items of a stimulus have one
      level and the bank has enough of each. */
  lemma EasierFirst(cands: seq<Candidate>, start: Level, counts: Counts, shuffle: Shuffler)
    requires 1 < start < 6 && Select(cands, start, counts, shuffle).Some?
    requires OneLevelEach(cands)
    requires && Left(Groups(cands), {}, start) >= AtLeast(counts.core)
             && Left(Groups(cands), {}, start - 1) >= AtLeast(counts.foundation)
             && Left(Groups(cands), {}, start + 1) >= AtLeast(counts.challenge)
    ensures forall p | p in Select(cands, start, counts, shuffle).value ::
              p.item in cands
              && p.item.level == match p.band
                                 case Foundation => start - 1
                                 case Core => start
                                 case Challenge => start + 1
  {
    hide Groups, Select, NoSoonerLeft, ItemsOf, Left, AtLeast, OneBelow, OneAbove, ItemBag, KeysOf, Count;
    var form := SelectedForm(cands, start, counts, shuffle);
    EnoughOfEachLevel(cands, start, counts, form);
    BandItems(cands, form.foundation, Foundation, start - 1);
    BandItems(cands, form.core, Core, start);
    BandItems(cands, form.challenge, Challenge, start + 1);
  }

  lemma BandItems(cands: seq<Candidate>, taken: seq<Taken>, band: Band, level: Level)
    requires forall i | 0 <= i < |taken| :: taken[i].group in Groups(cands) && taken[i].count <= |taken[i].group.items|
    requires forall t | t in taken :: t.group.level == level
    requires OneLevelEach(cands)
    ensures forall p | p in ItemsOf(taken, band) :: p.item in cands && p.band == band && p.item.level == level
  {
    hide Groups;
    WellTakenCounts(taken);
    ItemsArePicks(taken, band);
    forall p | p in ItemsOf(taken, band) ensures p.item in cands && p.item.level == level {
      var t :| t in taken && p.item in t.group.items;
      GroupItems(cands, t.group, p.item);
    }
  }

  lemma GroupItems(cands: seq<Candidate>, g: Group, c: Candidate)
    requires g in Groups(cands) && c in g.items
    requires OneLevelEach(cands)
    ensures c in cands && c.level == g.level
  {
    var n :| 0 <= n < |Groups(cands)| && Groups(cands)[n] == g;
    hide Groups;
    var i := GroupsAre(cands, n);
    assert cands[i] in cands;
  }
}
