/** SelectionSlack: banks that fall one candidate short of the slack and have no form.

    About SelectItems in apps/api/internal/assessment/selection.go. */
module SelectionSlack {
  import opened Cefr
  import opened Options
  import opened Selection
  import opened SelectionProofs

  lemma TakesSomething(groups: seq<Group>, before: set<Id>, taken: seq<Taken>, target: Level, band: Band, need: nat)
    returns (k: Id)
    requires BandOk(groups, before, taken, target, band, need) && need > 0
    ensures k in KeysOf(taken) && k !in before && exists g | g in groups :: g.key == k
  {
    assert taken != [];
    assert taken[0] in taken && taken[0].group in groups;
    k := taken[0].group.key;
  }

  lemma KeyIsOfTheBank(cands: seq<Candidate>, k: Id)
    requires exists g | g in Groups(cands) :: g.key == k
    ensures k in AllKeys(cands)
  {
    var g :| g in Groups(cands) && g.key == k;
    GroupsAreOfCandidates(cands, g);
    var c :| c in cands && g == GroupOf(cands, KeyOf(c));
  }

  lemma ThreeKeys(cands: seq<Candidate>, start: Level, counts: Counts, form: Form) returns (x: Id, y: Id, z: Id)
    requires FormOk(cands, start, counts, form)
    requires counts.foundation > 0 && counts.core > 0 && counts.challenge > 0
    ensures x != y && x != z && y != z && x in AllKeys(cands) && y in AllKeys(cands) && z in AllKeys(cands)
  {
    hide Groups, BandOk, AllKeys, KeysOf;
    var groups := Groups(cands);
    x := TakesSomething(groups, {}, form.core, start, Core, counts.core);
    y := TakesSomething(groups, KeysOf(form.core), form.foundation,
                        OneBelow(start), Foundation, counts.foundation);
    z := TakesSomething(groups, KeysOf(form.core) + KeysOf(form.foundation), form.challenge,
                        OneAbove(start), Challenge, counts.challenge);
    KeyIsOfTheBank(cands, x);
    KeyIsOfTheBank(cands, y);
    KeyIsOfTheBank(cands, z);
  }

  /** Each stimulus goes to one band: two stimuli, however large, cannot serve three bands. */
  lemma TwoStimuliFail(cands: seq<Candidate>, start: Level, counts: Counts, shuffle: Shuffler, a: Id, b: Id)
    requires AllKeys(cands) <= {a, b}
    requires counts.foundation > 0 && counts.core > 0 && counts.challenge > 0
    ensures Select(cands, start, counts, shuffle).None?
  {
    hide SelectForm, Groups, AllKeys, FormOk;
    if SelectForm(Groups(cands), start, counts, shuffle).Some? {
      EveryFormIsSound(cands, start, counts, shuffle);
      var x, y, z := ThreeKeys(cands, start, counts, SelectForm(Groups(cands), start, counts, shuffle).value);
      assert false;
    }
  }

  /** Two stimuli of `most` items of one level. */
  function TwoStimuli(most: nat, level: Level): (cands: seq<Candidate>)
    ensures |cands| == 2 * most
    ensures forall i | 0 <= i < 2 * most ::
              cands[i] == Candidate(i, 1, level, Some(if i < most then 1 else 2), i)
  {
    seq(2 * most, i requires 0 <= i < 2 * most => Candidate(i, 1, level, Some(if i < most then 1 else 2), i))
  }

  lemma {:induction false} MembersInPart(cands: seq<Candidate>, k: Id, from: nat, to: nat)
    requires from <= to <= |cands|
    requires forall i | 0 <= i < |cands| && KeyOf(cands[i]) == k :: from <= i < to
    ensures |Members(cands, k)| <= to - from
  {
    if cands != [] {
      var n := |cands| - 1;
      if to <= n {
        MembersInPart(cands[..n], k, from, to);
      } else if from < to {
        MembersInPart(cands[..n], k, from, to - 1);
      } else {
        MembersInPart(cands[..n], k, n, n);
      }
    }
  }

  lemma StimuliAreEven(most: nat, level: Level)
    ensures StimuliUpTo(TwoStimuli(most, level), most) && AllKeys(TwoStimuli(most, level)) <= {1, 2}
  {
    var cands := TwoStimuli(most, level);
    MembersInPart(cands, 1, 0, most);
    MembersInPart(cands, 2, most, 2 * most);
    hide TwoStimuli, Members;
    forall c | c in cands ensures KeyOf(c) == 1 || KeyOf(c) == 2 {}
  }

  /** The slack is needed, whatever the largest stimulus: with one candidate less than the total plus twice
      that stimulus less one there is a bank for which every shuffle fails. */
  lemma SlackIsNeeded(most: nat, level: Level, start: Level, shuffle: Shuffler)
    requires most > 0
    ensures var cands, counts := TwoStimuli(most, level), Counts(1, 1, 1);
            && StimuliUpTo(cands, most) && (forall c | c in cands :: InScale(c.level))
            && |cands| == Total(counts) + 2 * (most - 1) - 1
            && Select(cands, start, counts, shuffle).None?
  {
    hide Select;
    var cands := TwoStimuli(most, level);
    StimuliAreEven(most, level);
    TwoStimuliFail(cands, start, Counts(1, 1, 1), shuffle, 1, 2);
    hide StimuliUpTo, AllKeys;
  }
}
