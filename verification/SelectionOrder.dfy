/** SelectionOrder: the chosen form does not depend on the order the item bank is read in — and
    exactly which banks this holds for. */
module SelectionOrder {
  import opened Cefr
  import opened Options
  import opened Sorting
  import opened Selection
  import opened SelectionProofs

  /** Items of one stimulus agree on its level and differ in position. */
  ghost predicate Authored(cands: seq<Candidate>) {
    && (forall c, d | c in cands && d in cands && KeyOf(c) == KeyOf(d) :: c.level == d.level)
    && (forall c, d | c in cands && d in cands && KeyOf(c) == KeyOf(d) && c.position == d.position :: c == d)
  }

  lemma {:induction false} AscendingIsUnique(a: seq<Id>, b: seq<Id>)
    requires forall i, j | 0 <= i < j < |a| :: a[i] < a[j]
    requires forall i, j | 0 <= i < j < |b| :: b[i] < b[j]
    requires forall x :: x in a <==> x in b
    ensures a == b
  {
    if a == [] {
      SomeElement(b);
    } else {
      assert a[0] in b && b[0] in a;
      assert a[0] == b[0];
      assert a == [a[0]] + a[1..] && b == [b[0]] + b[1..];
      forall x ensures x in a[1..] <==> x in b[1..] {
        assert x in a[1..] ==> x in a && x != a[0];
        assert x in b[1..] ==> x in b && x != b[0];
      }
      AscendingIsUnique(a[1..], b[1..]);
    }
  }

  lemma SameKeys(a: seq<Candidate>, b: seq<Candidate>)
    requires multiset(a) == multiset(b)
    ensures SortedKeys(a) == SortedKeys(b)
  {
    SameElements(a, b);
    SortedKeysCover(a);
    SortedKeysCover(b);
    AscendingIsUnique(SortedKeys(a), SortedKeys(b));
  }

  lemma SameGroup(a: seq<Candidate>, b: seq<Candidate>, k: Id)
    requires multiset(a) == multiset(b) && Authored(a)
    requires exists c | c in a :: KeyOf(c) == k
    requires exists c | c in b :: KeyOf(c) == k
    ensures GroupOf(a, k) == GroupOf(b, k)
  {
    var ma, mb := Members(a, k), Members(b, k);
    MembersShareTheKey(a, k);
    MembersShareTheKey(b, k);
    SameElements(a, b);
    forall x ensures multiset(ma)[x] == multiset(mb)[x] {
      MembersMultiplicity(a, k, x);
      MembersMultiplicity(b, k, x);
    }
    assert multiset(ma) == multiset(mb);
    SortSorts(ma, Position);
    SortSorts(mb, Position);
    SameElements(StableSort(ma, Position), ma);
    SortedIsUnique(StableSort(ma, Position), StableSort(mb, Position), Position);
    assert ma[0] in ma && mb[0] in mb;
  }

  lemma SameGroups(a: seq<Candidate>, b: seq<Candidate>)
    requires multiset(a) == multiset(b) && Authored(a)
    ensures Groups(a) == Groups(b)
  {
    SameKeys(a, b);
    var keys := SortedKeys(a);
    forall i | 0 <= i < |keys| ensures Groups(a)[i] == Groups(b)[i] {
      assert keys[i] in keys;
      SameGroup(a, b, keys[i]);
    }
  }

  // ---- a bank that is not authored so ----------------------------------------------------

  lemma {:induction false} MembersOfJoin(a: seq<Candidate>, b: seq<Candidate>, k: Id)
    ensures Members(a + b, k) == Members(a, k) + Members(b, k)
  {
    if b == [] {
      assert a + b == a;
    } else {
      var n := |b| - 1;
      assert (a + b)[..|a| + n] == a + b[..n];
      MembersOfJoin(a, b[..n], k);
    }
  }

  /** The first candidate of s at a position. */
  function FirstAt(s: seq<Candidate>, position: int): Option<Candidate> {
    if s == [] then None
    else
      var n := |s| - 1;
      var first := FirstAt(s[..n], position);
      if first.Some? then first else if s[n].position == position then Some(s[n]) else None
  }

  lemma {:induction false} FirstAtJoin(a: seq<Candidate>, b: seq<Candidate>, position: int)
    ensures FirstAt(a + b, position)
            == if FirstAt(a, position).Some? then FirstAt(a, position) else FirstAt(b, position)
  {
    if b == [] {
      assert a + b == a;
    } else {
      var n := |b| - 1;
      assert (a + b)[..|a| + n] == a + b[..n];
      FirstAtJoin(a, b[..n], position);
    }
  }

  lemma {:induction false} FirstAtNone(s: seq<Candidate>, position: int)
    ensures FirstAt(s, position).None? <==> forall c | c in s :: c.position != position
    ensures FirstAt(s, position).Some? ==>
              FirstAt(s, position).value in s && FirstAt(s, position).value.position == position
  {
    if s != [] {
      FirstAtNone(s[..|s| - 1], position);
      assert s == s[..|s| - 1] + [s[|s| - 1]];
    }
  }

  lemma InsertKeepsFirst(r: seq<Candidate>, x: Candidate, position: int)
    ensures FirstAt(InsertSorted(r, x, Position), position) == FirstAt(r + [x], position)
  {
    var k := InsertAt(r, x, Position);
    var front, back := r[..k], r[k..];
    assert r == front + back;
    FirstAtJoin(front, back, position);
    FirstAtJoin(r, [x], position);
    FirstAtJoin(front + [x], back, position);
    FirstAtJoin(front, [x], position);
    FirstAtNone(back, position);
    forall c | c in back ensures Position(x) < Position(c) {
      var i :| 0 <= i < |back| && back[i] == c;
      assert r[k + i] == c;
    }
    FirstAtNone([x], position);
  }

  /** Sorting keeps the first of those that share a position first: the sort is stable. */
  lemma {:induction false} SortKeepsFirst(s: seq<Candidate>, position: int)
    ensures FirstAt(StableSort(s, Position), position) == FirstAt(s, position)
  {
    if s != [] {
      var n := |s| - 1;
      SortKeepsFirst(s[..n], position);
      InsertKeepsFirst(StableSort(s[..n], Position), s[n], position);
      FirstAtJoin(StableSort(s[..n], Position), [s[n]], position);
      FirstAtJoin(s[..n], [s[n]], position);
      assert s == s[..n] + [s[n]];
    }
  }

  // The bank with one candidate read first.
  function ReadFirst(cands: seq<Candidate>, i: nat): seq<Candidate>
    requires i < |cands|
  {
    [cands[i]] + (cands[..i] + cands[i + 1..])
  }

  lemma ReadFirstLeads(cands: seq<Candidate>, i: nat)
    requires i < |cands|
    ensures var b := ReadFirst(cands, i); var k := KeyOf(cands[i]);
            && multiset(b) == multiset(cands)
            && Members(b, k) != [] && Members(b, k)[0] == cands[i]
            && FirstAt(Members(b, k), cands[i].position) == Some(cands[i])
  {
    var x, rest := cands[i], cands[..i] + cands[i + 1..];
    var k := KeyOf(x);
    assert cands == cands[..i] + [x] + cands[i + 1..];
    MembersOfJoin([x], rest, k);
    assert Members([x], k) == [x] by { assert [x][..0] == []; }
    FirstAtJoin([x], Members(rest, k), x.position);
    assert FirstAt([x], x.position) == Some(x) by { assert [x][..0] == []; }
  }

  lemma SameGroupsSameLead(a: seq<Candidate>, b: seq<Candidate>, k: Id, position: int)
    requires Groups(a) == Groups(b) && k in AllKeys(a) && k in AllKeys(b)
    ensures Members(a, k) != [] && Members(b, k) != [] && Members(a, k)[0].level == Members(b, k)[0].level
    ensures FirstAt(Members(a, k), position) == FirstAt(Members(b, k), position)
  {
    MembersShareTheKey(a, k);
    MembersShareTheKey(b, k);
    SortedKeysCover(a);
    SortedKeysCover(b);
    var keys := SortedKeys(a);
    assert k in keys && k in SortedKeys(b);
    var i :| 0 <= i < |keys| && keys[i] == k;
    var j :| 0 <= j < |SortedKeys(b)| && SortedKeys(b)[j] == k;
    assert Groups(a)[i] == GroupOf(a, k) && Groups(b)[j] == GroupOf(b, k);
    assert Groups(b)[i].key == SortedKeys(b)[i];
    assert i == j;
    SortKeepsFirst(Members(a, k), position);
    SortKeepsFirst(Members(b, k), position);
  }

  /** The groups — and with them every form — are the same for every reading order exactly when
      the items of each stimulus agree on its level and differ in position. */
  lemma OrderDoesNotMatterIff(cands: seq<Candidate>)
    ensures (forall b | multiset(b) == multiset(cands) :: Groups(b) == Groups(cands)) <==> Authored(cands)
  {
    if Authored(cands) {
      forall b | multiset(b) == multiset(cands) ensures Groups(b) == Groups(cands) { SameGroups(cands, b); }
    }
    if forall b | multiset(b) == multiset(cands) :: Groups(b) == Groups(cands) {
      forall i, j | 0 <= i < |cands| && 0 <= j < |cands| && KeyOf(cands[i]) == KeyOf(cands[j])
        ensures cands[i].level == cands[j].level
        ensures cands[i].position == cands[j].position ==> cands[i] == cands[j]
      {
        var k := KeyOf(cands[i]);
        ReadFirstLeads(cands, i);
        ReadFirstLeads(cands, j);
        var a, b := ReadFirst(cands, i), ReadFirst(cands, j);
        assert Groups(a) == Groups(cands) && Groups(b) == Groups(cands);
        SameElements(a, cands);
        SameElements(b, cands);
        assert cands[i] in a && cands[i] in b;
        SameGroupsSameLead(a, b, k, cands[i].position);
      }
      AuthoredByIndex(cands);
    }
  }

  lemma AuthoredByIndex(cands: seq<Candidate>)
    requires forall i, j | 0 <= i < |cands| && 0 <= j < |cands| && KeyOf(cands[i]) == KeyOf(cands[j]) ::
               && cands[i].level == cands[j].level
               && (cands[i].position == cands[j].position ==> cands[i] == cands[j])
    ensures Authored(cands)
  {
  }

  /** Filling a section twice — a retry, a reconnect — gives the same test, whatever order the
      rows come in. */
  lemma SameFormForEveryOrder(a: seq<Candidate>, b: seq<Candidate>, start: Level, counts: Counts, shuffle: Shuffler)
    requires multiset(a) == multiset(b) && Authored(a)
    ensures Select(a, start, counts, shuffle) == Select(b, start, counts, shuffle)
  {
    SameGroups(a, b);
  }
}
