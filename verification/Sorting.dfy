/** Sorting: the library's stable sort by an integer key, as a function, and places kept of a list. */
module Sorting {

  predicate SortedBy<T(!new)>(s: seq<T>, key: T -> int) {
    forall i, j | 0 <= i < j < |s| :: key(s[i]) <= key(s[j])
  }

  // Where x goes in a sorted s: behind everything whose key is not greater.
  function InsertAt<T(!new)>(s: seq<T>, x: T, key: T -> int): (k: nat)
    ensures k <= |s|
    ensures k > 0 ==> key(s[k - 1]) <= key(x)
    ensures forall i | k <= i < |s| :: key(x) < key(s[i])
  {
    if s == [] || key(s[|s| - 1]) <= key(x) then |s| else InsertAt(s[..|s| - 1], x, key)
  }

  function InsertSorted<T(!new)>(s: seq<T>, x: T, key: T -> int): seq<T> {
    var k := InsertAt(s, x, key);
    s[..k] + [x] + s[k..]
  }

  lemma InsertKeepsSorted<T(!new)>(s: seq<T>, x: T, key: T -> int)
    requires SortedBy(s, key)
    ensures SortedBy(InsertSorted(s, x, key), key)
  {
    var k := InsertAt(s, x, key);
    var r := InsertSorted(s, x, key);
    forall i, j | 0 <= i < j < |r|
      ensures key(r[i]) <= key(r[j])
    {
      assert r[i] == if i < k then s[i] else if i == k then x else s[i - 1];
      assert r[j] == if j < k then s[j] else if j == k then x else s[j - 1];
    }
  }

  lemma InsertAdds<T(!new)>(s: seq<T>, x: T, key: T -> int)
    ensures multiset(InsertSorted(s, x, key)) == multiset(s) + multiset{x}
  {
    var k := InsertAt(s, x, key);
    assert s == s[..k] + s[k..];
  }

  function StableSort<T(!new)>(s: seq<T>, key: T -> int): (r: seq<T>)
    ensures |r| == |s|
  {
    if s == [] then [] else InsertSorted(StableSort(s[..|s| - 1], key), s[|s| - 1], key)
  }

  lemma SortStep<T(!new)>(s: seq<T>, key: T -> int)
    requires s != []
    ensures StableSort(s, key) == InsertSorted(StableSort(s[..|s| - 1], key), s[|s| - 1], key)
  {
    hide InsertSorted;
  }

  lemma LastApart<T>(s: seq<T>)
    requires s != []
    ensures multiset(s) == multiset(s[..|s| - 1]) + multiset{s[|s| - 1]}
  {
    assert s == s[..|s| - 1] + [s[|s| - 1]];
  }

  /** The result is sorted and holds the same elements. */
  lemma {:induction false} SortSorts<T(!new)>(s: seq<T>, key: T -> int)
    ensures SortedBy(StableSort(s, key), key)
    ensures multiset(StableSort(s, key)) == multiset(s)
  {
    if s != [] {
      hide *;
      var n := |s| - 1;
      SortSorts(s[..n], key);
      InsertKeepsSorted(StableSort(s[..n], key), s[n], key);
      InsertAdds(StableSort(s[..n], key), s[n], key);
      SortStep(s, key);
      LastApart(s);
    }
  }

  /** No two different elements share a key. */
  ghost predicate KeyDetermines<T(!new)>(s: seq<T>, key: T -> int) {
    forall x, y | x in s && y in s && key(x) == key(y) :: x == y
  }

  lemma SameElements<T(!new)>(a: seq<T>, b: seq<T>)
    requires multiset(a) == multiset(b)
    ensures forall x :: x in a <==> x in b
    ensures |a| == |b|
  {
    assert forall x :: x in a <==> x in multiset(a);
    assert forall x :: x in b <==> x in multiset(b);
    assert |multiset(a)| == |a| && |multiset(b)| == |b|;
  }

  lemma SameHead<T(!new)>(a: seq<T>, b: seq<T>, key: T -> int)
    requires multiset(a) == multiset(b) && a != []
    requires SortedBy(a, key) && SortedBy(b, key) && KeyDetermines(a, key)
    ensures b != [] && a[0] == b[0]
  {
    SameElements(a, b);
    assert b[0] in a && a[0] in b;
    var i :| 0 <= i < |a| && a[i] == b[0];
    var j :| 0 <= j < |b| && b[j] == a[0];
  }

  lemma Tail<T(!new)>(a: seq<T>, key: T -> int)
    requires a != [] && SortedBy(a, key)
    ensures SortedBy(a[1..], key)
    ensures KeyDetermines(a, key) ==> KeyDetermines(a[1..], key)
    ensures multiset(a[1..]) == multiset(a) - multiset{a[0]}
  {
    assert a == [a[0]] + a[1..];
  }

  /** When the key tells elements apart there is only one sorted arrangement of the same elements. */
  lemma {:induction false} SortedIsUnique<T(!new)>(a: seq<T>, b: seq<T>, key: T -> int)
    requires multiset(a) == multiset(b)
    requires SortedBy(a, key) && SortedBy(b, key)
    requires KeyDetermines(a, key)
    ensures a == b
  {
    hide *;
    if a == [] {
      assert |multiset(b)| == |multiset(a)| == 0;
    } else {
      SameHead(a, b, key);
      Tail(a, key);
      Tail(b, key);
      SortedIsUnique(a[1..], b[1..], key);
      HeadAndTail(a, b);
    }
  }

  lemma HeadAndTail<T>(a: seq<T>, b: seq<T>)
    requires a != [] && b != [] && a[0] == b[0] && a[1..] == b[1..]
    ensures a == b
  {
    assert a == [a[0]] + a[1..] && b == [b[0]] + b[1..];
  }

  predicate NoRepeats<T(==)>(s: seq<T>) {
    forall i, j | 0 <= i < j < |s| :: s[i] != s[j]
  }

  lemma {:induction false} OnceEach<T>(s: seq<T>, x: T)
    requires NoRepeats(s)
    ensures multiset(s)[x] <= 1
  {
    if s != [] {
      var n := |s| - 1;
      OnceEach(s[..n], x);
      assert s == s[..n] + [s[n]];
      if x == s[n] { assert x !in s[..n]; }
    }
  }

  lemma TwiceIsTwo<T>(s: seq<T>, i: nat, j: nat)
    requires i < j < |s| && s[i] == s[j]
    ensures multiset(s)[s[i]] >= 2
  {
    assert s == s[..j] + [s[j]] + s[j + 1..];
    assert s[i] in s[..j];
  }

  /** Rearranging elements that do not repeat gives no repeats. */
  lemma RearrangedNoRepeats<T>(a: seq<T>, b: seq<T>)
    requires multiset(a) == multiset(b) && NoRepeats(a)
    ensures NoRepeats(b)
  {
    forall i, j | 0 <= i < j < |b| ensures b[i] != b[j] {
      OnceEach(a, b[i]);
      if b[i] == b[j] { TwiceIsTwo(b, i, j); }
    }
  }

  /** Two elements with the same key stay as they are. */
  lemma SortOfTwo<T(!new)>(x: T, y: T, key: T -> int)
    requires key(x) == key(y)
    ensures StableSort([x, y], key) == [x, y]
  {
    assert [x, y][..1] == [x] && [x][..0] == [];
    assert StableSort([x][..0], key) == [];
    assert StableSort([x], key) == [x] by {
      assert InsertSorted([], x, key) == [] + [x] + [];
    }
    assert InsertSorted([x], y, key) == [x] + [y] + [] == [x, y];
  }

  // Places in a list of n, in order.
  predicate Places(at: seq<nat>, n: nat) {
    (forall i | 0 <= i < |at| :: at[i] < n) && forall i, j | 0 <= i < j < |at| :: at[i] < at[j]
  }

  lemma OneMorePlace(at: seq<nat>, n: nat)
    requires Places(at, n)
    ensures Places(at, n + 1) && Places(at + [n], n + 1)
    ensures forall k :: k in at + [n] <==> k in at || k == n
  {
  }
}
