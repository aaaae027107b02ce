/** Stable sorting by a numeric key: the specification of Python's `list.sort(key=...)`,
    of `sort.Float64s` and of the in-place insertion sort behind /timeline. */
module Sorting {

  ghost predicate SortedBy<T>(s: seq<T>, key: T -> real) {
    forall i, j | 0 <= i < j < |s| :: key(s[i]) <= key(s[j])
  }

  /** Puts x behind every element whose key is not larger. */
  function Insert<T>(s: seq<T>, x: T, key: T -> real): seq<T> {
    if s == [] || key(s[|s| - 1]) <= key(x) then s + [x]
    else Insert(s[..|s| - 1], x, key) + [s[|s| - 1]]
  }

  function Sort<T>(s: seq<T>, key: T -> real): seq<T> {
    if s == [] then [] else Insert(Sort(s[..|s| - 1], key), s[|s| - 1], key)
  }

  ghost function IfKey<T>(x: T, key: T -> real, k: real): seq<T> {
    if key(x) == k then [x] else []
  }

  /** The elements with key k, in order. */
  ghost function WithKey<T>(s: seq<T>, key: T -> real, k: real): seq<T> {
    if s == [] then [] else WithKey(s[..|s| - 1], key, k) + IfKey(s[|s| - 1], key, k)
  }

  lemma {:induction false} InsertPermutes<T>(s: seq<T>, x: T, key: T -> real)
    ensures multiset(Insert(s, x, key)) == multiset(s) + multiset{x}
    ensures |Insert(s, x, key)| == |s| + 1
  {
    if s != [] && key(s[|s| - 1]) > key(x) {
      assert s == s[..|s| - 1] + [s[|s| - 1]];
      InsertPermutes(s[..|s| - 1], x, key);
    }
  }

  lemma SortedSnoc<T>(s: seq<T>, x: T, key: T -> real)
    requires SortedBy(s, key) && forall y | y in s :: key(y) <= key(x)
    ensures SortedBy(s + [x], key)
  {
  }

  lemma {:induction false} InsertIsSorted<T>(s: seq<T>, x: T, key: T -> real)
    requires SortedBy(s, key)
    ensures SortedBy(Insert(s, x, key), key)
    ensures forall y | y in Insert(s, x, key) :: y == x || y in s
  {
    if s == [] || key(s[|s| - 1]) <= key(x) {
      SortedSnoc(s, x, key);
    } else {
      var front, last := s[..|s| - 1], s[|s| - 1];
      InsertIsSorted(front, x, key);
      SortedSnoc(Insert(front, x, key), last, key);
    }
  }

  /** Sorting permutes and orders. */
  lemma {:induction false} SortIsSorted<T>(s: seq<T>, key: T -> real)
    ensures multiset(Sort(s, key)) == multiset(s)
    ensures |Sort(s, key)| == |s|
    ensures SortedBy(Sort(s, key), key)
  {
    if s != [] {
      SortIsSorted(s[..|s| - 1], key);
      var p, x := Sort(s[..|s| - 1], key), s[|s| - 1];
      InsertPermutes(p, x, key);
      InsertIsSorted(p, x, key);
      assert s == s[..|s| - 1] + [s[|s| - 1]];
    }
  }

  lemma SameLast<T>(s: seq<T>, t: seq<T>, key: T -> real)
    requires s != [] && SortedBy(s, key) && SortedBy(t, key) && multiset(s) == multiset(t)
    requires forall x, y | x in s && y in s && key(x) == key(y) :: x == y
    ensures |s| == |t| && s[|s| - 1] == t[|t| - 1]
  {
    assert |s| == |multiset(s)| == |multiset(t)| == |t|;
    var x, y := s[|s| - 1], t[|t| - 1];
    assert x in multiset(t) && y in multiset(s);
    var i :| 0 <= i < |t| && t[i] == x;
    var j :| 0 <= j < |s| && s[j] == y;
    assert i < |t| - 1 ==> key(t[i]) <= key(t[|t| - 1]);
    assert j < |s| - 1 ==> key(s[j]) <= key(s[|s| - 1]);
  }

  /** Where equal keys mean equal elements there is only one sorted arrangement. */
  lemma {:induction false} ArrangementUnique<T>(s: seq<T>, t: seq<T>, key: T -> real)
    requires SortedBy(s, key) && SortedBy(t, key) && multiset(s) == multiset(t)
    requires forall x, y | x in s && y in s && key(x) == key(y) :: x == y
    ensures s == t
  {
    if s == [] {
      assert |t| == |multiset(t)| == 0;
    } else {
      SameLast(s, t, key);
      WithoutLast(s);
      WithoutLast(t);
      ArrangementUnique(s[..|s| - 1], t[..|t| - 1], key);
    }
  }

  lemma StrictArrangementUnique<T>(s: seq<T>, t: seq<T>, key: T -> real)
    requires forall i, j | 0 <= i < j < |s| :: key(s[i]) < key(s[j])
    requires SortedBy(t, key) && multiset(s) == multiset(t)
    ensures s == t
  {
    ArrangementUnique(s, t, key);
  }

  lemma WithoutLast<T>(s: seq<T>)
    requires s != []
    ensures s == s[..|s| - 1] + [s[|s| - 1]]
    ensures multiset(s[..|s| - 1]) == multiset(s) - multiset{s[|s| - 1]}
  {
    assert s == s[..|s| - 1] + [s[|s| - 1]];
  }

  lemma WithKeySnoc<T>(s: seq<T>, x: T, key: T -> real, k: real)
    ensures WithKey(s + [x], key, k) == WithKey(s, key, k) + IfKey(x, key, k)
  {
    assert (s + [x])[..|s|] == s;
  }

  lemma {:induction false} InsertIsStable<T>(s: seq<T>, x: T, key: T -> real, k: real)
    ensures WithKey(Insert(s, x, key), key, k) == WithKey(s, key, k) + IfKey(x, key, k)
  {
    if s == [] || key(s[|s| - 1]) <= key(x) {
      WithKeySnoc(s, x, key, k);
    } else {
      var front, last := s[..|s| - 1], s[|s| - 1];
      InsertIsStable(front, x, key, k);
      WithKeySnoc(Insert(front, x, key), last, key, k);
    }
  }

  /** Elements with equal keys keep their order. */
  lemma {:induction false} SortIsStable<T>(s: seq<T>, key: T -> real, k: real)
    ensures WithKey(Sort(s, key), key, k) == WithKey(s, key, k)
  {
    if s != [] {
      SortIsStable(s[..|s| - 1], key, k);
      InsertIsStable(Sort(s[..|s| - 1], key), s[|s| - 1], key, k);
    }
  }

  /** Insertion sort by adjacent swaps, stable because it moves only past strictly larger keys. */
  method SortInPlace<T>(a: array<T>, key: T -> real)
    modifies a
    ensures a[..] == Sort(old(a[..]), key)
  {
    ghost var was := a[..];
    ghost var sorted := [];
    var i := 0;
    assert was[..0] == [];
    while i < a.Length
      invariant 0 <= i <= a.Length
      invariant sorted == Sort(was[..i], key) && |sorted| == i
      invariant a[..i] == sorted && a[i..] == was[i..]
    {
      assert a[i] == a[i..][0] == was[i];
      InsertOne(a, i, sorted, key);
      assert was[..i + 1][..i] == was[..i];
      sorted := Insert(sorted, was[i], key);
      assert a[i + 1..] == was[i..][1..];
      i := i + 1;
    }
    assert was[..i] == was && a[..] == a[..i];
  }

  /** Moves a[i] left to its place among the sorted elements before it. */
  method InsertOne<T>(a: array<T>, i: nat, ghost p: seq<T>, key: T -> real)
    requires i < a.Length
    requires a[..i] == p
    modifies a
    ensures |Insert(p, old(a[i]), key)| == i + 1
    ensures a[..i + 1] == Insert(p, old(a[i]), key)
    ensures a[i + 1..] == old(a[i + 1..])
  {
    ghost var x := a[i];
    var j := i;
    while j > 0 && key(a[j - 1]) > key(a[j])
      invariant 0 <= j <= i
      invariant a[..j] == p[..j]
      invariant a[j] == x
      invariant a[j + 1..i + 1] == p[j..]
      invariant a[i + 1..] == old(a[i + 1..])
      invariant forall k | j <= k < i :: key(p[k]) > key(x)
    {
      a[j - 1], a[j] := a[j], a[j - 1];
      j := j - 1;
    }
    InsertPosition(p, x, j, key);
    assert a[..i + 1] == a[..j] + [a[j]] + a[j + 1..i + 1];
  }

  /** Where Insert puts x: at the only j with no larger key just before and only larger keys after. */
  lemma {:induction false} InsertPosition<T>(p: seq<T>, x: T, j: nat, key: T -> real)
    requires j <= |p|
    requires j > 0 ==> key(p[j - 1]) <= key(x)
    requires forall k | j <= k < |p| :: key(p[k]) > key(x)
    ensures Insert(p, x, key) == p[..j] + [x] + p[j..]
  {
    if j == |p| {
      assert p[..j] == p && p[j..] == [];
    } else {
      var front := p[..|p| - 1];
      InsertPosition(front, x, j, key);
      assert front[..j] == p[..j] && front[j..] + [p[|p| - 1]] == p[j..];
    }
  }
}
