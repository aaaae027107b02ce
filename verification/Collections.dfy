/** Facts about sequences and sets that several parts share. */
module Collections {

  ghost predicate NoRepeats<T>(s: seq<T>) {
    forall i, j | 0 <= i < j < |s| :: s[i] != s[j]
  }

  /** The sequences put together in order. */
  function Flatten<T>(lists: seq<seq<T>>): seq<T> {
    if lists == [] then [] else Flatten(lists[..|lists| - 1]) + lists[|lists| - 1]
  }

  lemma Regroup<T>(a: seq<T>, b: seq<T>, c: seq<T>)
    ensures a + b + c == a + (b + c)
  {
  }

  lemma FrontOfSum<T>(a: seq<T>, b: seq<T>)
    requires b != []
    ensures (a + b)[..|a + b| - 1] == a + b[..|b| - 1] && (a + b)[|a + b| - 1] == b[|b| - 1]
  {
  }

  lemma RestOfSum<T>(a: seq<T>, b: seq<T>)
    requires a != []
    ensures (a + b)[0] == a[0] && (a + b)[1..] == a[1..] + b
  {
  }

  lemma {:induction false} FlattenSum<T>(a: seq<seq<T>>, b: seq<seq<T>>)
    ensures Flatten(a + b) == Flatten(a) + Flatten(b)
  {
    if b == [] {
      assert a + b == a;
    } else {
      FlattenSum(a, b[..|b| - 1]);
      FrontOfSum(a, b);
      Regroup(Flatten(a), Flatten(b[..|b| - 1]), b[|b| - 1]);
    }
  }

  lemma FlattenOne<T>(s: seq<T>)
    ensures Flatten([s]) == s
  {
    assert [s][..0] == [];
  }

  lemma FlattenRest<T>(lists: seq<seq<T>>)
    requires lists != []
    ensures Flatten(lists) == lists[0] + Flatten(lists[1..])
  {
    assert lists == [lists[0]] + lists[1..];
    FlattenSum([lists[0]], lists[1..]);
    FlattenOne(lists[0]);
  }

  lemma {:induction false} FlattenHolds<T>(lists: seq<seq<T>>)
    ensures forall x | x in Flatten(lists) :: exists i :: 0 <= i < |lists| && x in lists[i]
    ensures forall i, x | 0 <= i < |lists| && x in lists[i] :: x in Flatten(lists)
    ensures forall i | 0 <= i < |lists| :: |lists[i]| <= |Flatten(lists)|
  {
    if lists != [] {
      var front, last := lists[..|lists| - 1], lists[|lists| - 1];
      FlattenHolds(front);
      assert Flatten(lists) == Flatten(front) + last;
      forall i, x | 0 <= i < |lists| && x in lists[i] ensures x in Flatten(lists) {
        assert i < |front| ==> x in front[i];
      }
      forall x | x in Flatten(lists) ensures exists i :: 0 <= i < |lists| && x in lists[i] {
        if x in Flatten(front) {
          var i :| 0 <= i < |front| && x in front[i];
          assert x in lists[i];
        }
      }
    }
  }

  lemma NoRepeatsSum<T>(a: seq<T>, b: seq<T>)
    requires NoRepeats(a) && NoRepeats(b) && forall x | x in a :: x !in b
    ensures NoRepeats(a + b)
  {
    var s := a + b;
    forall i, j | 0 <= i < j < |s| ensures s[i] != s[j] {
      if i < |a| <= j {
        assert a[i] in a && b[j - |a|] in b;
      }
    }
  }

  lemma SubsetIsSmaller<T>(a: set<T>, b: set<T>)
    requires a <= b
    ensures |a| <= |b|
    ensures |a| == |b| ==> a == b
  {
    assert |b - a| == |b| - |a|;
  }

  /** A list without repeats is as long as the set of its elements is large. */
  lemma {:induction false} DistinctCount<T>(s: seq<T>, elements: set<T>)
    requires NoRepeats(s) && forall x :: x in s <==> x in elements
    ensures |s| == |elements|
  {
    if s == [] {
      assert forall x :: x !in elements;
    } else {
      var last := s[|s| - 1];
      assert last in s && s == s[..|s| - 1] + [last];
      DistinctCount(s[..|s| - 1], elements - {last});
    }
  }
}
