/** Latency percentiles over the most recent requests. Durations are exact reals in microseconds. */
module Latency {
  import opened Engrams
  import opened Sorting

  /** The last `cap` of what was recorded, or all of it. */
  function Window(history: seq<real>, cap: nat): (window: seq<real>)
    ensures |window| == if |history| < cap then |history| else cap
  {
    if |history| <= cap then history else history[|history| - cap..]
  }

  lemma WindowIsLast(history: seq<real>, cap: nat)
    ensures var window := Window(history, cap);
            forall i | 0 <= i < |window| :: window[i] == history[|history| - |window| + i]
  {
  }

  function Self(x: real): real {
    x
  }

  /** Where the p-th percentile of n sorted samples stands, counted from 0. */
  function Rank(p: real, n: nat): (idx: real)
    requires n > 0 && 0.0 <= p <= 100.0
    ensures 0.0 <= idx <= (n - 1) as real
  {
    Scaled(p / 100.0, 1.0, (n - 1) as real);
    Scaled(0.0, p / 100.0, (n - 1) as real);
    Times(p / 100.0, (n - 1) as real)
  }

  function Times(a: real, b: real): (r: real)
    ensures a == 0.0 ==> r == 0.0
    ensures a == 1.0 ==> r == b
  {
    a * b
  }

  /** The value at a position, interpolated between the two samples around it. */
  function At(sorted: seq<real>, idx: real): real
    requires sorted != [] && 0.0 <= idx <= (|sorted| - 1) as real
  {
    var lo := idx.Floor;
    if lo + 1 >= |sorted| then sorted[lo]
    else
      Mix(sorted[lo], sorted[lo + 1], idx - lo as real)
  }

  function Mix(a: real, b: real, frac: real): real {
    a * (1.0 - frac) + b * frac
  }

  function Percentile(sorted: seq<real>, p: real): real
    requires sorted != [] && 0.0 <= p <= 100.0
  {
    At(sorted, Rank(p, |sorted|))
  }

  lemma Scaled(a: real, b: real, c: real)
    requires a <= b && 0.0 <= c
    ensures Times(a, c) <= Times(b, c)
  {
    assert (b - a) * c >= 0.0;
  }

  datatype Percentiles = Percentiles(p50: real, p95: real, p99: real)

  /** With fewer than two samples the percentiles are not numbers. */
  function PercentilesOf(samples: seq<real>): Option<Percentiles> {
    if |samples| < 2 then None
    else
      SortIsSorted(samples, Self);
      var sorted := Sort(samples, Self);
      Some(Percentiles(Percentile(sorted, 50.0), Percentile(sorted, 95.0), Percentile(sorted, 99.0)))
  }

  class Tracker {
    var buf: array<real>
    const cap: nat
    var head: nat
    var filled: bool
    /** All durations recorded, oldest first. */
    ghost var history: seq<real>

    ghost predicate Valid()
      reads this, buf
    {
      && buf.Length == cap
      && (if filled then 0 <= head < cap <= |history| && FromHead(buf[..], head) == Window(history, cap)
          else if cap == 0 then head == 0
          else head == |history| < cap && buf[..][..head] == history)
    }

    constructor (capacity: nat)
      ensures Valid() && fresh(buf) && cap == capacity && history == []
    {
      buf := new real[capacity];
      cap, head, filled, history := capacity, 0, false, [];
    }

    method Record(us: real)
      requires Valid()
      modifies this`head, this`filled, this`history, buf
      ensures Valid() && buf == old(buf)
      ensures history == old(history) + [us]
    {
      hide FromHead, Window;
      history := history + [us];
      if cap == 0 {
        return;
      }
      ghost var was := buf[..];
      if filled {
        FullRingTurns(buf[..], head, us, old(history));
      } else {
        RingFills(buf[..], head, us, old(history));
      }
      buf[head] := us;
      assert buf[..] == was[head := us];
      head := head + 1;
      if head >= cap {
        head := 0;
        filled := true;
      }
    }

    method Count() returns (n: nat)
      requires Valid()
      ensures n == if |history| < cap then |history| else cap
    {
      n := if filled then cap else head;
    }

    method GetPercentiles() returns (r: Option<Percentiles>)
      requires Valid()
      ensures r == PercentilesOf(Window(history, cap))
      ensures r == None <==> |history| < 2 || cap < 2
    {
      hide Sort, Percentile, Window, FromHead, SortedBy;
      if cap == 0 {
        return None;
      }
      var samples := new real[if filled then cap else head](i => 0.0);
      for i := 0 to samples.Length
        invariant samples[..i] == buf[..i]
      {
        samples[i] := buf[i];
      }
      assert samples[..] == samples[..samples.Length];
      if samples.Length < 2 {
        return None;
      }
      ghost var window := Window(history, cap);
      RingHoldsWindow(buf[..], head, filled, history);
      assert samples[..] == if filled then buf[..] else buf[..][..head];
      OneSortedOrder(samples[..], window);
      SortInPlace(samples, Self);
      var sorted := samples[..];
      SortIsSorted(window, Self);
      r := Some(Percentiles(Percentile(sorted, 50.0), Percentile(sorted, 95.0), Percentile(sorted, 99.0)));
    }
  }

  /** The ring read from position `head` on. */
  function FromHead(ring: seq<real>, head: nat): seq<real>
    requires head <= |ring|
  {
    ring[head..] + ring[..head]
  }

  /** Wherever the ring has wrapped, it holds the samples of the window. */
  lemma RingHoldsWindow(ring: seq<real>, head: nat, filled: bool, history: seq<real>)
    requires if filled then head < |ring| <= |history| && FromHead(ring, head) == Window(history, |ring|)
             else head == |history| < |ring| && ring[..head] == history
    ensures multiset(if filled then ring else ring[..head]) == multiset(Window(history, |ring|))
  {
    if filled {
      assert ring == ring[..head] + ring[head..];
    }
  }

  function Next(head: nat, cap: nat): nat {
    if head + 1 >= cap then 0 else head + 1
  }

  /** Once full, the ring overwrites its oldest sample. */
  lemma FullRingTurns(ring: seq<real>, head: nat, us: real, history: seq<real>)
    requires head < |ring| <= |history| && FromHead(ring, head) == Window(history, |ring|)
    ensures FromHead(ring[head := us], Next(head, |ring|)) == Window(history + [us], |ring|)
  {
    var n, now, window := |ring|, ring[head := us], Window(history, |ring|);
    assert window[1..] == ring[head + 1..] + ring[..head];
    assert now[head + 1..] == ring[head + 1..] && now[..head + 1] == ring[..head] + [us];
    assert window[1..] + [us] == Window(history + [us], n);
    if head + 1 == n {
      assert FromHead(now, 0) == now[..head + 1];
    }
  }

  lemma RingFills(ring: seq<real>, head: nat, us: real, history: seq<real>)
    requires head == |history| < |ring| && ring[..head] == history
    ensures ring[head := us][..head + 1] == history + [us]
    ensures head + 1 == |ring| ==> FromHead(ring[head := us], 0) == Window(history + [us], |ring|)
  {
    var now := ring[head := us];
    assert now[..head + 1] == ring[..head] + [us];
    if head + 1 == |ring| {
      assert FromHead(now, 0) == now == now[..head + 1];
    }
  }

  // ----- What the percentiles mean -----

  /** Where the ring has wrapped does not matter to the sorted samples. */
  lemma OneSortedOrder(a: seq<real>, b: seq<real>)
    requires multiset(a) == multiset(b)
    ensures Sort(a, Self) == Sort(b, Self)
  {
    SortIsSorted(a, Self);
    SortIsSorted(b, Self);
    ArrangementUnique(Sort(a, Self), Sort(b, Self), Self);
  }

  lemma Between(a: real, b: real, f: real, g: real)
    requires a <= b && 0.0 <= f <= g <= 1.0
    ensures a <= Mix(a, b, f) <= Mix(a, b, g) <= b
  {
    var d := b - a;
    Scaled(0.0, f, d);
    Scaled(f, g, d);
    Scaled(g, 1.0, d);
    assert Mix(a, b, f) == a + Times(f, d);
    assert Mix(a, b, g) == a + Times(g, d);
  }

  ghost predicate InCell(sorted: seq<real>, idx: real) {
    sorted != [] && 0.0 <= idx <= (|sorted| - 1) as real
  }

  /** A value lies between the two samples at its rank. */
  lemma AtIsBetween(sorted: seq<real>, idx: real)
    requires InCell(sorted, idx) && SortedBy(sorted, Self)
    ensures sorted[idx.Floor] <= At(sorted, idx)
    ensures forall i | idx.Floor < i < |sorted| :: At(sorted, idx) <= sorted[i]
    ensures At(sorted, idx) <= sorted[|sorted| - 1]
  {
    hide Mix;
    var lo := idx.Floor;
    if lo + 1 < |sorted| {
      assert Self(sorted[lo]) <= Self(sorted[lo + 1]);
      Between(sorted[lo], sorted[lo + 1], idx - lo as real, idx - lo as real);
      forall i | lo < i < |sorted| ensures sorted[lo + 1] <= sorted[i] {
        assert lo + 1 < i ==> Self(sorted[lo + 1]) <= Self(sorted[i]);
      }
    }
  }

  lemma AtGrows(sorted: seq<real>, i: real, j: real)
    requires InCell(sorted, i) && InCell(sorted, j) && i <= j && SortedBy(sorted, Self)
    ensures At(sorted, i) <= At(sorted, j)
  {
    hide Mix;
    if i.Floor == j.Floor {
      var lo := i.Floor;
      if lo + 1 < |sorted| {
        assert Self(sorted[lo]) <= Self(sorted[lo + 1]);
        Between(sorted[lo], sorted[lo + 1], i - lo as real, j - lo as real);
      }
    } else {
      AtIsBetween(sorted, i);
      AtIsBetween(sorted, j);
    }
  }

  lemma RankGrows(p: real, q: real, n: nat)
    requires n > 0 && 0.0 <= p <= q <= 100.0
    ensures Rank(p, n) <= Rank(q, n)
  {
    hide Times;
    Scaled(p / 100.0, q / 100.0, (n - 1) as real);
  }

  /** Percentiles grow with p and stay within the samples. */
  lemma PercentilesGrow(sorted: seq<real>, p: real, q: real)
    requires sorted != [] && SortedBy(sorted, Self) && 0.0 <= p <= q <= 100.0
    ensures sorted[0] <= Percentile(sorted, p) <= Percentile(sorted, q) <= sorted[|sorted| - 1]
  {
    hide At, Rank;
    var i, j := Rank(p, |sorted|), Rank(q, |sorted|);
    RankGrows(p, q, |sorted|);
    AtGrows(sorted, i, j);
    AtIsBetween(sorted, i);
    AtIsBetween(sorted, j);
    assert Self(sorted[0]) <= Self(sorted[i.Floor]);
  }

  /** The three percentiles are in order and within the samples. */
  lemma PercentilesAreOrdered(samples: seq<real>) returns (smallest: real, largest: real)
    requires |samples| >= 2
    ensures smallest in samples && largest in samples
    ensures forall x | x in samples :: smallest <= x <= largest
    ensures var r := PercentilesOf(samples).value; smallest <= r.p50 <= r.p95 <= r.p99 <= largest
  {
    SortIsSorted(samples, Self);
    var sorted := Sort(samples, Self);
    PercentilesGrow(sorted, 50.0, 95.0);
    PercentilesGrow(sorted, 95.0, 99.0);
    smallest, largest := sorted[0], sorted[|sorted| - 1];
    assert smallest in multiset(samples) && largest in multiset(samples);
    forall x | x in samples ensures smallest <= x <= largest {
      assert x in multiset(sorted);
      var i :| 0 <= i < |sorted| && sorted[i] == x;
      assert Self(smallest) <= Self(sorted[i]) <= Self(largest);
    }
  }

  /** The value is the p-th percentile: in the cell its rank p (n - 1) / 100 falls in, it divides the
      distance between the two samples as the rank divides the cell. */
  ghost predicate Interpolates(sorted: seq<real>, p: real, value: real) {
    forall lo | 0 <= lo < |sorted| - 1 && 100.0 * lo as real <= p * (|sorted| - 1) as real <= 100.0 * (lo + 1) as real ::
      100.0 * (value - sorted[lo]) == (p * (|sorted| - 1) as real - 100.0 * lo as real) * (sorted[lo + 1] - sorted[lo])
  }

  lemma MixIs(a: real, b: real, frac: real, c: real)
    requires c == 100.0 * frac
    ensures 100.0 * (Mix(a, b, frac) - a) == c * (b - a)
  {
  }

  lemma RankIs(p: real, n: nat)
    requires n > 0 && 0.0 <= p <= 100.0
    ensures 100.0 * Rank(p, n) == p * (n - 1) as real
  {
    assert p / 100.0 * 100.0 == p;
    var m := (n - 1) as real;
    assert Rank(p, n) == (p / 100.0) * m;
  }

  lemma PercentileInterpolates(sorted: seq<real>, p: real)
    requires sorted != [] && 0.0 <= p <= 100.0
    ensures Interpolates(sorted, p, Percentile(sorted, p))
    ensures |sorted| == 1 ==> Percentile(sorted, p) == sorted[0]
  {
    hide At, Rank;
    var n, idx := |sorted|, Rank(p, |sorted|);
    var r := p * (n - 1) as real;
    RankIs(p, n);
    forall lo | 0 <= lo < n - 1 && 100.0 * lo as real <= r <= 100.0 * (lo + 1) as real
      ensures 100.0 * (Percentile(sorted, p) - sorted[lo]) == (r - 100.0 * lo as real) * (sorted[lo + 1] - sorted[lo])
    {
      CellIs(sorted, idx, lo, r);
    }
    if n == 1 {
      AtFirst(sorted, idx);
    }
  }

  lemma AtFirst(sorted: seq<real>, idx: real)
    requires InCell(sorted, idx) && idx == 0.0 && |sorted| == 1
    ensures At(sorted, idx) == sorted[0]
  {
  }

  lemma CellIs(sorted: seq<real>, idx: real, lo: nat, r: real)
    requires InCell(sorted, idx) && lo < |sorted| - 1 && lo as real <= idx <= (lo + 1) as real && r == 100.0 * idx
    ensures 100.0 * (At(sorted, idx) - sorted[lo]) == (r - 100.0 * lo as real) * (sorted[lo + 1] - sorted[lo])
  {
    hide Mix;
    var a, b := sorted[lo], sorted[lo + 1];
    if idx < (lo + 1) as real {
      assert idx.Floor == lo;
      MixIs(a, b, idx - lo as real, r - 100.0 * lo as real);
    } else {
      assert idx.Floor == lo + 1 && r - 100.0 * lo as real == 100.0;
      if lo + 2 < |sorted| {
        MixIs(b, sorted[lo + 2], 0.0, 0.0);
        assert idx - (lo + 1) as real == 0.0;
      }
      assert At(sorted, idx) == b;
    }
  }

  /** The three numbers given are the 50th, 95th and 99th percentile of the samples in order, whichever
      way these are put in order. */
  lemma PercentilesAre(samples: seq<real>, sorted: seq<real>)
    requires |samples| >= 2 && multiset(sorted) == multiset(samples)
    requires forall i, j | 0 <= i < j < |sorted| :: sorted[i] <= sorted[j]
    ensures var r := PercentilesOf(samples).value;
            Interpolates(sorted, 50.0, r.p50) && Interpolates(sorted, 95.0, r.p95) && Interpolates(sorted, 99.0, r.p99)
  {
    hide Interpolates, Percentile;
    SortIsSorted(samples, Self);
    ArrangementUnique(Sort(samples, Self), sorted, Self);
    PercentileInterpolates(sorted, 50.0);
    PercentileInterpolates(sorted, 95.0);
    PercentileInterpolates(sorted, 99.0);
  }

  /** The samples up to the rank are no larger and those after it no smaller: a percentile splits the
      samples where it says. */
  lemma PercentileSplits(sorted: seq<real>, p: real, i: nat)
    requires SortedBy(sorted, Self) && 0.0 <= p <= 100.0 && i < |sorted|
    ensures if i as real <= Rank(p, |sorted|) then sorted[i] <= Percentile(sorted, p)
            else Percentile(sorted, p) <= sorted[i]
  {
    hide At, Rank;
    var idx := Rank(p, |sorted|);
    AtIsBetween(sorted, idx);
    assert i < idx.Floor ==> Self(sorted[i]) <= Self(sorted[idx.Floor]);
  }
}
