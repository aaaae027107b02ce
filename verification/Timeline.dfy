/** The cross-surface timeline: the oldest rows of each surface, merged, sorted and cut. */
module Timeline {
  import opened Engrams
  import opened Sorting
  import opened Collections
  import opened StoreCounters

  function TsKey(e: Engram): real {
    e.ts as real
  }

  predicate InWindow(e: Engram, since: int, before: int) {
    (since > 0 ==> e.ts > since) && (before > 0 ==> e.ts < before)
  }

  /** The WHERE clause of Retrieve; an empty surface stands for all. */
  function Wanted(rows: Rows, surface: string, since: int, before: int): set<int> {
    set id | id in rows && InWindow(rows[id], since, before) && (surface != "" ==> rows[id].surface == surface)
  }

  function ClampedLimit(limit: int): nat {
    if limit <= 0 then 50 else if limit > 500 then 500 else limit
  }

  function Least(a: nat, b: nat): nat {
    if a < b then a else b
  }

  ghost predicate NoIdTwice(es: seq<Engram>) {
    forall i, j | 0 <= i < j < |es| :: es[i].id != es[j].id
  }

  ghost predicate DistinctRows(rows: Rows, ids: set<int>, out: seq<Engram>) {
    && (forall e | e in out :: e.id in ids && e.id in rows && rows[e.id] == e)
    && NoIdTwice(out)
  }

  /** The first k of the rows `ids` by timestamp: any choice among equal timestamps will do. */
  ghost predicate IsFirst(rows: Rows, ids: set<int>, k: nat, out: seq<Engram>) {
    && SortedBy(out, TsKey)
    && DistinctRows(rows, ids, out)
    && |out| == Least(k, |ids|)
    && (forall id, e | id in ids && id in rows && rows[id] !in out && e in out :: e.ts <= rows[id].ts)
  }

  method OldestOf(rows: Rows, ids: set<int>) returns (first: int)
    requires |ids| > 0 && ids <= rows.Keys
    ensures first in ids
    ensures forall id | id in ids :: rows[first].ts <= rows[id].ts
  {
    ghost var some := Pick(ids);
    var id0 :| id0 in ids;
    first := id0;
    var rest := ids - {id0};
    while |rest| > 0
      invariant first in ids && rest <= ids
      invariant forall id | id in ids - rest :: rows[first].ts <= rows[id].ts
      decreases |rest|
    {
      ghost var other := Pick(rest);
      var id :| id in rest;
      if rows[id].ts < rows[first].ts {
        first := id;
      }
      rest := rest - {id};
    }
  }

  /** Retrieve, oldest first. */
  method Retrieve(rows: Rows, surface: string, since: int, before: int, limit: int) returns (out: seq<Engram>)
    requires Numbered(rows)
    ensures IsFirst(rows, Wanted(rows, surface, since, before), ClampedLimit(limit), out)
    ensures OldestOfThose(rows, if surface == "" then [] else [surface], since, before,
                          if limit <= 0 then 50 else if limit > 500 then 500 else limit, out)
  {
    var wanted := Wanted(rows, surface, since, before);
    var rest := wanted;
    out := [];
    while |rest| > 0 && |out| < ClampedLimit(limit)
      invariant rest <= wanted
      invariant |out| + |rest| == |wanted| && |out| <= ClampedLimit(limit)
      invariant SortedBy(out, TsKey)
      invariant DistinctRows(rows, wanted - rest, out)
      invariant forall id | id in wanted - rest :: rows[id] in out
      invariant forall id, e | id in rest && e in out :: e.ts <= rows[id].ts
      decreases |rest|
    {
      var id := OldestOf(rows, rest);
      SortedSnoc(out, rows[id], TsKey);
      out := out + [rows[id]];
      rest := rest - {id};
    }
    var surfaces := if surface == "" then [] else [surface];
    assert wanted == WantedOf(rows, surfaces, since, before);
    FirstMeans(rows, surfaces, since, before, ClampedLimit(limit), out);
  }

  /** The answer in terms of the fields of the rows: every row returned is of a surface asked for (none
      named means all), after `since` and before `before` where these are given; they are sorted, none
      twice and at most `most`; a row that is missing is no older than any returned, and they are `most`. */
  ghost predicate OldestOfThose(rows: Rows, surfaces: seq<string>, since: int, before: int, most: nat, out: seq<Engram>) {
    && (forall e | e in out :: e.id in rows && rows[e.id] == e
                               && (surfaces == [] || e.surface in surfaces)
                               && (since <= 0 || since < e.ts) && (before <= 0 || e.ts < before))
    && (forall i, j | 0 <= i < j < |out| :: out[i].ts <= out[j].ts && out[i].id != out[j].id)
    && |out| <= most
    && (forall id | id in rows && rows[id] !in out && (surfaces == [] || rows[id].surface in surfaces)
                    && (since <= 0 || since < rows[id].ts) && (before <= 0 || rows[id].ts < before) ::
          |out| == most && forall e | e in out :: e.ts <= rows[id].ts)
  }

  lemma FirstMeans(rows: Rows, surfaces: seq<string>, since: int, before: int, most: nat, out: seq<Engram>)
    requires Numbered(rows) && IsFirst(rows, WantedOf(rows, surfaces, since, before), most, out)
    ensures OldestOfThose(rows, surfaces, since, before, most, out)
  {
    var ids := WantedOf(rows, surfaces, since, before);
    forall i, j | 0 <= i < j < |out| ensures out[i].ts <= out[j].ts {
      assert TsKey(out[i]) <= TsKey(out[j]);
    }
    if |out| < most {
      ShortListIsAll(rows, ids, most, out);
    }
  }

  // ----- Merging -----

  function Cut(es: seq<Engram>, limit: nat): seq<Engram> {
    if |es| > limit then es[..limit] else es
  }

  function EffectiveLimit(limit: int): nat {
    if limit <= 0 then 200 else if limit > 1000 then 1000 else limit
  }

  ghost predicate Fetched(rows: Rows, surfaces: seq<string>, since: int, before: int, limit: nat,
                          lists: seq<seq<Engram>>) {
    && |lists| == |surfaces|
    && forall i | 0 <= i < |surfaces| ::
         IsFirst(rows, Wanted(rows, surfaces[i], since, before), ClampedLimit(limit), lists[i])
  }

  /** A result /timeline may give for these parameters. */
  ghost predicate IsTimeline(rows: Rows, surfaces: seq<string>, since: int, before: int, limit: nat, out: seq<Engram>) {
    if surfaces == [] then IsFirst(rows, Wanted(rows, "", since, before), ClampedLimit(limit), out)
    else exists lists :: Fetched(rows, surfaces, since, before, limit, lists)
                         && out == Cut(Sort(Flatten(lists), TsKey), limit)
  }

  method HandleTimeline(rows: Rows, surfaces: seq<string>, since: int, before: int, limit: int)
    returns (out: seq<Engram>)
    requires Numbered(rows)
    requires Named(surfaces)
    ensures IsTimeline(rows, surfaces, since, before, EffectiveLimit(limit), out)
    ensures (Distinct(surfaces) || EffectiveLimit(limit) == 1) && EffectiveLimit(limit) <= 500 ==>
              IsFirst(rows, WantedOf(rows, surfaces, since, before), EffectiveLimit(limit), out)
    ensures limit <= 500 && (Distinct(surfaces) || limit == 1) ==>
              OldestOfThose(rows, surfaces, since, before, if limit <= 0 then 200 else limit, out)
  {
    hide IsFirst, Sort, InWindow, Numbered, OldestOfThose;
    var cap := EffectiveLimit(limit);
    if |surfaces| == 0 {
      out := Retrieve(rows, "", since, before, cap);
      assert WantedOf(rows, surfaces, since, before) == Wanted(rows, "", since, before);
      if cap <= 500 {
        FirstMeans(rows, surfaces, since, before, cap, out);
      }
      return;
    }
    var results: seq<Engram> := [];
    ghost var lists := [];
    for i := 0 to |surfaces|
      invariant |lists| == i && results == Flatten(lists)
      invariant forall j | 0 <= j < i ::
                  IsFirst(rows, Wanted(rows, surfaces[j], since, before), ClampedLimit(cap), lists[j])
    {
      var fetched := Retrieve(rows, surfaces[i], since, before, cap);
      assert (lists + [fetched])[..i] == lists;
      lists := lists + [fetched];
      results := results + fetched;
    }
    var a := new Engram[|results|](i requires 0 <= i < |results| => results[i]);
    assert a[..] == results;
    SortInPlace(a, TsKey);
    results := a[..];
    if |results| > cap {
      results := results[..cap];
    }
    out := results;
    assert Fetched(rows, surfaces, since, before, cap, lists);
    if (Distinct(surfaces) || cap == 1) && cap <= 500 {
      MergeIsFirst(rows, surfaces, since, before, cap, lists);
      FirstMeans(rows, surfaces, since, before, cap, out);
    }
  }

  // ----- Cutting each surface loses nothing -----

  ghost predicate Distinct(surfaces: seq<string>) {
    forall i, j | 0 <= i < j < |surfaces| :: surfaces[i] != surfaces[j]
  }

  ghost predicate Named(surfaces: seq<string>) {
    forall s | s in surfaces :: s != ""
  }

  /** The rows of any of the surfaces; no surface named means all of them. */
  function WantedOf(rows: Rows, surfaces: seq<string>, since: int, before: int): set<int> {
    set id | id in rows && InWindow(rows[id], since, before) && (surfaces == [] || rows[id].surface in surfaces)
  }

  ghost predicate Owned(rows: Rows, surfaces: seq<string>, since: int, before: int, es: seq<Engram>) {
    forall e | e in es :: e.id in rows && rows[e.id] == e && e.surface in surfaces && InWindow(e, since, before)
  }

  lemma ListIsOwned(rows: Rows, surfaces: seq<string>, since: int, before: int, limit: nat,
                    lists: seq<seq<Engram>>, i: nat)
    requires Named(surfaces) && Fetched(rows, surfaces, since, before, limit, lists) && i < |lists|
    ensures Owned(rows, [surfaces[i]], since, before, lists[i])
    ensures NoIdTwice(lists[i])
  {
    forall e | e in lists[i] ensures e.id in Wanted(rows, surfaces[i], since, before) && rows[e.id] == e {
    }
    assert surfaces[i] in surfaces;
  }

  /** Merging puts together wanted rows, none twice when no surface is named twice. */
  lemma {:induction false} FlattenCollects(rows: Rows, surfaces: seq<string>, since: int, before: int, limit: nat,
                                           lists: seq<seq<Engram>>)
    requires Named(surfaces) && Fetched(rows, surfaces, since, before, limit, lists)
    ensures Owned(rows, surfaces, since, before, Flatten(lists))
    ensures Distinct(surfaces) ==> NoIdTwice(Flatten(lists))
  {
    if lists != [] {
      var n := |lists| - 1;
      assert forall s | s in surfaces[..n] :: s in surfaces;
      FlattenCollects(rows, surfaces[..n], since, before, limit, lists[..n]);
      ListIsOwned(rows, surfaces, since, before, limit, lists, n);
      if Distinct(surfaces) {
        forall d, e | d in Flatten(lists[..n]) && e in lists[n] ensures d.id != e.id {
          assert d.surface in surfaces[..n] && e.surface == surfaces[n];
        }
      }
    }
  }

  ghost function Ids(es: seq<Engram>): set<int> {
    set e | e in es :: e.id
  }

  lemma {:induction false} IdsAreFew(es: seq<Engram>)
    ensures |Ids(es)| <= |es|
    ensures NoIdTwice(es) <==> |Ids(es)| == |es|
  {
    if es != [] {
      var front, last := es[..|es| - 1], es[|es| - 1];
      IdsAreFew(front);
      assert Ids(es) == Ids(front) + {last.id};
      LastIdNew(front, last);
      assert es == front + [last];
    }
  }

  lemma LastIdNew(front: seq<Engram>, last: Engram)
    ensures NoIdTwice(front + [last]) <==> NoIdTwice(front) && last.id !in Ids(front)
  {
    var es := front + [last];
    if last.id in Ids(front) {
      var e :| e in front && e.id == last.id;
      var i :| 0 <= i < |front| && front[i] == e;
      assert es[i].id == es[|front|].id;
    }
    if NoIdTwice(es) {
      forall i, j | 0 <= i < j < |front| ensures front[i].id != front[j].id {
        assert es[i].id != es[j].id;
      }
    }
  }

  /** A list shorter than its limit holds everything there is. */
  lemma ShortListIsAll(rows: Rows, ids: set<int>, k: nat, out: seq<Engram>)
    requires ids <= rows.Keys && IsFirst(rows, ids, k, out) && |out| < k
    ensures forall id | id in ids :: rows[id] in out
  {
    IdsAreFew(out);
    SubsetIsSmaller(Ids(out), ids);
    forall id | id in ids ensures rows[id] in out {
      assert id in Ids(out);
    }
  }

  lemma SameElements<T>(s: seq<T>, t: seq<T>)
    requires multiset(s) == multiset(t)
    ensures |s| == |t| && forall x :: x in s <==> x in t
  {
    assert |s| == |multiset(s)| == |multiset(t)| == |t|;
    forall x ensures x in s <==> x in t {
      assert x in multiset(s) <==> x in multiset(t);
    }
  }

  lemma PermutedHasSameIds(es: seq<Engram>, fs: seq<Engram>)
    requires multiset(es) == multiset(fs)
    ensures NoIdTwice(es) <==> NoIdTwice(fs)
    ensures Ids(es) == Ids(fs)
  {
    SameElements(es, fs);
    IdsAreFew(es);
    IdsAreFew(fs);
    assert Ids(es) == Ids(fs);
  }

  /** Everything wanted that the merge lacks was cut from a full list of its surface. */
  lemma MissingMeansFull(rows: Rows, surfaces: seq<string>, since: int, before: int, limit: nat,
                         lists: seq<seq<Engram>>, id: int) returns (i: nat)
    requires surfaces != [] && Named(surfaces) && 0 < limit <= 500
    requires Fetched(rows, surfaces, since, before, limit, lists)
    requires id in WantedOf(rows, surfaces, since, before) && rows[id] !in Flatten(lists)
    ensures i < |lists| && |lists[i]| == limit
    ensures forall e | e in lists[i] :: e.ts <= rows[id].ts
  {
    i :| 0 <= i < |surfaces| && surfaces[i] == rows[id].surface;
    FlattenHolds(lists);
    var wanted := Wanted(rows, surfaces[i], since, before);
    assert id in wanted;
    if |lists[i]| < limit {
      ShortListIsAll(rows, wanted, limit, lists[i]);
    }
  }

  /** More than p rows no newer than t leave no row newer than t at position p. */
  lemma SmallPositionIsOld(es: seq<Engram>, sorted: seq<Engram>, some: seq<Engram>, t: int, p: nat)
    requires multiset(es) == multiset(sorted) && SortedBy(sorted, TsKey)
    requires p < |sorted| && p < |some| && NoIdTwice(some)
    requires forall e | e in some :: e in es && e.ts <= t
    ensures sorted[p].ts <= t
  {
    if sorted[p].ts > t {
      IdsAreFew(some);
      IdsAreFew(sorted[..p]);
      SameElements(es, sorted);
      forall e | e in some ensures e in sorted[..p] {
        var k :| 0 <= k < |sorted| && sorted[k] == e;
        assert k > p ==> TsKey(sorted[p]) <= TsKey(sorted[k]);
        assert sorted[..p][k] == e;
      }
      SubsetIsSmaller(Ids(some), Ids(sorted[..p]));
    }
  }

  lemma MergeHasTheRightLength(rows: Rows, surfaces: seq<string>, since: int, before: int, limit: nat,
                               lists: seq<seq<Engram>>)
    requires Numbered(rows) && surfaces != [] && Named(surfaces) && (Distinct(surfaces) || limit == 1) && 0 < limit <= 500
    requires Fetched(rows, surfaces, since, before, limit, lists)
    ensures Least(limit, |Flatten(lists)|) == Least(limit, |WantedOf(rows, surfaces, since, before)|)
  {
    hide Fetched, Flatten, IsFirst, Owned, WantedOf;
    var es, wanted := Flatten(lists), WantedOf(rows, surfaces, since, before);
    FlattenCollects(rows, surfaces, since, before, limit, lists);
    OwnedAreWanted(rows, surfaces, since, before, es);
    IdsAreFew(es);
    SubsetIsSmaller(Ids(es), wanted);
    if es != [] {
      assert es[0].id in Ids(es);
    }
    if |es| < limit {
      ShortMergeIsAll(rows, surfaces, since, before, limit, lists);
      SubsetIsSmaller(wanted, Ids(es));
    }
  }

  lemma OwnedAreWanted(rows: Rows, surfaces: seq<string>, since: int, before: int, es: seq<Engram>)
    requires Owned(rows, surfaces, since, before, es)
    ensures Ids(es) <= WantedOf(rows, surfaces, since, before)
  {
  }

  lemma ShortMergeIsAll(rows: Rows, surfaces: seq<string>, since: int, before: int, limit: nat, lists: seq<seq<Engram>>)
    requires Numbered(rows) && surfaces != [] && Named(surfaces) && |Flatten(lists)| < limit <= 500
    requires Fetched(rows, surfaces, since, before, limit, lists)
    ensures WantedOf(rows, surfaces, since, before) <= Ids(Flatten(lists))
  {
    hide Fetched, Flatten;
    FlattenHolds(lists);
    forall id | id in WantedOf(rows, surfaces, since, before) ensures id in Ids(Flatten(lists)) {
      if rows[id] !in Flatten(lists) {
        var i := MissingMeansFull(rows, surfaces, since, before, limit, lists, id);
      } else {
        assert rows[id].id in Ids(Flatten(lists));
      }
    }
  }

  /** Whatever wanted row the cut result lacks is at least as recent as the row at any position of it. */
  lemma NothingOlderIsCut(rows: Rows, surfaces: seq<string>, since: int, before: int, limit: nat,
                          lists: seq<seq<Engram>>, sorted: seq<Engram>, id: int, p: nat)
    requires surfaces != [] && Named(surfaces) && 0 < limit <= 500
    requires Fetched(rows, surfaces, since, before, limit, lists)
    requires multiset(Flatten(lists)) == multiset(sorted) && SortedBy(sorted, TsKey)
    requires id in WantedOf(rows, surfaces, since, before) && rows[id] !in Cut(sorted, limit)
    requires p < |Cut(sorted, limit)|
    ensures sorted[p].ts <= rows[id].ts
  {
    var es := Flatten(lists);
    SameElements(es, sorted);
    assert forall k | 0 <= k < |Cut(sorted, limit)| :: Cut(sorted, limit)[k] == sorted[k];
    if rows[id] in es {
      var k :| 0 <= k < |sorted| && sorted[k] == rows[id];
      assert TsKey(sorted[p]) <= TsKey(sorted[k]);
    } else {
      var i := MissingMeansFull(rows, surfaces, since, before, limit, lists, id);
      FlattenHolds(lists);
      ListIsOwned(rows, surfaces, since, before, limit, lists, i);
      SmallPositionIsOld(es, sorted, lists[i], rows[id].ts, p);
    }
  }

  lemma CutKeeps(rows: Rows, ids: set<int>, sorted: seq<Engram>, limit: nat)
    requires SortedBy(sorted, TsKey) && (NoIdTwice(sorted) || limit <= 1)
    requires forall e | e in sorted :: e.id in ids && e.id in rows && rows[e.id] == e
    ensures SortedBy(Cut(sorted, limit), TsKey)
    ensures DistinctRows(rows, ids, Cut(sorted, limit))
    ensures |Cut(sorted, limit)| == Least(limit, |sorted|)
  {
    var out := Cut(sorted, limit);
    assert forall i | 0 <= i < |out| :: out[i] == sorted[i];
  }

  /** The merge is a global first-`limit`: sorted, of the right length, without repeats, and every row
      left out is at least as recent as every row returned. */
  lemma MergeIsFirst(rows: Rows, surfaces: seq<string>, since: int, before: int, limit: nat, lists: seq<seq<Engram>>)
    requires Numbered(rows) && surfaces != [] && Named(surfaces) && (Distinct(surfaces) || limit == 1) && 0 < limit <= 500
    requires Fetched(rows, surfaces, since, before, limit, lists)
    ensures IsFirst(rows, WantedOf(rows, surfaces, since, before), limit, Cut(Sort(Flatten(lists), TsKey), limit))
  {
    hide Fetched, Flatten, Sort, DistinctRows;
    var es, wanted := Flatten(lists), WantedOf(rows, surfaces, since, before);
    var sorted := Sort(es, TsKey);
    var out := Cut(sorted, limit);
    FlattenCollects(rows, surfaces, since, before, limit, lists);
    SortIsSorted(es, TsKey);
    PermutedHasSameIds(es, sorted);
    SameElements(es, sorted);
    CutKeeps(rows, wanted, sorted, limit);
    MergeHasTheRightLength(rows, surfaces, since, before, limit, lists);
    forall id, e | id in wanted && id in rows && rows[id] !in out && e in out ensures e.ts <= rows[id].ts {
      var p :| 0 <= p < |out| && out[p] == e;
      NothingOlderIsCut(rows, surfaces, since, before, limit, lists, sorted, id, p);
    }
  }

  // ----- Exactly when /timeline is right -----

  /** The rows of a store after these operations. */
  ghost function RowsAfter(ops: seq<Op>): (rows: Rows)
    ensures Numbered(rows)
  {
    ApplyAll(Db(map[], map[]), ops).rows
  }

  /** /timeline answers a request correctly on every store that can come about. */
  ghost predicate AlwaysRight(surfaces: seq<string>, limit: nat) {
    forall ops, since, before, out ::
      IsTimeline(RowsAfter(ops), surfaces, since, before, limit, out)
      ==> IsFirst(RowsAfter(ops), WantedOf(RowsAfter(ops), surfaces, since, before), limit, out)
  }

  /** The store caps a fetch at 500 rows although the handler accepts limits up to 1000, and a surface
      named twice is fetched twice. */
  lemma AlwaysRightIff(surfaces: seq<string>, limit: nat)
    requires Named(surfaces) && 0 < limit <= 1000
    ensures AlwaysRight(surfaces, limit) <==> limit <= 500 && (limit == 1 || Distinct(surfaces))
  {
    if limit > 500 && Distinct(surfaces) {
      LargeLimitFails(surfaces, limit);
    } else if limit > 1 && !Distinct(surfaces) {
      RepeatedSurfaceFails(surfaces, limit);
    } else {
      SmallLimitHolds(surfaces, limit);
    }
  }

  lemma SmallLimitHolds(surfaces: seq<string>, limit: nat)
    requires Named(surfaces) && 0 < limit <= 500 && (limit == 1 || Distinct(surfaces))
    ensures AlwaysRight(surfaces, limit)
  {
    forall ops, since, before, out | IsTimeline(RowsAfter(ops), surfaces, since, before, limit, out)
      ensures IsFirst(RowsAfter(ops), WantedOf(RowsAfter(ops), surfaces, since, before), limit, out)
    {
      var rows := RowsAfter(ops);
      if surfaces == [] {
        assert WantedOf(rows, surfaces, since, before) == Wanted(rows, "", since, before);
      } else {
        var lists :| Fetched(rows, surfaces, since, before, limit, lists)
                     && out == Cut(Sort(Flatten(lists), TsKey), limit);
        MergeIsFirst(rows, surfaces, since, before, limit, lists);
      }
    }
  }

  // A store of 501 rows of one surface, and what its oldest 500 are.

  function Nth(surface: string, i: int): Engram {
    Engram(i, surface, i, [120], NoMeta)
  }

  function Nths(surface: string, n: nat): (r: seq<Engram>)
    ensures |r| == n && forall i | 0 <= i < n :: r[i] == Nth(surface, i + 1)
  {
    seq(n, i => Nth(surface, i + 1))
  }

  function Full(surface: string, n: nat): Rows {
    map id | 1 <= id <= n :: Nth(surface, id)
  }

  lemma {:induction false} FullSize(surface: string, n: nat)
    ensures |Full(surface, n).Keys| == n
    ensures Numbered(Full(surface, n))
  {
    if n > 0 {
      FullSize(surface, n - 1);
      assert Full(surface, n).Keys == Full(surface, n - 1).Keys + {n};
    }
  }

  /** Such a store comes about: one batch of valid engrams. */
  lemma {:induction false} FullIsInserted(surface: string, n: nat)
    ensures InsertedAll(Db(map[], map[]), Nths(surface, n)).rows == Full(surface, n)
  {
    if n > 0 {
      FullIsInserted(surface, n - 1);
      assert Nths(surface, n)[..n - 1] == Nths(surface, n - 1);
      var before := InsertedAll(Db(map[], map[]), Nths(surface, n - 1));
      var id := NextId(before.rows);
      assert IsNextId(before.rows.Keys, id);
      assert id - 1 in before.rows.Keys || id == 1;
      assert n > 1 ==> n - 1 in before.rows.Keys;
      assert id == n;
    }
  }

  lemma FullIsReachable(surface: string, n: nat)
    requires surface != ""
    ensures RowsAfter([InsertBatch(Nths(surface, n))]) == Full(surface, n)
  {
    FullIsInserted(surface, n);
    var ops, db := [InsertBatch(Nths(surface, n))], Db(map[], map[]);
    forall e | e in Nths(surface, n) ensures ValidEngram(e) {
    }
    assert ops[1..] == [];
    assert ApplyAll(db, ops) == Apply(db, ops[0]);
  }

  lemma OneSurfaceStored(surface: string, n: nat, other: string)
    requires other != ""
    ensures Wanted(Full(surface, n), other, 0, 0) == if other == surface then Full(surface, n).Keys else {}
  {
    if other != surface {
      assert forall id | id in Full(surface, n) :: Full(surface, n)[id].surface != other;
    }
  }

  lemma NthsAreFirst(surface: string, n: nat, k: nat)
    requires k <= n
    ensures IsFirst(Full(surface, n), Full(surface, n).Keys, k, Nths(surface, k))
  {
    FullSize(surface, n);
    var rows, out := Full(surface, n), Nths(surface, k);
    forall id | 1 <= id <= k ensures rows[id] in out {
      assert out[id - 1] == rows[id];
    }
  }

  function OnlyFirst(es: seq<Engram>, n: nat): (r: seq<seq<Engram>>)
    ensures |r| == n && forall i | 0 <= i < n :: r[i] == if i == 0 then es else []
  {
    seq(n, i => if i == 0 then es else [])
  }

  lemma {:induction false} FlattenOnlyFirst(es: seq<Engram>, n: nat)
    requires n > 0
    ensures Flatten(OnlyFirst(es, n)) == es
  {
    assert OnlyFirst(es, n)[..n - 1] == OnlyFirst(es, n - 1);
    if n > 1 {
      FlattenOnlyFirst(es, n - 1);
    }
  }

  lemma OneWrongAnswer(surface: string, n: nat, surfaces: seq<string>, limit: nat, out: seq<Engram>)
    requires surface != "" && IsTimeline(Full(surface, n), surfaces, 0, 0, limit, out)
    requires |out| != Least(limit, |WantedOf(Full(surface, n), surfaces, 0, 0)|) || !NoIdTwice(out)
    ensures !AlwaysRight(surfaces, limit)
  {
    hide IsTimeline, Full, RowsAfter;
    FullIsReachable(surface, n);
    assert !IsFirst(Full(surface, n), WantedOf(Full(surface, n), surfaces, 0, 0), limit, out);
  }

  /** With 501 rows stored, a request for more than 500 gets 500. */
  lemma LargeLimitFails(surfaces: seq<string>, limit: nat)
    requires Named(surfaces) && 500 < limit && Distinct(surfaces)
    ensures !AlwaysRight(surfaces, limit)
  {
    hide AlwaysRight, Fetched, IsFirst, Sort, Flatten, Distinct;
    var surface := if surfaces == [] then "x" else surfaces[0];
    var rows, first := Full(surface, 501), Nths(surface, 500);
    FullSize(surface, 501);
    NthsAreFirst(surface, 501, 500);
    assert WantedOf(rows, surfaces, 0, 0) == rows.Keys;
    if surfaces == [] {
      assert Wanted(rows, "", 0, 0) == rows.Keys;
      OneWrongAnswer(surface, 501, surfaces, limit, first);
    } else {
      var lists := OnlyFirst(first, |surfaces|);
      FetchedFromFull(surfaces, limit, 501);
      FlattenOnlyFirst(first, |surfaces|);
      SortIsSorted(first, TsKey);
      OneWrongAnswer(surface, 501, surfaces, limit, Cut(Sort(Flatten(lists), TsKey), limit));
    }
  }

  lemma FetchedFromFull(surfaces: seq<string>, limit: nat, n: nat)
    requires surfaces != [] && Named(surfaces) && Distinct(surfaces)
    requires ClampedLimit(limit) <= n
    ensures Fetched(Full(surfaces[0], n), surfaces, 0, 0, limit,
                    OnlyFirst(Nths(surfaces[0], ClampedLimit(limit)), |surfaces|))
  {
    var rows, lists := Full(surfaces[0], n), OnlyFirst(Nths(surfaces[0], ClampedLimit(limit)), |surfaces|);
    forall i | 0 <= i < |surfaces|
      ensures IsFirst(rows, Wanted(rows, surfaces[i], 0, 0), ClampedLimit(limit), lists[i])
    {
      assert surfaces[i] in surfaces;
      OneSurfaceStored(surfaces[0], n, surfaces[i]);
      NthsAreFirst(surfaces[0], n, ClampedLimit(limit));
    }
  }

  function OnlyOf(surface: string, surfaces: seq<string>): (r: seq<seq<Engram>>)
    ensures |r| == |surfaces|
    ensures forall k | 0 <= k < |r| :: r[k] == if surfaces[k] == surface then [Nth(surface, 1)] else []
  {
    seq(|surfaces|, k requires 0 <= k < |surfaces| => if surfaces[k] == surface then [Nth(surface, 1)] else [])
  }

  lemma FetchedFromOne(surface: string, surfaces: seq<string>, limit: nat)
    requires Named(surfaces) && limit > 0
    ensures Fetched(Full(surface, 1), surfaces, 0, 0, limit, OnlyOf(surface, surfaces))
  {
    var rows, lists := Full(surface, 1), OnlyOf(surface, surfaces);
    FullSize(surface, 1);
    forall k | 0 <= k < |surfaces|
      ensures IsFirst(rows, Wanted(rows, surfaces[k], 0, 0), ClampedLimit(limit), lists[k])
    {
      assert surfaces[k] in surfaces;
      OneSurfaceStored(surface, 1, surfaces[k]);
      assert rows.Keys == {1};
    }
  }

  /** With one row stored, naming its surface twice gives the row twice. */
  lemma RepeatedSurfaceFails(surfaces: seq<string>, limit: nat)
    requires Named(surfaces) && 1 < limit && !Distinct(surfaces)
    ensures !AlwaysRight(surfaces, limit)
  {
    hide AlwaysRight, Fetched, IsFirst, Sort, Flatten, Wanted, WantedOf, InWindow;
    var i, j :| 0 <= i < j < |surfaces| && surfaces[i] == surfaces[j];
    var surface := surfaces[i];
    var lists := OnlyOf(surface, surfaces);
    FullSize(surface, 1);
    FetchedFromOne(surface, surfaces, limit);
    var sorted := Sort(Flatten(lists), TsKey);
    SortIsSorted(Flatten(lists), TsKey);
    FlattenHolds(lists[..j]);
    assert lists[..j][i] == lists[i];
    FlattenIsLong(lists, j);
    FlattenHolds(lists);
    SameElements(Flatten(lists), sorted);
    var out := Cut(sorted, limit);
    assert out[0] in sorted && out[1] in sorted;
    assert out[0].id == 1 && out[1].id == 1;
    assert surfaces[i] in surfaces;
    OneWrongAnswer(surface, 1, surfaces, limit, out);
  }

  lemma {:induction false} FlattenIsLong(lists: seq<seq<Engram>>, j: nat)
    requires j < |lists|
    ensures |Flatten(lists)| >= |Flatten(lists[..j])| + |lists[j]|
  {
    if j < |lists| - 1 {
      FlattenIsLong(lists[..|lists| - 1], j);
      assert lists[..|lists| - 1][..j] == lists[..j];
    }
  }
}
