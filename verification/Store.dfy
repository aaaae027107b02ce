/** The store's write paths and counting queries, in place on the two tables. */
module Store {
  import opened Engrams
  import opened StoreCounters

  datatype Error = InvalidEngram | NotFound | SurfaceRequired | Database

  /** Where the database may fail a batch: before its first row, at a row, or at the commit. */
  datatype Fault = NoFault | AtBegin | AtPrepare | AtRow(i: nat) | AtCommit

  predicate Hits(fault: Fault, rows: nat) {
    fault != NoFault && (fault.AtRow? ==> fault.i < rows)
  }

  lemma NextIdUnique(keys: set<int>, a: int, b: int)
    requires IsNextId(keys, a) && IsNextId(keys, b)
    ensures a == b
  {
    assert a != 1 ==> a - 1 in keys;
    assert b != 1 ==> b - 1 in keys;
  }

  /** The rows of a batch stand beside the old ones, in order, under ids larger than any before. */
  ghost predicate Appended(was: Rows, now: Rows, batch: seq<Engram>, ids: seq<int>) {
    && |ids| == |batch|
    && (forall k | k in now :: k in was || k in ids)
    && (forall i, k | 0 <= i < |ids| && k in was :: k < ids[i])
    && (forall i, j | 0 <= i < j < |ids| :: ids[i] < ids[j])
    && (forall k | k in was :: k in now && now[k] == was[k])
    && (forall i | 0 <= i < |ids| :: ids[i] in now && now[ids[i]] == batch[i].(id := ids[i]))
  }

  lemma RowIsAppended(was: Rows, db: Db, batch: seq<Engram>, ids: seq<int>, e: Engram)
    requires Numbered(db.rows) && Appended(was, db.rows, batch, ids)
    ensures Appended(was, Inserted(db, e).rows, batch + [e], ids + [NextId(db.rows)])
  {
    hide IsNextId;
    var id, now := NextId(db.rows), Inserted(db, e).rows;
    NextIsLarger(db.rows);
    assert now == db.rows[id := e.(id := id)];
    assert forall i | 0 <= i < |ids| :: ids[i] < id;
    var all := ids + [id];
    forall i | 0 <= i < |all|
      ensures all[i] in now && now[all[i]] == (batch + [e])[i].(id := all[i])
    {
      if i < |ids| {
        assert ids[i] in db.rows;
      }
    }
  }

  lemma NextIsLarger(rows: Rows)
    requires Numbered(rows)
    ensures forall k | k in rows :: k < NextId(rows)
  {
  }

  lemma {:induction false} BatchIsAppended(db: Db, batch: seq<Engram>) returns (ids: seq<int>)
    requires Numbered(db.rows)
    ensures Appended(db.rows, InsertedAll(db, batch).rows, batch, ids)
  {
    ids := [];
    if batch != [] {
      hide Appended, Inserted;
      var n := |batch| - 1;
      ids := BatchIsAppended(db, batch[..n]);
      RowIsAppended(db.rows, InsertedAll(db, batch[..n]), batch[..n], ids, batch[n]);
      ids := ids + [NextId(InsertedAll(db, batch[..n]).rows)];
      assert batch[..n] + [batch[n]] == batch;
    }
  }

  lemma PurgedAre(rows: Rows, surface: string, before: int)
    ensures forall id :: id in Purged(rows, surface, before) <==>
              id in rows && rows[id].surface == surface && (before <= 0 || rows[id].ts < before)
  {
  }

  /** What a plain COUNT(*) over the rows would return. */
  function Matching(rows: Rows, surface: string, since: int): set<int> {
    set id | id in rows && (surface != "" ==> rows[id].surface == surface) && (since > 0 ==> rows[id].ts > since)
  }

  class Store {
    var rows: Rows
    var counts: map<string, int>

    ghost function View(): Db
      reads this
    {
      Db(rows, counts)
    }

    ghost predicate Valid()
      reads this
    {
      Numbered(rows)
    }

    /** A new database. */
    constructor ()
      ensures Valid() && View() == Db(map[], map[]) && Agree(View())
    {
      rows, counts := map[], map[];
      new;
      CountersAlwaysAgree([]);
    }

    method FreshId() returns (id: int)
      requires Valid()
      ensures IsNextId(rows.Keys, id)
    {
      id := 1;
      var rest := rows;
      while |rest| > 0
        invariant rest.Keys <= rows.Keys
        invariant id > 0 && (id == 1 || id - 1 in rows)
        invariant forall k | k in rows && k !in rest :: k < id
        decreases |rest|
      {
        ghost var some := Pick(rest.Keys);
        var k :| k in rest;
        if k >= id {
          id := k + 1;
        }
        assert (rest - {k}).Keys == rest.Keys - {k};
        rest := rest - {k};
      }
    }

    /** One row and its AFTER INSERT trigger; the row's id comes back. */
    method AddRow(e: Engram) returns (id: int)
      requires Valid()
      modifies this
      ensures Valid() && View() == Inserted(old(View()), e)
      ensures id > 0 && id !in old(rows) && rows == old(rows)[id := e.(id := id)]
    {
      id := FreshId();
      NextIdUnique(rows.Keys, id, NextId(rows));
      rows := rows[id := e.(id := id)];
      counts := CountUp(counts, e.surface);
    }

    method Insert(e: Engram, fault: bool) returns (id: int, err: Option<Error>)
      requires Valid()
      modifies this
      ensures Valid()
      ensures err == Some(InvalidEngram) <==>
                e.surface == "" || e.ts == 0 || e.payload == [] || |e.payload| > 8_388_608
      ensures err == if !ValidEngram(e) then Some(InvalidEngram) else if fault then Some(Database) else None
      ensures err == None ==> View() == Apply(old(View()), Op.Insert(e)) == Inserted(old(View()), e)
      ensures err == None ==> id > 0 && id !in old(rows) && rows == old(rows)[id := e.(id := id)]
      ensures err != None ==> id == 0 && View() == old(View())
    {
      if !ValidEngram(e) {
        return 0, Some(InvalidEngram);
      }
      if fault {
        return 0, Some(Database);
      }
      id := AddRow(e);
      return id, None;
    }

    /** All rows of the batch, in order, or none: a row that fails validation stops the batch before the
        transaction, and a failure anywhere in the transaction, its commit included, rolls it back. */
    method InsertBatch(batch: seq<Engram>, fault: Fault) returns (err: Option<Error>)
      requires Valid()
      modifies this
      ensures Valid()
      ensures err == None ==> View() == Apply(old(View()), Op.InsertBatch(batch)) == InsertedAll(old(View()), batch)
      ensures err == None ==> exists ids :: Appended(old(rows), rows, batch, ids)
      ensures err != None ==> View() == old(View())
      ensures err == Some(InvalidEngram) <==>
                exists i | 0 <= i < |batch| :: batch[i].surface == "" || batch[i].ts == 0 || batch[i].payload == []
                                               || |batch[i].payload| > 8_388_608
      ensures err == if exists i | 0 <= i < |batch| :: !ValidEngram(batch[i]) then Some(InvalidEngram)
                     else if batch != [] && Hits(fault, |batch|) then Some(Database)
                     else None
    {
      hide Inserted, Agree;
      ghost var ids := BatchIsAppended(View(), batch);
      if |batch| == 0 {
        return None;
      }
      for i := 0 to |batch|
        invariant View() == old(View())
        invariant forall k | 0 <= k < i :: ValidEngram(batch[k])
      {
        if !ValidEngram(batch[i]) {
          return Some(InvalidEngram);
        }
      }
      if fault == AtBegin || fault == AtPrepare {
        return Some(Database);
      }
      var before := (rows, counts);
      assert batch[..0] == [];
      for i := 0 to |batch|
        invariant Valid()
        invariant View() == InsertedAll(old(View()), batch[..i])
        invariant fault.AtRow? ==> fault.i >= i
      {
        if fault == AtRow(i) {
          rows, counts := before.0, before.1;
          return Some(Database);
        }
        var id := AddRow(batch[i]);
        assert batch[..i + 1][..i] == batch[..i];
      }
      assert batch[..|batch|] == batch;
      if fault == AtCommit {
        rows, counts := before.0, before.1;
        return Some(Database);
      }
      return None;
    }

    /** One row and its AFTER DELETE trigger. */
    method RemoveRow(id: int)
      requires Valid() && id in rows
      modifies this
      ensures Valid() && View() == Deleted(old(View()), id)
    {
      counts := CountDown(counts, rows[id].surface);
      rows := rows - {id};
    }

    method DeleteByID(id: int) returns (err: Option<Error>)
      requires Valid()
      modifies this
      ensures Valid() && View() == Apply(old(View()), Delete(id))
      ensures rows.Keys == old(rows).Keys - {id} && forall k | k in rows :: rows[k] == old(rows)[k]
      ensures err == if id in old(rows) then None else Some(NotFound)
    {
      if id !in rows {
        return Some(NotFound);
      }
      RemoveRow(id);
      return None;
    }

    /** Deletes exactly the rows of the surface older than `before` (all of them when it is 0), keeps the
        counters right, and says how many. */
    method Purge(surface: string, before: int) returns (n: nat, err: Option<Error>)
      requires Valid()
      modifies this
      ensures Valid()
      ensures surface == "" ==> err == Some(SurfaceRequired) && View() == old(View())
      ensures surface != "" ==>
                && err == None && n == |Purged(old(rows), surface, before)|
                && rows == old(rows) - Purged(old(rows), surface, before)
      ensures surface != "" ==>
                forall id | id in old(rows) ::
                  id in rows <==> old(rows)[id].surface != surface || (before > 0 && old(rows)[id].ts >= before)
      ensures rows.Keys <= old(rows).Keys && forall id | id in rows :: rows[id] == old(rows)[id]
      ensures Agree(old(View())) ==> Agree(View())
    {
      hide Agree, CountDown, Purged;
      PurgedAre(rows, surface, before);
      if surface == "" {
        return 0, Some(SurfaceRequired);
      }
      var doomed := Purged(rows, surface, before);
      n := 0;
      assert rows - {} == rows;
      var rest := doomed;
      while |rest| > 0
        invariant Valid() && rest <= doomed
        invariant rows == old(rows) - (doomed - rest)
        invariant n + |rest| == |doomed|
        invariant Agree(old(View())) ==> Agree(View())
        decreases |rest|
      {
        ghost var some := Pick(rest);
        var id :| id in rest;
        if Agree(View()) {
          DeleteAgrees(View(), id);
        }
        RemoveRow(id);
        n := n + 1;
        assert doomed - (rest - {id}) == (doomed - rest) + {id};
        rest := rest - {id};
      }
      assert doomed - rest == doomed;
      return n, None;
    }

    method UpdateMeta(id: int, meta: Meta) returns (err: Option<Error>)
      requires Valid()
      modifies this`rows
      ensures Valid() && View() == Apply(old(View()), Op.UpdateMeta(id, meta))
      ensures rows == if id in old(rows) then old(rows)[id := old(rows)[id].(meta := meta)] else old(rows)
      ensures err == if id in old(rows) then None else Some(NotFound)
    {
      if id !in rows {
        return Some(NotFound);
      }
      rows := rows[id := rows[id].(meta := meta)];
      return None;
    }

    /** An undisturbed backfillCounts. */
    method BackfillCounts()
      requires Valid()
      modifies this`counts
      ensures Valid() && View() == Apply(old(View()), Backfill([]))
      ensures Agree(View()) <==> old(counts) == map[] || Agree(old(View()))
    {
      UndisturbedBackfillHealsIff(View());
      if |counts| > 0 {
        return;
      }
      counts := counts + map s | s in Surfaces(rows) :: |OfSurface(rows, s)|;
    }

    // ----- Queries -----

    /** SELECT SUM(n). */
    method SumCounters() returns (n: int)
      ensures n == Sum(counts)
    {
      n := 0;
      var rest := counts;
      while |rest| > 0
        invariant n + Sum(rest) == Sum(counts)
        decreases |rest|
      {
        ghost var some := Pick(rest.Keys);
        var s :| s in rest;
        SumWithout(rest, s);
        assert (rest - {s}).Keys == rest.Keys - {s};
        n := n + rest[s];
        rest := rest - {s};
      }
    }

    method Count() returns (n: int)
      requires Valid()
      ensures Agree(View()) ==> n == |rows|
    {
      n := SumCounters();
      if Agree(View()) {
        SumIsTotal(View());
      }
    }

    method CountBySurface() returns (out: map<string, int>)
      requires Valid()
      ensures Agree(View()) ==> forall id | id in rows :: rows[id].surface in out
      ensures Agree(View()) ==>
                forall s | s in out :: out[s] == |set id | id in rows && rows[id].surface == s| > 0
    {
      out := map s | s in counts && counts[s] > 0 :: counts[s];
      if Agree(View()) {
        forall s: string ensures s in out <==> s in Surfaces(rows) {
          NonEmptySurface(View(), s);
        }
        forall s | s in out ensures out[s] == |set id | id in rows && rows[id].surface == s| > 0 {
          assert CountOf(counts, s) == |OfSurface(rows, s)|;
          assert OfSurface(rows, s) == set id | id in rows && rows[id].surface == s;
        }
      }
    }

    /** All four branches return what counting the matching rows would. */
    method CountEngrams(surface: string, since: int) returns (n: int)
      requires Valid()
      ensures Agree(View()) || since > 0 ==>
                n == |set id | id in rows && (surface == "" || rows[id].surface == surface)
                               && (since <= 0 || rows[id].ts > since)|
    {
      assert Matching(rows, surface, since)
          == set id | id in rows && (surface == "" || rows[id].surface == surface)
                      && (since <= 0 || rows[id].ts > since);
      if surface != "" && since > 0 {
        n := |Matching(rows, surface, since)|;
      } else if surface != "" {
        n := CountOf(counts, surface);
        assert Matching(rows, surface, since) == OfSurface(rows, surface);
      } else if since > 0 {
        n := |Matching(rows, surface, since)|;
      } else {
        n := SumCounters();
        assert Matching(rows, surface, since) == rows.Keys;
        if Agree(View()) {
          SumIsTotal(View());
        }
      }
    }
  }

  lemma NonEmptySurface(db: Db, s: string)
    requires Agree(db)
    ensures s in db.counts && db.counts[s] > 0 <==> s in Surfaces(db.rows)
    ensures s in db.counts ==> db.counts[s] == |OfSurface(db.rows, s)|
  {
    assert CountOf(db.counts, s) == |OfSurface(db.rows, s)|;
    if s in Surfaces(db.rows) {
      var id :| id in db.rows && db.rows[id].surface == s;
      assert id in OfSurface(db.rows, s);
    } else {
      NoRowsOf(db.rows, s);
    }
  }
}
