/** The engrams table with its trigger-maintained per-surface counters, as values: what every write does
    to both, and when the counters tell the truth. */
module StoreCounters {
  import opened Engrams

  type Rows = map<int, Engram>

  datatype Db = Db(rows: Rows, counts: map<string, int>)

  datatype Op =
    | Insert(e: Engram)
    | InsertBatch(batch: seq<Engram>)
    | Delete(id: int)
    | Purge(surface: string, before: int)
    | UpdateMeta(id: int, meta: Meta)
    | Backfill(between: seq<Op>)     // what other writers do between the probe and the scan

  function ValidEngram(e: Engram): bool {
    e.surface != "" && e.ts != 0 && e.payload != [] && |e.payload| <= MAX_PAYLOAD_BYTES
  }

  /** The id SQLite gives to a new row: one more than the largest. */
  ghost predicate IsNextId(keys: set<int>, id: int) {
    && id > 0
    && (forall k | k in keys :: k < id)
    && (id == 1 || id - 1 in keys)
  }

  lemma {:induction false} NextIdExists(keys: set<int>)
    requires forall k | k in keys :: k > 0
    ensures exists id :: IsNextId(keys, id)
  {
    if keys != {} {
      var k := Pick(keys);
      NextIdExists(keys - {k});
      var id :| IsNextId(keys - {k}, id);
      var top := if k >= id then k + 1 else id;
      forall j | j in keys ensures j < top {
        assert j != k ==> j in keys - {k};
      }
      assert IsNextId(keys, top);
    } else {
      assert IsNextId({}, 1);
    }
  }

  ghost predicate Numbered(rows: Rows) {
    forall id | id in rows :: id > 0 && rows[id].id == id
  }

  ghost function NextId(rows: Rows): (id: int)
    requires Numbered(rows)
    ensures IsNextId(rows.Keys, id)
  {
    NextIdExists(rows.Keys);
    var id :| IsNextId(rows.Keys, id);
    id
  }

  /** The AFTER INSERT and AFTER DELETE triggers. */
  function CountUp(counts: map<string, int>, surface: string): map<string, int> {
    counts[surface := if surface in counts then counts[surface] + 1 else 1]
  }

  function CountDown(counts: map<string, int>, surface: string): map<string, int> {
    if surface in counts then counts[surface := counts[surface] - 1] else counts
  }

  ghost function Inserted(db: Db, e: Engram): Db
    requires Numbered(db.rows)
  {
    var id := NextId(db.rows);
    Db(db.rows[id := e.(id := id)], CountUp(db.counts, e.surface))
  }

  lemma InsertedNumbered(db: Db, e: Engram)
    requires Numbered(db.rows)
    ensures Numbered(Inserted(db, e).rows)
  {
  }

  ghost function InsertedAll(db: Db, batch: seq<Engram>): (r: Db)
    requires Numbered(db.rows)
    ensures Numbered(r.rows)
  {
    if batch == [] then db
    else Inserted(InsertedAll(db, batch[..|batch| - 1]), batch[|batch| - 1])
  }

  function Deleted(db: Db, id: int): Db {
    if id in db.rows then Db(db.rows - {id}, CountDown(db.counts, db.rows[id].surface)) else db
  }

  ghost function DeletedAll(db: Db, ids: set<int>): Db
    decreases ids
  {
    if ids == {} then db
    else
      var id := Pick(ids);
      DeletedAll(Deleted(db, id), ids - {id})
  }

  function Purged(rows: Rows, surface: string, before: int): set<int> {
    set id | id in rows && rows[id].surface == surface && (before > 0 ==> rows[id].ts < before)
  }

  function OfSurface(rows: Rows, surface: string): set<int> {
    set id | id in rows && rows[id].surface == surface
  }

  function Surfaces(rows: Rows): set<string> {
    set id | id in rows :: rows[id].surface
  }

  /** SELECT surface, COUNT(*) ... GROUP BY surface, written over what is there. */
  function Scanned(db: Db): Db {
    db.(counts := db.counts + map s | s in Surfaces(db.rows) :: |OfSurface(db.rows, s)|)
  }

  ghost function Apply(db: Db, op: Op): (r: Db)
    requires Numbered(db.rows)
    ensures Numbered(r.rows)
    decreases op
  {
    match op
    case Insert(e) => if ValidEngram(e) then InsertedNumbered(db, e); Inserted(db, e) else db
    case InsertBatch(batch) => if forall e | e in batch :: ValidEngram(e) then InsertedAll(db, batch) else db
    case Delete(id) => Deleted(db, id)
    case Purge(surface, before) =>
      if surface == "" then db
      else
        DeletedAllIs(db, Purged(db.rows, surface, before));
        DeletedAll(db, Purged(db.rows, surface, before))
    case UpdateMeta(id, meta) => if id in db.rows then db.(rows := db.rows[id := db.rows[id].(meta := meta)]) else db
    case Backfill(between) =>
      var db1 := ApplyAll(db, between);
      if db.counts == map[] then Scanned(db1) else db1
  }

  ghost function ApplyAll(db: Db, ops: seq<Op>): (r: Db)
    requires Numbered(db.rows)
    ensures Numbered(r.rows)
    decreases ops
  {
    if ops == [] then db else ApplyAll(Apply(db, ops[0]), ops[1..])
  }

  lemma {:induction false} DeletedAllIs(db: Db, ids: set<int>)
    requires ids <= db.rows.Keys
    ensures DeletedAll(db, ids).rows == db.rows - ids
    decreases ids
  {
    if ids != {} {
      var id := Pick(ids);
      DeletedAllIs(Deleted(db, id), ids - {id});
      assert db.rows - {id} - (ids - {id}) == db.rows - ids;
    } else {
      assert db.rows - {} == db.rows;
    }
  }

  // ----- Agreement -----

  function CountOf(counts: map<string, int>, surface: string): int {
    if surface in counts then counts[surface] else 0
  }

  /** Each counter is the number of rows of its surface. */
  ghost predicate Agree(db: Db) {
    forall s: string :: CountOf(db.counts, s) == |OfSurface(db.rows, s)|
  }

  lemma InsertAgrees(db: Db, e: Engram)
    requires Numbered(db.rows) && Agree(db)
    ensures Agree(Inserted(db, e))
  {
    var id, db1 := NextId(db.rows), Inserted(db, e);
    forall s: string ensures CountOf(db1.counts, s) == |OfSurface(db1.rows, s)| {
      assert CountOf(db.counts, s) == |OfSurface(db.rows, s)|;
      assert OfSurface(db1.rows, s) == OfSurface(db.rows, s) + if s == e.surface then {id} else {};
    }
  }

  lemma {:induction false} InsertAllAgrees(db: Db, batch: seq<Engram>)
    requires Numbered(db.rows) && Agree(db)
    ensures Agree(InsertedAll(db, batch))
  {
    hide Agree, Inserted;
    if batch != [] {
      InsertAllAgrees(db, batch[..|batch| - 1]);
      InsertAgrees(InsertedAll(db, batch[..|batch| - 1]), batch[|batch| - 1]);
    }
  }

  lemma DeleteCount(db: Db, id: int, s: string)
    requires id in db.rows && CountOf(db.counts, s) == |OfSurface(db.rows, s)|
    ensures CountOf(Deleted(db, id).counts, s) == |OfSurface(Deleted(db, id).rows, s)|
  {
    var gone := if s == db.rows[id].surface then {id} else {};
    assert OfSurface(db.rows - {id}, s) == OfSurface(db.rows, s) - gone;
    assert gone <= OfSurface(db.rows, s);
  }

  lemma DeleteAgrees(db: Db, id: int)
    requires Agree(db)
    ensures Agree(Deleted(db, id))
  {
    hide OfSurface, CountOf;
    if id in db.rows {
      forall s: string ensures CountOf(Deleted(db, id).counts, s) == |OfSurface(Deleted(db, id).rows, s)| {
        DeleteCount(db, id, s);
      }
    }
  }

  lemma {:induction false} DeleteAllAgrees(db: Db, ids: set<int>)
    requires Agree(db)
    ensures Agree(DeletedAll(db, ids))
    decreases ids
  {
    hide Agree, Deleted;
    if ids != {} {
      var id := Pick(ids);
      DeleteAgrees(db, id);
      DeleteAllAgrees(Deleted(db, id), ids - {id});
    }
  }

  lemma UpdateAgrees(db: Db, id: int, meta: Meta)
    requires Numbered(db.rows) && Agree(db) && id in db.rows
    ensures Agree(Apply(db, UpdateMeta(id, meta)))
  {
    var db1 := Apply(db, UpdateMeta(id, meta));
    forall s: string ensures CountOf(db1.counts, s) == |OfSurface(db1.rows, s)| {
      assert CountOf(db.counts, s) == |OfSurface(db.rows, s)|;
      assert OfSurface(db1.rows, s) == OfSurface(db.rows, s);
    }
  }

  /** A surface has a counter or no rows, and counters left over from emptied surfaces are zero. */
  ghost predicate NoStrayCounter(db: Db) {
    forall s | s in db.counts && s !in Surfaces(db.rows) :: db.counts[s] == 0
  }

  lemma ScannedCount(db: Db, s: string)
    ensures CountOf(Scanned(db).counts, s) == if s in Surfaces(db.rows) then |OfSurface(db.rows, s)| else CountOf(db.counts, s)
  {
  }

  lemma NoRowsOf(rows: Rows, s: string)
    requires s !in Surfaces(rows)
    ensures OfSurface(rows, s) == {}
  {
    forall id | id in rows ensures rows[id].surface != s {
      assert rows[id].surface in Surfaces(rows);
    }
  }

  /** The scan makes the counters right exactly when no surface without rows has a non-zero counter. */
  lemma ScanAgreesIff(db: Db)
    ensures Agree(Scanned(db)) <==> NoStrayCounter(db)
  {
    hide OfSurface, Surfaces, CountOf;
    var db1 := Scanned(db);
    assert db1.rows == db.rows;
    if NoStrayCounter(db) {
      forall s: string ensures CountOf(db1.counts, s) == |OfSurface(db1.rows, s)| {
        ScannedCount(db, s);
        if s !in Surfaces(db.rows) {
          NoRowsOf(db.rows, s);
          StrayCount(db, s);
        }
      }
    } else {
      var s :| s in db.counts && s !in Surfaces(db.rows) && db.counts[s] != 0;
      ScannedCount(db, s);
      NoRowsOf(db.rows, s);
      CountInMap(db.counts, s);
      NotAgree(db1, s);
    }
  }

  lemma CountInMap(counts: map<string, int>, s: string)
    requires s in counts
    ensures CountOf(counts, s) == counts[s]
  {
  }

  lemma StrayCount(db: Db, s: string)
    requires NoStrayCounter(db) && s !in Surfaces(db.rows)
    ensures CountOf(db.counts, s) == 0
  {
  }

  lemma AgreeMeansNoStray(db: Db)
    requires Agree(db)
    ensures NoStrayCounter(db)
  {
    forall s | s in db.counts && s !in Surfaces(db.rows) ensures db.counts[s] == 0 {
      assert CountOf(db.counts, s) == |OfSurface(db.rows, s)|;
      NoRowsOf(db.rows, s);
    }
  }

  /** Once right, the counters stay right through every operation, reopening included. */
  lemma {:induction false} OpKeepsAgreement(db: Db, op: Op)
    requires Numbered(db.rows) && Agree(db)
    ensures Agree(Apply(db, op))
    decreases op
  {
    hide Agree, Inserted, Deleted, Scanned;
    match op {
      case Insert(e) => if ValidEngram(e) { InsertAgrees(db, e); }
      case InsertBatch(batch) => InsertAllAgrees(db, batch);
      case Delete(id) => DeleteAgrees(db, id);
      case Purge(surface, before) => DeleteAllAgrees(db, Purged(db.rows, surface, before));
      case UpdateMeta(id, meta) => if id in db.rows { UpdateAgrees(db, id, meta); }
      case Backfill(between) =>
        OpsKeepAgreement(db, between);
        var db1 := ApplyAll(db, between);
        AgreeMeansNoStray(db1);
        ScanAgreesIff(db1);
    }
  }

  lemma {:induction false} OpsKeepAgreement(db: Db, ops: seq<Op>)
    requires Numbered(db.rows) && Agree(db)
    ensures Agree(ApplyAll(db, ops))
    decreases ops
  {
    hide Agree, Apply;
    if ops != [] {
      OpKeepsAgreement(db, ops[0]);
      OpsKeepAgreement(Apply(db, ops[0]), ops[1..]);
    }
  }

  /** On a store created with the counters, they are right after every run. */
  lemma CountersAlwaysAgree(ops: seq<Op>)
    ensures Agree(ApplyAll(Db(map[], map[]), ops))
  {
    forall s: string ensures CountOf(map[], s) == |OfSurface(map[], s)| {
      assert OfSurface(map[], s) == {};
    }
    OpsKeepAgreement(Db(map[], map[]), ops);
  }

  // ----- Upgrading a store that has rows and no counters -----

  /** Opening such a store heals it, whatever other writers insert between the probe and the scan. */
  lemma BackfillHealsDespiteInserts(rows: Rows, between: seq<Op>)
    requires Numbered(rows)
    requires forall op | op in between :: op.Insert? || op.InsertBatch?
    ensures Agree(Apply(Db(rows, map[]), Backfill(between)))
  {
    hide Agree, Scanned;
    InsertsLeaveNoStray(Db(rows, map[]), between);
    ScanAgreesIff(ApplyAll(Db(rows, map[]), between));
  }

  ghost predicate CountersHaveRows(db: Db) {
    db.counts.Keys <= Surfaces(db.rows)
  }

  lemma InsertLeavesNoStray(db: Db, e: Engram)
    requires Numbered(db.rows) && CountersHaveRows(db)
    ensures CountersHaveRows(Inserted(db, e))
  {
    var id, db1 := NextId(db.rows), Inserted(db, e);
    assert db1.rows[id].surface == e.surface;
    forall s | s in db1.counts ensures s in Surfaces(db1.rows) {
      if s != e.surface {
        var k :| k in db.rows && db.rows[k].surface == s;
        assert k in db1.rows && db1.rows[k] == db.rows[k];
      }
    }
  }

  lemma {:induction false} BatchLeavesNoStray(db: Db, batch: seq<Engram>)
    requires Numbered(db.rows) && CountersHaveRows(db)
    ensures CountersHaveRows(InsertedAll(db, batch))
  {
    hide CountersHaveRows, Inserted;
    if batch != [] {
      BatchLeavesNoStray(db, batch[..|batch| - 1]);
      InsertLeavesNoStray(InsertedAll(db, batch[..|batch| - 1]), batch[|batch| - 1]);
    }
  }

  lemma {:induction false} InsertsLeaveNoStray(db: Db, ops: seq<Op>)
    requires Numbered(db.rows) && CountersHaveRows(db)
    requires forall op | op in ops :: op.Insert? || op.InsertBatch?
    ensures CountersHaveRows(ApplyAll(db, ops))
    ensures NoStrayCounter(ApplyAll(db, ops))
    decreases ops
  {
    hide Inserted, InsertedAll;
    if ops != [] {
      assert ops[0] in ops;
      if ops[0].Insert? {
        InsertLeavesNoStray(db, ops[0].e);
      } else {
        BatchLeavesNoStray(db, ops[0].batch);
      }
      InsertsLeaveNoStray(Apply(db, ops[0]), ops[1..]);
    }
  }

  /** With arbitrary interference between probe and scan, the open leaves right counters exactly when no
      surface that has no rows at the scan has a non-zero counter. */
  lemma BackfillHealsIff(rows: Rows, between: seq<Op>)
    requires Numbered(rows)
    ensures Agree(Apply(Db(rows, map[]), Backfill(between)))
       <==> NoStrayCounter(ApplyAll(Db(rows, map[]), between))
  {
    hide Agree, Scanned, NoStrayCounter;
    ScanAgreesIff(ApplyAll(Db(rows, map[]), between));
  }

  /** An undisturbed open heals exactly a store whose counter table is empty or already right. */
  lemma UndisturbedBackfillHealsIff(db: Db)
    requires Numbered(db.rows)
    ensures Agree(Apply(db, Backfill([]))) <==> db.counts == map[] || Agree(db)
  {
    hide Agree, Scanned;
    assert ApplyAll(db, []) == db;
    if db.counts == map[] {
      BackfillHealsDespiteInserts(db.rows, []);
    }
  }

  // ----- A populated counter table -----

  /** By how much the counter of a surface falls short of its rows. */
  function Drift(db: Db, s: string): int {
    |OfSurface(db.rows, s)| - CountOf(db.counts, s)
  }

  lemma InsertKeepsDrift(db: Db, e: Engram, s: string)
    requires Numbered(db.rows) && s in db.counts
    ensures s in Inserted(db, e).counts && Drift(Inserted(db, e), s) == Drift(db, s)
  {
    var id, db1 := NextId(db.rows), Inserted(db, e);
    assert OfSurface(db1.rows, s) == OfSurface(db.rows, s) + if s == e.surface then {id} else {};
  }

  lemma {:induction false} InsertAllKeepsDrift(db: Db, batch: seq<Engram>, s: string)
    requires Numbered(db.rows) && s in db.counts
    ensures s in InsertedAll(db, batch).counts && Drift(InsertedAll(db, batch), s) == Drift(db, s)
  {
    hide Inserted, Drift;
    if batch != [] {
      InsertAllKeepsDrift(db, batch[..|batch| - 1], s);
      InsertKeepsDrift(InsertedAll(db, batch[..|batch| - 1]), batch[|batch| - 1], s);
    }
  }

  lemma DeleteKeepsDrift(db: Db, id: int, s: string)
    requires s in db.counts
    ensures s in Deleted(db, id).counts && Drift(Deleted(db, id), s) == Drift(db, s)
  {
    if id in db.rows {
      var gone := if s == db.rows[id].surface then {id} else {};
      assert OfSurface(db.rows - {id}, s) == OfSurface(db.rows, s) - gone;
      assert gone <= OfSurface(db.rows, s);
    }
  }

  lemma {:induction false} DeleteAllKeepsDrift(db: Db, ids: set<int>, s: string)
    requires s in db.counts
    ensures s in DeletedAll(db, ids).counts && Drift(DeletedAll(db, ids), s) == Drift(db, s)
    decreases ids
  {
    hide Deleted, Drift;
    if ids != {} {
      var id := Pick(ids);
      DeleteKeepsDrift(db, id, s);
      DeleteAllKeepsDrift(Deleted(db, id), ids - {id}, s);
    }
  }

  lemma UpdateKeepsDrift(db: Db, id: int, meta: Meta, s: string)
    requires Numbered(db.rows) && id in db.rows
    ensures Drift(Apply(db, UpdateMeta(id, meta)), s) == Drift(db, s)
  {
    assert OfSurface(Apply(db, UpdateMeta(id, meta)).rows, s) == OfSurface(db.rows, s);
  }

  /** No operation, reopening included, brings an existing counter closer to its rows or further away. */
  lemma {:induction false} OpKeepsDrift(db: Db, op: Op, s: string)
    requires Numbered(db.rows) && s in db.counts
    ensures s in Apply(db, op).counts && Drift(Apply(db, op), s) == Drift(db, s)
    decreases op
  {
    hide Drift, Inserted, Deleted, Scanned;
    match op {
      case Insert(e) => if ValidEngram(e) { InsertKeepsDrift(db, e, s); }
      case InsertBatch(batch) => InsertAllKeepsDrift(db, batch, s);
      case Delete(id) => DeleteKeepsDrift(db, id, s);
      case Purge(surface, before) => DeleteAllKeepsDrift(db, Purged(db.rows, surface, before), s);
      case UpdateMeta(id, meta) => if id in db.rows { UpdateKeepsDrift(db, id, meta, s); }
      case Backfill(between) => OpsKeepDrift(db, between, s);
    }
  }

  lemma {:induction false} OpsKeepDrift(db: Db, ops: seq<Op>, s: string)
    requires Numbered(db.rows) && s in db.counts
    ensures s in ApplyAll(db, ops).counts && Drift(ApplyAll(db, ops), s) == Drift(db, s)
    decreases ops
  {
    hide Drift, Apply;
    if ops != [] {
      OpKeepsDrift(db, ops[0], s);
      OpsKeepDrift(Apply(db, ops[0]), ops[1..], s);
    }
  }

  ghost function Deletes(ids: set<int>): seq<Op> {
    if ids == {} then []
    else
      var id := Pick(ids);
      [Delete(id)] + Deletes(ids - {id})
  }

  /** Deleting rows whose surfaces have no counter leaves the counters alone. */
  lemma {:induction false} DeletesAreSilent(db: Db, ids: set<int>)
    requires Numbered(db.rows)
    requires forall id | id in ids :: id in db.rows && db.rows[id].surface !in db.counts
    ensures ApplyAll(db, Deletes(ids)) == Db(db.rows - ids, db.counts)
    decreases ids
  {
    if ids == {} {
      assert db.rows - {} == db.rows;
    } else {
      var id := Pick(ids);
      var db1 := Apply(db, Delete(id));
      assert db1 == Db(db.rows - {id}, db.counts);
      DeletesAreSilent(db1, ids - {id});
      assert db.rows - {id} - (ids - {id}) == db.rows - ids;
      assert Deletes(ids)[1..] == Deletes(ids - {id});
    }
  }

  /** The counters there are, are right; others may be missing. */
  ghost predicate CountersRight(db: Db) {
    forall s | s in db.counts :: db.counts[s] == |OfSurface(db.rows, s)|
  }

  /** Once the counter table is populated, some later run makes it right if and only if none of its counters
      is wrong: a wrong one stays wrong in every later run, whatever is written and however often the store
      is opened. */
  lemma PopulatedTableHealsIff(db: Db)
    requires Numbered(db.rows) && db.counts != map[]
    ensures (exists ops :: Agree(ApplyAll(db, ops))) <==> CountersRight(db)
  {
    if ops :| Agree(ApplyAll(db, ops)) {
      forall s | s in db.counts ensures db.counts[s] == |OfSurface(db.rows, s)| {
        OpsKeepDrift(db, ops, s);
        var db1 := ApplyAll(db, ops);
        assert CountOf(db1.counts, s) == |OfSurface(db1.rows, s)|;
      }
    }
    if CountersRight(db) {
      var uncounted := set id | id in db.rows && db.rows[id].surface !in db.counts;
      DeletesAreSilent(db, uncounted);
      WithoutUncounted(db, uncounted);
    }
  }

  lemma WithoutUncounted(db: Db, uncounted: set<int>)
    requires CountersRight(db)
    requires uncounted == set id | id in db.rows && db.rows[id].surface !in db.counts
    ensures Agree(Db(db.rows - uncounted, db.counts))
  {
    forall s: string ensures CountOf(db.counts, s) == |OfSurface(db.rows - uncounted, s)| {
      assert OfSurface(db.rows - uncounted, s) == if s in db.counts then OfSurface(db.rows, s) else {};
    }
  }

  /** A backfill that failed on a store, and one insert. The next open leaves right counters if and only if
      the store was empty; and no later run whatever leaves right ones if and only if the inserted row's
      surface had rows already. */
  lemma FailedBackfillIsPermanentIff(rows: Rows, e: Engram)
    requires Numbered(rows) && ValidEngram(e)
    ensures var db := Apply(Db(rows, map[]), Insert(e));
            && (Agree(Apply(db, Backfill([]))) <==> rows == map[])
            && ((forall ops :: !Agree(ApplyAll(db, ops))) <==> OfSurface(rows, e.surface) != {})
  {
    var db := Apply(Db(rows, map[]), Insert(e));
    AfterFirstInsert(rows, e);
    hide Apply, Agree, OfSurface;
    UndisturbedBackfillHealsIff(db);
    PopulatedTableHealsIff(db);
  }

  lemma AfterFirstInsert(rows: Rows, e: Engram)
    requires Numbered(rows) && ValidEngram(e)
    ensures var db := Apply(Db(rows, map[]), Insert(e));
            && db.counts == map[e.surface := 1]
            && (CountersRight(db) <==> OfSurface(rows, e.surface) == {})
            && (Agree(db) <==> rows == map[])
  {
    var id := NextId(rows);
    var db := Apply(Db(rows, map[]), Insert(e));
    assert db.counts == map[e.surface := 1];
    assert OfSurface(db.rows, e.surface) == OfSurface(rows, e.surface) + {id} && id !in rows;
    if rows == map[] {
      assert OfSurface(rows, e.surface) == {};
      forall s: string ensures CountOf(db.counts, s) == |OfSurface(db.rows, s)| {
        assert s != e.surface ==> OfSurface(db.rows, s) == {};
      }
    } else {
      var k := Pick(rows.Keys);
      var s := rows[k].surface;
      assert k in OfSurface(db.rows, s) && CountOf(db.counts, s) == if s == e.surface then 1 else 0;
      if s == e.surface {
        assert k in OfSurface(rows, s);
      }
      NotAgree(db, s);
    }
  }

  lemma NotAgree(db: Db, s: string)
    requires CountOf(db.counts, s) != |OfSurface(db.rows, s)|
    ensures !Agree(db)
  {
  }

  // ----- Sums -----

  ghost function Sum(m: map<string, int>): int {
    if m == map[] then 0
    else
      var k := Pick(m.Keys);
      m[k] + Sum(m - {k})
  }

  lemma {:induction false} SumWithout(m: map<string, int>, k: string)
    requires k in m
    ensures Sum(m) == m[k] + Sum(m - {k})
    decreases |m|
  {
    var j := Pick(m.Keys);
    if j != k {
      assert (m - {j}).Keys == m.Keys - {j} && (m - {k}).Keys == m.Keys - {k};
      SumWithout(m - {j}, k);
      SumWithout(m - {k}, j);
      assert m - {j} - {k} == m - {k} - {j};
    }
  }

  function RowsIn(rows: Rows, surfaces: set<string>): set<int> {
    set id | id in rows && rows[id].surface in surfaces
  }

  lemma {:induction false} SumCountsRows(rows: Rows, m: map<string, int>)
    requires forall s | s in m :: m[s] == |OfSurface(rows, s)|
    ensures Sum(m) == |RowsIn(rows, m.Keys)|
    decreases |m|
  {
    if m != map[] {
      var s := Pick(m.Keys);
      SumWithout(m, s);
      var rest := m - {s};
      assert rest.Keys == m.Keys - {s};
      SumCountsRows(rows, rest);
      assert RowsIn(rows, m.Keys) == RowsIn(rows, rest.Keys) + OfSurface(rows, s);
      assert RowsIn(rows, rest.Keys) * OfSurface(rows, s) == {};
    } else {
      assert RowsIn(rows, m.Keys) == {};
    }
  }

  /** With right counters, their sum is the number of rows. */
  lemma SumIsTotal(db: Db)
    requires Agree(db)
    ensures Sum(db.counts) == |db.rows|
  {
    forall s | s in db.counts ensures db.counts[s] == |OfSurface(db.rows, s)| {
      assert CountOf(db.counts, s) == |OfSurface(db.rows, s)|;
    }
    SumCountsRows(db.rows, db.counts);
    forall id | id in db.rows ensures db.rows[id].surface in db.counts {
      var s := db.rows[id].surface;
      assert CountOf(db.counts, s) == |OfSurface(db.rows, s)|;
      assert id in OfSurface(db.rows, s);
    }
    assert RowsIn(db.rows, db.counts.Keys) == db.rows.Keys;
    assert |db.rows.Keys| == |db.rows|;
  }
}
