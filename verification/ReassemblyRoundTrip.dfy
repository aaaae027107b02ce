/** Splitting and reassembly undo each other, under any order of the rows, exactly when the
    oversized records have different chunk ids and every chunk is there once. */
module ReassemblyRoundTrip {
  import opened Engrams
  import opened Sorting
  import opened Chunking
  import opened Reassembly
  import opened JsonlParser
  import opened Collections

  /** A record as captured, with the ids the store gives to the rows it becomes. */
  datatype Capture = Capture(ids: seq<int>, surface: string, ts: int, payload: Bytes, fields: map<string, Json>)

  predicate Oversized(r: Capture) {
    |r.payload| > CHUNK_PAYLOAD_BUDGET
  }

  /** One id per row, a meta without chunk fields of its own, and a hash that yields some text. */
  ghost predicate Proper(r: Capture, hash: Bytes -> string) {
    && |r.ids| == (if Oversized(r) then |Pieces(r.payload)| else 1)
    && r.fields.Keys !! CHUNK_KEYS
    && hash(r.payload) != ""
  }

  /** The rows the capture side writes for a record. */
  function RowsOf(r: Capture, hash: Bytes -> string): seq<Engram>
    requires Proper(r, hash)
  {
    if Oversized(r) then
      seq(|r.ids|, i requires 0 <= i < |r.ids| => ChunkRow(r, hash, i))
    else [Engram(r.ids[0], r.surface, r.ts, r.payload, Object(r.fields))]
  }

  function ChunkRow(r: Capture, hash: Bytes -> string, i: nat): Engram
    requires Proper(r, hash) && Oversized(r) && i < |r.ids|
  {
    Engram(r.ids[i], r.surface, r.ts, Pieces(r.payload)[i], WithChunk(r.fields, hash(r.payload), i, |r.ids|))
  }

  /** The single row a record should come back as. */
  function WholeOf(r: Capture): Engram
    requires r.ids != []
  {
    Engram(r.ids[0], r.surface, r.ts, r.payload,
           Object(if Oversized(r) then r.fields["reassembled_from" := JInt(|r.ids|)] else r.fields))
  }

  ghost predicate AllProper(rs: seq<Capture>, hash: Bytes -> string) {
    forall r | r in rs :: Proper(r, hash) && r.ids != []
  }

  function AllRows(rs: seq<Capture>, hash: Bytes -> string): seq<Engram>
    requires AllProper(rs, hash)
  {
    if rs == [] then [] else AllRows(rs[..|rs| - 1], hash) + RowsOf(rs[|rs| - 1], hash)
  }

  function Wholes(rs: seq<Capture>): (es: seq<Engram>)
    requires forall r | r in rs :: r.ids != []
    ensures |es| == |rs|
  {
    if rs == [] then [] else Wholes(rs[..|rs| - 1]) + [WholeOf(rs[|rs| - 1])]
  }

  ghost predicate DistinctIds(rs: seq<Capture>, hash: Bytes -> string) {
    forall i, j | 0 <= i < j < |rs| && Oversized(rs[i]) && Oversized(rs[j]) ::
      hash(rs[i].payload) != hash(rs[j].payload)
  }

  /** These are the rows the JSONL parser emits for a line. */
  lemma ParserWritesTheseRows(c: Tailer, line: Bytes, offsetEnd: int, r: Capture)
    requires TrimRight(line, CR) == r.payload != []
    requires r.fields == PlainMeta(c, offsetEnd).fields
    requires |r.ids| == |LineRecords(c, line, offsetEnd)| && c.chunkId(r.payload) != ""
    ensures Proper(r, c.chunkId)
    ensures Views(RowsOf(r, c.chunkId)) == LineRecords(c, line, offsetEnd)
  {
    hide Pieces, TrimRight;
    PiecesRejoin(r.payload);
  }

  // ----- One record -----

  lemma RowsParse(r: Capture, hash: Bytes -> string)
    requires Proper(r, hash)
    ensures !Oversized(r) ==> ChunkId(RowsOf(r, hash)[0]) == None
    ensures Oversized(r) ==> forall i | 0 <= i < |r.ids| ::
              ParseChunkMeta(ChunkRow(r, hash, i).meta) == ChunkOf(hash(r.payload), Some(i))
  {
    hide Pieces;
    if !Oversized(r) {
      assert "chunk_id" in CHUNK_KEYS;
    }
  }

  lemma StripUndoesTag(fields: map<string, Json>, id: string, index: int, total: int, n: nat)
    requires fields.Keys !! CHUNK_KEYS
    ensures StrippedChunkMeta(WithChunk(fields, id, index, total), n) == Object(fields["reassembled_from" := JInt(n)])
  {
    var tagged := WithChunk(fields, id, index, total).fields;
    assert (tagged - CHUNK_KEYS)["reassembled_from" := JInt(n)] == fields["reassembled_from" := JInt(n)];
  }

  lemma {:induction false} PlacedRows(r: Capture, hash: Bytes -> string, n: nat)
    requires Proper(r, hash) && Oversized(r) && n <= |r.ids|
    ensures |Placed(RowsOf(r, hash)[..n])| == n
    ensures forall i | 0 <= i < n :: Placed(RowsOf(r, hash)[..n])[i] == (i, ChunkRow(r, hash, i))
  {
    hide ChunkRow, ParseChunkMeta, Pieces;
    if n > 0 {
      var rows := RowsOf(r, hash);
      assert rows[..n][..n - 1] == rows[..n - 1];
      PlacedRows(r, hash, n - 1);
      RowsParse(r, hash);
    }
  }

  lemma {:induction false} PayloadsAreFlat(placed: seq<(int, Engram)>, parts: seq<Bytes>)
    requires |placed| == |parts| && forall i | 0 <= i < |parts| :: placed[i].1.payload == parts[i]
    ensures Payloads(placed) == Flatten(parts)
  {
    if placed != [] {
      PayloadsAreFlat(placed[..|parts| - 1], parts[..|parts| - 1]);
    }
  }

  lemma {:induction false} PlacedAppend(a: seq<Engram>, b: seq<Engram>)
    ensures Placed(a + b) == Placed(a) + Placed(b)
  {
    hide ParseChunkMeta;
    if b == [] {
      assert a + b == a;
    } else {
      assert (a + b)[..|a + b| - 1] == a + b[..|b| - 1];
      PlacedAppend(a, b[..|b| - 1]);
    }
  }

  /** Permuting a group permutes its placed rows. */
  lemma {:induction false} PlacedPermutes(a: seq<Engram>, b: seq<Engram>)
    requires multiset(a) == multiset(b)
    ensures multiset(Placed(a)) == multiset(Placed(b))
  {
    hide Placed;
    if a == [] {
      assert |b| == |multiset(b)| == 0;
    } else {
      var x, front := a[|a| - 1], a[..|a| - 1];
      var left, right := Cut(a, b, x);
      PlacedPermutes(front, left + right);
      PlacedAppend(left, [x] + right);
      PlacedAppend([x], right);
      PlacedAppend(left, right);
      PlacedAppend(front, [x]);
      assert a == front + [x];
    }
  }

  /** Takes the last element of a out of its permutation b. */
  lemma Cut<T>(a: seq<T>, b: seq<T>, x: T) returns (left: seq<T>, right: seq<T>)
    requires a != [] && multiset(a) == multiset(b) && x == a[|a| - 1]
    ensures b == left + ([x] + right)
    ensures multiset(a[..|a| - 1]) == multiset(left + right)
  {
    WithoutLast(a);
    assert x in multiset(b);
    var j :| 0 <= j < |b| && b[j] == x;
    left, right := b[..j], b[j + 1..];
    assert b == left + ([x] + right);
    assert multiset(b) == multiset(left) + multiset{x} + multiset(right);
  }

  /** Any arrangement of the chunks of a record merges into the record. */
  lemma ChunksMerge(r: Capture, hash: Bytes -> string, group: seq<Engram>)
    requires Proper(r, hash) && Oversized(r)
    requires multiset(group) == multiset(RowsOf(r, hash))
    ensures Merge(group) == [WholeOf(r)]
  {
    hide Pieces, ParseChunkMeta, Placed, Flatten, Payloads, StrippedChunkMeta;
    var rows := RowsOf(r, hash);
    PlacedRows(r, hash, |rows|);
    assert rows[..|rows|] == rows;
    var placed := Placed(rows);
    PlacedPermutes(group, rows);
    SortIsSorted(Placed(group), SeqKey);
    StrictArrangementUnique(placed, Sort(Placed(group), SeqKey), SeqKey);
    PiecesRejoin(r.payload);
    PayloadsAreFlat(placed, Pieces(r.payload));
    StripUndoesTag(r.fields, hash(r.payload), 0, |r.ids|, |r.ids|);
  }

  // ----- A whole list, in order -----

  lemma {:induction false} GroupAppend(a: seq<Engram>, b: seq<Engram>, id: string)
    ensures Group(a + b, id) == Group(a, id) + Group(b, id)
  {
    hide ChunkId;
    if b == [] {
      assert a + b == a;
    } else {
      assert (a + b)[..|a + b| - 1] == a + b[..|b| - 1];
      GroupAppend(a, b[..|b| - 1], id);
    }
  }

  lemma {:induction false} GroupUniform(rows: seq<Engram>, id: string, of: Option<string>)
    requires forall e | e in rows :: ChunkId(e) == of
    ensures Group(rows, id) == if of == Some(id) then rows else []
  {
    hide ChunkId;
    if rows != [] {
      assert rows == rows[..|rows| - 1] + [rows[|rows| - 1]];
      GroupUniform(rows[..|rows| - 1], id, of);
    }
  }

  function IdOf(r: Capture, hash: Bytes -> string): Option<string> {
    if Oversized(r) then Some(hash(r.payload)) else None
  }

  lemma RowsAreUniform(r: Capture, hash: Bytes -> string)
    requires Proper(r, hash)
    ensures forall e | e in RowsOf(r, hash) :: ChunkId(e) == IdOf(r, hash)
    ensures RowsOf(r, hash) != []
  {
    RowsParse(r, hash);
    hide Pieces, ParseChunkMeta;
    if Oversized(r) {
      PiecesRejoin(r.payload);
    }
  }

  lemma GroupInRecord(r: Capture, hash: Bytes -> string, id: string)
    requires Proper(r, hash)
    ensures Group(RowsOf(r, hash), id) == if IdOf(r, hash) == Some(id) then RowsOf(r, hash) else []
  {
    hide ChunkId, RowsOf, Group;
    RowsAreUniform(r, hash);
    GroupUniform(RowsOf(r, hash), id, IdOf(r, hash));
  }

  /** The group of a chunk id is the rows of the record it belongs to. */
  lemma {:induction false} GroupOfRecord(rs: seq<Capture>, hash: Bytes -> string, k: nat, m: nat)
    requires AllProper(rs, hash) && DistinctIds(rs, hash)
    requires k < |rs| && Oversized(rs[k]) && m <= |rs|
    ensures Group(AllRows(rs[..m], hash), hash(rs[k].payload)) == if k < m then RowsOf(rs[k], hash) else []
  {
    hide ChunkId, RowsOf, Group;
    if m > 0 {
      var id := hash(rs[k].payload);
      assert rs[..m][..m - 1] == rs[..m - 1];
      GroupOfRecord(rs, hash, k, m - 1);
      GroupAppend(AllRows(rs[..m - 1], hash), RowsOf(rs[m - 1], hash), id);
      GroupInRecord(rs[m - 1], hash, id);
    } else {
      EmptyGroup(hash(rs[k].payload));
    }
  }

  lemma EmptyGroup(id: string)
    ensures Group([], id) == []
  {
  }

  function SlotOf(r: Capture, hash: Bytes -> string): Item
    requires Proper(r, hash)
  {
    if Oversized(r) then Ref(hash(r.payload)) else Row(RowsOf(r, hash)[0])
  }

  lemma IdsAppend(a: seq<Engram>, b: seq<Engram>)
    ensures Ids(a + b) == Ids(a) + Ids(b)
  {
    hide ChunkId;
  }

  lemma {:induction false} OrderAppendChunks(before: seq<Engram>, rows: seq<Engram>, id: string)
    requires rows != [] && forall e | e in rows :: ChunkId(e) == Some(id)
    ensures Order(before + rows) == Order(before) + if id in Ids(before) then [] else [Ref(id)]
  {
    hide ChunkId, Ids;
    var front, last := rows[..|rows| - 1], rows[|rows| - 1];
    assert (before + rows)[..|before + rows| - 1] == before + front;
    IdsAppend(before, front);
    if front == [] {
      assert before + front == before;
    } else {
      OrderAppendChunks(before, front, id);
      InIds(front, id);
    }
  }

  lemma InIds(rows: seq<Engram>, id: string)
    requires rows != [] && forall e | e in rows :: ChunkId(e) == Some(id)
    ensures id in Ids(rows)
  {
    hide ChunkId;
    assert rows[0] in rows;
  }

  lemma OrderAppendRecord(before: seq<Engram>, r: Capture, hash: Bytes -> string)
    requires Proper(r, hash)
    ensures Order(before + RowsOf(r, hash)) == Order(before) +
              if Oversized(r) && hash(r.payload) in Ids(before) then [] else [SlotOf(r, hash)]
  {
    hide ChunkId, Ids, ChunkRow;
    RowsAreUniform(r, hash);
    if Oversized(r) {
      OrderAppendChunks(before, RowsOf(r, hash), hash(r.payload));
    } else {
      var rows := before + RowsOf(r, hash);
      assert rows[..|rows| - 1] == before;
    }
  }

  lemma {:induction false} IdsOfRows(rs: seq<Capture>, hash: Bytes -> string)
    requires AllProper(rs, hash)
    ensures Ids(AllRows(rs, hash)) == set r | r in rs && Oversized(r) :: hash(r.payload)
  {
    hide RowsOf, ChunkId;
    if rs != [] {
      var front, r := rs[..|rs| - 1], rs[|rs| - 1];
      assert rs == front + [r];
      IdsOfRows(front, hash);
      RowsAreUniform(r, hash);
      IdsAppend(AllRows(front, hash), RowsOf(r, hash));
      UniformIds(RowsOf(r, hash), IdOf(r, hash));
    }
  }

  lemma UniformIds(rows: seq<Engram>, of: Option<string>)
    requires rows != [] && forall e | e in rows :: ChunkId(e) == of
    ensures Ids(rows) == match of case None => {} case Some(id) => {id}
  {
    hide ChunkId;
    assert rows[0] in rows;
  }

  lemma {:induction false} OrderOfRows(rs: seq<Capture>, hash: Bytes -> string)
    requires AllProper(rs, hash) && DistinctIds(rs, hash)
    ensures |Order(AllRows(rs, hash))| == |rs|
    ensures forall i | 0 <= i < |rs| :: Order(AllRows(rs, hash))[i] == SlotOf(rs[i], hash)
  {
    hide RowsOf, Ids, Order, SlotOf;
    if rs == [] {
      NoOrder();
    } else {
      var front, r := rs[..|rs| - 1], rs[|rs| - 1];
      OrderOfRows(front, hash);
      OrderAppendRecord(AllRows(front, hash), r, hash);
      IdsOfRows(front, hash);
    }
  }

  lemma NoOrder()
    ensures Order([]) == []
  {
  }

  /** Reading the rows back in the order they were written is the exact inverse of splitting. */
  lemma InOrderRoundTrip(rs: seq<Capture>, hash: Bytes -> string)
    requires AllProper(rs, hash) && DistinctIds(rs, hash)
    ensures Reassemble(AllRows(rs, hash)) == Wholes(rs)
  {
    hide Order, Emit;
    OrderOfRows(rs, hash);
    var order := Order(AllRows(rs, hash));
    EmitSlots(rs, hash, order, |rs|);
    assert order[..|rs|] == order && rs[..|rs|] == rs;
  }

  lemma {:induction false} EmitSlots(rs: seq<Capture>, hash: Bytes -> string, order: seq<Item>, m: nat)
    requires AllProper(rs, hash) && DistinctIds(rs, hash)
    requires |order| == |rs| && forall i | 0 <= i < |rs| :: order[i] == SlotOf(rs[i], hash)
    requires m <= |rs|
    ensures Emit(order[..m], AllRows(rs, hash)) == Wholes(rs[..m])
  {
    hide Merge, Group, AllRows;
    if m > 0 {
      EmitSlots(rs, hash, order, m - 1);
      assert order[..m][..m - 1] == order[..m - 1] && rs[..m][..m - 1] == rs[..m - 1];
      EmitSlot(rs, hash, m - 1);
    }
  }

  lemma EmitSlot(rs: seq<Capture>, hash: Bytes -> string, k: nat)
    requires AllProper(rs, hash) && DistinctIds(rs, hash) && k < |rs|
    ensures EmitItem(SlotOf(rs[k], hash), AllRows(rs, hash)) == [WholeOf(rs[k])]
  {
    hide Merge, Group, AllRows, ChunkRow;
    if Oversized(rs[k]) {
      GroupOfRecord(rs, hash, k, |rs|);
      assert rs[..|rs|] == rs;
      ChunksMerge(rs[k], hash, RowsOf(rs[k], hash));
    }
  }

  // ----- Any order -----

  lemma {:induction false} GroupPermutes(a: seq<Engram>, b: seq<Engram>, id: string)
    requires multiset(a) == multiset(b)
    ensures multiset(Group(a, id)) == multiset(Group(b, id))
  {
    hide Group;
    if a == [] {
      assert |b| == |multiset(b)| == 0;
    } else {
      var x, front := a[|a| - 1], a[..|a| - 1];
      var left, right := Cut(a, b, x);
      GroupPermutes(front, left + right, id);
      GroupAppend(left, [x] + right, id);
      GroupAppend([x], right, id);
      GroupAppend(left, right, id);
      GroupAppend(front, [x], id);
      assert a == front + [x];
    }
  }

  lemma {:induction false} RowCount(rows: seq<Engram>, e: Engram)
    ensures multiset(Order(rows))[Row(e)] == if ChunkId(e) == None then multiset(rows)[e] else 0
  {
    hide ChunkId, Ids;
    if rows != [] {
      WithoutLast(rows);
      RowCount(rows[..|rows| - 1], e);
    }
  }

  lemma {:induction false} RefCount(rows: seq<Engram>, id: string)
    ensures multiset(Order(rows))[Ref(id)] == if id in Ids(rows) then 1 else 0
  {
    hide ChunkId, Ids;
    if rows == [] {
      NoIds();
    } else {
      var before, last := rows[..|rows| - 1], rows[|rows| - 1];
      RefCount(before, id);
      WithoutLast(rows);
      IdsAppend(before, [last]);
      UniformIds([last], ChunkId(last));
    }
  }

  lemma OrderPermutes(a: seq<Engram>, b: seq<Engram>)
    requires multiset(a) == multiset(b)
    ensures multiset(Order(a)) == multiset(Order(b))
  {
    hide Order, ChunkId, Ids;
    SameIds(a, b);
    forall item: Item ensures multiset(Order(a))[item] == multiset(Order(b))[item] {
      match item {
        case Row(e) => RowCount(a, e); RowCount(b, e);
        case Ref(id) => RefCount(a, id); RefCount(b, id);
      }
    }
  }

  lemma SameIds(a: seq<Engram>, b: seq<Engram>)
    requires multiset(a) == multiset(b)
    ensures Ids(a) == Ids(b)
  {
    hide ChunkId;
    assert forall e :: e in a <==> e in multiset(a);
    assert forall e :: e in b <==> e in multiset(b);
  }

  lemma {:induction false} EmitAppend(a: seq<Item>, b: seq<Item>, rows: seq<Engram>)
    ensures Emit(a + b, rows) == Emit(a, rows) + Emit(b, rows)
  {
    hide EmitItem;
    if b == [] {
      assert a + b == a;
    } else {
      assert (a + b)[..|a + b| - 1] == a + b[..|b| - 1];
      EmitAppend(a, b[..|b| - 1], rows);
    }
  }

  lemma {:induction false} EmitPermutes(a: seq<Item>, b: seq<Item>, rows: seq<Engram>)
    requires multiset(a) == multiset(b)
    ensures multiset(Emit(a, rows)) == multiset(Emit(b, rows))
  {
    hide Emit;
    if a == [] {
      assert |b| == |multiset(b)| == 0;
    } else {
      var x, front := a[|a| - 1], a[..|a| - 1];
      var left, right := Cut(a, b, x);
      EmitPermutes(front, left + right, rows);
      EmitAppend(left, [x] + right, rows);
      EmitAppend([x], right, rows);
      EmitAppend(left, right, rows);
      EmitAppend(front, [x], rows);
      assert a == front + [x];
    }
  }

  lemma {:induction false} EmitCongruent(items: seq<Item>, a: seq<Engram>, b: seq<Engram>)
    requires forall id | Ref(id) in items :: Merge(Group(a, id)) == Merge(Group(b, id))
    ensures Emit(items, a) == Emit(items, b)
  {
    hide EmitItem, Merge, Group;
    if items != [] {
      var front, last := items[..|items| - 1], items[|items| - 1];
      assert items == front + [last] && last in items;
      EmitCongruent(front, a, b);
      ItemCongruent(last, a, b);
    }
  }

  lemma ItemCongruent(item: Item, a: seq<Engram>, b: seq<Engram>)
    requires item.Ref? ==> Merge(Group(a, item.id)) == Merge(Group(b, item.id))
    ensures EmitItem(item, a) == EmitItem(item, b)
  {
    hide Merge, Group;
  }

  lemma {:induction false} RowBelongs(rs: seq<Capture>, hash: Bytes -> string, e: Engram) returns (k: nat)
    requires AllProper(rs, hash) && e in AllRows(rs, hash)
    ensures k < |rs| && e in RowsOf(rs[k], hash)
  {
    hide RowsOf;
    k := |rs| - 1;
    if e !in RowsOf(rs[k], hash) {
      k := RowBelongs(rs[..|rs| - 1], hash, e);
    }
  }

  /** The slot a row opens gives back the record the row is of. */
  lemma SlotGivesRecord(rs: seq<Capture>, hash: Bytes -> string, rows: seq<Engram>, n: nat) returns (k: nat)
    requires AllProper(rs, hash) && DistinctIds(rs, hash)
    requires multiset(rows) == multiset(AllRows(rs, hash)) && n < |rows|
    ensures k < |rs| && rows[n] in RowsOf(rs[k], hash)
    ensures EmitItem(SlotAt(rows, n), rows) == [WholeOf(rs[k])]
  {
    hide Merge, Group, AllRows, ChunkRow, ChunkId;
    var base := AllRows(rs, hash);
    assert rows[n] in multiset(rows) && rows[n] in multiset(base);
    k := RowBelongs(rs, hash, rows[n]);
    RowsAreUniform(rs[k], hash);
    if Oversized(rs[k]) {
      var id := hash(rs[k].payload);
      GroupOfRecord(rs, hash, k, |rs|);
      assert rs[..|rs|] == rs;
      GroupPermutes(rows, base, id);
      ChunksMerge(rs[k], hash, Group(rows, id));
    }
  }

  /** The result is the record that the row is of. */
  ghost predicate Restores(rs: seq<Capture>, hash: Bytes -> string, row: Engram, result: Engram)
    requires AllProper(rs, hash)
  {
    exists k :: 0 <= k < |rs| && row in RowsOf(rs[k], hash) && result == WholeOf(rs[k])
  }

  /** Each result is the record of the row that opens its place, and every row that opens a place gives one. */
  ghost predicate FollowsFirstOccurrence(rs: seq<Capture>, hash: Bytes -> string, rows: seq<Engram>)
    requires AllProper(rs, hash)
  {
    var (at, out) := (Sources(rows, |rows|), Reassemble(rows));
    && |out| == |at|
    && (forall n: nat :: n in at <==> n < |rows| && OpensSlot(rows, n))
    && (forall i, j | 0 <= i < j < |at| :: at[i] < at[j])
    && (forall i | 0 <= i < |at| :: Restores(rs, hash, rows[at[i]], out[i]))
  }

  lemma ResultsFollowFirstOccurrence(rs: seq<Capture>, hash: Bytes -> string, rows: seq<Engram>)
    requires AllProper(rs, hash) && DistinctIds(rs, hash)
    requires multiset(rows) == multiset(AllRows(rs, hash))
    ensures FollowsFirstOccurrence(rs, hash, rows)
  {
    hide AllRows, RowsOf, Reassemble, Sources, OpensSlot, SlotAt, EmitItem, DistinctIds, Proper;
    OutputFollowsFirstOccurrence(rows);
    var (at, out) := (Sources(rows, |rows|), Reassemble(rows));
    forall n: nat ensures n in at <==> n < |rows| && OpensSlot(rows, n) {
      if n < |rows| {
        var k := SlotGivesRecord(rs, hash, rows, n);
      }
    }
    forall i | 0 <= i < |at| ensures Restores(rs, hash, rows[at[i]], out[i]) {
      var k := SlotGivesRecord(rs, hash, rows, at[i]);
      assert [out[i]][0] == [WholeOf(rs[k])][0];
    }
  }

  /** Whatever order the rows arrive in, each record comes back exactly once, in the order of the first
      occurrences. */
  lemma AnyOrderRoundTrip(rs: seq<Capture>, hash: Bytes -> string, rows: seq<Engram>)
    requires AllProper(rs, hash) && DistinctIds(rs, hash)
    requires multiset(rows) == multiset(AllRows(rs, hash))
    ensures multiset(Reassemble(rows)) == multiset(Wholes(rs))
    ensures FollowsFirstOccurrence(rs, hash, rows)
  {
    ResultsFollowFirstOccurrence(rs, hash, rows);
    hide FollowsFirstOccurrence;
    hide Order, Emit, Merge, Group, AllRows, SlotOf;
    var base := AllRows(rs, hash);
    InOrderRoundTrip(rs, hash);
    OrderPermutes(rows, base);
    EmitPermutes(Order(rows), Order(base), base);
    forall id | Ref(id) in Order(rows) ensures Merge(Group(rows, id)) == Merge(Group(base, id)) {
      MergesLikeBase(rs, hash, rows, id);
    }
    EmitCongruent(Order(rows), rows, base);
  }

  lemma MergesLikeBase(rs: seq<Capture>, hash: Bytes -> string, rows: seq<Engram>, id: string)
    requires AllProper(rs, hash) && DistinctIds(rs, hash)
    requires multiset(rows) == multiset(AllRows(rs, hash))
    requires Ref(id) in Order(rows)
    ensures Merge(Group(rows, id)) == Merge(Group(AllRows(rs, hash), id))
  {
    hide Order, Merge, Group, AllRows, ChunkRow, ChunkId;
    var base := AllRows(rs, hash);
    OrderPermutes(rows, base);
    assert Ref(id) in multiset(Order(base));
    OrderOfRows(rs, hash);
    var k :| 0 <= k < |rs| && Order(base)[k] == Ref(id);
    assert SlotOf(rs[k], hash) == Ref(id);
    GroupOfRecord(rs, hash, k, |rs|);
    assert rs[..|rs|] == rs;
    GroupPermutes(rows, base, id);
    ChunksMerge(rs[k], hash, Group(rows, id));
    ChunksMerge(rs[k], hash, Group(base, id));
  }

  // ----- The condition is exact -----

  lemma {:induction false} SharedIdLosesASlot(rs: seq<Capture>, hash: Bytes -> string)
    requires AllProper(rs, hash)
    ensures |Order(AllRows(rs, hash))| <= |rs|
    ensures !DistinctIds(rs, hash) ==> |Order(AllRows(rs, hash))| < |rs|
  {
    hide RowsOf, Ids, Order, SlotOf;
    if rs == [] {
      NoOrder();
    } else {
      var front, r := rs[..|rs| - 1], rs[|rs| - 1];
      SharedIdLosesASlot(front, hash);
      OrderAppendRecord(AllRows(front, hash), r, hash);
      IdsOfRows(front, hash);
      if DistinctIds(front, hash) && !DistinctIds(rs, hash) {
        var q := SharesId(rs, hash);
      }
    }
  }

  lemma SharesId(rs: seq<Capture>, hash: Bytes -> string) returns (q: Capture)
    requires rs != [] && DistinctIds(rs[..|rs| - 1], hash) && !DistinctIds(rs, hash)
    ensures q in rs[..|rs| - 1] && Oversized(q) && Oversized(rs[|rs| - 1])
    ensures hash(q.payload) == hash(rs[|rs| - 1].payload)
  {
    var front := rs[..|rs| - 1];
    var i, j :| 0 <= i < j < |rs| && Oversized(rs[i]) && Oversized(rs[j])
                && hash(rs[i].payload) == hash(rs[j].payload);
    assert forall k | 0 <= k < |front| :: front[k] == rs[k];
    assert j == |rs| - 1;
    q := front[i];
  }

  lemma {:induction false} AtMostOneRowPerSlot(items: seq<Item>, rows: seq<Engram>)
    ensures |Emit(items, rows)| <= |items|
  {
    if items != [] {
      AtMostOneRowPerSlot(items[..|items| - 1], rows);
    }
  }

  /** The round trip succeeds exactly when no two oversized records share a chunk id. */
  lemma RoundTripIffDistinct(rs: seq<Capture>, hash: Bytes -> string, rows: seq<Engram>)
    requires AllProper(rs, hash)
    requires multiset(rows) == multiset(AllRows(rs, hash))
    ensures multiset(Reassemble(rows)) == multiset(Wholes(rs)) <==> DistinctIds(rs, hash)
  {
    hide Order, Emit, AllRows;
    if DistinctIds(rs, hash) {
      AnyOrderRoundTrip(rs, hash, rows);
    } else {
      SharedIdLosesARecord(rs, hash, rows);
      assert |multiset(Reassemble(rows))| == |Reassemble(rows)| < |rs| == |Wholes(rs)| == |multiset(Wholes(rs))|;
    }
  }

  lemma SharedIdLosesARecord(rs: seq<Capture>, hash: Bytes -> string, rows: seq<Engram>)
    requires AllProper(rs, hash) && !DistinctIds(rs, hash)
    requires multiset(rows) == multiset(AllRows(rs, hash))
    ensures |Reassemble(rows)| < |rs|
  {
    hide Order, Emit, AllRows;
    SharedIdLosesASlot(rs, hash);
    OrderPermutes(rows, AllRows(rs, hash));
    assert |Order(rows)| == |multiset(Order(rows))| == |multiset(Order(AllRows(rs, hash)))| == |Order(AllRows(rs, hash))|;
    AtMostOneRowPerSlot(Order(rows), rows);
  }

  // ----- A record delivered again -----

  /** Deliveries of one oversized payload: ids, times, and metas may differ. */
  ghost predicate Deliveries(ds: seq<Capture>, hash: Bytes -> string, payload: Bytes) {
    AllProper(ds, hash) && ds != [] && forall d | d in ds :: Oversized(d) && d.payload == payload
  }

  /** How many placed rows have the number i. */
  ghost function CountAt(placed: seq<(int, Engram)>, i: int): nat {
    if placed == [] then 0
    else CountAt(placed[..|placed| - 1], i) + (if placed[|placed| - 1].0 == i then 1 else 0)
  }

  lemma {:induction false} CountAppend(a: seq<(int, Engram)>, b: seq<(int, Engram)>, i: int)
    ensures CountAt(a + b, i) == CountAt(a, i) + CountAt(b, i)
  {
    if b == [] {
      assert a + b == a;
    } else {
      FrontOfSum(a, b);
      CountAppend(a, b[..|b| - 1], i);
    }
  }

  lemma {:induction false} CountPermutes(a: seq<(int, Engram)>, b: seq<(int, Engram)>, i: int)
    requires multiset(a) == multiset(b)
    ensures CountAt(a, i) == CountAt(b, i)
  {
    hide CountAt;
    if a == [] {
      assert |b| == |multiset(b)| == 0;
    } else {
      var x, front := a[|a| - 1], a[..|a| - 1];
      var left, right := Cut(a, b, x);
      CountPermutes(front, left + right, i);
      CountAppend(left, [x] + right, i);
      CountAppend([x], right, i);
      CountAppend(left, right, i);
      CountAppend(front, [x], i);
      assert a == front + [x];
    }
  }

  /** One delivery has one row per number. */
  lemma {:induction false} CountInPrefix(placed: seq<(int, Engram)>, n: nat, i: int)
    requires n <= |placed| && forall k | 0 <= k < n :: placed[k].0 == k
    ensures CountAt(placed[..n], i) == if 0 <= i < n then 1 else 0
  {
    if n > 0 {
      CountInPrefix(placed, n - 1, i);
      assert placed[..n][..n - 1] == placed[..n - 1];
    }
  }

  /** What the placed rows of the deliveries are, whatever their order: of each number as many as deliveries,
      each with the piece of that number. */
  ghost predicate PlacedAsDelivered(placed: seq<(int, Engram)>, payload: Bytes, n: nat) {
    && (forall p | p in placed :: 0 <= p.0 < |Pieces(payload)| && p.1.payload == Pieces(payload)[p.0])
    && (forall i :: CountAt(placed, i) == if 0 <= i < |Pieces(payload)| then n else 0)
  }

  lemma OneDelivery(r: Capture, hash: Bytes -> string)
    requires Proper(r, hash) && Oversized(r)
    ensures PlacedAsDelivered(Placed(RowsOf(r, hash)), r.payload, 1)
  {
    var rows := RowsOf(r, hash);
    PlacedRows(r, hash, |rows|);
    assert rows[..|rows|] == rows;
    hide RowsOf, Placed, ParseChunkMeta, Pieces;
    var placed := Placed(rows);
    assert placed[..|placed|] == placed;
    forall i ensures CountAt(placed, i) == if 0 <= i < |Pieces(r.payload)| then 1 else 0 {
      CountInPrefix(placed, |placed|, i);
    }
  }

  lemma {:induction false} AllDeliveries(ds: seq<Capture>, hash: Bytes -> string, payload: Bytes)
    requires Deliveries(ds, hash, payload)
    ensures PlacedAsDelivered(Placed(AllRows(ds, hash)), payload, |ds|)
  {
    hide RowsOf, Placed, Pieces, Proper;
    var front, d := ds[..|ds| - 1], ds[|ds| - 1];
    OneDelivery(d, hash);
    if front == [] {
      assert AllRows(ds, hash) == RowsOf(d, hash);
    } else {
      AllDeliveries(front, hash, payload);
      PlacedAppend(AllRows(front, hash), RowsOf(d, hash));
      var a, b := Placed(AllRows(front, hash)), Placed(RowsOf(d, hash));
      forall i ensures CountAt(a + b, i) == if 0 <= i < |Pieces(payload)| then |ds| else 0 {
        CountAppend(a, b, i);
      }
    }
  }

  lemma DeliveredInAnyOrder(a: seq<(int, Engram)>, b: seq<(int, Engram)>, payload: Bytes, n: nat)
    requires multiset(a) == multiset(b) && PlacedAsDelivered(a, payload, n)
    ensures PlacedAsDelivered(b, payload, n)
  {
    hide Pieces;
    forall p | p in b ensures p in a {
      assert p in multiset(b);
    }
    forall i ensures CountAt(b, i) == if 0 <= i < |Pieces(payload)| then n else 0 {
      CountPermutes(a, b, i);
    }
  }

  // What sorting by number makes of them: every piece n times, then the next.

  function Repeated(piece: Bytes, n: nat): Bytes {
    if n == 0 then [] else Repeated(piece, n - 1) + piece
  }

  /** p0 ... p0 p1 ... p1 and so on, each n times. */
  function Stuttered(pieces: seq<Bytes>, n: nat): Bytes {
    if pieces == [] then [] else Stuttered(pieces[..|pieces| - 1], n) + Repeated(pieces[|pieces| - 1], n)
  }

  /** The first m pieces, each as often as placed rows have its number. */
  ghost function Spread(placed: seq<(int, Engram)>, pieces: seq<Bytes>, m: nat): Bytes
    requires m <= |pieces|
  {
    if m == 0 then [] else Spread(placed, pieces, m - 1) + Repeated(pieces[m - 1], CountAt(placed, m - 1))
  }

  lemma {:induction false} NoneAbove(placed: seq<(int, Engram)>, i: int)
    requires forall p | p in placed :: p.0 < i
    ensures CountAt(placed, i) == 0
  {
    if placed != [] {
      NoneAbove(placed[..|placed| - 1], i);
    }
  }

  lemma {:induction false} LastSpreads(placed: seq<(int, Engram)>, pieces: seq<Bytes>, m: nat)
    requires placed != [] && m <= |pieces| && forall p | p in placed :: 0 <= p.0 <= placed[|placed| - 1].0 < |pieces|
    ensures var (front, last) := (placed[..|placed| - 1], placed[|placed| - 1].0);
            Spread(placed, pieces, m) == Spread(front, pieces, m) + if last < m then pieces[last] else []
  {
    hide CountAt, Repeated;
    var (front, last) := (placed[..|placed| - 1], placed[|placed| - 1].0);
    if m > 0 {
      LastSpreads(placed, pieces, m - 1);
      CountLast(placed, m - 1);
      OneRepeatMore(pieces[m - 1], CountAt(front, m - 1));
      if last == m - 1 {
        Regroup(Spread(front, pieces, m - 1), Repeated(pieces[m - 1], CountAt(front, m - 1)), pieces[m - 1]);
      } else if last < m - 1 {
        NoneAbove(placed, m - 1);
      }
    }
  }

  lemma CountLast(placed: seq<(int, Engram)>, i: int)
    requires placed != []
    ensures CountAt(placed, i)
         == CountAt(placed[..|placed| - 1], i) + if placed[|placed| - 1].0 == i then 1 else 0
  {
  }

  lemma OneRepeatMore(piece: Bytes, n: nat)
    ensures Repeated(piece, n + 1) == Repeated(piece, n) + piece && Repeated(piece, 0) == []
  {
  }

  lemma {:induction false} SortedSpreads(sorted: seq<(int, Engram)>, pieces: seq<Bytes>)
    requires SortedBy(sorted, SeqKey)
    requires forall p | p in sorted :: 0 <= p.0 < |pieces| && p.1.payload == pieces[p.0]
    ensures Payloads(sorted) == Spread(sorted, pieces, |pieces|)
  {
    if sorted == [] {
      NothingSpreads(pieces, |pieces|);
    } else {
      var front, last := sorted[..|sorted| - 1], sorted[|sorted| - 1];
      SortedSpreads(front, pieces);
      forall p | p in sorted ensures p.0 <= last.0 {
        var i :| 0 <= i < |sorted| && sorted[i] == p;
        assert i < |sorted| - 1 ==> SeqKey(sorted[i]) <= SeqKey(last);
      }
      LastSpreads(sorted, pieces, |pieces|);
    }
  }

  lemma {:induction false} NothingSpreads(pieces: seq<Bytes>, m: nat)
    requires m <= |pieces|
    ensures Spread([], pieces, m) == []
  {
    if m > 0 {
      NothingSpreads(pieces, m - 1);
    }
  }

  lemma {:induction false} EvenSpreadStutters(placed: seq<(int, Engram)>, pieces: seq<Bytes>, n: nat, m: nat)
    requires m <= |pieces| && forall i | 0 <= i < |pieces| :: CountAt(placed, i) == n
    ensures Spread(placed, pieces, m) == Stuttered(pieces[..m], n)
  {
    if m > 0 {
      EvenSpreadStutters(placed, pieces, n, m - 1);
      assert pieces[..m][..m - 1] == pieces[..m - 1];
    }
  }

  lemma {:induction false} StutteredLength(pieces: seq<Bytes>, n: nat)
    ensures |Stuttered(pieces, n)| == Times(n, |Flatten(pieces)|)
  {
    hide Times;
    if pieces == [] {
      TimesSum(n, 0, 0);
    } else {
      var front, last := pieces[..|pieces| - 1], pieces[|pieces| - 1];
      StutteredLength(front, n);
      RepeatedLength(last, n);
      TimesSum(n, |Flatten(front)|, |last|);
    }
  }

  function Times(n: nat, k: nat): nat {
    n * k
  }

  lemma TimesSum(n: nat, a: nat, b: nat)
    ensures Times(n, a + b) == Times(n, a) + Times(n, b) && Times(n, 0) == 0
  {
  }

  lemma {:induction false} RepeatedLength(piece: Bytes, n: nat)
    ensures |Repeated(piece, n)| == Times(n, |piece|)
  {
    if n > 0 {
      RepeatedLength(piece, n - 1);
      assert Times(n, |piece|) == Times(n - 1, |piece|) + |piece|;
    }
  }

  /** The merged payload of n deliveries, in whatever order their rows come. */
  lemma DeliveriesMerge(ds: seq<Capture>, hash: Bytes -> string, payload: Bytes, group: seq<Engram>)
    requires Deliveries(ds, hash, payload) && multiset(group) == multiset(AllRows(ds, hash))
    ensures |Merge(group)| == 1 && Merge(group)[0].payload == Stuttered(Pieces(payload), |ds|)
  {
    hide AllRows, RowsOf, Placed, Pieces, Proper, CountAt, Stuttered, Spread, Payloads, StrippedChunkMeta;
    var sorted, pieces := Sort(Placed(group), SeqKey), Pieces(payload);
    AllDeliveries(ds, hash, payload);
    PlacedPermutes(AllRows(ds, hash), group);
    DeliveredInAnyOrder(Placed(AllRows(ds, hash)), Placed(group), payload, |ds|);
    SortIsSorted(Placed(group), SeqKey);
    DeliveredInAnyOrder(Placed(group), sorted, payload, |ds|);
    SortedSpreads(sorted, pieces);
    EvenSpreadStutters(sorted, pieces, |ds|, |pieces|);
    assert pieces[..|pieces|] == pieces;
    SomethingPlaced(ds, hash, payload, sorted);
  }

  lemma SomethingPlaced(ds: seq<Capture>, hash: Bytes -> string, payload: Bytes, placed: seq<(int, Engram)>)
    requires Deliveries(ds, hash, payload) && PlacedAsDelivered(placed, payload, |ds|)
    ensures placed != []
  {
    PiecesRejoin(payload);
    hide Pieces;
    assert ds[0] in ds;
    assert CountAt(placed, 0) == |ds|;
  }

  /** A record delivered more than once, as capture may after a crash, with the ids and times the store and the
      clock give each time: reassembly returns every piece as often as delivered, next to each other, so the
      record is restored exactly when it was delivered once. Other rows may be around. */
  lemma RedeliveredIsRestoredIffOnce(ds: seq<Capture>, hash: Bytes -> string, payload: Bytes, rows: seq<Engram>)
    returns (e: Engram)
    requires Deliveries(ds, hash, payload)
    requires multiset(Group(rows, hash(payload))) == multiset(AllRows(ds, hash))
    ensures Merge(Group(rows, hash(payload))) == [e] && e in Reassemble(rows)
    ensures e.payload == Stuttered(Pieces(payload), |ds|)
    ensures |e.payload| == |ds| * |payload|
    ensures e.payload == payload <==> |ds| == 1
  {
    hide AllRows, RowsOf, Merge, Group, Pieces, Stuttered, Deliveries, Reassemble;
    var id := hash(payload);
    DeliveriesMerge(ds, hash, payload, Group(rows, id));
    e := Merge(Group(rows, id))[0];
    MergedIsEmitted(rows, id);
    StutteredLength(Pieces(payload), |ds|);
    PiecesRejoin(payload);
    OnceIsPlain(Pieces(payload));
    assert ds != [] && |payload| > 0 by { DeliveriesAreLarge(ds, hash, payload); }
    MoreIsLonger(|ds|, |payload|);
  }

  lemma DeliveriesAreLarge(ds: seq<Capture>, hash: Bytes -> string, payload: Bytes)
    requires Deliveries(ds, hash, payload)
    ensures ds != [] && |payload| > 0
  {
    assert ds[0] in ds;
  }

  lemma MoreIsLonger(n: nat, k: nat)
    requires n > 0 && k > 0
    ensures Times(n, k) == n * k && (n > 1 ==> n * k > k)
  {
  }

  lemma {:induction false} OnceIsPlain(pieces: seq<Bytes>)
    ensures Stuttered(pieces, 1) == Flatten(pieces)
  {
    if pieces != [] {
      OnceIsPlain(pieces[..|pieces| - 1]);
      assert Repeated(pieces[|pieces| - 1], 1) == Repeated(pieces[|pieces| - 1], 0) + pieces[|pieces| - 1];
    }
  }

  /** What a group merges into is among the results. */
  lemma MergedIsEmitted(rows: seq<Engram>, id: string)
    requires Merge(Group(rows, id)) != []
    ensures forall e | e in Merge(Group(rows, id)) :: e in Reassemble(rows)
  {
    hide Merge, Ids;
    RefsHaveGroups(rows);
    if id !in Ids(rows) {
      NoGroup(rows, id);
      assert Merge([]) == [] by { MergeNothing(); }
    } else {
      EmitsAll(Order(rows), rows, Ref(id));
    }
  }

  lemma MergeNothing()
    ensures Merge([]) == []
  {
  }

  lemma {:induction false} EmitsAll(items: seq<Item>, rows: seq<Engram>, item: Item)
    requires item in items
    ensures forall e | e in EmitItem(item, rows) :: e in Emit(items, rows)
  {
    hide EmitItem;
    var front, last := items[..|items| - 1], items[|items| - 1];
    if item != last {
      EmitsAll(front, rows, item);
    }
  }
}
