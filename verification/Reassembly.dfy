/** Consumer-side reassembly: rows that carry a chunk id are grouped, ordered by their sequence
    number and merged; every other row passes through. */
module Reassembly {
  import opened Engrams
  import opened Sorting

  /** What the chunk fields of a meta say. A chunk without two integers has no place. */
  datatype ChunkRef = NotAChunk | ChunkOf(id: string, place: Option<int>)

  /** `isinstance(v, int)`: JSON integers, and also booleans. */
  function AsInt(fields: map<string, Json>, name: string): Option<int> {
    if name !in fields then None
    else match fields[name]
      case JInt(n) => Some(n)
      case JBool(b) => Some(if b then 1 else 0)
      case _ => None
  }

  function ParseChunkMeta(meta: Meta): ChunkRef
  {
    if !meta.Object? || "chunk_id" !in meta.fields then NotAChunk
    else match meta.fields["chunk_id"]
      case JStr(id) =>
        if id == "" then NotAChunk
        else if AsInt(meta.fields, "chunk_total") == None then ChunkOf(id, None)
        else ChunkOf(id, AsInt(meta.fields, "chunk_seq"))
      case _ => NotAChunk
  }

  /** A chunk is what has a non-empty string as its id; it has a place if its number and the count are
      integers, and then the place is its number. */
  lemma ChunkMetaMeans(meta: Meta, ref: ChunkRef)
    requires ref == ParseChunkMeta(meta)
    ensures ref.ChunkOf? <==> meta.Object? && "chunk_id" in meta.fields && meta.fields["chunk_id"].JStr?
                              && meta.fields["chunk_id"].s != ""
    ensures ref.ChunkOf? ==> ref.id == meta.fields["chunk_id"].s
    ensures ref.ChunkOf? ==>
              (ref.place.Some? <==>
                 && "chunk_seq" in meta.fields && (meta.fields["chunk_seq"].JInt? || meta.fields["chunk_seq"].JBool?)
                 && "chunk_total" in meta.fields && (meta.fields["chunk_total"].JInt? || meta.fields["chunk_total"].JBool?))
    ensures ref.ChunkOf? && ref.place.Some? ==>
              match meta.fields["chunk_seq"]
              case JInt(n) => ref.place.value == n
              case JBool(b) => ref.place.value == if b then 1 else 0
              case _ => false
  {
  }

  function ChunkId(e: Engram): Option<string> {
    match ParseChunkMeta(e.meta)
    case NotAChunk => None
    case ChunkOf(id, _) => Some(id)
  }

  const CHUNK_KEYS: set<string> := {"chunk_id", "chunk_seq", "chunk_total"}

  function StrippedChunkMeta(meta: Meta, chunksMerged: nat): Meta {
    if meta.Object? then Object((meta.fields - CHUNK_KEYS)["reassembled_from" := JInt(chunksMerged)])
    else meta
  }

  // ----- Specification -----

  function SeqKey(p: (int, Engram)): real {
    p.0 as real
  }

  /** The rows of a group that have a sequence number, with it. */
  function Placed(group: seq<Engram>): seq<(int, Engram)> {
    if group == [] then []
    else
      var e := group[|group| - 1];
      var ref := ParseChunkMeta(e.meta);
      Placed(group[..|group| - 1]) +
      (if ref.ChunkOf? && ref.place.Some? then [(ref.place.value, e)] else [])
  }

  function Payloads(placed: seq<(int, Engram)>): Bytes {
    if placed == [] then [] else Payloads(placed[..|placed| - 1]) + placed[|placed| - 1].1.payload
  }

  /** The merged row of a group: no row when nothing in the group has a place. */
  function Merge(group: seq<Engram>): seq<Engram> {
    var sorted := Sort(Placed(group), SeqKey);
    if sorted == [] then []
    else
      var head := sorted[0].1;
      [head.(payload := Payloads(sorted), meta := StrippedChunkMeta(head.meta, |sorted|))]
  }

  /** The rows with a chunk id, in input order. */
  function Group(rows: seq<Engram>, id: string): seq<Engram> {
    if rows == [] then []
    else
      var e := rows[|rows| - 1];
      Group(rows[..|rows| - 1], id) + (if ChunkId(e) == Some(id) then [e] else [])
  }

  function Ids(rows: seq<Engram>): set<string> {
    set e | e in rows && ChunkId(e).Some? :: ChunkId(e).value
  }

  /** A slot of the output: a row that passes through, or the place of a group. */
  datatype Item = Row(e: Engram) | Ref(id: string)

  /** One slot per plain row and per first row of a group, in input order. */
  function Order(rows: seq<Engram>): seq<Item> {
    if rows == [] then []
    else
      var before, e := rows[..|rows| - 1], rows[|rows| - 1];
      Order(before) +
      match ChunkId(e)
      case None => [Row(e)]
      case Some(id) => if id in Ids(before) then [] else [Ref(id)]
  }

  function EmitItem(item: Item, rows: seq<Engram>): seq<Engram> {
    match item
    case Row(e) => [e]
    case Ref(id) => Merge(Group(rows, id))
  }

  function Emit(items: seq<Item>, rows: seq<Engram>): seq<Engram> {
    if items == [] then []
    else Emit(items[..|items| - 1], rows) + EmitItem(items[|items| - 1], rows)
  }

  function Reassemble(rows: seq<Engram>): seq<Engram> {
    Emit(Order(rows), rows)
  }

  // ----- The source's algorithm -----

  method ReassembleChunks(rows: seq<Engram>) returns (out: seq<Engram>)
    ensures out == Reassemble(rows)
  {
    hide ChunkId, Group, Merge, Order, Ids;
    var outputOrder, chunkGroups := GroupRows(rows);
    out := [];
    RefsHaveGroups(rows);
    for k := 0 to |outputOrder|
      invariant out == Emit(outputOrder[..k], rows)
    {
      assert outputOrder[..k + 1][..k] == outputOrder[..k];
      match outputOrder[k] {
        case Row(e) =>
          out := out + [e];
        case Ref(id) =>
          var merged := MergeChunkGroup(chunkGroups[id]);
          if merged.Some? {
            out := out + [merged.value];
          }
      }
    }
    assert outputOrder[..|outputOrder|] == outputOrder;
  }

  /** The first loop: slots and groups. */
  method GroupRows(rows: seq<Engram>) returns (outputOrder: seq<Item>, chunkGroups: map<string, seq<Engram>>)
    ensures outputOrder == Order(rows)
    ensures chunkGroups.Keys == Ids(rows)
    ensures forall id | id in chunkGroups :: chunkGroups[id] == Group(rows, id)
  {
    hide ChunkId, Group, Ids;
    outputOrder, chunkGroups := [], map[];
    var seenChunkIds: set<string> := {};
    NoIds();
    for k := 0 to |rows|
      invariant seenChunkIds == Ids(rows[..k]) == chunkGroups.Keys
      invariant forall id | id in chunkGroups :: chunkGroups[id] == Group(rows[..k], id)
      invariant outputOrder == Order(rows[..k])
    {
      var row := rows[k];
      GroupStep(rows, k);
      match ChunkId(row) {
        case None =>
          outputOrder := outputOrder + [Row(row)];
        case Some(id) =>
          var group := if id in chunkGroups then chunkGroups[id] else [];
          chunkGroups := chunkGroups[id := group + [row]];
          if id !in seenChunkIds {
            seenChunkIds := seenChunkIds + {id};
            outputOrder := outputOrder + [Ref(id)];
          }
      }
    }
    assert rows[..|rows|] == rows;
  }

  lemma NoIds()
    ensures Ids([]) == {}
  {
  }

  method MergeChunkGroup(group: seq<Engram>) returns (merged: Option<Engram>)
    ensures Merge(group) == if merged.Some? then [merged.value] else []
  {
    var indexed: seq<(int, Engram)> := [];
    for k := 0 to |group|
      invariant indexed == Placed(group[..k])
    {
      assert group[..k + 1][..k] == group[..k];
      var ref := ParseChunkMeta(group[k].meta);
      if ref.ChunkOf? && ref.place.Some? {
        indexed := indexed + [(ref.place.value, group[k])];
      }
    }
    assert group[..|group|] == group;
    indexed := Sort(indexed, SeqKey);
    if indexed == [] {
      return None;
    }
    var head := indexed[0].1;
    var payload: Bytes := [];
    for k := 0 to |indexed|
      invariant payload == Payloads(indexed[..k])
    {
      assert indexed[..k + 1][..k] == indexed[..k];
      payload := payload + indexed[k].1.payload;
    }
    assert indexed[..|indexed|] == indexed;
    return Some(head.(payload := payload, meta := StrippedChunkMeta(head.meta, |indexed|)));
  }

  lemma GroupStep(rows: seq<Engram>, k: nat)
    requires k < |rows|
    ensures rows[..k + 1][..k] == rows[..k]
    ensures Ids(rows[..k + 1]) == Ids(rows[..k]) + (match ChunkId(rows[k]) case None => {} case Some(id) => {id})
    ensures forall id :: Group(rows[..k + 1], id)
                      == Group(rows[..k], id) + (if ChunkId(rows[k]) == Some(id) then [rows[k]] else [])
    ensures forall id | id !in Ids(rows[..k]) :: Group(rows[..k], id) == []
  {
    hide ChunkId;
    assert rows[..k + 1] == rows[..k] + [rows[k]];
    assert rows[..k + 1][..k] == rows[..k];
    forall id | id !in Ids(rows[..k]) ensures Group(rows[..k], id) == [] {
      NoGroup(rows[..k], id);
    }
  }

  lemma {:induction false} NoGroup(rows: seq<Engram>, id: string)
    requires id !in Ids(rows)
    ensures Group(rows, id) == []
  {
    hide ChunkId;
    if rows != [] {
      assert rows == rows[..|rows| - 1] + [rows[|rows| - 1]];
      NoGroup(rows[..|rows| - 1], id);
    }
  }

  lemma {:induction false} RefsHaveGroups(rows: seq<Engram>)
    ensures forall id :: Ref(id) in Order(rows) <==> id in Ids(rows)
  {
    hide ChunkId;
    if rows != [] {
      assert rows == rows[..|rows| - 1] + [rows[|rows| - 1]];
      RefsHaveGroups(rows[..|rows| - 1]);
    }
  }

  ghost predicate IsPlacedChunk(e: Engram) {
    ParseChunkMeta(e.meta).ChunkOf? && ParseChunkMeta(e.meta).place.Some?
  }

  lemma {:induction false} PlacedAre(group: seq<Engram>)
    ensures forall p | p in Placed(group) ::
              p.1 in group && IsPlacedChunk(p.1) && p.0 == ParseChunkMeta(p.1.meta).place.value
    ensures forall e | e in group && IsPlacedChunk(e) :: (ParseChunkMeta(e.meta).place.value, e) in Placed(group)
  {
    hide ParseChunkMeta;
    if group != [] {
      var n := |group| - 1;
      assert group == group[..n] + [group[n]];
      PlacedAre(group[..n]);
    }
  }

  /** A group without a placed row gives no row. Any other gives one: id, surface and time are those of a
      row with the smallest sequence number, and so is its meta, except that the chunk fields are gone and
      the number of rows merged is noted. */
  lemma MergedRow(group: seq<Engram>)
    ensures Merge(group) == [] <==> forall e | e in group :: !IsPlacedChunk(e)
    ensures Merge(group) != [] ==>
              exists head | head in group && IsPlacedChunk(head) ::
                && (forall e | e in group && IsPlacedChunk(e) ::
                      ParseChunkMeta(head.meta).place.value <= ParseChunkMeta(e.meta).place.value)
                && MergedFrom(Merge(group)[0], head, |Placed(group)|)
  {
    hide ParseChunkMeta, Placed, Sort, StrippedChunkMeta, MergedFrom;
    var placed, sorted := Placed(group), Sort(Placed(group), SeqKey);
    PlacedAre(group);
    SmallestFirst(placed);
    if sorted != [] {
      var head := sorted[0].1;
      assert sorted[0] in placed;
      forall e | e in group && IsPlacedChunk(e)
        ensures sorted[0].0 <= ParseChunkMeta(e.meta).place.value
      {
        assert (ParseChunkMeta(e.meta).place.value, e) in placed;
      }
      MetaIsStripped(head, |placed|);
    } else {
      assert placed == [];
    }
  }

  lemma SmallestFirst(placed: seq<(int, Engram)>)
    ensures var sorted := Sort(placed, SeqKey);
            && |sorted| == |placed|
            && (sorted != [] ==> sorted[0] in placed && forall p | p in placed :: sorted[0].0 <= p.0)
  {
    var sorted := Sort(placed, SeqKey);
    SortIsSorted(placed, SeqKey);
    if sorted != [] {
      assert sorted[0] in multiset(sorted);
      forall p | p in placed ensures sorted[0].0 <= p.0 {
        assert p in multiset(sorted);
        var i :| 0 <= i < |sorted| && sorted[i] == p;
        assert i > 0 ==> SeqKey(sorted[0]) <= SeqKey(sorted[i]);
      }
    }
  }

  ghost predicate MergedFrom(m: Engram, head: Engram, merged: nat) {
    && m.id == head.id && m.surface == head.surface && m.ts == head.ts
    && m.meta.Object? && head.meta.Object?
    && m.meta.fields.Keys == head.meta.fields.Keys - {"chunk_id", "chunk_seq", "chunk_total"} + {"reassembled_from"}
    && m.meta.fields["reassembled_from"] == JInt(merged)
    && (forall k | k in m.meta.fields && k != "reassembled_from" :: m.meta.fields[k] == head.meta.fields[k])
  }

  lemma MetaIsStripped(head: Engram, merged: nat)
    requires IsPlacedChunk(head)
    ensures forall payload: Bytes ::
              MergedFrom(head.(payload := payload, meta := StrippedChunkMeta(head.meta, merged)), head, merged)
  {
  }

  // ----- Idempotence -----

  ghost predicate AllPlain(rows: seq<Engram>) {
    forall e | e in rows :: ChunkId(e) == None
  }

  lemma MergedIsPlain(group: seq<Engram>)
    ensures AllPlain(Merge(group))
  {
  }

  lemma {:induction false} RowsInOrderArePlain(rows: seq<Engram>)
    ensures forall e | Row(e) in Order(rows) :: ChunkId(e) == None
  {
    if rows != [] {
      RowsInOrderArePlain(rows[..|rows| - 1]);
    }
  }

  lemma {:induction false} EmitIsPlain(items: seq<Item>, rows: seq<Engram>)
    requires forall e | Row(e) in items :: ChunkId(e) == None
    ensures AllPlain(Emit(items, rows))
  {
    hide ChunkId, Merge;
    if items != [] {
      EmitIsPlain(items[..|items| - 1], rows);
      match items[|items| - 1] {
        case Row(e) => assert Row(e) in items;
        case Ref(id) => MergedIsPlain(Group(rows, id));
      }
    }
  }

  lemma {:induction false} PlainRowsPass(rows: seq<Engram>, all: seq<Engram>)
    requires AllPlain(rows)
    ensures Emit(Order(rows), all) == rows
  {
    hide ChunkId, Merge;
    if rows != [] {
      var before, e := rows[..|rows| - 1], rows[|rows| - 1];
      assert rows == before + [e] && e in rows;
      PlainRowsPass(before, all);
      assert Order(rows) == Order(before) + [Row(e)];
      assert Order(rows)[..|Order(before)|] == Order(before);
    }
  }

  /** Reassembling reassembled output changes nothing, whatever the rows: malformed metas, missing
      sequence numbers, gaps and repeated chunks included. */
  lemma ReassembleIsIdempotent(rows: seq<Engram>)
    ensures Reassemble(Reassemble(rows)) == Reassemble(rows)
  {
    hide Merge, ChunkId;
    RowsInOrderArePlain(rows);
    EmitIsPlain(Order(rows), rows);
    PlainRowsPass(Reassemble(rows), Reassemble(rows));
  }

  // ----- Order of the output -----

  /** A plain row, or the first row of its group. */
  ghost predicate OpensSlot(rows: seq<Engram>, i: nat)
    requires i < |rows|
  {
    ChunkId(rows[i]) == None || forall j | 0 <= j < i :: ChunkId(rows[j]) != ChunkId(rows[i])
  }

  /** The slot it opens. */
  function SlotAt(rows: seq<Engram>, i: nat): Item
    requires i < |rows|
  {
    match ChunkId(rows[i])
    case None => Row(rows[i])
    case Some(id) => Ref(id)
  }

  /** It opens a slot that is not left empty. */
  ghost predicate Gives(rows: seq<Engram>, i: nat)
    requires i < |rows|
  {
    OpensSlot(rows, i) && EmitItem(SlotAt(rows, i), rows) != []
  }

  /** The positions before k that give a result, from left to right. */
  ghost function Sources(rows: seq<Engram>, k: nat): (at: seq<nat>)
    requires k <= |rows|
    ensures forall i | 0 <= i < |at| :: at[i] < k
  {
    if k == 0 then [] else Sources(rows, k - 1) + (if Gives(rows, k - 1) then [k - 1] else [])
  }

  lemma {:induction false} SourcesAreThoseThatGive(rows: seq<Engram>, k: nat)
    requires k <= |rows|
    ensures forall n: nat :: n in Sources(rows, k) <==> n < k && Gives(rows, n)
    ensures forall i, j | 0 <= i < j < |Sources(rows, k)| :: Sources(rows, k)[i] < Sources(rows, k)[j]
  {
    hide Gives;
    if k > 0 {
      SourcesAreThoseThatGive(rows, k - 1);
    }
  }

  /** The results are in the order in which each plain row, and each group with anything to merge, first
      occurs: result i is what the row at the i-th such position passes through or opens. */
  lemma OutputFollowsFirstOccurrence(rows: seq<Engram>)
    ensures var at := Sources(rows, |rows|);
            && |Reassemble(rows)| == |at|
            && (forall n: nat :: n in at <==> n < |rows| && Gives(rows, n))
            && (forall i, j | 0 <= i < j < |at| :: at[i] < at[j])
            && (forall i | 0 <= i < |at| :: [Reassemble(rows)[i]] == EmitItem(SlotAt(rows, at[i]), rows))
  {
    assert rows[..|rows|] == rows;
    hide Gives, SlotAt, EmitItem, Sources, Order, Emit;
    SourcesAreThoseThatGive(rows, |rows|);
    PrefixFollows(rows, |rows|);
  }

  lemma OneSlotMore(rows: seq<Engram>, k: nat)
    requires k < |rows|
    ensures Emit(Order(rows[..k + 1]), rows)
         == Emit(Order(rows[..k]), rows) + (if Gives(rows, k) then EmitItem(SlotAt(rows, k), rows) else [])
  {
    hide ChunkId, Ids, OpensSlot, EmitItem;
    OpensByIds(rows, k);
    assert rows[..k + 1][..k] == rows[..k];
    var before := Order(rows[..k]);
    if OpensSlot(rows, k) {
      assert Order(rows[..k + 1]) == before + [SlotAt(rows, k)];
      assert (before + [SlotAt(rows, k)])[..|before|] == before;
    } else {
      assert Order(rows[..k + 1]) == before;
    }
  }

  lemma {:induction false} PrefixFollows(rows: seq<Engram>, k: nat)
    requires k <= |rows|
    ensures var (at, out) := (Sources(rows, k), Emit(Order(rows[..k]), rows));
            |out| == |at| && forall i | 0 <= i < |at| :: [out[i]] == EmitItem(SlotAt(rows, at[i]), rows)
  {
    hide *;
    if k == 0 {
      NothingYet(rows);
    } else {
      PrefixFollows(rows, k - 1);
      OneSlotMore(rows, k - 1);
      OneSourceMore(rows, k - 1);
    }
  }

  lemma NothingYet(rows: seq<Engram>)
    ensures Sources(rows, 0) == [] && Emit(Order(rows[..0]), rows) == []
  {
  }

  lemma OneSourceMore(rows: seq<Engram>, k: nat)
    requires k < |rows|
    ensures Sources(rows, k + 1) == Sources(rows, k) + (if Gives(rows, k) then [k] else [])
    ensures Gives(rows, k) ==> |EmitItem(SlotAt(rows, k), rows)| == 1
  {
    AtMostOne(SlotAt(rows, k), rows);
    hide EmitItem, SlotAt, OpensSlot;
  }

  lemma AtMostOne(item: Item, rows: seq<Engram>)
    ensures |EmitItem(item, rows)| <= 1
  {
  }

  lemma OpensByIds(rows: seq<Engram>, n: nat)
    requires n < |rows|
    ensures OpensSlot(rows, n) <==> ChunkId(rows[n]) == None || ChunkId(rows[n]).value !in Ids(rows[..n])
  {
    hide ChunkId;
    assert forall j | 0 <= j < n :: rows[j] == rows[..n][j] && rows[j] in rows[..n];
  }
}
