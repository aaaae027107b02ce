/** Reassembly moves bytes but neither drops nor invents any, apart from chunk rows that have no place. */
module ReassemblyBytes {
  import opened Engrams
  import opened Collections
  import opened Sorting
  import opened Reassembly
  import opened ReassemblyRoundTrip

  function PayloadsOf(es: seq<Engram>): (r: seq<Bytes>)
    ensures |r| == |es| && forall i | 0 <= i < |es| :: r[i] == es[i].payload
  {
    seq(|es|, i requires 0 <= i < |es| => es[i].payload)
  }

  /** How many payload bytes a list of rows carries. */
  ghost function Size(es: seq<Engram>): nat {
    if es == [] then 0 else Size(es[..|es| - 1]) + |es[|es| - 1].payload|
  }

  /** A chunk row whose sequence number or total is missing is left out of its group's result. */
  ghost predicate HasPlace(e: Engram) {
    var ref := ParseChunkMeta(e.meta);
    ref.ChunkOf? ==> ref.place.Some?
  }

  ghost function KeptSize(es: seq<Engram>): nat {
    if es == [] then 0
    else KeptSize(es[..|es| - 1]) + (if HasPlace(es[|es| - 1]) then |es[|es| - 1].payload| else 0)
  }

  lemma {:induction false} SizeSum(a: seq<Engram>, b: seq<Engram>)
    ensures Size(a + b) == Size(a) + Size(b)
  {
    if b == [] {
      assert a + b == a;
    } else {
      FrontOfSum(a, b);
      SizeSum(a, b[..|b| - 1]);
    }
  }

  lemma {:induction false} KeptSizeSum(a: seq<Engram>, b: seq<Engram>)
    ensures KeptSize(a + b) == KeptSize(a) + KeptSize(b)
  {
    hide HasPlace;
    if b == [] {
      assert a + b == a;
    } else {
      FrontOfSum(a, b);
      KeptSizeSum(a, b[..|b| - 1]);
    }
  }

  lemma {:induction false} KeptSizePermutes(a: seq<Engram>, b: seq<Engram>)
    requires multiset(a) == multiset(b)
    ensures KeptSize(a) == KeptSize(b)
  {
    hide KeptSize;
    if a == [] {
      assert |b| == |multiset(b)| == 0;
    } else {
      var x, front := a[|a| - 1], a[..|a| - 1];
      var left, right := Cut(a, b, x);
      KeptSizePermutes(front, left + right);
      KeptSizeSum(left, [x] + right);
      KeptSizeSum([x], right);
      KeptSizeSum(left, right);
      KeptSizeSum(front, [x]);
      assert a == front + [x];
    }
  }

  // ----- One group -----

  ghost function PlacedSize(placed: seq<(int, Engram)>): nat {
    if placed == [] then 0 else PlacedSize(placed[..|placed| - 1]) + |placed[|placed| - 1].1.payload|
  }

  lemma {:induction false} PlacedSizeSum(a: seq<(int, Engram)>, b: seq<(int, Engram)>)
    ensures PlacedSize(a + b) == PlacedSize(a) + PlacedSize(b)
  {
    if b == [] {
      assert a + b == a;
    } else {
      FrontOfSum(a, b);
      PlacedSizeSum(a, b[..|b| - 1]);
    }
  }

  lemma {:induction false} PlacedSizePermutes(a: seq<(int, Engram)>, b: seq<(int, Engram)>)
    requires multiset(a) == multiset(b)
    ensures PlacedSize(a) == PlacedSize(b)
  {
    hide PlacedSize;
    if a == [] {
      assert |b| == |multiset(b)| == 0;
    } else {
      var x, front := a[|a| - 1], a[..|a| - 1];
      var left, right := Cut(a, b, x);
      PlacedSizePermutes(front, left + right);
      PlacedSizeSum(left, [x] + right);
      PlacedSizeSum([x], right);
      PlacedSizeSum(left, right);
      PlacedSizeSum(front, [x]);
      assert a == front + [x];
    }
  }

  lemma {:induction false} PayloadsSize(placed: seq<(int, Engram)>)
    ensures |Payloads(placed)| == PlacedSize(placed)
  {
    if placed != [] {
      PayloadsSize(placed[..|placed| - 1]);
    }
  }

  lemma OnePlacedMore(front: seq<Engram>, e: Engram)
    requires ChunkId(e).Some?
    ensures PlacedSize(Placed(front + [e])) == PlacedSize(Placed(front)) + if HasPlace(e) then |e.payload| else 0
  {
    var ref := ParseChunkMeta(e.meta);
    assert ref.ChunkOf?;
    assert (front + [e])[..|front|] == front;
    var placed := Placed(front);
    if ref.place.Some? {
      assert (placed + [(ref.place.value, e)])[..|placed|] == placed;
    } else {
      assert placed + [] == placed;
    }
  }

  lemma OneKeptMore(front: seq<Engram>, e: Engram)
    ensures KeptSize(front + [e]) == KeptSize(front) + if HasPlace(e) then |e.payload| else 0
  {
    hide HasPlace;
    assert (front + [e])[..|front|] == front;
  }

  lemma {:induction false} GroupSize(group: seq<Engram>)
    requires forall e | e in group :: ChunkId(e).Some?
    ensures PlacedSize(Placed(group)) == KeptSize(group)
  {
    if group != [] {
      hide ChunkId, HasPlace, Placed, PlacedSize, KeptSize;
      var front, e := group[..|group| - 1], group[|group| - 1];
      assert group == front + [e] && e in group;
      GroupSize(front);
      OnePlacedMore(front, e);
      OneKeptMore(front, e);
    }
  }

  lemma MergedSize(group: seq<Engram>)
    requires forall e | e in group :: ChunkId(e).Some?
    ensures Size(Merge(group)) == KeptSize(group)
  {
    hide Placed, Payloads, PlacedSize, KeptSize, StrippedChunkMeta, ChunkId;
    GroupSize(group);
    var sorted := Sort(Placed(group), SeqKey);
    SortIsSorted(Placed(group), SeqKey);
    PlacedSizePermutes(sorted, Placed(group));
    PayloadsSize(sorted);
    if sorted == [] {
      assert PlacedSize(sorted) == 0 by { NothingPlaced(); }
    } else {
      assert Merge(group)[..0] == [];
    }
  }

  lemma NothingPlaced()
    ensures PlacedSize([]) == 0
  {
  }

  lemma {:induction false} GroupIsOfChunks(rows: seq<Engram>, id: string)
    ensures forall e | e in Group(rows, id) :: ChunkId(e) == Some(id)
  {
    hide ChunkId;
    if rows != [] {
      GroupIsOfChunks(rows[..|rows| - 1], id);
    }
  }

  // ----- All of them -----

  /** What a slot accounts for. */
  ghost function Weight(item: Item, rows: seq<Engram>): nat {
    match item
    case Row(e) => |e.payload|
    case Ref(id) => KeptSize(Group(rows, id))
  }

  ghost function Weights(items: seq<Item>, rows: seq<Engram>): nat {
    if items == [] then 0 else Weights(items[..|items| - 1], rows) + Weight(items[|items| - 1], rows)
  }

  lemma EmitsWeight(item: Item, rows: seq<Engram>)
    ensures Size(EmitItem(item, rows)) == Weight(item, rows)
  {
    hide Merge, Group, KeptSize, ChunkId;
    match item {
      case Row(e) => assert [e][..0] == [];
      case Ref(id) =>
        GroupIsOfChunks(rows, id);
        MergedSize(Group(rows, id));
    }
  }

  lemma {:induction false} EmitSize(items: seq<Item>, rows: seq<Engram>)
    ensures Size(Emit(items, rows)) == Weights(items, rows)
  {
    hide EmitItem, Weight;
    if items == [] {
      assert Size([]) == 0;
    } else {
      var front, last := items[..|items| - 1], items[|items| - 1];
      EmitSize(front, rows);
      EmitsWeight(last, rows);
      SizeSum(Emit(front, rows), EmitItem(last, rows));
    }
  }

  lemma GroupOfMore(before: seq<Engram>, e: Engram, id: string)
    ensures Group(before + [e], id) == if ChunkId(e) == Some(id) then Group(before, id) + [e] else Group(before, id)
    ensures KeptSize(Group(before + [e], id))
         == KeptSize(Group(before, id)) + if ChunkId(e) == Some(id) && HasPlace(e) then |e.payload| else 0
  {
    hide ChunkId, HasPlace;
    assert (before + [e])[..|before|] == before;
    assert Group(before, id) + [] == Group(before, id);
    if ChunkId(e) == Some(id) {
      var g := Group(before, id);
      assert (g + [e])[..|g|] == g;
    }
  }

  /** One row more changes the weight of its own group's slot only. */
  lemma {:induction false} WeightsOfMore(items: seq<Item>, before: seq<Engram>, e: Engram)
    requires ChunkId(e).Some? ==> multiset(items)[Ref(ChunkId(e).value)] <= 1
    ensures Weights(items, before + [e])
         == Weights(items, before)
            + if ChunkId(e).Some? && Ref(ChunkId(e).value) in items && HasPlace(e) then |e.payload| else 0
  {
    hide ChunkId, HasPlace, Group, KeptSize;
    if items != [] {
      var front, last := items[..|items| - 1], items[|items| - 1];
      assert items == front + [last];
      WeightsOfMore(front, before, e);
      if last.Ref? {
        GroupOfMore(before, e, last.id);
      }
      if ChunkId(e).Some? && last == Ref(ChunkId(e).value) {
        assert multiset(front)[last] == 0;
        assert last !in front;
      }
    }
  }

  lemma {:induction false} OrderWeighsAll(rows: seq<Engram>)
    ensures Weights(Order(rows), rows) == KeptSize(rows)
  {
    hide ChunkId, HasPlace, Ids, Weight;
    if rows != [] {
      var before, e := rows[..|rows| - 1], rows[|rows| - 1];
      assert rows == before + [e];
      OrderWeighsAll(before);
      OneMoreWeighed(before, e);
    }
  }

  lemma OneMoreWeighed(before: seq<Engram>, e: Engram)
    ensures Weights(Order(before + [e]), before + [e])
         == Weights(Order(before), before) + if HasPlace(e) then |e.payload| else 0
  {
    hide *;
    match ChunkId(e) {
      case None => OnePlainMore(before, e);
      case Some(id) => OneChunkMore(before, e, id);
    }
  }

  lemma OrderOfMore(before: seq<Engram>, e: Engram)
    ensures Order(before + [e])
         == match ChunkId(e)
            case None => Order(before) + [Row(e)]
            case Some(id) => if id in Ids(before) then Order(before) else Order(before) + [Ref(id)]
  {
    hide ChunkId, Ids;
    assert (before + [e])[..|before|] == before;
    assert Order(before) + [] == Order(before);
  }

  lemma OnePlainMore(before: seq<Engram>, e: Engram)
    requires ChunkId(e) == None
    ensures Weights(Order(before + [e]), before + [e])
         == Weights(Order(before), before) + if HasPlace(e) then |e.payload| else 0
  {
    PlainHasPlace(e);
    hide ChunkId, HasPlace, Order, Weights;
    OrderOfMore(before, e);
    WeightsOfMore(Order(before), before, e);
    WeightsSnoc(Order(before), Row(e), before + [e]);
  }

  lemma OneChunkMore(before: seq<Engram>, e: Engram, id: string)
    requires ChunkId(e) == Some(id)
    ensures Weights(Order(before + [e]), before + [e])
         == Weights(Order(before), before) + if HasPlace(e) then |e.payload| else 0
  {
    hide ChunkId, HasPlace, Order, Weights, Ids, KeptSize, Group;
    OrderOfMore(before, e);
    RefCount(before, id);
    WeightsOfMore(Order(before), before, e);
    RefsHaveGroups(before);
    if id !in Ids(before) {
      WeightsSnoc(Order(before), Ref(id), before + [e]);
      NoGroupYet(before, id);
      GroupOfMore(before, e, id);
    }
  }

  lemma WeightsSnoc(items: seq<Item>, item: Item, rows: seq<Engram>)
    ensures Weights(items + [item], rows) == Weights(items, rows) + Weight(item, rows)
  {
    assert (items + [item])[..|items|] == items;
  }

  lemma PlainHasPlace(e: Engram)
    ensures ChunkId(e) == None ==> HasPlace(e)
  {
  }

  lemma NoGroupYet(rows: seq<Engram>, id: string)
    ensures id !in Ids(rows) ==> KeptSize(Group(rows, id)) == 0
  {
    hide ChunkId;
    if id !in Ids(rows) {
      NoGroup(rows, id);
    }
  }

  /** For every list of rows: the results carry exactly the bytes of the rows that are plain or have a place. */
  lemma ReassemblyConservesBytes(rows: seq<Engram>)
    ensures Size(Reassemble(rows)) == KeptSize(rows)
  {
    hide Order, Emit, Weights, KeptSize, Size;
    EmitSize(Order(rows), rows);
    OrderWeighsAll(rows);
  }
}
