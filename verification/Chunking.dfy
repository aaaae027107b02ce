/** Chunked capture: a record above the per-engram budget becomes several engrams that share
    a chunk id derived from the whole payload. */
module Chunking {
  import opened Engrams
  import opened Collections

  /** The parser's identity and the two functions it calls that stay uninterpreted here:
      the hexadecimal SHA-256 prefix of a payload, and the timestamp found in a record
      (the second argument is the fallback clock reading). */
  datatype Tailer = Tailer(surface: string, path: string,
                           chunkId: Bytes -> string, stamp: (Bytes, int) -> int)

  function PlainMeta(c: Tailer, offsetEnd: int): Meta {
    Object(map["path" := JStr(c.path), "offset_end" := JInt(offsetEnd), "parser" := JStr("jsonl/v1")])
  }

  /** A meta object extended by the three fields that mark a chunk. */
  function WithChunk(fields: map<string, Json>, id: string, index: int, total: int): Meta {
    Object(fields["chunk_id" := JStr(id)]["chunk_seq" := JInt(index)]["chunk_total" := JInt(total)])
  }

  /** A payload cut into budget-sized pieces; only the last may be shorter. */
  function Pieces(raw: Bytes): seq<Bytes> {
    if raw == [] then []
    else if |raw| <= CHUNK_PAYLOAD_BUDGET then [raw]
    else [raw[..CHUNK_PAYLOAD_BUDGET]] + Pieces(raw[CHUNK_PAYLOAD_BUDGET..])
  }

  function ChunkRecords(fields: map<string, Json>, id: string, raw: Bytes): (r: seq<Record>)
    ensures |r| == |Pieces(raw)|
  {
    var parts := Pieces(raw);
    seq(|parts|, i requires 0 <= i < |parts| => Record(parts[i], WithChunk(fields, id, i, |parts|)))
  }

  /** The pieces are the payload again, and each of them is acceptable to the store. */
  lemma {:induction false} PiecesRejoin(raw: Bytes)
    ensures Flatten(Pieces(raw)) == raw
    ensures forall p | p in Pieces(raw) :: 0 < |p| <= 7_340_032 <= MAX_PAYLOAD_BYTES
    ensures |raw| > 7_340_032 <==> |Pieces(raw)| >= 2
  {
    if 0 < |raw| <= CHUNK_PAYLOAD_BUDGET {
      FlattenOne(raw);
    } else if |raw| > CHUNK_PAYLOAD_BUDGET {
      PiecesRejoin(raw[CHUNK_PAYLOAD_BUDGET..]);
      FlattenRest(Pieces(raw));
      assert raw == raw[..CHUNK_PAYLOAD_BUDGET] + raw[CHUNK_PAYLOAD_BUDGET..];
      assert |Pieces(raw[CHUNK_PAYLOAD_BUDGET..])| >= 1;
    }
  }

  /** The bytes a piece holds, by its position: how the source computes them. */
  function Slice(raw: Bytes, i: nat): Bytes
    requires i * CHUNK_PAYLOAD_BUDGET <= |raw|
  {
    var start, end := i * CHUNK_PAYLOAD_BUDGET, (i + 1) * CHUNK_PAYLOAD_BUDGET;
    raw[start..if end > |raw| then |raw| else end]
  }

  lemma SliceOfRest(raw: Bytes, i: nat)
    requires |raw| > CHUNK_PAYLOAD_BUDGET && i * CHUNK_PAYLOAD_BUDGET < |raw| - CHUNK_PAYLOAD_BUDGET
    ensures Slice(raw[CHUNK_PAYLOAD_BUDGET..], i) == Slice(raw, i + 1)
  {
  }

  lemma {:induction false} PiecesByIndex(raw: Bytes)
    ensures |Pieces(raw)| == (|raw| + CHUNK_PAYLOAD_BUDGET - 1) / CHUNK_PAYLOAD_BUDGET
    ensures forall i | 0 <= i < |Pieces(raw)| :: i * CHUNK_PAYLOAD_BUDGET < |raw| && Pieces(raw)[i] == Slice(raw, i)
  {
    if |raw| > CHUNK_PAYLOAD_BUDGET {
      var rest := raw[CHUNK_PAYLOAD_BUDGET..];
      PiecesByIndex(rest);
      forall i | 0 < i < |Pieces(raw)| ensures i * CHUNK_PAYLOAD_BUDGET < |raw| && Pieces(raw)[i] == Slice(raw, i) {
        assert Pieces(raw)[i] == Pieces(rest)[i - 1];
        assert (i - 1) * CHUNK_PAYLOAD_BUDGET < |rest|;
        SliceOfRest(raw, i - 1);
      }
    }
  }

  /** The bytes from the i-th multiple of 7 MiB on, up to the next or the end. */
  ghost function PieceAt(raw: Bytes, i: nat): Bytes {
    if |raw| <= 7_340_032 * i then []
    else if |raw| <= 7_340_032 * (i + 1) then raw[7_340_032 * i..]
    else raw[7_340_032 * i..7_340_032 * (i + 1)]
  }

  ghost function ChunkMeta(fields: map<string, Json>, id: string, i: nat, n: nat): Meta {
    Object(fields + map["chunk_id" := JStr(id), "chunk_seq" := JInt(i), "chunk_total" := JInt(n)])
  }

  /** An oversized record becomes as many chunks as it takes, numbered from 0, each with the fields of the
      whole, its digest, and how many there are. */
  lemma ChunksAre(fields: map<string, Json>, id: string, raw: Bytes)
    ensures var rs := ChunkRecords(fields, id, raw);
            && |rs| == (|raw| + 7_340_031) / 7_340_032
            && forall k | 0 <= k < |rs| :: rs[k] == Record(PieceAt(raw, k), ChunkMeta(fields, id, k, |rs|))
  {
    hide Pieces;
    PiecesByIndex(raw);
    var rs := ChunkRecords(fields, id, raw);
    forall k | 0 <= k < |rs| ensures rs[k] == Record(PieceAt(raw, k), ChunkMeta(fields, id, k, |rs|)) {
      ChunkMetaIs(fields, id, k, |rs|);
      assert Pieces(raw)[k] == Slice(raw, k) == PieceAt(raw, k);
    }
  }

  lemma ChunkMetaIs(fields: map<string, Json>, id: string, i: nat, n: nat)
    ensures WithChunk(fields, id, i, n) == ChunkMeta(fields, id, i, n)
  {
    assert fields["chunk_id" := JStr(id)]["chunk_seq" := JInt(i)]["chunk_total" := JInt(n)]
        == fields + map["chunk_id" := JStr(id), "chunk_seq" := JInt(i), "chunk_total" := JInt(n)];
  }

  method SplitOversized(c: Tailer, ts: int, fields: map<string, Json>, raw: Bytes)
    returns (out: seq<Engram>)
    ensures Views(out) == ChunkRecords(fields, c.chunkId(raw), raw)
    ensures forall e | e in out :: e.id == 0 && e.surface == c.surface && e.ts == ts
  {
    PiecesByIndex(raw);
    var chunkId := c.chunkId(raw);
    var total := (|raw| + CHUNK_PAYLOAD_BUDGET - 1) / CHUNK_PAYLOAD_BUDGET;
    out := [];
    for index := 0 to total
      invariant |out| == index
      invariant forall i | 0 <= i < index ::
                  out[i] == Engram(0, c.surface, ts, Pieces(raw)[i], WithChunk(fields, chunkId, i, total))
    {
      var start := index * CHUNK_PAYLOAD_BUDGET;
      var end := start + CHUNK_PAYLOAD_BUDGET;
      if end > |raw| {
        end := |raw|;
      }
      out := out + [Engram(0, c.surface, ts, raw[start..end], WithChunk(fields, chunkId, index, total))];
    }
  }
}
