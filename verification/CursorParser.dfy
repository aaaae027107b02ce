/** The whole-file parser: a file is captured again only when its content hash, carried in the
    offset field, has changed. Large files become chunks with the file's hash in each meta. */
module CursorParser {
  import opened Engrams
  import opened Chunking
  import opened ReassemblyRoundTrip
  import opened Reassembly

  const CURSOR_MAX_FILE_BYTES: nat := 100 * 0x10_0000

  /** A SHA-256 digest, in binary and in hexadecimal. */
  datatype Digest = Digest(sum: Bytes, hex: string)

  ghost predicate IsDigest(sha: Bytes -> Digest) {
    forall file :: |sha(file).sum| == 32
  }

  /** The value of a big-endian byte string. */
  function BigEndian(b: Bytes): nat {
    if b == [] then 0 else BigEndian(b[..|b| - 1]) * 256 + b[|b| - 1] as nat
  }

  function AsInt64(u: int): int {
    var m := u % WORD;
    if m >= 0x8000_0000_0000_0000 then m - WORD else m
  }

  function HashOffset(sum: Bytes): int
    requires |sum| == 32
  {
    AsInt64(BigEndian(sum[..8]))
  }

  /** Eight bytes as a big-endian number. */
  lemma EightBytes(b: Bytes)
    requires |b| == 8
    ensures BigEndian(b)
         == b[0] as int * 0x100_0000_0000_0000 + b[1] as int * 0x1_0000_0000_0000 + b[2] as int * 0x100_0000_0000
            + b[3] as int * 0x1_0000_0000 + b[4] as int * 0x100_0000 + b[5] as int * 0x1_0000 + b[6] as int * 0x100
            + b[7] as int
  {
    assert forall n | 0 < n <= 8 :: b[..n][..n - 1] == b[..n - 1];
    assert b[..8] == b && b[..0] == [];
    assert BigEndian(b[..1]) == b[0] as int;
    assert BigEndian(b[..2]) == BigEndian(b[..1]) * 256 + b[1] as int;
    assert BigEndian(b[..3]) == BigEndian(b[..2]) * 256 + b[2] as int;
    assert BigEndian(b[..4]) == BigEndian(b[..3]) * 256 + b[3] as int;
    assert BigEndian(b[..5]) == BigEndian(b[..4]) * 256 + b[4] as int;
    assert BigEndian(b[..6]) == BigEndian(b[..5]) * 256 + b[5] as int;
    assert BigEndian(b[..7]) == BigEndian(b[..6]) * 256 + b[6] as int;
    assert BigEndian(b[..8]) == BigEndian(b[..7]) * 256 + b[7] as int;
  }

  lemma {:induction false} BigEndianIsInjective(a: Bytes, b: Bytes)
    requires |a| == |b|
    ensures BigEndian(a) == BigEndian(b) <==> a == b
  {
    if a != [] {
      var n := |a| - 1;
      BigEndianIsInjective(a[..n], b[..n]);
      assert a == a[..n] + [a[n]] && b == b[..n] + [b[n]];
    }
  }

  lemma AsInt64IsInjective(u: int, v: int)
    requires 0 <= u < WORD && 0 <= v < WORD
    ensures AsInt64(u) == AsInt64(v) <==> u == v
    ensures -0x8000_0000_0000_0000 <= AsInt64(u) < 0x8000_0000_0000_0000
    ensures (AsInt64(u) - u) % 0x1_0000_0000_0000_0000 == 0
  {
  }

  /** The offset is the first eight digest bytes, no more and no less, as a signed 64-bit number. */
  lemma HashOffsetIsEightBytes(a: Bytes, b: Bytes)
    requires |a| == 32 && |b| == 32
    ensures HashOffset(a) == HashOffset(b) <==> a[..8] == b[..8]
    ensures HashOffset(a) == 0 <==> a[..8] == [0, 0, 0, 0, 0, 0, 0, 0]
    ensures -0x8000_0000_0000_0000 <= HashOffset(a) < 0x8000_0000_0000_0000
    ensures (HashOffset(a) - BigEndian(a[..8])) % 0x1_0000_0000_0000_0000 == 0
  {
    var zeros: Bytes := [0, 0, 0, 0, 0, 0, 0, 0];
    EightBytes(a[..8]);
    EightBytes(b[..8]);
    EightBytes(zeros);
    BigEndianIsInjective(a[..8], b[..8]);
    BigEndianIsInjective(a[..8], zeros);
    hide BigEndian, AsInt64;
    AsInt64IsInjective(BigEndian(a[..8]), BigEndian(b[..8]));
    AsInt64IsInjective(BigEndian(a[..8]), BigEndian(zeros));
    AsInt64OfZero();
  }

  lemma AsInt64OfZero()
    ensures AsInt64(0) == 0
  {
  }

  function FileFields(c: Tailer, digest: Digest, size: nat): map<string, Json> {
    map["path" := JStr(c.path), "hash" := JStr(digest.hex), "size" := JInt(size), "parser" := JStr("cursor/v1")]
  }

  function FileRecords(c: Tailer, digest: Digest, file: Bytes): seq<Record> {
    var fields := FileFields(c, digest, |file|);
    if |file| > CHUNK_PAYLOAD_BUDGET then ChunkRecords(fields, c.chunkId(file), file)
    else [Record(file, Object(fields))]
  }

  /** The file is one record with its path, digest and size; above 7 MiB it is several, numbered and marked. */
  lemma FileRecordsAre(c: Tailer, digest: Digest, file: Bytes)
    ensures var fields := map["path" := JStr(c.path), "hash" := JStr(digest.hex), "size" := JInt(|file|),
                              "parser" := JStr("cursor/v1")];
            var rs := FileRecords(c, digest, file);
            if |file| <= 7_340_032 then rs == [Record(file, Object(fields))]
            else
              && |rs| == (|file| + 7_340_031) / 7_340_032
              && forall k | 0 <= k < |rs| :: rs[k] == Record(PieceAt(file, k), ChunkMeta(fields, c.chunkId(file), k, |rs|))
  {
    hide ChunkRecords;
    ChunksAre(FileFields(c, digest, |file|), c.chunkId(file), file);
  }

  const WORD: int := 0x1_0000_0000_0000_0000

  lemma WrapIgnoresMultiples(x: int, k: int)
    ensures AsInt64(x + k * WORD) == AsInt64(x)
  {
    var q := x / WORD;
    assert x == q * WORD + x % WORD;
    assert x + k * WORD == (q + k) * WORD + x % WORD;
    assert (x + k * WORD) % WORD == x % WORD;
  }

  /** Wrapping before or after the next shift makes no difference. */
  lemma ShiftWraps(u: int, b: int)
    ensures AsInt64(AsInt64(u) * 256 + b) == AsInt64(u * 256 + b)
  {
    var k := u / WORD + if AsInt64(u) < 0 then 1 else 0;
    assert u == AsInt64(u) + k * WORD;
    WrapIgnoresMultiples(AsInt64(u) * 256 + b, 256 * k);
  }

  method PackHash(sum: Bytes) returns (offset: int)
    requires |sum| == 32
    ensures offset == HashOffset(sum)
  {
    offset := 0;
    for i := 0 to 8
      invariant offset == AsInt64(BigEndian(sum[..i]))
    {
      assert sum[..i + 1][..i] == sum[..i];
      ShiftWraps(BigEndian(sum[..i]), sum[i] as int);
      offset := AsInt64(offset * 256 + sum[i] as int);
    }
  }

  method Parse(c: Tailer, sha: Bytes -> Digest, mtime: int, file: Bytes, fromOffset: int)
    returns (engrams: seq<Engram>, newOffset: int)
    requires IsDigest(sha)
    ensures file == [] ==> engrams == [] && newOffset == 0
    ensures |file| > 104_857_600 ==> engrams == [] && newOffset == -|file|
    ensures 0 < |file| <= 104_857_600 ==>
              && newOffset == HashOffset(sha(file).sum)
              && Views(engrams) == if newOffset == fromOffset && fromOffset != 0 then [] else FileRecords(c, sha(file), file)
    ensures forall e | e in engrams :: e.id == 0 && e.surface == c.surface && e.ts == mtime
  {
    if |file| == 0 {
      return [], 0;
    }
    if |file| > CURSOR_MAX_FILE_BYTES {
      return [], -|file|;
    }
    var digest := sha(file);
    newOffset := PackHash(digest.sum);
    if newOffset == fromOffset && fromOffset != 0 {
      return [], fromOffset;
    }
    var fields := FileFields(c, digest, |file|);
    if |file| > CHUNK_PAYLOAD_BUDGET {
      var chunks := SplitOversized(c, mtime, JsonlFields(c), file);
      engrams := Relabel(c, fields, file, chunks);
    } else {
      engrams := [Engram(0, c.surface, mtime, file, Object(fields))];
    }
  }

  /** What splitOversized writes before the cursor parser replaces it. */
  function JsonlFields(c: Tailer): map<string, Json> {
    PlainMeta(c, 0).fields
  }

  /** The loop that gives each chunk the file's meta. */
  method Relabel(c: Tailer, fields: map<string, Json>, file: Bytes, chunks: seq<Engram>) returns (out: seq<Engram>)
    requires |chunks| == |Pieces(file)|
    requires forall i | 0 <= i < |chunks| :: chunks[i].payload == Pieces(file)[i]
    ensures Views(out) == ChunkRecords(fields, c.chunkId(file), file)
    ensures forall e | e in out :: exists d | d in chunks :: e.(meta := d.meta) == d
  {
    out := chunks;
    for i := 0 to |chunks|
      invariant |out| == |chunks|
      invariant forall k | 0 <= k < |out| :: out[k].(meta := chunks[k].meta) == chunks[k]
      invariant forall k | 0 <= k < i :: out[k].meta == WithChunk(fields, c.chunkId(file), k, |chunks|)
    {
      out := out[i := out[i].(meta := WithChunk(fields, c.chunkId(file), i, |out|))];
    }
  }

  // ----- A file saved again and again -----

  predicate Readable(file: Bytes) {
    0 < |file| <= CURSOR_MAX_FILE_BYTES
  }

  /** What a pass over the file leaves in the offset field. */
  function Mark(sha: Bytes -> Digest, file: Bytes): int
    requires IsDigest(sha)
  {
    if file == [] then 0 else if |file| > CURSOR_MAX_FILE_BYTES then -|file| else HashOffset(sha(file).sum)
  }

  /** Save i is captured: its content can be read, and its mark is not that of the save before it, or is 0. */
  predicate SaveCaptured(sha: Bytes -> Digest, files: seq<Bytes>, i: nat)
    requires IsDigest(sha) && i < |files|
  {
    var mark := Mark(sha, files[i]);
    Readable(files[i]) && (mark == 0 || i == 0 || mark != Mark(sha, files[i - 1]))
  }

  /** Save i is captured, by the bytes of the digests: it can be read, and its first eight digest bytes are all
      zero, or not those of the content before; an empty content before never matches, an over-cap one only if
      its size, negated, is their value. */
  ghost predicate EightBytesChanged(sha: Bytes -> Digest, files: seq<Bytes>, i: nat)
    requires IsDigest(sha) && i < |files|
  {
    && 0 < |files[i]| <= 104_857_600
    && (i == 0
        || sha(files[i]).sum[..8] == [0, 0, 0, 0, 0, 0, 0, 0]
        || |files[i - 1]| == 0
        || (|files[i - 1]| <= 104_857_600 && sha(files[i - 1]).sum[..8] != sha(files[i]).sum[..8])
        || (|files[i - 1]| > 104_857_600 && HashOffset(sha(files[i]).sum) != -|files[i - 1]|))
  }

  lemma CapturedIffEightBytesChanged(sha: Bytes -> Digest, files: seq<Bytes>, i: nat)
    requires IsDigest(sha) && i < |files|
    ensures SaveCaptured(sha, files, i) <==> EightBytesChanged(sha, files, i)
  {
    hide HashOffset;
    HashOffsetIsEightBytes(sha(files[i]).sum, sha(files[if i == 0 then 0 else i - 1]).sum);
  }

  /** A file never seen before, parsed after each of its saves from the offset the last pass left. */
  method CaptureSaves(c: Tailer, sha: Bytes -> Digest, mtimes: seq<int>, files: seq<Bytes>)
    returns (captured: seq<seq<Engram>>)
    requires IsDigest(sha) && |mtimes| == |files|
    ensures |captured| == |files|
    ensures forall i | 0 <= i < |files| ::
              Views(captured[i]) == if EightBytesChanged(sha, files, i) then FileRecords(c, sha(files[i]), files[i]) else []
  {
    forall i | 0 <= i < |files| ensures SaveCaptured(sha, files, i) <==> EightBytesChanged(sha, files, i) {
      CapturedIffEightBytesChanged(sha, files, i);
    }
    hide HashOffset, FileRecords, Views, EightBytesChanged;
    captured := [];
    var offset := 0;
    NothingViewed();
    for i := 0 to |files|
      invariant |captured| == i
      invariant offset == if i == 0 then 0 else Mark(sha, files[i - 1])
      invariant forall k | 0 <= k < i ::
                  Views(captured[k]) == if SaveCaptured(sha, files, k) then FileRecords(c, sha(files[k]), files[k]) else []
    {
      var engrams;
      engrams, offset := Parse(c, sha, mtimes[i], files[i], offset);
      captured := captured + [engrams];
    }
  }

  lemma NothingViewed()
    ensures Views([]) == []
  {
  }

  /** No content too large to read has a size that is, negated, the mark of a readable one. */
  ghost predicate SizesAreNoMarks(sha: Bytes -> Digest, files: seq<Bytes>)
    requires IsDigest(sha)
  {
    forall f, g | f in files && g in files && Readable(f) && |g| > CURSOR_MAX_FILE_BYTES ::
      Mark(sha, f) != Mark(sha, g)
  }

  /** After any number of saves, empty and over-sized ones among them, the latest capture of a content that can
      be read has its mark. So a content is missed only when it collides, in the first eight bytes of its hash,
      with the one captured last. */
  lemma {:induction false} LatestCapture(sha: Bytes -> Digest, files: seq<Bytes>, i: nat) returns (j: nat)
    requires IsDigest(sha) && i < |files| && Readable(files[i]) && SizesAreNoMarks(sha, files)
    ensures j <= i && SaveCaptured(sha, files, j) && (forall k | j < k <= i :: !SaveCaptured(sha, files, k))
    ensures Mark(sha, files[j]) == Mark(sha, files[i])
  {
    hide HashOffset;
    if SaveCaptured(sha, files, i) {
      j := i;
    } else {
      assert files[i] in files && files[i - 1] in files;
      j := LatestCapture(sha, files, i - 1);
    }
  }

  /** The rows of a captured file once the store has numbered them. */
  function StoredRows(c: Tailer, digest: Digest, file: Bytes, ids: seq<int>, mtime: int): seq<Engram>
    requires |ids| == |FileRecords(c, digest, file)|
  {
    seq(|ids|, i requires 0 <= i < |ids| =>
      Engram(ids[i], c.surface, mtime, FileRecords(c, digest, file)[i].payload, FileRecords(c, digest, file)[i].meta))
  }

  lemma StoredRowsAreRowsOf(c: Tailer, digest: Digest, file: Bytes, ids: seq<int>, mtime: int)
    requires c.chunkId(file) != "" && |ids| == |FileRecords(c, digest, file)|
    ensures var r := Capture(ids, c.surface, mtime, file, FileFields(c, digest, |file|));
            && Proper(r, c.chunkId) && ids != []
            && RowsOf(r, c.chunkId) == StoredRows(c, digest, file, ids, mtime)
  {
    hide Pieces;
    PiecesRejoin(file);
  }

  /** A captured file, whatever its size, comes back whole from its rows in any order. */
  lemma CapturedFileReassembles(c: Tailer, digest: Digest, file: Bytes, ids: seq<int>, mtime: int, rows: seq<Engram>)
    requires c.chunkId(file) != "" && |ids| == |FileRecords(c, digest, file)|
    requires multiset(rows) == multiset(StoredRows(c, digest, file, ids, mtime))
    ensures |Reassemble(rows)| == 1 && Reassemble(rows)[0].payload == file
  {
    hide Pieces, Reassemble, StoredRows, RowsOf, FileFields, ChunkRecords;
    StoredRowsAreRowsOf(c, digest, file, ids, mtime);
    var r := Capture(ids, c.surface, mtime, file, FileFields(c, digest, |file|));
    var rs := [r];
    assert rs[..|rs| - 1] == [];
    assert AllRows(rs, c.chunkId) == RowsOf(r, c.chunkId);
    AnyOrderRoundTrip(rs, c.chunkId, rows);
    assert Wholes(rs) == [WholeOf(r)];
    var out := Reassemble(rows);
    assert |out| == |multiset(out)| == |multiset(Wholes(rs))| == 1;
    assert out[0] in multiset(Wholes(rs));
  }
}
