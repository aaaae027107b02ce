/** What a tailed file says, apart from how it is read: the lines written to it are the payloads captured. */
module JsonlText {
  import opened Engrams
  import opened Collections
  import opened Chunking
  import opened JsonlParser
  import opened JsonlTailing

  /** The text that results from writing lines, each with a newline after it. */
  function Text(written: seq<Bytes>): Bytes {
    if written == [] then [] else written[0] + [LF] + Text(written[1..])
  }

  /** What should be captured of them: carriage returns at the end cut off, and blank ones left out. */
  function Kept(written: seq<Bytes>): seq<Bytes> {
    if written == [] then []
    else
      var raw := TrimRight(written[0], CR);
      (if |raw| == 0 then [] else [raw]) + Kept(written[1..])
  }

  lemma Middle<T>(a: seq<T>, b: seq<T>, c: seq<T>)
    ensures (a + b + c)[|a|..|a| + |b|] == b
    ensures c != [] ==> (a + b + c)[|a| + |b|] == c[0]
    ensures forall k | 0 <= k < |b| :: (a + b + c)[|a| + k] == b[k]
  {
  }

  lemma LineStands(before: Bytes, line: Bytes, rest: Bytes)
    requires LF !in line
    ensures var file := before + line + [LF] + rest;
            LineEnd(file, |before|) == |before| + |line| && file[|before|..|before| + |line|] == line
  {
    var file, e := before + line + [LF] + rest, |before| + |line|;
    Regroup(before + line, [LF], rest);
    Middle(before, line, [LF] + rest);
    forall k | |before| <= k < e ensures file[k] != LF {
      assert file[|before| + (k - |before|)] == line[k - |before|];
    }
    LineEndUnique(file, |before|, e);
  }

  lemma TailHasNoLines(before: Bytes, tail: Bytes)
    requires LF !in tail
    ensures Lines(before + tail, |before|, |before + tail|) == []
  {
    var file := before + tail;
    forall k | |before| <= k < |file| ensures file[k] != LF {
      assert file[k] == tail[k - |before|];
    }
    LineEndUnique(file, |before|, |file|);
  }

  /** The lines of a text are the lines written, wherever the text stands in a file and whatever unterminated
      line follows it. */
  lemma {:induction false} WrittenLinesAreTheLines(before: Bytes, written: seq<Bytes>, tail: Bytes)
    requires (forall line | line in written :: LF !in line) && LF !in tail
    ensures var file := before + Text(written) + tail; Lines(file, |before|, |file|) == Kept(written)
    decreases |written|
  {
    hide TrimRight, LineEnd, Lines, NonBlank, Kept;
    KeptFirst(written);
    if written == [] {
      TailHasNoLines(before, tail);
      assert before + Text(written) + tail == before + tail;
    } else {
      var line, rest := written[0], Text(written[1..]) + tail;
      assert line in written;
      Rearranged(before, line, Text(written[1..]), tail);
      LineStands(before, line, rest);
      FirstLine(before + line + [LF] + rest, |before|, |before| + |line|);
      WrittenLinesAreTheLines(before + line + [LF], written[1..], tail);
    }
  }

  lemma KeptFirst(written: seq<Bytes>)
    ensures Kept(written) == if written == [] then [] else NonBlank(TrimRight(written[0], CR)) + Kept(written[1..])
  {
    hide TrimRight;
  }

  lemma FirstLine(file: Bytes, from: nat, e: nat)
    requires from <= e < |file| && LineEnd(file, from) == e
    ensures Lines(file, from, |file|) == NonBlank(TrimRight(file[from..e], CR)) + Lines(file, e + 1, |file|)
  {
    hide TrimRight, NonBlank;
  }

  lemma Rearranged(before: Bytes, line: Bytes, text: Bytes, tail: Bytes)
    ensures before + (line + [LF] + text) + tail == before + line + [LF] + (text + tail)
    ensures before + line + [LF] + text + tail == before + line + [LF] + (text + tail)
    ensures |before + line + [LF]| == |before| + |line| + 1
  {
  }

  // ----- The payloads of a region -----

  function PayloadsIn(rs: seq<Record>): (r: seq<Bytes>)
    ensures |r| == |rs| && forall i | 0 <= i < |rs| :: r[i] == rs[i].payload
  {
    seq(|rs|, i requires 0 <= i < |rs| => rs[i].payload)
  }

  /** Each line whole, or in pieces when it is above the budget. */
  function PiecesOf(lines: seq<Bytes>): seq<Bytes> {
    if lines == [] then [] else Pieces(lines[0]) + PiecesOf(lines[1..])
  }

  lemma LinePayloads(c: Tailer, line: Bytes, offsetEnd: int)
    ensures PayloadsIn(LineRecords(c, line, offsetEnd)) == PiecesOf(NonBlank(TrimRight(line, CR)))
  {
    var raw := TrimRight(line, CR);
    hide TrimRight;
    if raw != [] {
      assert PiecesOf([raw]) == Pieces(raw) + PiecesOf([]) == Pieces(raw);
      assert |raw| <= CHUNK_PAYLOAD_BUDGET ==> Pieces(raw) == [raw];
      hide Pieces;
      assert PayloadsIn(LineRecords(c, line, offsetEnd)) == Pieces(raw);
    }
  }

  lemma {:induction false} PiecesOfSum(a: seq<Bytes>, b: seq<Bytes>)
    ensures PiecesOf(a + b) == PiecesOf(a) + PiecesOf(b)
  {
    hide Pieces;
    if a == [] {
      assert a + b == b;
    } else {
      PiecesOfSum(a[1..], b);
      RestOfSum(a, b);
      Regroup(Pieces(a[0]), PiecesOf(a[1..]), PiecesOf(b));
    }
  }

  lemma PayloadsInSum(a: seq<Record>, b: seq<Record>)
    ensures PayloadsIn(a + b) == PayloadsIn(a) + PayloadsIn(b)
  {
  }

  lemma NoPayloads()
    ensures PayloadsIn([]) == [] == PiecesOf([])
  {
  }

  lemma {:induction false} RegionPayloads(c: Tailer, file: Bytes, from: nat, upto: nat)
    requires from <= upto <= |file|
    ensures PayloadsIn(Records(c, file, from, upto)) == PiecesOf(Lines(file, from, upto))
    decreases upto - from
  {
    hide LineRecords, TrimRight, PayloadsIn, PiecesOf, NonBlank;
    var e := LineEnd(file, from);
    if e < upto {
      var line := file[from..e];
      RegionPayloads(c, file, e + 1, upto);
      LinePayloads(c, line, e + 1);
      PayloadsInSum(LineRecords(c, line, e + 1), Records(c, file, e + 1, upto));
      PiecesOfSum(NonBlank(TrimRight(line, CR)), Lines(file, e + 1, upto));
    } else {
      NoPayloads();
    }
  }

  ghost function MetaOfLine(c: Tailer, offsetEnd: int): map<string, Json> {
    map["path" := JStr(c.path), "offset_end" := JInt(offsetEnd), "parser" := JStr("jsonl/v1")]
  }

  /** A line that is not blank is one record with its path and where it ends; above 7 MiB it is several,
      numbered and marked with the digest of the whole line. */
  lemma LineRecordsAre(c: Tailer, line: Bytes, offsetEnd: int)
    ensures var raw, fields := TrimRight(line, CR), MetaOfLine(c, offsetEnd);
            var rs := LineRecords(c, line, offsetEnd);
            if |raw| == 0 then rs == []
            else if |raw| <= 7_340_032 then rs == [Record(raw, Object(fields))]
            else
              && |rs| == (|raw| + 7_340_031) / 7_340_032
              && forall k | 0 <= k < |rs| :: rs[k] == Record(PieceAt(raw, k), ChunkMeta(fields, c.chunkId(raw), k, |rs|))
  {
    hide TrimRight, ChunkRecords;
    var raw := TrimRight(line, CR);
    ChunksAre(MetaOfLine(c, offsetEnd), c.chunkId(raw), raw);
  }

  /** A record of a region is one of the line it names by its end: the bytes after the newline before it, or
      after the start, up to its own. */
  lemma {:induction false} RecordNamesItsLine(c: Tailer, file: Bytes, from: nat, upto: nat, r: Record)
    returns (a: nat, o: nat)
    requires from <= upto <= |file| && r in Records(c, file, from, upto)
    ensures from <= a < o <= upto && (a == from || file[a - 1] == LF) && file[o - 1] == LF
    ensures forall k | a <= k < o - 1 :: file[k] != LF
    ensures r in LineRecords(c, file[a..o - 1], o)
    decreases upto - from
  {
    hide LineRecords;
    var e := LineEnd(file, from);
    if r in LineRecords(c, file[from..e], e + 1) {
      a, o := from, e + 1;
    } else {
      a, o := RecordNamesItsLine(c, file, e + 1, upto, r);
    }
  }

  // ----- One Parse -----

  /** What a Parse yields, by the bytes of the file: nothing of an empty or an over-cap file; else the payloads of
      all its complete lines from the offset on, from 0 if the file is shorter than that, from 3 if it begins
      with a byte-order mark. The new offset is after the newline of the last of them that is not empty, and no
      line is left. */
  lemma ParseReadsTheLines(c: Tailer, file: Bytes, fromOffset: nat)
    ensures var (records, next) := ParseOutcome(c, file, fromOffset);
            var from := if fromOffset > |file| then 0 else fromOffset;
            if |file| == 0 then records == [] && next == 0
            else if |file| - from > 524_288_000 then records == [] && next == |file|
            else
              var start := if from == 0 && [0xEF, 0xBB, 0xBF] <= file then 3 else from;
              && start <= next <= |file|
              && PayloadsIn(records) == PiecesOf(Lines(file, start, |file|))
              && (next > start ==> file[next - 1] == LF)
              && (next > start + 1 ==> file[next - 2] != LF)
              && Lines(file, next, |file|) == []
  {
    var from := if fromOffset > |file| then 0 else fromOffset;
    hide ParseOutcome, Records, Consumed, Lines, PayloadsIn, PiecesOf;
    if |file| == 0 || |file| - from > 524_288_000 {
      NothingToRead(c, file, fromOffset);
    } else {
      var start := if from == 0 then TextStart(file) else from;
      OutcomeOfRegion(c, file, fromOffset, start);
      RegionIsRead(c, file, start);
    }
  }

  lemma NothingToRead(c: Tailer, file: Bytes, fromOffset: nat)
    requires |file| == 0 || |file| - (if fromOffset > |file| then 0 else fromOffset) > 524_288_000
    ensures ParseOutcome(c, file, fromOffset) == ([], |file|)
  {
  }

  lemma OutcomeOfRegion(c: Tailer, file: Bytes, fromOffset: nat, start: nat)
    requires var from := if fromOffset > |file| then 0 else fromOffset;
             0 < |file| <= from + 524_288_000 && start == if from == 0 then TextStart(file) else from
    ensures ParseOutcome(c, file, fromOffset) == (Records(c, file, start, Consumed(file, start)), Consumed(file, start))
  {
    hide Records, Consumed;
  }

  lemma RegionIsRead(c: Tailer, file: Bytes, start: nat)
    requires start <= |file|
    ensures var next := Consumed(file, start);
            && start <= next <= |file|
            && PayloadsIn(Records(c, file, start, next)) == PiecesOf(Lines(file, start, |file|))
            && (next > start ==> file[next - 1] == LF)
            && (next > start + 1 ==> file[next - 2] != LF)
            && Lines(file, next, |file|) == []
  {
    hide Records, Lines, PayloadsIn, PiecesOf, Residue, Consumed;
    var next := Consumed(file, start);
    ConsumedLeavesResidue(file, start);
    ConsumedEndsLine(file, start);
    RegionPayloads(c, file, start, next);
    ResidueHasNoLines(file, next);
    LinesSplit(file, start, next, |file|);
    assert Lines(file, start, next) + [] == Lines(file, start, next);
  }

  lemma ConsumedEndsLine(file: Bytes, s: nat)
    requires s <= |file|
    ensures Consumed(file, s) > s + 1 ==> file[Consumed(file, s) - 2] != LF
  {
  }

  lemma {:induction false} NewlinesHoldNoLines(file: Bytes, p: nat, t: nat)
    requires ResidueTo(file, p, t)
    ensures Lines(file, p, |file|) == []
    decreases t - p
  {
    if p < t {
      LineEndUnique(file, p, p);
      assert file[p..p] == [];
      NewlinesHoldNoLines(file, p + 1, t);
    } else {
      LineEndUnique(file, p, |file|);
    }
  }

  lemma ResidueHasNoLines(file: Bytes, p: nat)
    requires p <= |file| && Residue(file, p)
    ensures Lines(file, p, |file|) == []
  {
    var t: nat :| ResidueTo(file, p, t);
    NewlinesHoldNoLines(file, p, t);
  }

  lemma {:induction false} LinesSplit(file: Bytes, from: nat, mid: nat, upto: nat)
    requires from <= mid <= upto <= |file|
    requires mid == from || file[mid - 1] == LF
    ensures Lines(file, from, upto) == Lines(file, from, mid) + Lines(file, mid, upto)
    decreases upto - from
  {
    hide TrimRight, NonBlank;
    var e := LineEnd(file, from);
    if mid == from {
      assert [] + Lines(file, mid, upto) == Lines(file, mid, upto);
    } else if e < upto {
      LinesSplit(file, e + 1, mid, upto);
      Regroup(NonBlank(TrimRight(file[from..e], CR)), Lines(file, e + 1, mid), Lines(file, mid, upto));
    }
  }

  /** So a file written line by line is captured line by line, with or without a byte-order mark. */
  lemma WrittenLinesAreCaptured(c: Tailer, written: seq<Bytes>, tail: Bytes, bom: bool)
    requires (forall line | line in written :: LF !in line) && LF !in tail
    requires !bom ==> !([0xEF, 0xBB, 0xBF] <= Text(written) + tail)
    requires |Text(written) + tail| <= 524_287_997
    ensures var file := (if bom then [0xEF, 0xBB, 0xBF] else []) + Text(written) + tail;
            PayloadsIn(ParseOutcome(c, file, 0).0) == PiecesOf(Kept(written))
  {
    hide Kept, PiecesOf, ParseOutcome, Lines;
    var before: Bytes := if bom then [0xEF, 0xBB, 0xBF] else [];
    var file := before + Text(written) + tail;
    assert file == before + (Text(written) + tail);
    assert bom ==> [0xEF, 0xBB, 0xBF] <= file;
    assert !bom ==> file == Text(written) + tail;
    WrittenLinesAreTheLines(before, written, tail);
    ParseReadsTheLines(c, file, 0);
    if file == [] {
      EmptyHasNoLines(file);
      assert |before| == 0;
    }
  }

  lemma EmptyHasNoLines(file: Bytes)
    requires file == []
    ensures Lines(file, 0, 0) == [] && PiecesOf([]) == []
  {
  }
}
