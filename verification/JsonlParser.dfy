/** The incremental JSONL parser: it resumes at a byte offset, emits one record per complete
    non-blank line and leaves an unterminated last line for the next pass. */
module JsonlParser {
  import opened Engrams
  import opened Chunking

  const LF: byte := 10
  const CR: byte := 13
  const JSONL_MAX_FILE_BYTES: nat := 500 * 0x10_0000

  function TrimRight(b: Bytes, cut: byte): (r: Bytes)
    ensures r <= b && (forall k | |r| <= k < |b| :: b[k] == cut)
    ensures r != [] ==> r[|r| - 1] != cut
  {
    if b != [] && b[|b| - 1] == cut then TrimRight(b[..|b| - 1], cut) else b
  }

  // ----- What a region of a file contains -----

  /** The first newline at or after i, or the end of the file. */
  function LineEnd(file: Bytes, i: nat): (e: nat)
    requires i <= |file|
    ensures i <= e <= |file|
    ensures forall k | i <= k < e :: file[k] != LF
    ensures e < |file| ==> file[e] == LF
    decreases |file| - i
  {
    if i == |file| || file[i] == LF then i else LineEnd(file, i + 1)
  }

  function LineRecords(c: Tailer, line: Bytes, offsetEnd: int): seq<Record> {
    var raw := TrimRight(line, CR);
    var meta := PlainMeta(c, offsetEnd);
    if raw == [] then []
    else if |raw| > CHUNK_PAYLOAD_BUDGET then ChunkRecords(meta.fields, c.chunkId(raw), raw)
    else [Record(raw, meta)]
  }

  /** The records of every line that starts at or after `from` and whose newline is before `upto`. */
  function Records(c: Tailer, file: Bytes, from: nat, upto: nat): seq<Record>
    requires from <= upto <= |file|
    decreases upto - from
  {
    var e := LineEnd(file, from);
    if e >= upto then []
    else LineRecords(c, file[from..e], e + 1) + Records(c, file, e + 1, upto)
  }

  function HasBom(file: Bytes): bool {
    |file| >= 3 && file[0] == 0xEF && file[1] == 0xBB && file[2] == 0xBF
  }

  /** Where the text of a file begins. */
  function TextStart(file: Bytes): (s: nat)
    ensures s <= |file|
    ensures s == if [0xEF, 0xBB, 0xBF] <= file then 3 else 0
  {
    if HasBom(file) then 3 else 0
  }

  /** Every record of the complete lines of a file. */
  function AllRecords(c: Tailer, file: Bytes): seq<Record> {
    Records(c, file, TextStart(file), |file|)
  }

  /** The non-blank lines, without line ends, that start at or after `from` and end before `upto`. */
  function Lines(file: Bytes, from: nat, upto: nat): seq<Bytes>
    requires from <= upto <= |file|
    decreases upto - from
  {
    var e := LineEnd(file, from);
    if e >= upto then []
    else NonBlank(TrimRight(file[from..e], CR)) + Lines(file, e + 1, upto)
  }

  function NonBlank(raw: Bytes): seq<Bytes> {
    if raw == [] then [] else [raw]
  }

  // ----- What one pass consumes -----

  /** One past the last newline of file[s..e], or s. */
  function TerminatedEnd(file: Bytes, s: nat, e: nat): (t: nat)
    requires s <= e <= |file|
    ensures s <= t <= e
    ensures forall k | t <= k < e :: file[k] != LF
    ensures t > s ==> file[t - 1] == LF
    decreases e
  {
    if e == s || file[e - 1] == LF then e else TerminatedEnd(file, s, e - 1)
  }

  /** e moved left over the newlines that end file[s..e]. */
  function TrimmedEnd(file: Bytes, s: nat, e: nat): (m: nat)
    requires s <= e <= |file|
    ensures s <= m <= e
    ensures forall k | m <= k < e :: file[k] == LF
    ensures m > s ==> file[m - 1] != LF
    decreases e
  {
    if e > s && file[e - 1] == LF then TrimmedEnd(file, s, e - 1) else e
  }

  /** The bytes a pass over file[s..] consumes end just after its last non-blank complete line,
      or after the first newline when all complete lines are empty. */
  function Consumed(file: Bytes, s: nat): (o: nat)
    requires s <= |file|
    ensures s <= o <= |file|
    ensures o > s ==> file[o - 1] == LF
  {
    var t := TerminatedEnd(file, s, |file|);
    if t == s then s else TrimmedEnd(file, s, t) + 1
  }

  /** The records and the new offset of one pass. */
  function ParseOutcome(c: Tailer, file: Bytes, fromOffset: nat): (seq<Record>, nat) {
    var from := if fromOffset > |file| then 0 else fromOffset;
    if file == [] then ([], 0)
    else if |file| - from > JSONL_MAX_FILE_BYTES then ([], |file|)
    else
      var s := if from == 0 then TextStart(file) else from;
      (Records(c, file, s, Consumed(file, s)), Consumed(file, s))
  }

  /** Where the line ends that a record's meta names. */
  function LineOf(meta: Meta): int {
    if meta.Object? && "offset_end" in meta.fields && meta.fields["offset_end"].JInt? then meta.fields["offset_end"].n
    else 0
  }

  /** The rows of one line, several when it is split, carry one time and one surface. */
  ghost predicate OneStampPerLine(es: seq<Engram>) {
    forall d, e | d in es && e in es && LineOf(d.meta) == LineOf(e.meta) :: d.ts == e.ts && d.surface == e.surface
  }

  /** The record is this text, or a chunk that names it. */
  ghost predicate IsOf(c: Tailer, r: Record, raw: Bytes) {
    r.meta.Object? && if "chunk_id" in r.meta.fields then r.meta.fields["chunk_id"] == JStr(c.chunkId(raw)) else r.payload == raw
  }

  /** Each row has the time found in its whole line, or the clock's. */
  ghost predicate Timed(c: Tailer, now: int, es: seq<Engram>) {
    forall e | e in es :: exists raw :: IsOf(c, View(e), raw) && e.ts == c.stamp(raw, now)
  }

  lemma LineOfRecords(c: Tailer, line: Bytes, offsetEnd: int)
    ensures forall r | r in LineRecords(c, line, offsetEnd) ::
              LineOf(r.meta) == offsetEnd && IsOf(c, r, TrimRight(line, CR))
  {
    hide Pieces, TrimRight;
  }

  // ----- The source's algorithm -----

  function Split(b: Bytes): (lines: seq<Bytes>)
    ensures lines != []
    decreases |b|
  {
    var e := LineEnd(b, 0);
    if e == |b| then [b] else [b[..e]] + Split(b[e + 1..])
  }

  function LastIndex(b: Bytes): (i: int)
    ensures -1 <= i < |b| && (i >= 0 ==> b[i] == LF)
    ensures forall k | i < k < |b| :: b[k] != LF
  {
    if b == [] || b[|b| - 1] == LF then |b| - 1
    else
      assert forall k | 0 <= k < |b| - 1 :: b[..|b| - 1][k] == b[k];
      LastIndex(b[..|b| - 1])
  }

  lemma {:induction false} TrimRightSlice(file: Bytes, s: nat, e: nat)
    requires s <= e <= |file|
    ensures TrimRight(file[s..e], LF) == file[s..TrimmedEnd(file, s, e)]
    decreases e
  {
    if e > s && file[e - 1] == LF {
      assert file[s..e][..e - s - 1] == file[s..e - 1];
      TrimRightSlice(file, s, e - 1);
    }
  }

  lemma LineEndUnique(b: Bytes, i: nat, e: nat)
    requires i <= e <= |b|
    requires forall k | i <= k < e :: b[k] != LF
    requires e < |b| ==> b[e] == LF
    ensures LineEnd(b, i) == e
  {
  }

  lemma LineEndSlice(file: Bytes, i: nat, e: nat)
    requires i <= e <= |file|
    ensures LineEnd(file[i..e], 0) == if LineEnd(file, i) < e then LineEnd(file, i) - i else e - i
  {
    assert forall k | 0 <= k < e - i :: file[i..e][k] == file[i + k];
    LineEndUnique(file[i..e], 0, if LineEnd(file, i) < e then LineEnd(file, i) - i else e - i);
  }

  /** Nothing of an empty file, nothing of one with more than 500 MiB to read, which is skipped to its end, and
      otherwise the lines up to the new offset from the old one on; from 0 if the file is shorter than that;
      after the byte-order mark, if one is there. */
  ghost predicate ReadsFrom(c: Tailer, file: Bytes, fromOffset: nat, records: seq<Record>, newOffset: nat) {
    var from := if fromOffset > |file| then 0 else fromOffset;
    if |file| == 0 then records == [] && newOffset == 0
    else if |file| - from > 524_288_000 then records == [] && newOffset == |file|
    else
      var start := if from == 0 && [0xEF, 0xBB, 0xBF] <= file then 3 else from;
      start <= newOffset <= |file| && records == Records(c, file, start, newOffset)
  }

  method Parse(c: Tailer, now: int, file: Bytes, fromOffset: nat)
    returns (engrams: seq<Engram>, newOffset: nat)
    ensures (Views(engrams), newOffset) == ParseOutcome(c, file, fromOffset)
    ensures ReadsFrom(c, file, fromOffset, Views(engrams), newOffset)
    ensures forall e | e in engrams :: e.id == 0 && e.surface == c.surface
    ensures OneStampPerLine(engrams) && Timed(c, now, engrams)
  {
    hide Records, Consumed;
    var from := fromOffset;
    if |file| == 0 {
      return [], 0;
    }
    if from > |file| {
      from := 0;
    }
    if |file| - from > JSONL_MAX_FILE_BYTES {
      return [], |file|;
    }
    var buf := file[from..];
    if from == 0 && |buf| >= 3 && buf[0] == 0xEF && buf[1] == 0xBB && buf[2] == 0xBF {
      buf := buf[3..];
      from := from + 3;
    }
    engrams, newOffset := ParseBuffer(c, now, buf, from, file);
  }

  /** The rest of Parse, once the byte-order mark is out of the way. */
  method ParseBuffer(c: Tailer, now: int, buf: Bytes, from: nat, ghost file: Bytes)
    returns (engrams: seq<Engram>, newOffset: nat)
    requires from <= |file| && buf == file[from..]
    ensures newOffset == Consumed(file, from)
    ensures Views(engrams) == Records(c, file, from, newOffset)
    ensures forall e | e in engrams :: e.id == 0 && e.surface == c.surface
    ensures OneStampPerLine(engrams) && Timed(c, now, engrams)
  {
    hide Split, LinesRecords, LinesEnd, LineRecords, TrimRight, LineOf, Consumed, IsOf;
    ConsumedIs(file, from);
    var consumable := buf;
    ghost var t := TerminatedEnd(file, from, |file|);
    if !(|buf| > 0 && buf[|buf| - 1] == LF) {
      var index := LastIndex(buf);
      TerminatedEndIsLastIndex(file, from, index);
      if index < 0 {
        assert LineEnd(file, from) >= from;
        return [], from;
      }
      consumable := buf[..index + 1];
    } else {
      assert buf[|buf| - 1] == file[|file| - 1];
    }
    assert consumable == file[from..t];
    TrimRightSlice(file, from, t);
    var lines := Split(TrimRight(consumable, LF));
    SplitEmitsRecords(c, file, from, TrimmedEnd(file, from, t));
    engrams, newOffset := EmitLines(c, now, lines, from);
  }

  lemma ConsumedIs(file: Bytes, s: nat)
    requires s <= |file|
    ensures var t := TerminatedEnd(file, s, |file|); Consumed(file, s) == if t == s then s else TrimmedEnd(file, s, t) + 1
  {
  }

  /** What the loop over the lines emits when the first of them starts at `offset`. */
  function LinesRecords(c: Tailer, lines: seq<Bytes>, offset: nat): seq<Record> {
    if lines == [] then []
    else
      var end := offset + |lines[0]| + 1;
      LineRecords(c, lines[0], end) + LinesRecords(c, lines[1..], end)
  }

  function LinesEnd(lines: seq<Bytes>, offset: nat): nat {
    if lines == [] then offset else LinesEnd(lines[1..], offset + |lines[0]| + 1)
  }

  method EmitLines(c: Tailer, now: int, lines: seq<Bytes>, from: nat)
    returns (engrams: seq<Engram>, cumOffset: nat)
    ensures cumOffset == LinesEnd(lines, from)
    ensures Views(engrams) == LinesRecords(c, lines, from)
    ensures forall e | e in engrams :: e.id == 0 && e.surface == c.surface
    ensures OneStampPerLine(engrams) && Timed(c, now, engrams)
  {
    hide LineRecords, IsOf;
    engrams := [];
    cumOffset := from;
    for k := 0 to |lines|
      invariant LinesEnd(lines[k..], cumOffset) == LinesEnd(lines, from)
      invariant LinesRecords(c, lines, from) == Views(engrams) + LinesRecords(c, lines[k..], cumOffset)
      invariant forall e | e in engrams :: e.id == 0 && e.surface == c.surface && LineOf(e.meta) <= cumOffset
      invariant OneStampPerLine(engrams) && Timed(c, now, engrams)
    {
      var line := lines[k];
      assert lines[k..][1..] == lines[k + 1..];
      cumOffset := cumOffset + |line| + 1;
      var added := EmitLine(c, now, line, cumOffset);
      ViewsAppend(engrams, added);
      engrams := engrams + added;
    }
  }

  lemma SplitStep(file: Bytes, o: nat, m: nat)
    requires o <= m < |file|
    ensures var e := LineEnd(file, o);
            Split(file[o..m]) == if e < m then [file[o..e]] + Split(file[e + 1..m]) else [file[o..m]]
  {
    LineEndSlice(file, o, m);
    var e := LineEnd(file, o);
    if e < m {
      assert file[o..m][..e - o] == file[o..e];
      assert file[o..m][e - o + 1..] == file[e + 1..m];
    }
  }

  lemma LinesCons(c: Tailer, line: Bytes, rest: seq<Bytes>, o: nat)
    ensures var end := o + |line| + 1;
            && LinesEnd([line] + rest, o) == LinesEnd(rest, end)
            && LinesRecords(c, [line] + rest, o) == LineRecords(c, line, end) + LinesRecords(c, rest, end)
  {
    hide LineRecords;
    assert ([line] + rest)[1..] == rest;
  }

  /** Splitting file[o..m] at its newlines and emitting line by line gives the records of the region
      closed by the newline at m. */
  lemma {:induction false} SplitEmitsRecords(c: Tailer, file: Bytes, o: nat, m: nat)
    requires o <= m < |file| && file[m] == LF
    ensures LinesEnd(Split(file[o..m]), o) == m + 1
    ensures LinesRecords(c, Split(file[o..m]), o) == Records(c, file, o, m + 1)
    decreases m - o
  {
    hide LineRecords, Split, LinesRecords, LinesEnd;
    SplitStep(file, o, m);
    var e := LineEnd(file, o);
    if e < m {
      SplitEmitsRecords(c, file, e + 1, m);
      LinesCons(c, file[o..e], Split(file[e + 1..m]), o);
    } else {
      LineEndUnique(file, o, m);
      LinesLast(c, file[o..m], o);
      assert Records(c, file, m + 1, m + 1) == [];
    }
  }

  lemma LinesLast(c: Tailer, line: Bytes, o: nat)
    ensures LinesEnd([line], o) == o + |line| + 1
    ensures LinesRecords(c, [line], o) == LineRecords(c, line, o + |line| + 1)
  {
    hide LineRecords;
    assert [line][1..] == [];
    assert LinesRecords(c, [], o + |line| + 1) == [];
  }

  method EmitLine(c: Tailer, now: int, line: Bytes, cumOffset: nat) returns (added: seq<Engram>)
    ensures Views(added) == LineRecords(c, line, cumOffset)
    ensures forall e | e in added :: e.id == 0 && e.surface == c.surface && LineOf(e.meta) == cumOffset
    ensures forall d, e | d in added && e in added :: d.ts == e.ts
    ensures Timed(c, now, added)
  {
    LineOfRecords(c, line, cumOffset);
    var raw := TrimRight(line, CR);
    if raw == [] {
      return [];
    }
    var ts := c.stamp(raw, now);
    var meta := PlainMeta(c, cumOffset);
    if |raw| > CHUNK_PAYLOAD_BUDGET {
      added := SplitOversized(c, ts, meta.fields, raw);
    } else {
      added := [Engram(0, c.surface, ts, raw, meta)];
    }
    forall e | e in added ensures IsOf(c, View(e), raw) && e.ts == c.stamp(raw, now) {
      var i :| 0 <= i < |added| && added[i] == e;
      assert Views(added)[i] in LineRecords(c, line, cumOffset);
    }
  }

  lemma TerminatedEndIsLastIndex(file: Bytes, s: nat, index: int)
    requires s <= |file|
    requires index == LastIndex(file[s..])
    ensures TerminatedEnd(file, s, |file|) == s + index + 1
  {
    var t := TerminatedEnd(file, s, |file|);
    assert forall k | 0 <= k < |file| - s :: file[s..][k] == file[s + k];
    assert index >= 0 ==> file[s + index] == LF;
    assert forall k | s + index < k < |file| :: file[k] == file[s..][k - s];
  }
}
