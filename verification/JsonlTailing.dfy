/** Tailing a file that only grows: whatever prefixes the passes happen to see, together they emit
    what a single pass over the final file emits. */
module JsonlTailing {
  import opened Engrams
  import opened Chunking
  import opened JsonlParser

  /** The byte position an offset stands for: offset 0 stands for the start of the text. */
  function Pos(file: Bytes, o: nat): nat {
    if o == 0 then TextStart(file) else o
  }

  /** An offset at which a pass can resume without splitting a line. */
  ghost predicate AtLine(file: Bytes, o: nat) {
    && TextStart(file) <= Pos(file, o) <= |file|
    && (Pos(file, o) == TextStart(file) || file[Pos(file, o) - 1] == LF)
  }

  /** The records in front of an offset. */
  ghost function Captured(c: Tailer, file: Bytes, o: nat): seq<Record>
    requires AtLine(file, o)
  {
    Records(c, file, TextStart(file), Pos(file, o))
  }

  ghost predicate ResidueTo(file: Bytes, p: nat, t: nat) {
    && p <= t <= |file|
    && (forall k | p <= k < t :: file[k] == LF)
    && (forall k | t <= k < |file| :: file[k] != LF)
  }

  /** From p on there are only newlines, then at most one unterminated line. */
  ghost predicate Residue(file: Bytes, p: nat) {
    exists t: nat :: ResidueTo(file, p, t)
  }

  lemma {:induction false} NoRecordsInNewlines(c: Tailer, file: Bytes, p: nat, t: nat)
    requires ResidueTo(file, p, t)
    ensures Records(c, file, p, |file|) == []
    decreases t - p
  {
    if p < t {
      LineEndUnique(file, p, p);
      NoRecordsInNewlines(c, file, p + 1, t);
    } else {
      LineEndUnique(file, p, |file|);
    }
  }

  lemma ResidueHasNoRecords(c: Tailer, file: Bytes, p: nat)
    requires p <= |file| && Residue(file, p)
    ensures Records(c, file, p, |file|) == []
  {
    hide Records;
    var t: nat :| ResidueTo(file, p, t);
    NoRecordsInNewlines(c, file, p, t);
  }

  lemma ConsumedLeavesResidue(file: Bytes, s: nat)
    requires s <= |file|
    ensures Residue(file, Consumed(file, s))
  {
    var t := TerminatedEnd(file, s, |file|);
    assert ResidueTo(file, Consumed(file, s), t);
  }

  /** A region cut at a line start is the two regions one after the other. */
  lemma {:induction false} RecordsSplit(c: Tailer, file: Bytes, from: nat, mid: nat, upto: nat)
    requires from <= mid <= upto <= |file|
    requires mid == from || file[mid - 1] == LF
    ensures Records(c, file, from, upto) == Records(c, file, from, mid) + Records(c, file, mid, upto)
    decreases upto - from
  {
    hide LineRecords;
    var e := LineEnd(file, from);
    if mid > from && e < upto {
      RecordsSplit(c, file, e + 1, mid, upto);
    }
  }

  lemma {:induction false} RecordsGrow(c: Tailer, file: Bytes, grown: Bytes, from: nat, upto: nat)
    requires from <= upto <= |file| && file <= grown
    ensures Records(c, file, from, upto) == Records(c, grown, from, upto)
    decreases upto - from
  {
    hide LineRecords;
    var e := LineEnd(file, from);
    if e < upto {
      LineEndUnique(grown, from, e);
      assert file[from..e] == grown[from..e];
      RecordsGrow(c, file, grown, e + 1, upto);
    }
  }

  /** Growth keeps an offset resumable and what is in front of it, even when it completes
      a byte-order mark. */
  lemma CapturedGrows(c: Tailer, file: Bytes, grown: Bytes, o: nat)
    requires AtLine(file, o) && file <= grown
    ensures AtLine(grown, o)
    ensures Captured(c, grown, o) == Captured(c, file, o)
  {
    hide Records;
    if TextStart(file) == TextStart(grown) {
      RecordsGrow(c, file, grown, TextStart(file), Pos(file, o));
    } else {
      assert |file| < 3 && o == 0;
      NothingBetween(c, file, 0);
      NothingBetween(c, grown, 3);
    }
  }

  lemma NothingBetween(c: Tailer, file: Bytes, p: nat)
    requires p <= |file|
    ensures Records(c, file, p, p) == []
  {
  }

  /** One pass: the offset never decreases and never passes the end of the file, the pass emits
      exactly the records between the two offsets, and afterwards nothing complete is left. */
  lemma PassAdvances(c: Tailer, file: Bytes, o: nat)
    requires AtLine(file, o) && |file| - o <= JSONL_MAX_FILE_BYTES
    ensures var (records, next) := ParseOutcome(c, file, o);
            && o <= next <= |file|
            && AtLine(file, next)
            && Captured(c, file, next) == Captured(c, file, o) + records
            && Residue(file, Pos(file, next))
            && Captured(c, file, next) == AllRecords(c, file)
  {
    hide Records, Consumed;
    var s := Pos(file, o);
    var next := ParseOutcome(c, file, o).1;
    if file == [] {
      assert s == 0 == next;
      NothingBetween(c, file, 0);
      assert ResidueTo(file, 0, 0);
    } else {
      assert next == Consumed(file, s);
      ConsumedLeavesResidue(file, s);
      RecordsSplit(c, file, TextStart(file), s, next);
      ResidueHasNoRecords(c, file, next);
      RecordsSplit(c, file, TextStart(file), next, |file|);
    }
  }

  /** What is captured after a pass over a file starts what a larger version of it contains. */
  lemma AllRecordsGrow(c: Tailer, file: Bytes, grown: Bytes)
    requires file <= grown
    ensures AllRecords(c, file) <= AllRecords(c, grown)
  {
    hide Records, Consumed;
    var s := TextStart(file);
    var next := Consumed(file, s);
    ConsumedLeavesResidue(file, s);
    ResidueHasNoRecords(c, file, next);
    RecordsSplit(c, file, s, next, |file|);
    assert AllRecords(c, file) == Captured(c, file, next);
    CapturedGrows(c, file, grown, next);
    RecordsSplit(c, grown, TextStart(grown), Pos(grown, next), |grown|);
  }

  // ----- A chain of passes over growing prefixes -----

  ghost predicate Growing(files: seq<Bytes>) {
    forall i | 0 < i < |files| :: files[i - 1] <= files[i]
  }

  /** The offset after the first k passes, each starting where the one before it ended. */
  ghost function ChainOffset(c: Tailer, files: seq<Bytes>, k: nat): nat
    requires k <= |files|
  {
    if k == 0 then 0 else ParseOutcome(c, files[k - 1], ChainOffset(c, files, k - 1)).1
  }

  ghost function ChainRecords(c: Tailer, files: seq<Bytes>, k: nat): seq<Record>
    requires k <= |files|
  {
    if k == 0 then []
    else ChainRecords(c, files, k - 1) + ParseOutcome(c, files[k - 1], ChainOffset(c, files, k - 1)).0
  }

  ghost predicate WithinCap(c: Tailer, files: seq<Bytes>) {
    forall k: nat | k < |files| :: |files[k]| - ChainOffset(c, files, k) <= JSONL_MAX_FILE_BYTES
  }

  lemma {:induction false} ChainCaptures(c: Tailer, files: seq<Bytes>, k: nat)
    requires Growing(files) && WithinCap(c, files)
    requires 0 < k <= |files|
    ensures var o := ChainOffset(c, files, k);
            && ChainOffset(c, files, k - 1) <= o <= |files[k - 1]|
            && AtLine(files[k - 1], o)
            && ChainRecords(c, files, k) == Captured(c, files[k - 1], o) == AllRecords(c, files[k - 1])
            && Residue(files[k - 1], Pos(files[k - 1], o))
  {
    hide Records, ParseOutcome, Residue;
    var o := ChainOffset(c, files, k - 1);
    var file := files[k - 1];
    if k == 1 {
      NothingBetween(c, file, TextStart(file));
    } else {
      ChainCaptures(c, files, k - 1);
      assert files[k - 1 - 1] <= files[k - 1];
      CapturedGrows(c, files[k - 2], file, o);
    }
    PassAdvances(c, file, o);
  }

  /** Tailing equals reading once: for any growing prefixes, the passes emit the payloads and metas
      that one pass over the final file emits from offset 0. */
  lemma TailingEqualsOnePass(c: Tailer, files: seq<Bytes>)
    requires files != [] && Growing(files) && WithinCap(c, files)
    ensures ChainRecords(c, files, |files|) == AllRecords(c, files[|files| - 1])
    ensures |files[|files| - 1]| <= JSONL_MAX_FILE_BYTES ==>
              ChainRecords(c, files, |files|) == ParseOutcome(c, files[|files| - 1], 0).0
  {
    hide Records, ParseOutcome, Residue;
    ChainCaptures(c, files, |files|);
    var last := files[|files| - 1];
    if |last| <= JSONL_MAX_FILE_BYTES {
      PassAdvances(c, last, 0);
      NothingBetween(c, last, TextStart(last));
    }
  }

  /** Everything a pass emits passes the store's size and emptiness checks, so the watcher's
      filter for oversized payloads never drops a JSONL record. */
  lemma {:induction false} RecordsFitTheStore(c: Tailer, file: Bytes, from: nat, upto: nat)
    requires from <= upto <= |file|
    ensures forall r | r in Records(c, file, from, upto) :: 0 < |r.payload| <= CHUNK_PAYLOAD_BUDGET < MAX_PAYLOAD_BYTES
    decreases upto - from
  {
    var e := LineEnd(file, from);
    if e < upto {
      LineRecordsFit(c, file[from..e], e + 1);
      RecordsFitTheStore(c, file, e + 1, upto);
    }
  }

  lemma LineRecordsFit(c: Tailer, line: Bytes, offsetEnd: int)
    ensures forall r | r in LineRecords(c, line, offsetEnd) :: 0 < |r.payload| <= CHUNK_PAYLOAD_BUDGET
  {
    hide Pieces;
    PiecesRejoin(TrimRight(line, CR));
  }
}
