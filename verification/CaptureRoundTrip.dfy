/** From the lines of a tailed file through capture, store and reassembly back to the lines. */
module CaptureRoundTrip {
  import opened Engrams
  import opened Collections
  import opened Chunking
  import opened JsonlParser
  import opened JsonlTailing
  import opened CapturePath
  import opened CaptureScheduler
  import opened CaptureProtocol
  import opened CaptureSafety
  import opened CaptureHistory
  import opened Reassembly
  import opened ReassemblyBytes
  import RT = ReassemblyRoundTrip

  /** The lines in front of an offset, after a byte-order mark if the file begins with one. */
  ghost function LinesBefore(file: Bytes, o: nat): seq<Bytes> {
    var start := if [0xEF, 0xBB, 0xBF] <= file then 3 else 0;
    if start <= o <= |file| then Lines(file, start, o) else []
  }

  lemma LinesBeforeOffset(file: Bytes, o: nat)
    requires AtLine(file, o)
    ensures TextStart(file) <= Pos(file, o) <= |file|
    ensures LinesBefore(file, o) == Lines(file, TextStart(file), Pos(file, o))
  {
  }

  ghost predicate DistinctChunkIds(hash: Bytes -> string, lines: seq<Bytes>) {
    forall i, j | 0 <= i < j < |lines| && |lines[i]| > CHUNK_PAYLOAD_BUDGET && |lines[j]| > CHUNK_PAYLOAD_BUDGET ::
      hash(lines[i]) != hash(lines[j])
  }

  // ----- The stored rows are the rows of one capture per line -----

  lemma {:induction false} RowsOfAll(r: RT.Capture, rest: seq<RT.Capture>, hash: Bytes -> string)
    requires RT.AllProper([r] + rest, hash) && RT.AllProper(rest, hash)
    ensures RT.AllRows([r] + rest, hash) == RT.RowsOf(r, hash) + RT.AllRows(rest, hash)
  {
    hide RT.RowsOf, RT.Proper;
    var all := [r] + rest;
    if rest == [] {
      assert all[..0] == [];
    } else {
      assert all[..|all| - 1] == [r] + rest[..|rest| - 1];
      RowsOfAll(r, rest[..|rest| - 1], hash);
    }
  }

  /** The rows of one line as the store holds them. */
  lemma OneLineStored(c: Tailer, line: Bytes, offsetEnd: int, stored: seq<Engram>) returns (r: RT.Capture)
    requires Views(stored) == LineRecords(c, line, offsetEnd) && OneStampPerLine(stored)
    requires TrimRight(line, CR) != [] && c.chunkId(TrimRight(line, CR)) != ""
    ensures RT.Proper(r, c.chunkId) && r.ids != [] && r.payload == TrimRight(line, CR)
    ensures RT.RowsOf(r, c.chunkId) == stored
  {
    var raw := TrimRight(line, CR);
    hide TrimRight, Pieces, LineRecords;
    LineOfRecords(c, line, offsetEnd);
    SomeRecords(c, line, offsetEnd);
    r := RT.Capture(seq(|stored|, i requires 0 <= i < |stored| => stored[i].id), stored[0].surface, stored[0].ts, raw,
                    PlainMeta(c, offsetEnd).fields);
    RT.ParserWritesTheseRows(c, line, offsetEnd, r);
    var rows := RT.RowsOf(r, c.chunkId);
    forall i | 0 <= i < |stored| ensures rows[i] == stored[i] {
      assert Views(rows)[i] == Views(stored)[i];
      assert Views(stored)[i] in LineRecords(c, line, offsetEnd) && Views(stored)[0] in LineRecords(c, line, offsetEnd);
      assert LineOf(stored[i].meta) == LineOf(stored[0].meta);
      assert stored[i] in stored && stored[0] in stored;
    }
  }

  lemma SomeRecords(c: Tailer, line: Bytes, offsetEnd: int)
    requires TrimRight(line, CR) != []
    ensures LineRecords(c, line, offsetEnd) != []
  {
    PiecesRejoin(TrimRight(line, CR));
  }

  lemma SplitViews(stored: seq<Engram>, a: seq<Record>, b: seq<Record>)
    requires Views(stored) == a + b
    ensures |a| <= |stored| && Views(stored[..|a|]) == a && Views(stored[|a|..]) == b
  {
    assert stored == stored[..|a|] + stored[|a|..];
    ViewsAppend(stored[..|a|], stored[|a|..]);
  }

  /** These captures, one per line, are what the stored rows are the rows of. */
  ghost predicate AreRowsOf(hash: Bytes -> string, rs: seq<RT.Capture>, lines: seq<Bytes>, stored: seq<Engram>) {
    && RT.AllProper(rs, hash) && RT.AllRows(rs, hash) == stored
    && |rs| == |lines| && forall i | 0 <= i < |rs| :: rs[i].payload == lines[i]
  }

  lemma RowsOfOneMore(hash: Bytes -> string, r: RT.Capture, rs: seq<RT.Capture>, lines: seq<Bytes>, stored: seq<Engram>)
    requires RT.Proper(r, hash) && r.ids != [] && AreRowsOf(hash, rs, lines, stored)
    ensures AreRowsOf(hash, [r] + rs, [r.payload] + lines, RT.RowsOf(r, hash) + stored)
  {
    hide RT.RowsOf, RT.Proper, RT.AllRows;
    RowsOfAll(r, rs, hash);
  }

  lemma RowsOfNone(hash: Bytes -> string)
    ensures AreRowsOf(hash, [], [], [])
  {
  }

  lemma {:induction false} AllRowsSum(a: seq<RT.Capture>, b: seq<RT.Capture>, hash: Bytes -> string)
    requires RT.AllProper(a, hash) && RT.AllProper(b, hash)
    ensures RT.AllProper(a + b, hash) && RT.AllRows(a + b, hash) == RT.AllRows(a, hash) + RT.AllRows(b, hash)
  {
    hide RT.RowsOf, RT.Proper;
    if b == [] {
      assert a + b == a;
    } else {
      FrontOfSum(a, b);
      AllRowsSum(a, b[..|b| - 1], hash);
    }
  }

  lemma RowsOfBoth(hash: Bytes -> string, rs1: seq<RT.Capture>, lines1: seq<Bytes>, stored1: seq<Engram>,
                      rs2: seq<RT.Capture>, lines2: seq<Bytes>, stored2: seq<Engram>)
    requires AreRowsOf(hash, rs1, lines1, stored1) && AreRowsOf(hash, rs2, lines2, stored2)
    ensures AreRowsOf(hash, rs1 + rs2, lines1 + lines2, stored1 + stored2)
  {
    hide RT.AllRows, RT.AllProper;
    AllRowsSum(rs1, rs2, hash);
  }

  lemma {:induction false} StoredAreCaptures(c: Tailer, file: Bytes, from: nat, upto: nat, stored: seq<Engram>)
    returns (rs: seq<RT.Capture>)
    requires from <= upto <= |file| && Views(stored) == Records(c, file, from, upto)
    requires OneStampPerLine(stored) && forall b :: c.chunkId(b) != ""
    ensures AreRowsOf(c.chunkId, rs, Lines(file, from, upto), stored)
    decreases upto - from
  {
    hide LineRecords, RT.RowsOf, RT.Proper, TrimRight, AreRowsOf, OneStampPerLine, Records, Lines;
    var e := LineEnd(file, from);
    LineByLine(c, file, from, upto);
    if e >= upto {
      rs := [];
      RowsOfNone(c.chunkId);
      assert stored == [];
    } else {
      var line := file[from..e];
      var n := |LineRecords(c, line, e + 1)|;
      SplitViews(stored, LineRecords(c, line, e + 1), Records(c, file, e + 1, upto));
      StampsOfParts(stored, n);
      rs := StoredAreCaptures(c, file, e + 1, upto, stored[n..]);
      rs := RowsOfLine(c, line, e + 1, rs, Lines(file, e + 1, upto), stored, n);
    }
  }

  /** One line in front of those already accounted for. */
  lemma RowsOfLine(c: Tailer, line: Bytes, offsetEnd: int, rs: seq<RT.Capture>, lines: seq<Bytes>, stored: seq<Engram>,
                  n: nat) returns (all: seq<RT.Capture>)
    requires n <= |stored| && Views(stored[..n]) == LineRecords(c, line, offsetEnd) && OneStampPerLine(stored[..n])
    requires AreRowsOf(c.chunkId, rs, lines, stored[n..]) && forall b :: c.chunkId(b) != ""
    ensures var raw := TrimRight(line, CR);
            AreRowsOf(c.chunkId, all, if raw == [] then lines else [raw] + lines, stored)
  {
    hide LineRecords, RT.RowsOf, RT.Proper, TrimRight, AreRowsOf, OneStampPerLine;
    all := rs;
    if TrimRight(line, CR) == [] {
      BlankHasNoRecords(c, line, offsetEnd);
      assert stored[n..] == stored;
    } else {
      var r := OneLineStored(c, line, offsetEnd, stored[..n]);
      RowsOfOneMore(c.chunkId, r, rs, lines, stored[n..]);
      assert stored == stored[..n] + stored[n..];
      all := [r] + rs;
    }
  }

  lemma LineByLine(c: Tailer, file: Bytes, from: nat, upto: nat)
    requires from <= upto <= |file|
    ensures var e := LineEnd(file, from);
            if e >= upto then Records(c, file, from, upto) == [] && Lines(file, from, upto) == []
            else
              && Records(c, file, from, upto) == LineRecords(c, file[from..e], e + 1) + Records(c, file, e + 1, upto)
              && Lines(file, from, upto)
                 == if TrimRight(file[from..e], CR) == [] then Lines(file, e + 1, upto)
                    else [TrimRight(file[from..e], CR)] + Lines(file, e + 1, upto)
  {
    hide LineRecords, TrimRight;
  }

  lemma StampsOfParts(stored: seq<Engram>, n: nat)
    requires OneStampPerLine(stored) && n <= |stored|
    ensures OneStampPerLine(stored[..n]) && OneStampPerLine(stored[n..])
  {
  }

  lemma BlankHasNoRecords(c: Tailer, line: Bytes, offsetEnd: int)
    requires TrimRight(line, CR) == []
    ensures LineRecords(c, line, offsetEnd) == []
  {
  }

  // ----- Payloads -----

  lemma {:induction false} PayloadsPermute(a: seq<Engram>, b: seq<Engram>)
    requires multiset(a) == multiset(b)
    ensures multiset(PayloadsOf(a)) == multiset(PayloadsOf(b))
  {
    if a == [] {
      assert |b| == |multiset(b)| == 0;
    } else {
      var x, front := a[|a| - 1], a[..|a| - 1];
      var left, right := RT.Cut(a, b, x);
      PayloadsPermute(front, left + right);
      assert PayloadsOf(a) == PayloadsOf(front) + [x.payload];
      assert PayloadsOf(b) == PayloadsOf(left) + ([x.payload] + PayloadsOf(right));
      assert PayloadsOf(left + right) == PayloadsOf(left) + PayloadsOf(right);
    }
  }

  lemma {:induction false} PayloadsOfWholes(rs: seq<RT.Capture>)
    requires forall r | r in rs :: r.ids != []
    ensures |RT.Wholes(rs)| == |rs| && forall i | 0 <= i < |rs| :: PayloadsOf(RT.Wholes(rs))[i] == rs[i].payload
  {
    if rs != [] {
      PayloadsOfWholes(rs[..|rs| - 1]);
    }
  }

  lemma RowsGiveBackPayloads(hash: Bytes -> string, rs: seq<RT.Capture>, lines: seq<Bytes>, stored: seq<Engram>,
                             rows: seq<Engram>)
    requires AreRowsOf(hash, rs, lines, stored) && multiset(rows) == multiset(stored)
    ensures multiset(PayloadsOf(Reassemble(rows))) == multiset(lines) <==> DistinctChunkIds(hash, lines)
    ensures DistinctChunkIds(hash, lines) ==> PayloadsOf(Reassemble(stored)) == lines
  {
    SameCondition(hash, rs, lines, stored);
    hide Reassemble, AreRowsOf, DistinctChunkIds, RT.AllRows, RT.Wholes, RT.DistinctIds, RT.AllProper, PayloadsOf;
    if DistinctChunkIds(hash, lines) {
      WholesAreLines(hash, rs, lines, stored);
      RT.AnyOrderRoundTrip(rs, hash, rows);
      PayloadsPermute(Reassemble(rows), RT.Wholes(rs));
      RT.InOrderRoundTrip(rs, hash);
    } else {
      RT.SharedIdLosesARecord(rs, hash, rows);
      FewerIsDifferent(PayloadsOf(Reassemble(rows)), lines);
    }
  }

  lemma FewerIsDifferent<T>(a: seq<T>, b: seq<T>)
    requires |a| < |b|
    ensures multiset(a) != multiset(b)
  {
    assert |multiset(a)| == |a| && |multiset(b)| == |b|;
  }

  lemma SameCondition(hash: Bytes -> string, rs: seq<RT.Capture>, lines: seq<Bytes>, stored: seq<Engram>)
    requires AreRowsOf(hash, rs, lines, stored)
    ensures RT.AllProper(rs, hash) && RT.AllRows(rs, hash) == stored && |rs| == |lines|
    ensures RT.DistinctIds(rs, hash) <==> DistinctChunkIds(hash, lines)
  {
    hide RT.AllRows, RT.AllProper;
  }

  lemma WholesAreLines(hash: Bytes -> string, rs: seq<RT.Capture>, lines: seq<Bytes>, stored: seq<Engram>)
    requires AreRowsOf(hash, rs, lines, stored)
    ensures forall r | r in rs :: r.ids != []
    ensures PayloadsOf(RT.Wholes(rs)) == lines
  {
    PayloadsOfWholes(rs);
    hide RT.AllRows, RT.Wholes;
    assert forall i | 0 <= i < |lines| :: PayloadsOf(RT.Wholes(rs))[i] == lines[i];
  }

  // ----- One file, clean run -----

  lemma CleanFileHolds(c: Path -> Tailer, steps: seq<Step>, s: State, p: Path, stored: seq<Engram>)
    returns (rs: seq<RT.Capture>)
    requires Run(c, steps) == Some(s) && StopsAreCovered(c, steps, p)
    requires Views(stored) == PathOf(s, p).sink && OneStampPerLine(stored) && forall b :: c(p).chunkId(b) != ""
    ensures AreRowsOf(c(p).chunkId, rs, CommittedLines(PathOf(s, p)), stored)
  {
    hide Run, StopsAreCovered, PathOf, Records, Lines, AreRowsOf, AtLine;
    ExactlyOnceIffStopsAreCovered(c, steps, s, p);
    var v := PathOf(s, p);
    LinesBeforeOffset(v.file, High(v));
    rs := StoredAreCaptures(c(p), v.file, TextStart(v.file), Pos(v.file, High(v)), stored);
  }

  /** The lines in front of the committed offset of a path. */
  ghost function CommittedLines(v: PathView): seq<Bytes> {
    LinesBefore(v.file, High(v))
  }

  /** On a run whose stops are covered, the rows of a file, in any order, reassemble into its lines before the
      committed offset, each once, if and only if no two oversized ones share a chunk id; and in the order
      stored they give the lines in file order. */
  lemma CleanRunGivesBackTheLines(c: Path -> Tailer, steps: seq<Step>, s: State, p: Path, stored: seq<Engram>,
                                  rows: seq<Engram>)
    requires Run(c, steps) == Some(s) && StopsAreCovered(c, steps, p)
    requires Views(stored) == PathOf(s, p).sink && OneStampPerLine(stored)
    requires multiset(rows) == multiset(stored) && forall b :: c(p).chunkId(b) != ""
    ensures var v := PathOf(s, p); AtLine(v.file, High(v))
    ensures var v := PathOf(s, p); var lines := LinesBefore(v.file, High(v));
            && (multiset(PayloadsOf(Reassemble(rows))) == multiset(lines) <==> DistinctChunkIds(c(p).chunkId, lines))
            && (DistinctChunkIds(c(p).chunkId, lines) ==> PayloadsOf(Reassemble(stored)) == lines)
  {
    hide Run, StopsAreCovered, PathOf, Reassemble, LinesBefore, AreRowsOf, PayloadsOf, DistinctChunkIds, AtLine;
    ExactlyOnceIffStopsAreCovered(c, steps, s, p);
    var rs := CleanFileHolds(c, steps, s, p, stored);
    RowsGiveBackPayloads(c(p).chunkId, rs, CommittedLines(PathOf(s, p)), stored, rows);
  }
}
