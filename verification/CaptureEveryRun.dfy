/** When the rows in the store, of any files and after any run, give back the lines of the files. */
module CaptureEveryRun {
  import opened Engrams
  import opened Collections
  import opened Chunking
  import opened JsonlParser
  import opened JsonlTailing
  import opened CapturePath
  import opened CaptureScheduler
  import opened CaptureProtocol
  import opened CaptureSafety
  import opened CaptureTheorems
  import opened CaptureHistory
  import opened CaptureRoundTrip
  import opened Reassembly
  import opened ReassemblyBytes
  import RT = ReassemblyRoundTrip

  // ----- Bytes of records -----

  ghost function RecordSize(rs: seq<Record>): nat {
    if rs == [] then 0 else RecordSize(rs[..|rs| - 1]) + |rs[|rs| - 1].payload|
  }

  lemma {:induction false} RecordSizeSum(a: seq<Record>, b: seq<Record>)
    ensures RecordSize(a + b) == RecordSize(a) + RecordSize(b)
  {
    if b == [] {
      assert a + b == a;
    } else {
      FrontOfSum(a, b);
      RecordSizeSum(a, b[..|b| - 1]);
    }
  }

  lemma {:induction false} RecordSizeIsFlat(rs: seq<Record>, parts: seq<Bytes>)
    requires |rs| == |parts| && forall i | 0 <= i < |rs| :: rs[i].payload == parts[i]
    ensures RecordSize(rs) == |Flatten(parts)|
  {
    if rs != [] {
      RecordSizeIsFlat(rs[..|rs| - 1], parts[..|rs| - 1]);
    }
  }

  lemma LineSize(c: Tailer, line: Bytes, offsetEnd: int)
    ensures RecordSize(LineRecords(c, line, offsetEnd)) == |Flatten(NonBlank(TrimRight(line, CR)))|
  {
    hide TrimRight, Pieces;
    var raw, rs := TrimRight(line, CR), LineRecords(c, line, offsetEnd);
    PiecesRejoin(raw);
    FlattenOne(raw);
    if |raw| > CHUNK_PAYLOAD_BUDGET {
      RecordSizeIsFlat(rs, Pieces(raw));
    } else if raw != [] {
      RecordSizeIsFlat(rs, [raw]);
    }
  }

  /** The records of a region carry the bytes of its lines. */
  lemma {:induction false} RegionSize(c: Tailer, file: Bytes, from: nat, upto: nat)
    requires from <= upto <= |file|
    ensures RecordSize(Records(c, file, from, upto)) == |Flatten(Lines(file, from, upto))|
    decreases upto - from
  {
    hide LineRecords, TrimRight, NonBlank, RecordSize;
    var e := LineEnd(file, from);
    if e >= upto {
      NoSize();
    } else {
      var line := file[from..e];
      RegionSize(c, file, e + 1, upto);
      LineSize(c, line, e + 1);
      RecordSizeSum(LineRecords(c, line, e + 1), Records(c, file, e + 1, upto));
      FlattenSum(NonBlank(TrimRight(line, CR)), Lines(file, e + 1, upto));
    }
  }

  lemma NoSize()
    ensures RecordSize([]) == 0 && Flatten<byte>([]) == []
  {
  }

  // ----- No two records of a region are the same -----

  lemma LineRecordsDiffer(c: Tailer, line: Bytes, offsetEnd: int)
    ensures NoRepeats(LineRecords(c, line, offsetEnd))
  {
    hide TrimRight, Pieces;
    var rs := LineRecords(c, line, offsetEnd);
    if |TrimRight(line, CR)| > CHUNK_PAYLOAD_BUDGET {
      forall i | 0 <= i < |rs| ensures rs[i].meta.Object? && rs[i].meta.fields["chunk_seq"] == JInt(i) {
      }
    }
  }

  lemma {:induction false} RecordsDiffer(c: Tailer, file: Bytes, from: nat, upto: nat)
    requires from <= upto <= |file|
    ensures NoRepeats(Records(c, file, from, upto))
    ensures forall r | r in Records(c, file, from, upto) :: LineOf(r.meta) > from
    decreases upto - from
  {
    hide LineRecords, NoRepeats, LineOf;
    var e := LineEnd(file, from);
    if e >= upto {
      NothingRepeats<Record>();
    } else {
      var line := file[from..e];
      RecordsDiffer(c, file, e + 1, upto);
      LineRecordsDiffer(c, line, e + 1);
      LineOfRecords(c, line, e + 1);
      NoRepeatsSum(LineRecords(c, line, e + 1), Records(c, file, e + 1, upto));
    }
  }

  lemma NothingRepeats<T>()
    ensures NoRepeats<T>([])
  {
  }

  /** More records than the different ones of a, all of them non-empty, and all of a among them: each record more
      is a byte more at least. */
  lemma {:induction false} MoreRecordsMoreBytes(a: seq<Record>, b: seq<Record>)
    requires NoRepeats(a) && |b| >= |a| && (forall r | r in a :: r in b) && forall r | r in b :: r.payload != []
    ensures RecordSize(b) >= RecordSize(a) + |b| - |a|
  {
    hide RecordSize;
    if a == [] {
      EachHasAByte(b);
      NoSize();
    } else {
      var front, x := a[..|a| - 1], a[|a| - 1];
      assert a == front + [x] && x in a;
      var j :| 0 <= j < |b| && b[j] == x;
      var left, right := b[..j], b[j + 1..];
      assert b == left + ([x] + right);
      forall r | r in front ensures r in left + right {
        assert r in b && r != x;
      }
      MoreRecordsMoreBytes(front, left + right);
      RecordSizeSum(left, [x] + right);
      RecordSizeSum([x], right);
      RecordSizeSum(left, right);
      RecordSizeSum(front, [x]);
    }
  }

  lemma {:induction false} EachHasAByte(b: seq<Record>)
    requires forall r | r in b :: r.payload != []
    ensures RecordSize(b) >= |b|
  {
    if b != [] {
      assert b == b[..|b| - 1] + [b[|b| - 1]];
      EachHasAByte(b[..|b| - 1]);
    }
  }

  // ----- One path -----

  lemma SinkRecordsAreSound(c: Tailer, v: PathView)
    requires Good(c, v)
    ensures forall r | r in v.sink :: r.payload != []
  {
    hide Records, Captured, AtLine, HolderGood, BatchesGood;
    RecordsFitTheStore(c, v.file, TextStart(v.file), |v.file|);
  }

  /** The store holds at least the bytes of the committed lines, and more when rows are left over from before. */
  lemma SinkSize(c: Tailer, v: PathView)
    requires Good(c, v)
    ensures RecordSize(v.sink) >= |Flatten(CommittedLines(v))| + v.surplus
  {
    SinkRecordsAreSound(c, v);
    hide HolderGood, BatchesGood, RecordSize, Records, Lines, NoRepeats;
    var lo, hi := TextStart(v.file), Pos(v.file, High(v));
    LinesBeforeOffset(v.file, High(v));
    RecordsDiffer(c, v.file, lo, hi);
    RegionSize(c, v.file, lo, hi);
    MoreRecordsMoreBytes(Captured(c, v.file, High(v)), v.sink);
  }

  /** Every record a region yields is plain, or a chunk with its place. */
  lemma LineHasPlace(c: Tailer, line: Bytes, offsetEnd: int, e: Engram)
    requires View(e) in LineRecords(c, line, offsetEnd)
    ensures HasPlace(e)
  {
    hide TrimRight, Pieces;
  }

  lemma {:induction false} RegionHasPlace(c: Tailer, file: Bytes, from: nat, upto: nat, e: Engram)
    requires from <= upto <= |file| && View(e) in Records(c, file, from, upto)
    ensures HasPlace(e)
    decreases upto - from
  {
    hide LineRecords, HasPlace;
    var end := LineEnd(file, from);
    if View(e) in LineRecords(c, file[from..end], end + 1) {
      LineHasPlace(c, file[from..end], end + 1, e);
    } else {
      RegionHasPlace(c, file, end + 1, upto, e);
    }
  }

  lemma {:induction false} AllKept(stored: seq<Engram>)
    requires forall e | e in stored :: HasPlace(e)
    ensures KeptSize(stored) == RecordSize(Views(stored))
  {
    hide HasPlace;
    if stored != [] {
      var front, e := stored[..|stored| - 1], stored[|stored| - 1];
      assert stored == front + [e];
      AllKept(front);
      assert Views(stored)[..|stored| - 1] == Views(front);
    }
  }

  lemma StoredSize(c: Tailer, v: PathView, stored: seq<Engram>)
    requires Good(c, v) && Views(stored) == v.sink
    ensures KeptSize(stored) == RecordSize(v.sink)
  {
    hide HolderGood, BatchesGood, Records, HasPlace, Captured, AtLine, KeptSize, RecordSize;
    forall e | e in stored ensures HasPlace(e) {
      var i :| 0 <= i < |stored| && stored[i] == e;
      assert Views(stored)[i] in v.sink && View(e) in AllRecords(c, v.file);
      RegionHasPlace(c, v.file, TextStart(v.file), |v.file|, e);
    }
    AllKept(stored);
  }

  /** One path's rows: never fewer bytes than its committed lines, and more unless its stops are covered. */
  lemma PathSize(c: Path -> Tailer, steps: seq<Step>, s: State, p: Path, stored: seq<Engram>)
    requires Run(c, steps) == Some(s) && Views(stored) == PathOf(s, p).sink
    ensures KeptSize(stored) >= |Flatten(CommittedLines(PathOf(s, p)))|
    ensures !StopsAreCovered(c, steps, p) ==> KeptSize(stored) > |Flatten(CommittedLines(PathOf(s, p)))|
  {
    hide Run, StopsAreCovered, EndsClean, PathOf, Good, KeptSize, CommittedLines;
    RunPathGood(c, steps, p);
    SinkSize(c(p), PathOf(s, p));
    StoredSize(c(p), PathOf(s, p), stored);
    SurplusCounts(c, steps, p);
    StopsAreCoveredIffEndsClean(c, steps, p);
  }

  // ----- All paths -----

  /** The committed lines of these paths, path after path. */
  ghost function LinesOf(s: State, ps: seq<Path>): seq<Bytes> {
    if ps == [] then [] else LinesOf(s, ps[..|ps| - 1]) + CommittedLines(PathOf(s, ps[|ps| - 1]))
  }

  /** For each path the rows the store holds, in the order stored; those of one line carry one time if the path's
      lines have been stored once. */
  ghost predicate StoredFor(c: Path -> Tailer, steps: seq<Step>, s: State, ps: seq<Path>, stored: seq<seq<Engram>>)
    requires Run(c, steps) == Some(s)
  {
    && |stored| == |ps|
    && forall i | 0 <= i < |ps| ::
         && Views(stored[i]) == PathOf(s, ps[i]).sink
         && (StopsAreCovered(c, steps, ps[i]) ==> OneStampPerLine(stored[i]))
  }

  lemma StoredForFewer(c: Path -> Tailer, steps: seq<Step>, s: State, ps: seq<Path>, stored: seq<seq<Engram>>)
    requires Run(c, steps) == Some(s) && StoredFor(c, steps, s, ps, stored) && ps != []
    ensures StoredFor(c, steps, s, ps[..|ps| - 1], stored[..|ps| - 1])
    ensures var (p, last) := (ps[|ps| - 1], stored[|ps| - 1]);
            && Views(last) == PathOf(s, p).sink
            && (StopsAreCovered(c, steps, p) ==> OneStampPerLine(last))
  {
    hide Run, StopsAreCovered, PathOf, OneStampPerLine;
  }

  lemma {:induction false} PathsSize(c: Path -> Tailer, steps: seq<Step>, s: State, ps: seq<Path>,
                                     stored: seq<seq<Engram>>)
    requires Run(c, steps) == Some(s) && StoredFor(c, steps, s, ps, stored)
    ensures KeptSize(Flatten(stored)) >= |Flatten(LinesOf(s, ps))|
    ensures (exists p | p in ps :: !StopsAreCovered(c, steps, p)) ==> KeptSize(Flatten(stored)) > |Flatten(LinesOf(s, ps))|
  {
    hide Run, StopsAreCovered, PathOf, KeptSize, CommittedLines, StoredFor;
    if ps == [] {
      NoneStored(c, steps, s, stored);
    } else {
      var front, p := ps[..|ps| - 1], ps[|ps| - 1];
      assert ps == front + [p];
      StoredForFewer(c, steps, s, ps, stored);
      SameNumber(c, steps, s, ps, stored);
      PathsSize(c, steps, s, front, stored[..|ps| - 1]);
      PathSize(c, steps, s, p, stored[|ps| - 1]);
      KeptSizeSum(Flatten(stored[..|ps| - 1]), stored[|ps| - 1]);
      FlattenSum(LinesOf(s, front), CommittedLines(PathOf(s, p)));
    }
  }

  lemma SameNumber(c: Path -> Tailer, steps: seq<Step>, s: State, ps: seq<Path>, stored: seq<seq<Engram>>)
    requires Run(c, steps) == Some(s) && StoredFor(c, steps, s, ps, stored)
    ensures |stored| == |ps|
  {
  }

  lemma NoneStored(c: Path -> Tailer, steps: seq<Step>, s: State, stored: seq<seq<Engram>>)
    requires Run(c, steps) == Some(s) && StoredFor(c, steps, s, [], stored)
    ensures Flatten(stored) == [] && KeptSize([]) == 0
  {
  }

  lemma {:induction false} PathsHold(c: Path -> Tailer, hash: Bytes -> string, steps: seq<Step>, s: State, ps: seq<Path>,
                                     stored: seq<seq<Engram>>) returns (rs: seq<RT.Capture>)
    requires Run(c, steps) == Some(s) && StoredFor(c, steps, s, ps, stored)
    requires forall p | p in ps :: StopsAreCovered(c, steps, p) && c(p).chunkId == hash
    requires forall b :: hash(b) != ""
    ensures AreRowsOf(hash, rs, LinesOf(s, ps), Flatten(stored))
  {
    hide Run, StopsAreCovered, PathOf, CommittedLines, StoredFor, AreRowsOf, OneStampPerLine;
    SameNumber(c, steps, s, ps, stored);
    if ps == [] {
      rs := [];
      RowsOfNone(hash);
      NoneStored(c, steps, s, stored);
    } else {
      var front, p := ps[..|ps| - 1], ps[|ps| - 1];
      assert ps == front + [p];
      StoredForFewer(c, steps, s, ps, stored);
      var before := PathsHold(c, hash, steps, s, front, stored[..|ps| - 1]);
      var last := CleanFileHolds(c, steps, s, p, stored[|ps| - 1]);
      RowsOfBoth(hash, before, LinesOf(s, front), Flatten(stored[..|ps| - 1]),
                    last, CommittedLines(PathOf(s, p)), stored[|ps| - 1]);
      rs := before + last;
    }
  }

  lemma {:induction false} PayloadsAreSize(es: seq<Engram>)
    ensures |Flatten(PayloadsOf(es))| == Size(es)
  {
    if es != [] {
      var n := |es| - 1;
      PayloadsAreSize(es[..n]);
      assert PayloadsOf(es)[..n] == PayloadsOf(es[..n]);
    }
  }

  lemma {:induction false} FlatSizePermutes(a: seq<Bytes>, b: seq<Bytes>)
    requires multiset(a) == multiset(b)
    ensures |Flatten(a)| == |Flatten(b)|
  {
    hide Flatten;
    if a == [] {
      assert |b| == |multiset(b)| == 0;
    } else {
      var x, front := a[|a| - 1], a[..|a| - 1];
      var left, right := RT.Cut(a, b, x);
      FlatSizePermutes(front, left + right);
      FlattenSum(left, [x] + right);
      FlattenSum([x], right);
      FlattenSum(left, right);
      FlattenSum(front, [x]);
      assert a == front + [x];
    }
  }

  /** In every run, for any files: all their rows in the store, in any order, reassemble into the committed lines
      of the files, each once, if and only if the stops are covered for each of them and no two oversized lines,
      be they of one file or of two, share a chunk id. */
  lemma RowsGiveBackTheLinesIff(c: Path -> Tailer, hash: Bytes -> string, steps: seq<Step>, s: State, ps: seq<Path>,
                                stored: seq<seq<Engram>>, rows: seq<Engram>)
    requires Run(c, steps) == Some(s) && StoredFor(c, steps, s, ps, stored)
    requires (forall p | p in ps :: c(p).chunkId == hash) && forall b :: hash(b) != ""
    requires multiset(rows) == multiset(Flatten(stored))
    ensures multiset(PayloadsOf(Reassemble(rows))) == multiset(LinesOf(s, ps))
       <==> (forall p | p in ps :: StopsAreCovered(c, steps, p)) && DistinctChunkIds(hash, LinesOf(s, ps))
  {
    hide Run, StopsAreCovered, StoredFor, AreRowsOf, DistinctChunkIds, LinesOf, Reassemble, KeptSize, Size, PayloadsOf;
    if forall p | p in ps :: StopsAreCovered(c, steps, p) {
      var rs := PathsHold(c, hash, steps, s, ps, stored);
      RowsGiveBackPayloads(hash, rs, LinesOf(s, ps), Flatten(stored), rows);
    } else {
      PathsSize(c, steps, s, ps, stored);
      KeptSizePermutes(rows, Flatten(stored));
      ReassemblyConservesBytes(rows);
      PayloadsAreSize(Reassemble(rows));
      if multiset(PayloadsOf(Reassemble(rows))) == multiset(LinesOf(s, ps)) {
        FlatSizePermutes(PayloadsOf(Reassemble(rows)), LinesOf(s, ps));
      }
    }
  }
}
