/** A whole-file capture repeated over the saves of a file, and what reassembly makes of all its rows. */
module CursorRoundTrip {
  import opened Engrams
  import opened Chunking
  import opened Reassembly
  import opened ReassemblyRoundTrip
  import opened CursorParser

  /** A content of the file, when it was saved, and the ids the store gives to its rows if it is captured. */
  datatype Save = Save(file: Bytes, mtime: int, ids: seq<int>)

  function Files(saves: seq<Save>): (files: seq<Bytes>)
    ensures |files| == |saves| && forall i | 0 <= i < |saves| :: files[i] == saves[i].file
  {
    seq(|saves|, i requires 0 <= i < |saves| => saves[i].file)
  }

  ghost predicate IsCaptured(sha: Bytes -> Digest, saves: seq<Save>, i: nat)
    requires IsDigest(sha) && i < |saves|
  {
    SaveCaptured(sha, Files(saves), i)
  }

  /** Every captured save has an id for each of its rows. */
  ghost predicate Stored(c: Tailer, sha: Bytes -> Digest, saves: seq<Save>)
    requires IsDigest(sha)
  {
    forall i | 0 <= i < |saves| && IsCaptured(sha, saves, i) ::
      |saves[i].ids| == |FileRecords(c, sha(saves[i].file), saves[i].file)| && c.chunkId(saves[i].file) != ""
  }

  function CaptureOf(c: Tailer, sha: Bytes -> Digest, save: Save): Capture {
    Capture(save.ids, c.surface, save.mtime, save.file, FileFields(c, sha(save.file), |save.file|))
  }

  /** The captures of the first k saves. */
  ghost function Captures(c: Tailer, sha: Bytes -> Digest, saves: seq<Save>, k: nat): seq<Capture>
    requires IsDigest(sha) && k <= |saves|
  {
    if k == 0 then []
    else
      Captures(c, sha, saves, k - 1) +
      (if IsCaptured(sha, saves, k - 1) then [CaptureOf(c, sha, saves[k - 1])] else [])
  }

  lemma OneCaptureProper(c: Tailer, sha: Bytes -> Digest, saves: seq<Save>, i: nat)
    requires IsDigest(sha) && Stored(c, sha, saves) && i < |saves| && IsCaptured(sha, saves, i)
    ensures var save := saves[i]; var r := CaptureOf(c, sha, save);
            && Proper(r, c.chunkId) && r.ids != []
            && RowsOf(r, c.chunkId) == StoredRows(c, sha(save.file), save.file, save.ids, save.mtime)
  {
    StoredRowsAreRowsOf(c, sha(saves[i].file), saves[i].file, saves[i].ids, saves[i].mtime);
  }

  lemma {:induction false} CapturesProper(c: Tailer, sha: Bytes -> Digest, saves: seq<Save>, k: nat)
    requires IsDigest(sha) && Stored(c, sha, saves) && k <= |saves|
    ensures AllProper(Captures(c, sha, saves, k), c.chunkId)
    ensures forall r :: r in Captures(c, sha, saves, k)
                        <==> exists i :: 0 <= i < k && IsCaptured(sha, saves, i) && r == CaptureOf(c, sha, saves[i])
  {
    hide Stored, IsCaptured, Proper, CaptureOf;
    if k > 0 {
      CapturesProper(c, sha, saves, k - 1);
      if IsCaptured(sha, saves, k - 1) {
        OneCaptureProper(c, sha, saves, k - 1);
      }
    }
  }

  /** All the rows that the saves have left in the store. */
  ghost function AllStored(c: Tailer, sha: Bytes -> Digest, saves: seq<Save>): seq<Engram>
    requires IsDigest(sha) && Stored(c, sha, saves)
  {
    CapturesProper(c, sha, saves, |saves|);
    AllRows(Captures(c, sha, saves, |saves|), c.chunkId)
  }

  /** No two captured contents above the budget share a chunk id; in particular none is captured twice. */
  ghost predicate OversizedOnce(c: Tailer, sha: Bytes -> Digest, saves: seq<Save>, k: nat)
    requires IsDigest(sha) && k <= |saves|
  {
    forall i, j | 0 <= i < j < k && IsCaptured(sha, saves, i) && IsCaptured(sha, saves, j)
                  && |saves[i].file| > CHUNK_PAYLOAD_BUDGET && |saves[j].file| > CHUNK_PAYLOAD_BUDGET ::
      c.chunkId(saves[i].file) != c.chunkId(saves[j].file)
  }

  lemma DistinctSnoc(rs: seq<Capture>, r: Capture, hash: Bytes -> string)
    ensures DistinctIds(rs + [r], hash)
       <==> DistinctIds(rs, hash)
            && (Oversized(r) ==> forall q | q in rs && Oversized(q) :: hash(q.payload) != hash(r.payload))
  {
    var all := rs + [r];
    if DistinctIds(all, hash) {
      forall i, j | 0 <= i < j < |rs| && Oversized(rs[i]) && Oversized(rs[j])
        ensures hash(rs[i].payload) != hash(rs[j].payload)
      {
        assert all[i] == rs[i] && all[j] == rs[j];
      }
      if Oversized(r) {
        forall q | q in rs && Oversized(q) ensures hash(q.payload) != hash(r.payload) {
          var i :| 0 <= i < |rs| && rs[i] == q;
          assert all[i] == q && all[|rs|] == r;
        }
      }
    }
  }

  lemma {:induction false} DistinctIffOnce(c: Tailer, sha: Bytes -> Digest, saves: seq<Save>, k: nat)
    requires IsDigest(sha) && Stored(c, sha, saves) && k <= |saves|
    ensures DistinctIds(Captures(c, sha, saves, k), c.chunkId) <==> OversizedOnce(c, sha, saves, k)
  {
    hide Stored, IsCaptured, DistinctIds;
    if k == 0 {
      NoneDistinct(c.chunkId);
    } else {
      DistinctIffOnce(c, sha, saves, k - 1);
      var before, r := Captures(c, sha, saves, k - 1), CaptureOf(c, sha, saves[k - 1]);
      CapturesProper(c, sha, saves, k - 1);
      if IsCaptured(sha, saves, k - 1) {
        DistinctSnoc(before, r, c.chunkId);
        if OversizedOnce(c, sha, saves, k) && Oversized(r) {
          forall q | q in before && Oversized(q) ensures c.chunkId(q.payload) != c.chunkId(r.payload) {
            var i :| 0 <= i < k - 1 && IsCaptured(sha, saves, i) && q == CaptureOf(c, sha, saves[i]);
          }
        }
        if DistinctIds(before + [r], c.chunkId) && Oversized(r) {
          forall i | 0 <= i < k - 1 && IsCaptured(sha, saves, i) && |saves[i].file| > CHUNK_PAYLOAD_BUDGET
            ensures c.chunkId(saves[i].file) != c.chunkId(saves[k - 1].file)
          {
            assert CaptureOf(c, sha, saves[i]) in before;
          }
        }
      } else {
        assert before + [] == before;
      }
    }
  }

  lemma NoneDistinct(hash: Bytes -> string)
    ensures DistinctIds([], hash)
  {
  }

  /** All the rows of a file's captured saves, in any order, give back each of them once, if and only if no two
      oversized contents among them share a chunk id. */
  lemma SavesComeBackIff(c: Tailer, sha: Bytes -> Digest, saves: seq<Save>, rows: seq<Engram>)
    requires IsDigest(sha) && Stored(c, sha, saves) && multiset(rows) == multiset(AllStored(c, sha, saves))
    ensures AllProper(Captures(c, sha, saves, |saves|), c.chunkId)
    ensures multiset(Reassemble(rows)) == multiset(Wholes(Captures(c, sha, saves, |saves|)))
       <==> OversizedOnce(c, sha, saves, |saves|)
  {
    hide Stored, Captures, Reassemble, DistinctIds, OversizedOnce, AllRows;
    CapturesProper(c, sha, saves, |saves|);
    DistinctIffOnce(c, sha, saves, |saves|);
    RoundTripIffDistinct(Captures(c, sha, saves, |saves|), c.chunkId, rows);
  }

  // ----- One content -----

  /** How many of the first k saves captured this content. */
  ghost function Times(sha: Bytes -> Digest, saves: seq<Save>, file: Bytes, k: nat): nat
    requires IsDigest(sha) && k <= |saves|
  {
    if k == 0 then 0
    else Times(sha, saves, file, k - 1) + (if IsCaptured(sha, saves, k - 1) && saves[k - 1].file == file then 1 else 0)
  }

  /** The captures of a content. */
  ghost function Of(rs: seq<Capture>, file: Bytes): seq<Capture> {
    if rs == [] then []
    else Of(rs[..|rs| - 1], file) + (if rs[|rs| - 1].payload == file then [rs[|rs| - 1]] else [])
  }

  lemma {:induction false} OfHolds(rs: seq<Capture>, file: Bytes, hash: Bytes -> string)
    requires AllProper(rs, hash)
    ensures AllProper(Of(rs, file), hash) && forall r :: r in Of(rs, file) <==> r in rs && r.payload == file
  {
    hide Proper;
    if rs != [] {
      assert rs == rs[..|rs| - 1] + [rs[|rs| - 1]];
      OfHolds(rs[..|rs| - 1], file, hash);
    }
  }

  lemma {:induction false} TimesAreCaptures(c: Tailer, sha: Bytes -> Digest, saves: seq<Save>, file: Bytes, k: nat)
    requires IsDigest(sha) && k <= |saves|
    ensures |Of(Captures(c, sha, saves, k), file)| == Times(sha, saves, file, k)
  {
    hide IsCaptured;
    if k > 0 {
      TimesAreCaptures(c, sha, saves, file, k - 1);
      var before := Captures(c, sha, saves, k - 1);
      if IsCaptured(sha, saves, k - 1) {
        var all := before + [CaptureOf(c, sha, saves[k - 1])];
        assert all[..|all| - 1] == before;
      } else {
        assert before + [] == before;
      }
    }
  }

  /** The group of a chunk id that only one content has is the rows of that content's captures. */
  lemma {:induction false} GroupOfContent(rs: seq<Capture>, file: Bytes, hash: Bytes -> string)
    requires AllProper(rs, hash) && AllProper(Of(rs, file), hash) && |file| > CHUNK_PAYLOAD_BUDGET
    requires forall r | r in rs && Oversized(r) && hash(r.payload) == hash(file) :: r.payload == file
    ensures Group(AllRows(rs, hash), hash(file)) == AllRows(Of(rs, file), hash)
  {
    hide Proper, RowsOf, Group, ChunkId;
    if rs == [] {
      EmptyGroup(hash(file));
    } else {
      var front, r := rs[..|rs| - 1], rs[|rs| - 1];
      assert rs == front + [r] && r in rs;
      OfHolds(front, file, hash);
      GroupOfContent(front, file, hash);
      GroupAppend(AllRows(front, hash), RowsOf(r, hash), hash(file));
      GroupInRecord(r, hash, hash(file));
      if r.payload == file {
        assert Of(rs, file)[..|Of(rs, file)| - 1] == Of(front, file);
      } else {
        assert Of(front, file) + [] == Of(front, file);
        assert !(Oversized(r) && hash(r.payload) == hash(file));
        assert Group(AllRows(front, hash), hash(file)) + [] == Group(AllRows(front, hash), hash(file));
      }
    }
  }

  /** An oversized content whose chunk id no other content shares comes back, in the one result its id gives,
      with each piece as often as it was captured: so whole if and only if it was captured once. */
  lemma ContentComesBackIffOnce(c: Tailer, sha: Bytes -> Digest, saves: seq<Save>, rows: seq<Engram>, i: nat)
    returns (e: Engram)
    requires IsDigest(sha) && Stored(c, sha, saves) && multiset(rows) == multiset(AllStored(c, sha, saves))
    requires i < |saves| && IsCaptured(sha, saves, i) && |saves[i].file| > CHUNK_PAYLOAD_BUDGET
    requires forall k | 0 <= k < |saves| && c.chunkId(saves[k].file) == c.chunkId(saves[i].file) ::
               saves[k].file == saves[i].file
    ensures var file := saves[i].file; var n := Times(sha, saves, file, |saves|);
            && Merge(Group(rows, c.chunkId(file))) == [e] && e in Reassemble(rows)
            && e.payload == Stuttered(Pieces(file), n)
            && (e.payload == file <==> n == 1)
  {
    hide Stored, IsCaptured, Captures, Proper, AllRows, Reassemble, Pieces, Merge, Group, Stuttered, Times, Of;
    var file, rs, hash := saves[i].file, Captures(c, sha, saves, |saves|), c.chunkId;
    CapturesProper(c, sha, saves, |saves|);
    OfHolds(rs, file, hash);
    GroupOfContent(rs, file, hash);
    GroupPermutes(rows, AllRows(rs, hash), hash(file));
    TimesAreCaptures(c, sha, saves, file, |saves|);
    var r := CaptureOf(c, sha, saves[i]);
    assert r in rs && r in Of(rs, file);
    e := RedeliveredIsRestoredIffOnce(Of(rs, file), hash, file, rows);
  }

  /** A content within the budget is one row, and comes back as it is. */
  lemma SmallContentComesBack(c: Tailer, sha: Bytes -> Digest, saves: seq<Save>, rows: seq<Engram>, i: nat)
    returns (e: Engram)
    requires IsDigest(sha) && Stored(c, sha, saves) && multiset(rows) == multiset(AllStored(c, sha, saves))
    requires i < |saves| && IsCaptured(sha, saves, i) && |saves[i].file| <= CHUNK_PAYLOAD_BUDGET
    ensures e in Reassemble(rows) && e.payload == saves[i].file
  {
    hide Stored, IsCaptured, Captures, Reassemble, AllRows, ChunkId;
    var rs, r := Captures(c, sha, saves, |saves|), CaptureOf(c, sha, saves[i]);
    CapturesProper(c, sha, saves, |saves|);
    assert r in rs && Proper(r, c.chunkId);
    e := RowsOf(r, c.chunkId)[0];
    RowIsStored(rs, c.chunkId, r, e);
    assert e in multiset(AllRows(rs, c.chunkId)) && e in multiset(rows);
    RowsAreUniform(r, c.chunkId);
    PlainRowPasses(rows, e);
  }

  lemma {:induction false} RowIsStored(rs: seq<Capture>, hash: Bytes -> string, r: Capture, e: Engram)
    requires AllProper(rs, hash) && r in rs && e in RowsOf(r, hash)
    ensures e in AllRows(rs, hash)
  {
    hide RowsOf, Proper;
    if r != rs[|rs| - 1] {
      RowIsStored(rs[..|rs| - 1], hash, r, e);
    }
  }

  lemma PlainRowPasses(rows: seq<Engram>, e: Engram)
    requires e in rows && ChunkId(e) == None
    ensures e in Reassemble(rows)
  {
    hide ChunkId, Order, Emit;
    RowCount(rows, e);
    assert e in multiset(rows);
    assert Row(e) in multiset(Order(rows));
    EmitsAll(Order(rows), rows, Row(e));
  }

  /** The result for the current content, after any saves, empty and over-sized ones among them: it is the
      current content if and only if that fits in one row or has been captured once. */
  lemma CurrentFileComesBackIff(c: Tailer, sha: Bytes -> Digest, saves: seq<Save>, rows: seq<Engram>)
    returns (j: nat, e: Engram)
    requires IsDigest(sha) && Stored(c, sha, saves) && multiset(rows) == multiset(AllStored(c, sha, saves))
    requires saves != [] && Readable(saves[|saves| - 1].file) && SizesAreNoMarks(sha, Files(saves))
    requires var file := saves[|saves| - 1].file;
             forall save | save in saves && save.file != file ::
               Mark(sha, save.file) != Mark(sha, file) && c.chunkId(save.file) != c.chunkId(file)
    ensures var file := saves[|saves| - 1].file;
            && j < |saves| && IsCaptured(sha, saves, j) && saves[j].file == file
            && e in Reassemble(rows)
            && (|file| > CHUNK_PAYLOAD_BUDGET ==> Merge(Group(rows, c.chunkId(file))) == [e])
            && (e.payload == file <==> |file| <= CHUNK_PAYLOAD_BUDGET || Times(sha, saves, file, |saves|) == 1)
  {
    hide Stored, Reassemble, Merge, Group, Mark, SaveCaptured, Times, AllStored;
    var file := saves[|saves| - 1].file;
    j := LatestCapture(sha, Files(saves), |saves| - 1);
    assert saves[j] in saves;
    if |file| > CHUNK_PAYLOAD_BUDGET {
      forall k | 0 <= k < |saves| && c.chunkId(saves[k].file) == c.chunkId(saves[j].file)
        ensures saves[k].file == saves[j].file
      {
        assert saves[k] in saves;
      }
      e := ContentComesBackIffOnce(c, sha, saves, rows, j);
    } else {
      e := SmallContentComesBack(c, sha, saves, rows, j);
    }
  }

  // ----- A content that is left and returned to -----

  /** Each result is what the slot of some row gives. */
  lemma ResultHasSource(rows: seq<Engram>, e: Engram) returns (n: nat)
    requires e in Reassemble(rows)
    ensures n < |rows| && [e] == EmitItem(SlotAt(rows, n), rows)
  {
    OutputFollowsFirstOccurrence(rows);
    hide Reassemble, Gives, SlotAt, EmitItem;
    var i :| 0 <= i < |Reassemble(rows)| && Reassemble(rows)[i] == e;
    n := Sources(rows, |rows|)[i];
  }

  /** Saved as a, then as b, then as a again, with a above the budget: all three are captured, and no result of
      reassembling their rows is a, although a is what the file holds. */
  lemma RevertedContentIsLost(c: Tailer, sha: Bytes -> Digest, saves: seq<Save>, rows: seq<Engram>)
    requires IsDigest(sha) && Stored(c, sha, saves) && multiset(rows) == multiset(AllStored(c, sha, saves))
    requires |saves| == 3 && saves[2].file == saves[0].file && |saves[0].file| > CHUNK_PAYLOAD_BUDGET
    requires Readable(saves[0].file) && Readable(saves[1].file)
    requires Mark(sha, saves[0].file) != Mark(sha, saves[1].file)
    requires c.chunkId(saves[0].file) != c.chunkId(saves[1].file)
    ensures forall i | 0 <= i < 3 :: IsCaptured(sha, saves, i)
    ensures forall e | e in Reassemble(rows) :: e.payload != saves[0].file
  {
    hide Mark, Stored, Reassemble, AllStored, Merge, Group, ChunkId;
    assert forall i | 0 <= i < 3 :: IsCaptured(sha, saves, i);
    forall e | e in Reassemble(rows) ensures e.payload != saves[0].file {
      var n := ResultHasSource(rows, e);
      var i := SourceSave(c, sha, saves, rows, n);
      SourceGives(c, sha, saves, rows, n, i, e);
    }
  }

  lemma SourceSave(c: Tailer, sha: Bytes -> Digest, saves: seq<Save>, rows: seq<Engram>, n: nat) returns (i: nat)
    requires IsDigest(sha) && Stored(c, sha, saves) && multiset(rows) == multiset(AllStored(c, sha, saves))
    requires n < |rows|
    ensures i < |saves| && IsCaptured(sha, saves, i)
    ensures Proper(CaptureOf(c, sha, saves[i]), c.chunkId) && rows[n] in RowsOf(CaptureOf(c, sha, saves[i]), c.chunkId)
  {
    hide Stored, IsCaptured, AllRows, Captures, RowsOf, Proper;
    var rs := Captures(c, sha, saves, |saves|);
    CapturesProper(c, sha, saves, |saves|);
    assert rows[n] in multiset(rows) && rows[n] in multiset(AllRows(rs, c.chunkId));
    var k := RowBelongs(rs, c.chunkId, rows[n]);
    assert rs[k] in rs;
    i :| 0 <= i < |saves| && IsCaptured(sha, saves, i) && rs[k] == CaptureOf(c, sha, saves[i]);
  }

  lemma SourceGives(c: Tailer, sha: Bytes -> Digest, saves: seq<Save>, rows: seq<Engram>, n: nat, i: nat, e: Engram)
    requires IsDigest(sha) && Stored(c, sha, saves) && multiset(rows) == multiset(AllStored(c, sha, saves))
    requires |saves| == 3 && saves[2].file == saves[0].file && |saves[0].file| > CHUNK_PAYLOAD_BUDGET
    requires forall k | 0 <= k < 3 :: IsCaptured(sha, saves, k)
    requires c.chunkId(saves[0].file) != c.chunkId(saves[1].file)
    requires n < |rows| && i < 3 && Proper(CaptureOf(c, sha, saves[i]), c.chunkId)
    requires rows[n] in RowsOf(CaptureOf(c, sha, saves[i]), c.chunkId) && [e] == EmitItem(SlotAt(rows, n), rows)
    requires saves[0].file != saves[1].file
    ensures e.payload != saves[0].file
  {
    hide Stored, IsCaptured, AllStored, Merge, Group, ChunkId, Reassemble, Pieces, Proper, Times;
    var r := CaptureOf(c, sha, saves[i]);
    RowsAreUniform(r, c.chunkId);
    ThreeTimes(sha, saves);
    if Oversized(r) {
      var whole := ContentComesBackIffOnce(c, sha, saves, rows, i);
      assert [e][0] == [whole][0];
    } else {
      assert [e][0] == rows[n];
    }
  }

  lemma ThreeTimes(sha: Bytes -> Digest, saves: seq<Save>)
    requires IsDigest(sha) && |saves| == 3 && forall k | 0 <= k < 3 :: IsCaptured(sha, saves, k)
    requires saves[2].file == saves[0].file != saves[1].file
    ensures Times(sha, saves, saves[0].file, 3) == 2 && Times(sha, saves, saves[1].file, 3) == 1
  {
    hide IsCaptured;
    assert Times(sha, saves, saves[0].file, 0) == 0 && Times(sha, saves, saves[1].file, 0) == 0;
    assert Times(sha, saves, saves[0].file, 1) == 1 && Times(sha, saves, saves[1].file, 1) == 0;
    assert Times(sha, saves, saves[0].file, 2) == 1 && Times(sha, saves, saves[1].file, 2) == 1;
  }
}
