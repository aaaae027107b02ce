/** One file's share of the capture protocol: its bytes, its rows in the store, its volatile and its
    durable offset, and how far the holder of its mutex has come. */
module CapturePath {
  import opened Engrams
  import opened Chunking
  import opened JsonlParser
  import opened JsonlTailing

  /** Where a parse job stands. From Locked to Releasing it holds the mutex of its path. */
  datatype Stage =
    | Fired                                                    // timer fired, pending not yet cleaned
    | Waiting                                                  // about to lock the path's mutex
    | Locked                                                   // mutex held, file not yet read
    | Parsed(from: nat, records: seq<Record>, next: nat)       // InsertBatch may be running
    | Inserted(next: nat)                                      // batch committed, offset not yet set
    | Recorded                                                 // offset set, not yet saved
    | Releasing                                                // saved, or given up after an error
    | Unlocked                                                 // mutex released, inflight not yet

  /** One path as one observer sees it. `seen`, `failed`, `batches`, `base` and `surplus` are history:
      the file length when the last Parse began, whether that attempt failed, the byte ranges
      committed since start-up, the offset loaded at start-up, and how many records had been
      committed but not covered by a saved offset when the process ended, over all its ends. */
  datatype PathView = PathView(
    file: Bytes, sink: seq<Record>, disk: nat, memory: nat, dirty: bool, holder: Option<Stage>,
    seen: nat, failed: bool, batches: seq<(nat, nat)>, base: nat, surplus: nat)

  datatype Move =
    | Keep
    | Grow(bytes: Bytes)
    | Acquire
    | ParseGood
    | ParseBad
    | InsertGood
    | InsertBad
    | SetOffset
    | OwnSave(ok: bool)
    | Persist           // another job's Save, or the one in flushAll
    | Soil              // another job's Set
    | Release
    | Crash

  /** Everything up to this offset has been committed to the store. */
  ghost function High(v: PathView): nat {
    match v.holder
    case Some(Inserted(next)) => next
    case _ => v.memory
  }

  ghost predicate MoveOk(c: Tailer, v: PathView, m: Move) {
    match m
    case Keep | Grow(_) | Persist | Soil | Crash => true
    case Acquire => v.holder == None
    case ParseGood => v.holder == Some(Locked) && |v.file| - v.memory <= JSONL_MAX_FILE_BYTES
    case ParseBad => v.holder == Some(Locked)
    case InsertGood | InsertBad => v.holder.Some? && v.holder.value.Parsed?
    case SetOffset => v.holder.Some? && v.holder.value.Inserted?
    case OwnSave(_) => v.holder == Some(Recorded)
    case Release => v.holder == Some(Releasing)
  }

  ghost function Moved(c: Tailer, v: PathView, m: Move): PathView
    requires MoveOk(c, v, m)
  {
    match m
    case Keep => v
    case Grow(bytes) => v.(file := v.file + bytes)
    case Acquire => v.(holder := Some(Locked))
    case ParseGood =>
      var (records, next) := ParseOutcome(c, v.file, v.memory);
      v.(holder := Some(Parsed(v.memory, records, next)), seen := |v.file|)
    case ParseBad => v.(holder := Some(Releasing), seen := |v.file|, failed := true)
    case InsertGood =>
      var Parsed(from, records, next) := v.holder.value;
      v.(holder := Some(Inserted(next)), sink := v.sink + records, failed := false,
         batches := v.batches + [(from, next)])
    case InsertBad => v.(holder := Some(Releasing), failed := true)
    case SetOffset =>
      var next := v.holder.value.next;
      if next == v.memory then v.(holder := Some(Releasing))
      else v.(holder := Some(Recorded), memory := next, dirty := true)
    case OwnSave(ok) =>
      if ok then v.(holder := Some(Releasing), disk := v.memory, dirty := false) else v.(holder := Some(Releasing))
    case Persist => v.(disk := v.memory, dirty := false)
    case Soil => v.(dirty := true)
    case Release => v.(holder := None)
    case Crash =>
      v.(holder := None, memory := v.disk, dirty := false, seen := 0, failed := false, batches := [],
         base := v.disk, surplus := v.surplus + |Unsaved(c, v)|)
  }

  /** The records that are in the store but behind the durable offset. */
  ghost function Unsaved(c: Tailer, v: PathView): seq<Record> {
    var lo, hi := Pos(v.file, v.disk), Pos(v.file, High(v));
    if lo <= hi <= |v.file| then Records(c, v.file, lo, hi) else []
  }

  ghost predicate Consecutive(ranges: seq<(nat, nat)>, lo: nat, hi: nat) {
    && (forall i | 0 <= i < |ranges| :: ranges[i].0 <= ranges[i].1)
    && (forall i | 0 < i < |ranges| :: ranges[i - 1].1 == ranges[i].0)
    && (if ranges == [] then lo == hi else ranges[0].0 == lo && ranges[|ranges| - 1].1 == hi)
  }

  // ----- What holds in every state -----

  ghost predicate OffsetsGood(v: PathView) {
    && AtLine(v.file, v.disk) && AtLine(v.file, v.memory) && AtLine(v.file, High(v))
    && v.disk <= v.memory <= High(v) <= |v.file|
    && (!v.dirty ==> v.disk == v.memory)
    && v.seen <= |v.file|
  }

  /** Nothing complete in front of the committed offset is missing, and nothing else is there. */
  ghost predicate SinkGood(c: Tailer, v: PathView)
    requires OffsetsGood(v)
  {
    && (forall r | r in Captured(c, v.file, High(v)) :: r in v.sink)
    && (forall r | r in v.sink :: r in AllRecords(c, v.file))
    && |v.sink| == |Captured(c, v.file, High(v))| + v.surplus
    && (v.surplus == 0 ==> v.sink == Captured(c, v.file, High(v)))
  }

  /** A parsed batch is the records between the volatile offset and its own end. */
  ghost predicate HolderGood(c: Tailer, v: PathView)
    requires OffsetsGood(v)
  {
    match v.holder
    case Some(Parsed(from, records, next)) =>
      && from == v.memory <= next <= |v.file|
      && AtLine(v.file, next)
      && Captured(c, v.file, next) == Captured(c, v.file, v.memory) + records
      && Captured(c, v.file, next) == AllRecords(c, v.file[..v.seen])
    case _ =>
      !v.failed ==> AllRecords(c, v.file[..v.seen]) <= Captured(c, v.file, High(v))
  }

  ghost predicate BatchesGood(v: PathView) {
    Consecutive(v.batches, v.base, High(v))
  }

  ghost predicate Good(c: Tailer, v: PathView) {
    OffsetsGood(v) && SinkGood(c, v) && HolderGood(c, v) && BatchesGood(v)
  }

  // ----- Preservation, move by move -----

  lemma GrowKeepsGood(c: Tailer, v: PathView, bytes: Bytes)
    requires Good(c, v)
    ensures Good(c, Moved(c, v, Grow(bytes)))
  {
    hide Captured, AllRecords, AtLine, Consecutive;
    var file, grown := v.file, v.file + bytes;
    CapturedGrows(c, file, grown, v.disk);
    CapturedGrows(c, file, grown, v.memory);
    CapturedGrows(c, file, grown, High(v));
    AllRecordsGrow(c, file, grown);
    if v.holder.Some? && v.holder.value.Parsed? {
      CapturedGrows(c, file, grown, v.holder.value.next);
    }
    assert grown[..v.seen] == file[..v.seen];
  }

  lemma ParseKeepsGood(c: Tailer, v: PathView)
    requires Good(c, v) && MoveOk(c, v, ParseGood)
    ensures Good(c, Moved(c, v, ParseGood))
  {
    hide Captured, AllRecords, AtLine, Consecutive, ParseOutcome, Residue;
    PassAdvances(c, v.file, v.memory);
    assert v.file[..|v.file|] == v.file;
  }

  lemma InsertKeepsGood(c: Tailer, v: PathView)
    requires Good(c, v) && MoveOk(c, v, InsertGood)
    ensures Good(c, Moved(c, v, InsertGood))
  {
    hide AllRecords, AtLine, Records;
    var Parsed(from, records, next) := v.holder.value;
    CapturedIsContained(c, v.file, next);
    var w := Moved(c, v, InsertGood);
    assert w.sink == v.sink + records;
  }

  lemma CapturedIsContained(c: Tailer, file: Bytes, o: nat)
    requires AtLine(file, o)
    ensures forall r | r in Captured(c, file, o) :: r in AllRecords(c, file)
  {
    hide Records;
    RecordsSplit(c, file, TextStart(file), Pos(file, o), |file|);
  }

  lemma CapturedSplit(c: Tailer, file: Bytes, lo: nat, hi: nat)
    requires AtLine(file, lo) && AtLine(file, hi) && lo <= hi
    ensures Pos(file, lo) <= Pos(file, hi)
    ensures Captured(c, file, hi) == Captured(c, file, lo) + Records(c, file, Pos(file, lo), Pos(file, hi))
  {
    hide Records;
    RecordsSplit(c, file, TextStart(file), Pos(file, lo), Pos(file, hi));
  }

  lemma CrashKeepsGood(c: Tailer, v: PathView)
    requires MoveOk(c, v, Crash) && Good(c, v)
    ensures Good(c, Moved(c, v, Crash))
  {
    hide AtLine, Records, Captured, AllRecords;
    CapturedSplit(c, v.file, v.disk, High(v));
    assert v.file[..0] == [];
    NothingInNothing(c);
  }

  lemma NothingInNothing(c: Tailer)
    ensures AllRecords(c, []) == []
  {
  }

  lemma SetKeepsGood(c: Tailer, v: PathView)
    requires Good(c, v) && MoveOk(c, v, SetOffset)
    ensures Good(c, Moved(c, v, SetOffset))
  {
    hide Captured, AllRecords, AtLine, Consecutive;
  }

  lemma SaveKeepsGood(c: Tailer, v: PathView, m: Move)
    requires Good(c, v) && MoveOk(c, v, m) && (m.OwnSave? || m.Persist? || m.Soil?)
    ensures Good(c, Moved(c, v, m))
  {
    hide Captured, AllRecords, AtLine, Consecutive;
  }

  lemma HolderKeepsGood(c: Tailer, v: PathView, m: Move)
    requires Good(c, v) && MoveOk(c, v, m)
    requires m.Keep? || m.Acquire? || m.ParseBad? || m.InsertBad? || m.Release?
    ensures Good(c, Moved(c, v, m))
  {
    hide Captured, AllRecords, AtLine, Consecutive;
  }

  /** Every move keeps the invariant of its path. */
  lemma MoveKeepsGood(c: Tailer, v: PathView, m: Move)
    requires Good(c, v) && MoveOk(c, v, m)
    ensures Good(c, Moved(c, v, m))
  {
    hide Good, Moved, MoveOk;
    match m {
      case Grow(bytes) => GrowKeepsGood(c, v, bytes);
      case ParseGood => ParseKeepsGood(c, v);
      case InsertGood => InsertKeepsGood(c, v);
      case SetOffset => SetKeepsGood(c, v);
      case Crash => CrashKeepsGood(c, v);
      case OwnSave(_) | Persist | Soil => SaveKeepsGood(c, v, m);
      case Keep | Acquire | ParseBad | InsertBad | Release => HolderKeepsGood(c, v, m);
    }
  }

  // ----- What the invariant means -----

  /** The store holds the records before the committed offset, once each and in order, exactly when
      no end of the process left committed records behind the saved offset; otherwise it holds as
      many rows too many as were left behind. */
  lemma ExactlyOnceIffNothingLeftBehind(c: Tailer, v: PathView)
    requires Good(c, v)
    ensures v.sink == Captured(c, v.file, High(v)) <==> v.surplus == 0
    ensures |v.sink| == |Captured(c, v.file, High(v))| + v.surplus
  {
    hide Captured;
  }
}
