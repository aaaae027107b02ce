/** Exactly-once capture in terms of the steps of a run: what matters is whether the process ever ends between
    an InsertBatch and a successful Save that covers it. */
module CaptureHistory {
  import opened Engrams
  import opened Chunking
  import opened JsonlParser
  import opened JsonlTailing
  import opened CapturePath
  import opened CaptureScheduler
  import opened CaptureProtocol
  import opened CaptureSafety
  import opened CaptureTheorems

  /** How many records of p have been committed, since the process started, by batches whose offset is not
      yet set, and by batches whose offset is set but not yet saved: after a step, given those before it. */
  ghost function UncoveredAfter(s: State, step: Step, p: Path, before: (nat, nat)): (nat, nat)
    requires Guard(s, step)
  {
    match step
    case InsertOk(id) =>
      if s.sched.jobs[id].path == p then (before.0 + |s.sched.jobs[id].stage.records|, before.1) else before
    case SetOffset(id) => if s.sched.jobs[id].path == p then (0, before.0 + before.1) else before
    case Save(_, ok) => if ok then (before.0, 0) else before
    case FlushSave(ok) => if ok then (before.0, 0) else before
    case Stop => (0, 0)
    case _ => before
  }

  ghost function Uncovered(c: Path -> Tailer, steps: seq<Step>, p: Path): (nat, nat)
    requires Run(c, steps).Some?
  {
    if steps == [] then (0, 0)
    else
      var front := steps[..|steps| - 1];
      UncoveredAfter(Run(c, front).value, steps[|steps| - 1], p, Uncovered(c, front, p))
  }

  /** The process never ends with an InsertBatch of p not followed by SetOffset and a successful Save. */
  ghost predicate StopsAreCovered(c: Path -> Tailer, steps: seq<Step>, p: Path)
    requires Run(c, steps).Some?
  {
    if steps == [] then true
    else
      var front := steps[..|steps| - 1];
      StopsAreCovered(c, front, p) && (steps[|steps| - 1].Stop? ==> Uncovered(c, front, p) == (0, 0))
  }

  // ----- The same from the offsets -----

  /** How many records lie between the volatile offset and the committed one, and between the saved offset
      and the volatile one. */
  ghost function Lag(c: Tailer, v: PathView): (int, int)
    requires OffsetsGood(v)
  {
    (|Captured(c, v.file, High(v))| - |Captured(c, v.file, v.memory)|,
     |Captured(c, v.file, v.memory)| - |Captured(c, v.file, v.disk)|)
  }

  lemma UnsavedIsLag(c: Tailer, v: PathView)
    requires OffsetsGood(v)
    ensures |Unsaved(c, v)| == Lag(c, v).0 + Lag(c, v).1
    ensures Lag(c, v).0 >= 0 && Lag(c, v).1 >= 0
  {
    hide Records, Captured;
    CapturedSplit(c, v.file, v.disk, High(v));
    CapturedSplit(c, v.file, v.disk, v.memory);
    CapturedSplit(c, v.file, v.memory, High(v));
  }

  ghost function LagAfter(v: PathView, m: Move, lag: (int, int)): (int, int) {
    match m
    case InsertGood =>
      if v.holder.Some? && v.holder.value.Parsed? then (lag.0 + |v.holder.value.records|, lag.1) else lag
    case SetOffset => (0, lag.0 + lag.1)
    case OwnSave(ok) => if ok then (lag.0, 0) else lag
    case Persist => (lag.0, 0)
    case Crash => (0, 0)
    case _ => lag
  }

  lemma MoveShiftsLag(c: Tailer, v: PathView, m: Move)
    requires Good(c, v) && MoveOk(c, v, m) && OffsetsGood(Moved(c, v, m))
    ensures Lag(c, Moved(c, v, m)) == LagAfter(v, m, Lag(c, v))
  {
    hide AtLine, Captured, AllRecords, Consecutive, ParseOutcome, SinkGood;
    if m.Grow? {
      CapturedGrows(c, v.file, v.file + m.bytes, v.disk);
      CapturedGrows(c, v.file, v.file + m.bytes, v.memory);
      CapturedGrows(c, v.file, v.file + m.bytes, High(v));
    }
  }

  /** A step changes the counts as its move changes the lag. */
  lemma SameShift(c: Path -> Tailer, s: State, step: Step, p: Path, before: (nat, nat))
    requires Guard(s, step) && LocksGood(s.sched)
    ensures UncoveredAfter(s, step, p, before) == LagAfter(PathOf(s, p), MoveOf(c, s, step, p), before)
  {
  }

  lemma {:induction false} UncoveredIsLag(c: Path -> Tailer, steps: seq<Step>, p: Path)
    requires Run(c, steps).Some?
    ensures Good(c(p), PathOf(Run(c, steps).value, p))
    ensures Uncovered(c, steps, p) == Lag(c(p), PathOf(Run(c, steps).value, p))
  {
    hide Inv, Good, Enabled, Apply, PathOf, Init, Moved, MoveOk, MoveOf, UncoveredAfter, LagAfter, Lag;
    RunPathGood(c, steps, p);
    if steps == [] {
      NoLag(c(p), p);
    } else {
      var front, last := steps[..|steps| - 1], steps[|steps| - 1];
      var s := Run(c, front).value;
      UncoveredIsLag(c, front, p);
      RunIsSafe(c, front);
      StepShiftsLag(c, s, last, p);
    }
  }

  lemma RunPathGood(c: Path -> Tailer, steps: seq<Step>, p: Path)
    requires Run(c, steps).Some?
    ensures Good(c(p), PathOf(Run(c, steps).value, p))
    ensures OffsetsGood(PathOf(Run(c, steps).value, p))
  {
    RunIsSafe(c, steps);
    hide Run, CountersGood, LocksGood, WakeupsGood, HolderGood, BatchesGood, SinkGood, OffsetsGood, ViewOf;
    assert Good(c(p), PathOf(Run(c, steps).value, p));
  }

  lemma NoLag(c: Tailer, p: Path)
    ensures OffsetsGood(PathOf(Init(), p)) && Lag(c, PathOf(Init(), p)) == (0, 0)
  {
  }

  lemma StepShiftsLag(c: Path -> Tailer, s: State, step: Step, p: Path)
    requires Inv(c, s) && Enabled(c, s, step)
    ensures OffsetsGood(PathOf(s, p)) && OffsetsGood(PathOf(Apply(c, s, step), p))
    ensures var lag := Lag(c(p), PathOf(s, p));
            && lag.0 >= 0 && lag.1 >= 0
            && Lag(c(p), PathOf(Apply(c, s, step), p)) == UncoveredAfter(s, step, p, lag)
  {
    hide CountersGood, LocksGood, WakeupsGood, ActOk, ActOf, Guard, Apply, MoveOf, MoveOk, Moved, SinkGood, HolderGood,
         BatchesGood, AtLine, Lag, LagAfter, UncoveredAfter;
    assert Good(c(p), PathOf(s, p));
    UnsavedIsLag(c(p), PathOf(s, p));
    StepIsMove(c, s, step, p);
    MoveKeepsGood(c(p), PathOf(s, p), MoveOf(c, s, step, p));
    MoveShiftsLag(c(p), PathOf(s, p), MoveOf(c, s, step, p));
    SameShift(c, s, step, p, Lag(c(p), PathOf(s, p)));
  }

  lemma {:induction false} StopsAreCoveredIffEndsClean(c: Path -> Tailer, steps: seq<Step>, p: Path)
    requires Run(c, steps).Some?
    ensures StopsAreCovered(c, steps, p) <==> EndsClean(c, steps, p)
  {
    hide Good, Enabled, Apply, PathOf, Init, Unsaved, Uncovered, Lag;
    if steps != [] {
      var front := steps[..|steps| - 1];
      StopsAreCoveredIffEndsClean(c, front, p);
      RunPathGood(c, front, p);
      UncoveredIsLag(c, front, p);
      UnsavedIsLag(c(p), PathOf(Run(c, front).value, p));
    }
  }

  /** Exactly once: the store holds the records before the committed offset, once each and in file order, if
      and only if every InsertBatch was followed by SetOffset and a successful Save before the process ended. */
  lemma ExactlyOnceIffStopsAreCovered(c: Path -> Tailer, steps: seq<Step>, s: State, p: Path)
    requires Run(c, steps) == Some(s)
    ensures var v := PathOf(s, p);
            && AtLine(v.file, High(v))
            && (v.sink == Captured(c(p), v.file, High(v)) <==> StopsAreCovered(c, steps, p))
  {
    hide Run, EndsClean, PathOf, Captured, StopsAreCovered, AtLine;
    ExactlyOnceIffEndsClean(c, steps, s, p);
    StopsAreCoveredIffEndsClean(c, steps, p);
  }

  // ----- What has been read is stored -----

  /** Once a Parse of a file has begun, every line complete by then is in the store, unless that attempt failed
      or its batch is still on its way. */
  lemma ReadMeansStored(c: Path -> Tailer, steps: seq<Step>, s: State, p: Path)
    requires Run(c, steps) == Some(s)
    requires var v := PathOf(s, p); !v.failed && !(v.holder.Some? && v.holder.value.Parsed?)
    ensures var v := PathOf(s, p);
            && v.seen <= |v.file|
            && forall r | r in AllRecords(c(p), v.file[..v.seen]) :: r in v.sink
  {
    RunPathGood(c, steps, p);
    hide Run, BatchesGood, AllRecords, Captured, AtLine, PathOf;
  }

  lemma {:induction false} SeenNeverShrinks(c: Path -> Tailer, first: seq<Step>, more: seq<Step>, p: Path)
    requires Run(c, first).Some? && Run(c, first + more).Some? && forall step | step in more :: !step.Stop?
    ensures var (l, m) := (Run(c, first).value.ledger, Run(c, first + more).value.ledger);
            At(l.seen, p) <= At(m.seen, p) && Of(l.files, p) <= Of(m.files, p)
  {
    hide Inv, ActOk, ActOf, EntryOf, Post, Do, Guard;
    if more == [] {
      assert first + more == first;
    } else {
      var front, last := more[..|more| - 1], more[|more| - 1];
      assert (first + more)[..|first + more| - 1] == first + front && last in more;
      SeenNeverShrinks(c, first, front, p);
      RunPathGood(c, first + front, p);
      var s := Run(c, first + front).value;
      SeenIsInFile(s, p);
      OnlyStopForgets(c, s, last);
      PostKeepsSeen(s.ledger, EntryOf(c, s, last), p);
    }
  }

  lemma SeenIsInFile(s: State, p: Path)
    requires OffsetsGood(PathOf(s, p))
    ensures At(s.ledger.seen, p) <= |Of(s.ledger.files, p)|
  {
  }

  lemma PostKeepsSeen(l: Ledger, e: Entry, p: Path)
    requires !e.Forgotten? && At(l.seen, p) <= |Of(l.files, p)|
    ensures At(l.seen, p) <= At(Post(l, e).seen, p)
    ensures Of(l.files, p) <= Of(Post(l, e).files, p)
  {
  }

  /** In particular the initial scan catches up with what was written while the daemon was down: after the
      Parse of a job, scan or callback, the lines the file held then come to be in the store. */
  lemma ParseCatchesUp(c: Path -> Tailer, first: seq<Step>, id: TimerId, more: seq<Step>, t: State)
    requires Run(c, first).Some? && id in Run(c, first).value.sched.jobs
    requires Run(c, first + [ParseOk(id)] + more) == Some(t) && forall step | step in more :: !step.Stop?
    requires var v := PathOf(t, Run(c, first).value.sched.jobs[id].path);
             !v.failed && !(v.holder.Some? && v.holder.value.Parsed?)
    ensures var s := Run(c, first).value; var p := s.sched.jobs[id].path;
            forall r | r in AllRecords(c(p), Of(s.ledger.files, p)) :: r in PathOf(t, p).sink
  {
    var s, steps := Run(c, first).value, first + [ParseOk(id)];
    var p := s.sched.jobs[id].path;
    PrefixRuns(c, steps, more);
    assert steps[..|steps| - 1] == first;
    AfterParse(c, s, id);
    SeenNeverShrinks(c, steps, more, p);
    ReadMeansStored(c, steps + more, t, p);
    hide Run, Enabled, Apply, AllRecords;
    var v := PathOf(t, p);
    assert v.file == Of(t.ledger.files, p) && v.seen == At(t.ledger.seen, p);
    assert Of(s.ledger.files, p) <= v.file[..v.seen];
    AllRecordsGrow(c(p), Of(s.ledger.files, p), v.file[..v.seen]);
  }

  lemma AfterParse(c: Path -> Tailer, s: State, id: TimerId)
    requires Enabled(c, s, ParseOk(id))
    ensures var p, l := s.sched.jobs[id].path, Apply(c, s, ParseOk(id)).ledger;
            At(l.seen, p) == |Of(s.ledger.files, p)| && l.files == s.ledger.files
  {
    hide ParseOutcome;
  }

  lemma {:induction false} PrefixRuns(c: Path -> Tailer, steps: seq<Step>, more: seq<Step>)
    requires Run(c, steps + more).Some?
    ensures Run(c, steps).Some?
  {
    hide Enabled, Apply;
    if more == [] {
      assert steps + more == steps;
    } else {
      assert (steps + more)[..|steps + more| - 1] == steps + more[..|more| - 1];
      PrefixRuns(c, steps, more[..|more| - 1]);
    }
  }

  // ----- A line stored twice -----

  const LINE: Bytes := [120, 10]

  function LineRecord(c: Tailer): Record {
    Record([120], PlainMeta(c, 2))
  }

  lemma OneLine(c: Tailer)
    ensures Records(c, LINE, 0, 2) == [LineRecord(c)] && Consumed(LINE, 0) == 2
    ensures AllRecords(c, LINE) == [LineRecord(c)]
  {
    assert TextStart(LINE) == 0;
    assert LINE[0..1] == [120];
    assert TrimRight([120], CR) == [120];
    assert LineRecords(c, [120], 2) == [LineRecord(c)];
    assert LineEnd(LINE, 0) == 1;
    assert Records(c, LINE, 2, 2) == [];
    assert Records(c, LINE, 0, 2) == LineRecords(c, LINE[0..1], 2) + Records(c, LINE, 2, 2);
    assert TerminatedEnd(LINE, 0, 2) == 2;
    assert TrimmedEnd(LINE, 0, 2) == 1;
  }

  lemma ParsedLine(c: Tailer)
    ensures ParseOutcome(c, LINE, 0).0 == [LineRecord(c)] && ParseOutcome(c, LINE, 0).1 == 2
  {
    OneLine(c);
    hide Records, Consumed;
    assert TextStart(LINE) == 0;
  }

  /** The initial scan is at this stage with the one file. */
  function Scanning(s: State, p: Path, stage: Stage): State {
    s.(sched := s.sched.(inflight := s.sched.inflight + 1, jobs := map[s.sched.nextId := Job(p, true, stage)],
                         locks := if stage == Waiting then map[] else map[p := s.sched.nextId],
                         nextId := s.sched.nextId + 1))
  }

  /** Nothing is going on, and the file, not seen by this process, holds the line. */
  ghost predicate Ready(s: State, p: Path) {
    && s.sched.phase == Phase.Scanning && s.sched.jobs == map[] && s.sched.locks == map[]
    && s.ledger.files == map[p := LINE] && s.ledger.memory == map[]
  }

  lemma ScanStarts(c: Path -> Tailer, s: State, p: Path)
    requires Ready(s, p)
    ensures Enabled(c, s, ScanStart(p)) && Apply(c, s, ScanStart(p)) == Scanning(s, p, Waiting)
    ensures forall u :: UncoveredAfter(s, ScanStart(p), p, u) == u
  {
  }

  lemma ScanLocks(c: Path -> Tailer, s: State, p: Path)
    requires Ready(s, p)
    ensures var t := Scanning(s, p, Waiting); var step := Step.Lock(s.sched.nextId);
            && Enabled(c, t, step) && Apply(c, t, step) == Scanning(s, p, Locked)
            && forall u :: UncoveredAfter(t, step, p, u) == u
  {
  }

  function ReadOf(c: Tailer): Stage {
    Parsed(0, [LineRecord(c)], 2)
  }

  lemma ScanParses(c: Path -> Tailer, s: State, p: Path)
    requires Ready(s, p)
    ensures var t := Scanning(s, p, Locked); var step := ParseOk(s.sched.nextId);
            && Enabled(c, t, step)
            && Apply(c, t, step).sched == Scanning(s, p, ReadOf(c(p))).sched
            && Apply(c, t, step).ledger == s.ledger.(seen := s.ledger.seen[p := 2])
            && forall u :: UncoveredAfter(t, step, p, u) == u
  {
    ParsedLine(c(p));
    hide ParseOutcome;
  }

  lemma ScanInserts(c: Path -> Tailer, s: State, t: State, p: Path)
    requires Ready(s, p) && t.sched == Scanning(s, p, ReadOf(c(p))).sched
    requires t.ledger == s.ledger.(seen := s.ledger.seen[p := 2])
    ensures var step := InsertOk(s.sched.nextId);
            && Enabled(c, t, step)
            && Apply(c, t, step).sched.phase == Phase.Scanning
            && Apply(c, t, step).ledger.files == s.ledger.files
            && Apply(c, t, step).ledger.disk == s.ledger.disk
            && Of(Apply(c, t, step).ledger.sink, p) == Of(s.ledger.sink, p) + [LineRecord(c(p))]
            && forall u :: UncoveredAfter(t, step, p, u) == (u.0 + 1, u.1)
  {
  }

  lemma Next(c: Path -> Tailer, steps: seq<Step>, s: State, step: Step, p: Path) returns (longer: seq<Step>)
    requires Run(c, steps) == Some(s) && Enabled(c, s, step)
    ensures Run(c, longer) == Some(Apply(c, s, step))
    ensures Uncovered(c, longer, p) == UncoveredAfter(s, step, p, Uncovered(c, steps, p))
    ensures StopsAreCovered(c, longer, p)
       <==> StopsAreCovered(c, steps, p) && (step.Stop? ==> Uncovered(c, steps, p) == (0, 0))
  {
    hide Enabled, Apply, UncoveredAfter;
    longer := steps + [step];
    assert longer[..|steps|] == steps;
  }

  /** The scan commits the line: one record more in the store, which no saved offset covers. */
  lemma CommitLine(c: Path -> Tailer, steps: seq<Step>, s: State, p: Path) returns (longer: seq<Step>, t: State)
    requires Run(c, steps) == Some(s) && Ready(s, p)
    ensures Run(c, longer) == Some(t)
    ensures StopsAreCovered(c, longer, p) <==> StopsAreCovered(c, steps, p)
    ensures Uncovered(c, longer, p).0 == Uncovered(c, steps, p).0 + 1
    ensures t.sched.phase == Phase.Scanning && t.ledger.files == s.ledger.files && t.ledger.disk == s.ledger.disk
    ensures Of(t.ledger.sink, p) == Of(s.ledger.sink, p) + [LineRecord(c(p))]
  {
    hide Run, Enabled, Apply, Ready, Scanning, StopsAreCovered, Uncovered, UncoveredAfter;
    var id := s.sched.nextId;
    ScanStarts(c, s, p);
    longer := Next(c, steps, s, ScanStart(p), p);
    ScanLocks(c, s, p);
    longer := Next(c, longer, Scanning(s, p, Waiting), Step.Lock(id), p);
    ScanParses(c, s, p);
    longer := Next(c, longer, Scanning(s, p, Locked), ParseOk(id), p);
    t := Apply(c, Scanning(s, p, Locked), ParseOk(id));
    ScanInserts(c, s, t, p);
    longer := Next(c, longer, t, InsertOk(id), p);
    t := Apply(c, t, InsertOk(id));
  }

  lemma LineAppended(c: Path -> Tailer, p: Path) returns (steps: seq<Step>, s: State)
    ensures Run(c, steps) == Some(s) && Ready(s, p) && s.ledger.files == map[p := LINE]
    ensures s.ledger.sink == map[] && s.ledger.disk == map[]
    ensures Uncovered(c, steps, p) == (0, 0)
  {
    assert [] + LINE == LINE;
    steps := Next(c, [], Init(), Append(p, LINE), p);
    s := Apply(c, Init(), Append(p, LINE));
  }

  lemma StopAndRestart(c: Path -> Tailer, s: State, p: Path)
    requires s.sched.phase == Phase.Scanning && s.ledger.files == map[p := LINE] && s.ledger.disk == map[]
    ensures Enabled(c, s, Stop) && Enabled(c, Apply(c, s, Stop), Restart)
    ensures Ready(Apply(c, Apply(c, s, Stop), Restart), p)
    ensures Apply(c, Apply(c, s, Stop), Restart).ledger.sink == s.ledger.sink
    ensures Apply(c, Apply(c, s, Stop), Restart).ledger.files == s.ledger.files
  {
    hide Unsaved, ViewOf;
  }

  /** When the process ends between the InsertBatch and the Save, the line is stored again after the restart. */
  lemma CrashMayStoreTwice(c: Path -> Tailer, p: Path) returns (steps: seq<Step>, s: State)
    ensures Run(c, steps) == Some(s) && !StopsAreCovered(c, steps, p)
    ensures AllRecords(c(p), Of(s.ledger.files, p)) == [LineRecord(c(p))]
    ensures Of(s.ledger.sink, p) == [LineRecord(c(p)), LineRecord(c(p))]
  {
    OneLine(c(p));
    hide Run, Enabled, Apply, Ready, StopsAreCovered, Uncovered, AllRecords, UncoveredAfter;
    steps, s := LineAppended(c, p);
    steps, s := CommitLine(c, steps, s, p);
    StopAndRestart(c, s, p);
    var down := Apply(c, s, Stop);
    steps := Next(c, steps, s, Stop, p);
    steps := Next(c, steps, down, Restart, p);
    steps, s := CommitLine(c, steps, Apply(c, down, Restart), p);
  }
}
