/** The guarantees of the capture daemon, over every run. */
module CaptureTheorems {
  import opened Engrams
  import opened Chunking
  import opened JsonlParser
  import opened JsonlTailing
  import opened CapturePath
  import opened CaptureScheduler
  import opened CaptureProtocol
  import opened CaptureSafety

  // ----- The invariant -----

  ghost predicate PathsGood(c: Path -> Tailer, s: State) {
    forall p: Path :: Good(c(p), PathOf(s, p))
  }

  /** Before shutdown begins to stop timers. */
  predicate Live(phase: Phase) {
    phase in {Scanning, Looping, Draining(false)}
  }

  /** Until timers are flushed, the bytes an event reported have been read by a Parse, or one is coming. */
  ghost predicate WakeupsGood(s: State) {
    && (forall p | p in s.ledger.notified :: s.ledger.notified[p] <= |Of(s.ledger.files, p)|)
    && (Live(s.sched.phase) ==> forall p | p in s.ledger.notified :: WakeupGood(s, p))
    && (s.sched.phase == Down ==> s.ledger.notified == map[])
  }

  ghost predicate WakeupGood(s: State, p: Path)
    requires p in s.ledger.notified
  {
    s.ledger.notified[p] <= At(s.ledger.seen, p) || Awaited(s.sched, p)
  }

  ghost predicate Inv(c: Path -> Tailer, s: State) {
    CountersGood(s.sched) && LocksGood(s.sched) && PathsGood(c, s) && WakeupsGood(s)
  }

  lemma InitIsGood(c: Path -> Tailer)
    ensures Inv(c, Init())
  {
    hide Records;
    forall p: Path ensures Good(c(p), PathOf(Init(), p)) {
      NothingBetween(c(p), [], 0);
    }
  }

  lemma StepKeepsPath(c: Path -> Tailer, s: State, step: Step, p: Path)
    requires CountersGood(s.sched) && LocksGood(s.sched) && Enabled(c, s, step)
    requires Good(c(p), PathOf(s, p))
    ensures Good(c(p), PathOf(Apply(c, s, step), p))
  {
    hide CountersGood, LocksGood, ActOk, ActOf, Guard, Apply, MoveOf, MoveOk, Moved, SinkGood, HolderGood, BatchesGood, AtLine;
    StepIsMove(c, s, step, p);
    MoveKeepsGood(c(p), PathOf(s, p), MoveOf(c, s, step, p));
  }

  lemma StepKeepsPaths(c: Path -> Tailer, s: State, step: Step)
    requires CountersGood(s.sched) && LocksGood(s.sched) && PathsGood(c, s) && Enabled(c, s, step)
    ensures PathsGood(c, Apply(c, s, step))
  {
    hide CountersGood, LocksGood, Enabled, Apply, Good;
    forall p: Path ensures Good(c(p), PathOf(Apply(c, s, step), p)) {
      StepKeepsPath(c, s, step, p);
    }
  }

  lemma NotifiedKept(l: Ledger, e: Entry)
    requires forall p | p in l.notified :: l.notified[p] <= |Of(l.files, p)|
    ensures forall p | p in Post(l, e).notified :: Post(l, e).notified[p] <= |Of(Post(l, e).files, p)|
  {
  }

  /** What one path has been told and has read, across an entry other than the end of the process. */
  lemma ReadKept(l: Ledger, e: Entry, p: Path)
    requires !e.Forgotten? && p in Post(l, e).notified && e != Notified(p)
    requires p in l.notified ==> At(l.seen, p) <= |Of(l.files, p)| && l.notified[p] <= |Of(l.files, p)|
    ensures p in l.notified && Post(l, e).notified[p] == l.notified[p]
    ensures l.notified[p] <= At(l.seen, p) ==> l.notified[p] <= At(Post(l, e).seen, p)
    ensures e.Read? && e.path == p ==> l.notified[p] <= At(Post(l, e).seen, p)
  {
  }

  lemma PhaseComesFrom(s: Sched, act: Act)
    requires ActOk(s, act) && !act.Reset? && Live(Do(s, act).phase)
    ensures s.phase == Down || (Live(s.phase) && !act.FlushOne?)
  {
    if act.Schedule? {
      StopKeepsPending(s, if act.path in s.pending then s.pending[act.path] else 0);
    }
  }

  lemma OnlyReadsLeaveLocked(c: Path -> Tailer, s: State, step: Step)
    requires Guard(s, step) && ActOk(s.sched, ActOf(c, s, step))
    ensures var act, e := ActOf(c, s, step), EntryOf(c, s, step);
            && (act.Advance? && BeforeParse(s.sched.jobs[act.id].stage) ==> e.Read? && e.path == s.sched.jobs[act.id].path)
            && (act.Schedule? <==> e.Notified?) && (act.Schedule? ==> act.path == e.path)
  {
    hide ParseOutcome, ViewOf, HolderOf, Unsaved;
  }

  lemma WakeupKept(c: Path -> Tailer, s: State, step: Step, p: Path)
    requires CountersGood(s.sched) && Enabled(c, s, step) && !step.Stop?
    requires !ActOf(c, s, step).FlushOne?
    requires p in Apply(c, s, step).ledger.notified
    requires p in s.ledger.notified ==> WakeupGood(s, p) && s.ledger.notified[p] <= |Of(s.ledger.files, p)|
    requires At(s.ledger.seen, p) <= |Of(s.ledger.files, p)|
    ensures WakeupGood(Apply(c, s, step), p)
  {
    hide CountersGood, Do, Post, ActOf, EntryOf, Awaited, ActOk, Guard;
    var act, e := ActOf(c, s, step), EntryOf(c, s, step);
    OnlyStopForgets(c, s, step);
    OnlyReadsLeaveLocked(c, s, step);
    OnlyStopResets(c, s, step);
    if e == Notified(p) {
      ScheduledIsAwaited(s.sched, p);
    } else {
      ReadKept(s.ledger, e, p);
      if !(e.Read? && e.path == p) && Awaited(s.sched, p) {
        StillAwaited(s.sched, act, p);
      }
    }
  }

  lemma OnlyStopResets(c: Path -> Tailer, s: State, step: Step)
    requires Guard(s, step)
    ensures ActOf(c, s, step).Reset? <==> step.Stop?
  {
    hide ParseOutcome;
  }

  lemma SeenIsRead(c: Path -> Tailer, s: State, p: Path)
    requires PathsGood(c, s)
    ensures At(s.ledger.seen, p) <= |Of(s.ledger.files, p)|
  {
    hide SinkGood, HolderGood, BatchesGood, AtLine;
    assert Good(c(p), PathOf(s, p));
  }

  lemma StepKeepsWakeups(c: Path -> Tailer, s: State, step: Step)
    requires CountersGood(s.sched) && PathsGood(c, s) && WakeupsGood(s) && Enabled(c, s, step)
    ensures WakeupsGood(Apply(c, s, step))
  {
    hide CountersGood, PathsGood, WakeupGood, Do, Post, ActOf, EntryOf, ActOk, Guard;
    var (act, e) := (ActOf(c, s, step), EntryOf(c, s, step));
    NotifiedKept(s.ledger, e);
    StoppedTellsNothing(c, s, step);
    if Live(Do(s.sched, act).phase) && !step.Stop? && s.sched.phase != Down {
      OnlyStopResets(c, s, step);
      PhaseComesFrom(s.sched, act);
      forall p | p in Apply(c, s, step).ledger.notified ensures WakeupGood(Apply(c, s, step), p) {
        SeenIsRead(c, s, p);
        WakeupKept(c, s, step, p);
      }
    }
  }

  lemma PostNotified(l: Ledger, e: Entry)
    ensures Post(l, e).notified == if e.Forgotten? then map[] else if e.Notified? then Post(l, e).notified else l.notified
  {
  }

  lemma OnlyResetGoesDown(s: Sched, act: Act)
    requires ActOk(s, act)
    ensures Do(s, act).phase == Down ==> act.Reset? || s.phase == Down
  {
    if act.Schedule? {
      StopKeepsPending(s, if act.path in s.pending then s.pending[act.path] else 0);
    }
  }

  /** While the process is down nothing is notified, and nothing is notified by a restart. */
  lemma StoppedTellsNothing(c: Path -> Tailer, s: State, step: Step)
    requires Enabled(c, s, step)
    requires s.sched.phase == Down ==> s.ledger.notified == map[]
    ensures step.Stop? || s.sched.phase == Down || Do(s.sched, ActOf(c, s, step)).phase == Down
            ==> Post(s.ledger, EntryOf(c, s, step)).notified == map[]
  {
    hide Do, Post, ActOf, EntryOf, Guard;
    OnlyStopForgets(c, s, step);
    OnlyReadsLeaveLocked(c, s, step);
    OnlyStopResets(c, s, step);
    PostNotified(s.ledger, EntryOf(c, s, step));
    OnlyResetGoesDown(s.sched, ActOf(c, s, step));
  }

  /** Every step keeps the invariant. */
  lemma StepKeepsInv(c: Path -> Tailer, s: State, step: Step)
    requires Inv(c, s) && Enabled(c, s, step)
    ensures Inv(c, Apply(c, s, step))
  {
    hide CountersGood, LocksGood, PathsGood, WakeupsGood, Guard, ActOk, ActOf, EntryOf, Post, Do;
    ActKeepsCounters(s.sched, ActOf(c, s, step));
    ActKeepsLocks(s.sched, ActOf(c, s, step));
    StepKeepsPaths(c, s, step);
    StepKeepsWakeups(c, s, step);
  }

  lemma {:induction false} RunIsSafe(c: Path -> Tailer, steps: seq<Step>)
    ensures Run(c, steps).Some? ==> Inv(c, Run(c, steps).value)
  {
    hide Inv, Enabled, Apply;
    if steps == [] {
      InitIsGood(c);
    } else {
      RunIsSafe(c, steps[..|steps| - 1]);
      var before := Run(c, steps[..|steps| - 1]);
      if before.Some? && Enabled(c, before.value, steps[|steps| - 1]) {
        StepKeepsInv(c, before.value, steps[|steps| - 1]);
      }
    }
  }

  // ----- Shutdown -----

  /** The counter is the armed timers plus the unfinished jobs, so it is never negative; and once Run has
      returned, and while the store is closed, no timer is armed, no job exists and no step of one can
      be taken: in particular no InsertBatch is running or can start. */
  lemma NoInsertAfterReturn(c: Path -> Tailer, steps: seq<Step>, s: State)
    requires Run(c, steps) == Some(s)
    ensures s.sched.inflight == |s.sched.armed| + |s.sched.jobs| >= 0
    ensures s.sched.phase in {Returned, Closed} ==> s.sched.armed == map[] && s.sched.jobs == map[]
    ensures s.sched.phase in {Returned, Closed} ==> forall step | Enabled(c, s, step) ::
              !step.Fire? && !step.ParseOk? && !step.InsertOk? && !step.InsertFail? && !step.Event? && !step.ScanStart?
  {
    RunIsSafe(c, steps);
    hide LocksGood, PathsGood, WakeupsGood, ParseOutcome;
  }

  lemma {:induction false} RunSnoc(c: Path -> Tailer, steps: seq<Step>, step: Step)
    requires Run(c, steps).Some? && Enabled(c, Run(c, steps).value, step)
    ensures Run(c, steps + [step]) == Some(Apply(c, Run(c, steps).value, step))
  {
    hide Enabled, Apply;
    assert (steps + [step])[..|steps|] == steps;
  }

  lemma OneFired(c: Path -> Tailer, p: Path) returns (steps: seq<Step>, s: State)
    ensures Run(c, steps) == Some(s)
    ensures s.sched == Sched(map[], map[p := 0], map[0 := Job(p, false, Fired)], map[], 1, 1, Looping)
  {
    var s1 := Extend(c, [], Init(), EnterLoop);
    var s2 := Extend(c, [EnterLoop], s1, Event(p));
    assert s2.sched.armed == map[0 := p];
    s := Extend(c, [EnterLoop] + [Event(p)], s2, Step.Fire(0));
    steps := [EnterLoop] + [Event(p)] + [Step.Fire(0)];
    assert s.sched.armed == map[];
  }

  lemma Unlisted(c: Path -> Tailer, p: Path) returns (steps: seq<Step>, s: State)
    ensures Run(c, steps) == Some(s)
    ensures s.sched == Sched(map[1 := p], map[], map[0 := Job(p, false, Waiting)], map[], 2, 2, Looping)
  {
    hide Run;
    var steps0, s0 := OneFired(c, p);
    var s1 := Extend(c, steps0, s0, Event(p));
    s := Extend(c, steps0 + [Event(p)], s1, Step.Unlist(0));
    steps := steps0 + [Event(p)] + [Step.Unlist(0)];
    assert s.sched.pending == map[];
  }

  /** The balance holds without the watcher's map being right: a callback that fires late deletes the
      entry of the timer that replaced its own, which then stays armed where flushAll cannot find it. */
  lemma ArmedTimerMayBeUnlisted(c: Path -> Tailer, p: Path)
    ensures exists steps :: Run(c, steps).Some? &&
              var s := Run(c, steps).value.sched;
              s.phase == Draining(true) && s.pending == map[] && s.armed == map[1 := p] && s.inflight == 2
  {
    hide Run;
    var steps, s := Unlisted(c, p);
    var s1 := Extend(c, steps, s, Step.Cancel([]));
    var s2 := Extend(c, steps + [Step.Cancel([])], s1, FlushSave(true));
    assert s2.sched.phase == Draining(true);
  }

  lemma Extend(c: Path -> Tailer, steps: seq<Step>, s: State, step: Step) returns (next: State)
    requires Run(c, steps) == Some(s) && Enabled(c, s, step)
    ensures next == Apply(c, s, step)
    ensures Run(c, steps + [step]) == Some(next)
  {
    RunSnoc(c, steps, step);
    next := Apply(c, s, step);
  }

  // ----- Nothing lost, nothing invented -----

  /** At least once: every complete non-blank line in front of the saved offset is in the store, and
      everything in the store is a line of the file. */
  lemma NoLineLost(c: Path -> Tailer, steps: seq<Step>, s: State, p: Path)
    requires Run(c, steps) == Some(s)
    ensures var v := PathOf(s, p);
            && AtLine(v.file, v.disk) && v.disk <= v.memory <= |v.file|
            && (forall r | r in Captured(c(p), v.file, v.disk) :: r in v.sink)
            && (forall r | r in v.sink :: r in AllRecords(c(p), v.file))
  {
    RunIsSafe(c, steps);
    hide Run, CountersGood, LocksGood, WakeupsGood, HolderGood, BatchesGood, AllRecords, Captured, ViewOf, AtLine;
    var v := PathOf(s, p);
    assert Good(c(p), v);
    CapturedSplit(c(p), v.file, v.disk, High(v));
  }

  /** No process of the run has ended with committed records of p behind the saved offset. */
  ghost predicate EndsClean(c: Path -> Tailer, steps: seq<Step>, p: Path) {
    if steps == [] then true
    else
      var before := Run(c, steps[..|steps| - 1]);
      && EndsClean(c, steps[..|steps| - 1], p)
      && (steps[|steps| - 1].Stop? && before.Some? ==> Unsaved(c(p), PathOf(before.value, p)) == [])
  }

  lemma SurplusMoves(c: Tailer, v: PathView, m: Move)
    requires MoveOk(c, v, m)
    ensures Moved(c, v, m).surplus == v.surplus + if m == Crash then |Unsaved(c, v)| else 0
  {
    hide ParseOutcome, Unsaved;
  }

  lemma CrashIffStop(c: Path -> Tailer, s: State, step: Step, p: Path)
    requires Guard(s, step)
    ensures MoveOf(c, s, step, p) == Crash <==> step.Stop?
  {
    hide ParseOutcome, ViewOf, HolderOf, Unsaved;
  }

  lemma {:induction false} SurplusCounts(c: Path -> Tailer, steps: seq<Step>, p: Path)
    requires Run(c, steps).Some?
    ensures PathOf(Run(c, steps).value, p).surplus == 0 <==> EndsClean(c, steps, p)
  {
    hide Enabled, Apply, Unsaved, PathOf, Init, Moved, MoveOk, MoveOf;
    if steps == [] {
      NoSurplus(p);
    } else {
      var front, last := steps[..|steps| - 1], steps[|steps| - 1];
      var s := Run(c, front).value;
      SurplusCounts(c, front, p);
      RunIsSafe(c, front);
      StepSurplus(c, s, last, p);
    }
  }

  lemma NoSurplus(p: Path)
    ensures PathOf(Init(), p).surplus == 0
  {
  }

  lemma StepSurplus(c: Path -> Tailer, s: State, step: Step, p: Path)
    requires Inv(c, s) && Enabled(c, s, step)
    ensures PathOf(Apply(c, s, step), p).surplus
         == PathOf(s, p).surplus + if step.Stop? then |Unsaved(c(p), PathOf(s, p))| else 0
  {
    hide CountersGood, LocksGood, WakeupsGood, ActOk, ActOf, Guard, Apply, MoveOf, MoveOk, Moved, SinkGood, HolderGood,
         BatchesGood, AtLine, Unsaved;
    assert Good(c(p), PathOf(s, p));
    StepIsMove(c, s, step, p);
    SurplusMoves(c(p), PathOf(s, p), MoveOf(c, s, step, p));
    CrashIffStop(c, s, step, p);
  }

  /** Exactly once: the store holds the records before the committed offset, once each and in file order,
      if and only if no process has ended between an InsertBatch and the Save that covers its records. */
  lemma ExactlyOnceIffEndsClean(c: Path -> Tailer, steps: seq<Step>, s: State, p: Path)
    requires Run(c, steps) == Some(s)
    ensures var v := PathOf(s, p);
            && AtLine(v.file, High(v))
            && (v.sink == Captured(c(p), v.file, High(v)) <==> EndsClean(c, steps, p))
            && (v.holder.None? ==> High(v) == v.memory)
  {
    RunIsSafe(c, steps);
    SurplusCounts(c, steps, p);
    hide Run, EndsClean, CountersGood, LocksGood, WakeupsGood, HolderGood, BatchesGood, AllRecords, Captured, ViewOf, AtLine;
    ExactlyOnceIffNothingLeftBehind(c(p), PathOf(s, p)) by { assert Good(c(p), PathOf(s, p)); }
  }

  // ----- One writer per file -----

  lemma {:induction false} ConsecutiveIsOrdered(ranges: seq<(nat, nat)>, lo: nat, hi: nat, i: nat, j: nat)
    requires Consecutive(ranges, lo, hi) && i < j < |ranges|
    ensures ranges[i].1 <= ranges[j].0
    decreases j - i
  {
    if i + 1 < j {
      ConsecutiveIsOrdered(ranges, lo, hi, i, j - 1);
    }
  }

  /** However many jobs compete for a file, the byte ranges they commit follow each other without gap or
      overlap, from the offset loaded at start-up to the committed offset; and at any moment at most
      one of them is between Lock and Unlock. */
  lemma BatchesPartitionTheFile(c: Path -> Tailer, steps: seq<Step>, s: State, p: Path, i: nat, j: nat)
    requires Run(c, steps) == Some(s)
    ensures var v := PathOf(s, p);
            && Consecutive(v.batches, v.base, High(v))
            && (i < j < |v.batches| ==> v.batches[i].1 <= v.batches[j].0)
    ensures (&& i in s.sched.jobs && j in s.sched.jobs && s.sched.jobs[i].path == s.sched.jobs[j].path
             && Holds(s.sched.jobs[i].stage) && Holds(s.sched.jobs[j].stage)) ==> i == j
  {
    RunIsSafe(c, steps);
    hide Run, CountersGood, WakeupsGood, HolderGood, SinkGood, OffsetsGood, ViewOf, Consecutive;
    var v := PathOf(s, p);
    assert Good(c(p), v);
    if i < j < |v.batches| {
      ConsecutiveIsOrdered(v.batches, v.base, High(v), i, j);
    }
  }

  // ----- No lost wake-up -----

  /** Before shutdown, a path whose reported bytes have not been read has an armed timer or a job that has
      not begun its Parse. */
  lemma NoLostWakeup(c: Path -> Tailer, steps: seq<Step>, s: State, p: Path)
    requires Run(c, steps) == Some(s) && Live(s.sched.phase)
    requires p in s.ledger.notified && s.ledger.notified[p] > At(s.ledger.seen, p)
    ensures Awaited(s.sched, p)
  {
    RunIsSafe(c, steps);
    hide Run, CountersGood, LocksGood, PathsGood, Awaited;
  }

  /** When nothing is armed or running before shutdown, every line that was complete when an event last
      reported its file is in the store, unless the last attempt on that file failed. */
  lemma QuietMeansCaughtUp(c: Path -> Tailer, steps: seq<Step>, s: State, p: Path)
    requires Run(c, steps) == Some(s) && Live(s.sched.phase)
    requires s.sched.armed == map[] && s.sched.jobs == map[]
    requires p in s.ledger.notified && p !in s.ledger.failed
    ensures var v := PathOf(s, p);
            && s.ledger.notified[p] <= |v.file|
            && forall r | r in AllRecords(c(p), v.file[..s.ledger.notified[p]]) :: r in v.sink
  {
    RunIsSafe(c, steps);
    var v := PathOf(s, p);
    var n := s.ledger.notified[p];
    QuietFacts(c, s, p);
    hide Run, Inv, Good, PathOf, AllRecords, Captured;
    AllRecordsGrow(c(p), v.file[..n], v.file[..v.seen]);
  }

  lemma QuietFacts(c: Path -> Tailer, s: State, p: Path)
    requires Inv(c, s) && Live(s.sched.phase)
    requires s.sched.armed == map[] && s.sched.jobs == map[]
    requires p in s.ledger.notified && p !in s.ledger.failed
    ensures var v := PathOf(s, p);
            && AtLine(v.file, High(v))
            && s.ledger.notified[p] <= v.seen <= |v.file|
            && AllRecords(c(p), v.file[..v.seen]) <= Captured(c(p), v.file, High(v))
            && (forall r | r in Captured(c(p), v.file, High(v)) :: r in v.sink)
  {
    hide CountersGood, LocksGood, BatchesGood, AllRecords, Captured, AtLine;
    assert Good(c(p), PathOf(s, p));
    assert !Awaited(s.sched, p);
    assert WakeupGood(s, p);
  }
}
