/** The watcher's methods in their own form. Each of them, run without interference, is a run of the
    capture state machine, so that what is proved there over all runs covers what these methods do. */
module Watcher {
  import opened Engrams
  import opened Chunking
  import opened JsonlParser
  import opened JsonlTailing
  import opened CapturePath
  import opened CaptureScheduler
  import opened CaptureProtocol
  import opened CaptureTheorems

  /** The state after steps taken from s, if each of them can be taken. */
  ghost function RunFrom(c: Path -> Tailer, s: State, steps: seq<Step>): Option<State> {
    if steps == [] then Some(s)
    else
      match RunFrom(c, s, steps[..|steps| - 1])
      case None => None
      case Some(t) =>
        if Enabled(c, t, steps[|steps| - 1]) then Some(Apply(c, t, steps[|steps| - 1])) else None
  }

  /** What follows a run is a run. */
  lemma {:induction false} RunsCompose(c: Path -> Tailer, first: seq<Step>, more: seq<Step>)
    requires Run(c, first).Some? && RunFrom(c, Run(c, first).value, more).Some?
    ensures Run(c, first + more) == RunFrom(c, Run(c, first).value, more)
  {
    hide Enabled, Apply;
    if more == [] {
      assert first + more == first;
    } else {
      assert (first + more)[..|first + more| - 1] == first + more[..|more| - 1];
      RunsCompose(c, first, more[..|more| - 1]);
    }
  }

  /** So what holds over all runs holds after any of these methods: called in a state a run has reached, with
      the steps it returns, it ends in a state that a run reaches and the invariant covers. */
  lemma MethodsStayInRuns(c: Path -> Tailer, first: seq<Step>, s0: State, steps: seq<Step>, s: State)
    requires Run(c, first) == Some(s0) && RunFrom(c, s0, steps) == Some(s)
    ensures Run(c, first + steps) == Some(s) && Inv(c, s)
  {
    hide Run, RunFrom, Inv;
    RunsCompose(c, first, steps);
    RunIsSafe(c, first + steps);
  }

  lemma RunFromSnoc(c: Path -> Tailer, s: State, steps: seq<Step>, t: State, step: Step)
    requires RunFrom(c, s, steps) == Some(t) && Enabled(c, t, step)
    ensures RunFrom(c, s, steps + [step]) == Some(Apply(c, t, step))
  {
    hide Enabled, Apply;
    assert (steps + [step])[..|steps|] == steps;
  }

  /** What the Go runtime keeps for the watcher: armed timers, goroutines, held mutexes. */
  datatype Runtime = Runtime(armed: map<TimerId, Path>, jobs: map<TimerId, Job>, locks: map<Path, TimerId>,
                             nextId: nat, phase: Phase)

  class CaptureWatcher {
    const c: Path -> Tailer

    var pending: map<Path, TimerId>
    var inflight: int
    var skippedPayloadTooLarge: nat

    var runtime: Runtime
    var ledger: Ledger     // files, store and offsets

    ghost function View(): State
      reads this
    {
      State(Sched(runtime.armed, pending, runtime.jobs, runtime.locks, inflight, runtime.nextId, runtime.phase), ledger)
    }

    constructor (c: Path -> Tailer)
      ensures View() == Init() && this.c == c && skippedPayloadTooLarge == 0
    {
      this.c := c;
      pending, inflight, skippedPayloadTooLarge := map[], 0, 0;
      runtime := Runtime(map[], map[], map[], 0, Scanning);
      ledger := Init().ledger;
    }

    /** time.Timer.Stop. */
    method StopTimer(t: TimerId) returns (stopped: bool)
      modifies this`runtime
      ensures stopped == (t in old(runtime.armed))
      ensures runtime == old(runtime).(armed := if stopped then old(runtime.armed) - {t} else old(runtime.armed))
    {
      stopped := t in runtime.armed;
      if stopped {
        runtime := runtime.(armed := runtime.armed - {t});
      }
    }

    method ScheduleParse(path: Path)
      requires runtime.phase == Looping
      modifies this`pending, this`inflight, this`runtime, this`ledger
      ensures Enabled(c, old(View()), Event(path))
      ensures View() == Apply(c, old(View()), Event(path))
    {
      hide Enabled, Apply, CaptureScheduler.StopTimer;
      EventIs(c, View(), path);
      if path in pending {
        GiveUpTimer(pending[path]);
      }
      inflight := inflight + 1;
      runtime := runtime.(armed := runtime.armed[runtime.nextId := path], nextId := runtime.nextId + 1);
      pending := pending[path := runtime.nextId - 1];
      ledger := ledger.(notified := ledger.notified[path := |Of(ledger.files, path)|]);
    }

    /** Stops a timer and, if it had not fired, gives its slot back. */
    method GiveUpTimer(t: TimerId)
      modifies this`inflight, this`runtime
      ensures View().sched == CaptureScheduler.StopTimer(old(View()).sched, t)
      ensures runtime.phase == old(runtime.phase) && runtime.nextId == old(runtime.nextId)
    {
      StoppedTimer(View().sched, t);
      OneStopped(runtime.armed, t);
      hide CaptureScheduler.StopTimer;
      var stopped := StopTimer(t);
      if stopped {
        inflight := inflight - 1;
      }
    }

    /** The two halves of flushAll's timer handling: take the map's timers, then stop one of them. */
    method TakePending() returns (pendings: seq<TimerId>)
      requires runtime.phase == Looping
      modifies this`pending, this`runtime
      ensures runtime.phase == Flushing(pendings)
      ensures Enabled(c, old(View()), Step.Cancel(pendings))
      ensures View() == Apply(c, old(View()), Step.Cancel(pendings))
      ensures pending == map[] && inflight == old(inflight) && ledger == old(ledger)
      ensures runtime.armed == old(runtime.armed) && forall t :: t in pendings <==> t in old(pending).Values
    {
      pendings := Values(pending);
      pending := map[];
      runtime := runtime.(phase := Flushing(pendings));
    }

    method StopOne()
      requires runtime.phase.Flushing? && runtime.phase.rest != []
      modifies this`inflight, this`runtime
      ensures runtime.phase == Flushing(old(runtime.phase.rest)[1..])
      ensures Enabled(c, old(View()), FlushStop)
      ensures View() == Apply(c, old(View()), FlushStop)
      ensures pending == old(pending) && ledger == old(ledger)
      ensures runtime.armed == old(runtime.armed) - {old(runtime.phase.rest)[0]}
      ensures inflight - |runtime.armed| == old(inflight) - |old(runtime.armed)|
    {
      var rest := runtime.phase.rest;
      hide Enabled, Apply, CaptureScheduler.StopTimer;
      FlushStopIs(c, View());
      OneStopped(runtime.armed, rest[0]);
      StoppedTimer(View().sched, rest[0]);
      var stopped := StopTimer(rest[0]);
      if stopped {
        inflight := inflight - 1;
      }
      runtime := runtime.(phase := Flushing(rest[1..]));
    }

    /** State.Save. */
    method SaveState(writable: bool)
      modifies this`ledger
      ensures ledger == if writable then Post(old(ledger), Flushed) else old(ledger)
    {
      if ledger.dirty {
        if writable {
          ledger := ledger.(disk := ledger.memory, dirty := false);
        }
      }
    }

    /** Every listed timer that has not fired is stopped and gives its slot back; then the offsets are saved. */
    method FlushAll(writable: bool) returns (ghost steps: seq<Step>)
      requires runtime.phase == Looping
      modifies this`pending, this`inflight, this`runtime, this`ledger
      ensures RunFrom(c, old(View()), steps) == Some(View())
      ensures steps != [] && StopsTimers(steps[..|steps| - 1]) && steps[|steps| - 1] == FlushSave(writable)
      ensures runtime.phase == Draining(true)
      ensures pending == map[] && runtime.armed == old(runtime.armed) - old(pending).Values
      ensures inflight - |runtime.armed| == old(inflight) - |old(runtime.armed)|
      ensures ledger == if writable then Post(old(ledger), Flushed) else old(ledger)
    {
      hide *;
      ghost var s0, armed0 := View(), runtime.armed;
      var pendings := TakePending();
      OneTaken(c, s0, View(), pendings);
      AllStopped(armed0, pendings, old(pending));
      ghost var stops := StopAll(pendings, s0, [Step.Cancel(pendings)]);
      ghost var s := View();
      LeaveLoop(writable);
      RunFromSnoc(c, s0, stops, s, FlushSave(writable));
      steps := stops + [FlushSave(writable)];
      assert steps[..|steps| - 1] == stops;
    }

    /** The loop over the timers taken. */
    method StopAll(pendings: seq<TimerId>, ghost s0: State, ghost before: seq<Step>) returns (ghost steps: seq<Step>)
      requires runtime.phase == Flushing(pendings)
      requires RunFrom(c, s0, before) == Some(View()) && StopsTimers(before)
      modifies this`inflight, this`runtime
      ensures runtime.phase == Flushing([])
      ensures RunFrom(c, s0, steps) == Some(View()) && StopsTimers(steps)
      ensures runtime.armed == old(runtime.armed) - Members(pendings)
      ensures inflight - |runtime.armed| == old(inflight) - |old(runtime.armed)|
    {
      hide RunFrom, Apply, Enabled, View, StopsTimers;
      ghost var armed0 := runtime.armed;
      steps := before;
      var k := 0;
      assert pendings[0..] == pendings;
      while k < |pendings|
        invariant 0 <= k <= |pendings|
        invariant runtime.phase == Flushing(pendings[k..])
        invariant runtime.armed == armed0 - Members(pendings[..k])
        invariant inflight - |runtime.armed| == old(inflight) - |armed0|
        invariant RunFrom(c, s0, steps) == Some(View()) && StopsTimers(steps)
      {
        ghost var s := View();
        OneMoreStopped(armed0, pendings, k);
        StopOne();
        RunFromSnoc(c, s0, steps, s, FlushStop);
        StopsOneMore(steps);
        steps := steps + [FlushStop];
        k := k + 1;
      }
      assert pendings[k..] == [] && pendings[..k] == pendings;
    }

    method LeaveLoop(writable: bool)
      requires runtime.phase == Flushing([])
      modifies this`runtime, this`ledger
      ensures runtime.phase == Draining(true)
      ensures Enabled(c, old(View()), FlushSave(writable))
      ensures View() == Apply(c, old(View()), FlushSave(writable))
      ensures pending == old(pending) && inflight == old(inflight) && runtime.armed == old(runtime.armed)
      ensures ledger == if writable then Post(old(ledger), Flushed) else old(ledger)
    {
      hide Post;
      SaveState(writable);
      runtime := runtime.(phase := Draining(true));
      NothingPosted(old(ledger));
    }

    ghost predicate AtStage(id: TimerId, stage: Stage)
      reads this
    {
      id in runtime.jobs && runtime.jobs[id].stage == stage
    }

    /** A job moves on; nothing else in the runtime changes. */
    method MoveOn(id: TimerId, stage: Stage)
      requires id in runtime.jobs
      modifies this`runtime
      ensures runtime == old(runtime).(jobs := old(runtime.jobs)[id := old(runtime.jobs)[id].(stage := stage)])
    {
      runtime := runtime.(jobs := runtime.jobs[id := runtime.jobs[id].(stage := stage)]);
    }

    method LockPath(id: TimerId)
      requires AtStage(id, Waiting) && runtime.jobs[id].path !in runtime.locks
      modifies this`runtime
      ensures AtStage(id, Locked) && runtime.jobs[id].path == old(runtime.jobs[id].path)
      ensures Enabled(c, old(View()), Step.Lock(id)) && View() == Apply(c, old(View()), Step.Lock(id))
    {
      hide ParseOutcome;
      MoveOn(id, Locked);
      runtime := runtime.(locks := runtime.locks[runtime.jobs[id].path := id]);
    }

    method UnlockPath(id: TimerId)
      requires AtStage(id, Releasing)
      modifies this`runtime
      ensures AtStage(id, Unlocked) && runtime.jobs[id].path == old(runtime.jobs[id].path)
      ensures Enabled(c, old(View()), Step.Unlock(id)) && View() == Apply(c, old(View()), Step.Unlock(id))
    {
      hide ParseOutcome;
      MoveOn(id, Unlocked);
      runtime := runtime.(locks := runtime.locks - {runtime.jobs[id].path});
    }

    /** Parse fails to read the file: the job gives up. */
    method GiveUpReading(id: TimerId)
      requires AtStage(id, Locked)
      modifies this`runtime, this`ledger
      ensures Enabled(c, old(View()), ParseFail(id)) && View() == Apply(c, old(View()), ParseFail(id))
      ensures SameData(old(ledger), ledger)
      ensures AtStage(id, Releasing) && runtime.jobs[id].path == old(runtime.jobs[id].path)
    {
      hide ParseOutcome, ActOk;
      var path := runtime.jobs[id].path;
      AdvanceOk(View().sched, id, Releasing);
      ledger := ledger.(seen := ledger.seen[path := |Of(ledger.files, path)|], failed := ledger.failed + {path});
      MoveOn(id, Releasing);
    }

    /** The call of Parse, from the offset on record. */
    method ReadFile(id: TimerId, now: int) returns (engrams: seq<Engram>)
      requires AtStage(id, Locked) && runtime.jobs[id].path in ledger.files
      requires |ledger.files[runtime.jobs[id].path]| - At(ledger.memory, runtime.jobs[id].path) <= JSONL_MAX_FILE_BYTES
      modifies this`runtime, this`ledger
      ensures Enabled(c, old(View()), ParseOk(id)) && View() == Apply(c, old(View()), ParseOk(id))
      ensures id in runtime.jobs && runtime.jobs[id].path == old(runtime.jobs[id].path)
      ensures var path := old(runtime.jobs[id].path); var from := At(old(ledger.memory), path);
              var (records, next) := ParseOutcome(c(path), old(ledger.files)[path], from);
              runtime.jobs[id].stage == Parsed(from, records, next) && records == Views(engrams)
      ensures SameData(old(ledger), ledger)
      ensures forall e | e in engrams :: |e.payload| <= MAX_PAYLOAD_BYTES
    {
      hide ParseOutcome, ActOk, ReadsFrom, OneStampPerLine, Timed;
      var path := runtime.jobs[id].path;
      var from := At(ledger.memory, path);
      var newOffset;
      engrams, newOffset := Parse(c(path), now, ledger.files[path], from);
      OutcomeFits(c(path), ledger.files[path], from);
      FittingViews(engrams);
      var stage := Parsed(from, Views(engrams), newOffset);
      AdvanceOk(View().sched, id, stage);
      ParseOkStep(c, View(), id, stage);
      ledger := ledger.(seen := ledger.seen[path := |ledger.files[path]|]);
      MoveOn(id, stage);
    }

    /** The call of InsertBatch: all of the batch or none of it. */
    method InsertBatch(id: TimerId, insertable: bool)
      requires id in runtime.jobs && runtime.jobs[id].stage.Parsed?
      requires !insertable ==> runtime.jobs[id].stage.records != []
      modifies this`runtime, this`ledger
      ensures var step := if insertable then InsertOk(id) else InsertFail(id);
              Enabled(c, old(View()), step) && View() == Apply(c, old(View()), step)
      ensures id in runtime.jobs && runtime.jobs[id].path == old(runtime.jobs[id].path)
      ensures runtime.jobs[id].stage == if insertable then Inserted(old(runtime.jobs[id].stage).next) else Releasing
      ensures var stage := old(runtime.jobs[id].stage); var path := old(runtime.jobs[id].path);
              SameData(old(ledger).(sink := if insertable then old(ledger.sink)[path := Of(old(ledger.sink), path) + stage.records]
                                            else old(ledger.sink)), ledger)
    {
      hide ParseOutcome, ActOk;
      var Job(path, scan, stage) := runtime.jobs[id];
      AdvanceOk(View().sched, id, Releasing);
      AdvanceOk(View().sched, id, Inserted(stage.next));
      if insertable {
        ledger := ledger.(sink := ledger.sink[path := Of(ledger.sink, path) + stage.records],
                          failed := ledger.failed - {path},
                          batches := ledger.batches[path := Of(ledger.batches, path) + [(stage.from, stage.next)]]);
        MoveOn(id, Inserted(stage.next));
      } else {
        ledger := ledger.(failed := ledger.failed + {path});
        MoveOn(id, Releasing);
      }
    }

    /** State.Set, when the offset has moved. */
    method RecordOffset(id: TimerId)
      requires id in runtime.jobs && runtime.jobs[id].stage.Inserted?
      modifies this`runtime, this`ledger
      ensures Enabled(c, old(View()), Step.SetOffset(id)) && View() == Apply(c, old(View()), Step.SetOffset(id))
      ensures var path := old(runtime.jobs[id].path);
              && id in runtime.jobs && runtime.jobs[id].path == path
              && runtime.jobs[id].stage
                 == if old(runtime.jobs[id].stage.next) == At(old(ledger.memory), path) then Releasing else Recorded
      ensures var path := old(runtime.jobs[id].path); var next := old(runtime.jobs[id].stage.next);
              if next == At(old(ledger.memory), path) then ledger == old(ledger)
              else ledger == old(ledger).(memory := old(ledger.memory)[path := next], dirty := true)
    {
      hide ParseOutcome, ActOk;
      var Job(path, scan, stage) := runtime.jobs[id];
      AdvanceOk(View().sched, id, Releasing);
      AdvanceOk(View().sched, id, Recorded);
      if stage.next != At(ledger.memory, path) {
        ledger := ledger.(memory := ledger.memory[path := stage.next], dirty := true);
        MoveOn(id, Recorded);
      } else {
        MoveOn(id, Releasing);
      }
    }

    method SaveAfterSet(id: TimerId, writable: bool)
      requires AtStage(id, Recorded)
      modifies this`runtime, this`ledger
      ensures Enabled(c, old(View()), Save(id, writable)) && View() == Apply(c, old(View()), Save(id, writable))
      ensures AtStage(id, Releasing) && runtime.jobs[id].path == old(runtime.jobs[id].path)
      ensures ledger == if writable && old(ledger.dirty) then old(ledger).(disk := old(ledger.memory), dirty := false)
                        else old(ledger)
    {
      hide ParseOutcome, ActOk;
      AdvanceOk(View().sched, id, Releasing);
      SaveState(writable);
      MoveOn(id, Releasing);
      NothingPosted(old(ledger));
    }

    /** parseAndCommit, for a job that finds its path's mutex free. The parameters say what the
        environment makes of reading the file, of the transaction and of writing state.json. */
    method ParseAndCommit(id: TimerId, now: int, readable: bool, insertable: bool, writable: bool)
      returns (ghost steps: seq<Step>)
      requires AtStage(id, Waiting) && runtime.jobs[id].path !in runtime.locks
      requires runtime.jobs[id].path in ledger.files
      requires |ledger.files[runtime.jobs[id].path]| - At(ledger.memory, runtime.jobs[id].path) <= JSONL_MAX_FILE_BYTES
      modifies this`runtime, this`ledger, this`skippedPayloadTooLarge
      ensures RunFrom(c, old(View()), steps) == Some(View())
      ensures AtStage(id, Unlocked)
      ensures var path := old(runtime.jobs[id].path);
              var (records, next) := ParseOutcome(c(path), old(ledger.files)[path], At(old(ledger.memory), path));
              if readable && (insertable || records == []) then CommittedTo(old(ledger), ledger, path, records, next, writable)
              else SameData(old(ledger), ledger)
      ensures skippedPayloadTooLarge == old(skippedPayloadTooLarge)
    {
      hide RunFrom, Apply, Enabled, View, SameData, CommittedTo, ParseOutcome, Fitting, Took, At, Of;
      ghost var s0 := View();
      EmptyRun(c, s0);
      steps := [];
      ghost var s := View();
      LockPath(id);
      steps := Took(c, s0, steps, s, Step.Lock(id));
      s := View();
      if readable {
        var engrams := ReadFile(id, now);
        steps := Took(c, s0, steps, s, ParseOk(id));
        var filtered, skipped := Filter(engrams);
        AllFit(engrams);
        skippedPayloadTooLarge := skippedPayloadTooLarge + skipped;
        ghost var l, read := ledger, runtime.jobs[id].stage;
        steps := Commit(id, insertable || |filtered| == 0, writable, s0, steps);
        CommittedFromSame(old(ledger), l, ledger, old(runtime.jobs[id].path), read.records, read.next, writable);
      } else {
        GiveUpReading(id);
        steps := Took(c, s0, steps, s, ParseFail(id));
      }
      s := View();
      UnlockPath(id);
      steps := Took(c, s0, steps, s, Step.Unlock(id));
    }

    /** The rest of parseAndCommit once the records are there. */
    method Commit(id: TimerId, inserted: bool, writable: bool, ghost s0: State, ghost before: seq<Step>)
      returns (ghost steps: seq<Step>)
      requires RunFrom(c, s0, before) == Some(View())
      requires id in runtime.jobs && runtime.jobs[id].stage.Parsed?
      requires !inserted ==> runtime.jobs[id].stage.records != []
      modifies this`runtime, this`ledger
      ensures RunFrom(c, s0, steps) == Some(View())
      ensures AtStage(id, Releasing) && runtime.jobs[id].path == old(runtime.jobs[id].path)
      ensures var path := old(runtime.jobs[id].path); var stage := old(runtime.jobs[id].stage);
              if inserted then CommittedTo(old(ledger), ledger, path, stage.records, stage.next, writable)
              else SameData(old(ledger), ledger)
    {
      hide RunFrom, Apply, Enabled, View;
      steps := before;
      ghost var s := View();
      InsertBatch(id, inserted);
      steps := Took(c, s0, steps, s, if inserted then InsertOk(id) else InsertFail(id));
      if inserted {
        s := View();
        RecordOffset(id);
        steps := Took(c, s0, steps, s, Step.SetOffset(id));
        if runtime.jobs[id].stage == Recorded {
          s := View();
          SaveAfterSet(id, writable);
          steps := Took(c, s0, steps, s, Save(id, writable));
        }
      }
    }
  }

  lemma EventIs(c: Path -> Tailer, s: State, p: Path)
    requires s.sched.phase == Looping
    ensures Enabled(c, s, Event(p))
    ensures Apply(c, s, Event(p))
         == State(StartTimer(if p in s.sched.pending then StopTimer(s.sched, s.sched.pending[p]) else s.sched, p),
                  s.ledger.(notified := s.ledger.notified[p := |Of(s.ledger.files, p)|]))
  {
  }

  lemma FlushStopIs(c: Path -> Tailer, s: State)
    requires s.sched.phase.Flushing? && s.sched.phase.rest != []
    ensures Enabled(c, s, FlushStop)
    ensures Apply(c, s, FlushStop)
         == s.(sched := StopTimer(s.sched, s.sched.phase.rest[0]).(phase := Flushing(s.sched.phase.rest[1..])))
  {
  }

  lemma StoppedTimer(s: Sched, t: TimerId)
    ensures StopTimer(s, t)
         == s.(armed := s.armed - {t}, inflight := s.inflight - if t in s.armed then 1 else 0)
  {
    OneStopped(s.armed, t);
  }

  /** flushAll before its Save: the timers are taken, then stopped one by one. */
  ghost predicate StopsTimers(steps: seq<Step>) {
    steps != [] && steps[0].Cancel? && forall i | 0 < i < |steps| :: steps[i] == FlushStop
  }

  lemma OneTaken(c: Path -> Tailer, s: State, t: State, timers: seq<TimerId>)
    requires Enabled(c, s, Step.Cancel(timers)) && t == Apply(c, s, Step.Cancel(timers))
    ensures RunFrom(c, s, [Step.Cancel(timers)]) == Some(t)
    ensures StopsTimers([Step.Cancel(timers)])
  {
    hide Enabled, Apply;
    EmptyRun(c, s);
    RunFromSnoc(c, s, [], s, Step.Cancel(timers));
    assert [] + [Step.Cancel(timers)] == [Step.Cancel(timers)];
  }

  lemma StopsOneMore(steps: seq<Step>)
    requires StopsTimers(steps)
    ensures StopsTimers(steps + [FlushStop])
  {
  }

  ghost function Members(timers: seq<TimerId>): set<TimerId> {
    set t | t in timers
  }

  lemma OneMoreStopped(armed: map<TimerId, Path>, timers: seq<TimerId>, k: nat)
    requires k < |timers|
    ensures armed - Members(timers[..k]) - {timers[k]} == armed - Members(timers[..k + 1])
    ensures timers[k..][0] == timers[k] && timers[k..][1..] == timers[k + 1..]
  {
    assert timers[..k + 1] == timers[..k] + [timers[k]];
  }

  lemma AllStopped(armed: map<TimerId, Path>, timers: seq<TimerId>, pending: map<Path, TimerId>)
    requires forall t :: t in timers <==> t in pending.Values
    ensures armed - Members(timers) == armed - pending.Values
  {
    assert Members(timers) == pending.Values;
  }

  lemma OneStopped(armed: map<TimerId, Path>, t: TimerId)
    ensures |armed - {t}| == |armed| - if t in armed then 1 else 0
    ensures t !in armed ==> armed - {t} == armed
  {
    if t in armed {
      Removed(armed, t);
    } else {
      assert armed - {t} == armed;
    }
  }

  lemma CommittedFromSame(l: Ledger, m: Ledger, n: Ledger, p: Path, records: seq<Record>, next: nat, writable: bool)
    requires SameData(l, m)
    ensures CommittedTo(m, n, p, records, next, writable) ==> CommittedTo(l, n, p, records, next, writable)
    ensures SameData(m, n) ==> SameData(l, n)
  {
  }

  /** The same files, rows and offsets; the ledger's history may differ. */
  ghost predicate SameData(l: Ledger, m: Ledger) {
    m.files == l.files && m.sink == l.sink && m.memory == l.memory && m.disk == l.disk && m.dirty == l.dirty
  }

  /** The records are appended to the path's rows, the path's offset is the new one, and the offsets on disk
      are those in memory if the offset has moved and could be saved, else as before. */
  ghost predicate CommittedTo(l: Ledger, m: Ledger, p: Path, records: seq<Record>, next: nat, writable: bool) {
    && m.files == l.files
    && m.sink == l.sink[p := Of(l.sink, p) + records]
    && (forall q :: At(m.memory, q) == if q == p then next else At(l.memory, q))
    && m.disk == if writable && next != At(l.memory, p) then m.memory else l.disk
  }

  ghost function Took(c: Path -> Tailer, s0: State, steps: seq<Step>, s: State, step: Step): (more: seq<Step>)
    requires RunFrom(c, s0, steps) == Some(s) && Enabled(c, s, step)
    ensures RunFrom(c, s0, more) == Some(Apply(c, s, step))
  {
    RunFromSnoc(c, s0, steps, s, step);
    steps + [step]
  }

  lemma EmptyRun(c: Path -> Tailer, s: State)
    ensures RunFrom(c, s, []) == Some(s)
  {
  }

  lemma NothingPosted(l: Ledger)
    ensures Post(l, Nothing) == l
  {
  }

  lemma AdvanceOk(s: Sched, id: TimerId, stage: Stage)
    requires id in s.jobs && Holds(s.jobs[id].stage) && Holds(stage) && stage != Locked
    ensures ActOk(s, Advance(id, stage))
  {
  }

  lemma ParseOkStep(c: Path -> Tailer, s: State, id: TimerId, stage: Stage)
    requires id in s.sched.jobs && s.sched.jobs[id].stage == Locked && s.sched.jobs[id].path in s.ledger.files
    requires var p := s.sched.jobs[id].path;
             && |s.ledger.files[p]| - At(s.ledger.memory, p) <= JSONL_MAX_FILE_BYTES
             && stage == Parsed(At(s.ledger.memory, p), ParseOutcome(c(p), s.ledger.files[p], At(s.ledger.memory, p)).0,
                                ParseOutcome(c(p), s.ledger.files[p], At(s.ledger.memory, p)).1)
    ensures Guard(s, ParseOk(id)) && ActOf(c, s, ParseOk(id)) == Advance(id, stage)
    ensures EntryOf(c, s, ParseOk(id)) == Read(s.sched.jobs[id].path, true)
  {
    hide ParseOutcome;
  }

  /** The values of a map, in some order. */
  method Values(m: map<Path, TimerId>) returns (values: seq<TimerId>)
    ensures |values| == |m|
    ensures forall t :: t in values <==> t in m.Values
  {
    values := [];
    var rest := m;
    while rest != map[]
      invariant |values| + |rest| == |m|
      invariant forall p | p in rest :: p in m && rest[p] == m[p]
      invariant forall t :: t in m.Values <==> t in values || t in rest.Values
      decreases |rest|
    {
      var p :| p in rest;
      Removed(rest, p);
      ValuesWithout(rest, p);
      values := values + [rest[p]];
      rest := rest - {p};
    }
  }

  lemma ValuesWithout(m: map<Path, TimerId>, p: Path)
    requires p in m
    ensures m.Values == (m - {p}).Values + {m[p]}
  {
    forall t | t in m.Values ensures t in (m - {p}).Values + {m[p]} {
      var q :| q in m && m[q] == t;
      if q != p {
        assert q in m - {p};
      }
    }
  }

  /** The engrams the store would accept by size. */
  function Fitting(engrams: seq<Engram>): seq<Engram> {
    if engrams == [] then []
    else
      var e := engrams[|engrams| - 1];
      Fitting(engrams[..|engrams| - 1]) + (if |e.payload| > MAX_PAYLOAD_BYTES then [] else [e])
  }

  /** The pre-filter that keeps one oversized payload from failing a whole batch. */
  method Filter(engrams: seq<Engram>) returns (filtered: seq<Engram>, skipped: nat)
    ensures filtered == Fitting(engrams) && skipped + |filtered| == |engrams|
    ensures forall e :: e in filtered <==> e in engrams && |e.payload| <= 8_388_608
  {
    filtered, skipped := [], 0;
    for i := 0 to |engrams|
      invariant filtered == Fitting(engrams[..i]) && skipped + |filtered| == i
    {
      assert engrams[..i + 1][..i] == engrams[..i];
      if |engrams[i].payload| > MAX_PAYLOAD_BYTES {
        skipped := skipped + 1;
      } else {
        filtered := filtered + [engrams[i]];
      }
    }
    assert engrams[..|engrams|] == engrams;
    FittingAre(engrams);
  }

  lemma {:induction false} FittingAre(engrams: seq<Engram>)
    ensures forall e :: e in Fitting(engrams) <==> e in engrams && |e.payload| <= 8_388_608
  {
    if engrams != [] {
      FittingAre(engrams[..|engrams| - 1]);
      assert engrams == engrams[..|engrams| - 1] + [engrams[|engrams| - 1]];
    }
  }

  lemma {:induction false} AllFit(engrams: seq<Engram>)
    requires forall e | e in engrams :: |e.payload| <= MAX_PAYLOAD_BYTES
    ensures Fitting(engrams) == engrams
  {
    if engrams != [] {
      assert engrams == engrams[..|engrams| - 1] + [engrams[|engrams| - 1]];
      AllFit(engrams[..|engrams| - 1]);
    }
  }

  lemma FittingViews(engrams: seq<Engram>)
    requires forall r | r in Views(engrams) :: |r.payload| <= MAX_PAYLOAD_BYTES
    ensures forall e | e in engrams :: |e.payload| <= MAX_PAYLOAD_BYTES
  {
    forall e | e in engrams ensures |e.payload| <= MAX_PAYLOAD_BYTES {
      var i :| 0 <= i < |engrams| && engrams[i] == e;
      assert Views(engrams)[i] in Views(engrams);
    }
  }

  /** A JSONL pass emits nothing the pre-filter would drop. */
  lemma OutcomeFits(c: Tailer, file: Bytes, from: nat)
    ensures forall r | r in ParseOutcome(c, file, from).0 :: |r.payload| <= MAX_PAYLOAD_BYTES
  {
    hide Records, Consumed;
    var f := if from > |file| then 0 else from;
    var s := if f == 0 then TextStart(file) else f;
    RecordsFitTheStore(c, file, s, Consumed(file, s));
  }
}
