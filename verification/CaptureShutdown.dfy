/** Shutdown completes: whatever timers are armed and wherever the jobs stand, Run can return and the store can
    be closed, and nothing that is still to run can go on for ever. */
module CaptureShutdown {
  import opened Engrams
  import opened Chunking
  import opened JsonlParser
  import opened CapturePath
  import opened CaptureScheduler
  import opened CaptureProtocol
  import opened CaptureTheorems

  /** How many steps a job has before it at most. */
  function Rest(stage: Stage): nat {
    match stage
    case Fired => 8
    case Waiting => 7
    case Locked => 6
    case Parsed(_, _, _) => 5
    case Inserted(_) => 4
    case Recorded => 3
    case Releasing => 2
    case Unlocked => 1
  }

  /** The steps armed timers and jobs may still take, as a set that every one of them makes smaller. */
  ghost function Todo(s: Sched): set<(TimerId, nat)> {
    (set id, k | id in s.armed && 0 <= k < 9 :: (id, k))
    + (set id, k | id in s.jobs && 0 <= k < Rest(s.jobs[id].stage) :: (id, k))
  }

  /** A step of a timer or of a job. */
  predicate Finishing(step: Step) {
    step.Fire? || step.Unlist? || step.Lock? || step.ParseOk? || step.ParseFail? || step.InsertOk?
    || step.InsertFail? || step.SetOffset? || step.Save? || step.Unlock? || step.Done?
  }

  ghost predicate FinishingAct(s: Sched, act: Act) {
    match act
    case Fire(id) => id in s.armed
    case Unlist(id) => id in s.jobs && s.jobs[id].stage == Fired
    case Lock(id) => id in s.jobs && s.jobs[id].stage == Waiting
    case Advance(id, stage) => id in s.jobs && Rest(stage) < Rest(s.jobs[id].stage)
    case Unlock(id) => id in s.jobs && s.jobs[id].stage == Releasing
    case Done(id) => id in s.jobs && s.jobs[id].stage == Unlocked
    case _ => false
  }

  lemma ActOfFinishing(c: Path -> Tailer, s: State, step: Step)
    requires Enabled(c, s, step) && Finishing(step)
    ensures FinishingAct(s.sched, ActOf(c, s, step))
  {
    hide ParseOutcome;
  }

  lemma SmallerTodo(s: Sched, t: Sched, id: TimerId)
    requires t.armed == s.armed && id in s.jobs
    requires forall j | j in t.jobs && j != id :: j in s.jobs && t.jobs[j].stage == s.jobs[j].stage
    requires id in t.jobs ==> Rest(t.jobs[id].stage) < Rest(s.jobs[id].stage)
    requires id !in s.armed
    ensures Todo(t) < Todo(s)
  {
    var k := Rest(s.jobs[id].stage) - 1;
    assert (id, k) in Todo(s) && (id, k) !in Todo(t);
  }

  lemma FiredTodo(s: Sched, t: Sched, id: TimerId)
    requires id in s.armed && id !in s.jobs && t.armed.Keys == s.armed.Keys - {id}
    requires id in t.jobs && t.jobs[id].stage == Fired
    requires forall j | j in t.jobs && j != id :: j in s.jobs && t.jobs[j].stage == s.jobs[j].stage
    ensures Todo(t) < Todo(s)
  {
    assert (id, 8) in Todo(s) && (id, 8) !in Todo(t);
  }

  lemma FireShrinks(s: Sched, id: TimerId)
    requires CountersGood(s) && ActOk(s, Act.Fire(id))
    ensures Todo(Do(s, Act.Fire(id))) < Todo(s) && Do(s, Act.Fire(id)).phase == s.phase
  {
    hide Todo;
    FiredTodo(s, Do(s, Act.Fire(id)), id);
  }

  lemma JobShrinks(s: Sched, act: Act)
    requires CountersGood(s) && ActOk(s, act) && FinishingAct(s, act) && !act.Fire?
    ensures Todo(Do(s, act)) < Todo(s) && Do(s, act).phase == s.phase
  {
    hide Todo, ActOk;
    var t := Do(s, act);
    assert t.armed == s.armed && t.phase == s.phase;
    SmallerTodo(s, t, act.id);
  }

  /** Every such step leaves less to do. */
  lemma FinishingFinishes(c: Path -> Tailer, s: State, step: Step)
    requires CountersGood(s.sched) && Enabled(c, s, step) && Finishing(step)
    ensures Todo(Apply(c, s, step).sched) < Todo(s.sched)
    ensures Apply(c, s, step).sched.phase == s.sched.phase
  {
    hide ActOf, EntryOf, Post, Guard, ParseOutcome, Todo, ActOk, CountersGood;
    ActOfFinishing(c, s, step);
    if ActOf(c, s, step).Fire? {
      FireShrinks(s.sched, ActOf(c, s, step).id);
    } else {
      JobShrinks(s.sched, ActOf(c, s, step));
    }
  }

  // ----- Somebody can always go on -----

  /** The next step of a job, were its mutex free. */
  function NextStep(id: TimerId, stage: Stage): Step {
    match stage
    case Fired => Step.Unlist(id)
    case Waiting => Step.Lock(id)
    case Locked => ParseFail(id)
    case Parsed(_, _, _) => InsertOk(id)
    case Inserted(_) => Step.SetOffset(id)
    case Recorded => Save(id, true)
    case Releasing => Step.Unlock(id)
    case Unlocked => Step.Done(id)
  }

  lemma JobCanGoOn(c: Path -> Tailer, s: State, id: TimerId)
    requires LocksGood(s.sched) && id in s.sched.jobs
    requires s.sched.jobs[id].stage == Waiting ==> s.sched.jobs[id].path !in s.sched.locks
    ensures Enabled(c, s, NextStep(id, s.sched.jobs[id].stage)) && Finishing(NextStep(id, s.sched.jobs[id].stage))
  {
    hide ParseOutcome;
  }

  /** As long as a timer is armed or a job exists, one of them can take a step: a job that waits for a mutex waits
      for another job, and that one can. */
  lemma SomebodyGoesOn(c: Path -> Tailer, s: State) returns (step: Step)
    requires LocksGood(s.sched) && (s.sched.armed != map[] || s.sched.jobs != map[])
    ensures Enabled(c, s, step) && Finishing(step)
  {
    if s.sched.armed != map[] {
      var id := Pick(s.sched.armed.Keys);
      step := Step.Fire(id);
    } else {
      var id := Pick(s.sched.jobs.Keys);
      var p := s.sched.jobs[id].path;
      if s.sched.jobs[id].stage == Waiting && p in s.sched.locks {
        id := s.sched.locks[p];
      }
      JobCanGoOn(c, s, id);
      step := NextStep(id, s.sched.jobs[id].stage);
    }
  }

  lemma {:induction false} JobsFinish(c: Path -> Tailer, first: seq<Step>, s: State) returns (more: seq<Step>, t: State)
    requires Run(c, first) == Some(s)
    ensures Run(c, first + more) == Some(t) && t.sched.armed == map[] && t.sched.jobs == map[]
    ensures t.sched.phase == s.sched.phase && forall step | step in more :: Finishing(step)
    decreases Todo(s.sched)
  {
    hide Run, Enabled, Apply, Todo, CountersGood, LocksGood, PathsGood, WakeupsGood;
    RunIsSafe(c, first);
    if s.sched.armed == map[] && s.sched.jobs == map[] {
      more, t := [], s;
      assert first + [] == first;
    } else {
      var step := SomebodyGoesOn(c, s);
      FinishingFinishes(c, s, step);
      var next := Extend(c, first, s, step);
      more, t := JobsFinish(c, first + [step], next);
      assert first + [step] + more == first + ([step] + more);
      more := [step] + more;
    }
  }

  /** From every state that a run reaches after the loop has been left, with timers armed and jobs at any stage,
      steps of these timers and jobs alone lead to where Run returns, and then the store is closed. */
  lemma ShutdownCompletes(c: Path -> Tailer, first: seq<Step>, s: State) returns (more: seq<Step>)
    requires Run(c, first) == Some(s) && s.sched.phase.Draining?
    ensures forall step | step in more :: Finishing(step)
    ensures Run(c, first + more + [Return]).Some?
    ensures Run(c, first + more + [Return]).value.sched.phase == Returned
    ensures Run(c, first + more + [Return] + [CloseStore]).Some?
    ensures Run(c, first + more + [Return] + [CloseStore]).value.sched.phase == Closed
  {
    var t;
    more, t := JobsFinish(c, first, s);
    RunIsSafe(c, first + more);
    hide Run;
    ReturnsWhenDone(c, t);
    var u := Extend(c, first + more, t, Return);
    var v := Extend(c, first + more + [Return], u, CloseStore);
  }

  lemma ReturnsWhenDone(c: Path -> Tailer, s: State)
    requires CountersGood(s.sched) && s.sched.phase.Draining? && s.sched.armed == map[] && s.sched.jobs == map[]
    ensures Enabled(c, s, Return) && Apply(c, s, Return).sched.phase == Returned
    ensures Enabled(c, Apply(c, s, Return), CloseStore)
    ensures Apply(c, Apply(c, s, Return), CloseStore).sched.phase == Closed
  {
  }

  // ----- From the signal on -----

  lemma {:induction false} TimersOf(pending: map<Path, TimerId>) returns (timers: seq<TimerId>)
    ensures |timers| == |pending| && forall t :: t in timers <==> t in pending.Values
    decreases |pending|
  {
    if pending == map[] {
      timers := [];
    } else {
      var p := Pick(pending.Keys);
      Removed(pending, p);
      var rest := TimersOf(pending - {p});
      timers := rest + [pending[p]];
      forall t ensures t in timers <==> t in pending.Values {
        if t in pending.Values && t != pending[p] {
          var q :| q in pending && pending[q] == t;
          assert q in pending - {p};
        }
      }
    }
  }

  /** flushAll's loop and its Save. */
  lemma {:induction false} FlushEnds(c: Path -> Tailer, first: seq<Step>, s: State) returns (more: seq<Step>, t: State)
    requires Run(c, first) == Some(s) && s.sched.phase.Flushing?
    ensures Run(c, first + more) == Some(t) && t.sched.phase == Draining(true)
    decreases |s.sched.phase.rest|
  {
    hide Run;
    if s.sched.phase.rest == [] {
      t := Extend(c, first, s, FlushSave(true));
      more := [FlushSave(true)];
    } else {
      StopsOne(c, s);
      var next := Extend(c, first, s, FlushStop);
      more, t := FlushEnds(c, first + [FlushStop], next);
      assert first + [FlushStop] + more == first + ([FlushStop] + more);
      more := [FlushStop] + more;
    }
  }

  lemma StopsOne(c: Path -> Tailer, s: State)
    requires s.sched.phase.Flushing? && s.sched.phase.rest != []
    ensures Enabled(c, s, FlushStop) && Apply(c, s, FlushStop).sched.phase == Flushing(s.sched.phase.rest[1..])
  {
  }

  lemma SignalEndsLoop(c: Path -> Tailer, first: seq<Step>, s: State) returns (more: seq<Step>, t: State)
    requires Run(c, first) == Some(s) && s.sched.phase == Looping
    ensures Run(c, first + more) == Some(t) && t.sched.phase == Draining(true)
  {
    hide Run;
    var timers := TimersOf(s.sched.pending);
    var next := Extend(c, first, s, Step.Cancel(timers));
    more, t := FlushEnds(c, first + [Step.Cancel(timers)], next);
    assert first + [Step.Cancel(timers)] + more == first + ([Step.Cancel(timers)] + more);
    more := [Step.Cancel(timers)] + more;
  }

  lemma ScanEnds(c: Path -> Tailer, first: seq<Step>, s: State) returns (more: seq<Step>, t: State)
    requires Run(c, first) == Some(s) && s.sched.phase == Phase.Scanning
    ensures Run(c, first + more) == Some(t) && t.sched.phase == Looping
  {
    var u;
    more, u := JobsFinish(c, first, s);
    hide Run;
    t := Extend(c, first + more, u, EnterLoop);
    assert first + more + [EnterLoop] == first + (more + [EnterLoop]);
    more := more + [EnterLoop];
  }

  /** A signal at any time, during the scan, in the loop or while flushing already, can end with the store
      closed. */
  lemma SignalIsObeyed(c: Path -> Tailer, first: seq<Step>, s: State) returns (more: seq<Step>)
    requires Run(c, first) == Some(s)
    requires s.sched.phase == Phase.Scanning || s.sched.phase == Looping || s.sched.phase.Flushing?
             || s.sched.phase.Draining?
    ensures Run(c, first + more).Some? && Run(c, first + more).value.sched.phase == Closed
  {
    hide Run;
    var t := s;
    more := [];
    assert first + more == first;
    if t.sched.phase == Phase.Scanning {
      more, t := ScanEnds(c, first, t);
    }
    if t.sched.phase == Looping {
      var rest;
      rest, t := SignalEndsLoop(c, first + more, t);
      assert first + more + rest == first + (more + rest);
      more := more + rest;
    }
    if t.sched.phase.Flushing? {
      var rest;
      rest, t := FlushEnds(c, first + more, t);
      assert first + more + rest == first + (more + rest);
      more := more + rest;
    }
    var rest := ShutdownCompletes(c, first + more, t);
    assert first + more + rest + [Return] + [CloseStore] == first + (more + rest + [Return] + [CloseStore]);
    more := more + rest + [Return] + [CloseStore];
  }

  // ----- What nobody can prevent -----

  /** What a job may do at its stage, whatever the others do. */
  ghost predicate MayGoEitherWay(c: Path -> Tailer, s: State, id: TimerId)
    requires id in s.sched.jobs
  {
    match s.sched.jobs[id].stage
    case Locked =>
      && Enabled(c, s, ParseFail(id))
      && (var p := s.sched.jobs[id].path;
          p in s.ledger.files && |s.ledger.files[p]| - At(s.ledger.memory, p) <= JSONL_MAX_FILE_BYTES
          ==> Enabled(c, s, ParseOk(id)))
    case Parsed(_, records, _) => Enabled(c, s, InsertOk(id)) && (records != [] ==> Enabled(c, s, InsertFail(id)))
    case Recorded => Enabled(c, s, Save(id, true)) && Enabled(c, s, Save(id, false))
    case _ => true
  }

  lemma JobIsFree(c: Path -> Tailer, s: State, id: TimerId)
    requires id in s.sched.jobs
    ensures MayGoEitherWay(c, s, id)
  {
    hide ParseOutcome;
  }

  lemma OutsideIsFree(c: Path -> Tailer, s: State)
    ensures forall p, bytes :: Enabled(c, s, Append(p, bytes))
    ensures s.sched.phase == Looping ==> (forall p :: Enabled(c, s, Event(p))) && Enabled(c, s, ChannelClosed)
    ensures s.sched.phase == Phase.Scanning && s.sched.jobs == map[] ==>
              forall p | p in s.ledger.files :: Enabled(c, s, ScanStart(p))
    ensures forall id | id in s.sched.armed :: Enabled(c, s, Step.Fire(id))
    ensures s.sched.phase != Down <==> Enabled(c, s, Stop)
    ensures s.sched.phase == Down <==> Enabled(c, s, Restart)
  {
    hide ParseOutcome, Unsaved;
  }

  /** The protocol rules out nothing that the world may do: files grow at any time, events come whenever the loop
      runs, armed timers fire, reading, inserting and saving may fail, the process may end at any point. */
  lemma WorldIsFree(c: Path -> Tailer, first: seq<Step>, s: State)
    requires Run(c, first) == Some(s)
    ensures forall p, bytes :: Enabled(c, s, Append(p, bytes))
    ensures s.sched.phase == Looping ==> (forall p :: Enabled(c, s, Event(p))) && Enabled(c, s, ChannelClosed)
    ensures s.sched.phase == Phase.Scanning && s.sched.jobs == map[] ==>
              forall p | p in s.ledger.files :: Enabled(c, s, ScanStart(p))
    ensures forall id | id in s.sched.armed :: Enabled(c, s, Step.Fire(id))
    ensures forall id | id in s.sched.jobs :: MayGoEitherWay(c, s, id)
    ensures s.sched.phase != Down <==> Enabled(c, s, Stop)
    ensures s.sched.phase == Down <==> Enabled(c, s, Restart)
  {
    hide *;
    OutsideIsFree(c, s);
    forall id | id in s.sched.jobs ensures MayGoEitherWay(c, s, id) {
      JobIsFree(c, s, id);
    }
  }
}
