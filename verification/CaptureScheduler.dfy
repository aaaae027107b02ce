/** Timers, jobs, per-path mutexes and the WaitGroup of the watcher: everything about scheduling,
    nothing about bytes. An act is what one goroutine does between two points where another can act. */
module CaptureScheduler {
  import opened CapturePath

  type Path = string
  type TimerId = nat

  /** A goroutine in parseAndCommit: the callback of a fired timer, or the initial scan. */
  datatype Job = Job(path: Path, scan: bool, stage: Stage)

  /** Where Run is, and what main does after it. Down is between a process's end and the next start. */
  datatype Phase =
    | Scanning
    | Looping
    | Flushing(rest: seq<TimerId>)
    | Draining(flushed: bool)
    | Returned
    | Closed
    | Down

  /** `armed` and `jobs` are what the Go runtime holds; `pending` is the watcher's own map of timers
      and may disagree with `armed`. */
  datatype Sched = Sched(
    armed: map<TimerId, Path>, pending: map<Path, TimerId>, jobs: map<TimerId, Job>,
    locks: map<Path, TimerId>, inflight: int, nextId: nat, phase: Phase)

  datatype Act =
    | Idle
    | Schedule(path: Path)                  // scheduleParse
    | Fire(id: TimerId)                     // the runtime starts a timer's callback
    | Unlist(id: TimerId)                   // the callback deletes pending[path]
    | Lock(id: TimerId)
    | Advance(id: TimerId, stage: Stage)    // the job moves on while it holds the mutex
    | Unlock(id: TimerId)
    | Done(id: TimerId)
    | Scan(path: Path)                      // scanInitial enters parseAndCommit
    | Goto(phase: Phase)
    | Cancel(timers: seq<TimerId>)          // flushAll takes the pending timers
    | FlushOne                              // flushAll stops one of them
    | Reset                                 // the process is gone

  predicate Holds(stage: Stage) {
    !stage.Fired? && !stage.Waiting? && !stage.Unlocked?
  }

  ghost predicate NoScan(s: Sched) {
    forall id | id in s.jobs :: !s.jobs[id].scan
  }

  ghost predicate ActOk(s: Sched, act: Act) {
    match act
    case Idle => true
    case Schedule(_) => s.phase == Looping
    case Fire(id) => id in s.armed
    case Unlist(id) => id in s.jobs && s.jobs[id].stage == Fired
    case Lock(id) => id in s.jobs && s.jobs[id].stage == Waiting && s.jobs[id].path !in s.locks
    case Advance(id, stage) =>
      id in s.jobs && Holds(s.jobs[id].stage) && Holds(stage) && stage != Locked
    case Unlock(id) => id in s.jobs && s.jobs[id].stage == Releasing
    case Done(id) => id in s.jobs && s.jobs[id].stage == Unlocked
    case Scan(_) => s.phase == Scanning && NoScan(s)
    case Goto(phase) =>
      || (s.phase == Scanning && NoScan(s) && phase == Looping)
      || (s.phase == Looping && phase == Draining(false))
      || (s.phase == Flushing([]) && phase == Draining(true))
      || (s.phase.Draining? && s.inflight == 0 && phase == Returned)
      || (s.phase == Returned && phase == Closed)
      || (s.phase == Down && phase == Scanning)
    case Cancel(timers) =>
      s.phase == Looping && |timers| == |s.pending| && forall t :: t in timers <==> t in s.pending.Values
    case FlushOne => s.phase.Flushing? && s.phase.rest != []
    case Reset => s.phase != Down
  }

  function ToStage(s: Sched, id: TimerId, stage: Stage): Sched
    requires id in s.jobs
  {
    s.(jobs := s.jobs[id := s.jobs[id].(stage := stage)])
  }

  /** time.Timer.Stop: takes the timer away if it has not fired, and then its slot is given back. */
  function StopTimer(s: Sched, t: TimerId): Sched {
    if t in s.armed then s.(armed := s.armed - {t}, inflight := s.inflight - 1) else s
  }

  /** time.AfterFunc for a path, with the slot it reserves. */
  function StartTimer(s: Sched, p: Path): Sched {
    s.(inflight := s.inflight + 1, armed := s.armed[s.nextId := p], pending := s.pending[p := s.nextId],
       nextId := s.nextId + 1)
  }

  ghost function Do(s: Sched, act: Act): Sched
    requires ActOk(s, act)
  {
    match act
    case Idle => s
    case Schedule(p) => StartTimer(if p in s.pending then StopTimer(s, s.pending[p]) else s, p)
    case Fire(id) => s.(armed := s.armed - {id}, jobs := s.jobs[id := Job(s.armed[id], false, Fired)])
    case Unlist(id) => ToStage(s, id, Waiting).(pending := s.pending - {s.jobs[id].path})
    case Lock(id) => ToStage(s, id, Locked).(locks := s.locks[s.jobs[id].path := id])
    case Advance(id, stage) => ToStage(s, id, stage)
    case Unlock(id) => ToStage(s, id, Unlocked).(locks := s.locks - {s.jobs[id].path})
    case Done(id) => s.(jobs := s.jobs - {id}, inflight := s.inflight - 1)
    case Scan(p) =>
      s.(inflight := s.inflight + 1, jobs := s.jobs[s.nextId := Job(p, true, Waiting)], nextId := s.nextId + 1)
    case Goto(phase) => s.(phase := phase)
    case Cancel(timers) => s.(phase := Flushing(timers), pending := map[])
    case FlushOne => StopTimer(s, s.phase.rest[0]).(phase := Flushing(s.phase.rest[1..]))
    case Reset =>
      s.(armed := map[], pending := map[], jobs := map[], locks := map[], inflight := 0, phase := Down)
  }

  // ----- The WaitGroup -----

  /** The counter is armed timers plus unfinished jobs. Nothing is said about `pending`, except that an
      entry that is still armed belongs to its path. */
  ghost predicate CountersGood(s: Sched) {
    && s.inflight == |s.armed| + |s.jobs|
    && (forall id | id in s.armed :: id < s.nextId && id !in s.jobs)
    && (forall id | id in s.jobs :: id < s.nextId)
    && (forall id | id in s.jobs && s.jobs[id].scan :: s.phase == Scanning)
    && (forall p | p in s.pending && s.pending[p] in s.armed :: s.armed[s.pending[p]] == p)
    && (forall p | p in s.pending :: s.pending[p] < s.nextId)
    && (s.phase in {Returned, Closed, Down} ==> s.armed == map[] && s.jobs == map[])
  }

  lemma Removed<K, V>(m: map<K, V>, k: K)
    requires k in m
    ensures |m - {k}| == |m| - 1
  {
    assert (m - {k}).Keys == m.Keys - {k};
  }

  lemma Added<K, V>(m: map<K, V>, k: K, v: V)
    ensures |m[k := v]| == if k in m then |m| else |m| + 1
  {
    assert m[k := v].Keys == m.Keys + {k};
  }

  lemma StopKeepsCounters(s: Sched, t: TimerId)
    requires CountersGood(s)
    ensures CountersGood(StopTimer(s, t)) && t !in StopTimer(s, t).armed
  {
    if t in s.armed {
      Removed(s.armed, t);
    }
  }

  lemma StartKeepsCounters(s: Sched, p: Path)
    requires CountersGood(s) && s.phase == Looping
    requires p in s.pending ==> s.pending[p] !in s.armed
    ensures CountersGood(StartTimer(s, p))
  {
    Added(s.armed, s.nextId, p);
  }

  lemma StageKeepsCounters(s: Sched, id: TimerId, stage: Stage)
    requires CountersGood(s) && id in s.jobs
    ensures CountersGood(ToStage(s, id, stage))
  {
    Added(s.jobs, id, s.jobs[id].(stage := stage));
  }

  lemma FireKeepsCounters(s: Sched, id: TimerId)
    requires CountersGood(s) && id in s.armed
    ensures CountersGood(Do(s, Fire(id)))
  {
    Removed(s.armed, id);
    Added(s.jobs, id, Job(s.armed[id], false, Fired));
  }

  lemma ScheduleKeepsCounters(s: Sched, p: Path)
    requires CountersGood(s) && s.phase == Looping
    ensures CountersGood(Do(s, Schedule(p)))
  {
    hide CountersGood, StartTimer, StopTimer;
    if p in s.pending {
      StopKeepsCounters(s, s.pending[p]);
      StopKeepsPending(s, s.pending[p]);
      StartKeepsCounters(StopTimer(s, s.pending[p]), p);
    } else {
      StartKeepsCounters(s, p);
    }
  }

  lemma StopKeepsPending(s: Sched, t: TimerId)
    ensures StopTimer(s, t).pending == s.pending && StopTimer(s, t).phase == s.phase
    ensures StopTimer(s, t).jobs == s.jobs && StopTimer(s, t).locks == s.locks
  {
  }

  lemma DoneKeepsCounters(s: Sched, id: TimerId)
    requires CountersGood(s) && ActOk(s, Done(id))
    ensures CountersGood(Do(s, Done(id)))
  {
    Removed(s.jobs, id);
  }

  lemma ScanKeepsCounters(s: Sched, p: Path)
    requires CountersGood(s) && ActOk(s, Scan(p))
    ensures CountersGood(Do(s, Scan(p)))
  {
    Added(s.jobs, s.nextId, Job(p, true, Waiting));
  }

  lemma GotoKeepsCounters(s: Sched, phase: Phase)
    requires CountersGood(s) && ActOk(s, Goto(phase))
    ensures CountersGood(Do(s, Goto(phase)))
  {
    assert s.inflight == 0 ==> |s.armed| == 0 && |s.jobs| == 0;
  }

  lemma FlushKeepsCounters(s: Sched)
    requires CountersGood(s) && ActOk(s, FlushOne)
    ensures CountersGood(Do(s, FlushOne))
  {
    hide StopTimer;
    var t := s.phase.rest[0];
    StopKeepsCounters(s, t);
    StopKeepsPending(s, t);
  }

  lemma RestKeepsCounters(s: Sched, act: Act)
    requires CountersGood(s) && ActOk(s, act)
    requires act.Idle? || act.Cancel? || act.Reset? || act.Unlist?
    ensures CountersGood(Do(s, act))
  {
    if act.Unlist? {
      StageKeepsCounters(s, act.id, Waiting);
    }
  }

  lemma LockActKeepsCounters(s: Sched, act: Act)
    requires CountersGood(s) && ActOk(s, act) && (act.Lock? || act.Unlock?)
    ensures CountersGood(Do(s, act))
  {
    hide CountersGood, ToStage;
    var stage := if act.Lock? then Locked else Unlocked;
    StageKeepsCounters(s, act.id, stage);
    LocksDoNotCount(ToStage(s, act.id, stage), Do(s, act).locks);
  }

  lemma LocksDoNotCount(s: Sched, locks: map<Path, TimerId>)
    requires CountersGood(s)
    ensures CountersGood(s.(locks := locks))
  {
  }

  /** Every act keeps the WaitGroup's balance. */
  lemma ActKeepsCounters(s: Sched, act: Act)
    requires CountersGood(s) && ActOk(s, act)
    ensures CountersGood(Do(s, act))
  {
    hide CountersGood;
    match act {
      case Schedule(p) => ScheduleKeepsCounters(s, p);
      case Fire(id) => FireKeepsCounters(s, id);
      case Advance(id, stage) => StageKeepsCounters(s, id, stage);
      case Lock(_) | Unlock(_) => LockActKeepsCounters(s, act);
      case Done(id) => DoneKeepsCounters(s, id);
      case Scan(p) => ScanKeepsCounters(s, p);
      case FlushOne => FlushKeepsCounters(s);
      case Goto(phase) => GotoKeepsCounters(s, phase);
      case Idle | Cancel(_) | Reset | Unlist(_) => RestKeepsCounters(s, act);
    }
  }

  // ----- The mutexes -----

  ghost predicate LocksGood(s: Sched) {
    && (forall p | p in s.locks ::
          s.locks[p] in s.jobs && s.jobs[s.locks[p]].path == p && Holds(s.jobs[s.locks[p]].stage))
    && (forall id | id in s.jobs && Holds(s.jobs[id].stage) ::
          s.jobs[id].path in s.locks && s.locks[s.jobs[id].path] == id)
  }

  lemma TimersDoNotLock(s: Sched, act: Act)
    requires act.Schedule? || act.FlushOne? || act.Goto? || act.Cancel? || act.Idle?
    requires ActOk(s, act)
    ensures Do(s, act).locks == s.locks && Do(s, act).jobs == s.jobs
  {
  }

  lemma NewJobKeepsLocks(s: Sched, id: TimerId, job: Job)
    requires LocksGood(s) && id !in s.jobs && !Holds(job.stage)
    ensures LocksGood(s.(jobs := s.jobs[id := job]))
  {
  }

  lemma NewJob(s: Sched, act: Act, id: TimerId, job: Job)
    requires CountersGood(s) && LocksGood(s) && ActOk(s, act)
    requires (act == Fire(id) && job == Job(s.armed[id], false, Fired))
          || (id == s.nextId && job.scan && act == Scan(job.path) && job.stage == Waiting)
    ensures LocksGood(Do(s, act))
  {
    hide LocksGood;
    NewJobKeepsLocks(s, id, job);
    SameLocks(s.(jobs := s.jobs[id := job]), Do(s, act));
  }

  lemma QuietJobKeepsLocks(s: Sched, act: Act)
    requires LocksGood(s) && ActOk(s, act)
    requires act.Done? || act.Unlist? || act.Reset?
    ensures LocksGood(Do(s, act))
  {
  }

  lemma JobKeepsLocks(s: Sched, act: Act)
    requires LocksGood(s) && ActOk(s, act)
    requires act.Lock? || act.Advance? || act.Unlock?
    ensures LocksGood(Do(s, act))
  {
  }

  lemma SameLocks(s: Sched, t: Sched)
    requires LocksGood(s) && s.locks == t.locks && s.jobs == t.jobs
    ensures LocksGood(t)
  {
  }

  /** A path's mutex is held by exactly the job that is between Lock and Unlock for it. */
  lemma ActKeepsLocks(s: Sched, act: Act)
    requires CountersGood(s) && LocksGood(s) && ActOk(s, act)
    ensures LocksGood(Do(s, act))
  {
    hide LocksGood, CountersGood, Do;
    match act {
      case Lock(_) | Advance(_, _) | Unlock(_) => JobKeepsLocks(s, act);
      case Done(_) | Unlist(_) | Reset => QuietJobKeepsLocks(s, act);
      case Fire(id) =>
        NewJob(s, act, id, Job(s.armed[id], false, Fired));
      case Scan(p) =>
        NewJob(s, act, s.nextId, Job(p, true, Waiting));
      case Schedule(_) | FlushOne | Goto(_) | Cancel(_) | Idle =>
        TimersDoNotLock(s, act);
        SameLocks(s, Do(s, act));
    }
  }

  // ----- Waiting for a Parse -----

  predicate BeforeParse(stage: Stage) {
    stage.Fired? || stage.Waiting? || stage.Locked?
  }

  ghost predicate Waits(s: Sched, p: Path, id: TimerId) {
    || (id in s.armed && s.armed[id] == p)
    || (id in s.jobs && s.jobs[id].path == p && BeforeParse(s.jobs[id].stage))
  }

  /** Some armed timer, or some job that has not begun its Parse, will look at the path. */
  ghost predicate Awaited(s: Sched, p: Path) {
    exists id :: Waits(s, p, id)
  }

  /** A waiting timer or job stays one until it parses, is replaced by a new timer for its path, or is
      flushed at shutdown. */
  lemma StillAwaited(s: Sched, act: Act, p: Path)
    requires CountersGood(s) && ActOk(s, act) && Awaited(s, p)
    requires !act.FlushOne? && !act.Reset?
    requires act.Advance? ==> s.jobs[act.id].path != p || !BeforeParse(s.jobs[act.id].stage)
    ensures Awaited(Do(s, act), p)
  {
    if act == Schedule(p) {
      ScheduledIsAwaited(s, p);
    } else {
      var id :| Waits(s, p, id);
      StillWaits(s, act, p, id);
    }
  }

  lemma ScheduledIsAwaited(s: Sched, p: Path)
    requires ActOk(s, Schedule(p))
    ensures Awaited(Do(s, Schedule(p)), p)
  {
    assert Waits(Do(s, Schedule(p)), p, s.nextId);
  }

  lemma StillWaits(s: Sched, act: Act, p: Path, id: TimerId)
    requires CountersGood(s) && ActOk(s, act) && Waits(s, p, id)
    requires act != Schedule(p) && !act.FlushOne? && !act.Reset?
    requires act.Advance? ==> s.jobs[act.id].path != p || !BeforeParse(s.jobs[act.id].stage)
    ensures Waits(Do(s, act), p, id)
  {
    if act.Schedule? {
      OtherTimersStay(s, act.path, p, id);
    }
  }

  lemma OtherTimersStay(s: Sched, q: Path, p: Path, id: TimerId)
    requires CountersGood(s) && ActOk(s, Schedule(q)) && Waits(s, p, id) && p != q
    ensures Waits(Do(s, Schedule(q)), p, id)
  {
    assert q in s.pending && s.pending[q] in s.armed ==> s.armed[s.pending[q]] == q;
  }
}
