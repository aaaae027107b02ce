/** The capture daemon as a state machine: the scheduler together with the files, the store and the
    offsets, in every interleaving of appends, events, timers, parse-and-commit jobs, failures,
    shutdown, crash and restart. */
module CaptureProtocol {
  import opened Engrams
  import opened Chunking
  import opened JsonlParser
  import opened CapturePath
  import opened CaptureScheduler

  /** `disk` is state.json, `memory` the State object's map. The fields after `dirty` are history:
      see CapturePath.PathView; `notified` is the file length at the last event for a path. */
  datatype Ledger = Ledger(
    files: map<Path, Bytes>, sink: map<Path, seq<Record>>,
    disk: map<Path, nat>, memory: map<Path, nat>, dirty: bool,
    notified: map<Path, nat>, seen: map<Path, nat>, failed: set<Path>,
    batches: map<Path, seq<(nat, nat)>>, base: map<Path, nat>, surplus: map<Path, nat>)

  datatype State = State(sched: Sched, ledger: Ledger)

  datatype Step =
    | Append(path: Path, bytes: Bytes)
    | Event(path: Path)
    | Fire(id: TimerId)
    | Unlist(id: TimerId)
    | Lock(id: TimerId)
    | ParseOk(id: TimerId)
    | ParseFail(id: TimerId)
    | InsertOk(id: TimerId)
    | InsertFail(id: TimerId)
    | SetOffset(id: TimerId)
    | Save(id: TimerId, ok: bool)
    | Unlock(id: TimerId)
    | Done(id: TimerId)
    | ScanStart(path: Path)
    | EnterLoop
    | Cancel(timers: seq<TimerId>)
    | FlushStop
    | FlushSave(ok: bool)
    | ChannelClosed
    | Return
    | CloseStore
    | Stop        // a crash at any point, or the end of the process
    | Restart

  /** A Go map of offsets: 0 when the key is unknown. */
  function At(m: map<Path, nat>, p: Path): nat {
    if p in m then m[p] else 0
  }

  function Of<T>(m: map<Path, seq<T>>, p: Path): seq<T> {
    if p in m then m[p] else []
  }

  function Init(): State {
    State(Sched(map[], map[], map[], map[], 0, 0, Scanning),
          Ledger(map[], map[], map[], map[], false, map[], map[], {}, map[], map[], map[]))
  }

  function HolderOf(s: Sched, p: Path): Option<Stage> {
    if p in s.locks && s.locks[p] in s.jobs then Some(s.jobs[s.locks[p]].stage) else None
  }

  function ViewOf(l: Ledger, holder: Option<Stage>, p: Path): PathView {
    PathView(Of(l.files, p), Of(l.sink, p), At(l.disk, p), At(l.memory, p), l.dirty, holder,
             At(l.seen, p), p in l.failed, Of(l.batches, p), At(l.base, p), At(l.surplus, p))
  }

  // ----- Effects on the ledger -----

  datatype Entry =
    | Nothing
    | Grown(path: Path, bytes: Bytes)
    | Notified(path: Path)
    | Read(path: Path, ok: bool)
    | Committed(path: Path, from: nat, records: seq<Record>, next: nat)
    | Rejected(path: Path)
    | Assigned(path: Path, next: nat)
    | Flushed                                    // State.Save succeeded
    | Forgotten(left: Path -> nat)               // only the disk and the store survive

  function Post(l: Ledger, e: Entry): Ledger {
    match e
    case Nothing => l
    case Grown(p, bytes) => l.(files := l.files[p := Of(l.files, p) + bytes])
    case Notified(p) => l.(notified := l.notified[p := |Of(l.files, p)|])
    case Read(p, ok) =>
      l.(seen := l.seen[p := |Of(l.files, p)|], failed := if ok then l.failed else l.failed + {p})
    case Committed(p, from, records, next) =>
      l.(sink := l.sink[p := Of(l.sink, p) + records], failed := l.failed - {p},
         batches := l.batches[p := Of(l.batches, p) + [(from, next)]])
    case Rejected(p) => l.(failed := l.failed + {p})
    case Assigned(p, next) => l.(memory := l.memory[p := next], dirty := true)
    case Flushed => if l.dirty then l.(disk := l.memory, dirty := false) else l
    case Forgotten(left) =>
      l.(memory := l.disk, dirty := false, notified := map[], seen := map[], failed := {}, batches := map[],
         base := l.disk, surplus := map p | p in l.files.Keys + l.surplus.Keys :: At(l.surplus, p) + left(p))
  }

  // ----- Steps -----

  ghost predicate Guard(s: State, step: Step) {
    var (sc, l) := (s.sched, s.ledger);
    match step
    case ParseOk(id) =>
      && id in sc.jobs && sc.jobs[id].stage == Locked
      && sc.jobs[id].path in l.files
      && |l.files[sc.jobs[id].path]| - At(l.memory, sc.jobs[id].path) <= JSONL_MAX_FILE_BYTES
    case ParseFail(id) => id in sc.jobs && sc.jobs[id].stage == Locked
    case InsertOk(id) => id in sc.jobs && sc.jobs[id].stage.Parsed?
    case InsertFail(id) => id in sc.jobs && sc.jobs[id].stage.Parsed? && sc.jobs[id].stage.records != []
    case SetOffset(id) => id in sc.jobs && sc.jobs[id].stage.Inserted?
    case Save(id, _) => id in sc.jobs && sc.jobs[id].stage == Recorded
    case ScanStart(p) => p in l.files
    case _ => true
  }

  ghost function ActOf(c: Path -> Tailer, s: State, step: Step): Act
    requires Guard(s, step)
  {
    var (sc, l) := (s.sched, s.ledger);
    match step
    case Append(_, _) => Idle
    case Event(p) => Schedule(p)
    case Fire(id) => Act.Fire(id)
    case Unlist(id) => Act.Unlist(id)
    case Lock(id) => Act.Lock(id)
    case ParseOk(id) =>
      var p := sc.jobs[id].path;
      var (records, next) := ParseOutcome(c(p), l.files[p], At(l.memory, p));
      Advance(id, Parsed(At(l.memory, p), records, next))
    case ParseFail(id) => Advance(id, Releasing)
    case InsertOk(id) => Advance(id, Inserted(sc.jobs[id].stage.next))
    case InsertFail(id) => Advance(id, Releasing)
    case SetOffset(id) =>
      Advance(id, if sc.jobs[id].stage.next == At(l.memory, sc.jobs[id].path) then Releasing else Recorded)
    case Save(id, _) => Advance(id, Releasing)
    case Unlock(id) => Act.Unlock(id)
    case Done(id) => Act.Done(id)
    case ScanStart(p) => Scan(p)
    case EnterLoop => Goto(Looping)
    case Cancel(timers) => Act.Cancel(timers)
    case FlushStop => FlushOne
    case FlushSave(_) => Goto(Draining(true))
    case ChannelClosed => Goto(Draining(false))
    case Return => Goto(Returned)
    case CloseStore => Goto(Closed)
    case Stop => Reset
    case Restart => Goto(Scanning)
  }

  ghost function EntryOf(c: Path -> Tailer, s: State, step: Step): Entry
    requires Guard(s, step)
  {
    var (sc, l) := (s.sched, s.ledger);
    match step
    case Append(p, bytes) => Grown(p, bytes)
    case Event(p) => Notified(p)
    case ParseOk(id) => Read(sc.jobs[id].path, true)
    case ParseFail(id) => Read(sc.jobs[id].path, false)
    case InsertOk(id) =>
      var Parsed(from, records, next) := sc.jobs[id].stage;
      Committed(sc.jobs[id].path, from, records, next)
    case InsertFail(id) => Rejected(sc.jobs[id].path)
    case SetOffset(id) =>
      var (p, next) := (sc.jobs[id].path, sc.jobs[id].stage.next);
      if next == At(l.memory, p) then Nothing else Assigned(p, next)
    case Save(_, ok) => if ok then Flushed else Nothing
    case FlushSave(ok) => if ok then Flushed else Nothing
    case Stop => Forgotten((p: Path) => |Unsaved(c(p), ViewOf(l, HolderOf(sc, p), p))|)
    case _ => Nothing
  }

  ghost predicate Enabled(c: Path -> Tailer, s: State, step: Step) {
    Guard(s, step) && ActOk(s.sched, ActOf(c, s, step))
  }

  ghost function Apply(c: Path -> Tailer, s: State, step: Step): State
    requires Enabled(c, s, step)
  {
    State(Do(s.sched, ActOf(c, s, step)), Post(s.ledger, EntryOf(c, s, step)))
  }

  /** The state after a sequence of steps, if each of them can be taken. */
  ghost function Run(c: Path -> Tailer, steps: seq<Step>): Option<State> {
    if steps == [] then Some(Init())
    else
      match Run(c, steps[..|steps| - 1])
      case None => None
      case Some(s) =>
        var last := steps[|steps| - 1];
        if Enabled(c, s, last) then Some(Apply(c, s, last)) else None
  }
}
