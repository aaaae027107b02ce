/** What every run of the capture daemon keeps, and what follows from it. */
module CaptureSafety {
  import opened Engrams
  import opened Chunking
  import opened JsonlParser
  import opened CapturePath
  import opened CaptureScheduler
  import opened CaptureProtocol

  ghost function PathOf(s: State, p: Path): PathView {
    ViewOf(s.ledger, HolderOf(s.sched, p), p)
  }

  // ----- The protocol projected to one path -----

  /** What a step does to one path. */
  ghost function MoveOf(c: Path -> Tailer, s: State, step: Step, p: Path): Move
    requires Guard(s, step)
  {
    match EntryOf(c, s, step)
    case Grown(q, bytes) => if q == p then Grow(bytes) else Keep
    case Read(q, ok) => if q != p then Keep else if ok then ParseGood else ParseBad
    case Committed(q, _, _, _) => if q == p then InsertGood else Keep
    case Rejected(q) => if q == p then InsertBad else Keep
    case Assigned(q, _) => if q == p then Move.SetOffset else Soil
    case Forgotten(_) => Crash
    case Flushed =>
      if step.Save? && s.sched.jobs[step.id].path == p then OwnSave(true) else Persist
    case Notified(_) => Keep
    case Nothing =>
      match step
      case Lock(id) => if id in s.sched.jobs && s.sched.jobs[id].path == p then Acquire else Keep
      case Unlock(id) => if id in s.sched.jobs && s.sched.jobs[id].path == p then Release else Keep
      case SetOffset(id) => if s.sched.jobs[id].path == p then Move.SetOffset else Keep
      case Save(id, _) => if s.sched.jobs[id].path == p then OwnSave(false) else Keep
      case _ => Keep
  }

  /** How the holder of a path's mutex changes. */
  ghost function HolderAfter(s: Sched, act: Act, p: Path): Option<Stage>
    requires ActOk(s, act)
  {
    match act
    case Lock(id) => if s.jobs[id].path == p then Some(Locked) else HolderOf(s, p)
    case Advance(id, stage) => if s.jobs[id].path == p then Some(stage) else HolderOf(s, p)
    case Unlock(id) => if s.jobs[id].path == p then None else HolderOf(s, p)
    case Reset => None
    case _ => HolderOf(s, p)
  }

  lemma NewJobHoldsNothing(s: Sched, act: Act, p: Path)
    requires LocksGood(s) && CountersGood(s) && ActOk(s, act)
    requires act.Fire? || act.Scan?
    ensures HolderOf(Do(s, act), p) == HolderOf(s, p)
  {
  }

  lemma QuietJobHoldsNothing(s: Sched, act: Act, p: Path)
    requires LocksGood(s) && ActOk(s, act)
    requires act.Done? || act.Unlist?
    ensures HolderOf(Do(s, act), p) == HolderOf(s, p)
  {
  }

  lemma LockChangesHolder(s: Sched, act: Act, p: Path)
    requires LocksGood(s) && ActOk(s, act)
    requires act.Lock? || act.Advance? || act.Unlock? || act.Reset?
    ensures HolderOf(Do(s, act), p) == HolderAfter(s, act, p)
  {
  }

  lemma HolderChanges(s: Sched, act: Act, p: Path)
    requires LocksGood(s) && CountersGood(s) && ActOk(s, act)
    ensures HolderOf(Do(s, act), p) == HolderAfter(s, act, p)
  {
    hide LocksGood, CountersGood, Do;
    match act {
      case Schedule(_) | FlushOne | Goto(_) | Cancel(_) | Idle => TimersDoNotLock(s, act);
      case Lock(_) | Unlock(_) | Advance(_, _) | Reset => LockChangesHolder(s, act, p);
      case Fire(_) | Scan(_) => NewJobHoldsNothing(s, act, p);
      case Done(_) | Unlist(_) => QuietJobHoldsNothing(s, act, p);
    }
  }

  lemma UnsavedInNothing(c: Tailer, v: PathView)
    requires v.file == []
    ensures Unsaved(c, v) == []
  {
  }

  /** What an entry in the ledger changes for one path. */
  ghost function Posted(v: PathView, e: Entry, p: Path): PathView {
    match e
    case Grown(q, bytes) => if q == p then v.(file := v.file + bytes) else v
    case Read(q, ok) => if q == p then v.(seen := |v.file|, failed := v.failed || !ok) else v
    case Committed(q, from, records, next) =>
      if q == p then v.(sink := v.sink + records, failed := false, batches := v.batches + [(from, next)]) else v
    case Rejected(q) => if q == p then v.(failed := true) else v
    case Assigned(q, next) => if q == p then v.(memory := next, dirty := true) else v.(dirty := true)
    case Flushed => v.(disk := v.memory, dirty := false)
    case _ => v
  }

  lemma CaptureView(l: Ledger, e: Entry, h: Option<Stage>, p: Path)
    requires e.Grown? || e.Read? || e.Rejected?
    ensures ViewOf(Post(l, e), h, p) == Posted(ViewOf(l, h, p), e, p)
  {
  }

  lemma CommitView(l: Ledger, e: Entry, h: Option<Stage>, p: Path)
    requires e.Committed?
    ensures ViewOf(Post(l, e), h, p) == Posted(ViewOf(l, h, p), e, p)
  {
  }

  lemma OffsetView(l: Ledger, e: Entry, h: Option<Stage>, p: Path)
    requires e.Assigned? || e.Flushed? || e.Nothing? || e.Notified?
    requires !l.dirty ==> At(l.disk, p) == At(l.memory, p)
    ensures ViewOf(Post(l, e), h, p) == Posted(ViewOf(l, h, p), e, p)
  {
  }

  lemma PostedView(l: Ledger, e: Entry, h: Option<Stage>, p: Path)
    requires !e.Forgotten?
    requires !l.dirty ==> At(l.disk, p) == At(l.memory, p)
    ensures ViewOf(Post(l, e), h, p) == Posted(ViewOf(l, h, p), e, p)
  {
    hide Post, ViewOf, Posted;
    match e {
      case Grown(_, _) | Read(_, _) | Rejected(_) => CaptureView(l, e, h, p);
      case Committed(_, _, _, _) => CommitView(l, e, h, p);
      case Assigned(_, _) | Flushed | Nothing | Notified(_) => OffsetView(l, e, h, p);
    }
  }

  lemma ForgottenView(l: Ledger, left: Path -> nat, h: Option<Stage>, p: Path)
    requires p !in l.files ==> left(p) == 0
    ensures ViewOf(Post(l, Forgotten(left)), None, p) ==
      var v := ViewOf(l, h, p);
      v.(holder := None, memory := v.disk, dirty := false, seen := 0, failed := false, batches := [],
         base := v.disk, surplus := v.surplus + left(p))
  {
  }

  lemma OnlyStopForgets(c: Path -> Tailer, s: State, step: Step)
    requires Guard(s, step)
    ensures EntryOf(c, s, step).Forgotten? <==> step.Stop?
  {
    hide ParseOutcome, ViewOf, HolderOf, Unsaved;
  }

  /** The entry and the new holder of a step amount to a move of the path. */
  ghost predicate Matches(c: Path -> Tailer, s: State, step: Step, p: Path)
    requires Guard(s, step) && ActOk(s.sched, ActOf(c, s, step))
  {
    && MoveOk(c(p), PathOf(s, p), MoveOf(c, s, step, p))
    && Posted(PathOf(s, p), EntryOf(c, s, step), p).(holder := HolderAfter(s.sched, ActOf(c, s, step), p))
       == Moved(c(p), PathOf(s, p), MoveOf(c, s, step, p))
  }

  lemma ParseMatches(c: Path -> Tailer, s: State, step: Step, p: Path)
    requires Guard(s, step) && ActOk(s.sched, ActOf(c, s, step))
    requires step.ParseOk? || step.ParseFail?
    requires HolderOf(s.sched, s.sched.jobs[step.id].path) == Some(s.sched.jobs[step.id].stage)
    ensures Matches(c, s, step, p)
  {
    hide ViewOf, HolderOf, ParseOutcome, ActOk;
    ViewFields(s.ledger, HolderOf(s.sched, p), p);
  }

  lemma InsertMatches(c: Path -> Tailer, s: State, step: Step, p: Path)
    requires Guard(s, step) && ActOk(s.sched, ActOf(c, s, step))
    requires step.InsertOk? || step.InsertFail?
    requires HolderOf(s.sched, s.sched.jobs[step.id].path) == Some(s.sched.jobs[step.id].stage)
    ensures Matches(c, s, step, p)
  {
    hide ViewOf, HolderOf, ParseOutcome, ActOk;
    ViewFields(s.ledger, HolderOf(s.sched, p), p);
  }

  lemma SetMatches(c: Path -> Tailer, s: State, step: Step, p: Path)
    requires Guard(s, step) && ActOk(s.sched, ActOf(c, s, step))
    requires step.SetOffset?
    requires HolderOf(s.sched, s.sched.jobs[step.id].path) == Some(s.sched.jobs[step.id].stage)
    ensures Matches(c, s, step, p)
  {
    hide ViewOf, HolderOf, ParseOutcome, ActOk;
    ViewFields(s.ledger, HolderOf(s.sched, p), p);
  }

  lemma SaveMatches(c: Path -> Tailer, s: State, step: Step, p: Path)
    requires Guard(s, step) && ActOk(s.sched, ActOf(c, s, step))
    requires step.Save?
    requires HolderOf(s.sched, s.sched.jobs[step.id].path) == Some(s.sched.jobs[step.id].stage)
    ensures Matches(c, s, step, p)
  {
    hide ViewOf, HolderOf, ParseOutcome, ActOk;
    ViewFields(s.ledger, HolderOf(s.sched, p), p);
  }

  lemma UnlockMatches(c: Path -> Tailer, s: State, step: Step, p: Path)
    requires Guard(s, step) && ActOk(s.sched, ActOf(c, s, step))
    requires step.Unlock?
    requires HolderOf(s.sched, s.sched.jobs[step.id].path) == Some(s.sched.jobs[step.id].stage)
    ensures Matches(c, s, step, p)
  {
    hide ViewOf, HolderOf, ParseOutcome;
    ViewFields(s.ledger, HolderOf(s.sched, p), p);
  }

  lemma LockMatches(c: Path -> Tailer, s: State, step: Step, p: Path)
    requires Guard(s, step) && ActOk(s.sched, ActOf(c, s, step))
    requires step.Lock?
    requires HolderOf(s.sched, s.sched.jobs[step.id].path) == None
    ensures Matches(c, s, step, p)
  {
    hide ViewOf, HolderOf, ParseOutcome;
    ViewFields(s.ledger, HolderOf(s.sched, p), p);
  }

  lemma OutsideMatches(c: Path -> Tailer, s: State, step: Step, p: Path)
    requires Guard(s, step) && ActOk(s.sched, ActOf(c, s, step))
    requires !NeedsMutex(step) && !step.Lock? && !step.Stop?
    ensures Matches(c, s, step, p)
  {
    hide ViewOf, HolderOf, ParseOutcome, ActOk;
    ViewFields(s.ledger, HolderOf(s.sched, p), p);
  }

  predicate NeedsMutex(step: Step) {
    step.ParseOk? || step.ParseFail? || step.InsertOk? || step.InsertFail? || step.SetOffset? || step.Save? || step.Unlock?
  }

  lemma StepMatches(c: Path -> Tailer, s: State, step: Step, p: Path)
    requires Enabled(c, s, step) && LocksGood(s.sched) && !step.Stop?
    ensures Matches(c, s, step, p)
  {
    hide Matches, Guard, ActOk, ActOf, LocksGood, HolderOf;
    StepHolder(c, s, step);
    match step {
      case ParseOk(_) | ParseFail(_) => ParseMatches(c, s, step, p);
      case InsertOk(_) | InsertFail(_) => InsertMatches(c, s, step, p);
      case SetOffset(_) => SetMatches(c, s, step, p);
      case Save(_, _) => SaveMatches(c, s, step, p);
      case Unlock(_) => UnlockMatches(c, s, step, p);
      case Lock(_) => LockMatches(c, s, step, p);
      case _ => OutsideMatches(c, s, step, p);
    }
  }

  lemma StopIsMove(c: Path -> Tailer, s: State, step: Step, p: Path)
    requires Enabled(c, s, step) && step.Stop?
    ensures MoveOk(c(p), PathOf(s, p), MoveOf(c, s, step, p))
    ensures PathOf(Apply(c, s, step), p) == Moved(c(p), PathOf(s, p), MoveOf(c, s, step, p))
  {
    hide Post, ViewOf, ParseOutcome, Unsaved;
    var e := EntryOf(c, s, step);
    ViewFields(s.ledger, HolderOf(s.sched, p), p);
    if p !in s.ledger.files {
      UnsavedInNothing(c(p), PathOf(s, p));
    }
    ForgottenView(s.ledger, e.left, HolderOf(s.sched, p), p);
  }

  /** Every step moves every path as that path's own automaton allows. */
  lemma StepIsMove(c: Path -> Tailer, s: State, step: Step, p: Path)
    requires Enabled(c, s, step) && LocksGood(s.sched) && CountersGood(s.sched)
    requires !s.ledger.dirty ==> At(s.ledger.disk, p) == At(s.ledger.memory, p)
    ensures MoveOk(c(p), PathOf(s, p), MoveOf(c, s, step, p))
    ensures PathOf(Apply(c, s, step), p) == Moved(c(p), PathOf(s, p), MoveOf(c, s, step, p))
  {
    hide LocksGood, CountersGood, Do, Post, ViewOf, HolderOf, MoveOf, EntryOf, ActOf, Guard, ActOk, MoveOk, Moved, Posted,
         HolderAfter;
    if step.Stop? {
      StopIsMove(c, s, step, p);
    } else {
      var act, e := ActOf(c, s, step), EntryOf(c, s, step);
      HolderChanges(s.sched, act, p);
      OnlyStopForgets(c, s, step);
      PostedView(s.ledger, e, HolderAfter(s.sched, act, p), p);
      PostedHolder(s.ledger, e, HolderOf(s.sched, p), HolderAfter(s.sched, act, p), p);
      StepMatches(c, s, step, p);
    }
  }

  lemma PostedHolder(l: Ledger, e: Entry, h: Option<Stage>, h1: Option<Stage>, p: Path)
    ensures Posted(ViewOf(l, h1, p), e, p) == Posted(ViewOf(l, h, p), e, p).(holder := h1)
  {
    hide ViewOf;
    ViewHolder(l, h, h1, p);
  }

  lemma StepHolder(c: Path -> Tailer, s: State, step: Step)
    requires Enabled(c, s, step) && LocksGood(s.sched)
    ensures step.ParseOk? || step.ParseFail? || step.InsertOk? || step.InsertFail? || step.SetOffset? || step.Save?
         || step.Unlock?
        ==> HolderOf(s.sched, s.sched.jobs[step.id].path) == Some(s.sched.jobs[step.id].stage)
    ensures step.Lock? ==> HolderOf(s.sched, s.sched.jobs[step.id].path) == None
  {
    hide Do, Post, ParseOutcome;
  }

  lemma ViewFields(l: Ledger, h: Option<Stage>, p: Path)
    ensures var v := ViewOf(l, h, p);
            v.file == Of(l.files, p) && v.memory == At(l.memory, p) && v.holder == h && (p !in l.files ==> v.file == [])
  {
  }

  lemma ViewHolder(l: Ledger, h: Option<Stage>, h1: Option<Stage>, p: Path)
    ensures ViewOf(l, h1, p) == ViewOf(l, h, p).(holder := h1)
  {
  }
}
