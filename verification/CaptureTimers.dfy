/** When the watcher's map of timers tells the truth: which armed timers it lists, and which ones shutdown
    therefore cannot stop. */
module CaptureTimers {
  import opened Engrams
  import opened Chunking
  import opened JsonlParser
  import opened CaptureScheduler
  import opened CaptureProtocol
  import opened CaptureTheorems

  /** The map has the timer as that of the path it was armed for. */
  ghost predicate Listed(s: Sched, id: TimerId)
    requires id in s.armed
  {
    s.armed[id] in s.pending && s.pending[s.armed[id]] == id
  }

  /** A callback of the path deletes the path's entry. */
  ghost predicate Unlists(s: State, step: Step, p: Path) {
    step.Unlist? && step.id in s.sched.jobs && s.sched.jobs[step.id].path == p
  }

  /** Since the timer was armed, some callback of its path has deleted the path's entry. */
  ghost predicate UnlistedSince(c: Path -> Tailer, steps: seq<Step>, id: TimerId)
    requires Run(c, steps).Some? && id in Run(c, steps).value.sched.armed
  {
    if steps == [] then false
    else
      var front := steps[..|steps| - 1];
      var before := Run(c, front).value;
      && id in before.sched.armed
      && (UnlistedSince(c, front, id) || Unlists(before, steps[|steps| - 1], before.sched.armed[id]))
  }

  /** Since the timer was armed, flushAll has taken the map. */
  ghost predicate TakenSince(c: Path -> Tailer, steps: seq<Step>, id: TimerId)
    requires Run(c, steps).Some? && id in Run(c, steps).value.sched.armed
  {
    if steps == [] then false
    else
      var front := steps[..|steps| - 1];
      && id in Run(c, front).value.sched.armed
      && (TakenSince(c, front, id) || steps[|steps| - 1].Cancel?)
  }

  /** What one act does to an armed timer's entry. */
  lemma ActOnListed(s: Sched, act: Act, id: TimerId)
    requires CountersGood(s) && ActOk(s, act) && id in Do(s, act).armed
    ensures if id in s.armed then
              && Do(s, act).armed[id] == s.armed[id]
              && (Listed(Do(s, act), id)
                  <==> Listed(s, id) && !act.Cancel? && !(act.Unlist? && s.jobs[act.id].path == s.armed[id]))
            else Listed(Do(s, act), id)
    ensures act.Unlist? ==> act.id in s.jobs
  {
    if act.Schedule? {
      StopKeepsPending(s, if act.path in s.pending then s.pending[act.path] else 0);
    }
  }

  lemma ActOfTimers(c: Path -> Tailer, s: State, step: Step)
    requires Guard(s, step)
    ensures ActOf(c, s, step).Cancel? <==> step.Cancel?
    ensures ActOf(c, s, step).Unlist? <==> step.Unlist?
    ensures step.Unlist? ==> ActOf(c, s, step).id == step.id
  {
    hide ParseOutcome;
  }

  /** In every run, an armed timer is in the map if and only if since it was armed no callback of its path has
      deleted the path's entry and flushAll has not taken the map. */
  lemma {:induction false} ListedIff(c: Path -> Tailer, steps: seq<Step>, id: TimerId)
    requires Run(c, steps).Some? && id in Run(c, steps).value.sched.armed
    ensures Listed(Run(c, steps).value.sched, id)
       <==> !UnlistedSince(c, steps, id) && !TakenSince(c, steps, id)
  {
    hide CountersGood, LocksGood, PathsGood, WakeupsGood, ActOk, ActOf, EntryOf, Post, Do, Guard, Listed, Init;
    if steps == [] {
      NothingArmed();
    } else {
      var front, last := steps[..|steps| - 1], steps[|steps| - 1];
      var s := Run(c, front).value;
      RunIsSafe(c, front);
      ActOfTimers(c, s, last);
      ActOnListed(s.sched, ActOf(c, s, last), id);
      if id in s.sched.armed {
        ListedIff(c, front, id);
      }
    }
  }

  lemma NothingArmed()
    ensures Init().sched.armed == map[]
  {
  }

  // ----- What flushAll leaves armed -----

  lemma OnlyBeforeFlush(s: Sched, act: Act)
    requires ActOk(s, act) && !act.Reset? && Live(Do(s, act).phase)
    ensures s.phase == Down || Live(s.phase)
    ensures !act.Cancel?
  {
    PhaseComesFrom(s, act);
  }

  /** Before flushAll the map has not been taken since a timer was armed, so being unlisted is all that counts. */
  lemma {:induction false} NotTakenBeforeFlush(c: Path -> Tailer, steps: seq<Step>, id: TimerId)
    requires Run(c, steps).Some? && id in Run(c, steps).value.sched.armed && Live(Run(c, steps).value.sched.phase)
    ensures !TakenSince(c, steps, id)
  {
    hide LocksGood, PathsGood, WakeupsGood, ActOk, ActOf, EntryOf, Post, Do, Guard, Init;
    if steps != [] {
      var front, last := steps[..|steps| - 1], steps[|steps| - 1];
      var s := Run(c, front).value;
      RunIsSafe(c, front);
      ActOfTimers(c, s, last);
      OnlyStopResets(c, s, last);
      if id in s.sched.armed && TakenSince(c, steps, id) {
        ResetDisarms(s.sched, ActOf(c, s, last));
        OnlyBeforeFlush(s.sched, ActOf(c, s, last));
        NotTakenBeforeFlush(c, front, id);
      }
    }
  }

  lemma ResetDisarms(s: Sched, act: Act)
    requires ActOk(s, act)
    ensures act.Reset? ==> Do(s, act).armed == map[]
  {
  }

  /** After flushAll has taken the timers of s0: no other timer is armed than was then, none that has fired, and
      of those listed then only those still to be stopped; and those not listed stay armed until they fire. */
  ghost predicate Flushed(s0: Sched, fired: set<TimerId>, t: Sched) {
    && (t.phase.Flushing? || t.phase == Draining(true) || t.phase in {Returned, Closed})
    && (t.phase.Flushing? ==> forall id | id in t.phase.rest :: id in s0.pending.Values)
    && (forall id | id in t.armed ::
          id in s0.armed && id !in fired && (Listed(s0, id) ==> t.phase.Flushing? && id in t.phase.rest))
    && (forall id | id in s0.armed && !Listed(s0, id) && id !in fired :: id in t.armed)
  }

  lemma FlushStarts(s0: Sched, timers: seq<TimerId>)
    requires ActOk(s0, Act.Cancel(timers))
    ensures Flushed(s0, {}, Do(s0, Act.Cancel(timers)))
  {
  }

  lemma FlushGoesOn(s0: Sched, fired: set<TimerId>, t: Sched, act: Act)
    requires CountersGood(s0) && Flushed(s0, fired, t) && ActOk(t, act) && !act.Reset?
    ensures Flushed(s0, if act.Fire? then fired + {act.id} else fired, Do(t, act))
  {
    if act.FlushOne? {
      var x := t.phase.rest[0];
      if x in s0.armed {
        ListedByItsPath(s0, x);
      }
    }
  }

  lemma ListedByItsPath(s0: Sched, id: TimerId)
    requires CountersGood(s0) && id in s0.armed && id in s0.pending.Values
    ensures Listed(s0, id)
  {
    var p :| p in s0.pending && s0.pending[p] == id;
  }

  ghost function FiredIn(steps: seq<Step>): set<TimerId> {
    set i | 0 <= i < |steps| && steps[i].Fire? :: steps[i].id
  }

  lemma {:induction false} FlushKeepsOn(c: Path -> Tailer, before: seq<Step>, timers: seq<TimerId>, more: seq<Step>)
    requires Run(c, before).Some? && Run(c, before + [Step.Cancel(timers)] + more).Some?
    requires forall step | step in more :: !step.Stop?
    ensures Flushed(Run(c, before).value.sched, FiredIn(more), Run(c, before + [Step.Cancel(timers)] + more).value.sched)
  {
    hide LocksGood, PathsGood, WakeupsGood, ActOk, ActOf, EntryOf, Post, Do, Guard, Flushed, CountersGood, FiredIn;
    var steps := before + [Step.Cancel(timers)] + more;
    var s0 := Run(c, before).value;
    RunIsSafe(c, before);
    if more == [] {
      assert steps[..|steps| - 1] == before;
      TakeIsCancel(c, s0, timers);
      FlushStarts(s0.sched, timers);
      NoneFired();
    } else {
      var front, last := more[..|more| - 1], more[|more| - 1];
      assert steps[..|steps| - 1] == before + [Step.Cancel(timers)] + front;
      FlushKeepsOn(c, before, timers, front);
      var s := Run(c, steps[..|steps| - 1]).value;
      assert last in more;
      OnlyStopResets(c, s, last);
      FireIsFire(c, s, last);
      FlushGoesOn(s0.sched, FiredIn(front), s.sched, ActOf(c, s, last));
      FiredSnoc(front, last);
      assert more == front + [last];
    }
  }

  lemma TakeIsCancel(c: Path -> Tailer, s: State, timers: seq<TimerId>)
    ensures ActOf(c, s, Step.Cancel(timers)) == Act.Cancel(timers)
  {
  }

  lemma FireIsFire(c: Path -> Tailer, s: State, step: Step)
    requires Guard(s, step)
    ensures ActOf(c, s, step).Fire? <==> step.Fire?
    ensures step.Fire? ==> ActOf(c, s, step).id == step.id
  {
    hide ParseOutcome;
  }

  lemma NoneFired()
    ensures FiredIn([]) == {}
  {
  }

  lemma FiredSnoc(steps: seq<Step>, last: Step)
    ensures FiredIn(steps + [last]) == if last.Fire? then FiredIn(steps) + {last.id} else FiredIn(steps)
  {
    var all := steps + [last];
    assert all[|steps|] == last;
    forall id | id in FiredIn(steps) ensures id in FiredIn(all) {
      var i :| 0 <= i < |steps| && steps[i].Fire? && steps[i].id == id;
      assert all[i] == steps[i];
    }
  }

  /** When flushAll is through, the timers still armed are exactly those that were armed when it began, whose
      path's entry some callback had deleted since, and that have not fired meanwhile. */
  lemma FlushLeavesTheUnlisted(c: Path -> Tailer, before: seq<Step>, timers: seq<TimerId>, more: seq<Step>, t: State,
                               id: TimerId)
    requires Run(c, before).Some? && Run(c, before + [Step.Cancel(timers)] + more) == Some(t)
    requires (forall step | step in more :: !step.Stop?) && !t.sched.phase.Flushing?
    ensures var s0 := Run(c, before).value.sched;
            id in t.sched.armed <==> id in s0.armed && UnlistedSince(c, before, id) && Step.Fire(id) !in more
  {
    hide Run, Listed, UnlistedSince, TakenSince, Inv;
    var s0 := Run(c, before).value;
    FlushKeepsOn(c, before, timers, more);
    FiredOrNot(more, id);
    if id in s0.sched.armed {
      TakenWhileLooping(c, before, timers, more);
      ListedIff(c, before, id);
      NotTakenBeforeFlush(c, before, id);
    }
  }

  lemma FiredOrNot(steps: seq<Step>, id: TimerId)
    ensures id in FiredIn(steps) <==> Step.Fire(id) in steps
  {
    if Step.Fire(id) in steps {
      var i :| 0 <= i < |steps| && steps[i] == Step.Fire(id);
      assert steps[i].Fire?;
    }
  }

  lemma {:induction false} TakenWhileLooping(c: Path -> Tailer, before: seq<Step>, timers: seq<TimerId>, more: seq<Step>)
    requires Run(c, before).Some? && Run(c, before + [Step.Cancel(timers)] + more).Some?
    ensures Run(c, before).value.sched.phase == Looping
  {
    hide Enabled, Apply;
    var steps := before + [Step.Cancel(timers)] + more;
    if more == [] {
      assert steps == before + [Step.Cancel(timers)];
      assert steps[..|steps| - 1] == before;
      TakenInLoop(c, Run(c, before).value, timers);
    } else {
      assert steps[..|steps| - 1] == before + [Step.Cancel(timers)] + more[..|more| - 1];
      TakenWhileLooping(c, before, timers, more[..|more| - 1]);
    }
  }

  lemma TakenInLoop(c: Path -> Tailer, s: State, timers: seq<TimerId>)
    requires Enabled(c, s, Step.Cancel(timers))
    ensures s.sched.phase == Looping
  {
  }
}
