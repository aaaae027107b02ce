/** Outbound hooks: which engrams are dispatched to which hooks, and how often a hook may fire. canFire reads
    the clock and decides under one lock, so whatever calls of Maybe run at once, the decisions form one
    sequence with times that never decrease. */
module Hooks {
  import opened Engrams

  /** The fields that decide whether a hook fires. */
  datatype Hook = Hook(name: string, pattern: string, surface: string, minIntervalSec: int)

  /** One call of canFire. */
  datatype Decision = Decision(hook: Hook, now: int, fired: bool)

  datatype Firing = Firing(hook: Hook, engram: Engram)

  const SECOND: int := 1_000_000_000

  function Interval(h: Hook): int {
    h.minIntervalSec * SECOND
  }

  // ----- What canFire is meant to decide -----

  /** The decision counts against the hooks of its name. */
  predicate Counts(d: Decision, name: string) {
    d.fired && d.hook.minIntervalSec > 0 && d.hook.name == name
  }

  ghost predicate FiredWithin(log: seq<Decision>, h: Hook, now: int) {
    exists i :: 0 <= i < |log| && Counts(log[i], h.name) && now - log[i].now < Interval(h)
  }

  /** Every decision was right for its time. */
  ghost predicate Obeys(log: seq<Decision>) {
    forall j | 0 <= j < |log| ::
      log[j].fired <==> log[j].hook.minIntervalSec <= 0 || !FiredWithin(log[..j], log[j].hook, log[j].now)
  }

  ghost predicate Ordered(log: seq<Decision>) {
    forall i, j | 0 <= i < j < |log| :: log[i].now <= log[j].now
  }

  // ----- The rate -----

  /** When the hook fired between a and b inclusive. */
  function FiredTimes(log: seq<Decision>, h: Hook, a: int, b: int): seq<int> {
    if log == [] then []
    else
      var d := log[|log| - 1];
      FiredTimes(log[..|log| - 1], h, a, b) + (if d.fired && d.hook == h && a <= d.now <= b then [d.now] else [])
  }

  ghost predicate Spaced(times: seq<int>, gap: int) {
    forall i, j | 0 <= i < j < |times| :: times[j] >= times[i] + gap
  }

  lemma {:induction false} TimesComeFromLog(log: seq<Decision>, h: Hook, a: int, b: int, t: int)
    requires t in FiredTimes(log, h, a, b)
    ensures a <= t <= b && exists i :: 0 <= i < |log| && log[i] == Decision(h, t, true)
  {
    var front, d := log[..|log| - 1], log[|log| - 1];
    if t in FiredTimes(front, h, a, b) {
      TimesComeFromLog(front, h, a, b, t);
      var i :| 0 <= i < |front| && front[i] == Decision(h, t, true);
      assert log[i] == Decision(h, t, true);
    } else {
      assert log[|log| - 1] == Decision(h, t, true);
    }
  }

  lemma ObeysPrefix(log: seq<Decision>, n: nat)
    requires Obeys(log) && n <= |log|
    ensures Obeys(log[..n])
  {
    forall j | 0 <= j < n ensures log[..n][..j] == log[..j] {
    }
  }

  lemma SpacedSnoc(times: seq<int>, t: int, gap: int)
    requires Spaced(times, gap) && forall u | u in times :: t >= u + gap
    ensures Spaced(times + [t], gap)
  {
    assert forall i | 0 <= i < |times| :: times[i] in times;
  }

  lemma {:induction false} TimesAreSpaced(log: seq<Decision>, h: Hook, a: int, b: int)
    requires Obeys(log) && h.minIntervalSec > 0
    ensures Spaced(FiredTimes(log, h, a, b), Interval(h))
  {
    if log != [] {
      var n := |log| - 1;
      var front, d := log[..n], log[n];
      ObeysPrefix(log, n);
      TimesAreSpaced(front, h, a, b);
      if d.fired && d.hook == h {
        forall t | t in FiredTimes(front, h, a, b) ensures d.now >= t + Interval(h) {
          TimesComeFromLog(front, h, a, b, t);
          var i :| 0 <= i < |front| && front[i] == Decision(h, t, true);
          assert Counts(front[i], h.name);
        }
        SpacedSnoc(FiredTimes(front, h, a, b), d.now, Interval(h));
      }
    }
  }

  lemma {:induction false} SpanOfSpaced(times: seq<int>, gap: int)
    requires Spaced(times, gap) && times != []
    ensures times[|times| - 1] - times[0] >= (|times| - 1) * gap
  {
    if |times| > 1 {
      var front := times[..|times| - 1];
      SpanOfSpaced(front, gap);
      assert times[|times| - 1] >= times[|times| - 2] + gap;
    }
  }

  /** In any window of length T a hook with interval I fires at most floor(T / I) + 1 times. */
  lemma RateIsLimited(log: seq<Decision>, h: Hook, a: int, length: nat)
    requires Obeys(log) && h.minIntervalSec > 0
    ensures |FiredTimes(log, h, a, a + length)| <= length / (h.minIntervalSec * 1_000_000_000) + 1
  {
    var times := FiredTimes(log, h, a, a + length);
    if times != [] {
      TimesAreSpaced(log, h, a, a + length);
      SpanOfSpaced(times, Interval(h));
      TimesComeFromLog(log, h, a, a + length, times[0]);
      TimesComeFromLog(log, h, a, a + length, times[|times| - 1]);
      AtMostQuotient(|times| - 1, Interval(h), length);
    }
  }

  lemma AtMostQuotient(n: nat, gap: int, length: nat)
    requires gap > 0 && n * gap <= length
    ensures n <= length / gap
  {
    var q := length / gap;
    assert length < (q + 1) * gap;
    assert n > q ==> n * gap >= (q + 1) * gap;
  }

  // ----- The dispatcher -----

  ghost predicate ClockRuns(clock: nat -> int) {
    forall i, j | 0 <= i < j :: clock(i) <= clock(j)
  }

  /** The map holds the time of the latest counted decision of each name. */
  ghost predicate Latest(lastAt: map<string, int>, log: seq<Decision>) {
    && (forall name | name in lastAt :: exists i :: 0 <= i < |log| && Counts(log[i], name) && log[i].now == lastAt[name])
    && (forall i | 0 <= i < |log| && Counts(log[i], log[i].hook.name) ::
          log[i].hook.name in lastAt && log[i].now <= lastAt[log[i].hook.name])
  }

  /** Since every firing of a hook of the name that has an interval, as many seconds have passed as the
      hook asks for. Times are in nanoseconds. */
  ghost predicate IntervalPassed(log: seq<Decision>, h: Hook, now: int) {
    forall i | 0 <= i < |log| ::
      log[i].fired && log[i].hook.minIntervalSec > 0 && log[i].hook.name == h.name ==>
        now >= log[i].now + h.minIntervalSec * 1_000_000_000
  }

  lemma FiredWithinMeans(log: seq<Decision>, h: Hook, now: int)
    ensures FiredWithin(log, h, now) <==> !IntervalPassed(log, h, now)
  {
  }

  /** The latest time is all canFire needs to know. */
  lemma LatestDecides(lastAt: map<string, int>, log: seq<Decision>, h: Hook, now: int)
    requires Latest(lastAt, log)
    ensures FiredWithin(log, h, now) <==> h.name in lastAt && now - lastAt[h.name] < Interval(h)
  {
  }

  lemma ObeysNext(log: seq<Decision>, d: Decision)
    requires Obeys(log)
    requires d.fired <==> d.hook.minIntervalSec <= 0 || !FiredWithin(log, d.hook, d.now)
    ensures Obeys(log + [d])
  {
    hide FiredWithin;
    forall j | 0 <= j <= |log| ensures (log + [d])[..j] == if j < |log| then log[..j] else log {
    }
  }

  lemma CountedIsLatest(lastAt: map<string, int>, log: seq<Decision>, d: Decision)
    requires Latest(lastAt, log) && Counts(d, d.hook.name) && forall e | e in log :: e.now <= d.now
    ensures Latest(lastAt[d.hook.name := d.now], log + [d])
  {
    var after := log + [d];
    assert after[|log|] == d;
    forall name | name in lastAt && name != d.hook.name
      ensures exists i :: 0 <= i < |after| && Counts(after[i], name) && after[i].now == lastAt[name]
    {
      var i :| 0 <= i < |log| && Counts(log[i], name) && log[i].now == lastAt[name];
      assert after[i] == log[i];
    }
  }

  lemma OtherIsNotLatest(lastAt: map<string, int>, log: seq<Decision>, d: Decision)
    requires Latest(lastAt, log) && !Counts(d, d.hook.name)
    ensures Latest(lastAt, log + [d])
  {
    var after := log + [d];
    forall name | name in lastAt
      ensures exists i :: 0 <= i < |after| && Counts(after[i], name) && after[i].now == lastAt[name]
    {
      var i :| 0 <= i < |log| && Counts(log[i], name) && log[i].now == lastAt[name];
      assert after[i] == log[i];
    }
  }

  /** The decisions of one call of Maybe, as firings of its engram. */
  function FiringsOf(log: seq<Decision>, e: Engram): seq<Firing> {
    if log == [] then []
    else
      var d := log[|log| - 1];
      FiringsOf(log[..|log| - 1], e) + (if d.fired then [Firing(d.hook, e)] else [])
  }

  function Matching(hooks: seq<Hook>, matches: (Engram, Hook) -> bool, e: Engram): seq<Hook> {
    if hooks == [] then []
    else
      var h := hooks[|hooks| - 1];
      Matching(hooks[..|hooks| - 1], matches, e) + (if matches(e, h) then [h] else [])
  }

  function HooksOf(log: seq<Decision>): (hs: seq<Hook>)
    ensures |hs| == |log| && forall i | 0 <= i < |log| :: hs[i] == log[i].hook
  {
    seq(|log|, i requires 0 <= i < |log| => log[i].hook)
  }

  class Dispatcher {
    const hooks: seq<Hook>
    /** Whether a hook's surface and pattern fit an engram. */
    const matches: (Engram, Hook) -> bool
    /** The k-th reading of the clock. */
    const clock: nat -> int
    var readings: nat
    var lastAt: map<string, int>
    ghost var log: seq<Decision>
    /** The goroutines started, in order. */
    var firings: seq<Firing>

    ghost predicate Valid()
      reads this
    {
      && ClockRuns(clock)
      && Latest(lastAt, log) && Obeys(log) && Ordered(log)
      && (forall d | d in log :: exists k :: 0 <= k < readings && d.now == clock(k))
      && (forall f | f in firings :: matches(f.engram, f.hook))
    }

    constructor (hooks: seq<Hook>, matches: (Engram, Hook) -> bool, clock: nat -> int)
      requires ClockRuns(clock)
      ensures Valid() && log == [] && firings == []
      ensures this.hooks == hooks && this.matches == matches && this.clock == clock
    {
      this.hooks, this.matches, this.clock := hooks, matches, clock;
      readings, lastAt, log, firings := 0, map[], [], [];
    }

    lemma DecidedRightly()
      requires Valid()
      ensures Obeys(log)
    {
    }

    method CanFire(h: Hook) returns (ok: bool)
      requires Valid()
      modifies this`readings, this`lastAt, this`log
      ensures Valid()
      ensures log == old(log) + [Decision(h, clock(old(readings)), ok)]
      ensures ok <==> h.minIntervalSec <= 0 || !FiredWithin(old(log), h, clock(old(readings)))
      ensures ok <==> h.minIntervalSec <= 0 || IntervalPassed(old(log), h, clock(old(readings)))
    {
      var now := clock(readings);
      hide FiredWithin, Latest, Obeys, IntervalPassed;
      LatestDecides(lastAt, log, h, now);
      FiredWithinMeans(log, h, now);
      assert forall d | d in log :: d.now <= now;
      if h.minIntervalSec <= 0 {
        ok := true;
        OtherIsNotLatest(lastAt, log, Decision(h, now, ok));
      } else {
        ok := h.name !in lastAt || now - lastAt[h.name] >= h.minIntervalSec * SECOND;
        if ok {
          CountedIsLatest(lastAt, log, Decision(h, now, ok));
          lastAt := lastAt[h.name := now];
        } else {
          OtherIsNotLatest(lastAt, log, Decision(h, now, ok));
        }
      }
      ObeysNext(log, Decision(h, now, ok));
      log := log + [Decision(h, now, ok)];
      readings := readings + 1;
    }

    /** go func() { ... }. */
    method Start(h: Hook, e: Engram)
      requires Valid() && matches(e, h)
      modifies this`firings
      ensures Valid() && firings == old(firings) + [Firing(h, e)]
    {
      firings := firings + [Firing(h, e)];
    }

    method Maybe(e: Engram)
      requires Valid()
      modifies this`readings, this`lastAt, this`log, this`firings
      ensures Valid()
      ensures |old(log)| <= |log| && log[..|old(log)|] == old(log)
      ensures HooksOf(log[|old(log)|..]) == Matching(hooks, matches, e)
      ensures firings == old(firings) + FiringsOf(log[|old(log)|..], e)
    {
      hide *;
      ghost var made: seq<Decision> := [];
      NoneMade(hooks, matches, e);
      assert old(firings) + [] == old(firings);
      for i := 0 to |hooks|
        invariant Valid()
        invariant log == old(log) + made
        invariant HooksOf(made) == Matching(hooks[..i], matches, e)
        invariant firings == old(firings) + FiringsOf(made, e)
      {
        OneMoreMade(hooks, matches, e, i, made);
        var h := hooks[i];
        if !matches(e, h) {
          continue;
        }
        var ok := CanFire(h);
        ghost var d := log[|log| - 1];
        made := made + [d];
        assert log == old(log) + made;
        if !ok {
          continue;
        }
        Start(h, e);
      }
      assert hooks[..|hooks|] == hooks;
    }
  }

  lemma NoneMade(hooks: seq<Hook>, matches: (Engram, Hook) -> bool, e: Engram)
    ensures HooksOf([]) == Matching(hooks[..0], matches, e) && FiringsOf([], e) == []
  {
  }

  lemma OneMoreMade(hooks: seq<Hook>, matches: (Engram, Hook) -> bool, e: Engram, i: nat, made: seq<Decision>)
    requires i < |hooks|
    ensures Matching(hooks[..i + 1], matches, e)
            == if matches(e, hooks[i]) then Matching(hooks[..i], matches, e) + [hooks[i]] else Matching(hooks[..i], matches, e)
    ensures forall d: Decision :: HooksOf(made + [d]) == HooksOf(made) + [d.hook]
    ensures forall d: Decision ::
              FiringsOf(made + [d], e) == if d.fired then FiringsOf(made, e) + [Firing(d.hook, e)] else FiringsOf(made, e)
  {
    assert hooks[..i + 1][..i] == hooks[..i];
    forall d: Decision ensures (made + [d])[..|made|] == made {
    }
  }

  // ----- The wrapped sink -----

  function MatchingAll(hooks: seq<Hook>, matches: (Engram, Hook) -> bool, batch: seq<Engram>): seq<Hook> {
    if batch == [] then []
    else MatchingAll(hooks, matches, batch[..|batch| - 1]) + Matching(hooks, matches, batch[|batch| - 1])
  }

  lemma {:induction false} MatchingHolds(hooks: seq<Hook>, matches: (Engram, Hook) -> bool, e: Engram, h: Hook)
    ensures h in Matching(hooks, matches, e) <==> h in hooks && matches(e, h)
  {
    if hooks != [] {
      MatchingHolds(hooks[..|hooks| - 1], matches, e, h);
      assert hooks == hooks[..|hooks| - 1] + [hooks[|hooks| - 1]];
    }
  }

  /** The positions of a set, from left to right. */
  ghost predicate Lists(which: set<int>, at: seq<int>) {
    && (forall i :: i in at <==> i in which)
    && (forall j, k | 0 <= j < k < |at| :: at[j] < at[k])
  }

  lemma ListsNext(which: set<int>, at: seq<int>, n: int)
    requires Lists(which, at) && forall i | i in which :: i < n
    ensures Lists(which + {n}, at + [n])
  {
    assert forall k | 0 <= k < |at| :: at[k] in at;
  }

  lemma NothingListed()
    ensures Lists({}, [])
  {
  }

  function Matched(hooks: seq<Hook>, matches: (Engram, Hook) -> bool, e: Engram): set<int> {
    set i | 0 <= i < |hooks| && matches(e, hooks[i])
  }

  lemma MatchedNext(hooks: seq<Hook>, matches: (Engram, Hook) -> bool, e: Engram)
    requires hooks != []
    ensures var n := |hooks| - 1;
            Matched(hooks, matches, e) == Matched(hooks[..n], matches, e) + if matches(e, hooks[n]) then {n} else {}
  {
  }

  /** An engram is decided for the hooks it matches, each once, in the order of the list. */
  lemma {:induction false} MatchingInOrder(hooks: seq<Hook>, matches: (Engram, Hook) -> bool, e: Engram)
    returns (at: seq<int>)
    ensures Lists((set i | 0 <= i < |hooks| && matches(e, hooks[i])), at)
    ensures |Matching(hooks, matches, e)| == |at|
    ensures forall k | 0 <= k < |at| :: 0 <= at[k] < |hooks| && Matching(hooks, matches, e)[k] == hooks[at[k]]
  {
    hide Lists;
    at := [];
    if hooks == [] {
      NothingListed();
      assert Matched(hooks, matches, e) == {};
    } else {
      var n := |hooks| - 1;
      at := MatchingInOrder(hooks[..n], matches, e);
      MatchedNext(hooks, matches, e);
      if matches(e, hooks[n]) {
        ListsNext(Matched(hooks[..n], matches, e), at, n);
        at := at + [n];
      } else {
        assert Matched(hooks, matches, e) == Matched(hooks[..n], matches, e);
      }
    }
  }

  /** Each accepted decision starts one firing. */
  lemma {:induction false} FiringPerDecision(a: seq<Decision>, d: Decision, b: seq<Decision>, e: Engram)
    ensures FiringsOf(a + [d] + b, e)
         == FiringsOf(a, e) + (if d.fired then [Firing(d.hook, e)] else []) + FiringsOf(b, e)
    decreases |b|
  {
    var whole := a + [d] + b;
    if b == [] {
      assert whole[..|whole| - 1] == a;
    } else {
      var n := |b| - 1;
      assert whole[..|whole| - 1] == a + [d] + b[..n];
      FiringPerDecision(a, d, b[..n], e);
    }
  }

  /** A batch is decided engram by engram. */
  lemma {:induction false} MatchingByEngram(hooks: seq<Hook>, matches: (Engram, Hook) -> bool, a: seq<Engram>, e: Engram,
                                            b: seq<Engram>)
    ensures MatchingAll(hooks, matches, a + [e] + b)
         == MatchingAll(hooks, matches, a) + Matching(hooks, matches, e) + MatchingAll(hooks, matches, b)
    decreases |b|
  {
    hide Matching;
    var whole := a + [e] + b;
    if b == [] {
      assert whole[..|whole| - 1] == a;
    } else {
      var n := |b| - 1;
      assert whole[..|whole| - 1] == a + [e] + b[..n];
      MatchingByEngram(hooks, matches, a, e, b[..n]);
    }
  }

  lemma {:induction false} FiringsAreDecisions(made: seq<Decision>, e: Engram, f: Firing)
    ensures f in FiringsOf(made, e) <==> f.engram == e && exists i :: 0 <= i < |made| && made[i].fired && made[i].hook == f.hook
  {
    if made != [] {
      var front, d := made[..|made| - 1], made[|made| - 1];
      FiringsAreDecisions(front, e, f);
      assert forall i | 0 <= i < |front| :: made[i] == front[i];
      if f == Firing(d.hook, e) && d.fired {
        assert made[|made| - 1].hook == f.hook;
      }
    }
  }

  /** A hook without an interval fires for every engram it matches. */
  lemma UnlimitedFires(log: seq<Decision>, made: seq<Decision>, hooks: seq<Hook>, matches: (Engram, Hook) -> bool,
                       e: Engram, h: Hook)
    requires Obeys(log + made) && HooksOf(made) == Matching(hooks, matches, e)
    requires h in hooks && matches(e, h) && h.minIntervalSec <= 0
    ensures Firing(h, e) in FiringsOf(made, e)
  {
    MatchingHolds(hooks, matches, e, h);
    FiringsAreDecisions(made, e, Firing(h, e));
    var i :| 0 <= i < |made| && HooksOf(made)[i] == h;
    assert (log + made)[|log| + i] == made[i];
  }

  class HookedSink {
    const dispatcher: Dispatcher
    /** What the inner sink has accepted. */
    ghost var inserted: seq<Engram>

    ghost predicate Valid()
      reads this, dispatcher
    {
      dispatcher.Valid() && forall f | f in dispatcher.firings :: f.engram in inserted
    }

    constructor (dispatcher: Dispatcher)
      requires dispatcher.Valid() && dispatcher.firings == []
      ensures Valid() && this.dispatcher == dispatcher && inserted == []
    {
      this.dispatcher, inserted := dispatcher, [];
    }

    /** `accepted` is the inner sink's verdict on the batch. */
    method InsertBatch(batch: seq<Engram>, accepted: bool) returns (ok: bool)
      requires Valid()
      modifies this, dispatcher
      ensures Valid() && ok == accepted
      ensures inserted == if ok then old(inserted) + batch else old(inserted)
      ensures if ok then Dispatched(dispatcher.hooks, dispatcher.matches, batch, old(dispatcher.log), dispatcher.log,
                                    old(dispatcher.firings), dispatcher.firings)
              else dispatcher.log == old(dispatcher.log) && dispatcher.firings == old(dispatcher.firings)
    {
      hide Dispatched, FiringsOf, Matching, HooksOf, Obeys, Dispatcher.Valid;
      if !accepted {
        return false;
      }
      ghost var d, log0, firings0 := dispatcher, dispatcher.log, dispatcher.firings;
      NoneDispatched(d.hooks, d.matches, log0, firings0);
      for i := 0 to |batch|
        invariant d.Valid() && inserted == old(inserted)
        invariant Dispatched(d.hooks, d.matches, batch[..i], log0, d.log, firings0, d.firings)
      {
        ghost var log1, firings1 := d.log, d.firings;
        dispatcher.Maybe(batch[i]);
        d.DecidedRightly();
        assert batch[..i + 1] == batch[..i] + [batch[i]];
        DispatchedNext(d.hooks, d.matches, batch[..i], batch[i], log0, log1, d.log, firings0, firings1, d.firings);
      }
      assert batch[..|batch|] == batch;
      inserted := inserted + batch;
      DispatchedOnly(d.hooks, d.matches, batch, log0, d.log, firings0, d.firings);
      ok := true;
    }
  }

  /** Every hook an engram of the batch matches has had its decision, engram by engram. */
  ghost predicate Decided(hooks: seq<Hook>, matches: (Engram, Hook) -> bool, batch: seq<Engram>,
                          log0: seq<Decision>, log: seq<Decision>) {
    && |log0| <= |log| && log[..|log0|] == log0
    && HooksOf(log[|log0|..]) == MatchingAll(hooks, matches, batch)
  }

  /** What was dispatched is of the batch and matches, and no match of a hook without an interval was
      passed over. */
  ghost predicate Fired(hooks: seq<Hook>, matches: (Engram, Hook) -> bool, batch: seq<Engram>,
                        firings0: seq<Firing>, firings: seq<Firing>) {
    && |firings0| <= |firings| && firings[..|firings0|] == firings0
    && (forall f | f in firings[|firings0|..] :: f.engram in batch && f.hook in hooks && matches(f.engram, f.hook))
    && (forall e, h | e in batch && h in hooks && matches(e, h) && h.minIntervalSec <= 0 :: Firing(h, e) in firings)
  }

  ghost predicate Dispatched(hooks: seq<Hook>, matches: (Engram, Hook) -> bool, batch: seq<Engram>,
                             log0: seq<Decision>, log: seq<Decision>, firings0: seq<Firing>, firings: seq<Firing>) {
    Decided(hooks, matches, batch, log0, log) && Fired(hooks, matches, batch, firings0, firings)
  }

  lemma NoneDispatched(hooks: seq<Hook>, matches: (Engram, Hook) -> bool, log: seq<Decision>, firings: seq<Firing>)
    ensures Dispatched(hooks, matches, [], log, log, firings, firings)
  {
  }

  lemma DispatchedOnly(hooks: seq<Hook>, matches: (Engram, Hook) -> bool, batch: seq<Engram>,
                       log0: seq<Decision>, log: seq<Decision>, firings0: seq<Firing>, firings: seq<Firing>)
    requires Dispatched(hooks, matches, batch, log0, log, firings0, firings)
    ensures forall f | f in firings :: f in firings0 || f.engram in batch
  {
    assert firings == firings0 + firings[|firings0|..];
  }

  lemma DispatchedNext(hooks: seq<Hook>, matches: (Engram, Hook) -> bool, done: seq<Engram>, e: Engram,
                       log0: seq<Decision>, log1: seq<Decision>, log2: seq<Decision>,
                       firings0: seq<Firing>, firings1: seq<Firing>, firings2: seq<Firing>)
    requires Dispatched(hooks, matches, done, log0, log1, firings0, firings1) && Obeys(log2)
    requires |log1| <= |log2| && log2[..|log1|] == log1
    requires HooksOf(log2[|log1|..]) == Matching(hooks, matches, e)
    requires firings2 == firings1 + FiringsOf(log2[|log1|..], e)
    ensures Dispatched(hooks, matches, done + [e], log0, log2, firings0, firings2)
  {
    hide Decided, Fired, FiringsOf, HooksOf, Matching, Obeys;
    var made := log2[|log1|..];
    assert log2 == log1 + made;
    DecidedNext(hooks, matches, done, e, log0, log1, made);
    NewFiringsMatch(hooks, matches, e, made);
    forall h | h in hooks && matches(e, h) && h.minIntervalSec <= 0 ensures Firing(h, e) in FiringsOf(made, e) {
      UnlimitedFires(log1, made, hooks, matches, e, h);
    }
    FiredNext(hooks, matches, done, e, firings0, firings1, FiringsOf(made, e));
  }

  lemma DecidedNext(hooks: seq<Hook>, matches: (Engram, Hook) -> bool, done: seq<Engram>, e: Engram,
                    log0: seq<Decision>, log: seq<Decision>, made: seq<Decision>)
    requires Decided(hooks, matches, done, log0, log) && HooksOf(made) == Matching(hooks, matches, e)
    ensures Decided(hooks, matches, done + [e], log0, log + made)
  {
    hide HooksOf, Matching;
    LogGrows(log0, log, made);
    SuffixGrows(log0, log, made);
    assert (done + [e])[..|done|] == done;
  }

  lemma FiredNext(hooks: seq<Hook>, matches: (Engram, Hook) -> bool, done: seq<Engram>, e: Engram,
                  firings0: seq<Firing>, firings: seq<Firing>, more: seq<Firing>)
    requires Fired(hooks, matches, done, firings0, firings)
    requires forall f | f in more :: f.engram == e && f.hook in hooks && matches(e, f.hook)
    requires forall h | h in hooks && matches(e, h) && h.minIntervalSec <= 0 :: Firing(h, e) in more
    ensures Fired(hooks, matches, done + [e], firings0, firings + more)
  {
    SuffixGrows(firings0, firings, more);
  }

  lemma LogGrows(log0: seq<Decision>, log1: seq<Decision>, made: seq<Decision>)
    requires |log0| <= |log1|
    ensures HooksOf(log1[|log0|..] + made) == HooksOf(log1[|log0|..]) + HooksOf(made)
  {
  }

  lemma SuffixGrows<T>(first: seq<T>, second: seq<T>, more: seq<T>)
    requires |first| <= |second| && second[..|first|] == first
    ensures (second + more)[..|first|] == first
    ensures (second + more)[|first|..] == second[|first|..] + more
  {
  }

  lemma NewFiringsMatch(hooks: seq<Hook>, matches: (Engram, Hook) -> bool, e: Engram, made: seq<Decision>)
    requires HooksOf(made) == Matching(hooks, matches, e)
    ensures forall f | f in FiringsOf(made, e) :: f.engram == e && f.hook in hooks && matches(e, f.hook)
  {
    forall f | f in FiringsOf(made, e) ensures f.engram == e && f.hook in hooks && matches(e, f.hook) {
      FiringsAreDecisions(made, e, f);
      MatchingHolds(hooks, matches, e, f.hook);
      var i :| 0 <= i < |made| && made[i].fired && made[i].hook == f.hook;
      assert HooksOf(made)[i] == f.hook;
    }
  }
}
