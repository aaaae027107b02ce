/** The wake broker. Subscribe, Unsubscribe and the janitor's sweep hold the write lock, so each is one step
    and none happens while a WakeActive is under way; WakeActive holds the read lock, so several may be
    under way at once, each offering its event to one subscriber per step. Subscribers receive at any time.
    An event is named by the number of the WakeActive call that made it. */
module Broker {
  import opened Engrams
  import opened Collections

  /** `accepted`, `dropped` and `read` record what happened to the events offered to the channel. */
  datatype Sub = Sub(id: string, role: string, lastHeart: int, open: bool, buf: seq<nat>,
                     accepted: seq<nat>, dropped: seq<nat>, read: seq<nat>)

  /** A WakeActive call: the subscribers it is for, those it has yet to reach, and when it began and ended. */
  datatype Wake = Wake(role: string, targets: set<nat>, todo: set<nat>, begun: nat, ended: Option<nat>)

  /** `table` is the broker's map from ids to subscriptions, which are numbered as they are made.
      `panicked`: some channel was closed twice or sent to after close. */
  datatype State = State(table: map<string, nat>, subs: seq<Sub>, wakes: seq<Wake>, time: nat, panicked: bool)

  datatype Step =
    | Subscribe(id: string, role: string, now: int)
    | Unsubscribe(id: string)
    | Heartbeat(id: string, now: int)
    | Sweep(now: int)
    | BeginWake(role: string)
    | Offer(wake: nat, sub: nat)
    | EndWake(wake: nat)
    | Receive(sub: nat)

  const CAPACITY := 10

  const INIT := State(map[], [], [], 0, false)

  /** The write lock is free. */
  ghost predicate Idle(s: State) {
    forall w | w in s.wakes :: w.ended.Some?
  }

  predicate Expired(sub: Sub, now: int, ttl: int) {
    now - sub.lastHeart > 3 * ttl
  }

  function Offered(sub: Sub, wake: nat): Sub {
    if |sub.buf| < CAPACITY then sub.(buf := sub.buf + [wake], accepted := sub.accepted + [wake])
    else sub.(dropped := sub.dropped + [wake])
  }

  function Received(sub: Sub): Sub
    requires sub.buf != []
  {
    sub.(buf := sub.buf[1..], read := sub.read + [sub.buf[0]])
  }

  function Targets(table: map<string, nat>, subs: seq<Sub>, role: string): set<nat> {
    set n | 0 <= n < |subs| && n in table.Values && subs[n].role == role
  }

  /** The registered subscriptions the janitor finds dead. */
  function Dead(table: map<string, nat>, subs: seq<Sub>, now: int, ttl: int): set<string> {
    set id | id in table && table[id] < |subs| && Expired(subs[table[id]], now, ttl)
  }

  function CloseAt(subs: seq<Sub>, which: set<nat>): (r: seq<Sub>)
    ensures |r| == |subs|
    ensures forall n | 0 <= n < |subs| :: r[n] == if n in which then subs[n].(open := false) else subs[n]
  {
    seq(|subs|, n requires 0 <= n < |subs| => if n in which then subs[n].(open := false) else subs[n])
  }

  ghost predicate Enabled(s: State, step: Step) {
    match step
    case Subscribe(_, _, _) => Idle(s)
    case Unsubscribe(_) => Idle(s)
    case Sweep(_) => Idle(s)
    case Heartbeat(_, _) => true
    case BeginWake(_) => true
    case Offer(w, n) => w < |s.wakes| && n in s.wakes[w].todo && n < |s.subs|
    case EndWake(w) => w < |s.wakes| && s.wakes[w].ended == None && s.wakes[w].todo == {}
    case Receive(n) => n < |s.subs| && s.subs[n].buf != []
  }

  ghost function Act(s: State, step: Step, ttl: int): State
    requires Enabled(s, step)
  {
    match step
    case Subscribe(id, role, now) =>
      s.(table := s.table[id := |s.subs|], subs := s.subs + [Sub(id, role, now, true, [], [], [], [])])
    case Unsubscribe(id) =>
      if id in s.table && s.table[id] < |s.subs| then
        s.(table := s.table - {id}, subs := CloseAt(s.subs, {s.table[id]}),
           panicked := s.panicked || !s.subs[s.table[id]].open)
      else s
    case Sweep(now) =>
      var dead := Dead(s.table, s.subs, now, ttl);
      s.(table := s.table - dead, subs := CloseAt(s.subs, set id | id in dead :: s.table[id]),
         panicked := s.panicked || (exists id :: id in dead && !s.subs[s.table[id]].open)
                     || (exists id, other :: id in dead && other in dead && id != other && s.table[id] == s.table[other]))
    case Heartbeat(id, now) =>
      if id in s.table && s.table[id] < |s.subs| then
        s.(subs := s.subs[s.table[id] := s.subs[s.table[id]].(lastHeart := now)])
      else s
    case BeginWake(role) =>
      var targets := Targets(s.table, s.subs, role);
      s.(wakes := s.wakes + [Wake(role, targets, targets, s.time, None)])
    case Offer(w, n) =>
      s.(subs := s.subs[n := Offered(s.subs[n], w)],
         wakes := s.wakes[w := s.wakes[w].(todo := s.wakes[w].todo - {n})],
         panicked := s.panicked || !s.subs[n].open)
    case EndWake(w) =>
      s.(wakes := s.wakes[w := s.wakes[w].(ended := Some(s.time))])
    case Receive(n) =>
      s.(subs := s.subs[n := Received(s.subs[n])])
  }

  ghost function After(s: State, step: Step, ttl: int): State
    requires Enabled(s, step)
  {
    var acted := Act(s, step, ttl);
    acted.(time := s.time + 1)
  }

  // ----- The invariant -----

  ghost predicate TableInv(s: State) {
    && (forall id | id in s.table :: s.table[id] < |s.subs| && s.subs[s.table[id]].id == id && s.subs[s.table[id]].open)
    && (forall n | 0 <= n < |s.subs| && s.subs[n].open && (forall m | n < m < |s.subs| :: s.subs[m].id != s.subs[n].id)
          :: s.subs[n].id in s.table && s.table[s.subs[n].id] == n)
  }

  /** A channel holds at most ten events, and gives them out in the order it took them. */
  ghost predicate ChannelInv(sub: Sub) {
    && |sub.buf| <= CAPACITY
    && sub.read + sub.buf == sub.accepted
    && NoRepeats(sub.accepted)
    && (forall w | w in sub.accepted :: w !in sub.dropped)
    && (sub.dropped != [] ==> |sub.accepted| >= CAPACITY)
  }

  /** A call still under way is for open channels only; it has been offered to exactly those it is done with. */
  ghost predicate WakeInv(s: State, w: nat)
    requires w < |s.wakes|
  {
    var wake := s.wakes[w];
    && wake.todo <= wake.targets
    && wake.begun < s.time
    && (wake.ended.Some? ==> wake.todo == {} && wake.begun < wake.ended.value < s.time)
    && (forall n | n in wake.targets :: n < |s.subs| && s.subs[n].role == wake.role)
    && (forall n | n in wake.todo :: n < |s.subs| && s.subs[n].open)
    && (forall n | 0 <= n < |s.subs| ::
          (w in s.subs[n].accepted || w in s.subs[n].dropped) <==> n in wake.targets - wake.todo)
  }

  /** No event stands before one whose call was over before its own call began. */
  ghost predicate InOrder(wakes: seq<Wake>, accepted: seq<nat>) {
    && (forall i | 0 <= i < |accepted| :: accepted[i] < |wakes|)
    && (forall i, j | 0 <= i < j < |accepted| && wakes[accepted[j]].ended.Some? ::
          wakes[accepted[i]].begun < wakes[accepted[j]].ended.value)
  }

  ghost predicate SubsInv(s: State) {
    && (forall n | 0 <= n < |s.subs| :: ChannelInv(s.subs[n]) && InOrder(s.wakes, s.subs[n].accepted))
    && (forall n, w | 0 <= n < |s.subs| && w in s.subs[n].dropped :: w < |s.wakes|)
  }

  ghost predicate WakesInv(s: State) {
    forall w | 0 <= w < |s.wakes| :: WakeInv(s, w)
  }

  ghost predicate Inv(s: State) {
    !s.panicked && TableInv(s) && SubsInv(s) && WakesInv(s)
  }

  // ----- Every step keeps it -----

  lemma StepKeepsTable(s: State, step: Step, ttl: int)
    requires Inv(s) && Enabled(s, step)
    ensures TableInv(After(s, step, ttl)) && !After(s, step, ttl).panicked
  {
    hide SubsInv, WakesInv, TableInv;
    match step
    case Subscribe(id, role, now) => SubscribeKeepsTable(s, id, role, now, ttl);
    case Unsubscribe(id) => UnsubscribeKeepsTable(s, id, ttl);
    case Sweep(now) => SweepKeepsTable(s, now, ttl);
    case Offer(w, n) =>
      TodoIsOpen(s, w, n);
      SameTableKeeps(s, After(s, step, ttl));
    case _ => SameTableKeeps(s, After(s, step, ttl));
  }

  lemma SameTableKeeps(s: State, t: State)
    requires TableInv(s) && t.table == s.table && |t.subs| == |s.subs|
    requires forall n | 0 <= n < |s.subs| :: t.subs[n].id == s.subs[n].id && t.subs[n].open == s.subs[n].open
    ensures TableInv(t)
  {
  }

  lemma TodoIsOpen(s: State, w: nat, n: nat)
    requires WakesInv(s) && w < |s.wakes| && n in s.wakes[w].todo
    ensures n < |s.subs| && s.subs[n].open && s.wakes[w].ended == None
    ensures w !in s.subs[n].accepted && w !in s.subs[n].dropped
    ensures s.subs[n].role == s.wakes[w].role
  {
    assert WakeInv(s, w);
  }

  lemma SubscribeKeepsTable(s: State, id: string, role: string, now: int, ttl: int)
    requires TableInv(s) && Idle(s) && !s.panicked
    ensures TableInv(After(s, Subscribe(id, role, now), ttl)) && !After(s, Subscribe(id, role, now), ttl).panicked
  {
    var t := After(s, Subscribe(id, role, now), ttl);
    forall n | 0 <= n < |t.subs| && t.subs[n].open && (forall m | n < m < |t.subs| :: t.subs[m].id != t.subs[n].id)
      ensures t.subs[n].id in t.table && t.table[t.subs[n].id] == n
    {
      if n < |s.subs| {
        assert t.subs[|s.subs|].id != t.subs[n].id;
        assert forall m | n < m < |s.subs| :: t.subs[m] == s.subs[m];
      }
    }
  }

  lemma UnsubscribeKeepsTable(s: State, id: string, ttl: int)
    requires TableInv(s) && Idle(s) && !s.panicked
    ensures TableInv(After(s, Unsubscribe(id), ttl)) && !After(s, Unsubscribe(id), ttl).panicked
  {
    var t := After(s, Unsubscribe(id), ttl);
    assert forall n | 0 <= n < |t.subs| :: t.subs[n].id == s.subs[n].id;
  }

  lemma SweepKeepsTable(s: State, now: int, ttl: int)
    requires TableInv(s) && Idle(s) && !s.panicked
    ensures TableInv(After(s, Sweep(now), ttl)) && !After(s, Sweep(now), ttl).panicked
  {
    var t := After(s, Sweep(now), ttl);
    assert forall n | 0 <= n < |t.subs| :: t.subs[n].id == s.subs[n].id;
    forall id, other | id in s.table && other in s.table && s.table[id] == s.table[other] ensures id == other {
      assert s.subs[s.table[id]].id == id;
    }
  }

  /** The step neither begins nor ends a call, nor offers an event. */
  ghost predicate SameTraffic(s: State, t: State) {
    && t.wakes == s.wakes && t.time == s.time + 1 && |s.subs| <= |t.subs|
    && (forall n | 0 <= n < |t.subs| ::
          if n < |s.subs| then
            t.subs[n].accepted == s.subs[n].accepted && t.subs[n].dropped == s.subs[n].dropped
            && t.subs[n].role == s.subs[n].role && ChannelInv(t.subs[n])
          else t.subs[n].accepted == t.subs[n].dropped == t.subs[n].buf == t.subs[n].read == [])
  }

  lemma QuietStep(s: State, step: Step, ttl: int)
    requires Inv(s) && Enabled(s, step) && !step.BeginWake? && !step.Offer? && !step.EndWake?
    ensures SameTraffic(s, After(s, step, ttl))
    ensures Idle(s) || forall n | 0 <= n < |s.subs| :: After(s, step, ttl).subs[n].open == s.subs[n].open
  {
    hide WakesInv, TableInv, NoRepeats, InOrder;
  }

  lemma QuietKeepsTraffic(s: State, t: State)
    requires SubsInv(s) && WakesInv(s) && SameTraffic(s, t)
    requires Idle(s) || forall n | 0 <= n < |s.subs| :: t.subs[n].open == s.subs[n].open
    ensures SubsInv(t) && WakesInv(t)
  {
    forall w | 0 <= w < |t.wakes| ensures WakeInv(t, w) {
      assert WakeInv(s, w) && s.wakes[w] in s.wakes;
    }
  }

  lemma BeginKeepsTraffic(s: State, role: string, ttl: int)
    requires Inv(s)
    ensures SubsInv(After(s, BeginWake(role), ttl)) && WakesInv(After(s, BeginWake(role), ttl))
  {
    var t := After(s, BeginWake(role), ttl);
    forall w | 0 <= w < |t.wakes| ensures WakeInv(t, w) {
      if w < |s.wakes| {
        assert WakeInv(s, w);
      }
    }
  }

  lemma EndKeepsTraffic(s: State, w: nat, ttl: int)
    requires Inv(s) && Enabled(s, EndWake(w))
    ensures SubsInv(After(s, EndWake(w), ttl)) && WakesInv(After(s, EndWake(w), ttl))
  {
    var t := After(s, EndWake(w), ttl);
    forall v | 0 <= v < |t.wakes| ensures WakeInv(t, v) && t.wakes[v].begun == s.wakes[v].begun < s.time {
      assert WakeInv(s, v);
    }
    forall n | 0 <= n < |t.subs| ensures InOrder(t.wakes, t.subs[n].accepted) {
      assert InOrder(s.wakes, s.subs[n].accepted);
    }
  }

  lemma OrderKept(before: seq<Wake>, after: seq<Wake>, accepted: seq<nat>, w: nat)
    requires InOrder(before, accepted) && |after| == |before| && w < |before| && before[w].ended == None
    requires forall v | 0 <= v < |before| :: after[v].begun == before[v].begun && after[v].ended == before[v].ended
    ensures InOrder(after, accepted) && InOrder(after, accepted + [w])
  {
  }

  lemma OfferKeepsSubs(s: State, w: nat, n: nat, ttl: int)
    requires Inv(s) && Enabled(s, Offer(w, n))
    ensures SubsInv(After(s, Offer(w, n), ttl))
  {
    var t := After(s, Offer(w, n), ttl);
    TodoIsOpen(s, w, n);
    OfferedKeepsChannel(s.subs[n], w) by { assert ChannelInv(s.subs[n]); }
    forall m | 0 <= m < |t.subs| ensures ChannelInv(t.subs[m]) && InOrder(t.wakes, t.subs[m].accepted) {
      hide ChannelInv, TableInv, WakesInv, InOrder;
      assert ChannelInv(s.subs[m]) && InOrder(s.wakes, s.subs[m].accepted);
      OrderKept(s.wakes, t.wakes, s.subs[m].accepted, w);
    }
    hide ChannelInv, TableInv, WakesInv, InOrder;
    assert forall m, v | 0 <= m < |t.subs| && v in t.subs[m].dropped :: v in s.subs[m].dropped || v == w;
  }

  lemma OfferedKeepsChannel(sub: Sub, w: nat)
    requires ChannelInv(sub) && w !in sub.accepted && w !in sub.dropped
    ensures ChannelInv(Offered(sub, w))
  {
    assert sub.read + (sub.buf + [w]) == (sub.read + sub.buf) + [w];
  }

  lemma OfferKeepsWakes(s: State, w: nat, n: nat, ttl: int)
    requires Inv(s) && Enabled(s, Offer(w, n))
    ensures WakesInv(After(s, Offer(w, n), ttl))
  {
    var t := After(s, Offer(w, n), ttl);
    TodoIsOpen(s, w, n);
    forall v | 0 <= v < |t.wakes| ensures WakeInv(t, v) {
      assert WakeInv(s, v) && WakeInv(s, w);
    }
  }

  lemma StepKeepsInv(s: State, step: Step, ttl: int)
    requires Inv(s) && Enabled(s, step)
    ensures Inv(After(s, step, ttl))
  {
    StepKeepsTable(s, step, ttl);
    match step
    case BeginWake(role) => BeginKeepsTraffic(s, role, ttl);
    case EndWake(w) => EndKeepsTraffic(s, w, ttl);
    case Offer(w, n) =>
      OfferKeepsSubs(s, w, n, ttl);
      OfferKeepsWakes(s, w, n, ttl);
    case _ =>
      QuietStep(s, step, ttl);
      QuietKeepsTraffic(s, After(s, step, ttl));
  }

  // ----- Whole runs -----

  ghost function Exec(steps: seq<Step>, ttl: int): Option<State> {
    if steps == [] then Some(INIT)
    else
      var last := steps[|steps| - 1];
      match Exec(steps[..|steps| - 1], ttl)
      case None => None
      case Some(s) => if Enabled(s, last) then Some(After(s, last, ttl)) else None
  }

  lemma {:induction false} RunKeepsInv(steps: seq<Step>, ttl: int)
    requires Exec(steps, ttl).Some?
    ensures Inv(Exec(steps, ttl).value)
  {
    hide Inv, After, Enabled;
    if steps == [] {
      InitInv();
    } else {
      RunKeepsInv(steps[..|steps| - 1], ttl);
      StepKeepsInv(Exec(steps[..|steps| - 1], ttl).value, steps[|steps| - 1], ttl);
    }
  }

  lemma InitInv()
    ensures Inv(INIT)
  {
  }

  /** No channel is closed twice or sent to after close, registered channels are open, an open channel is
      registered unless its id was drawn again, and no buffer holds more than ten events. */
  lemma ChannelsAreSafe(steps: seq<Step>, ttl: int)
    requires Exec(steps, ttl).Some?
    ensures var s := Exec(steps, ttl).value;
            && !s.panicked
            && (forall id | id in s.table :: s.table[id] < |s.subs| && s.subs[s.table[id]].open)
            && (forall n | 0 <= n < |s.subs| && s.subs[n].open ::
                  n in s.table.Values || exists m :: n < m < |s.subs| && s.subs[m].id == s.subs[n].id)
            && (forall n | 0 <= n < |s.subs| :: |s.subs[n].buf| <= 10)
  {
    RunKeepsInv(steps, ttl);
    hide SubsInv, WakesInv;
    var s := Exec(steps, ttl).value;
    hide Exec;
    forall n | 0 <= n < |s.subs| && s.subs[n].open
      ensures n in s.table.Values || exists m :: n < m < |s.subs| && s.subs[m].id == s.subs[n].id
    {
      if forall m | n < m < |s.subs| :: s.subs[m].id != s.subs[n].id {
        assert s.table[s.subs[n].id] == n;
      }
    }
    forall n | 0 <= n < |s.subs| ensures |s.subs[n].buf| <= CAPACITY {
      BufferIsSmall(s, n);
    }
  }

  lemma BufferIsSmall(s: State, n: nat)
    requires SubsInv(s) && n < |s.subs|
    ensures |s.subs[n].buf| <= CAPACITY
  {
  }

  /** A subscriber reads events of its own role only, each at most once, in the order they were put in its
      channel; one call's event comes before another's when the first call was over before the second
      began; and it misses none of its first ten. */
  lemma SubscribersReadInOrder(steps: seq<Step>, ttl: int, n: nat)
    requires Exec(steps, ttl).Some? && n < |Exec(steps, ttl).value.subs|
    ensures var s := Exec(steps, ttl).value; var sub := s.subs[n];
            && sub.read + sub.buf == sub.accepted
            && NoRepeats(sub.accepted)
            && InOrder(s.wakes, sub.accepted)
            && (forall w | w in sub.accepted :: w < |s.wakes| && s.wakes[w].role == sub.role)
            && (|sub.accepted| < 10 ==> sub.dropped == [])
  {
    RunKeepsInv(steps, ttl);
    var s := Exec(steps, ttl).value;
    hide Exec, TableInv, NoRepeats;
    assert ChannelInv(s.subs[n]) && InOrder(s.wakes, s.subs[n].accepted);
    forall w | w in s.subs[n].accepted ensures w < |s.wakes| && s.wakes[w].role == s.subs[n].role {
      var i :| 0 <= i < |s.subs[n].accepted| && s.subs[n].accepted[i] == w;
      assert WakeInv(s, w);
    }
  }

  /** A call that has returned has offered its event once to every subscriber of its role registered when it
      began, and to no other. */
  lemma FinishedCallReachedAll(steps: seq<Step>, ttl: int, w: nat, n: nat)
    requires Exec(steps, ttl).Some?
    requires var s := Exec(steps, ttl).value; w < |s.wakes| && s.wakes[w].ended.Some? && n < |s.subs|
    ensures var s := Exec(steps, ttl).value;
            n in s.wakes[w].targets <==> (w in s.subs[n].accepted) != (w in s.subs[n].dropped)
  {
    RunKeepsInv(steps, ttl);
    var s := Exec(steps, ttl).value;
    hide Exec, TableInv, NoRepeats, InOrder;
    assert WakeInv(s, w) && ChannelInv(s.subs[n]);
  }

  lemma CallsKeepTheirTargets(s: State, step: Step, ttl: int)
    requires Inv(s) && Enabled(s, step)
    ensures var t := After(s, step, ttl);
            |s.wakes| <= |t.wakes| && forall w | 0 <= w < |s.wakes| :: t.wakes[w].targets == s.wakes[w].targets
  {
    hide Inv;
  }

  /** The same of the subscribers as they stood when the call began: what it has offered its event to in the
      end are the subscriptions registered then for its role. */
  lemma {:induction false} CallReachesTheRegistered(prior: seq<Step>, role: string, later: seq<Step>, ttl: int)
    requires Exec(prior, ttl).Some? && Exec(prior + [BeginWake(role)] + later, ttl).Some?
    ensures var s, t := Exec(prior, ttl).value, Exec(prior + [BeginWake(role)] + later, ttl).value;
            var w := |s.wakes|;
            && w < |t.wakes|
            && (forall n: nat :: n in t.wakes[w].targets <==>
                  n < |s.subs| && s.subs[n].role == role && n in s.table.Values)
            && (t.wakes[w].ended.Some? ==> forall n | 0 <= n < |t.subs| ::
                  ((w in t.subs[n].accepted) != (w in t.subs[n].dropped)) <==>
                  (n < |s.subs| && s.subs[n].role == role && n in s.table.Values))
  {
    TargetsOfCall(prior, role, later, ttl);
    var steps, w := prior + [BeginWake(role)] + later, |Exec(prior, ttl).value.wakes|;
    var t := Exec(steps, ttl).value;
    hide Exec;
    if t.wakes[w].ended.Some? {
      forall n | 0 <= n < |t.subs|
        ensures n in t.wakes[w].targets <==> (w in t.subs[n].accepted) != (w in t.subs[n].dropped)
      {
        FinishedCallReachedAll(steps, ttl, w, n);
      }
    }
  }

  lemma {:induction false} TargetsOfCall(prior: seq<Step>, role: string, later: seq<Step>, ttl: int)
    requires Exec(prior, ttl).Some? && Exec(prior + [BeginWake(role)] + later, ttl).Some?
    ensures var s, t := Exec(prior, ttl).value, Exec(prior + [BeginWake(role)] + later, ttl).value;
            |s.wakes| < |t.wakes| && t.wakes[|s.wakes|].targets == Targets(s.table, s.subs, role)
  {
    var steps := prior + [BeginWake(role)] + later;
    if later == [] {
      assert steps[..|steps| - 1] == prior;
    } else {
      hide After, Inv, Enabled, Targets;
      var front := prior + [BeginWake(role)] + later[..|later| - 1];
      assert steps[..|steps| - 1] == front;
      TargetsOfCall(prior, role, later[..|later| - 1], ttl);
      RunKeepsInv(front, ttl);
      CallsKeepTheirTargets(Exec(front, ttl).value, later[|later| - 1], ttl);
    }
  }

  // Two subscribers of one role, and two calls under way at once.

  const TWO := map["a" := 0, "b" := 1]

  function Loaded(id: string, buf: seq<nat>): Sub {
    Sub(id, "r", 0, true, buf, buf, [], [])
  }

  function Under(todo: set<nat>, begun: nat): Wake {
    Wake("r", {0, 1}, todo, begun, None)
  }

  function Both(a: seq<nat>, b: seq<nat>, first: set<nat>, second: set<nat>, time: nat): State {
    State(TWO, [Loaded("a", a), Loaded("b", b)], [Under(first, 2), Under(second, 3)], time, false)
  }

  lemma TwoSubscribers(ttl: int) returns (steps: seq<Step>)
    ensures Exec(steps, ttl) == Some(State(TWO, [Loaded("a", []), Loaded("b", [])], [], 2, false))
  {
    var s := INIT;
    s, steps := Extend([], s, Subscribe("a", "r", 0), ttl);
    s, steps := Extend(steps, s, Subscribe("b", "r", 0), ttl);
    assert s.table == TWO && s.subs == [Loaded("a", []), Loaded("b", [])];
  }

  lemma BothAreTargets()
    ensures Targets(TWO, [Loaded("a", []), Loaded("b", [])], "r") == {0, 1}
  {
    assert TWO["a"] == 0 && TWO["b"] == 1;
  }

  lemma TwoCalls(ttl: int) returns (steps: seq<Step>)
    ensures Exec(steps, ttl) == Some(Both([], [], {0, 1}, {0, 1}, 4))
  {
    steps := TwoSubscribers(ttl);
    var s := Exec(steps, ttl).value;
    BothAreTargets();
    hide Exec, TWO, Targets, Loaded;
    s, steps := Extend(steps, s, BeginWake("r"), ttl);
    s, steps := Extend(steps, s, BeginWake("r"), ttl);
    assert s.wakes == [Under({0, 1}, 2), Under({0, 1}, 3)];
  }

  lemma OfferIs(s: State, w: nat, n: nat, subs: seq<Sub>, wakes: seq<Wake>, ttl: int)
    requires Enabled(s, Offer(w, n)) && s.subs[n].open && |s.subs[n].buf| < CAPACITY
    requires |subs| == |s.subs| && |wakes| == |s.wakes|
    requires forall m | 0 <= m < |subs| :: subs[m] == if m == n then Offered(s.subs[n], w) else s.subs[m]
    requires forall v | 0 <= v < |wakes| ::
               wakes[v] == if v == w then s.wakes[w].(todo := s.wakes[w].todo - {n}) else s.wakes[v]
    ensures After(s, Offer(w, n), ttl) == s.(subs := subs, wakes := wakes, time := s.time + 1)
  {
    assert s.subs[n := Offered(s.subs[n], w)] == subs;
    assert s.wakes[w := s.wakes[w].(todo := s.wakes[w].todo - {n})] == wakes;
  }

  lemma OfferOne(steps: seq<Step>, a: seq<nat>, b: seq<nat>, first: set<nat>, second: set<nat>, time: nat,
                 w: nat, n: nat, ttl: int) returns (longer: seq<Step>)
    requires Exec(steps, ttl) == Some(Both(a, b, first, second, time)) && w < 2 && n < 2
    requires n in (if w == 0 then first else second) && |if n == 0 then a else b| < CAPACITY
    ensures Exec(longer, ttl) == Some(Both(if n == 0 then a + [w] else a, if n == 1 then b + [w] else b,
                                           if w == 0 then first - {n} else first,
                                           if w == 1 then second - {n} else second, time + 1))
  {
    hide Exec, After;
    var s := Both(a, b, first, second, time);
    var t := Both(if n == 0 then a + [w] else a, if n == 1 then b + [w] else b,
                  if w == 0 then first - {n} else first, if w == 1 then second - {n} else second, time + 1);
    OfferIs(s, w, n, t.subs, t.wakes, ttl);
    var after;
    after, longer := Extend(steps, s, Offer(w, n), ttl);
  }

  /** Two calls under way at once may reach two subscribers in opposite orders. */
  lemma SubscribersMayDisagree(ttl: int) returns (steps: seq<Step>)
    ensures Exec(steps, ttl).Some?
    ensures var subs := Exec(steps, ttl).value.subs;
            |subs| == 2 && subs[0].role == subs[1].role && subs[0].accepted == [0, 1] && subs[1].accepted == [1, 0]
  {
    hide Exec;
    steps := TwoCalls(ttl);
    steps := OfferOne(steps, [], [], {0, 1}, {0, 1}, 4, 0, 0, ttl);
    steps := OfferOne(steps, [] + [0], [], {0, 1} - {0}, {0, 1}, 5, 1, 1, ttl);
    steps := OfferOne(steps, [] + [0], [] + [1], {0, 1} - {0}, {0, 1} - {1}, 6, 1, 0, ttl);
    steps := OfferOne(steps, [] + [0] + [1], [] + [1], {0, 1} - {0}, {0, 1} - {1} - {0}, 7, 0, 1, ttl);
  }

  lemma Extend(steps: seq<Step>, s: State, step: Step, ttl: int) returns (t: State, longer: seq<Step>)
    requires Exec(steps, ttl) == Some(s) && Enabled(s, step)
    ensures t == After(s, step, ttl) && longer == steps + [step] && Exec(longer, ttl) == Some(t)
  {
    t, longer := After(s, step, ttl), steps + [step];
    assert longer[..|steps|] == steps;
  }

  ghost predicate TookBefore(sub: Sub, w: nat, v: nat) {
    exists i, j :: 0 <= i < j < |sub.accepted| && sub.accepted[i] == w && sub.accepted[j] == v
  }

  ghost predicate Overlap(w: Wake, v: Wake) {
    && (w.ended.Some? ==> v.begun < w.ended.value)
    && (v.ended.Some? ==> w.begun < v.ended.value)
  }

  /** They do so only for calls that overlap: each began before the other was over. */
  lemma DisagreementMeansOverlap(steps: seq<Step>, ttl: int, m: nat, n: nat, w: nat, v: nat)
    requires Exec(steps, ttl).Some?
    requires var subs := Exec(steps, ttl).value.subs;
             m < |subs| && n < |subs| && TookBefore(subs[m], w, v) && TookBefore(subs[n], v, w)
    ensures var wakes := Exec(steps, ttl).value.wakes;
            w < |wakes| && v < |wakes| && Overlap(wakes[w], wakes[v])
  {
    hide Exec, NoRepeats;
    SubscribersReadInOrder(steps, ttl, m);
    SubscribersReadInOrder(steps, ttl, n);
    var s := Exec(steps, ttl).value;
    var i, j :| 0 <= i < j < |s.subs[m].accepted| && s.subs[m].accepted[i] == w && s.subs[m].accepted[j] == v;
    var k, l :| 0 <= k < l < |s.subs[n].accepted| && s.subs[n].accepted[k] == v && s.subs[n].accepted[l] == w;
  }

  // ----- Staying registered -----

  /** A sweep ends exactly the subscriptions that were silent for more than three heartbeat intervals: they
      are forgotten and their channels closed, and the others are left as they were. */
  lemma SweepEndsTheSilent(s: State, now: int, ttl: int)
    requires Inv(s) && Idle(s)
    ensures var t := After(s, Step.Sweep(now), ttl);
            && |t.subs| == |s.subs| && t.table.Keys <= s.table.Keys
            && (forall id | id in s.table ::
                  && s.table[id] < |s.subs|
                  && if now - s.subs[s.table[id]].lastHeart > 3 * ttl
                     then id !in t.table && t.subs[s.table[id]] == s.subs[s.table[id]].(open := false)
                     else id in t.table && t.table[id] == s.table[id] && t.subs[s.table[id]] == s.subs[s.table[id]])
            && (forall n | 0 <= n < |s.subs| && n !in s.table.Values :: t.subs[n] == s.subs[n])
  {
    var dead := Dead(s.table, s.subs, now, ttl);
    forall id | id in s.table
      ensures s.table[id] < |s.subs| && (id !in dead ==> forall other | other in dead :: s.table[other] != s.table[id])
    {
      NumbersDiffer(s, id);
    }
    hide Inv;
  }

  lemma NumbersDiffer(s: State, id: string)
    requires Inv(s) && id in s.table
    ensures s.table[id] < |s.subs|
    ensures forall other | other in s.table && other != id :: s.table[other] != s.table[id]
  {
    hide SubsInv, WakesInv;
    forall other | other in s.table && other != id ensures s.table[other] != s.table[id] {
      assert s.subs[s.table[other]].id == other;
    }
  }

  /** The step leaves the subscriber alone, unless it is a heartbeat no earlier than `heart`, or a sweep not
      more than three heartbeat intervals after it. */
  ghost predicate Spares(step: Step, id: string, heart: int, ttl: int) {
    match step
    case Subscribe(other, _, _) => other != id
    case Unsubscribe(other) => other != id
    case Heartbeat(other, now) => other == id ==> now >= heart
    case Sweep(now) => now - heart <= 3 * ttl
    case _ => true
  }

  ghost predicate Alive(s: State, id: string, n: nat, heart: int) {
    id in s.table && s.table[id] == n && n < |s.subs| && s.subs[n].open && s.subs[n].lastHeart >= heart
  }

  lemma SparedStaysAlive(s: State, step: Step, ttl: int, id: string, n: nat, heart: int)
    requires Inv(s) && Enabled(s, step) && Alive(s, id, n, heart) && Spares(step, id, heart, ttl)
    ensures Alive(After(s, step, ttl), id, n, heart)
  {
    hide SubsInv, WakesInv;
  }

  /** While its heartbeats come in time, nobody but Unsubscribe ends a subscription. */
  lemma {:induction false} HeartbeatsKeepAlive(prior: seq<Step>, later: seq<Step>, ttl: int, id: string, n: nat, heart: int)
    requires Exec(prior + later, ttl).Some? && Exec(prior, ttl).Some?
    requires Alive(Exec(prior, ttl).value, id, n, heart)
    requires forall step | step in later :: Spares(step, id, heart, ttl)
    ensures Alive(Exec(prior + later, ttl).value, id, n, heart)
  {
    hide Alive, Spares, Enabled, After;
    if later == [] {
      assert prior + later == prior;
    } else {
      var front := later[..|later| - 1];
      assert (prior + later)[..|prior + later| - 1] == prior + front;
      HeartbeatsKeepAlive(prior, front, ttl, id, n, heart);
      RunKeepsInv(prior + front, ttl);
      SparedStaysAlive(Exec(prior + front, ttl).value, later[|later| - 1], ttl, id, n, heart);
    }
  }

  // ----- The broker -----

  class Broker {
    const ttl: int
    var table: map<string, nat>
    var subs: seq<Sub>
    var wakes: seq<Wake>
    var time: nat

    ghost function View(): State
      reads this
    {
      State(table, subs, wakes, time, false)
    }

    constructor (ttl: int)
      ensures View() == INIT && this.ttl == ttl
    {
      this.ttl, table, subs, wakes, time := ttl, map[], [], [], 0;
    }

    method Subscribe(id: string, role: string, now: int) returns (n: nat)
      requires Inv(View()) && Idle(View())
      modifies this
      ensures Inv(View()) && View() == After(old(View()), Step.Subscribe(id, role, now), ttl)
      ensures n == |old(subs)| && table == old(table)[id := n]
      ensures subs == old(subs) + [Sub(id, role, now, true, [], [], [], [])] && wakes == old(wakes)
    {
      StepKeepsInv(View(), Step.Subscribe(id, role, now), ttl);
      n := |subs|;
      subs := subs + [Sub(id, role, now, true, [], [], [], [])];
      table := table[id := n];
      time := time + 1;
    }

    method Unsubscribe(id: string)
      requires Inv(View()) && Idle(View())
      modifies this
      ensures Inv(View()) && View() == After(old(View()), Step.Unsubscribe(id), ttl)
      ensures table == old(table) - {id} && |subs| == |old(subs)| && wakes == old(wakes)
      ensures forall n | 0 <= n < |subs| ::
                subs[n] == if id in old(table) && n == old(table)[id] then old(subs)[n].(open := false) else old(subs)[n]
    {
      hide Inv, After, Idle;
      UnsubscribeIs(View(), id, ttl);
      if id in table {
        Close(id);
      }
      time := time + 1;
    }

    /** close(sub.Ch) and delete(b.subs, id). */
    method Close(id: string)
      requires id in table && table[id] < |subs| && subs[table[id]].open
      modifies this`table, this`subs
      ensures table == old(table) - {id} && subs == CloseAt(old(subs), {old(table)[id]})
    {
      var n := table[id];
      subs := subs[n := subs[n].(open := false)];
      table := table - {id};
    }

    method Heartbeat(id: string, now: int) returns (ok: bool)
      requires Inv(View())
      modifies this
      ensures Inv(View()) && View() == After(old(View()), Step.Heartbeat(id, now), ttl)
      ensures ok == (id in old(table)) && table == old(table) && wakes == old(wakes) && |subs| == |old(subs)|
      ensures forall n | 0 <= n < |subs| ::
                subs[n] == if ok && n == table[id] then old(subs)[n].(lastHeart := now) else old(subs)[n]
    {
      hide Inv, After;
      HeartbeatIs(View(), id, now, ttl);
      ok := id in table;
      if ok {
        var n := table[id];
        subs := subs[n := subs[n].(lastHeart := now)];
      }
      time := time + 1;
    }

    /** One tick of the janitor. */
    method Sweep(now: int)
      requires Inv(View()) && Idle(View())
      modifies this
      ensures Inv(View()) && View() == After(old(View()), Step.Sweep(now), ttl)
      ensures forall id :: id in table <==>
                id in old(table) && old(table)[id] < |old(subs)| && now - old(subs)[old(table)[id]].lastHeart <= 3 * ttl
      ensures forall id | id in table :: table[id] == old(table)[id]
    {
      hide Inv, After, Idle, Swept, Expired;
      ghost var s := View();
      var rest := table.Keys;
      SweptAtFirst(s, now, ttl);
      while |rest| > 0
        invariant rest <= s.table.Keys
        invariant View() == Swept(s, s.table.Keys - rest, now, ttl)
        decreases |rest|
      {
        var id :| id in rest;
        SweptOneMore(s, rest, id, now, ttl);
        if Expired(subs[table[id]], now, ttl) {
          Close(id);
        }
        rest := rest - {id};
      }
      assert s.table.Keys - rest == s.table.Keys;
      assert View() == Swept(s, s.table.Keys, now, ttl);
      SweptAtLast(s, now, ttl);
      SweepEndsTheSilent(s, now, ttl);
      time := time + 1;
    }

    /** One WakeActive call with no other under way beside it: every subscriber registered for the role is
        offered the event once, whatever order the map is gone through in. */
    method WakeActive(role: string) returns (w: nat)
      requires Inv(View())
      modifies this
      ensures Inv(View()) && w == |old(wakes)| && table == old(table)
      ensures var targets := Targets(table, old(subs), role);
              && time > 0 && wakes == old(wakes) + [Wake(role, targets, {}, old(time), Some(time - 1))]
              && AllOffered(old(subs), subs, targets, w)
      ensures Notified(table, old(subs), subs, role, w)
    {
      hide Inv, After, HalfWoken, AllOffered, Targets, Notified;
      ghost var s := View();
      w := |wakes|;
      wakes := wakes + [Wake(role, Targets(table, subs, role), Targets(table, subs, role), time, None)];
      time := time + 1;
      var rest := table.Keys;
      WokenAtFirst(s, role, ttl);
      while |rest| > 0
        invariant rest <= s.table.Keys
        invariant HalfWoken(s, View(), rest, role)
        decreases |rest|
      {
        var id :| id in rest;
        WokenOneMore(s, View(), rest, id, role, ttl);
        var n := table[id];
        if subs[n].role == role {
          subs := subs[n := Offered(subs[n], w)];
          wakes := wakes[w := wakes[w].(todo := wakes[w].todo - {n})];
          time := time + 1;
        }
        rest := rest - {id};
      }
      WokenAtLast(s, View(), role, ttl);
      OfferedMeansNotified(table, s.subs, subs, role, w);
      wakes := wakes[w := wakes[w].(ended := Some(time))];
      time := time + 1;
    }
  }

  lemma UnsubscribeIs(s: State, id: string, ttl: int)
    requires Inv(s) && Idle(s)
    ensures id in s.table ==> s.table[id] < |s.subs| && s.subs[s.table[id]].open
    ensures var t := After(s, Step.Unsubscribe(id), ttl);
            && Inv(t)
            && t == if id in s.table
                    then s.(table := s.table - {id}, subs := CloseAt(s.subs, {s.table[id]}), time := s.time + 1)
                    else s.(time := s.time + 1)
    ensures id !in s.table ==> s.table - {id} == s.table
  {
    StepKeepsInv(s, Step.Unsubscribe(id), ttl);
    hide SubsInv, WakesInv;
  }

  lemma HeartbeatIs(s: State, id: string, now: int, ttl: int)
    requires Inv(s)
    ensures id in s.table ==> s.table[id] < |s.subs|
    ensures var t := After(s, Step.Heartbeat(id, now), ttl);
            && Inv(t)
            && t == if id in s.table
                    then s.(subs := s.subs[s.table[id] := s.subs[s.table[id]].(lastHeart := now)], time := s.time + 1)
                    else s.(time := s.time + 1)
  {
    StepKeepsInv(s, Step.Heartbeat(id, now), ttl);
    hide SubsInv, WakesInv;
  }

  ghost predicate AllOffered(before: seq<Sub>, after: seq<Sub>, targets: set<nat>, w: nat) {
    && |after| == |before|
    && forall n | 0 <= n < |before| :: after[n] == if n in targets then Offered(before[n], w) else before[n]
  }

  /** Every registered subscriber of the role has the event at the end of its channel, or lost it because
      ten were waiting there; the others are as they were. */
  ghost predicate Notified(table: map<string, nat>, before: seq<Sub>, after: seq<Sub>, role: string, w: nat) {
    && |after| == |before|
    && forall n | 0 <= n < |before| ::
         after[n] == if n !in table.Values || before[n].role != role then before[n]
                     else if |before[n].buf| >= 10 then before[n].(dropped := before[n].dropped + [w])
                     else before[n].(buf := before[n].buf + [w], accepted := before[n].accepted + [w])
  }

  lemma OfferedMeansNotified(table: map<string, nat>, before: seq<Sub>, after: seq<Sub>, role: string, w: nat)
    requires AllOffered(before, after, Targets(table, before, role), w)
    ensures Notified(table, before, after, role, w)
  {
  }

  /** A call for the role that began in s has still to look at the subscriptions of `rest`. */
  ghost predicate HalfWoken(s: State, t: State, rest: set<string>, role: string) {
    var w, targets := |s.wakes|, Targets(s.table, s.subs, role);
    && rest <= s.table.Keys && Inv(t) && t.table == s.table && |t.wakes| == w + 1
    && t.wakes == s.wakes + [Wake(role, targets, TodoOf(s, rest, role), s.time, None)]
    && AllOffered(s.subs, t.subs, targets - TodoOf(s, rest, role), w)
  }

  ghost function TodoOf(s: State, rest: set<string>, role: string): set<nat> {
    set id | id in rest && id in s.table && s.table[id] < |s.subs| && s.subs[s.table[id]].role == role :: s.table[id]
  }

  lemma WokenAtFirst(s: State, role: string, ttl: int)
    requires Inv(s) && !s.panicked
    ensures var targets := Targets(s.table, s.subs, role);
            HalfWoken(s, s.(wakes := s.wakes + [Wake(role, targets, targets, s.time, None)], time := s.time + 1),
                      s.table.Keys, role)
  {
    StepKeepsInv(s, BeginWake(role), ttl);
    hide Inv;
    assert TodoOf(s, s.table.Keys, role) == Targets(s.table, s.subs, role);
  }

  lemma AfterOffer(t: State, w: nat, n: nat, ttl: int)
    requires Inv(t) && Enabled(t, Offer(w, n))
    ensures After(t, Offer(w, n), ttl)
            == t.(subs := t.subs[n := Offered(t.subs[n], w)],
                  wakes := t.wakes[w := t.wakes[w].(todo := t.wakes[w].todo - {n})], time := t.time + 1)
    ensures Inv(After(t, Offer(w, n), ttl))
  {
    StepKeepsInv(t, Offer(w, n), ttl);
    hide TableInv, SubsInv, WakesInv;
  }

  lemma TodoOneLess(s: State, rest: set<string>, id: string, role: string)
    requires TableInv(s) && rest <= s.table.Keys && id in rest
    ensures s.table[id] < |s.subs|
    ensures TodoOf(s, rest - {id}, role) == TodoOf(s, rest, role) - {s.table[id]}
    ensures s.table[id] in TodoOf(s, rest, role) <==> s.subs[s.table[id]].role == role
    ensures TodoOf(s, rest, role) <= Targets(s.table, s.subs, role)
  {
    forall other | other in rest - {id} ensures s.table[other] != s.table[id] {
      assert s.subs[s.table[other]].id == other;
    }
  }

  lemma OfferedOneMore(before: seq<Sub>, after: seq<Sub>, targets: set<nat>, n: nat, w: nat)
    requires AllOffered(before, after, targets, w) && n < |before| && n !in targets
    ensures AllOffered(before, after[n := Offered(after[n], w)], targets + {n}, w)
  {
  }

  lemma WokenOneMore(s: State, t: State, rest: set<string>, id: string, role: string, ttl: int)
    requires Inv(s) && HalfWoken(s, t, rest, role) && id in rest
    ensures id in t.table && t.table[id] < |t.subs| && |t.wakes| == |s.wakes| + 1 && t.table == s.table
    ensures var w, n := |s.wakes|, t.table[id];
            var u := if t.subs[n].role == role
                     then t.(subs := t.subs[n := Offered(t.subs[n], w)],
                             wakes := t.wakes[w := t.wakes[w].(todo := t.wakes[w].todo - {n})], time := t.time + 1)
                     else t;
            HalfWoken(s, u, rest - {id}, role)
  {
    TodoOneLess(s, rest, id, role) by { TableOf(s); }
    hide Inv, Targets, TodoOf, After;
    var w, n, targets, todo := |s.wakes|, t.table[id], Targets(s.table, s.subs, role), TodoOf(s, rest, role);
    assert t.subs[n].role == s.subs[n].role;
    if n in todo {
      AfterOffer(t, w, n, ttl);
      OfferedOneMore(s.subs, t.subs, targets - todo, n, w);
      assert targets - todo + {n} == targets - (todo - {n});
    } else {
      assert todo - {n} == todo;
    }
  }

  lemma TableOf(s: State)
    requires Inv(s)
    ensures TableInv(s)
  {
  }

  lemma WokenAtLast(s: State, t: State, role: string, ttl: int)
    requires HalfWoken(s, t, {}, role)
    ensures var w, targets := |s.wakes|, Targets(s.table, s.subs, role);
            && |t.wakes| == w + 1 && t.table == s.table
            && Inv(t.(wakes := t.wakes[w := t.wakes[w].(ended := Some(t.time))], time := t.time + 1))
            && t.wakes[w := t.wakes[w].(ended := Some(t.time))]
               == s.wakes + [Wake(role, targets, {}, s.time, Some(t.time))]
            && AllOffered(s.subs, t.subs, targets, w)
  {
    var w, targets := |s.wakes|, Targets(s.table, s.subs, role);
    assert TodoOf(s, {}, role) == {};
    hide Inv, Targets, TodoOf;
    assert targets - {} == targets;
    StepKeepsInv(t, EndWake(w), ttl);
  }

  ghost function Numbers(table: map<string, nat>, ids: set<string>): set<nat>
    requires ids <= table.Keys
  {
    set id | id in ids :: table[id]
  }

  ghost function DeadOf(s: State, ids: set<string>, now: int, ttl: int): (dead: set<string>)
    requires ids <= s.table.Keys
    ensures dead <= ids
  {
    set id | id in ids && s.table[id] < |s.subs| && Expired(s.subs[s.table[id]], now, ttl)
  }

  /** The sweep after it has looked at `ids`. */
  ghost function Swept(s: State, ids: set<string>, now: int, ttl: int): (t: State)
    requires ids <= s.table.Keys
    ensures t.time == s.time
  {
    var dead := DeadOf(s, ids, now, ttl);
    s.(table := s.table - dead, subs := CloseAt(s.subs, Numbers(s.table, dead)))
  }

  lemma SweptAtFirst(s: State, now: int, ttl: int)
    ensures Swept(s, s.table.Keys - s.table.Keys, now, ttl) == s
  {
    assert DeadOf(s, s.table.Keys - s.table.Keys, now, ttl) == {};
    assert Numbers(s.table, {}) == {};
    assert s.table - {} == s.table && CloseAt(s.subs, {}) == s.subs;
  }

  lemma StillOpen(s: State, closed: set<string>, id: string)
    requires Inv(s) && closed <= s.table.Keys && id in s.table && id !in closed
    ensures var n := s.table[id]; n < |s.subs| && n !in Numbers(s.table, closed) && s.subs[n].open
  {
    hide SubsInv, WakesInv;
    forall other | other in closed ensures s.table[other] != s.table[id] {
      assert s.subs[s.table[other]].id == other;
    }
  }

  lemma SweptOneMore(s: State, rest: set<string>, id: string, now: int, ttl: int)
    requires Inv(s) && rest <= s.table.Keys && id in rest
    ensures var t := Swept(s, s.table.Keys - rest, now, ttl);
            && id in t.table && t.table[id] < |t.subs| && t.subs[t.table[id]].open
            && Swept(s, s.table.Keys - (rest - {id}), now, ttl)
               == if Expired(t.subs[t.table[id]], now, ttl)
                  then t.(table := t.table - {id}, subs := CloseAt(t.subs, {t.table[id]})) else t
  {
    hide Inv, Expired;
    var dead := DeadOf(s, s.table.Keys - rest, now, ttl);
    StillOpen(s, dead, id);
    DeadOneMore(s, rest, id, now, ttl);
    hide DeadOf, Numbers;
    ClosingOneMore(s.subs, s.table, dead, id);
    assert dead + {} == dead;
  }

  lemma DeadOneMore(s: State, rest: set<string>, id: string, now: int, ttl: int)
    requires rest <= s.table.Keys && id in rest && s.table[id] < |s.subs|
    ensures DeadOf(s, s.table.Keys - (rest - {id}), now, ttl)
            == DeadOf(s, s.table.Keys - rest, now, ttl)
               + (if Expired(s.subs[s.table[id]], now, ttl) then {id} else {})
  {
  }

  lemma ClosingOneMore(subs: seq<Sub>, table: map<string, nat>, closed: set<string>, id: string)
    requires closed <= table.Keys && id in table
    ensures CloseAt(CloseAt(subs, Numbers(table, closed)), {table[id]})
            == CloseAt(subs, Numbers(table, closed + {id}))
    ensures table - closed - {id} == table - (closed + {id})
  {
    assert Numbers(table, closed + {id}) == Numbers(table, closed) + {table[id]};
  }

  lemma SweptAtLast(s: State, now: int, ttl: int)
    requires Inv(s) && Idle(s)
    ensures After(s, Step.Sweep(now), ttl) == Swept(s, s.table.Keys, now, ttl).(time := s.time + 1)
    ensures Inv(After(s, Step.Sweep(now), ttl))
  {
    StepKeepsInv(s, Step.Sweep(now), ttl);
    hide Inv;
    var dead := DeadOf(s, s.table.Keys, now, ttl);
    assert dead == Dead(s.table, s.subs, now, ttl);
    assert Numbers(s.table, dead) == set id | id in dead :: s.table[id];
  }
}
