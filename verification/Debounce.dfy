/** Exact debounce timing. Timers are urgent here: time does not pass an armed
    deadline, and an event that arrives at such an instant comes after the callback
    (no callback waits while an event overtakes it). Under those rules the batches
    flushed for a group are the one partition of its arrivals that `IsPartition`
    describes, and each batch is flushed at the instant it closes. */
module Debounce {
  import opened Domain
  import opened EngineModel

  /** An event with its time of arrival; `id` numbers arrivals. */
  datatype Arrival = Arrival(at: int, ev: Event, id: nat)

  // ----- the declarative side -----

  function Earlier(a: int, b: int): (e: int)
    ensures e <= a && e <= b && (e == a || e == b)
  {
    if a < b then a else b
  }

  /** The instant a batch closes: its age limit or the end of the silence after its
      last event, whichever comes first. */
  function CloseAt(cfg: EngineConfig, batch: seq<Arrival>): (at: int)
    requires batch != []
    ensures 0 <= cfg.maxWait && 0 <= cfg.idleWindow ==>
      at == Earlier(batch[0].at + cfg.maxWait, batch[|batch| - 1].at + cfg.idleWindow)
    ensures cfg.maxWait < 0 ==> at <= batch[0].at
    ensures cfg.idleWindow < 0 ==> at <= batch[|batch| - 1].at
  {
    Earlier(batch[0].at + Delay(cfg.maxWait), batch[|batch| - 1].at + Delay(cfg.idleWindow))
  }

  /** Each event came before the batch so far would have closed. */
  predicate Unbroken(cfg: EngineConfig, batch: seq<Arrival>) {
    forall i :: 0 < i < |batch| ==> batch[i].at < CloseAt(cfg, batch[..i])
  }

  /** The batches are consecutive stretches of the arrivals; within one, events keep
      coming in time; the next starts with the first event that came too late. */
  predicate IsPartition(cfg: EngineConfig, arrivals: seq<Arrival>, batches: seq<seq<Arrival>>) {
    if batches == [] then arrivals == []
    else
      var first := batches[0];
      && first != [] && first <= arrivals
      && Unbroken(cfg, first)
      && (|first| < |arrivals| ==> arrivals[|first|].at >= CloseAt(cfg, first))
      && IsPartition(cfg, arrivals[|first|..], batches[1..])
  }

  /** There is at most one such partition. */
  lemma {:induction false} PartitionUnique(cfg: EngineConfig, arrivals: seq<Arrival>, xs: seq<seq<Arrival>>,
                                           ys: seq<seq<Arrival>>)
    requires IsPartition(cfg, arrivals, xs) && IsPartition(cfg, arrivals, ys)
    ensures xs == ys
    decreases |xs|
  {
    if xs != [] && ys != [] {
      SameFirst(cfg, arrivals, xs[0], ys[0]);
      SameFirst(cfg, arrivals, ys[0], xs[0]);
      assert xs[0] == arrivals[..|xs[0]|] == ys[0];
      PartitionUnique(cfg, arrivals[|xs[0]|..], xs[1..], ys[1..]);
      assert xs == [xs[0]] + xs[1..] && ys == [ys[0]] + ys[1..];
    }
  }

  lemma SameFirst(cfg: EngineConfig, arrivals: seq<Arrival>, x: seq<Arrival>, y: seq<Arrival>)
    requires x != [] && x <= arrivals && y != [] && y <= arrivals && Unbroken(cfg, y)
    requires |x| < |arrivals| ==> arrivals[|x|].at >= CloseAt(cfg, x)
    ensures |y| <= |x|
  {
    assert |x| <= |y| ==> y[..|x|] == x;
  }

  // ----- the timed engine -----

  /** A flush: when, what the engine took, and the arrivals it consists of. */
  datatype Closed = Closed(at: int, snapshot: Snapshot, arrivals: seq<Arrival>)

  /** The engine with a record of arrivals and flushes beside it. */
  datatype State = State(engine: Engine, open: map<string, seq<Arrival>>, log: seq<Closed>, history: seq<Arrival>)

  datatype Action = Arrive(ev: Event) | Fire(timer: nat) | Advance(to: int)

  function Initial(now: int): State {
    State(Engine(map[], [], now), map[], [], [])
  }

  predicate Pending(timers: seq<Timer>, i: nat) {
    i < |timers| && timers[i].status == Armed
  }

  ghost predicate Enabled(s: State, a: Action) {
    match a
    case Arrive(_) => forall i: nat :: Pending(s.engine.timers, i) ==> s.engine.timers[i].deadline > s.engine.now
    case Fire(i) => Pending(s.engine.timers, i) && s.engine.timers[i].deadline == s.engine.now
    case Advance(to) => s.engine.now < to && forall i: nat :: Pending(s.engine.timers, i) ==>
        to <= s.engine.timers[i].deadline
  }

  function OpenOf(s: State, g: string): seq<Arrival> {
    if g in s.open then s.open[g] else []
  }

  /** An event arrives and is recorded. */
  function Arrived(cfg: EngineConfig, s: State, ev: Event): State {
    var arrival := Arrival(s.engine.now, ev, |s.history|);
    State(Ingest(cfg, s.engine, ev), s.open[ev.groupKey := OpenOf(s, ev.groupKey) + [arrival]],
          s.log, s.history + [arrival])
  }

  /** The callback of timer `i` runs, and what it takes is recorded. */
  function Taken(s: State, i: nat): State
    requires i < |s.engine.timers|
  {
    var (engine, snap) := Callback(s.engine, i);
    if snap.None? then s.(engine := engine)
    else
      var g := snap.value.groupKey;
      State(engine, s.open[g := []], s.log + [Closed(s.engine.now, snap.value, OpenOf(s, g))], s.history)
  }

  ghost function Apply(cfg: EngineConfig, s: State, a: Action): State
    requires Enabled(s, a)
  {
    match a
    case Arrive(ev) => Arrived(cfg, s, ev)
    case Fire(i) => Taken(s, i)
    case Advance(to) => s.(engine := s.engine.(now := to))
  }

  ghost function Run(cfg: EngineConfig, start: int, actions: seq<Action>): Option<State> {
    if actions == [] then Some(Initial(start))
    else
      var before := Run(cfg, start, actions[..|actions| - 1]);
      var a := actions[|actions| - 1];
      if before.Some? && Enabled(before.value, a) then Some(Apply(cfg, before.value, a)) else None
  }

  // ----- reading a run -----

  function ArrivalsOf(history: seq<Arrival>, g: string): seq<Arrival> {
    if history == [] then [] else
      var last := history[|history| - 1];
      ArrivalsOf(history[..|history| - 1], g) + (if last.ev.groupKey == g then [last] else [])
  }

  function BatchesOf(log: seq<Closed>, g: string): seq<seq<Arrival>> {
    if log == [] then [] else
      var last := log[|log| - 1];
      BatchesOf(log[..|log| - 1], g) + (if last.snapshot.groupKey == g then [last.arrivals] else [])
  }

  /** The buckets that ingesting these arrivals fills. */
  function Bucketize(arrivals: seq<Arrival>): Buckets {
    if arrivals == [] then map[]
    else Append(Bucketize(arrivals[..|arrivals| - 1]), arrivals[|arrivals| - 1].ev)
  }

  function WithOpen(batches: seq<seq<Arrival>>, open: seq<Arrival>): seq<seq<Arrival>> {
    if open == [] then batches else batches + [open]
  }

  // ----- the invariant -----

  predicate ArmedFor(timers: seq<Timer>, now: int, handle: Option<nat>, g: string, deadline: int) {
    && handle.Some? && Pending(timers, handle.value)
    && timers[handle.value].groupKey == g && timers[handle.value].deadline == deadline && now <= deadline
  }

  predicate BatchOk(cfg: EngineConfig, b: seq<Arrival>, now: int)
    requires b != []
  {
    Unbroken(cfg, b) && b[|b| - 1].at <= now && forall i, j :: 0 <= i < j < |b| ==> b[i].at <= b[j].at
  }

  /** The armed timers of the group are those in its timer fields, if a batch is open. */
  ghost predicate Owned(timers: seq<Timer>, group: Group, open: bool, g: string) {
    forall i: nat :: Pending(timers, i) && timers[i].groupKey == g ==>
      open && (group.hardTimer == Some(i) || group.idleTimer == Some(i))
  }

  /** The open batch of a group is what its buckets hold, and its two timers are the
      only armed ones of the group, set for the two instants of `CloseAt`. */
  ghost predicate Timed(cfg: EngineConfig, timers: seq<Timer>, now: int, group: Group, b: seq<Arrival>, g: string) {
    && group.buckets == Bucketize(b)
    && (b != [] ==>
          && BatchOk(cfg, b, now)
          && ArmedFor(timers, now, group.hardTimer, g, b[0].at + Delay(cfg.maxWait))
          && ArmedFor(timers, now, group.idleTimer, g, b[|b| - 1].at + Delay(cfg.idleWindow)))
    && Owned(timers, group, b != [], g)
  }

  ghost predicate GroupTimed(cfg: EngineConfig, s: State, g: string) {
    Timed(cfg, s.engine.timers, s.engine.now, GroupOf(s.engine, g), OpenOf(s, g), g)
  }

  /** The armed timers of a group are the same in both. */
  ghost predicate SameArmed(timers: seq<Timer>, timers': seq<Timer>, g: string) {
    && (forall i: nat :: Pending(timers, i) && timers[i].groupKey == g ==>
          Pending(timers', i) && timers'[i] == timers[i])
    && (forall i: nat :: Pending(timers', i) && timers'[i].groupKey == g ==>
          Pending(timers, i) && timers'[i] == timers[i])
  }

  lemma TimedCarries(cfg: EngineConfig, timers: seq<Timer>, timers': seq<Timer>, now: int, group: Group,
                     b: seq<Arrival>, g: string)
    requires Timed(cfg, timers, now, group, b, g) && SameArmed(timers, timers', g)
    ensures Timed(cfg, timers', now, group, b, g)
  {
    hide Bucketize, BatchOk;
  }

  predicate ClosedOk(cfg: EngineConfig, s: State, c: Closed) {
    && c.arrivals != [] && c.at == CloseAt(cfg, c.arrivals) && c.at <= s.engine.now
    && c.snapshot.buckets == Bucketize(c.arrivals)
    && (forall i :: 0 <= i < |c.arrivals| ==> c.arrivals[i].at <= c.at <= c.arrivals[i].at + Delay(cfg.maxWait))
  }

  predicate Partitioned(cfg: EngineConfig, s: State, g: string) {
    IsPartition(cfg, ArrivalsOf(s.history, g), WithOpen(BatchesOf(s.log, g), OpenOf(s, g)))
  }

  ghost predicate Inv(cfg: EngineConfig, s: State) {
    && EngineModel.Inv(s.engine)
    && (forall g :: GroupTimed(cfg, s, g))
    && (forall i :: 0 <= i < |s.log| ==> ClosedOk(cfg, s, s.log[i]))
    && (forall g :: Partitioned(cfg, s, g))
  }

  // ----- growing a partition at its end -----

  lemma {:induction false} NewBatch(cfg: EngineConfig, arrivals: seq<Arrival>, batches: seq<seq<Arrival>>, a: Arrival)
    requires IsPartition(cfg, arrivals, batches)
    requires batches != [] && batches[|batches| - 1] != [] ==> a.at >= CloseAt(cfg, batches[|batches| - 1])
    ensures IsPartition(cfg, arrivals + [a], batches + [[a]])
    decreases |batches|
  {
    var all, more := arrivals + [a], batches + [[a]];
    if batches == [] {
      assert all == [a] && more[0] == [a] && more[1..] == [] && all[1..] == [];
    } else {
      var first := batches[0];
      NewBatch(cfg, arrivals[|first|..], batches[1..], a);
      assert all[|first|..] == arrivals[|first|..] + [a] && more[1..] == batches[1..] + [[a]];
      if |batches| == 1 {
        assert batches[1..] == [];
      }
    }
  }

  lemma {:induction false} LongerBatch(cfg: EngineConfig, arrivals: seq<Arrival>, batches: seq<seq<Arrival>>,
                                       b: seq<Arrival>, a: Arrival)
    requires b != [] && IsPartition(cfg, arrivals, batches + [b]) && a.at < CloseAt(cfg, b)
    ensures IsPartition(cfg, arrivals + [a], batches + [b + [a]])
    decreases |batches|
  {
    var all, old_, new_ := arrivals + [a], batches + [b], batches + [b + [a]];
    if batches == [] {
      assert old_[1..] == [] && new_[1..] == [];
      assert arrivals[|b|..] == [];
      assert arrivals == b && all == b + [a];
      forall i | 0 < i < |all| ensures all[i].at < CloseAt(cfg, all[..i]) {
        assert all[..i] == b[..i];
      }
    } else {
      var first := batches[0];
      assert old_[1..] == batches[1..] + [b] && new_[1..] == batches[1..] + [b + [a]];
      LongerBatch(cfg, arrivals[|first|..], batches[1..], b, a);
      assert all[|first|..] == arrivals[|first|..] + [a];
      NotEmpty(cfg, arrivals[|first|..], old_[1..]);
    }
  }

  lemma NotEmpty(cfg: EngineConfig, arrivals: seq<Arrival>, batches: seq<seq<Arrival>>)
    requires IsPartition(cfg, arrivals, batches) && batches != []
    ensures arrivals != []
  {
  }

  // ----- steps -----

  lemma UnbrokenSnoc(cfg: EngineConfig, b: seq<Arrival>, a: Arrival)
    requires Unbroken(cfg, b) && (b != [] ==> a.at < CloseAt(cfg, b))
    ensures Unbroken(cfg, b + [a])
  {
    forall i | 0 < i < |b + [a]| ensures (b + [a])[i].at < CloseAt(cfg, (b + [a])[..i]) {
      assert (b + [a])[..i] == b[..i];
      assert b[..|b|] == b;
    }
  }

  /** When an event may arrive, the open batch of its group has not closed. */
  lemma StillOpen(cfg: EngineConfig, s: State, g: string)
    requires GroupTimed(cfg, s, g) && OpenOf(s, g) != []
    requires forall i: nat :: Pending(s.engine.timers, i) ==> s.engine.timers[i].deadline > s.engine.now
    ensures s.engine.now < CloseAt(cfg, OpenOf(s, g))
  {
  }

  /** The group of an arriving event. */
  lemma ArriveTimedHere(cfg: EngineConfig, timers: seq<Timer>, now: int, group: Group, b: seq<Arrival>, a: Arrival)
    requires Timed(cfg, timers, now, group, b, a.ev.groupKey) && a.at == now
    requires group.buckets == map[] ==> group.idleTimer.None?
    requires group.buckets != map[] ==> group.idleTimer != group.hardTimer
    requires forall i: nat :: Pending(timers, i) ==> timers[i].deadline > now
    ensures var (group', timers') := AddEvent(cfg, group, timers, now, a.ev);
      Timed(cfg, timers', now, group', b + [a], a.ev.groupKey)
  {
    OpenIffBuckets(b);
    AddEventTimers(cfg, group, timers, now, a.ev);
    BatchSnoc(cfg, b, a, now);
    BucketizeSnoc(b, a);
    hide Bucketize, AddEvent, Append, BatchOk;
  }

  lemma BatchSnoc(cfg: EngineConfig, b: seq<Arrival>, a: Arrival, now: int)
    requires a.at == now && (b != [] ==> BatchOk(cfg, b, now) && now < CloseAt(cfg, b))
    ensures BatchOk(cfg, b + [a], now)
  {
    UnbrokenSnoc(cfg, b, a);
    hide Unbroken;
  }

  lemma BucketizeSnoc(b: seq<Arrival>, a: Arrival)
    ensures Bucketize(b + [a]) == Append(Bucketize(b), a.ev)
  {
    assert (b + [a])[..|b|] == b;
  }

  lemma ArriveTimed(cfg: EngineConfig, s: State, ev: Event, g: string)
    requires Inv(cfg, s) && Enabled(s, Arrive(ev))
    ensures GroupTimed(cfg, Apply(cfg, s, Arrive(ev)), g)
  {
    hide Partitioned, ClosedOk, Timed, AddEvent;
    var group := GroupOf(s.engine, ev.groupKey);
    assert GroupTimed(cfg, s, g) && GroupTimed(cfg, s, ev.groupKey);
    if ev.groupKey in s.engine.groups { assert GroupOk(s.engine, ev.groupKey); }
    if g == ev.groupKey {
      ArriveTimedHere(cfg, s.engine.timers, s.engine.now, group, OpenOf(s, g), Arrival(s.engine.now, ev, |s.history|));
    } else {
      var timers' := Apply(cfg, s, Arrive(ev)).engine.timers;
      AddEventTimers(cfg, group, s.engine.timers, s.engine.now, ev);
      IdleIsOwn(s, ev.groupKey);
      assert SameArmed(s.engine.timers, timers', g);
      TimedCarries(cfg, s.engine.timers, timers', s.engine.now, GroupOf(s.engine, g), OpenOf(s, g), g);
    }
  }

  lemma IdleIsOwn(s: State, g: string)
    requires EngineModel.Inv(s.engine)
    ensures var idle := GroupOf(s.engine, g).idleTimer;
      idle.Some? ==> idle.value < |s.engine.timers| && s.engine.timers[idle.value].groupKey == g
  {
    if g in s.engine.groups { assert GroupOk(s.engine, g); }
  }

  lemma OpenIffBuckets(b: seq<Arrival>)
    ensures Bucketize(b) == map[] <==> b == []
  {
    if b != [] {
      assert b[|b| - 1].ev.trigger in Bucketize(b);
    }
  }

  lemma ArrivePartitioned(cfg: EngineConfig, s: State, ev: Event, g: string)
    requires Inv(cfg, s) && Enabled(s, Arrive(ev))
    ensures Partitioned(cfg, Apply(cfg, s, Arrive(ev)), g)
  {
    hide Ingest, EngineModel.Inv;
    var s' := Apply(cfg, s, Arrive(ev));
    var a := Arrival(s.engine.now, ev, |s.history|);
    assert s'.history[..|s.history|] == s.history;
    assert Partitioned(cfg, s, g);
    if g == ev.groupKey {
      var b, batches := OpenOf(s, g), BatchesOf(s.log, g);
      assert GroupTimed(cfg, s, g);
      if b == [] {
        if batches != [] { LastBatchClosed(cfg, s, s.log, g); }
        NewBatch(cfg, ArrivalsOf(s.history, g), batches, a);
        assert b + [a] == [a];
      } else {
        StillOpen(cfg, s, g);
        LongerBatch(cfg, ArrivalsOf(s.history, g), batches, b, a);
      }
    } else {
      assert ArrivalsOf(s'.history, g) == ArrivalsOf(s.history, g);
    }
  }

  lemma {:induction false} LastBatchClosed(cfg: EngineConfig, s: State, log: seq<Closed>, g: string)
    requires log <= s.log && BatchesOf(log, g) != []
    requires forall i :: 0 <= i < |s.log| ==> ClosedOk(cfg, s, s.log[i])
    ensures var last := BatchesOf(log, g)[|BatchesOf(log, g)| - 1]; last != [] && CloseAt(cfg, last) <= s.engine.now
  {
    assert ClosedOk(cfg, s, log[|log| - 1]) by {
      assert log[|log| - 1] == s.log[|log| - 1];
    }
    if log[|log| - 1].snapshot.groupKey != g {
      LastBatchClosed(cfg, s, log[..|log| - 1], g);
    }
  }

  lemma ArriveKeepsInv(cfg: EngineConfig, s: State, ev: Event)
    requires Inv(cfg, s) && Enabled(s, Arrive(ev))
    ensures Inv(cfg, Apply(cfg, s, Arrive(ev)))
  {
    var s' := Apply(cfg, s, Arrive(ev));
    IngestKeepsInv(cfg, s.engine, ev);
    forall g ensures GroupTimed(cfg, s', g) && Partitioned(cfg, s', g) {
      ArriveTimed(cfg, s, ev, g);
      ArrivePartitioned(cfg, s, ev, g);
    }
    hide GroupTimed, Partitioned, EngineModel.Inv, Bucketize, Ingest;
    assert s'.log == s.log && s'.engine.now == s.engine.now;
    forall i | 0 <= i < |s'.log| ensures ClosedOk(cfg, s', s'.log[i]) {
      assert ClosedOk(cfg, s, s.log[i]);
    }
  }

  /** A timer that fires closes the batch of its group at the instant the batch ends. */
  lemma FireCloses(cfg: EngineConfig, s: State, i: nat)
    requires Inv(cfg, s) && Enabled(s, Fire(i))
    ensures var g := s.engine.timers[i].groupKey;
      && OpenOf(s, g) != [] && s.engine.now == CloseAt(cfg, OpenOf(s, g))
      && Callback(s.engine, i).1 == Some(Snapshot(g, GroupOf(s.engine, g).generation, Bucketize(OpenOf(s, g))))
  {
    hide Partitioned, ClosedOk, Append;
    var g := s.engine.timers[i].groupKey;
    assert GroupTimed(cfg, s, g) && TimerOk(s.engine, i);
    assert GroupOk(s.engine, g);
  }

  /** What firing does to the timers: one is used up, the rest of its batch disarmed. */
  lemma FireTimers(cfg: EngineConfig, s: State, i: nat)
    requires Inv(cfg, s) && Enabled(s, Fire(i))
    ensures var g := s.engine.timers[i].groupKey;
      var s' := Apply(cfg, s, Fire(i));
      && s'.open == s.open[g := []] && GroupOf(s'.engine, g).buckets == map[] && s'.engine.now == s.engine.now
      && (forall k :: k != g ==> GroupOf(s'.engine, k) == GroupOf(s.engine, k))
      && (forall j: nat ::
            Pending(s'.engine.timers, j) <==> Pending(s.engine.timers, j) && s.engine.timers[j].groupKey != g)
      && (forall j: nat :: Pending(s'.engine.timers, j) ==> s'.engine.timers[j] == s.engine.timers[j])
  {
    FireCloses(cfg, s, i);
    var g := s.engine.timers[i].groupKey;
    assert GroupTimed(cfg, s, g) && GroupOk(s.engine, g);
    var used := s.engine.timers[i := s.engine.timers[i].(status := Done)];
    CloseBatchTimers(GroupOf(s.engine, g), used);
    hide Bucketize, Partitioned, ClosedOk, Unbroken, EngineModel.Inv, StopTimer;
  }

  lemma FireTimed(cfg: EngineConfig, s: State, i: nat, g: string)
    requires Inv(cfg, s) && Enabled(s, Fire(i))
    ensures GroupTimed(cfg, Apply(cfg, s, Fire(i)), g)
  {
    FireTimers(cfg, s, i);
    EmptyBuckets();
    assert GroupTimed(cfg, s, g);
    hide Bucketize, Inv, Apply;
    if g != s.engine.timers[i].groupKey {
      var s' := Apply(cfg, s, Fire(i));
      hide Timed;
      assert SameArmed(s.engine.timers, s'.engine.timers, g);
      TimedCarries(cfg, s.engine.timers, s'.engine.timers, s.engine.now, GroupOf(s.engine, g), OpenOf(s, g), g);
    }
  }

  lemma EmptyBuckets()
    ensures Bucketize([]) == map[]
  {
  }

  lemma FireKeepsInv(cfg: EngineConfig, s: State, i: nat)
    requires Inv(cfg, s) && Enabled(s, Fire(i))
    ensures Inv(cfg, Apply(cfg, s, Fire(i)))
  {
    var s' := Apply(cfg, s, Fire(i));
    FireCloses(cfg, s, i);
    var fired := s.engine.timers[i].groupKey;
    var due := Expire(s.engine, i);
    ExpireKeepsInv(s.engine, i);
    CallbackKeepsInv(due, i);
    assert due.timers[i := due.timers[i].(status := Done)] == s.engine.timers[i := s.engine.timers[i].(status := Done)];
    assert s'.engine == Callback(due, i).0;
    forall g ensures GroupTimed(cfg, s', g) && Partitioned(cfg, s', g) {
      FireTimed(cfg, s, i, g);
      FirePartitioned(cfg, s, i, g);
    }
    FireRecorded(cfg, s, i);
    hide GroupTimed, Partitioned, EngineModel.Inv, Callback;
  }

  lemma FirePartitioned(cfg: EngineConfig, s: State, i: nat, g: string)
    requires Inv(cfg, s) && Enabled(s, Fire(i))
    ensures Partitioned(cfg, Apply(cfg, s, Fire(i)), g)
  {
    FireCloses(cfg, s, i);
    hide IsPartition, Callback, EngineModel.Inv, GroupTimed;
    var s' := Apply(cfg, s, Fire(i));
    assert s'.log[..|s.log|] == s.log;
    assert Partitioned(cfg, s, g);
    if g != s.engine.timers[i].groupKey {
      assert BatchesOf(s'.log, g) == BatchesOf(s.log, g);
    }
  }

  lemma FireRecorded(cfg: EngineConfig, s: State, i: nat)
    requires Inv(cfg, s) && Enabled(s, Fire(i))
    ensures var s' := Apply(cfg, s, Fire(i)); forall j :: 0 <= j < |s'.log| ==> ClosedOk(cfg, s', s'.log[j])
  {
    FireCloses(cfg, s, i);
    var s' := Apply(cfg, s, Fire(i));
    var b := OpenOf(s, s.engine.timers[i].groupKey);
    assert GroupTimed(cfg, s, s.engine.timers[i].groupKey);
    hide Callback, EngineModel.Inv, Partitioned, Bucketize;
    forall j | 0 <= j < |s'.log| ensures ClosedOk(cfg, s', s'.log[j]) {
      if j < |s.log| {
        assert ClosedOk(cfg, s, s.log[j]);
      } else {
        forall k | 0 <= k < |b| ensures b[0].at <= b[k].at <= b[|b| - 1].at {
        }
      }
    }
  }

  lemma AdvanceKeepsInv(cfg: EngineConfig, s: State, to: int)
    requires Inv(cfg, s) && Enabled(s, Advance(to))
    ensures Inv(cfg, Apply(cfg, s, Advance(to)))
  {
    var s' := Apply(cfg, s, Advance(to));
    forall k | k in s'.engine.groups ensures GroupOk(s'.engine, k) {
      assert GroupOk(s.engine, k);
    }
    forall i | 0 <= i < |s'.engine.timers| ensures TimerOk(s'.engine, i) {
      assert TimerOk(s.engine, i);
    }
    forall g ensures GroupTimed(cfg, s', g) && Partitioned(cfg, s', g) {
      AdvanceTimed(cfg, s, to, g);
      assert Partitioned(cfg, s, g);
    }
    hide GroupTimed, Partitioned, Bucketize;
    forall i | 0 <= i < |s'.log| ensures ClosedOk(cfg, s', s'.log[i]) {
      assert ClosedOk(cfg, s, s.log[i]);
    }
  }

  lemma TimedLater(cfg: EngineConfig, timers: seq<Timer>, now: int, to: int, group: Group, b: seq<Arrival>, g: string)
    requires Timed(cfg, timers, now, group, b, g) && now <= to
    requires forall i: nat :: Pending(timers, i) ==> to <= timers[i].deadline
    ensures Timed(cfg, timers, to, group, b, g)
  {
    hide Bucketize, Unbroken;
  }

  lemma AdvanceTimed(cfg: EngineConfig, s: State, to: int, g: string)
    requires Inv(cfg, s) && Enabled(s, Advance(to))
    ensures GroupTimed(cfg, Apply(cfg, s, Advance(to)), g)
  {
    var s' := Apply(cfg, s, Advance(to));
    assert GroupTimed(cfg, s, g);
    assert s'.engine.timers == s.engine.timers && s'.open == s.open && s'.engine.groups == s.engine.groups;
    hide Apply, Inv, Timed;
    TimedLater(cfg, s.engine.timers, s.engine.now, to, GroupOf(s.engine, g), OpenOf(s, g), g);
  }

  lemma InitialOk(cfg: EngineConfig, start: int)
    ensures Inv(cfg, Initial(start))
  {
    forall g ensures GroupTimed(cfg, Initial(start), g) && Partitioned(cfg, Initial(start), g) {
      EmptyBuckets();
    }
  }

  lemma StepKeepsInv(cfg: EngineConfig, s: State, a: Action)
    requires Inv(cfg, s) && Enabled(s, a)
    ensures Inv(cfg, Apply(cfg, s, a))
  {
    match a
    case Arrive(ev) => ArriveKeepsInv(cfg, s, ev);
    case Fire(i) => FireKeepsInv(cfg, s, i);
    case Advance(to) => AdvanceKeepsInv(cfg, s, to);
  }

  lemma {:induction false} RunKeepsInv(cfg: EngineConfig, start: int, actions: seq<Action>)
    requires Run(cfg, start, actions).Some?
    ensures Inv(cfg, Run(cfg, start, actions).value)
  {
    if actions == [] {
      InitialOk(cfg, start);
    } else {
      RunKeepsInv(cfg, start, actions[..|actions| - 1]);
      StepKeepsInv(cfg, Run(cfg, start, actions[..|actions| - 1]).value, actions[|actions| - 1]);
    }
  }

  // ----- where the arrivals are -----

  datatype Place = Open(groupKey: string) | Flushed(flush: nat)

  function ArrivalsAt(s: State, p: Place): seq<Arrival> {
    match p
    case Open(g) => OpenOf(s, g)
    case Flushed(i) => if i < |s.log| then s.log[i].arrivals else []
  }

  predicate DistinctIds(arrivals: seq<Arrival>) {
    forall i, j :: 0 <= i < j < |arrivals| ==> arrivals[i].id != arrivals[j].id
  }

  predicate Recorded(history: seq<Arrival>, a: Arrival) {
    a.id < |history| && history[a.id] == a
  }

  /** Each arrival is in one place exactly, once, and nothing else is anywhere. */
  ghost predicate PlacedAt<P(!new)>(at: P -> seq<Arrival>, history: seq<Arrival>) {
    && (forall i :: 0 <= i < |history| ==> history[i].id == i)
    && (forall p, a :: a in at(p) ==> Recorded(history, a))
    && (forall p, q, a :: a in at(p) && a in at(q) ==> p == q)
    && (forall p :: DistinctIds(at(p)))
    && (forall a :: a in history ==> exists p :: a in at(p))
  }

  lemma OneArrives<P(!new)>(at: P -> seq<Arrival>, at': P -> seq<Arrival>, history: seq<Arrival>, here: P, a: Arrival)
    requires PlacedAt(at, history) && a.id == |history|
    requires forall p :: at'(p) == if p == here then at(p) + [a] else at(p)
    ensures PlacedAt(at', history + [a])
  {
    assert forall p, b :: b in at'(p) <==> b in at(p) || (p == here && b == a);
    forall p ensures a !in at(p) {
      assert a in at(p) ==> Recorded(history, a);
    }
    forall p ensures DistinctIds(at'(p)) {
      assert DistinctIds(at(p));
      forall k | 0 <= k < |at(p)| ensures at(p)[k].id < a.id {
        assert at(p)[k] in at(p) && Recorded(history, at(p)[k]);
      }
    }
    forall p, b | b in at'(p) ensures Recorded(history + [a], b) {
      assert b != a ==> b in at(p) && Recorded(history, b);
    }
    forall b | b in history + [a] ensures exists p :: b in at'(p) {
      if b == a {
        assert a in at'(here);
      } else {
        var p :| b in at(p);
        assert b in at'(p);
      }
    }
  }

  /** Arrivals move, each new place being filled from one old place. */
  lemma Moved<P(!new), Q(!new)>(at: P -> seq<Arrival>, at': Q -> seq<Arrival>, history: seq<Arrival>, from: Q -> P)
    requires PlacedAt(at, history)
    requires forall q, a :: a in at'(q) ==> a in at(from(q))
    requires forall q, r, a :: a in at'(q) && a in at'(r) && from(q) == from(r) ==> q == r
    requires forall q :: DistinctIds(at'(q))
    requires forall p, a :: a in at(p) ==> exists q :: a in at'(q)
    ensures PlacedAt(at', history)
  {
    hide DistinctIds;
    forall q, r, a | a in at'(q) && a in at'(r) ensures q == r {
      assert a in at(from(q)) && a in at(from(r));
    }
  }

  function View(s: State): Place -> seq<Arrival> {
    p => ArrivalsAt(s, p)
  }

  ghost predicate Placed(s: State) {
    PlacedAt(View(s), s.history)
  }

  lemma FireKeepsPlaced(cfg: EngineConfig, s: State, i: nat)
    requires Inv(cfg, s) && Placed(s) && Enabled(s, Fire(i))
    ensures Placed(Apply(cfg, s, Fire(i)))
  {
    var s', open, flush := Apply(cfg, s, Fire(i)), Open(s.engine.timers[i].groupKey), Flushed(|s.log|);
    FireCloses(cfg, s, i);
    hide Inv, Callback, Bucketize;
    forall p ensures View(s')(p) == if p == open then [] else View(s)(if p == flush then open else p) {
    }
    assert s'.history == s.history && View(s)(flush) == [];
    hide Apply, View, ArrivalsAt;
    forall p ensures DistinctIds(View(s')(p)) {
      assert DistinctIds(View(s)(open)) && DistinctIds(View(s)(p));
    }
    forall p, a | a in View(s)(p) ensures exists q :: a in View(s')(q) {
      assert a in View(s')(if p == open then flush else p);
    }
    Moved(View(s), View(s'), s.history, p => if p == flush then open else p);
  }

  lemma StepKeepsPlaced(cfg: EngineConfig, s: State, a: Action)
    requires Inv(cfg, s) && Placed(s) && Enabled(s, a)
    ensures Placed(Apply(cfg, s, a))
  {
    var s' := Apply(cfg, s, a);
    hide Inv;
    match a
    case Fire(i) => FireKeepsPlaced(cfg, s, i);
    case Arrive(ev) =>
      hide PlacedAt;
      OneArrives(View(s), View(s'), s.history, Open(ev.groupKey), Arrival(s.engine.now, ev, |s.history|));
    case Advance(to) =>
      assert forall p :: View(s')(p) == View(s)(p);
      assert forall p, a :: a in View(s)(p) ==> a in View(s')(p);
      Moved(View(s), View(s'), s.history, p => p);
  }

  lemma {:induction false} RunKeepsPlaced(cfg: EngineConfig, start: int, actions: seq<Action>)
    requires Run(cfg, start, actions).Some?
    ensures Placed(Run(cfg, start, actions).value)
  {
    if actions == [] {
    } else {
      var before, a := actions[..|actions| - 1], actions[|actions| - 1];
      RunKeepsPlaced(cfg, start, before);
      RunKeepsInv(cfg, start, before);
      var s := Run(cfg, start, before).value;
      hide Placed, Inv, Apply;
      StepKeepsPlaced(cfg, s, a);
    }
  }

  // ----- the results -----

  /** The events of a trigger, in their order of arrival. */
  function Arrivals(arrivals: seq<Arrival>, trigger: string): seq<Event> {
    if arrivals == [] then []
    else
      var last := arrivals[|arrivals| - 1];
      Arrivals(arrivals[..|arrivals| - 1], trigger) + (if last.ev.trigger == trigger then [last.ev] else [])
  }

  /** A bucket holds the events of its trigger in order of arrival, and there is one for
      every trigger that arrived. */
  lemma {:induction false} BucketsInOrder(arrivals: seq<Arrival>, trigger: string)
    ensures var buckets := Bucketize(arrivals);
      && (trigger in buckets <==> Arrivals(arrivals, trigger) != [])
      && (trigger in buckets ==> buckets[trigger] == Arrivals(arrivals, trigger))
  {
    if arrivals == [] {
    } else {
      BucketsInOrder(arrivals[..|arrivals| - 1], trigger);
    }
  }

  /** In every run, the batches flushed for a group, with the one still open, are THE
      partition of its arrivals: any other candidate equals it. Each was flushed at
      exactly the instant it closes and handed over exactly its events by trigger,
      and an open batch has not passed its closing instant. */
  lemma {:induction false} DebounceIsExact(cfg: EngineConfig, start: int, actions: seq<Action>, g: string,
                                           candidate: seq<seq<Arrival>>)
    requires Run(cfg, start, actions).Some?
    ensures var s := Run(cfg, start, actions).value;
      var batches := WithOpen(BatchesOf(s.log, g), OpenOf(s, g));
      && (IsPartition(cfg, ArrivalsOf(s.history, g), candidate) <==> candidate == batches)
      && (forall i :: 0 <= i < |s.log| ==>
            s.log[i].arrivals != [] && s.log[i].at == CloseAt(cfg, s.log[i].arrivals)
            && s.log[i].snapshot.buckets == Bucketize(s.log[i].arrivals))
      && (OpenOf(s, g) != [] ==> s.engine.now <= CloseAt(cfg, OpenOf(s, g)))
    ensures 0 <= cfg.maxWait && 0 <= cfg.idleWindow ==>
      forall c :: c in Run(cfg, start, actions).value.log ==>
        var b := c.arrivals;
        b != [] && c.at == Earlier(b[0].at + cfg.maxWait, b[|b| - 1].at + cfg.idleWindow)
    ensures forall c, t :: c in Run(cfg, start, actions).value.log ==>
      && (t in c.snapshot.buckets <==> Arrivals(c.arrivals, t) != [])
      && (t in c.snapshot.buckets ==> c.snapshot.buckets[t] == Arrivals(c.arrivals, t))
  {
    RunKeepsInv(cfg, start, actions);
    var s := Run(cfg, start, actions).value;
    var batches := WithOpen(BatchesOf(s.log, g), OpenOf(s, g));
    assert Partitioned(cfg, s, g) && GroupTimed(cfg, s, g);
    hide Bucketize, EngineModel.Inv, Run;
    if IsPartition(cfg, ArrivalsOf(s.history, g), candidate) {
      PartitionUnique(cfg, ArrivalsOf(s.history, g), candidate, batches);
    }
    forall i | 0 <= i < |s.log|
      ensures s.log[i].arrivals != [] && s.log[i].at == CloseAt(cfg, s.log[i].arrivals)
        && s.log[i].snapshot.buckets == Bucketize(s.log[i].arrivals)
    {
      assert ClosedOk(cfg, s, s.log[i]);
    }
    forall c, t | c in s.log
      ensures t in c.snapshot.buckets <==> Arrivals(c.arrivals, t) != []
      ensures t in c.snapshot.buckets ==> c.snapshot.buckets[t] == Arrivals(c.arrivals, t)
    {
      BucketsInOrder(c.arrivals, t);
    }
  }

  /** While an arrival waits in an open batch, the hard cap has not passed. */
  lemma OpenNotLate(cfg: EngineConfig, s: State, g: string, a: Arrival)
    requires Inv(cfg, s) && a in OpenOf(s, g)
    ensures s.engine.now <= a.at + Delay(cfg.maxWait)
  {
    assert GroupTimed(cfg, s, g);
    var b := OpenOf(s, g);
    var n :| 0 <= n < |b| && b[n] == a;
    hide Bucketize, Unbroken, Inv;
    assert b[0].at <= b[n].at;
  }

  /** Flush `i` holds the arrival. */
  predicate In(log: seq<Closed>, i: nat, a: Arrival) {
    i < |log| && a in log[i].arrivals
  }

  /** No event waits longer than the hard cap for its flush: every arrival that is older
      has been flushed, in one flush and within the cap. */
  lemma {:induction false} FlushedWithinMaxWait(cfg: EngineConfig, start: int, actions: seq<Action>, a: Arrival)
    requires Run(cfg, start, actions).Some? && a in Run(cfg, start, actions).value.history
    ensures var s := Run(cfg, start, actions).value;
      && (s.engine.now > a.at + Delay(cfg.maxWait) ==> exists i: nat :: In(s.log, i, a))
      && (forall i: nat :: In(s.log, i, a) ==> i < |s.log| && a.at <= s.log[i].at <= a.at + Delay(cfg.maxWait))
      && (forall i: nat, j: nat :: In(s.log, i, a) && In(s.log, j, a) ==> i == j)
      && (forall i :: 0 <= i < |s.log| ==> DistinctIds(s.log[i].arrivals))
    ensures var s := Run(cfg, start, actions).value;
      0 <= cfg.maxWait ==>
        && (s.engine.now > a.at + cfg.maxWait ==> exists i: nat :: In(s.log, i, a))
        && (forall i: nat :: In(s.log, i, a) ==> i < |s.log| && a.at <= s.log[i].at <= a.at + cfg.maxWait)
  {
    hide Inv, Placed, DistinctIds, In;
    RunKeepsInv(cfg, start, actions);
    RunKeepsPlaced(cfg, start, actions);
    var s := Run(cfg, start, actions).value;
    hide Run;
    var p := InOnePlace(s, a);
    FlushedInTime(cfg, s, a);
    if p.Open? {
      OpenNotLate(cfg, s, p.groupKey, a);
    }
  }

  lemma InOnePlace(s: State, a: Arrival) returns (p: Place)
    requires Placed(s) && a in s.history
    ensures if p.Open? then a in OpenOf(s, p.groupKey) else In(s.log, p.flush, a)
    ensures forall i: nat, j: nat :: In(s.log, i, a) && In(s.log, j, a) ==> i == j
    ensures forall i :: 0 <= i < |s.log| ==> DistinctIds(s.log[i].arrivals)
  {
    hide DistinctIds;
    p :| a in View(s)(p);
    forall i | 0 <= i < |s.log| ensures View(s)(Flushed(i)) == s.log[i].arrivals && DistinctIds(View(s)(Flushed(i))) {
    }
  }

  lemma FlushedInTime(cfg: EngineConfig, s: State, a: Arrival)
    requires Inv(cfg, s)
    ensures forall i: nat :: In(s.log, i, a) ==> i < |s.log| && a.at <= s.log[i].at <= a.at + Delay(cfg.maxWait)
  {
    hide EngineModel.Inv, GroupTimed, Partitioned, Bucketize, CloseAt;
    forall i: nat | In(s.log, i, a) ensures a.at <= s.log[i].at <= a.at + Delay(cfg.maxWait) {
      assert ClosedOk(cfg, s, s.log[i]);
    }
  }

  /** The rules never block: in every reachable state some armed timer is due and can
      fire, or an event can arrive. */
  lemma NeverBlocked(cfg: EngineConfig, start: int, actions: seq<Action>, ev: Event)
    requires Run(cfg, start, actions).Some?
    ensures var s := Run(cfg, start, actions).value;
      Enabled(s, Arrive(ev)) || exists i: nat :: Pending(s.engine.timers, i) && Enabled(s, Fire(i))
  {
    RunKeepsInv(cfg, start, actions);
    var s := Run(cfg, start, actions).value;
    hide Partitioned, ClosedOk, Bucketize;
    if !Enabled(s, Arrive(ev)) {
      var i: nat :| Pending(s.engine.timers, i) && s.engine.timers[i].deadline <= s.engine.now;
      assert GroupTimed(cfg, s, s.engine.timers[i].groupKey);
      assert Enabled(s, Fire(i));
    }
  }
}
