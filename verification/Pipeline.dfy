/** Everything between the HTTP handler and the session publisher, with every
    interleaving: workers, timers that expire whenever they like, callbacks that run
    late, after a stop or after their batch is gone, and flushes of one group that
    overlap. Sessions are updated as the publisher's first critical section does. */
module Pipeline {
  import opened Domain
  import opened EngineModel
  import Bags
  import Flush
  import Receiver
  import SessionModel

  datatype Config = Config(engine: EngineConfig, queueSize: nat, workers: nat, ttl: int)

  datatype State = State(
    accepted: seq<Event>,                       // every event answered with 202
    queue: seq<Event>,
    hands: map<nat, Event>,                     // what each busy worker holds
    engine: Engine,
    flushed: seq<Snapshot>,                     // every batch ever taken
    pending: map<nat, Snapshot>,                // taken, not yet split, by flush number
    publishing: map<nat, seq<UpsertCall>>,      // split, calls still to make
    upserts: seq<UpsertCall>,                   // calls made
    store: SessionModel.Store)

  datatype Action =
    | Accept(ev: Event)
    | HandOver(ev: Event, worker: nat)          // straight to a waiting worker
    | Take(worker: nat)
    | IngestBy(worker: nat)
    | ExpireTimer(timer: nat)
    | RunCallback(timer: nat)
    | Split(flush: nat, calls: seq<UpsertCall>)
    | Publish(flush: nat, at: int)
    | Tick(to: int)

  const INITIAL := State([], [], map[], Engine(map[], [], 0), [], map[], map[], [], SessionModel.Store(map[], 0))

  predicate Enabled(cfg: Config, s: State, a: Action) {
    match a
    case Accept(ev) => Receiver.Complete(ev) && |s.queue| < cfg.queueSize
    case HandOver(ev, w) => Receiver.Complete(ev) && s.queue == [] && w < cfg.workers && w !in s.hands
    case Take(w) => s.queue != [] && w < cfg.workers && w !in s.hands
    case IngestBy(w) => w in s.hands
    case ExpireTimer(i) => i < |s.engine.timers| && s.engine.timers[i].status == Armed
    case RunCallback(i) => i < |s.engine.timers| && s.engine.timers[i].status == Due
    case Split(f, calls) =>
      f in s.pending && Flush.IsSplit(cfg.engine, s.pending[f].groupKey, s.pending[f].buckets, calls)
    case Publish(f, _) => f in s.publishing && s.publishing[f] != []
    case Tick(to) => s.engine.now <= to
  }

  function Apply(cfg: Config, s: State, a: Action): State
    requires Enabled(cfg, s, a)
  {
    match a
    case Accept(ev) => s.(accepted := s.accepted + [ev], queue := s.queue + [ev])
    case HandOver(ev, w) => s.(accepted := s.accepted + [ev], hands := s.hands[w := ev])
    case Take(w) => s.(queue := s.queue[1..], hands := s.hands[w := s.queue[0]])
    case IngestBy(w) => s.(hands := s.hands - {w}, engine := Ingest(cfg.engine, s.engine, s.hands[w]))
    case ExpireTimer(i) => s.(engine := Expire(s.engine, i))
    case RunCallback(i) =>
      var (engine, snap) := Callback(s.engine, i);
      if snap.None? then s.(engine := engine)
      else s.(engine := engine, flushed := s.flushed + [snap.value], pending := s.pending[|s.flushed| := snap.value])
    case Split(f, calls) => s.(pending := s.pending - {f}, publishing := s.publishing[f := calls])
    case Publish(f, at) =>
      var c := s.publishing[f][0];
      s.(publishing := s.publishing[f := s.publishing[f][1..]], upserts := s.upserts + [c],
         store := SessionModel.Begin(cfg.ttl, s.store, at, c.key, c.events).0)
    case Tick(to) => s.(engine := s.engine.(now := to))
  }

  function Run(cfg: Config, actions: seq<Action>): Option<State> {
    if actions == [] then Some(INITIAL)
    else
      var before := Run(cfg, actions[..|actions| - 1]);
      var a := actions[|actions| - 1];
      if before.Some? && Enabled(cfg, before.value, a) then Some(Apply(cfg, before.value, a)) else None
  }

  // ----- where the events are -----

  function One(ev: Event): multiset<Event> {
    multiset{ev}
  }

  ghost function BatchBag(snap: Snapshot): multiset<Event> {
    BucketsBag(snap.buckets)
  }

  /** How often an event is present, counted over every place it can be in. */
  ghost function Copies(s: State, ev: Event): nat {
    multiset(s.queue)[ev] + Bags.Gather(s.hands, One)[ev] + EngineBag(s.engine)[ev]
    + Bags.Gather(s.pending, BatchBag)[ev]
    + Bags.Gather(s.publishing, Flush.CallsBag)[ev] + Flush.CallsBag(s.upserts)[ev]
  }

  lemma PendingPut(pending: map<nat, Snapshot>, f: nat, snap: Snapshot)
    requires f !in pending
    ensures Bags.Gather(pending[f := snap], BatchBag) == Bags.Gather(pending, BatchBag) + BatchBag(snap)
  {
    Bags.GatherPut(pending, BatchBag, f, snap);
  }

  lemma CallsFirst(calls: seq<UpsertCall>)
    requires calls != []
    ensures Flush.CallsBag(calls) == multiset(calls[0].events) + Flush.CallsBag(calls[1..])
  {
  }

  lemma {:induction false} CallsSnoc(calls: seq<UpsertCall>, c: UpsertCall)
    ensures Flush.CallsBag(calls + [c]) == Flush.CallsBag(calls) + multiset(c.events)
  {
    if calls == [] {
      assert calls + [c] == [c];
    } else {
      assert (calls + [c])[1..] == calls[1..] + [c];
      CallsSnoc(calls[1..], c);
    }
  }

  // ----- the invariant -----

  /** The generations of the batches taken from one group, in the order taken. */
  function Generations(flushed: seq<Snapshot>, groupKey: string): seq<nat> {
    if flushed == [] then [] else
      var last := flushed[|flushed| - 1];
      Generations(flushed[..|flushed| - 1], groupKey) + (if last.groupKey == groupKey then [last.generation] else [])
  }

  function UpTo(n: nat): seq<nat> {
    seq(n, i => i)
  }

  predicate CallsMatch(cfg: Config, calls: seq<UpsertCall>) {
    forall i, ev :: 0 <= i < |calls| && ev in calls[i].events ==> Flush.Matches(cfg.engine, calls[i].key, ev)
  }

  /** A session holds, under each app, an event of that app that belongs to its key. */
  predicate SessionKeyed(cfg: Config, key: SessionKey, perApp: map<string, Event>) {
    forall app :: app in perApp ==> Flush.Matches(cfg.engine, key, perApp[app]) && perApp[app].appName == app
  }

  ghost predicate Kept(cfg: Config, s: State) {
    && EngineModel.Inv(s.engine)
    && (forall f :: f in s.pending ==>
          f < |s.flushed| && f !in s.publishing && BucketsOf(s.pending[f].groupKey, s.pending[f].buckets))
    && (forall f :: f in s.publishing ==> f < |s.flushed| && CallsMatch(cfg, s.publishing[f]))
    && (forall g :: Generations(s.flushed, g) == UpTo(GroupOf(s.engine, g).generation))
    && (forall k :: k in s.store.sessions ==> SessionKeyed(cfg, k, s.store.sessions[k].perApp))
  }

  ghost predicate Conserved(s: State) {
    forall ev :: multiset(s.accepted)[ev] == Copies(s, ev)
  }

  // ----- conservation, step by step -----

  lemma AcceptConserves(cfg: Config, s: State, e: Event)
    requires Conserved(s) && Enabled(cfg, s, Accept(e))
    ensures Conserved(Apply(cfg, s, Accept(e)))
  {
    hide EngineBag, Bags.Gather, Flush.CallsBag;
    forall ev ensures multiset(s.accepted + [e])[ev] == Copies(Apply(cfg, s, Accept(e)), ev) {
      assert multiset(s.accepted)[ev] == Copies(s, ev);
    }
  }

  lemma HandOverConserves(cfg: Config, s: State, e: Event, w: nat)
    requires Conserved(s) && Enabled(cfg, s, HandOver(e, w))
    ensures Conserved(Apply(cfg, s, HandOver(e, w)))
  {
    hide EngineBag, Bags.Gather, Flush.CallsBag;
    Bags.GatherPut(s.hands, One, w, e);
    forall ev ensures multiset(s.accepted + [e])[ev] == Copies(Apply(cfg, s, HandOver(e, w)), ev) {
      assert multiset(s.accepted)[ev] == Copies(s, ev);
    }
  }

  lemma TakeConserves(cfg: Config, s: State, w: nat)
    requires Conserved(s) && Enabled(cfg, s, Take(w))
    ensures Conserved(Apply(cfg, s, Take(w)))
  {
    hide EngineBag, Bags.Gather, Flush.CallsBag;
    Bags.GatherPut(s.hands, One, w, s.queue[0]);
    assert s.queue == [s.queue[0]] + s.queue[1..];
    forall ev ensures multiset(s.accepted)[ev] == Copies(Apply(cfg, s, Take(w)), ev) {
      assert multiset(s.accepted)[ev] == Copies(s, ev);
    }
  }

  lemma IngestConserves(cfg: Config, s: State, w: nat)
    requires Conserved(s) && w in s.hands
    ensures Conserved(Apply(cfg, s, IngestBy(w)))
  {
    hide EngineBag, Bags.Gather, Flush.CallsBag, Ingest;
    IngestAddsEvent(cfg.engine, s.engine, s.hands[w]);
    Bags.GatherDrop(s.hands, One, w);
    forall ev ensures multiset(s.accepted)[ev] == Copies(Apply(cfg, s, IngestBy(w)), ev) {
      assert multiset(s.accepted)[ev] == Copies(s, ev);
    }
  }

  lemma CallbackConserves(cfg: Config, s: State, i: nat)
    requires Conserved(s) && Enabled(cfg, s, RunCallback(i)) && |s.flushed| !in s.pending
    ensures Conserved(Apply(cfg, s, RunCallback(i)))
  {
    hide EngineBag, Bags.Gather, Flush.CallsBag, BucketsBag, OnTimerFire;
    CallbackMovesBatch(s.engine, i);
    var snap := Callback(s.engine, i).1;
    var s' := Apply(cfg, s, RunCallback(i));
    var batch := if snap.Some? then BatchBag(snap.value) else multiset{};
    if snap.Some? {
      PendingPut(s.pending, |s.flushed|, snap.value);
      assert s'.pending == s.pending[|s.flushed| := snap.value];
      assert Bags.Gather(s'.pending, BatchBag) == Bags.Gather(s.pending, BatchBag) + batch;
    } else {
      assert s'.pending == s.pending;
    }
    forall ev ensures multiset(s.accepted)[ev] == Copies(s', ev) {
      assert multiset(s.accepted)[ev] == Copies(s, ev);
    }
  }

  lemma SplitConserves(cfg: Config, s: State, f: nat, calls: seq<UpsertCall>)
    requires Conserved(s) && Enabled(cfg, s, Split(f, calls))
    requires f !in s.publishing && BucketsOf(s.pending[f].groupKey, s.pending[f].buckets)
    ensures Conserved(Apply(cfg, s, Split(f, calls)))
  {
    hide EngineBag, Bags.Gather, Flush.CallsBag, BucketsBag, Flush.IsSplit, BucketsOf;
    Flush.SplitConserves(cfg.engine, s.pending[f].groupKey, s.pending[f].buckets, calls);
    Bags.GatherDrop(s.pending, BatchBag, f);
    Bags.GatherPut(s.publishing, Flush.CallsBag, f, calls);
    forall ev ensures multiset(s.accepted)[ev] == Copies(Apply(cfg, s, Split(f, calls)), ev) {
      assert multiset(s.accepted)[ev] == Copies(s, ev);
    }
  }

  lemma PublishConserves(cfg: Config, s: State, f: nat, at: int)
    requires Conserved(s) && Enabled(cfg, s, Publish(f, at))
    ensures Conserved(Apply(cfg, s, Publish(f, at)))
  {
    hide EngineBag, Bags.Gather, Flush.CallsBag, SessionModel.Begin;
    var c, rest := s.publishing[f][0], s.publishing[f][1..];
    CallsFirst(s.publishing[f]);
    var others := s.publishing - {f};
    Bags.GatherDrop(s.publishing, Flush.CallsBag, f);
    Bags.GatherPut(others, Flush.CallsBag, f, rest);
    assert others[f := rest] == s.publishing[f := rest];
    CallsSnoc(s.upserts, c);
    forall ev ensures multiset(s.accepted)[ev] == Copies(Apply(cfg, s, Publish(f, at)), ev) {
      assert multiset(s.accepted)[ev] == Copies(s, ev);
    }
  }

  /** What the groups hold does not depend on timers or the time. */
  lemma SameGroups(e: Engine, e': Engine)
    requires e'.groups == e.groups
    ensures EngineBag(e') == EngineBag(e)
  {
    hide Bags.Union, GroupBags;
  }

  lemma TimerConserves(cfg: Config, s: State, a: Action)
    requires Conserved(s) && Enabled(cfg, s, a) && (a.ExpireTimer? || a.Tick?)
    ensures Conserved(Apply(cfg, s, a))
  {
    hide EngineBag, Bags.Gather, Flush.CallsBag;
    var s' := Apply(cfg, s, a);
    assert s' == s.(engine := s'.engine) && s'.engine.groups == s.engine.groups;
    SameGroups(s.engine, s'.engine);
    hide Apply, Enabled;
    forall ev ensures multiset(s.accepted)[ev] == Copies(s', ev) {
      assert multiset(s.accepted)[ev] == Copies(s, ev);
    }
  }

  // ----- the rest, step by step -----

  lemma IngestKept(cfg: Config, s: State, w: nat)
    requires Kept(cfg, s) && w in s.hands
    ensures Kept(cfg, Apply(cfg, s, IngestBy(w)))
  {
    IngestKeepsInv(cfg.engine, s.engine, s.hands[w]);
    hide Generations, EngineModel.Inv;
  }

  lemma TimerKept(cfg: Config, s: State, a: Action)
    requires Kept(cfg, s) && Enabled(cfg, s, a) && (a.ExpireTimer? || a.Tick?)
    ensures Kept(cfg, Apply(cfg, s, a))
  {
    hide Generations;
    if a.ExpireTimer? {
      ExpireKeepsInv(s.engine, a.timer);
    } else {
      var ticked := s.engine.(now := a.to);
      forall k | k in s.engine.groups ensures GroupOk(ticked, k) {
        assert GroupOk(s.engine, k);
      }
      forall i | 0 <= i < |s.engine.timers| ensures TimerOk(ticked, i) {
        assert TimerOk(s.engine, i);
      }
    }
  }

  lemma CallbackKept(cfg: Config, s: State, i: nat)
    requires Kept(cfg, s) && Enabled(cfg, s, RunCallback(i))
    ensures Kept(cfg, Apply(cfg, s, RunCallback(i)))
  {
    CallbackKeepsInv(s.engine, i);
    CallbackCounts(s.engine, i, s.flushed);
    SnapshotOk(s.engine, i);
    hide Generations, EngineModel.Inv, Callback, UpTo, GroupOf, BucketsOf, CallsMatch, SessionKeyed;
  }

  lemma SnapshotOk(e: Engine, i: nat)
    requires EngineModel.Inv(e) && i < |e.timers|
    ensures var snap := Callback(e, i).1; snap.Some? ==> BucketsOf(snap.value.groupKey, snap.value.buckets)
  {
    if Callback(e, i).1.Some? {
      assert GroupOk(e, e.timers[i].groupKey);
    }
    hide BucketsOf;
  }

  /** A batch that is taken carries the next generation of its group. */
  lemma CallbackCounts(e: Engine, i: nat, flushed: seq<Snapshot>)
    requires EngineModel.Inv(e) && i < |e.timers| && e.timers[i].status == Due
    requires forall g :: Generations(flushed, g) == UpTo(GroupOf(e, g).generation)
    ensures var (e', snap) := Callback(e, i);
      var flushed' := if snap.Some? then flushed + [snap.value] else flushed;
      forall g :: Generations(flushed', g) == UpTo(GroupOf(e', g).generation)
  {
    var (e', snap) := Callback(e, i);
    if snap.Some? {
      var last := snap.value;
      assert (flushed + [last])[..|flushed|] == flushed;
      assert UpTo(last.generation + 1) == UpTo(last.generation) + [last.generation];
      forall g ensures Generations(flushed + [last], g) == UpTo(GroupOf(e', g).generation) {
        assert Generations(flushed, g) == UpTo(GroupOf(e, g).generation);
      }
    }
  }

  lemma SplitKept(cfg: Config, s: State, f: nat, calls: seq<UpsertCall>)
    requires Kept(cfg, s) && Enabled(cfg, s, Split(f, calls))
    ensures Kept(cfg, Apply(cfg, s, Split(f, calls)))
  {
    Flush.SplitMatches(cfg.engine, s.pending[f].groupKey, s.pending[f].buckets, calls);
    hide Generations, EngineModel.Inv, Flush.IsSplit;
  }

  lemma PublishKept(cfg: Config, s: State, f: nat, at: int)
    requires Kept(cfg, s) && Enabled(cfg, s, Publish(f, at))
    ensures Kept(cfg, Apply(cfg, s, Publish(f, at)))
  {
    assert CallsMatch(cfg, s.publishing[f]);
    BeginKeepsKeyed(cfg, s.store, at, s.publishing[f][0]);
    hide Generations, EngineModel.Inv, SessionModel.Begin;
  }

  lemma BeginKeepsKeyed(cfg: Config, store: SessionModel.Store, at: int, c: UpsertCall)
    requires forall k :: k in store.sessions ==> SessionKeyed(cfg, k, store.sessions[k].perApp)
    requires forall ev :: ev in c.events ==> Flush.Matches(cfg.engine, c.key, ev)
    ensures var store' := SessionModel.Begin(cfg.ttl, store, at, c.key, c.events).0;
      forall k :: k in store'.sessions ==> SessionKeyed(cfg, k, store'.sessions[k].perApp)
  {
    var cur := SessionModel.Current(cfg.ttl, store, at, c.key);
    SessionModel.MergeEffect(cur.perApp, c.events);
    hide SessionModel.Merge, SessionModel.Seen;
  }

  lemma StepConserves(cfg: Config, s: State, a: Action)
    requires Kept(cfg, s) && Conserved(s) && Enabled(cfg, s, a)
    ensures Conserved(Apply(cfg, s, a))
  {
    hide Conserved, Apply, Generations, EngineModel.Inv;
    match a
    case IngestBy(w) => IngestConserves(cfg, s, w);
    case ExpireTimer(_) => TimerConserves(cfg, s, a);
    case Tick(_) => TimerConserves(cfg, s, a);
    case RunCallback(i) => CallbackConserves(cfg, s, i);
    case Split(f, calls) => SplitConserves(cfg, s, f, calls);
    case Publish(f, at) => PublishConserves(cfg, s, f, at);
    case Accept(ev) => AcceptConserves(cfg, s, ev);
    case HandOver(ev, w) => HandOverConserves(cfg, s, ev, w);
    case Take(w) => TakeConserves(cfg, s, w);
  }

  lemma StepKept(cfg: Config, s: State, a: Action)
    requires Kept(cfg, s) && Enabled(cfg, s, a)
    ensures Kept(cfg, Apply(cfg, s, a))
  {
    match a
    case IngestBy(w) => IngestKept(cfg, s, w);
    case ExpireTimer(_) => TimerKept(cfg, s, a);
    case Tick(_) => TimerKept(cfg, s, a);
    case RunCallback(i) => CallbackKept(cfg, s, i);
    case Split(f, calls) => SplitKept(cfg, s, f, calls);
    case Publish(f, at) => PublishKept(cfg, s, f, at);
    case _ =>
      hide Generations, EngineModel.Inv;
      var s' := Apply(cfg, s, a);
      assert s' == s.(accepted := s'.accepted, queue := s'.queue, hands := s'.hands);
  }

  lemma InitiallyNothing()
    ensures Conserved(INITIAL)
  {
    Bags.GatherNothing(INITIAL.hands, One);
    Bags.GatherNothing(INITIAL.pending, BatchBag);
    Bags.GatherNothing(INITIAL.publishing, Flush.CallsBag);
    assert GroupBags(INITIAL.engine.groups).Keys == {};
  }

  lemma {:induction false} RunKeepsInv(cfg: Config, actions: seq<Action>)
    requires Run(cfg, actions).Some?
    ensures Kept(cfg, Run(cfg, actions).value) && Conserved(Run(cfg, actions).value)
  {
    if actions == [] {
      InitiallyNothing();
    } else {
      RunKeepsInv(cfg, actions[..|actions| - 1]);
      StepKept(cfg, Run(cfg, actions[..|actions| - 1]).value, actions[|actions| - 1]);
      StepConserves(cfg, Run(cfg, actions[..|actions| - 1]).value, actions[|actions| - 1]);
      hide Kept, Conserved, Apply;
    }
  }

  /** Each accepted event is in exactly one place, as often as it was accepted: the
      queue, a worker's hand, a bucket, a batch not yet split, a call not yet made or
      one `Upsert` call that was. */
  lemma {:induction false} Conservation(cfg: Config, actions: seq<Action>, ev: Event)
    requires Run(cfg, actions).Some?
    ensures var s := Run(cfg, actions).value; multiset(s.accepted)[ev] == Copies(s, ev)
  {
    RunKeepsInv(cfg, actions);
  }

  /** A non-empty group always has two callbacks of its current generation that will
      still run, an empty one has none; and whenever a waiting callback of the current
      generation runs, it takes a non-empty batch. */
  lemma {:induction false} NoStrandedBatch(cfg: Config, actions: seq<Action>, g: string)
    requires Run(cfg, actions).Some? && g in Run(cfg, actions).value.engine.groups
    ensures var e := Run(cfg, actions).value.engine;
      && (e.groups[g].buckets != map[] <==> e.groups[g].idleTimer.Some?)
      && (e.groups[g].buckets != map[] <==> e.groups[g].hardTimer.Some?)
      && (e.groups[g].buckets != map[] ==>
            && Outstanding(e.timers, e.groups[g].idleTimer, g, e.groups[g].generation)
            && Outstanding(e.timers, e.groups[g].hardTimer, g, e.groups[g].generation))
      && (forall i :: 0 <= i < |e.timers| && e.timers[i].groupKey == g && e.timers[i].status == Due ==>
            (Callback(e, i).1.Some? <==> e.timers[i].generation == e.groups[g].generation))
  {
    RunKeepsInv(cfg, actions);
    var e := Run(cfg, actions).value.engine;
    assert GroupOk(e, g);
    forall i | 0 <= i < |e.timers| && e.timers[i].groupKey == g && e.timers[i].status == Due
      ensures Callback(e, i).1.Some? <==> e.timers[i].generation == e.groups[g].generation
    {
      CallbackKeepsInv(e, i);
    }
  }

  /** The batches taken from a group carry the generations 0, 1, 2, ... in order, so
      none is flushed twice and none is skipped. */
  lemma {:induction false} EachGenerationOnce(cfg: Config, actions: seq<Action>, g: string)
    requires Run(cfg, actions).Some?
    ensures var s := Run(cfg, actions).value;
      Generations(s.flushed, g) == UpTo(GroupOf(s.engine, g).generation)
  {
    RunKeepsInv(cfg, actions);
  }

  /** Every event a session ever holds shares the key's group and revision (and its
      trigger when triggers are kept apart), under its own app name. */
  lemma SessionsAreKeyed(cfg: Config, actions: seq<Action>, key: SessionKey)
    requires Run(cfg, actions).Some? && key in Run(cfg, actions).value.store.sessions
    ensures SessionKeyed(cfg, key, Run(cfg, actions).value.store.sessions[key].perApp)
  {
    RunKeepsInv(cfg, actions);
  }
}
