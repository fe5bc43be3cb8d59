/** The timed debounce engine feeding the session store: how long an event takes to
    reach its session, and when it is certain to find the same session object. A
    flush hands its calls to the publisher, which takes the lock for each at most
    `lag` after the flush; `lag` covers the deliveries of the calls made before it. */
module Timing {
  import opened Domain
  import opened EngineModel
  import Debounce
  import Flush
  import SessionModel

  datatype Config = Config(engine: EngineConfig, ttl: int, lag: nat)

  /** The session of an event's key when the event arrived: its last use and object. */
  datatype Mark = Mark(at: int, id: nat)

  /** A call on its way to the publisher, with the arrivals it consists of. */
  datatype Call = Call(flushedAt: int, call: UpsertCall, arrivals: seq<Debounce.Arrival>)

  /** A call that took the publisher's lock at `at` and got session object `id`. */
  datatype Upserted = Upserted(at: int, id: nat, call: Call)

  datatype State = State(
    timed: Debounce.State,
    pending: seq<Call>,
    store: SessionModel.Store,
    upserts: seq<Upserted>,
    marks: seq<Option<Mark>>)                   // by arrival number

  datatype Action =
    | Arrive(ev: Event)
    | Fire(timer: nat, calls: seq<UpsertCall>)
    | Advance(to: int)
    | Upsert(which: nat)

  function KeyOf(cfg: Config, ev: Event): SessionKey {
    Flush.KeyFor(cfg.engine, ev.groupKey, ev.trigger, ev)
  }

  /** The arrivals that belong to one session. */
  function ForKey(cfg: Config, arrivals: seq<Debounce.Arrival>, key: SessionKey): seq<Debounce.Arrival> {
    if arrivals == [] then [] else
      var last := arrivals[|arrivals| - 1];
      ForKey(cfg, arrivals[..|arrivals| - 1], key) + (if KeyOf(cfg, last.ev) == key then [last] else [])
  }

  function EventsOf(arrivals: seq<Debounce.Arrival>): seq<Event> {
    if arrivals == [] then [] else EventsOf(arrivals[..|arrivals| - 1]) + [arrivals[|arrivals| - 1].ev]
  }

  function CallsAt(cfg: Config, at: int, calls: seq<UpsertCall>, arrivals: seq<Debounce.Arrival>): seq<Call> {
    seq(|calls|, i requires 0 <= i < |calls| => Call(at, calls[i], ForKey(cfg, arrivals, calls[i].key)))
  }

  function MarkFor(cfg: Config, s: State, ev: Event): Option<Mark> {
    var key := KeyOf(cfg, ev);
    if key in s.store.sessions then Some(Mark(s.store.sessions[key].lastFlush, s.store.sessions[key].id)) else None
  }

  ghost predicate Enabled(cfg: Config, s: State, a: Action) {
    match a
    case Arrive(ev) => Debounce.Enabled(s.timed, Debounce.Arrive(ev))
    case Fire(i, calls) =>
      && Debounce.Enabled(s.timed, Debounce.Fire(i))
      && var snap := Callback(s.timed.engine, i).1;
      && snap.Some? && Flush.IsSplit(cfg.engine, snap.value.groupKey, snap.value.buckets, calls)
    case Advance(to) =>
      && Debounce.Enabled(s.timed, Debounce.Advance(to))
      && forall j :: 0 <= j < |s.pending| ==> to <= s.pending[j].flushedAt + cfg.lag
    case Upsert(j) => j < |s.pending|
  }

  function Arrived(cfg: Config, s: State, ev: Event): State {
    s.(timed := Debounce.Arrived(cfg.engine, s.timed, ev), marks := s.marks + [MarkFor(cfg, s, ev)])
  }

  /** A callback takes a batch, and its calls are queued. */
  function Taken(cfg: Config, s: State, i: nat, calls: seq<UpsertCall>): State
    requires i < |s.timed.engine.timers| && Callback(s.timed.engine, i).1.Some?
  {
    var timed := Debounce.Taken(s.timed, i);
    var closed := timed.log[|timed.log| - 1];
    s.(timed := timed, pending := s.pending + CallsAt(cfg, closed.at, calls, closed.arrivals))
  }

  /** Call `j` takes the publisher's lock. */
  function Used(cfg: Config, s: State, j: nat): State
    requires j < |s.pending|
  {
    var c, now := s.pending[j], s.timed.engine.now;
    var (store, t) := SessionModel.Begin(cfg.ttl, s.store, now, c.call.key, c.call.events);
    s.(pending := s.pending[..j] + s.pending[j + 1..], store := store, upserts := s.upserts + [Upserted(now, t.id, c)])
  }

  ghost function Apply(cfg: Config, s: State, a: Action): State
    requires Enabled(cfg, s, a)
  {
    match a
    case Arrive(ev) => Arrived(cfg, s, ev)
    case Fire(i, calls) => Taken(cfg, s, i, calls)
    case Advance(to) => s.(timed := s.timed.(engine := s.timed.engine.(now := to)))
    case Upsert(j) => Used(cfg, s, j)
  }

  ghost function Run(cfg: Config, start: int, actions: seq<Action>): Option<State> {
    if actions == [] then Some(State(Debounce.Initial(start), [], SessionModel.Store(map[], 0), [], []))
    else
      var before := Run(cfg, start, actions[..|actions| - 1]);
      var a := actions[|actions| - 1];
      if before.Some? && Enabled(cfg, before.value, a) then Some(Apply(cfg, before.value, a)) else None
  }

  // ----- the invariant -----

  function MaxWait(cfg: Config): (wait: nat)
    ensures 0 <= cfg.engine.maxWait ==> wait == cfg.engine.maxWait
  {
    Delay(cfg.engine.maxWait)
  }

  /** The event arrived soon enough after the last use of its session. */
  predicate Soon(cfg: Config, marks: seq<Option<Mark>>, a: Debounce.Arrival) {
    && a.id < |marks| && marks[a.id].Some?
    && a.at - marks[a.id].value.at <= cfg.ttl - MaxWait(cfg) - cfg.lag
  }

  /** An arrival that has not reached its session: its mark is no later than it, and
      if it came soon enough, the session it was marked with is still in place. */
  predicate Waiting(cfg: Config, store: SessionModel.Store, marks: seq<Option<Mark>>, a: Debounce.Arrival) {
    && a.id < |marks|
    && (Soon(cfg, marks, a) ==>
          && KeyOf(cfg, a.ev) in store.sessions
          && store.sessions[KeyOf(cfg, a.ev)].id == marks[a.id].value.id
          && marks[a.id].value.at <= store.sessions[KeyOf(cfg, a.ev)].lastFlush)
  }

  ghost predicate OpenOk(cfg: Config, s: State, g: string) {
    forall a :: a in Debounce.OpenOf(s.timed, g) ==> a.ev.groupKey == g && Waiting(cfg, s.store, s.marks, a)
  }

  ghost predicate CallOk(cfg: Config, s: State, c: Call) {
    && c.flushedAt <= s.timed.engine.now <= c.flushedAt + cfg.lag
    && multiset(c.call.events) == multiset(EventsOf(c.arrivals))
    && forall a :: a in c.arrivals ==>
         && KeyOf(cfg, a.ev) == c.call.key && a.at <= c.flushedAt <= a.at + MaxWait(cfg)
         && Waiting(cfg, s.store, s.marks, a)
  }

  ghost predicate UpsertedOk(cfg: Config, s: State, u: Upserted) {
    && multiset(u.call.call.events) == multiset(EventsOf(u.call.arrivals))
    && u.call.flushedAt <= u.at
    && forall a :: a in u.call.arrivals ==>
         && KeyOf(cfg, a.ev) == u.call.call.key && a.at <= u.at <= a.at + MaxWait(cfg) + cfg.lag
         && a.id < |s.marks| && (Soon(cfg, s.marks, a) ==> u.id == s.marks[a.id].value.id)
  }

  ghost predicate Inv(cfg: Config, s: State) {
    && Debounce.Inv(cfg.engine, s.timed)
    && |s.marks| == |s.timed.history|
    && (forall k :: k in s.store.sessions ==> s.store.sessions[k].lastFlush <= s.timed.engine.now)
    && (forall g :: OpenOk(cfg, s, g))
    && (forall j :: 0 <= j < |s.pending| ==> CallOk(cfg, s, s.pending[j]))
    && (forall j :: 0 <= j < |s.upserts| ==> UpsertedOk(cfg, s, s.upserts[j]))
  }

  // ----- the calls of a flush carry exactly its arrivals -----

  lemma {:induction false} ForKeyMembers(cfg: Config, arrivals: seq<Debounce.Arrival>, key: SessionKey)
    ensures forall a :: a in ForKey(cfg, arrivals, key) <==> a in arrivals && KeyOf(cfg, a.ev) == key
  {
    if arrivals == [] {
    } else {
      var init := arrivals[..|arrivals| - 1];
      ForKeyMembers(cfg, init, key);
      assert arrivals == init + [arrivals[|arrivals| - 1]];
    }
  }

  lemma {:induction false} ForKeyCount(cfg: Config, arrivals: seq<Debounce.Arrival>, key: SessionKey, ev: Event)
    ensures multiset(EventsOf(ForKey(cfg, arrivals, key)))[ev]
         == if KeyOf(cfg, ev) == key then multiset(EventsOf(arrivals))[ev] else 0
  {
    if arrivals == [] {
    } else {
      var init, last := arrivals[..|arrivals| - 1], arrivals[|arrivals| - 1];
      ForKeyCount(cfg, init, key, ev);
      var mine := ForKey(cfg, init, key);
      if KeyOf(cfg, last.ev) == key {
        assert (mine + [last])[..|mine|] == mine;
        assert EventsOf(mine + [last]) == EventsOf(mine) + [last.ev];
      } else {
        assert ForKey(cfg, arrivals, key) == mine;
      }
    }
  }

  lemma {:induction false} BucketizeCount(arrivals: seq<Debounce.Arrival>, ev: Event)
    ensures var buckets := Debounce.Bucketize(arrivals);
      multiset(EventsOf(arrivals))[ev] == if ev.trigger in buckets then multiset(buckets[ev.trigger])[ev] else 0
  {
    if arrivals == [] {
    } else {
      BucketizeCount(arrivals[..|arrivals| - 1], ev);
    }
  }

  lemma CallCarries(cfg: Config, groupKey: string, arrivals: seq<Debounce.Arrival>, calls: seq<UpsertCall>, i: nat)
    requires forall a :: a in arrivals ==> a.ev.groupKey == groupKey
    requires Flush.IsSplit(cfg.engine, groupKey, Debounce.Bucketize(arrivals), calls) && i < |calls|
    ensures multiset(calls[i].events) == multiset(EventsOf(ForKey(cfg, arrivals, calls[i].key)))
  {
    var c, buckets := calls[i], Debounce.Bucketize(arrivals);
    assert Flush.CallOk(cfg.engine, groupKey, buckets, c);
    forall ev ensures multiset(c.events)[ev] == multiset(EventsOf(ForKey(cfg, arrivals, c.key)))[ev] {
      CarriesAsOften(cfg, groupKey, arrivals, c, ev);
    }
  }

  lemma CarriesAsOften(cfg: Config, groupKey: string, arrivals: seq<Debounce.Arrival>, c: UpsertCall, ev: Event)
    requires forall a :: a in arrivals ==> a.ev.groupKey == groupKey
    requires Flush.CallOk(cfg.engine, groupKey, Debounce.Bucketize(arrivals), c)
    ensures multiset(c.events)[ev] == multiset(EventsOf(ForKey(cfg, arrivals, c.key)))[ev]
  {
    var buckets := Debounce.Bucketize(arrivals);
    ForKeyCount(cfg, arrivals, c.key, ev);
    BucketizeCount(arrivals, ev);
    Flush.CountOfTrigger(c.events, ev);
    EventsGroup(arrivals, groupKey);
    hide EventsOf, ForKey, Debounce.Bucketize, Flush.OfTrigger;
    assert ev in c.events <==> multiset(c.events)[ev] > 0;
    if ev.trigger in buckets && Flush.KeyFor(cfg.engine, groupKey, ev.trigger, ev) == c.key {
      Flush.CountWithKey(cfg.engine, groupKey, ev.trigger, buckets[ev.trigger], ev);
      assert ev in EventsOf(arrivals) <==> multiset(EventsOf(arrivals))[ev] > 0;
    } else {
      assert ev !in c.events;
      assert ev in EventsOf(arrivals) <==> multiset(EventsOf(arrivals))[ev] > 0;
    }
  }

  lemma {:induction false} EventsGroup(arrivals: seq<Debounce.Arrival>, groupKey: string)
    requires forall a :: a in arrivals ==> a.ev.groupKey == groupKey
    ensures forall ev :: ev in EventsOf(arrivals) ==> ev.groupKey == groupKey
  {
    if arrivals == [] {
    } else {
      EventsGroup(arrivals[..|arrivals| - 1], groupKey);
    }
  }

  // ----- steps -----

  lemma WaitingStays(cfg: Config, store: SessionModel.Store, marks: seq<Option<Mark>>, m: Option<Mark>,
                     a: Debounce.Arrival)
    requires Waiting(cfg, store, marks, a)
    ensures Waiting(cfg, store, marks + [m], a) && (Soon(cfg, marks + [m], a) <==> Soon(cfg, marks, a))
  {
  }

  lemma ArriveKeepsInv(cfg: Config, s: State, ev: Event)
    requires Inv(cfg, s) && Enabled(cfg, s, Arrive(ev))
    ensures Inv(cfg, Apply(cfg, s, Arrive(ev)))
  {
    var s' := Apply(cfg, s, Arrive(ev));
    Debounce.StepKeepsInv(cfg.engine, s.timed, Debounce.Arrive(ev));
    var m := MarkFor(cfg, s, ev);
    assert s' == s.(timed := s'.timed, marks := s.marks + [m]) && s'.timed.engine.now == s.timed.engine.now;
    forall g ensures OpenOk(cfg, s', g) {
      assert OpenOk(cfg, s, g);
      ArriveKeepsOpen(cfg, s, ev, g);
    }
    hide Debounce.Inv, Apply, MarkFor, OpenOk;
    forall j | 0 <= j < |s'.pending| ensures CallOk(cfg, s', s'.pending[j]) {
      MarkedCallOk(cfg, s, s', s.pending[j], m);
    }
    hide CallOk;
    forall j | 0 <= j < |s'.upserts| ensures UpsertedOk(cfg, s', s'.upserts[j]) {
      assert UpsertedOk(cfg, s, s.upserts[j]);
    }
  }

  lemma ArriveKeepsOpen(cfg: Config, s: State, ev: Event, g: string)
    requires OpenOk(cfg, s, g) && Enabled(cfg, s, Arrive(ev)) && |s.marks| == |s.timed.history|
    requires forall k :: k in s.store.sessions ==> s.store.sessions[k].lastFlush <= s.timed.engine.now
    ensures OpenOk(cfg, Apply(cfg, s, Arrive(ev)), g)
  {
    hide Ingest;
    var s' := Apply(cfg, s, Arrive(ev));
    forall a | a in Debounce.OpenOf(s'.timed, g) ensures a.ev.groupKey == g && Waiting(cfg, s'.store, s'.marks, a) {
      if a in Debounce.OpenOf(s.timed, g) { WaitingStays(cfg, s.store, s.marks, MarkFor(cfg, s, ev), a); }
    }
  }

  lemma MarkedCallOk(cfg: Config, s: State, s': State, c: Call, m: Option<Mark>)
    requires CallOk(cfg, s, c) && s'.store == s.store && s'.marks == s.marks + [m]
    requires s'.timed.engine.now == s.timed.engine.now
    ensures CallOk(cfg, s', c)
  {
    hide EventsOf;
    forall a | a in c.arrivals ensures Waiting(cfg, s'.store, s'.marks, a) {
      WaitingStays(cfg, s.store, s.marks, m, a);
    }
  }

  lemma AdvanceKeepsInv(cfg: Config, s: State, to: int)
    requires Inv(cfg, s) && Enabled(cfg, s, Advance(to))
    ensures Inv(cfg, Apply(cfg, s, Advance(to)))
  {
    var s' := Apply(cfg, s, Advance(to));
    Debounce.StepKeepsInv(cfg.engine, s.timed, Debounce.Advance(to));
    hide Debounce.Inv, Waiting;
    forall g ensures OpenOk(cfg, s', g) {
      assert OpenOk(cfg, s, g) && Debounce.OpenOf(s'.timed, g) == Debounce.OpenOf(s.timed, g);
    }
    forall j | 0 <= j < |s'.pending| ensures CallOk(cfg, s', s'.pending[j]) {
      assert CallOk(cfg, s, s.pending[j]);
    }
    forall j | 0 <= j < |s'.upserts| ensures UpsertedOk(cfg, s', s'.upserts[j]) {
      assert UpsertedOk(cfg, s, s.upserts[j]);
    }
  }

  /** A fired timer turns the open batch of its group into calls. */
  lemma FireClosed(cfg: Config, s: State, i: nat, calls: seq<UpsertCall>)
    requires Inv(cfg, s) && Enabled(cfg, s, Fire(i, calls))
    ensures var s' := Apply(cfg, s, Fire(i, calls));
      var g, now := s.timed.engine.timers[i].groupKey, s.timed.engine.now;
      var b := Debounce.OpenOf(s.timed, g);
      && s'.timed.engine.now == now && s'.timed.open == s.timed.open[g := []]
      && s'.pending == s.pending + CallsAt(cfg, now, calls, b)
      && Flush.IsSplit(cfg.engine, g, Debounce.Bucketize(b), calls)
      && (forall n :: 0 <= n < |b| ==> b[n].at <= now <= b[n].at + MaxWait(cfg))
  {
    Debounce.FireCloses(cfg.engine, s.timed, i);
    Debounce.StepKeepsInv(cfg.engine, s.timed, Debounce.Fire(i));
    var timed := Apply(cfg, s, Fire(i, calls)).timed;
    assert Debounce.ClosedOk(cfg.engine, timed, timed.log[|timed.log| - 1]);
    hide Debounce.Inv, Callback, Debounce.Bucketize, Flush.IsSplit;
  }

  lemma FiredCallOk(cfg: Config, s: State, i: nat, calls: seq<UpsertCall>, k: nat)
    requires Inv(cfg, s) && Enabled(cfg, s, Fire(i, calls)) && k < |calls|
    ensures var s' := Apply(cfg, s, Fire(i, calls));
      |s'.pending| == |s.pending| + |calls| && CallOk(cfg, s', s'.pending[|s.pending| + k])
  {
    hide Callback, Debounce.Apply, Debounce.Inv, Debounce.Bucketize, Waiting, Flush.IsSplit, EventsOf, ForKey, Apply;
    FireClosed(cfg, s, i, calls);
    FireShape(cfg, s, i, calls);
    var g, now := s.timed.engine.timers[i].groupKey, s.timed.engine.now;
    var b := Debounce.OpenOf(s.timed, g);
    assert OpenOk(cfg, s, g);
    CallCarries(cfg, g, b, calls, k);
    var s' := Apply(cfg, s, Fire(i, calls));
    CallMade(cfg, s', b, calls[k]);
    assert s'.pending[|s.pending| + k] == Call(now, calls[k], ForKey(cfg, b, calls[k].key));
  }

  lemma CallMade(cfg: Config, s: State, b: seq<Debounce.Arrival>, call: UpsertCall)
    requires forall n :: 0 <= n < |b| ==> b[n].at <= s.timed.engine.now <= b[n].at + MaxWait(cfg)
    requires forall a :: a in b ==> Waiting(cfg, s.store, s.marks, a)
    requires multiset(call.events) == multiset(EventsOf(ForKey(cfg, b, call.key)))
    ensures CallOk(cfg, s, Call(s.timed.engine.now, call, ForKey(cfg, b, call.key)))
  {
    ForKeyMembers(cfg, b, call.key);
    hide Waiting, EventsOf, ForKey;
    forall a | a in ForKey(cfg, b, call.key) ensures a.at <= s.timed.engine.now <= a.at + MaxWait(cfg) {
      var n :| 0 <= n < |b| && b[n] == a;
    }
  }

  lemma FireShape(cfg: Config, s: State, i: nat, calls: seq<UpsertCall>)
    requires Inv(cfg, s) && Enabled(cfg, s, Fire(i, calls))
    ensures var s' := Apply(cfg, s, Fire(i, calls));
      && Debounce.Inv(cfg.engine, s'.timed)
      && s'.timed.engine.now == s.timed.engine.now && s'.timed.history == s.timed.history
      && s'.store == s.store && s'.marks == s.marks && s'.upserts == s.upserts && s.pending <= s'.pending
      && |s'.pending| == |s.pending| + |calls|
      && (forall k, a :: a in Debounce.OpenOf(s'.timed, k) ==> a in Debounce.OpenOf(s.timed, k))
  {
    Debounce.FireCloses(cfg.engine, s.timed, i);
    Debounce.StepKeepsInv(cfg.engine, s.timed, Debounce.Fire(i));
    hide Debounce.Inv, Callback, Flush.IsSplit;
  }

  lemma FireKeepsInv(cfg: Config, s: State, i: nat, calls: seq<UpsertCall>)
    requires Inv(cfg, s) && Enabled(cfg, s, Fire(i, calls))
    ensures Inv(cfg, Apply(cfg, s, Fire(i, calls)))
  {
    var s' := Apply(cfg, s, Fire(i, calls));
    FireShape(cfg, s, i, calls);
    hide Debounce.Inv, Callback, Waiting, Flush.IsSplit, Debounce.Apply, EventsOf, Apply;
    forall k ensures OpenOk(cfg, s', k) {
      assert OpenOk(cfg, s, k);
    }
    forall j | 0 <= j < |s'.pending| ensures CallOk(cfg, s', s'.pending[j]) {
      if j < |s.pending| {
        assert CallOk(cfg, s, s.pending[j]);
      } else {
        FiredCallOk(cfg, s, i, calls, j - |s.pending|);
      }
    }
    forall j | 0 <= j < |s'.upserts| ensures UpsertedOk(cfg, s', s'.upserts[j]) {
      assert UpsertedOk(cfg, s, s.upserts[j]);
    }
  }

  /** An arrival not yet late keeps its promise over a use of any session, and a use
      of its own session finds the object it was marked with. */
  lemma UseKeepsPromise(cfg: Config, store: SessionModel.Store, marks: seq<Option<Mark>>, now: int, c: UpsertCall,
                        a: Debounce.Arrival)
    requires Waiting(cfg, store, marks, a) && now <= a.at + MaxWait(cfg) + cfg.lag
    requires forall k :: k in store.sessions ==> store.sessions[k].lastFlush <= now
    ensures var (store', t) := SessionModel.Begin(cfg.ttl, store, now, c.key, c.events);
      && Waiting(cfg, store', marks, a)
      && (Soon(cfg, marks, a) && KeyOf(cfg, a.ev) == c.key ==> t.id == marks[a.id].value.id)
  {
    hide SessionModel.Merge;
  }

  lemma UpsertKeepsInv(cfg: Config, s: State, j: nat)
    requires Inv(cfg, s) && Enabled(cfg, s, Upsert(j))
    ensures Inv(cfg, Apply(cfg, s, Upsert(j)))
  {
    hide Debounce.Inv, Waiting, EventsOf, SessionModel.Merge;
    var s' := Apply(cfg, s, Upsert(j));
    var c, now := s.pending[j], s.timed.engine.now;
    assert CallOk(cfg, s, c);
    forall g ensures OpenOk(cfg, s', g) {
      assert OpenOk(cfg, s, g);
      forall a | a in Debounce.OpenOf(s.timed, g) ensures Waiting(cfg, s'.store, s'.marks, a) {
        Debounce.OpenNotLate(cfg.engine, s.timed, g, a);
        UseKeepsPromise(cfg, s.store, s.marks, now, c.call, a);
      }
    }
    forall k | 0 <= k < |s'.pending| ensures CallOk(cfg, s', s'.pending[k]) {
      var p := s'.pending[k];
      assert p == s.pending[if k < j then k else k + 1];
      assert CallOk(cfg, s, p);
      forall a | a in p.arrivals ensures Waiting(cfg, s'.store, s'.marks, a) {
        UseKeepsPromise(cfg, s.store, s.marks, now, c.call, a);
      }
    }
    forall k | 0 <= k < |s'.upserts| ensures UpsertedOk(cfg, s', s'.upserts[k]) {
      if k < |s.upserts| {
        assert UpsertedOk(cfg, s, s.upserts[k]);
      } else {
        forall a | a in c.arrivals
          ensures a.id < |s.marks| && (Soon(cfg, s.marks, a) ==> s'.upserts[k].id == s.marks[a.id].value.id)
        {
          UseKeepsPromise(cfg, s.store, s.marks, now, c.call, a);
          WaitingHasMark(cfg, s.store, s.marks, a);
        }
      }
    }
  }

  lemma WaitingHasMark(cfg: Config, store: SessionModel.Store, marks: seq<Option<Mark>>, a: Debounce.Arrival)
    requires Waiting(cfg, store, marks, a)
    ensures a.id < |marks|
  {
  }

  lemma {:induction false} RunKeepsInv(cfg: Config, start: int, actions: seq<Action>)
    requires Run(cfg, start, actions).Some?
    ensures Inv(cfg, Run(cfg, start, actions).value)
  {
    if actions == [] {
      Debounce.InitialOk(cfg.engine, start);
    } else {
      RunKeepsInv(cfg, start, actions[..|actions| - 1]);
      var s, a := Run(cfg, start, actions[..|actions| - 1]).value, actions[|actions| - 1];
      hide Inv, Apply;
      match a
      case Arrive(ev) => ArriveKeepsInv(cfg, s, ev);
      case Fire(i, calls) => FireKeepsInv(cfg, s, i, calls);
      case Advance(to) => AdvanceKeepsInv(cfg, s, to);
      case Upsert(j) => UpsertKeepsInv(cfg, s, j);
    }
  }

  // ----- where the arrivals are -----

  datatype Place = Open(groupKey: string) | Queued(call: nat) | Made(call: nat)

  function CallAt(s: State, p: Place): Option<Call> {
    match p
    case Open(_) => None
    case Queued(j) => if j < |s.pending| then Some(s.pending[j]) else None
    case Made(j) => if j < |s.upserts| then Some(s.upserts[j].call) else None
  }

  function ArrivalsAt(s: State, p: Place): seq<Debounce.Arrival> {
    if p.Open? then Debounce.OpenOf(s.timed, p.groupKey)
    else if CallAt(s, p).Some? then CallAt(s, p).value.arrivals
    else []
  }

  function View(s: State): Place -> seq<Debounce.Arrival> {
    p => ArrivalsAt(s, p)
  }

  /** Each arrival is in one place exactly: an open batch, a call to make or one made. */
  ghost predicate Placed(s: State) {
    Debounce.PlacedAt(View(s), s.timed.history)
  }

  lemma {:induction false} ForKeyDistinct(cfg: Config, arrivals: seq<Debounce.Arrival>, key: SessionKey)
    requires Debounce.DistinctIds(arrivals)
    ensures Debounce.DistinctIds(ForKey(cfg, arrivals, key))
  {
    if arrivals == [] {
    } else {
      var init, last := arrivals[..|arrivals| - 1], arrivals[|arrivals| - 1];
      ForKeyDistinct(cfg, init, key);
      ForKeyMembers(cfg, init, key);
      var mine := ForKey(cfg, init, key);
      forall k | 0 <= k < |mine| ensures mine[k].id != last.id {
        assert mine[k] in init;
      }
    }
  }

  lemma {:induction false} BucketizeKeeps(arrivals: seq<Debounce.Arrival>, a: Debounce.Arrival)
    requires a in arrivals
    ensures var buckets := Debounce.Bucketize(arrivals); a.ev.trigger in buckets && a.ev in buckets[a.ev.trigger]
  {
    var init, last := arrivals[..|arrivals| - 1], arrivals[|arrivals| - 1];
    if a != last {
      assert a in init;
      BucketizeKeeps(init, a);
    }
  }

  /** The calls of a flush share its arrivals out, and the open batch is gone. */
  lemma FireMoves(cfg: Config, s: State, i: nat, calls: seq<UpsertCall>)
    requires Inv(cfg, s) && Enabled(cfg, s, Fire(i, calls))
    ensures var s', g, n := Apply(cfg, s, Fire(i, calls)), s.timed.engine.timers[i].groupKey, |s.pending|;
      && s'.timed.history == s.timed.history
      && (forall p: Place :: View(s')(p) ==
            if p == Open(g) then []
            else if p.Queued? && n <= p.call < n + |calls| then ForKey(cfg, View(s)(Open(g)), calls[p.call - n].key)
            else View(s)(p))
      && (forall j, k :: 0 <= j < k < |calls| ==> calls[j].key != calls[k].key)
      && (forall a :: a in View(s)(Open(g)) ==> Flush.HasKey(calls, KeyOf(cfg, a.ev)))
  {
    var g := s.timed.engine.timers[i].groupKey;
    hide Inv, Debounce.Inv, Callback, Debounce.Bucketize, Apply, Enabled, ForKey, KeyOf;
    FireClosed(cfg, s, i, calls);
    FireShape(cfg, s, i, calls);
    BatchHasKeys(cfg, s, g, calls);
    FiredView(cfg, s, Apply(cfg, s, Fire(i, calls)), g, s.timed.engine.now, calls);
    hide Flush.CallOk, Flush.HasKey, View, Debounce.OpenOf, CallsAt;
  }

  lemma FiredView(cfg: Config, s: State, s': State, g: string, now: int, calls: seq<UpsertCall>)
    requires s'.timed.open == s.timed.open[g := []] && s'.upserts == s.upserts
    requires s'.pending == s.pending + CallsAt(cfg, now, calls, Debounce.OpenOf(s.timed, g))
    ensures View(s)(Open(g)) == Debounce.OpenOf(s.timed, g)
    ensures forall p: Place ::
      View(s')(p) ==
        if p == Open(g) then []
        else if p.Queued? && |s.pending| <= p.call < |s.pending| + |calls|
        then ForKey(cfg, Debounce.OpenOf(s.timed, g), calls[p.call - |s.pending|].key)
        else View(s)(p)
  {
    hide ForKey;
  }

  /** Every arrival of the open batch has a call with its key. */
  lemma BatchHasKeys(cfg: Config, s: State, g: string, calls: seq<UpsertCall>)
    requires Inv(cfg, s) && Flush.IsSplit(cfg.engine, g, Debounce.Bucketize(Debounce.OpenOf(s.timed, g)), calls)
    ensures forall a :: a in Debounce.OpenOf(s.timed, g) ==> Flush.HasKey(calls, KeyOf(cfg, a.ev))
  {
    assert OpenOk(cfg, s, g);
    hide Inv, Debounce.Inv, Debounce.Bucketize, Waiting, Flush.CallOk, Flush.HasKey;
    forall a | a in Debounce.OpenOf(s.timed, g) ensures Flush.HasKey(calls, KeyOf(cfg, a.ev)) {
      BucketizeKeeps(Debounce.OpenOf(s.timed, g), a);
    }
  }

  lemma FireKeepsPlaced(cfg: Config, s: State, i: nat, calls: seq<UpsertCall>)
    requires Inv(cfg, s) && Placed(s) && Enabled(cfg, s, Fire(i, calls))
    ensures Placed(Apply(cfg, s, Fire(i, calls)))
  {
    hide Inv, Apply, Debounce.PlacedAt, ForKey, KeyOf, Flush.HasKey, Callback;
    FireMoves(cfg, s, i, calls);
    NoLaterCalls(s);
    hide Enabled, View;
    SharedOut(cfg, View(s), View(Apply(cfg, s, Fire(i, calls))), s.timed.history,
              Open(s.timed.engine.timers[i].groupKey), |s.pending|, calls);
  }

  lemma NoLaterCalls(s: State)
    ensures forall p: Place :: p.Queued? && |s.pending| <= p.call ==> View(s)(p) == []
  {
  }

  function Fired(open: Place, n: nat, calls: seq<UpsertCall>, p: Place): Place {
    if p.Queued? && n <= p.call < n + |calls| then open else p
  }

  /** One open batch is shared out over new calls, by key. */
  ghost predicate Shares(cfg: Config, at: Place -> seq<Debounce.Arrival>, at': Place -> seq<Debounce.Arrival>,
                         open: Place, n: nat, calls: seq<UpsertCall>)
  {
    && open.Open?
    && (forall p: Place :: p.Queued? && n <= p.call ==> at(p) == [])
    && (forall p: Place :: at'(p) == (
          if p == open then []
          else if Fired(open, n, calls, p) == open then ForKey(cfg, at(open), calls[p.call - n].key)
          else at(p)))
    && (forall j, k :: 0 <= j < k < |calls| ==> calls[j].key != calls[k].key)
    && (forall a :: a in at(open) ==> Flush.HasKey(calls, KeyOf(cfg, a.ev)))
  }

  lemma SharedOut(cfg: Config, at: Place -> seq<Debounce.Arrival>, at': Place -> seq<Debounce.Arrival>,
                  history: seq<Debounce.Arrival>, open: Place, n: nat, calls: seq<UpsertCall>)
    requires Debounce.PlacedAt(at, history) && Shares(cfg, at, at', open, n, calls)
    ensures Debounce.PlacedAt(at', history)
  {
    hide Debounce.DistinctIds;
    assert Debounce.DistinctIds([]) by { assert Debounce.DistinctIds(at(Queued(n))); }
    forall p ensures Debounce.DistinctIds(at'(p)) {
      assert Debounce.DistinctIds(at(p)) && Debounce.DistinctIds(at(open));
      if p != open && Fired(open, n, calls, p) == open {
        ForKeyDistinct(cfg, at(open), calls[p.call - n].key);
      }
    }
    hide Debounce.PlacedAt, Shares;
    forall p, a | a in at'(p) ensures a in at(Fired(open, n, calls, p)) {
      ComesFrom(cfg, at, at', open, n, calls, p, a);
    }
    forall p, q, a | a in at'(p) && a in at'(q) && Fired(open, n, calls, p) == Fired(open, n, calls, q) ensures p == q {
      ComesFrom(cfg, at, at', open, n, calls, p, a);
      ComesFrom(cfg, at, at', open, n, calls, q, a);
      OneCallPerKey(cfg, at, at', open, n, calls, p, q);
    }
    forall p, a | a in at(p) ensures exists q :: a in at'(q) {
      GoesSomewhere(cfg, at, at', open, n, calls, p, a);
    }
    Debounce.Moved(at, at', history, p => Fired(open, n, calls, p));
  }

  lemma ComesFrom(cfg: Config, at: Place -> seq<Debounce.Arrival>, at': Place -> seq<Debounce.Arrival>,
                  open: Place, n: nat, calls: seq<UpsertCall>, p: Place, a: Debounce.Arrival)
    requires Shares(cfg, at, at', open, n, calls) && a in at'(p)
    ensures p != open && a in at(Fired(open, n, calls, p))
    ensures Fired(open, n, calls, p) == open ==> KeyOf(cfg, a.ev) == calls[p.call - n].key
  {
    hide ForKey, KeyOf, Flush.HasKey;
    if Fired(open, n, calls, p) == open {
      ForKeyMembers(cfg, at(open), calls[p.call - n].key);
    }
  }

  lemma OneCallPerKey(cfg: Config, at: Place -> seq<Debounce.Arrival>, at': Place -> seq<Debounce.Arrival>,
                      open: Place, n: nat, calls: seq<UpsertCall>, p: Place, q: Place)
    requires Shares(cfg, at, at', open, n, calls) && p != open && q != open
    requires Fired(open, n, calls, p) == Fired(open, n, calls, q)
    requires Fired(open, n, calls, p) == open ==> calls[p.call - n].key == calls[q.call - n].key
    ensures p == q
  {
  }

  lemma GoesSomewhere(cfg: Config, at: Place -> seq<Debounce.Arrival>, at': Place -> seq<Debounce.Arrival>,
                      open: Place, n: nat, calls: seq<UpsertCall>, p: Place, a: Debounce.Arrival)
    requires Shares(cfg, at, at', open, n, calls) && a in at(p)
    ensures exists q :: a in at'(q)
  {
    hide ForKey, KeyOf;
    if p == open {
      var k :| 0 <= k < |calls| && calls[k].key == KeyOf(cfg, a.ev);
      ForKeyMembers(cfg, at(open), calls[k].key);
      assert a in at'(Queued(n + k));
    } else {
      assert a in at'(p);
    }
  }

  lemma UpsertKeepsPlaced(cfg: Config, s: State, j: nat)
    requires Placed(s) && Enabled(cfg, s, Upsert(j))
    ensures Placed(Apply(cfg, s, Upsert(j)))
  {
    var s', m := Apply(cfg, s, Upsert(j)), |s.upserts|;
    UpsertMoves(cfg, s, j);
    assert s'.timed.history == s.timed.history && View(s)(Made(m)) == [];
    hide Apply, View, Debounce.DistinctIds;
    forall p ensures Debounce.DistinctIds(View(s')(p)) {
      assert Debounce.DistinctIds(View(s)(Source(m, j, p)));
    }
    forall p, a | a in View(s)(p) ensures exists q :: a in View(s')(q) {
      var q := if p == Queued(j) then Made(m) else if p.Queued? && j < p.call then Queued(p.call - 1) else p;
      assert Source(m, j, q) == p;
      assert a in View(s')(q);
    }
    forall p, q, a | a in View(s')(p) && a in View(s')(q) && Source(m, j, p) == Source(m, j, q) ensures p == q {
      assert p.Made? ==> p.call <= m;
    }
    hide Debounce.PlacedAt;
    Debounce.Moved(View(s), View(s'), s.timed.history, p => Source(m, j, p));
  }

  lemma UpsertMoves(cfg: Config, s: State, j: nat)
    requires j < |s.pending|
    ensures var s', m := Used(cfg, s, j), |s.upserts|;
      forall p :: CallAt(s', p) == CallAt(s, Source(m, j, p)) && View(s')(p) == View(s)(Source(m, j, p))
  {
    hide SessionModel.Begin;
  }

  function Source(m: nat, j: nat, p: Place): Place {
    if p == Made(m) then Queued(j) else if p.Queued? && j <= p.call then Queued(p.call + 1) else p
  }

  lemma StepKeepsPlaced(cfg: Config, s: State, a: Action)
    requires Inv(cfg, s) && Placed(s) && Enabled(cfg, s, a)
    ensures Placed(Apply(cfg, s, a))
  {
    var s' := Apply(cfg, s, a);
    hide Inv;
    match a
    case Fire(i, calls) => FireKeepsPlaced(cfg, s, i, calls);
    case Upsert(j) => UpsertKeepsPlaced(cfg, s, j);
    case Arrive(ev) =>
      hide Debounce.PlacedAt;
      Debounce.OneArrives(View(s), View(s'), s.timed.history, Open(ev.groupKey), Debounce.Arrival(s.timed.engine.now,
                          ev, |s.timed.history|));
    case Advance(to) =>
      assert forall p: Place :: View(s')(p) == View(s)(p);
      assert forall p, a :: a in View(s)(p) ==> a in View(s')(p);
      Debounce.Moved(View(s), View(s'), s.timed.history, p => p);
  }

  lemma {:induction false} RunKeepsPlaced(cfg: Config, start: int, actions: seq<Action>)
    requires Run(cfg, start, actions).Some?
    ensures Placed(Run(cfg, start, actions).value)
  {
    if actions == [] {
    } else {
      RunKeepsPlaced(cfg, start, actions[..|actions| - 1]);
      RunKeepsInv(cfg, start, actions[..|actions| - 1]);
      hide Inv, Placed, Apply;
      StepKeepsPlaced(cfg, Run(cfg, start, actions[..|actions| - 1]).value, actions[|actions| - 1]);
    }
  }

  // ----- the result -----

  /** Call `i` is one of the event's session; it came in time, carries exactly the events
      of its arrivals, and if the event arrived soon enough after the last use of its
      session, the call got that very session object. */
  ghost predicate Reached(cfg: Config, s: State, i: nat, a: Debounce.Arrival)
    requires i < |s.upserts|
  {
    var u := s.upserts[i];
    && KeyOf(cfg, a.ev) == u.call.call.key
    && multiset(u.call.call.events) == multiset(EventsOf(u.call.arrivals))
    && a.at <= u.at <= a.at + MaxWait(cfg) + cfg.lag
    && a.id < |s.marks|
    && (Soon(cfg, s.marks, a) ==> u.id == s.marks[a.id].value.id)
  }

  /** Call `i` carries the arrival. */
  predicate Carries(s: State, i: nat, a: Debounce.Arrival) {
    i < |s.upserts| && a in s.upserts[i].call.arrivals
  }

  /** Every event reaches its session, in one call, within MaxWait and the lag: once that
      time has passed the call has been made. If the event arrived within SessionTTL -
      MaxWait - lag of the last use of its session, it is merged into that very session
      object, so its message is edited and not replaced. */
  lemma {:induction false} ReachesTheSameSession(cfg: Config, start: int, actions: seq<Action>, a: Debounce.Arrival)
    requires Run(cfg, start, actions).Some? && a in Run(cfg, start, actions).value.timed.history
    ensures var s := Run(cfg, start, actions).value;
      && (s.timed.engine.now > a.at + MaxWait(cfg) + cfg.lag ==> exists i: nat :: Carries(s, i, a))
      && (forall i: nat :: Carries(s, i, a) ==> Reached(cfg, s, i, a))
      && (forall i: nat, j: nat :: Carries(s, i, a) && Carries(s, j, a) ==> i == j)
      && (forall i :: 0 <= i < |s.upserts| ==> Debounce.DistinctIds(s.upserts[i].call.arrivals))
  {
    RunKeepsInv(cfg, start, actions);
    RunKeepsPlaced(cfg, start, actions);
    var s := Run(cfg, start, actions).value;
    hide Run, Inv, Placed, Carries, Reached, Debounce.DistinctIds;
    var p := InOnePlace(s, a);
    AllReached(cfg, s, a);
    if p.Open? {
      BatchNotLate(cfg, s, p.groupKey, a);
    } else if p.Queued? {
      QueuedNotLate(cfg, s, p.call, a);
    } else {
      assert Carries(s, p.call, a);
    }
  }

  lemma BatchNotLate(cfg: Config, s: State, g: string, a: Debounce.Arrival)
    requires Inv(cfg, s) && a in Debounce.OpenOf(s.timed, g)
    ensures s.timed.engine.now <= a.at + MaxWait(cfg)
  {
    Debounce.OpenNotLate(cfg.engine, s.timed, g, a);
  }

  lemma AllReached(cfg: Config, s: State, a: Debounce.Arrival)
    requires Inv(cfg, s)
    ensures forall i: nat :: Carries(s, i, a) ==> Reached(cfg, s, i, a)
  {
    hide Debounce.Inv, OpenOk, CallOk, Soon, EventsOf, KeyOf;
    forall i: nat | Carries(s, i, a) ensures Reached(cfg, s, i, a) {
      assert UpsertedOk(cfg, s, s.upserts[i]);
    }
  }

  lemma QueuedNotLate(cfg: Config, s: State, j: nat, a: Debounce.Arrival)
    requires Inv(cfg, s) && j < |s.pending| && a in s.pending[j].arrivals
    ensures s.timed.engine.now <= a.at + MaxWait(cfg) + cfg.lag
  {
    hide Debounce.Inv, OpenOk, UpsertedOk, Waiting, EventsOf, KeyOf;
    assert CallOk(cfg, s, s.pending[j]);
  }

  lemma InOnePlace(s: State, a: Debounce.Arrival) returns (p: Place)
    requires Placed(s) && a in s.timed.history
    ensures a in ArrivalsAt(s, p) && (p.Made? ==> Carries(s, p.call, a))
    ensures forall i: nat, j: nat :: Carries(s, i, a) && Carries(s, j, a) ==> i == j
    ensures forall i :: 0 <= i < |s.upserts| ==> Debounce.DistinctIds(s.upserts[i].call.arrivals)
  {
    hide Debounce.DistinctIds;
    p :| a in View(s)(p);
    forall i | 0 <= i < |s.upserts|
      ensures View(s)(Made(i)) == s.upserts[i].call.arrivals && Debounce.DistinctIds(View(s)(Made(i)))
    {
    }
  }
}
