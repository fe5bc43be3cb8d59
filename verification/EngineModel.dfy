/** The debounce engine as a state machine on values: what `Ingest`, a timer and
    its callback do to the groups and to the timers ever created.

    A timer moves from Armed to Due when it expires (its callback now waits for
    the engine's lock) and to Done when the callback has run. `Stop` reaches only
    an Armed timer, so a Due callback still runs after it was stopped. */
module EngineModel {
  import opened Domain
  import Bags

  datatype EngineConfig = EngineConfig(idleWindow: int, maxWait: int, combineTriggers: bool)

  type Buckets = map<string, seq<Event>>

  datatype Status = Armed | Due | Stopped | Done

  datatype Timer = Timer(deadline: int, groupKey: string, generation: nat, status: Status)

  datatype Group = Group(buckets: Buckets, idleTimer: Option<nat>, hardTimer: Option<nat>, generation: nat)

  datatype Engine = Engine(groups: map<string, Group>, timers: seq<Timer>, now: int)

  /** What a callback takes out of a group and hands to `flush`. */
  datatype Snapshot = Snapshot(groupKey: string, generation: nat, buckets: Buckets)

  const NEW_GROUP := Group(map[], None, None, 0)

  /** `time.AfterFunc` treats a negative duration as zero. */
  function Delay(d: int): (r: nat)
    ensures 0 <= d ==> r == d
    ensures d < 0 ==> r == 0
  {
    if d < 0 then 0 else d
  }

  function StopTimer(timers: seq<Timer>, handle: Option<nat>): seq<Timer> {
    if handle.Some? && handle.value < |timers| && timers[handle.value].status == Armed
    then timers[handle.value := timers[handle.value].(status := Stopped)]
    else timers
  }

  function Append(buckets: Buckets, ev: Event): Buckets {
    buckets[ev.trigger := (if ev.trigger in buckets then buckets[ev.trigger] else []) + [ev]]
  }

  function GroupOf(s: Engine, groupKey: string): Group {
    if groupKey in s.groups then s.groups[groupKey] else NEW_GROUP
  }

  /** What `Ingest` does to the group of its event and to the timers. */
  function AddEvent(cfg: EngineConfig, g: Group, timers: seq<Timer>, now: int, ev: Event): (Group, seq<Timer>) {
    var opens := g.buckets == map[];
    var hardArmed := if opens
      then timers + [Timer(now + Delay(cfg.maxWait), ev.groupKey, g.generation, Armed)]
      else timers;
    var idleStopped := StopTimer(hardArmed, g.idleTimer);
    var idleArmed := idleStopped + [Timer(now + Delay(cfg.idleWindow), ev.groupKey, g.generation, Armed)];
    (Group(
       Append(g.buckets, ev),
       Some(|idleStopped|),
       if opens then Some(|timers|) else g.hardTimer,
       g.generation),
     idleArmed)
  }

  /** `Engine.Ingest`. */
  function Ingest(cfg: EngineConfig, s: Engine, ev: Event): Engine {
    var (g, timers) := AddEvent(cfg, GroupOf(s, ev.groupKey), s.timers, s.now, ev);
    Engine(s.groups[ev.groupKey := g], timers, s.now)
  }

  /** What taking the batch does to the group and to the timers. */
  function CloseBatch(g: Group, timers: seq<Timer>): (Group, seq<Timer>) {
    (Group(map[], None, None, g.generation + 1), StopTimer(StopTimer(timers, g.idleTimer), g.hardTimer))
  }

  /** `Engine.onTimerFire`, up to the point where it releases the lock. */
  function OnTimerFire(s: Engine, groupKey: string, generation: nat): (Engine, Option<Snapshot>) {
    if groupKey !in s.groups || s.groups[groupKey].generation != generation || s.groups[groupKey].buckets == map[]
    then (s, None)
    else
      var (g, timers) := CloseBatch(s.groups[groupKey], s.timers);
      (Engine(s.groups[groupKey := g], timers, s.now), Some(Snapshot(groupKey, generation, s.groups[groupKey].buckets)))
  }

  /** The runtime notices that timer `i` has expired. */
  function Expire(s: Engine, i: nat): Engine
    requires i < |s.timers|
  {
    s.(timers := s.timers[i := s.timers[i].(status := Due)])
  }

  /** The callback of timer `i` obtains the lock and runs. */
  function Callback(s: Engine, i: nat): (Engine, Option<Snapshot>)
    requires i < |s.timers|
  {
    OnTimerFire(s.(timers := s.timers[i := s.timers[i].(status := Done)]), s.timers[i].groupKey, s.timers[i].generation)
  }

  // ----- what every step keeps -----

  predicate Outstanding(timers: seq<Timer>, handle: Option<nat>, groupKey: string, generation: nat) {
    && handle.Some? && handle.value < |timers|
    && timers[handle.value].groupKey == groupKey
    && timers[handle.value].generation == generation
    && timers[handle.value].status in {Armed, Due}
  }

  predicate BucketsOf(groupKey: string, buckets: Buckets) {
    forall t :: t in buckets ==>
      buckets[t] != [] && forall ev :: ev in buckets[t] ==> ev.groupKey == groupKey && ev.trigger == t
  }

  /** Buckets are non-empty iff both timer fields are set, and then both name a
      callback of the current generation that will still run. */
  predicate GroupOk(s: Engine, k: string)
    requires k in s.groups
  {
    var g := s.groups[k];
    && BucketsOf(k, g.buckets)
    && (g.buckets == map[] ==> g.idleTimer.None? && g.hardTimer.None?)
    && (g.buckets != map[] ==>
          && Outstanding(s.timers, g.idleTimer, k, g.generation)
          && Outstanding(s.timers, g.hardTimer, k, g.generation)
          && g.idleTimer != g.hardTimer)
  }

  /** A callback of the current generation belongs to a batch that is still open. */
  predicate TimerOk(s: Engine, i: nat)
    requires i < |s.timers|
  {
    var t := s.timers[i];
    && t.groupKey in s.groups
    && t.generation <= s.groups[t.groupKey].generation
    && (t.generation == s.groups[t.groupKey].generation ==>
          s.groups[t.groupKey].buckets != map[] && t.status != Done)
  }

  predicate Inv(s: Engine) {
    && (forall k :: k in s.groups ==> GroupOk(s, k))
    && (forall i :: 0 <= i < |s.timers| ==> TimerOk(s, i))
  }

  lemma IngestKeepsInv(cfg: EngineConfig, s: Engine, ev: Event)
    requires Inv(s)
    ensures Inv(Ingest(cfg, s, ev))
  {
    var s' := Ingest(cfg, s, ev);
    forall k | k in s'.groups ensures GroupOk(s', k) {
      if k in s.groups { assert GroupOk(s, k); }
    }
    hide BucketsOf;
    forall i | 0 <= i < |s'.timers| ensures TimerOk(s', i) {
      if i < |s.timers| { assert TimerOk(s, i); }
    }
  }

  lemma ExpireKeepsInv(s: Engine, i: nat)
    requires Inv(s) && i < |s.timers| && s.timers[i].status == Armed
    ensures Inv(Expire(s, i))
  {
    var s' := Expire(s, i);
    forall k | k in s'.groups ensures GroupOk(s', k) {
      assert GroupOk(s, k);
    }
    forall j | 0 <= j < |s'.timers| ensures TimerOk(s', j) {
      assert TimerOk(s, j);
    }
  }

  /** Running a waiting callback keeps the invariant, and it flushes exactly when
      its generation is still current: such a callback finds non-empty buckets. */
  lemma CallbackKeepsInv(s: Engine, i: nat)
    requires Inv(s) && i < |s.timers| && s.timers[i].status == Due
    ensures Inv(Callback(s, i).0)
    ensures Callback(s, i).1.Some? <==> s.timers[i].generation == GroupOf(s, s.timers[i].groupKey).generation
  {
    assert TimerOk(s, i);
    var s' := Callback(s, i).0;
    var key := s.timers[i].groupKey;
    forall k | k in s'.groups ensures GroupOk(s', k) {
      assert GroupOk(s, k);
    }
    assert GroupOk(s, key);
    forall j | 0 <= j < |s'.timers| ensures TimerOk(s', j) {
      assert TimerOk(s, j);
    }
  }

  /** Adding an event leaves every timer alone except the group's idle timer, which
      is no longer armed; the new idle timer comes last, a new hard timer before it. */
  lemma AddEventTimers(cfg: EngineConfig, g: Group, timers: seq<Timer>, now: int, ev: Event)
    requires g.buckets == map[] ==> g.idleTimer.None?
    requires g.idleTimer.Some? ==> g.idleTimer.value < |timers|
    ensures var (g', timers') := AddEvent(cfg, g, timers, now, ev);
      && g'.buckets == Append(g.buckets, ev) && g'.generation == g.generation && g'.idleTimer == Some(|timers'| - 1)
      && timers'[|timers'| - 1] == Timer(now + Delay(cfg.idleWindow), ev.groupKey, g.generation, Armed)
      && (if g.buckets == map[]
          then |timers'| == |timers| + 2 && g'.hardTimer == Some(|timers|)
               && timers'[|timers|] == Timer(now + Delay(cfg.maxWait), ev.groupKey, g.generation, Armed)
          else |timers'| == |timers| + 1 && g'.hardTimer == g.hardTimer)
      && (forall i :: 0 <= i < |timers| ==>
            if g.idleTimer == Some(i) then timers'[i].status != Armed else timers'[i] == timers[i])
  {
    hide Append;
  }

  /** Closing a batch disarms the group's two timers and leaves every other alone. */
  lemma CloseBatchTimers(g: Group, timers: seq<Timer>)
    ensures var timers' := CloseBatch(g, timers).1;
      && |timers'| == |timers|
      && (forall i :: 0 <= i < |timers| ==>
            if g.idleTimer == Some(i) || g.hardTimer == Some(i)
            then timers'[i].status != Armed else timers'[i] == timers[i])
  {
  }

  // ----- where the events are -----

  ghost function BucketsBag(buckets: Buckets): multiset<Event> {
    Bags.Union(map t | t in buckets :: multiset(buckets[t]))
  }

  ghost function GroupBags(groups: map<string, Group>): map<string, multiset<Event>> {
    map k | k in groups :: BucketsBag(groups[k].buckets)
  }

  /** Every event held in some group's buckets. */
  ghost function EngineBag(s: Engine): multiset<Event> {
    Bags.Union(GroupBags(s.groups))
  }

  lemma EmptyBatch(buckets: Buckets)
    requires buckets == map[]
    ensures BucketsBag(buckets) == multiset{}
  {
    var bags := map t | t in buckets :: multiset(buckets[t]);
    assert bags.Keys == {};
  }

  lemma AppendAddsOne(buckets: Buckets, ev: Event)
    ensures BucketsBag(Append(buckets, ev)) == BucketsBag(buckets) + multiset{ev}
  {
    hide Bags.Union;
    var more := Append(buckets, ev);
    var bags, bags' := map t | t in buckets :: multiset(buckets[t]), map t | t in more :: multiset(more[t]);
    var bag := multiset(more[ev.trigger]);
    assert bags' == bags[ev.trigger := bag];
    assert ev.trigger in buckets ==> bag == bags[ev.trigger] + multiset{ev};
    assert ev.trigger !in buckets ==> bag == multiset{ev};
    hide Append;
    Bags.UnionPut(bags, ev.trigger, bag);
    if ev.trigger in buckets {
      Bags.UnionTakeOut(bags, ev.trigger);
    }
  }

  /** Changing one group changes the total by that group's own events. */
  lemma GroupReplaced(groups: map<string, Group>, k: string, g: Group)
    ensures Bags.Union(GroupBags(groups[k := g])) + (if k in groups then BucketsBag(groups[k].buckets) else multiset{})
         == Bags.Union(GroupBags(groups)) + BucketsBag(g.buckets)
  {
    var bags := GroupBags(groups);
    assert GroupBags(groups[k := g]) == bags[k := BucketsBag(g.buckets)];
    Bags.UnionPut(bags, k, BucketsBag(g.buckets));
    if k in groups {
      Bags.UnionTakeOut(bags, k);
    }
  }

  /** `Ingest` adds its event to the buckets and touches no other. */
  lemma IngestAddsEvent(cfg: EngineConfig, s: Engine, ev: Event)
    ensures EngineBag(Ingest(cfg, s, ev)) == EngineBag(s) + multiset{ev}
  {
    var g := GroupOf(s, ev.groupKey);
    var g' := Ingest(cfg, s, ev).groups[ev.groupKey];
    var before := if ev.groupKey in s.groups then BucketsBag(s.groups[ev.groupKey].buckets) else multiset{};
    EmptyBatch(NEW_GROUP.buckets);
    AppendAddsOne(g.buckets, ev);
    assert BucketsBag(g'.buckets) == before + multiset{ev};
    GroupReplaced(s.groups, ev.groupKey, g');
    Bags.Cancel(EngineBag(Ingest(cfg, s, ev)), EngineBag(s) + multiset{ev}, before);
  }

  /** A callback moves a whole batch out of the buckets, or nothing. */
  lemma CallbackMovesBatch(s: Engine, i: nat)
    requires i < |s.timers|
    ensures var (s', snap) := Callback(s, i);
      EngineBag(s) == EngineBag(s') + (if snap.Some? then BucketsBag(snap.value.buckets) else multiset{})
  {
    var (s', snap) := Callback(s, i);
    if snap.Some? {
      GroupReplaced(s.groups, s.timers[i].groupKey, s'.groups[s.timers[i].groupKey]);
    }
  }
}
