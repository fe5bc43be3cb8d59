/** The debounce engine as the program has it: objects updated in place. Every
    method is tied to the step of `EngineModel` it performs. */
module DebounceEngine {
  import opened Domain
  import EngineModel
  import Flush

  /** The clock, with every timer it has handed out. */
  class Clock {
    var now: int
    var timers: seq<EngineModel.Timer>

    constructor (start: int)
      ensures now == start && timers == []
    {
      now := start;
      timers := [];
    }

    /** The callback of timer `i` starts to run and will not run again. */
    method Consume(i: nat) returns (t: EngineModel.Timer)
      requires i < |timers|
      modifies this
      ensures now == old(now) && t == old(timers[i])
      ensures timers == old(timers)[i := t.(status := EngineModel.Done)]
    {
      t := timers[i];
      timers := timers[i := t.(status := EngineModel.Done)];
    }

    /** The callback of the timer is `onTimerFire(groupKey, generation)`. */
    method AfterFunc(d: int, groupKey: string, generation: nat) returns (handle: nat)
      modifies this
      ensures handle == |old(timers)| && |timers| == handle + 1 && now == old(now)
      ensures 0 <= d ==> timers[handle].deadline == now + d
      ensures d < 0 ==> timers[handle].deadline == now
      ensures timers ==
        old(timers) + [EngineModel.Timer(now + EngineModel.Delay(d), groupKey, generation, EngineModel.Armed)]
    {
      handle := |timers|;
      timers := timers + [EngineModel.Timer(now + EngineModel.Delay(d), groupKey, generation, EngineModel.Armed)];
    }

    method Stop(handle: nat) returns (stopped: bool)
      requires handle < |timers|
      modifies this
      ensures now == old(now)
      ensures timers == EngineModel.StopTimer(old(timers), Some(handle))
      ensures stopped <==> old(timers[handle].status) == EngineModel.Armed
    {
      stopped := timers[handle].status == EngineModel.Armed;
      if stopped {
        timers := timers[handle := timers[handle].(status := EngineModel.Stopped)];
      }
    }
  }

  class GroupState {
    var buckets: EngineModel.Buckets
    var idleTimer: Option<nat>
    var hardTimer: Option<nat>
    var generation: nat

    constructor ()
      ensures Value() == EngineModel.NEW_GROUP
    {
      buckets := map[];
      idleTimer, hardTimer := None, None;
      generation := 0;
    }

    ghost function Value(): EngineModel.Group
      reads this
    {
      EngineModel.Group(buckets, idleTimer, hardTimer, generation)
    }

    /** The timer fields name timers of the clock. */
    ghost predicate HandlesOn(clock: Clock)
      reads this, clock
    {
      && (idleTimer.Some? ==> idleTimer.value < |clock.timers|)
      && (hardTimer.Some? ==> hardTimer.value < |clock.timers|)
    }

    /** The part of `Ingest` that concerns the group itself. */
    method AddEvent(cfg: EngineModel.EngineConfig, clock: Clock, ev: Event)
      requires HandlesOn(clock)
      modifies this, clock
      ensures clock.now == old(clock.now)
      ensures (Value(), clock.timers) == EngineModel.AddEvent(cfg, old(Value()), old(clock.timers), clock.now, ev)
    {
      var freshBatch := buckets == map[];
      buckets := EngineModel.Append(buckets, ev);
      if freshBatch {
        var hard := clock.AfterFunc(cfg.maxWait, ev.groupKey, generation);
        hardTimer := Some(hard);
      }
      if idleTimer.Some? {
        var _ := clock.Stop(idleTimer.value);
      }
      var idle := clock.AfterFunc(cfg.idleWindow, ev.groupKey, generation);
      idleTimer := Some(idle);
    }

    /** The part of `onTimerFire` that closes the group's batch. */
    method CloseBatch(clock: Clock)
      requires HandlesOn(clock)
      modifies this, clock
      ensures clock.now == old(clock.now)
      ensures (Value(), clock.timers) == EngineModel.CloseBatch(old(Value()), old(clock.timers))
    {
      buckets := map[];
      if idleTimer.Some? {
        var _ := clock.Stop(idleTimer.value);
        idleTimer := None;
      }
      if hardTimer.Some? {
        var _ := clock.Stop(hardTimer.value);
        hardTimer := None;
      }
      generation := generation + 1;
    }
  }

  class Engine {
    const cfg: EngineModel.EngineConfig
    const clock: Clock
    var groups: map<string, GroupState>

    constructor (cfg: EngineModel.EngineConfig, clock: Clock)
      requires clock.timers == []
      ensures Valid() && fresh(this)
      ensures this.cfg == cfg && this.clock == clock
      ensures Value() == EngineModel.Engine(map[], [], clock.now)
    {
      this.cfg := cfg;
      this.clock := clock;
      groups := map[];
    }

    ghost function Value(): EngineModel.Engine
      reads this, clock, groups.Values
    {
      EngineModel.Engine(map k | k in groups :: groups[k].Value(), clock.timers, clock.now)
    }

    ghost predicate Distinct()
      reads this
    {
      forall k, l :: k in groups && l in groups && k != l ==> groups[k] != groups[l]
    }

    /** What the code needs of the groups: no sharing, and usable handles. */
    ghost predicate Usable()
      reads this, clock, groups.Values
    {
      && Distinct()
      && (forall k :: k in groups ==> groups[k].HandlesOn(clock) && EngineModel.BucketsOf(k, groups[k].buckets))
    }

    /** The invariant of every reachable engine. */
    ghost predicate Valid()
      reads this, clock, groups.Values
    {
      Usable() && EngineModel.Inv(Value())
    }

    lemma InvMakesUsable()
      requires Distinct() && EngineModel.Inv(Value())
      ensures Valid()
    {
      forall k | k in groups
        ensures groups[k].HandlesOn(clock) && EngineModel.BucketsOf(k, groups[k].buckets)
      {
        assert EngineModel.GroupOk(Value(), k);
      }
    }

    lemma ValueIs(after: EngineModel.Engine)
      requires groups.Keys == after.groups.Keys
      requires forall k :: k in groups ==> groups[k].Value() == after.groups[k]
      requires clock.timers == after.timers && clock.now == after.now
      ensures Value() == after
    {
    }

    /** Create the group of a key that has none. */
    method Open(groupKey: string) returns (g: GroupState)
      requires Usable()
      modifies this
      ensures Distinct() && fresh(groups.Values - old(groups.Values))
      ensures groups.Keys == old(groups.Keys) + {groupKey} && g == groups[groupKey]
      ensures g.Value() == EngineModel.GroupOf(old(Value()), groupKey) && g.HandlesOn(clock)
      ensures forall k :: k in groups && k != groupKey ==> k in old(groups) && groups[k] == old(groups[k])
    {
      if groupKey !in groups {
        var created := new GroupState();
        groups := groups[groupKey := created];
      }
      g := groups[groupKey];
    }

    method Ingest(ev: Event)
      requires Valid()
      modifies this, clock, groups.Values
      ensures Valid() && fresh(groups.Values - old(groups.Values))
      ensures Value() == EngineModel.Ingest(cfg, old(Value()), ev)
    {
      hide EngineModel.AddEvent, EngineModel.Inv, EngineModel.BucketsOf;
      ghost var before := Value();
      var g := Open(ev.groupKey);
      g.AddEvent(cfg, clock, ev);
      ValueIs(EngineModel.Ingest(cfg, before, ev));
      EngineModel.IngestKeepsInv(cfg, before, ev);
      InvMakesUsable();
    }

    /** `onTimerFire`: under the lock take the batch or find the callback stale;
        after it publish the sessions the batch splits into. */
    method OnTimerFire(groupKey: string, generation: nat)
      returns (taken: Option<EngineModel.Snapshot>, calls: seq<UpsertCall>)
      requires Usable()
      modifies this, clock, groups.Values
      ensures Distinct() && groups == old(groups)
      ensures (Value(), taken) == EngineModel.OnTimerFire(old(Value()), groupKey, generation)
      ensures taken.None? ==> calls == []
      ensures taken.Some? ==> Flush.IsSplit(cfg, taken.value.groupKey, taken.value.buckets, calls)
    {
      if groupKey !in groups || groups[groupKey].generation != generation || groups[groupKey].buckets == map[] {
        return None, [];
      }
      ghost var before := Value();
      var buckets := groups[groupKey].buckets;
      groups[groupKey].CloseBatch(clock);
      taken := Some(EngineModel.Snapshot(groupKey, generation, buckets));
      ValueIs(EngineModel.OnTimerFire(before, groupKey, generation).0);
      calls := Flush.FlushBatch(cfg, groupKey, buckets);
    }

    /** The callback of an expired timer obtains the lock and runs. */
    method RunCallback(i: nat) returns (taken: Option<EngineModel.Snapshot>, calls: seq<UpsertCall>)
      requires Valid() && i < |clock.timers| && clock.timers[i].status == EngineModel.Due
      modifies this, clock, groups.Values
      ensures Valid() && groups == old(groups)
      ensures (Value(), taken) == EngineModel.Callback(old(Value()), i)
      ensures taken.None? ==> calls == []
      ensures taken.Some? ==> Flush.IsSplit(cfg, taken.value.groupKey, taken.value.buckets, calls)
    {
      ghost var before := Value();
      EngineModel.CallbackKeepsInv(before, i);
      var t := clock.Consume(i);
      ValueIs(before.(timers := before.timers[i := before.timers[i].(status := EngineModel.Done)]));
      taken, calls := OnTimerFire(t.groupKey, t.generation);
      InvMakesUsable();
    }
  }
}
