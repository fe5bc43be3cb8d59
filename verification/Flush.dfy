/** `Engine.flush`: one batch is split into the `Upsert` calls of its sessions.
    Go ranges over both maps in an unspecified order, so the result is described
    by a relation that every order satisfies. */
module Flush {
  import opened Domain
  import opened EngineModel
  import Bags

  /** The session an event of bucket `trigger` goes to. */
  function KeyFor(cfg: EngineConfig, groupKey: string, trigger: string, ev: Event): SessionKey {
    SessionKey(groupKey, ev.revision, if cfg.combineTriggers then "" else trigger)
  }

  /** The events of a bucket that go to `key`, in arrival order. */
  function WithKey(cfg: EngineConfig, groupKey: string, trigger: string, evs: seq<Event>, key: SessionKey): seq<Event> {
    if evs == [] then [] else
      var last := evs[|evs| - 1];
      WithKey(cfg, groupKey, trigger, evs[..|evs| - 1], key)
      + (if KeyFor(cfg, groupKey, trigger, last) == key then [last] else [])
  }

  /** The events of one trigger, in the order they were handed to `Upsert`. */
  function OfTrigger(evs: seq<Event>, trigger: string): seq<Event> {
    if evs == [] then [] else
      var last := evs[|evs| - 1];
      OfTrigger(evs[..|evs| - 1], trigger) + (if last.trigger == trigger then [last] else [])
  }

  /** Distinct keys; only events of the batch, each under its own key; per trigger
      the bucket's order; and no event of the batch without a call. */
  predicate IsSplit(cfg: EngineConfig, groupKey: string, buckets: Buckets, calls: seq<UpsertCall>) {
    && (forall i, j :: 0 <= i < j < |calls| ==> calls[i].key != calls[j].key)
    && (forall i :: 0 <= i < |calls| ==> CallOk(cfg, groupKey, buckets, calls[i]))
    && (forall t, ev :: t in buckets && ev in buckets[t] ==> HasKey(calls, KeyFor(cfg, groupKey, t, ev)))
  }

  predicate CallOk(cfg: EngineConfig, groupKey: string, buckets: Buckets, c: UpsertCall) {
    && c.events != []
    && (forall ev :: ev in c.events ==> ev.trigger in buckets && KeyFor(cfg, groupKey, ev.trigger, ev) == c.key)
    && (forall t :: t in buckets ==> OfTrigger(c.events, t) == WithKey(cfg, groupKey, t, buckets[t], c.key))
  }

  predicate HasKey(calls: seq<UpsertCall>, key: SessionKey) {
    exists i :: 0 <= i < |calls| && calls[i].key == key
  }

  function At(m: map<SessionKey, seq<Event>>, key: SessionKey): seq<Event> {
    if key in m then m[key] else []
  }

  /** The state of the splitting loops once `counted[t]` of each bucket is done. */
  ghost predicate SplitSoFar(cfg: EngineConfig, groupKey: string, counted: Buckets, m: map<SessionKey, seq<Event>>) {
    && (forall key :: key in m ==> m[key] != [] && forall ev :: ev in m[key] ==>
          ev.trigger in counted && KeyFor(cfg, groupKey, ev.trigger, ev) == key)
    && (forall t, key {:trigger t in counted, At(m, key)} :: t in counted ==>
          OfTrigger(At(m, key), t) == WithKey(cfg, groupKey, t, counted[t], key))
    && (forall t, ev :: t in counted && ev in counted[t] ==> KeyFor(cfg, groupKey, t, ev) in m)
  }

  /** The first loops of `Engine.flush`: group the batch by session. */
  method GroupBySession(cfg: EngineConfig, groupKey: string, buckets: Buckets)
    returns (sessioned: map<SessionKey, seq<Event>>)
    requires BucketsOf(groupKey, buckets)
    ensures SplitSoFar(cfg, groupKey, buckets, sessioned)
  {
    sessioned := map[];
    var triggers := buckets.Keys;
    ghost var counted: Buckets := map[];
    while triggers != {}
      invariant triggers <= buckets.Keys
      invariant counted.Keys == buckets.Keys - triggers
      invariant forall t :: t in counted ==> counted[t] == buckets[t]
      invariant SplitSoFar(cfg, groupKey, counted, sessioned)
      decreases |triggers|
    {
      var trigger :| trigger in triggers;
      triggers := triggers - {trigger};
      sessioned := AddBucket(cfg, groupKey, counted, sessioned, trigger, buckets[trigger]);
      counted := counted[trigger := buckets[trigger]];
    }
    assert counted == buckets;
  }

  /** The inner loop: the events of one bucket, in order. */
  method AddBucket(cfg: EngineConfig, groupKey: string, ghost counted: Buckets, soFar: map<SessionKey, seq<Event>>,
                   trigger: string, evs: seq<Event>)
    returns (sessioned: map<SessionKey, seq<Event>>)
    requires SplitSoFar(cfg, groupKey, counted, soFar) && trigger !in counted
    requires forall ev :: ev in evs ==> ev.trigger == trigger
    ensures SplitSoFar(cfg, groupKey, counted[trigger := evs], sessioned)
  {
    sessioned := soFar;
    NewTrigger(cfg, groupKey, counted, sessioned, trigger);
    hide SplitSoFar;
    assert evs[..0] == [];
    for i := 0 to |evs|
      invariant SplitSoFar(cfg, groupKey, counted[trigger := evs[..i]], sessioned)
    {
      var key := KeyFor(cfg, groupKey, trigger, evs[i]);
      Place(cfg, groupKey, counted[trigger := evs[..i]], sessioned, trigger, evs[i]);
      sessioned := sessioned[key := At(sessioned, key) + [evs[i]]];
      assert evs[..i + 1] == evs[..i] + [evs[i]];
      assert counted[trigger := evs[..i]][trigger := evs[..i + 1]] == counted[trigger := evs[..i + 1]];
    }
    assert evs[..|evs|] == evs;
  }

  /** `Engine.flush`; the calls come in the order Go happens to choose. */
  method FlushBatch(cfg: EngineConfig, groupKey: string, buckets: Buckets) returns (calls: seq<UpsertCall>)
    requires BucketsOf(groupKey, buckets)
    ensures IsSplit(cfg, groupKey, buckets, calls)
  {
    var sessioned := GroupBySession(cfg, groupKey, buckets);
    calls := [];
    var keys := sessioned.Keys;
    while keys != {}
      invariant keys <= sessioned.Keys
      invariant CallsOf(sessioned, keys, calls)
      decreases |keys|
    {
      var key :| key in keys;
      NextCall(sessioned, keys, calls, key);
      keys := keys - {key};
      calls := calls + [UpsertCall(key, sessioned[key])];
    }
    forall i | 0 <= i < |calls| ensures CallOk(cfg, groupKey, buckets, calls[i]) {
      assert At(sessioned, calls[i].key) == calls[i].events;
    }
  }

  /** One call was made for each session except those of `left`. */
  ghost predicate CallsOf(sessioned: map<SessionKey, seq<Event>>, left: set<SessionKey>, calls: seq<UpsertCall>) {
    && (forall i :: 0 <= i < |calls| ==>
          calls[i].key in sessioned && calls[i].key !in left && calls[i].events == sessioned[calls[i].key])
    && (forall i, j :: 0 <= i < j < |calls| ==> calls[i].key != calls[j].key)
    && (forall key :: key in sessioned && key !in left ==> HasKey(calls, key))
  }

  lemma NextCall(sessioned: map<SessionKey, seq<Event>>, left: set<SessionKey>, calls: seq<UpsertCall>, key: SessionKey)
    requires CallsOf(sessioned, left, calls) && key in left && key in sessioned
    ensures CallsOf(sessioned, left - {key}, calls + [UpsertCall(key, sessioned[key])])
  {
    var calls' := calls + [UpsertCall(key, sessioned[key])];
    forall k | k in sessioned && k !in left - {key} ensures HasKey(calls', k) {
      if k == key {
        assert calls'[|calls|].key == k;
      } else {
        var i :| 0 <= i < |calls| && calls[i].key == k;
        assert calls'[i].key == k;
      }
    }
  }

  lemma NewTrigger(cfg: EngineConfig, groupKey: string, counted: Buckets, m: map<SessionKey, seq<Event>>,
                   trigger: string)
    requires SplitSoFar(cfg, groupKey, counted, m) && trigger !in counted
    ensures SplitSoFar(cfg, groupKey, counted[trigger := []], m)
  {
    assert forall key :: WithKey(cfg, groupKey, trigger, [], key) == [];
    hide WithKey;
    forall key ensures OfTrigger(At(m, key), trigger) == [] {
      NoneOfTrigger(At(m, key), trigger);
    }
  }

  lemma {:induction false} NoneOfTrigger(evs: seq<Event>, trigger: string)
    requires forall ev :: ev in evs ==> ev.trigger != trigger
    ensures OfTrigger(evs, trigger) == []
  {
    if evs == [] {
    } else {
      NoneOfTrigger(evs[..|evs| - 1], trigger);
    }
  }

  lemma OfTriggerSnoc(evs: seq<Event>, ev: Event, t: string)
    ensures OfTrigger(evs + [ev], t) == OfTrigger(evs, t) + (if ev.trigger == t then [ev] else [])
  {
    assert (evs + [ev])[..|evs|] == evs;
  }

  lemma WithKeySnoc(cfg: EngineConfig, groupKey: string, t: string, evs: seq<Event>, ev: Event, key: SessionKey)
    ensures WithKey(cfg, groupKey, t, evs + [ev], key)
         == WithKey(cfg, groupKey, t, evs, key) + (if KeyFor(cfg, groupKey, t, ev) == key then [ev] else [])
  {
    assert (evs + [ev])[..|evs|] == evs;
  }

  lemma Place(cfg: EngineConfig, groupKey: string, counted: Buckets, m: map<SessionKey, seq<Event>>, trigger: string,
              ev: Event)
    requires SplitSoFar(cfg, groupKey, counted, m) && trigger in counted && ev.trigger == trigger
    ensures var key := KeyFor(cfg, groupKey, trigger, ev);
      SplitSoFar(cfg, groupKey, counted[trigger := counted[trigger] + [ev]], m[key := At(m, key) + [ev]])
  {
    hide OfTrigger, WithKey;
    var key := KeyFor(cfg, groupKey, trigger, ev);
    var counted' := counted[trigger := counted[trigger] + [ev]];
    var m' := m[key := At(m, key) + [ev]];
    forall t, k {:trigger t in counted', At(m', k)} | t in counted'
      ensures OfTrigger(At(m', k), t) == WithKey(cfg, groupKey, t, counted'[t], k)
    {
      assert OfTrigger(At(m, k), t) == WithKey(cfg, groupKey, t, counted[t], k);
      OfTriggerSnoc(At(m, k), ev, t);
      WithKeySnoc(cfg, groupKey, t, counted[t], ev, k);
    }
  }

  // ----- what a split conserves -----

  ghost function CallsBag(calls: seq<UpsertCall>): multiset<Event> {
    if calls == [] then multiset{} else multiset(calls[0].events) + CallsBag(calls[1..])
  }

  lemma {:induction false} CountOfTrigger(evs: seq<Event>, ev: Event)
    ensures multiset(OfTrigger(evs, ev.trigger))[ev] == multiset(evs)[ev]
  {
    if evs == [] {
    } else {
      CountOfTrigger(evs[..|evs| - 1], ev);
      assert evs == evs[..|evs| - 1] + [evs[|evs| - 1]];
    }
  }

  lemma {:induction false} CountWithKey(cfg: EngineConfig, groupKey: string, trigger: string, evs: seq<Event>,
                                        ev: Event)
    ensures multiset(WithKey(cfg, groupKey, trigger, evs, KeyFor(cfg, groupKey, trigger, ev)))[ev] == multiset(evs)[ev]
  {
    hide KeyFor;
    if evs == [] {
    } else {
      var init, last := evs[..|evs| - 1], evs[|evs| - 1];
      CountWithKey(cfg, groupKey, trigger, init, ev);
      assert evs == init + [last];
      WithKeySnoc(cfg, groupKey, trigger, init, last, KeyFor(cfg, groupKey, trigger, ev));
      hide WithKey;
    }
  }

  lemma {:induction false} CountInCalls(calls: seq<UpsertCall>, ev: Event, i: nat)
    requires i < |calls|
    requires forall j :: 0 <= j < |calls| && j != i ==> ev !in calls[j].events
    ensures CallsBag(calls)[ev] == multiset(calls[i].events)[ev]
  {
    if i > 0 {
      CountInCalls(calls[1..], ev, i - 1);
    } else {
      NotInCalls(calls[1..], ev);
    }
  }

  lemma {:induction false} NotInCalls(calls: seq<UpsertCall>, ev: Event)
    requires forall j :: 0 <= j < |calls| ==> ev !in calls[j].events
    ensures ev !in CallsBag(calls)
  {
    if calls == [] {
    } else {
      NotInCalls(calls[1..], ev);
    }
  }

  /** A batch holds an event as often as the one bucket of its trigger does. */
  lemma CountInBatch(groupKey: string, buckets: Buckets, ev: Event)
    requires BucketsOf(groupKey, buckets)
    ensures BucketsBag(buckets)[ev] == if ev.trigger in buckets then multiset(buckets[ev.trigger])[ev] else 0
  {
    var bags := map t | t in buckets :: multiset(buckets[t]);
    Bags.CountOne(bags, ev.trigger, ev);
  }

  /** Splitting loses no event, invents none and hands none to two sessions. */
  lemma SplitConserves(cfg: EngineConfig, groupKey: string, buckets: Buckets, calls: seq<UpsertCall>)
    requires BucketsOf(groupKey, buckets) && IsSplit(cfg, groupKey, buckets, calls)
    ensures CallsBag(calls) == BucketsBag(buckets)
  {
    forall ev ensures CallsBag(calls)[ev] == BucketsBag(buckets)[ev] {
      CountInBatch(groupKey, buckets, ev);
      var key := KeyFor(cfg, groupKey, ev.trigger, ev);
      if ev.trigger in buckets && HasKey(calls, key) {
        var i :| 0 <= i < |calls| && calls[i].key == key;
        assert CallOk(cfg, groupKey, buckets, calls[i]);
        CountInCalls(calls, ev, i);
        CountOfTrigger(calls[i].events, ev);
        CountWithKey(cfg, groupKey, ev.trigger, buckets[ev.trigger], ev);
      } else {
        NotInCalls(calls, ev);
      }
    }
  }

  /** With `CombineTriggers` off a session gets its events in full arrival order. */
  lemma SplitKeepsOrder(cfg: EngineConfig, groupKey: string, buckets: Buckets, calls: seq<UpsertCall>, i: nat)
    requires !cfg.combineTriggers && i < |calls| && IsSplit(cfg, groupKey, buckets, calls)
    ensures var c := calls[i];
      c.key.trigger in buckets && c.events == WithKey(cfg, groupKey, c.key.trigger, buckets[c.key.trigger], c.key)
  {
    var c := calls[i];
    assert CallOk(cfg, groupKey, buckets, c);
    assert c.events[0] in c.events;
    AllOfTrigger(c.events, c.key.trigger);
  }

  lemma {:induction false} AllOfTrigger(evs: seq<Event>, trigger: string)
    requires forall ev :: ev in evs ==> ev.trigger == trigger
    ensures OfTrigger(evs, trigger) == evs
  {
    if evs == [] {
    } else {
      AllOfTrigger(evs[..|evs| - 1], trigger);
    }
  }

  /** An event a session may hold: the key's group and revision, and its trigger
      when triggers are kept apart. */
  predicate Matches(cfg: EngineConfig, key: SessionKey, ev: Event) {
    && ev.groupKey == key.groupKey && ev.revision == key.revision
    && (if cfg.combineTriggers then key.trigger == "" else ev.trigger == key.trigger)
  }

  lemma SplitMatches(cfg: EngineConfig, groupKey: string, buckets: Buckets, calls: seq<UpsertCall>)
    requires BucketsOf(groupKey, buckets) && IsSplit(cfg, groupKey, buckets, calls)
    ensures forall i, ev :: 0 <= i < |calls| && ev in calls[i].events ==> Matches(cfg, calls[i].key, ev)
  {
    forall i, ev | 0 <= i < |calls| && ev in calls[i].events ensures Matches(cfg, calls[i].key, ev) {
      assert CallOk(cfg, groupKey, buckets, calls[i]);
      CountOfTrigger(calls[i].events, ev);
      assert ev in multiset(calls[i].events);
      assert ev in OfTrigger(calls[i].events, ev.trigger);
      WithKeyFrom(cfg, groupKey, ev.trigger, buckets[ev.trigger], calls[i].key);
    }
  }

  lemma {:induction false} WithKeyFrom(cfg: EngineConfig, groupKey: string, trigger: string, evs: seq<Event>,
                                       key: SessionKey)
    ensures forall ev :: ev in WithKey(cfg, groupKey, trigger, evs, key) ==> ev in evs
  {
    if evs == [] {
    } else {
      WithKeyFrom(cfg, groupKey, trigger, evs[..|evs| - 1], key);
    }
  }
}
