/** The engine with times and with its races: a timer expires no earlier than its
    deadline, but its callback may then wait for the lock as long as it likes, and events
    may overtake it. The state is that of `Debounce`; only the rules are weaker. */
module Race {
  import opened Domain
  import opened EngineModel
  import opened Debounce

  datatype Action = Arrive(ev: Event) | ExpireTimer(timer: nat) | RunCallback(timer: nat) | Tick(to: int)

  predicate Enabled(s: State, a: Action) {
    match a
    case Arrive(_) => true
    case ExpireTimer(i) => Pending(s.engine.timers, i) && s.engine.timers[i].deadline <= s.engine.now
    case RunCallback(i) => i < |s.engine.timers| && s.engine.timers[i].status == Due
    case Tick(to) => s.engine.now <= to
  }

  function Apply(cfg: EngineConfig, s: State, a: Action): State
    requires Enabled(s, a)
  {
    match a
    case Arrive(ev) => Arrived(cfg, s, ev)
    case ExpireTimer(i) => s.(engine := Expire(s.engine, i))
    case RunCallback(i) => Taken(s, i)
    case Tick(to) => s.(engine := s.engine.(now := to))
  }

  function Run(cfg: EngineConfig, start: int, actions: seq<Action>): Option<State> {
    if actions == [] then Some(Initial(start))
    else
      var before := Run(cfg, start, actions[..|actions| - 1]);
      var a := actions[|actions| - 1];
      if before.Some? && Enabled(before.value, a) then Some(Apply(cfg, before.value, a)) else None
  }

  lemma RunSnoc(cfg: EngineConfig, start: int, actions: seq<Action>, a: Action)
    requires Run(cfg, start, actions).Some? && Enabled(Run(cfg, start, actions).value, a)
    ensures Run(cfg, start, actions + [a]) == Some(Apply(cfg, Run(cfg, start, actions).value, a))
  {
    assert (actions + [a])[..|actions|] == actions;
  }

  /** The shorter of the two delays. */
  function Gap(cfg: EngineConfig): (g: nat)
    ensures 0 <= cfg.idleWindow <= cfg.maxWait ==> g == cfg.idleWindow
    ensures 0 <= cfg.maxWait <= cfg.idleWindow ==> g == cfg.maxWait
    ensures cfg.idleWindow < 0 || cfg.maxWait < 0 ==> g == 0
  {
    if Delay(cfg.idleWindow) < Delay(cfg.maxWait) then Delay(cfg.idleWindow) else Delay(cfg.maxWait)
  }

  // ----- the invariant -----

  predicate SetFor(timers: seq<Timer>, handle: Option<nat>, deadline: int) {
    handle.Some? && handle.value < |timers| && timers[handle.value].deadline == deadline
  }

  /** A timer of the open batch that an event replaced after it had expired: the idle timer
      of an arrival that was not the last. */
  predicate Overtaken(cfg: EngineConfig, b: seq<Arrival>, t: Timer, k: nat) {
    k + 1 < |b| && t.deadline == b[k].at + Delay(cfg.idleWindow) && t.deadline <= b[k + 1].at
  }

  /** Every timer of the current generation is set for no earlier than the gap after the
      batch opened; one that may still take the batch is in a timer field, or overtaken. */
  ghost predicate TimersOf(cfg: EngineConfig, timers: seq<Timer>, group: Group, b: seq<Arrival>, g: string) {
    forall i :: 0 <= i < |timers| && timers[i].groupKey == g && timers[i].generation == group.generation ==>
      && b != [] && timers[i].deadline >= b[0].at + Gap(cfg)
      && (timers[i].status in {Armed, Due} ==>
            || group.hardTimer == Some(i) || group.idleTimer == Some(i)
            || (timers[i].status == Due && exists k :: Overtaken(cfg, b, timers[i], k)))
  }

  predicate InTimeOrder(b: seq<Arrival>, now: int) {
    (forall i, j :: 0 <= i < j < |b| ==> b[i].at <= b[j].at) && (forall i :: 0 <= i < |b| ==> b[i].at <= now)
  }

  ghost predicate GroupRaces(cfg: EngineConfig, timers: seq<Timer>, now: int, group: Group, b: seq<Arrival>,
                             g: string) {
    && (b == [] <==> group.buckets == map[])
    && InTimeOrder(b, now)
    && (b != [] ==>
          && SetFor(timers, group.hardTimer, b[0].at + Delay(cfg.maxWait))
          && SetFor(timers, group.idleTimer, b[|b| - 1].at + Delay(cfg.idleWindow)))
    && TimersOf(cfg, timers, group, b, g)
  }

  ghost predicate Racing(cfg: EngineConfig, s: State, g: string) {
    GroupRaces(cfg, s.engine.timers, s.engine.now, GroupOf(s.engine, g), OpenOf(s, g), g)
  }

  /** A timer expires at its deadline or later. */
  predicate NoneEarly(s: State) {
    forall i :: 0 <= i < |s.engine.timers| && s.engine.timers[i].status == Due ==>
      s.engine.timers[i].deadline <= s.engine.now
  }

  predicate Apart(cfg: EngineConfig, log: seq<Closed>) {
    forall i, j :: 0 <= i < j < |log| && log[i].snapshot.groupKey == log[j].snapshot.groupKey ==>
      log[i].at + Gap(cfg) <= log[j].at
  }

  /** Flushes of a group come at least the gap apart, an open batch starts after them, and
      one that came before its batch closed had been overtaken. */
  ghost predicate Spaced(cfg: EngineConfig, s: State) {
    && Apart(cfg, s.log)
    && (forall i :: 0 <= i < |s.log| ==> s.log[i].at <= s.engine.now && EarlyIfBroken(cfg, s.log[i]))
    && (forall i :: 0 <= i < |s.log| && OpenOf(s, s.log[i].snapshot.groupKey) != [] ==>
          s.log[i].at <= OpenOf(s, s.log[i].snapshot.groupKey)[0].at)
  }

  predicate EarlyIfBroken(cfg: EngineConfig, c: Closed) {
    c.arrivals != [] && (c.at < CloseAt(cfg, c.arrivals) ==> !Unbroken(cfg, c.arrivals))
  }

  ghost predicate Inv(cfg: EngineConfig, s: State) {
    && EngineModel.Inv(s.engine)
    && (forall g :: Racing(cfg, s, g))
    && NoneEarly(s)
    && Spaced(cfg, s)
  }

  // ----- steps -----

  /** The group of an arriving event. */
  lemma ArriveHere(cfg: EngineConfig, timers: seq<Timer>, now: int, group: Group, b: seq<Arrival>, a: Arrival)
    requires GroupRaces(cfg, timers, now, group, b, a.ev.groupKey) && a.at == now
    requires group.buckets == map[] ==> group.idleTimer.None?
    requires forall i :: 0 <= i < |timers| && timers[i].status == Due ==> timers[i].deadline <= now
    ensures var (group', timers') := AddEvent(cfg, group, timers, now, a.ev);
      GroupRaces(cfg, timers', now, group', b + [a], a.ev.groupKey)
  {
    var (group', timers') := AddEvent(cfg, group, timers, now, a.ev);
    AddEventTimers(cfg, group, timers, now, a.ev);
    OldTimers(cfg, group, timers, now, a.ev);
    hide AddEvent;
    var b' := b + [a];
    forall i | 0 <= i < |timers'| && timers'[i].groupKey == a.ev.groupKey && timers'[i].generation == group'.generation
      ensures b' != [] && timers'[i].deadline >= b'[0].at + Gap(cfg)
      ensures timers'[i].status in {Armed, Due} ==>
        || group'.hardTimer == Some(i) || group'.idleTimer == Some(i)
        || (timers'[i].status == Due && exists k :: Overtaken(cfg, b', timers'[i], k))
    {
      if i < |timers| {
        StillOvertaken(cfg, b, a, timers[i]);
        if group.idleTimer == Some(i) && timers'[i].status == Due {
          assert Overtaken(cfg, b', timers'[i], |b| - 1);
        }
      }
    }
  }

  /** An event changes no old timer but the idle timer it stops. */
  lemma OldTimers(cfg: EngineConfig, g: Group, timers: seq<Timer>, now: int, ev: Event)
    ensures var timers' := AddEvent(cfg, g, timers, now, ev).1;
      && |timers'| > |timers|
      && (forall i :: 0 <= i < |timers| ==>
            timers'[i] == timers[i] || (g.idleTimer == Some(i) && timers'[i] == timers[i].(status := Stopped)))
  {
    hide Append;
  }

  lemma StillOvertaken(cfg: EngineConfig, b: seq<Arrival>, a: Arrival, t: Timer)
    ensures (exists k :: Overtaken(cfg, b, t, k)) ==> exists k :: Overtaken(cfg, b + [a], t, k)
  {
    if k :| Overtaken(cfg, b, t, k) {
      assert Overtaken(cfg, b + [a], t, k);
    }
  }

  /** A group whose timers only changed in status, not towards Armed or Due. */
  lemma OtherGroup(cfg: EngineConfig, timers: seq<Timer>, timers': seq<Timer>, now: int, group: Group,
                   b: seq<Arrival>, g: string)
    requires GroupRaces(cfg, timers, now, group, b, g) && |timers| <= |timers'|
    requires forall i :: 0 <= i < |timers| && timers[i].groupKey == g ==> timers'[i] == timers[i]
    requires forall i :: 0 <= i < |timers| ==>
      timers'[i].groupKey == timers[i].groupKey && timers'[i].deadline == timers[i].deadline
    requires forall i :: |timers| <= i < |timers'| ==> timers'[i].groupKey != g
    ensures GroupRaces(cfg, timers', now, group, b, g)
  {
    hide Overtaken;
  }

  lemma ArriveRaces(cfg: EngineConfig, s: State, ev: Event, g: string)
    requires Inv(cfg, s)
    ensures Racing(cfg, Apply(cfg, s, Action.Arrive(ev)), g)
  {
    hide Spaced, Overtaken, Gap, TimersOf;
    var here := ev.groupKey;
    if here in s.engine.groups { assert GroupOk(s.engine, here); }
    assert Racing(cfg, s, g) && Racing(cfg, s, here);
    if g == here {
      var a := Arrival(s.engine.now, ev, |s.history|);
      ArriveHere(cfg, s.engine.timers, s.engine.now, GroupOf(s.engine, here), OpenOf(s, g), a);
    } else {
      ArriveElsewhere(cfg, s, ev, g);
    }
    hide GroupRaces, AddEvent, EngineModel.Inv;
  }

  lemma ArriveElsewhere(cfg: EngineConfig, s: State, ev: Event, g: string)
    requires EngineModel.Inv(s.engine) && Racing(cfg, s, g) && g != ev.groupKey
    ensures Racing(cfg, Apply(cfg, s, Action.Arrive(ev)), g)
  {
    hide GroupRaces, Append;
    var s', here := Apply(cfg, s, Action.Arrive(ev)), ev.groupKey;
    if here in s.engine.groups { assert GroupOk(s.engine, here); }
    OldTimers(cfg, GroupOf(s.engine, here), s.engine.timers, s.engine.now, ev);
    AddEventTimers(cfg, GroupOf(s.engine, here), s.engine.timers, s.engine.now, ev);
    IdleIsOwn(s, here);
    hide AddEvent, EngineModel.Inv;
    OtherGroup(cfg, s.engine.timers, s'.engine.timers, s.engine.now, GroupOf(s.engine, g), OpenOf(s, g), g);
  }

  lemma ArriveSpaced(cfg: EngineConfig, s: State, ev: Event)
    requires Spaced(cfg, s) && NoneEarly(s)
    requires GroupOf(s.engine, ev.groupKey).buckets == map[] ==> GroupOf(s.engine, ev.groupKey).idleTimer.None?
    ensures Spaced(cfg, Apply(cfg, s, Action.Arrive(ev))) && NoneEarly(Apply(cfg, s, Action.Arrive(ev)))
  {
    var s' := Apply(cfg, s, Action.Arrive(ev));
    OldTimers(cfg, GroupOf(s.engine, ev.groupKey), s.engine.timers, s.engine.now, ev);
    NewTimersArmed(cfg, GroupOf(s.engine, ev.groupKey), s.engine.timers, s.engine.now, ev);
    assert s'.log == s.log && s'.engine.now == s.engine.now;
    hide AddEvent, EarlyIfBroken, Gap;
  }

  lemma NewTimersArmed(cfg: EngineConfig, g: Group, timers: seq<Timer>, now: int, ev: Event)
    ensures var timers' := AddEvent(cfg, g, timers, now, ev).1;
      forall i :: |timers| <= i < |timers'| ==> timers'[i].status != Due
  {
    hide Append;
  }

  lemma ArriveKeepsInv(cfg: EngineConfig, s: State, ev: Event)
    requires Inv(cfg, s)
    ensures Inv(cfg, Apply(cfg, s, Action.Arrive(ev)))
  {
    IngestKeepsInv(cfg, s.engine, ev);
    if ev.groupKey in s.engine.groups { assert GroupOk(s.engine, ev.groupKey); }
    ArriveSpaced(cfg, s, ev);
    forall g ensures Racing(cfg, Apply(cfg, s, Action.Arrive(ev)), g) {
      ArriveRaces(cfg, s, ev, g);
    }
    hide Racing, Spaced, NoneEarly, AddEvent, EngineModel.Inv;
  }

  lemma ExpireKeepsRacing(cfg: EngineConfig, s: State, i: nat)
    requires Inv(cfg, s) && Enabled(s, ExpireTimer(i))
    ensures Inv(cfg, Apply(cfg, s, ExpireTimer(i)))
  {
    var s' := Apply(cfg, s, ExpireTimer(i));
    ExpireKeepsInv(s.engine, i);
    forall g ensures Racing(cfg, s', g) {
      assert Racing(cfg, s, g);
      hide Overtaken, Gap, EngineModel.Inv, Spaced;
    }
    hide Racing, EngineModel.Inv, EarlyIfBroken, Gap;
  }

  lemma TickKeepsInv(cfg: EngineConfig, s: State, to: int)
    requires Inv(cfg, s) && Enabled(s, Tick(to))
    ensures Inv(cfg, Apply(cfg, s, Tick(to)))
  {
    var s' := Apply(cfg, s, Tick(to));
    SameEngine(s.engine, to);
    forall g ensures Racing(cfg, s', g) {
      assert Racing(cfg, s, g);
      hide TimersOf, EngineModel.Inv, Spaced;
    }
    hide Racing, EngineModel.Inv, EarlyIfBroken, Gap;
  }

  lemma SameEngine(e: Engine, to: int)
    requires EngineModel.Inv(e)
    ensures EngineModel.Inv(e.(now := to))
  {
    forall k | k in e.groups ensures GroupOk(e.(now := to), k) { assert GroupOk(e, k); }
    forall i | 0 <= i < |e.timers| ensures TimerOk(e.(now := to), i) { assert TimerOk(e, i); }
  }

  /** A callback that takes a batch comes at least the gap after it opened; if it comes
      before the batch would close, it is in neither timer field: it had expired before an
      event replaced it. */
  lemma TakenAfterGap(cfg: EngineConfig, s: State, i: nat)
    requires Inv(cfg, s) && Enabled(s, RunCallback(i)) && Callback(s.engine, i).1.Some?
    ensures var g := s.engine.timers[i].groupKey;
      var b, group := OpenOf(s, g), GroupOf(s.engine, g);
      && b != [] && b[0].at + Gap(cfg) <= s.engine.now
      && (s.engine.now < CloseAt(cfg, b) ==>
            && group.hardTimer != Some(i) && group.idleTimer != Some(i)
            && exists k :: Overtaken(cfg, b, s.engine.timers[i], k))
  {
    assert Racing(cfg, s, s.engine.timers[i].groupKey);
    hide Spaced, EngineModel.Inv, Overtaken;
  }

  lemma OvertakenIsBroken(cfg: EngineConfig, b: seq<Arrival>, t: Timer, k: nat)
    requires Overtaken(cfg, b, t, k)
    ensures !Unbroken(cfg, b)
  {
    assert b[..k + 1][k] == b[k];
    assert b[k + 1].at >= CloseAt(cfg, b[..k + 1]);
  }

  lemma CallbackKeepsRacing(cfg: EngineConfig, s: State, i: nat)
    requires Inv(cfg, s) && Enabled(s, RunCallback(i))
    ensures Inv(cfg, Apply(cfg, s, RunCallback(i)))
  {
    CallbackKeepsInv(s.engine, i);
    var snap := Callback(s.engine, i).1;
    if snap.Some? {
      TakenAfterGap(cfg, s, i);
      TakenSpaced(cfg, s, i);
    }
    forall g ensures Racing(cfg, Apply(cfg, s, RunCallback(i)), g) {
      CallbackRaces(cfg, s, i, g);
    }
    CallbackTimers(s.engine, i);
    hide Racing, Callback, EngineModel.Inv, EarlyIfBroken, Gap;
  }

  /** A callback arms no timer and moves no deadline. */
  lemma CallbackTimers(e: Engine, i: nat)
    requires i < |e.timers| && e.timers[i].status == Due
    ensures var e' := Callback(e, i).0;
      && e'.now == e.now && |e'.timers| == |e.timers|
      && (forall j :: 0 <= j < |e.timers| ==> e'.timers[j] == e.timers[j].(status := e'.timers[j].status))
      && (forall j :: 0 <= j < |e.timers| && e'.timers[j].status in {Armed, Due} ==> e'.timers[j] == e.timers[j])
  {
  }

  lemma CallbackRaces(cfg: EngineConfig, s: State, i: nat, g: string)
    requires Inv(cfg, s) && Enabled(s, RunCallback(i))
    ensures Racing(cfg, Apply(cfg, s, RunCallback(i)), g)
  {
    var s' := Apply(cfg, s, RunCallback(i));
    var (e', snap) := Callback(s.engine, i);
    CallbackTimers(s.engine, i);
    assert Racing(cfg, s, g);
    if snap.Some? && g == snap.value.groupKey {
      assert GroupOf(e', g) == Group(map[], None, None, GroupOf(s.engine, g).generation + 1);
      forall j | 0 <= j < |e'.timers| && e'.timers[j].groupKey == g
        ensures e'.timers[j].generation < GroupOf(e', g).generation
      {
        assert TimerOk(s.engine, j);
      }
      hide Callback, Overtaken, EngineModel.Inv, Spaced;
    } else {
      assert GroupOf(e', g) == GroupOf(s.engine, g) && OpenOf(s', g) == OpenOf(s, g);
      hide Callback, Overtaken, Gap, EngineModel.Inv, Spaced;
    }
  }

  lemma TakenSpaced(cfg: EngineConfig, s: State, i: nat)
    requires Inv(cfg, s) && Enabled(s, RunCallback(i)) && Callback(s.engine, i).1.Some?
    ensures Spaced(cfg, Apply(cfg, s, RunCallback(i)))
  {
    TakenAfterGap(cfg, s, i);
    var s', g := Apply(cfg, s, RunCallback(i)), s.engine.timers[i].groupKey;
    var b := OpenOf(s, g);
    if s.engine.now < CloseAt(cfg, b) {
      var k :| Overtaken(cfg, b, s.engine.timers[i], k);
      OvertakenIsBroken(cfg, b, s.engine.timers[i], k);
    }
    assert s'.log == s.log + [Closed(s.engine.now, Callback(s.engine, i).1.value, b)];
    assert s'.open == s.open[g := []] && s'.engine.now == s.engine.now;
    assert Callback(s.engine, i).1.value.groupKey == g;
    hide Callback, EngineModel.Inv, Racing, CloseAt, Unbroken, Gap, Apply;
  }

  lemma StepKeepsInv(cfg: EngineConfig, s: State, a: Action)
    requires Inv(cfg, s) && Enabled(s, a)
    ensures Inv(cfg, Apply(cfg, s, a))
  {
    match a
    case Arrive(ev) => ArriveKeepsInv(cfg, s, ev);
    case ExpireTimer(i) => ExpireKeepsRacing(cfg, s, i);
    case RunCallback(i) => CallbackKeepsRacing(cfg, s, i);
    case Tick(to) => TickKeepsInv(cfg, s, to);
  }

  lemma {:induction false} RunKeepsInv(cfg: EngineConfig, start: int, actions: seq<Action>)
    requires Run(cfg, start, actions).Some?
    ensures Inv(cfg, Run(cfg, start, actions).value)
  {
    if actions == [] {
      InitialRaces(cfg, start);
    } else {
      RunKeepsInv(cfg, start, actions[..|actions| - 1]);
      StepKeepsInv(cfg, Run(cfg, start, actions[..|actions| - 1]).value, actions[|actions| - 1]);
    }
  }

  lemma InitialRaces(cfg: EngineConfig, start: int)
    ensures Inv(cfg, Initial(start))
  {
  }

  // ----- the results -----

  /** Two flushes of a group are at least the shorter of the two delays apart, however long
      callbacks wait and whatever overtakes them. */
  lemma {:induction false} FlushesAreApart(cfg: EngineConfig, start: int, actions: seq<Action>)
    requires Run(cfg, start, actions).Some?
    ensures Apart(cfg, Run(cfg, start, actions).value.log)
  {
    RunKeepsInv(cfg, start, actions);
    hide Run, Apart;
  }

  /** A batch is flushed before it closes only by a callback that is in neither timer field
      of its group, and only if one of its events came after it should have closed. */
  lemma {:induction false} EarlyOnlyIfOvertaken(cfg: EngineConfig, start: int, actions: seq<Action>, i: nat)
    requires Run(cfg, start, actions).Some?
    ensures var s := Run(cfg, start, actions).value;
      && (forall c :: c in s.log ==> EarlyIfBroken(cfg, c))
      && (i < |s.engine.timers| && s.engine.timers[i].status == Due && Callback(s.engine, i).1.Some? ==>
            var g := s.engine.timers[i].groupKey;
            && OpenOf(s, g) != []
            && (s.engine.now < CloseAt(cfg, OpenOf(s, g)) ==>
                  GroupOf(s.engine, g).hardTimer != Some(i) && GroupOf(s.engine, g).idleTimer != Some(i)))
  {
    RunKeepsInv(cfg, start, actions);
    var s := Run(cfg, start, actions).value;
    hide Run, Callback;
    if i < |s.engine.timers| && s.engine.timers[i].status == Due && Callback(s.engine, i).1.Some? {
      TakenAfterGap(cfg, s, i);
    }
    hide EarlyIfBroken, CloseAt, Racing, EngineModel.Inv;
  }

  // ----- the race is real -----

  /** Two events: the second finds the batch still open although its idle timer has
      expired, takes that timer's place in the field, and is flushed by it at once. */
  function Overtaking(cfg: EngineConfig, ev: Event): seq<Action> {
    [Action.Arrive(ev), Tick(Delay(cfg.idleWindow)), ExpireTimer(1), Action.Arrive(ev), RunCallback(1)]
  }

  /** For any delays with 0 < IdleWindow < MaxWait that run is possible, and its one flush
      comes before its batch closes. */
  lemma {:induction false} FlushedEarly(cfg: EngineConfig, ev: Event)
    requires 0 < Delay(cfg.idleWindow) < Delay(cfg.maxWait)
    ensures Run(cfg, 0, Overtaking(cfg, ev)).Some?
    ensures var log := Run(cfg, 0, Overtaking(cfg, ev)).value.log;
      |log| == 1 && |log[0].arrivals| == 2 && log[0].at < CloseAt(cfg, log[0].arrivals)
  {
    var g, idle := ev.groupKey, Delay(cfg.idleWindow);
    var s1 := Apply(cfg, Initial(0), Action.Arrive(ev));
    RunSnoc(cfg, 0, [], Action.Arrive(ev));
    FirstArrival(cfg, ev);
    var s2 := Apply(cfg, s1, Tick(idle));
    RunSnoc(cfg, 0, [] + [Action.Arrive(ev)], Tick(idle));
    var s3 := Apply(cfg, s2, ExpireTimer(1));
    RunSnoc(cfg, 0, [] + [Action.Arrive(ev)] + [Tick(idle)], ExpireTimer(1));
    var s4 := Apply(cfg, s3, Action.Arrive(ev));
    RunSnoc(cfg, 0, [] + [Action.Arrive(ev)] + [Tick(idle)] + [ExpireTimer(1)], Action.Arrive(ev));
    SecondArrival(cfg, s3, ev);
    RunSnoc(cfg, 0, [] + [Action.Arrive(ev)] + [Tick(idle)] + [ExpireTimer(1)] + [Action.Arrive(ev)], RunCallback(1));
    assert [] + [Action.Arrive(ev)] + [Tick(idle)] + [ExpireTimer(1)] + [Action.Arrive(ev)] + [RunCallback(1)]
        == Overtaking(cfg, ev);
  }

  lemma FirstArrival(cfg: EngineConfig, ev: Event)
    ensures var s := Apply(cfg, Initial(0), Action.Arrive(ev));
      && s.engine.now == 0 && s.log == [] && OpenOf(s, ev.groupKey) == [Arrival(0, ev, 0)] && |s.history| == 1
      && |s.engine.timers| == 2
      && s.engine.timers[1] == Timer(Delay(cfg.idleWindow), ev.groupKey, 0, Armed)
      && ev.groupKey in s.engine.groups && s.engine.groups[ev.groupKey].generation == 0
      && s.engine.groups[ev.groupKey].buckets != map[] && s.engine.groups[ev.groupKey].idleTimer == Some(1)
  {
    var group := Initial(0).engine.groups;
    assert ev.trigger in Append(map[], ev);
  }

  lemma SecondArrival(cfg: EngineConfig, s: State, ev: Event)
    requires ev.groupKey in s.engine.groups && s.engine.groups[ev.groupKey].generation == 0
    requires s.engine.groups[ev.groupKey].buckets != map[] && s.engine.groups[ev.groupKey].idleTimer == Some(1)
    requires |s.engine.timers| == 2 && s.engine.timers[1].status == Due && s.engine.timers[1].groupKey == ev.groupKey
    requires s.engine.timers[1].generation == 0 && s.log == []
    ensures var s' := Apply(cfg, s, Action.Arrive(ev));
      && Enabled(s', RunCallback(1)) && s'.engine.now == s.engine.now
      && Apply(cfg, s', RunCallback(1)).log == [Closed(s.engine.now,
           Callback(s'.engine, 1).1.value, OpenOf(s, ev.groupKey) + [Arrival(s.engine.now, ev, |s.history|)])]
  {
    var g := s.engine.groups[ev.groupKey];
    assert ev.trigger in Append(g.buckets, ev);
    OldTimers(cfg, g, s.engine.timers, s.engine.now, ev);
    AddEventTimers(cfg, g, s.engine.timers, s.engine.now, ev);
    assert Callback(Apply(cfg, s, Action.Arrive(ev)).engine, 1).1.Some?;
  }
}
