/** The calls of the racing engine: its flushes are split, and each call takes the
    publisher's lock whenever it comes to it. The state is that of `Timing`, which is the
    special case of urgent timers and prompt calls. */
module RacingCalls {
  import opened Domain
  import opened EngineModel
  import opened Timing
  import Debounce
  import Flush
  import Race
  import SessionModel

  datatype Action =
    | Arrive(ev: Event)
    | ExpireTimer(timer: nat)
    | RunCallback(timer: nat, calls: seq<UpsertCall>)
    | Tick(to: int)
    | Upsert(which: nat)

  function EngineAction(a: Action): Race.Action
    requires !a.Upsert?
  {
    match a
    case Arrive(ev) => Race.Arrive(ev)
    case ExpireTimer(i) => Race.ExpireTimer(i)
    case RunCallback(i, _) => Race.RunCallback(i)
    case Tick(to) => Race.Tick(to)
  }

  predicate Enabled(cfg: Config, s: State, a: Action) {
    if a.Upsert? then a.which < |s.pending|
    else
      && Race.Enabled(s.timed, EngineAction(a))
      && (a.RunCallback? ==>
            var snap := Callback(s.timed.engine, a.timer).1;
            snap.Some? ==> Flush.IsSplit(cfg.engine, snap.value.groupKey, snap.value.buckets, a.calls))
  }

  function Apply(cfg: Config, s: State, a: Action): State
    requires Enabled(cfg, s, a)
  {
    match a
    case Upsert(j) => Used(cfg, s, j)
    case Arrive(ev) => Arrived(cfg, s, ev)
    case RunCallback(i, calls) =>
      if Callback(s.timed.engine, i).1.Some? then Taken(cfg, s, i, calls) else s.(timed := Debounce.Taken(s.timed, i))
    case _ => s.(timed := Race.Apply(cfg.engine, s.timed, EngineAction(a)))
  }

  function Initially(start: int): State {
    State(Debounce.Initial(start), [], SessionModel.Store(map[], 0), [], [])
  }

  function Run(cfg: Config, start: int, actions: seq<Action>): Option<State> {
    if actions == [] then Some(Initially(start))
    else
      var before := Run(cfg, start, actions[..|actions| - 1]);
      var a := actions[|actions| - 1];
      if before.Some? && Enabled(cfg, before.value, a) then Some(Apply(cfg, before.value, a)) else None
  }

  // ----- when the calls of a key come -----

  /** The call was made by a flush of its group, at that time. */
  ghost predicate FromFlush(s: State, c: Call) {
    exists k :: 0 <= k < |s.timed.log| && MadeBy(s.timed.log[k], c)
  }

  predicate MadeBy(flush: Debounce.Closed, c: Call) {
    flush.at == c.flushedAt && flush.snapshot.groupKey == c.call.key.groupKey
  }

  predicate CallsApart(cfg: Config, c: Call, d: Call) {
    c.call.key == d.call.key ==>
      c.flushedAt + Race.Gap(cfg.engine) <= d.flushedAt || d.flushedAt + Race.Gap(cfg.engine) <= c.flushedAt
  }

  /** No call takes the lock before its flush. */
  predicate AfterFlush(s: State) {
    && (forall j :: 0 <= j < |s.pending| ==> s.pending[j].flushedAt <= s.timed.engine.now)
    && (forall j :: 0 <= j < |s.upserts| ==> s.upserts[j].call.flushedAt <= s.upserts[j].at)
  }

  ghost predicate Spaced(cfg: Config, s: State) {
    && (forall p :: CallAt(s, p).Some? ==> FromFlush(s, CallAt(s, p).value))
    && (forall p, q :: CallAt(s, p).Some? && CallAt(s, q).Some? && p != q ==>
          CallsApart(cfg, CallAt(s, p).value, CallAt(s, q).value))
  }

  ghost predicate Inv(cfg: Config, s: State) {
    Race.Inv(cfg.engine, s.timed) && Spaced(cfg, s) && AfterFlush(s)
  }

  /** What a flush adds: an entry in the log, and calls with distinct keys of its group. */
  lemma TakenShape(cfg: Config, s: State, i: nat, calls: seq<UpsertCall>)
    requires Enabled(cfg, s, RunCallback(i, calls)) && Callback(s.timed.engine, i).1.Some?
    ensures var s', g, now := Taken(cfg, s, i, calls), s.timed.engine.timers[i].groupKey, s.timed.engine.now;
      && s'.timed == Debounce.Taken(s.timed, i) && s'.timed.engine.now == now
      && |s'.timed.log| == |s.timed.log| + 1 && s'.timed.log[..|s.timed.log|] == s.timed.log
      && s'.timed.log[|s.timed.log|].at == now && s'.timed.log[|s.timed.log|].snapshot.groupKey == g
      && s'.pending == s.pending + CallsAt(cfg, now, calls, s'.timed.log[|s.timed.log|].arrivals)
      && s'.upserts == s.upserts
      && (forall k :: 0 <= k < |calls| ==> calls[k].key.groupKey == g)
      && (forall j, k :: 0 <= j < k < |calls| ==> calls[j].key != calls[k].key)
  {
    var snap := Callback(s.timed.engine, i).1.value;
    forall k | 0 <= k < |calls| ensures calls[k].key.groupKey == snap.groupKey {
      assert Flush.CallOk(cfg.engine, snap.groupKey, snap.buckets, calls[k]);
      assert calls[k].events[0] in calls[k].events;
    }
    hide Flush.CallOk;
  }

  lemma TakenKeepsInv(cfg: Config, s: State, i: nat, calls: seq<UpsertCall>)
    requires Inv(cfg, s) && Enabled(cfg, s, RunCallback(i, calls)) && Callback(s.timed.engine, i).1.Some?
    ensures Inv(cfg, Taken(cfg, s, i, calls))
  {
    var s' := Taken(cfg, s, i, calls);
    TakenShape(cfg, s, i, calls);
    Race.StepKeepsInv(cfg.engine, s.timed, Race.RunCallback(i));
    LogApart(cfg, s');
    hide Race.Inv, Callback, Taken, Enabled, ForKey, Spaced;
    NewCallsSpaced(cfg, s, s', s.timed.engine.now, calls, s.timed.engine.timers[i].groupKey);
  }

  lemma LogApart(cfg: Config, s: State)
    requires Race.Inv(cfg.engine, s.timed)
    ensures Race.Apart(cfg.engine, s.timed.log)
  {
  }

  lemma NewCallsSpaced(cfg: Config, s: State, s': State, now: int, calls: seq<UpsertCall>, g: string)
    requires Spaced(cfg, s) && Race.Apart(cfg.engine, s'.timed.log)
    requires |s'.timed.log| == |s.timed.log| + 1 && s'.timed.log[..|s.timed.log|] == s.timed.log
    requires s'.timed.log[|s.timed.log|].at == now && s'.timed.log[|s.timed.log|].snapshot.groupKey == g
    requires s'.upserts == s.upserts && |s'.pending| == |s.pending| + |calls| && s.pending <= s'.pending
    requires forall k :: 0 <= k < |calls| ==>
      s'.pending[|s.pending| + k].call == calls[k] && s'.pending[|s.pending| + k].flushedAt == now
    requires forall k :: 0 <= k < |calls| ==> calls[k].key.groupKey == g
    requires forall j, k :: 0 <= j < k < |calls| ==> calls[j].key != calls[k].key
    ensures Spaced(cfg, s')
  {
    var n := |s.pending|;
    hide Race.Gap;
    forall p | CallAt(s', p).Some? ensures FromFlush(s', CallAt(s', p).value) {
      if p.Queued? && n <= p.call {
        assert CallAt(s', p).value.call == calls[p.call - n];
      } else {
        assert CallAt(s, p) == CallAt(s', p);
        var k :| 0 <= k < |s.timed.log| && MadeBy(s.timed.log[k], CallAt(s, p).value);
        assert s'.timed.log[k] == s.timed.log[k];
      }
    }
    forall p, q | CallAt(s', p).Some? && CallAt(s', q).Some? && p != q
      ensures CallsApart(cfg, CallAt(s', p).value, CallAt(s', q).value)
    {
      NewPairApart(cfg, s, s', now, calls, g, p, q);
    }
  }

  lemma NewPairApart(cfg: Config, s: State, s': State, now: int, calls: seq<UpsertCall>, g: string, p: Place, q: Place)
    requires Spaced(cfg, s) && Race.Apart(cfg.engine, s'.timed.log)
    requires |s'.timed.log| == |s.timed.log| + 1 && s'.timed.log[..|s.timed.log|] == s.timed.log
    requires s'.timed.log[|s.timed.log|].at == now && s'.timed.log[|s.timed.log|].snapshot.groupKey == g
    requires s'.upserts == s.upserts && |s'.pending| == |s.pending| + |calls| && s.pending <= s'.pending
    requires forall k :: 0 <= k < |calls| ==>
      s'.pending[|s.pending| + k].call == calls[k] && s'.pending[|s.pending| + k].flushedAt == now
    requires forall k :: 0 <= k < |calls| ==> calls[k].key.groupKey == g
    requires forall j, k :: 0 <= j < k < |calls| ==> calls[j].key != calls[k].key
    requires CallAt(s', p).Some? && CallAt(s', q).Some? && p != q
    ensures CallsApart(cfg, CallAt(s', p).value, CallAt(s', q).value)
  {
    hide Race.Gap;
    var n := |s.pending|;
    var newP, newQ := p.Queued? && n <= p.call, q.Queued? && n <= q.call;
    assert !newP ==> CallAt(s, p) == CallAt(s', p);
    assert !newQ ==> CallAt(s, q) == CallAt(s', q);
    forall r: Place | r.Queued? && n <= r.call && CallAt(s', r).Some?
      ensures 0 <= r.call - n < |calls|
      ensures CallAt(s', r).value.call == calls[r.call - n] && CallAt(s', r).value.flushedAt == now
    {
      assert s'.pending[n + (r.call - n)].call == calls[r.call - n];
    }
    if newP && newQ {
      assert CallAt(s', p).value.call.key != CallAt(s', q).value.call.key;
    } else if newP {
      assert FromFlush(s, CallAt(s, q).value);
      OldCallApart(cfg, s, s', CallAt(s, q).value, CallAt(s', p).value);
    } else if newQ {
      assert FromFlush(s, CallAt(s, p).value);
      OldCallApart(cfg, s, s', CallAt(s, p).value, CallAt(s', q).value);
    }
  }

  lemma OldCallApart(cfg: Config, s: State, s': State, before: Call, c: Call)
    requires FromFlush(s, before) && Race.Apart(cfg.engine, s'.timed.log)
    requires |s'.timed.log| == |s.timed.log| + 1 && s'.timed.log[..|s.timed.log|] == s.timed.log
    requires s'.timed.log[|s.timed.log|].at == c.flushedAt
    requires s'.timed.log[|s.timed.log|].snapshot.groupKey == c.call.key.groupKey
    ensures CallsApart(cfg, before, c) && CallsApart(cfg, c, before)
  {
    hide Race.Gap;
    var k :| 0 <= k < |s.timed.log| && MadeBy(s.timed.log[k], before);
    assert s'.timed.log[k] == s.timed.log[k];
  }

  lemma UsedKeepsInv(cfg: Config, s: State, j: nat)
    requires Inv(cfg, s) && j < |s.pending|
    ensures Inv(cfg, Used(cfg, s, j))
  {
    var s' := Used(cfg, s, j);
    UpsertMoves(cfg, s, j);
    assert s'.timed == s.timed;
    assert AfterFlush(s') by { hide SessionModel.Begin, Race.Inv, Spaced; }
    hide Used, Race.Inv, CallAt, CallsApart;
    forall p | CallAt(s', p).Some? ensures FromFlush(s', CallAt(s', p).value) {
      assert FromFlush(s, CallAt(s, Source(|s.upserts|, j, p)).value);
    }
    SourceIsOneToOne(s, s', j);
  }

  lemma StepKeepsInv(cfg: Config, s: State, a: Action)
    requires Inv(cfg, s) && Enabled(cfg, s, a)
    ensures Inv(cfg, Apply(cfg, s, a))
  {
    if a.Upsert? {
      UsedKeepsInv(cfg, s, a.which);
    } else if a.RunCallback? && Callback(s.timed.engine, a.timer).1.Some? {
      TakenKeepsInv(cfg, s, a.timer, a.calls);
    } else {
      var s' := Apply(cfg, s, a);
      Race.StepKeepsInv(cfg.engine, s.timed, EngineAction(a));
      assert s'.timed == Race.Apply(cfg.engine, s.timed, EngineAction(a));
      assert s'.pending == s.pending && s'.upserts == s.upserts && s'.timed.log == s.timed.log;
      assert s.timed.engine.now <= s'.timed.engine.now;
      hide Race.Inv, Apply, Race.Apply, Spaced;
      SameCallsSpaced(cfg, s, s');
    }
  }

  /** Places that hold a call afterwards held different calls before. */
  lemma SourceIsOneToOne(s: State, s': State, j: nat)
    requires s'.upserts != [] && |s'.upserts| == |s.upserts| + 1
    ensures forall p, q :: CallAt(s', p).Some? && CallAt(s', q).Some? && p != q ==>
      Source(|s.upserts|, j, p) != Source(|s.upserts|, j, q)
  {
  }

  lemma SameCallsSpaced(cfg: Config, s: State, s': State)
    requires Spaced(cfg, s) && s'.pending == s.pending && s'.upserts == s.upserts && s'.timed.log == s.timed.log
    ensures Spaced(cfg, s')
  {
    hide CallsApart;
    assert forall p :: CallAt(s', p) == CallAt(s, p);
    hide CallAt;
    forall p | CallAt(s', p).Some? ensures FromFlush(s', CallAt(s', p).value) {
      assert FromFlush(s, CallAt(s, p).value);
    }
  }

  lemma {:induction false} RunKeepsInv(cfg: Config, start: int, actions: seq<Action>)
    requires Run(cfg, start, actions).Some?
    ensures Inv(cfg, Run(cfg, start, actions).value)
  {
    if actions == [] {
      Race.InitialRaces(cfg.engine, start);
    } else {
      RunKeepsInv(cfg, start, actions[..|actions| - 1]);
      hide Inv, Apply;
      StepKeepsInv(cfg, Run(cfg, start, actions[..|actions| - 1]).value, actions[|actions| - 1]);
    }
  }

  /** Two calls of one key come from flushes at least the shorter of the two delays
      apart, and none takes the lock before its flush. */
  lemma {:induction false} CallsOfAKeyAreApart(cfg: Config, start: int, actions: seq<Action>, i: nat, j: nat)
    requires Run(cfg, start, actions).Some?
    requires var upserts := Run(cfg, start, actions).value.upserts; i < |upserts| && j < |upserts|
    ensures var upserts := Run(cfg, start, actions).value.upserts;
      && upserts[i].call.flushedAt <= upserts[i].at
      && (i != j ==> CallsApart(cfg, upserts[i].call, upserts[j].call))
  {
    RunKeepsInv(cfg, start, actions);
    var s := Run(cfg, start, actions).value;
    hide Run, Race.Inv;
    assert CallAt(s, Made(i)) == Some(s.upserts[i].call) && CallAt(s, Made(j)) == Some(s.upserts[j].call);
    hide CallAt, CallsApart;
  }

  // ----- the urgent engine is one of these -----

  lemma RunSnoc(cfg: Config, start: int, actions: seq<Action>, a: Action)
    requires Run(cfg, start, actions).Some? && Enabled(cfg, Run(cfg, start, actions).value, a)
    ensures Run(cfg, start, actions + [a]) == Some(Apply(cfg, Run(cfg, start, actions).value, a))
  {
    assert (actions + [a])[..|actions|] == actions;
  }

  /** Firing a timer at once is expiring it and running its callback. */
  lemma FireInTwo(cfg: Config, s: State, i: nat, calls: seq<UpsertCall>)
    requires Timing.Enabled(cfg, s, Fire(i, calls))
    ensures Enabled(cfg, s, ExpireTimer(i))
    ensures var due := Apply(cfg, s, ExpireTimer(i));
      && Enabled(cfg, due, RunCallback(i, calls))
      && Apply(cfg, due, RunCallback(i, calls)) == Timing.Apply(cfg, s, Fire(i, calls))
  {
    var e := s.timed.engine;
    var due := Expire(e, i);
    assert due.timers[i := due.timers[i].(status := Done)] == e.timers[i := e.timers[i].(status := Done)];
    assert Callback(due, i) == Callback(e, i);
    hide OnTimerFire, Flush.IsSplit;
  }

  /** Every run of the urgent engine is, state for state, a run of the racing one: what
      holds of the racing engine holds of the urgent one. */
  lemma {:induction false} UrgentRunsRace(cfg: Config, start: int, urgent: seq<Timing.Action>)
    returns (racing: seq<Action>)
    requires Timing.Run(cfg, start, urgent).Some?
    ensures Run(cfg, start, racing) == Timing.Run(cfg, start, urgent)
  {
    if urgent == [] {
      racing := [];
    } else {
      var a := urgent[|urgent| - 1];
      var s := Timing.Run(cfg, start, urgent[..|urgent| - 1]).value;
      racing := UrgentRunsRace(cfg, start, urgent[..|urgent| - 1]);
      match a
      case Fire(i, calls) =>
        FireInTwo(cfg, s, i, calls);
        hide Enabled, Apply, Timing.Apply, Timing.Enabled;
        RunSnoc(cfg, start, racing, ExpireTimer(i));
        RunSnoc(cfg, start, racing + [ExpireTimer(i)], RunCallback(i, calls));
        racing := racing + [ExpireTimer(i)] + [RunCallback(i, calls)];
      case Arrive(ev) =>
        RunSnoc(cfg, start, racing, Action.Arrive(ev));
        racing := racing + [Action.Arrive(ev)];
      case Advance(to) =>
        RunSnoc(cfg, start, racing, Tick(to));
        racing := racing + [Tick(to)];
      case Upsert(j) =>
        RunSnoc(cfg, start, racing, Action.Upsert(j));
        racing := racing + [Action.Upsert(j)];
    }
  }
}
