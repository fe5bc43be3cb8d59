/** What the live message shows: when calls of a key do not overlap, the stored events of
    the session, as of the last delivery that was acknowledged. */
module Latest {
  import opened Domain
  import opened SessionModel
  import OneMessage
  import Protocol
  import Replay
  import Routing
  import SlackClient

  /** The events a delivery showed, and whether the core learnt that it was taken. */
  datatype Delivery = Delivery(apps: map<string, Event>, acked: bool)

  predicate IsFor(s: OneMessage.State, step: OneMessage.Step, id: nat, to: RefKey) {
    step.Deliver? && step.to == to && step.op in s.p.ops && s.p.ops[step.op].ticket.id == id
  }

  function DeliveryOf(cfg: OneMessage.Config, s: OneMessage.State, step: OneMessage.Step): Delivery
    requires step.Deliver? && step.op in s.p.ops
  {
    var o := s.p.ops[step.op];
    Delivery(Routing.AppsFor(o.ticket.perApp, step.to), OneMessage.Obtained(cfg, o, step.to, step.env).Some?)
  }

  /** The last delivery of a run to a destination of a session object. */
  function LastDelivery(cfg: OneMessage.Config, steps: seq<OneMessage.Step>, id: nat, to: RefKey): Option<Delivery>
    requires OneMessage.Run(cfg, steps).Some?
  {
    if steps == [] then None
    else
      var s, step := OneMessage.Run(cfg, steps[..|steps| - 1]).value, steps[|steps| - 1];
      if IsFor(s, step, id, to) then Some(DeliveryOf(cfg, s, step))
      else LastDelivery(cfg, steps[..|steps| - 1], id, to)
  }

  /** The content of the last acknowledged attempt. */
  function Shown(wire: seq<OneMessage.Wire>, id: nat, to: RefKey): Option<Notification> {
    if wire == [] then None
    else
      var w := wire[|wire| - 1];
      if w.id == id && w.to == to && w.acked then Some(w.content) else Shown(wire[..|wire| - 1], id, to)
  }

  // ----- what is shown is what the last acknowledged delivery sent -----

  lemma {:induction false} ShownAppend(a: seq<OneMessage.Wire>, b: seq<OneMessage.Wire>, id: nat, to: RefKey)
    ensures Shown(a + b, id, to) == if Shown(b, id, to).Some? then Shown(b, id, to) else Shown(a, id, to)
  {
    if b == [] {
      assert a + b == a;
    } else {
      ShownAppend(a, b[..|b| - 1], id, to);
      assert (a + b)[..|a + b| - 1] == a + b[..|b| - 1];
    }
  }

  lemma {:induction false} ShownNothing(wire: seq<OneMessage.Wire>, id: nat, to: RefKey)
    requires forall i :: 0 <= i < |wire| ==> wire[i].id != id || wire[i].to != to || !wire[i].acked
    ensures Shown(wire, id, to).None?
  {
    if wire == [] {
    } else {
      ShownNothing(wire[..|wire| - 1], id, to);
    }
  }

  /** A delivery is acknowledged by its last attempt, which carries what was built. */
  lemma DeliveryShows(cfg: OneMessage.Config, o: Protocol.Op, step: OneMessage.Step, id: nat, to: RefKey)
    requires cfg.retries >= 0 && step.Deliver?
    ensures var added := OneMessage.WireFor(cfg, o, step.to, step.env);
      var built := cfg.core.build(Routing.AppsFor(o.ticket.perApp, step.to));
      Shown(added, id, to) ==
        if o.ticket.id == id && step.to == to && OneMessage.Obtained(cfg, o, step.to, step.env).Some? && built.Ok?
        then Some(built.value) else None
  {
    var added := OneMessage.WireFor(cfg, o, step.to, step.env);
    LastIsAcked(cfg, o, step);
    hide OneMessage.WireFor, OneMessage.Obtained;
    if !(o.ticket.id == id && step.to == to && OneMessage.Obtained(cfg, o, step.to, step.env).Some?) {
      ShownNothing(added, id, to);
    }
  }

  lemma LastIsAcked(cfg: OneMessage.Config, o: Protocol.Op, step: OneMessage.Step)
    requires cfg.retries >= 0 && step.Deliver?
    ensures var added := OneMessage.WireFor(cfg, o, step.to, step.env);
      var built := cfg.core.build(Routing.AppsFor(o.ticket.perApp, step.to));
      && (forall i :: 0 <= i < |added| ==>
            added[i].id == o.ticket.id && added[i].to == step.to && built.Ok? && added[i].content == built.value)
      && (if OneMessage.Obtained(cfg, o, step.to, step.env).Some?
          then added != [] && added[|added| - 1].acked && built.Ok?
          else forall i :: 0 <= i < |added| ==> !added[i].acked)
  {
    if step.env.Reached? {
      SlackClient.CallEnds(step.env.weather.encodes, cfg.retries, step.env.weather.tries);
    }
    hide Routing.AppsFor, SlackClient.DecodeRef, SlackClient.EncodeRef, SlackClient.Calling, SlackClient.KeptTrying,
      SlackClient.Retryable;
  }

  /** In every run, what the last acknowledged attempt carries was built from the events of
      the last acknowledged delivery: if that is the last delivery, from its events. */
  lemma {:induction false} ShownIsDelivered(cfg: OneMessage.Config, steps: seq<OneMessage.Step>, id: nat, to: RefKey)
    requires cfg.retries >= 0 && OneMessage.Run(cfg, steps).Some?
    ensures var last := LastDelivery(cfg, steps, id, to);
      last.Some? && last.value.acked ==>
        && cfg.core.build(last.value.apps).Ok?
        && Shown(OneMessage.Run(cfg, steps).value.wire, id, to) == Some(cfg.core.build(last.value.apps).value)
  {
    if steps == [] {
    } else {
      var s, step := OneMessage.Run(cfg, steps[..|steps| - 1]).value, steps[|steps| - 1];
      ShownIsDelivered(cfg, steps[..|steps| - 1], id, to);
      if step.Deliver? {
        var o := s.p.ops[step.op];
        OneMessage.SendShape(cfg, s, step.op, step.to, step.env);
        ShownAppend(s.wire, OneMessage.WireFor(cfg, o, step.to, step.env), id, to);
        DeliveryShows(cfg, o, step, id, to);
        hide OneMessage.WireFor, OneMessage.Obtained, OneMessage.Apply, Routing.AppsFor, Shown;
      }
    }
  }

  // ----- in serial runs the last delivery is of the stored events -----

  /** A call in progress works on the stored session of its key and its stored events. */
  ghost predicate Currents(p: Protocol.State) {
    forall n :: OneMessage.Active(p, n) ==>
      && p.ops[n].ticket.key in p.store.sessions
      && p.store.sessions[p.ops[n].ticket.key].id == p.ops[n].ticket.id
      && p.store.sessions[p.ops[n].ticket.key].perApp == p.ops[n].ticket.perApp
  }

  /** A destination that the session names is still to be served, or was last served with
      the stored events. */
  ghost predicate UpToDate(cfg: OneMessage.Config, steps: seq<OneMessage.Step>, key: SessionKey, to: RefKey)
    requires OneMessage.Run(cfg, steps).Some? && key in OneMessage.Run(cfg, steps).value.p.store.sessions
  {
    var p := OneMessage.Run(cfg, steps).value.p;
    UpTo(p, key, to, LastDelivery(cfg, steps, p.store.sessions[key].id, to))
  }

  ghost predicate UpTo(p: Protocol.State, key: SessionKey, to: RefKey, last: Option<Delivery>)
    requires key in p.store.sessions
  {
    var perApp := p.store.sessions[key].perApp;
    Routing.Names(perApp, to) ==>
      || (exists n :: OneMessage.Active(p, n) && p.ops[n].ticket.key == key && to in p.ops[n].left)
      || (last.Some? && last.value.apps == Routing.AppsFor(perApp, to))
  }

  lemma StartKeepsCurrents(cfg: Protocol.Config, p: Protocol.State, a: Protocol.Action)
    requires Currents(p) && Protocol.Enabled(p, a) && a.Start?
    requires forall n :: OneMessage.Active(p, n) ==> p.ops[n].ticket.key != a.key
    ensures Currents(Protocol.Apply(cfg, p, a))
  {
    hide Merge, Routing.Destinations;
  }

  lemma {:induction false} SerialIsCurrent(cfg: OneMessage.Config, steps: seq<OneMessage.Step>)
    requires OneMessage.Run(cfg, steps).Some? && OneMessage.Serial(cfg, steps)
    ensures Currents(OneMessage.Run(cfg, steps).value.p)
  {
    if steps == [] {
    } else {
      var before, step := steps[..|steps| - 1], steps[|steps| - 1];
      SerialIsCurrent(cfg, before);
      var s := OneMessage.Run(cfg, before).value;
      if step.Core? && step.action.Start? {
        StartKeepsCurrents(cfg.core, s.p, step.action);
      } else {
        OtherKeepsCurrents(cfg, s, step);
      }
      hide OneMessage.Apply, Currents;
    }
  }

  lemma OtherKeepsCurrents(cfg: OneMessage.Config, s: OneMessage.State, step: OneMessage.Step)
    requires Currents(s.p) && OneMessage.Possible(s, step) && !(step.Core? && step.action.Start?)
    ensures Currents(OneMessage.Apply(cfg, s, step).p)
  {
    if step.Deliver? {
      OneMessage.SendShape(cfg, s, step.op, step.to, step.env);
      hide OneMessage.Apply;
    }
    hide Routing.Recipients;
  }

  /** A call that starts serves every destination its session names, unless its events
      change nothing; then the session is as before. */
  lemma StartServes(cfg: Protocol.Config, p: Protocol.State, a: Protocol.Action)
    requires Protocol.Enabled(p, a) && a.Start?
    ensures var p' := Protocol.Apply(cfg, p, a);
      && a.key in p'.store.sessions && OneMessage.Active(p', a.op) && p'.ops[a.op].ticket.key == a.key
      && (forall to :: Routing.Names(p'.store.sessions[a.key].perApp, to) && to !in p'.ops[a.op].left ==>
            && a.key in p.store.sessions && p'.store.sessions[a.key].id == p.store.sessions[a.key].id
            && p'.store.sessions[a.key].perApp == p.store.sessions[a.key].perApp)
      && (forall k :: k != a.key && k in p'.store.sessions ==>
            k in p.store.sessions && p'.store.sessions[k] == p.store.sessions[k])
      && (forall n :: n in p.ops ==> n in p'.ops && p'.ops[n] == p.ops[n])
  {
    var cur := Current(cfg.ttl, p.store, a.at, a.key);
    MergeEffect(cur.perApp, a.events);
    forall to { Routing.DestinationsAreNamed(Merge(cur.perApp, a.events).perApp, to); }
    hide Merge, Routing.Destinations, Seen, Routing.Recipients;
  }

  lemma StartUpToDate(cfg: OneMessage.Config, steps: seq<OneMessage.Step>, step: OneMessage.Step, key: SessionKey,
                      to: RefKey)
    requires OneMessage.Run(cfg, steps).Some? && OneMessage.Run(cfg, steps + [step]).Some? && step.Core?
    requires step.action.Start?
    requires forall n :: OneMessage.Active(OneMessage.Run(cfg, steps).value.p, n) ==>
      OneMessage.Run(cfg, steps).value.p.ops[n].ticket.key != step.action.key
    requires key in OneMessage.Run(cfg, steps + [step]).value.p.store.sessions
    requires key in OneMessage.Run(cfg, steps).value.p.store.sessions ==> UpToDate(cfg, steps, key, to)
    ensures UpToDate(cfg, steps + [step], key, to)
  {
    var s := OneMessage.Run(cfg, steps).value;
    assert (steps + [step])[..|steps|] == steps;
    assert OneMessage.Run(cfg, steps + [step]) == Some(OneMessage.Apply(cfg, s, step));
    var p, p' := s.p, OneMessage.Apply(cfg, s, step).p;
    StartServes(cfg.core, p, step.action);
    assert p' == Protocol.Apply(cfg.core, p, step.action);
    assert forall id :: LastDelivery(cfg, steps + [step], id, to) == LastDelivery(cfg, steps, id, to);
    hide OneMessage.Run, OneMessage.Apply, Protocol.Apply, Routing.Names, Routing.AppsFor, LastDelivery;
    if n :| OneMessage.Active(p, n) && p.ops[n].ticket.key == key && to in p.ops[n].left {
      assert OneMessage.Active(p', n) && p'.ops[n] == p.ops[n];
    }
  }

  lemma DeliverUpToDate(cfg: OneMessage.Config, steps: seq<OneMessage.Step>, step: OneMessage.Step, key: SessionKey,
                        to: RefKey)
    requires OneMessage.Run(cfg, steps).Some? && OneMessage.Run(cfg, steps + [step]).Some? && step.Deliver?
    requires Currents(OneMessage.Run(cfg, steps).value.p) && OneMessage.Linked(OneMessage.Run(cfg, steps).value.p)
    requires key in OneMessage.Run(cfg, steps).value.p.store.sessions && UpToDate(cfg, steps, key, to)
    requires key in OneMessage.Run(cfg, steps + [step]).value.p.store.sessions
    ensures UpToDate(cfg, steps + [step], key, to)
  {
    var s := OneMessage.Run(cfg, steps).value;
    assert (steps + [step])[..|steps|] == steps;
    assert OneMessage.Run(cfg, steps + [step]) == Some(OneMessage.Apply(cfg, s, step));
    OneMessage.SendShape(cfg, s, step.op, step.to, step.env);
    var id := s.p.store.sessions[key].id;
    assert LastDelivery(cfg, steps + [step], id, to)
        == if IsFor(s, step, id, to) then Some(DeliveryOf(cfg, s, step)) else LastDelivery(cfg, steps, id, to);
    DeliveredApps(cfg, s, step, key, to);
    hide OneMessage.Run, OneMessage.Apply, UpTo, LastDelivery, Currents, OneMessage.Linked, DeliveryOf, IsFor;
    if IsFor(s, step, id, to) {
      UpToNow(OneMessage.Apply(cfg, s, step).p, key, to, DeliveryOf(cfg, s, step));
    } else {
      StillUpTo(s.p, OneMessage.Apply(cfg, s, step).p, step.op, step.to,
                OneMessage.Obtained(cfg, s.p.ops[step.op], step.to, step.env), key, to, LastDelivery(cfg, steps, id,
                                    to));
    }
  }

  lemma UpToNow(p: Protocol.State, key: SessionKey, to: RefKey, d: Delivery)
    requires key in p.store.sessions && d.apps == Routing.AppsFor(p.store.sessions[key].perApp, to)
    ensures UpTo(p, key, to, Some(d))
  {
  }

  /** A delivery elsewhere. */
  lemma StillUpTo(p: Protocol.State, p': Protocol.State, op: nat, dest: RefKey, got: Option<string>,
                  key: SessionKey, to: RefKey, last: Option<Delivery>)
    requires key in p.store.sessions && UpTo(p, key, to, last) && OneMessage.Active(p, op)
    requires p'.store == p.store && p'.ops == p.ops[op := OneMessage.OpAfter(p.ops[op], dest, got)]
    requires p.ops[op].ticket.key != key || dest != to
    ensures UpTo(p', key, to, last)
  {
    hide Routing.Names, Routing.AppsFor;
    if n :| OneMessage.Active(p, n) && p.ops[n].ticket.key == key && to in p.ops[n].left {
      assert OneMessage.Active(p', n) && p'.ops[n].ticket.key == key && to in p'.ops[n].left;
    }
  }

  /** A delivery of the session shows its stored events; one of its key is of the session. */
  lemma DeliveredApps(cfg: OneMessage.Config, s: OneMessage.State, step: OneMessage.Step, key: SessionKey, to: RefKey)
    requires OneMessage.Possible(s, step) && step.Deliver? && Currents(s.p) && OneMessage.Linked(s.p)
    requires key in s.p.store.sessions
    ensures IsFor(s, step, s.p.store.sessions[key].id, to) ==>
      DeliveryOf(cfg, s, step).apps == Routing.AppsFor(s.p.store.sessions[key].perApp, to)
    ensures s.p.ops[step.op].ticket.key == key && step.to == to ==> IsFor(s, step, s.p.store.sessions[key].id, to)
  {
    hide Routing.AppsFor, OneMessage.Obtained;
  }

  lemma QuietUpToDate(cfg: OneMessage.Config, steps: seq<OneMessage.Step>, step: OneMessage.Step, key: SessionKey,
                      to: RefKey)
    requires OneMessage.Run(cfg, steps).Some? && OneMessage.Run(cfg, steps + [step]).Some?
    requires step.Core? && !step.action.Start?
    requires key in OneMessage.Run(cfg, steps).value.p.store.sessions && UpToDate(cfg, steps, key, to)
    requires key in OneMessage.Run(cfg, steps + [step]).value.p.store.sessions
    ensures UpToDate(cfg, steps + [step], key, to)
  {
    var s := OneMessage.Run(cfg, steps).value;
    assert (steps + [step])[..|steps|] == steps;
    assert OneMessage.Run(cfg, steps + [step]) == Some(OneMessage.Apply(cfg, s, step));
    var p, p' := s.p, OneMessage.Apply(cfg, s, step).p;
    assert p'.store.sessions[key].id == p.store.sessions[key].id;
    assert p'.store.sessions[key].perApp == p.store.sessions[key].perApp;
    assert forall id :: LastDelivery(cfg, steps + [step], id, to) == LastDelivery(cfg, steps, id, to);
    hide OneMessage.Run, Routing.Names, Routing.AppsFor, LastDelivery, Routing.Recipients;
    if n :| OneMessage.Active(p, n) && p.ops[n].ticket.key == key && to in p.ops[n].left {
      assert OneMessage.Active(p', n) && p'.ops[n].left == p.ops[n].left && p'.ops[n].ticket == p.ops[n].ticket;
    }
  }

  lemma {:induction false} SerialIsUpToDate(cfg: OneMessage.Config, steps: seq<OneMessage.Step>, key: SessionKey,
                                            to: RefKey)
    requires OneMessage.Run(cfg, steps).Some? && OneMessage.Serial(cfg, steps)
    requires key in OneMessage.Run(cfg, steps).value.p.store.sessions
    ensures UpToDate(cfg, steps, key, to)
  {
    if steps == [] {
    } else {
      hide UpToDate, Currents, OneMessage.Always, OneMessage.Linked, OneMessage.Apply, OneMessage.Possible;
      var before, step := steps[..|steps| - 1], steps[|steps| - 1];
      assert steps == before + [step];
      var s := OneMessage.Run(cfg, before).value;
      if key in s.p.store.sessions {
        SerialIsUpToDate(cfg, before, key, to);
      } else {
        NewSessionStarts(cfg, s, step, key);
      }
      SerialIsCurrent(cfg, before);
      AlwaysLinked(cfg, before);
      assert step.Core? && step.action.Start? ==>
        forall n :: OneMessage.Active(s.p, n) ==> s.p.ops[n].ticket.key != step.action.key;
      hide OneMessage.Run;
      if step.Deliver? {
        DeliverUpToDate(cfg, before, step, key, to);
      } else if step.action.Start? {
        StartUpToDate(cfg, before, step, key, to);
      } else {
        QuietUpToDate(cfg, before, step, key, to);
      }
    }
  }

  lemma AlwaysLinked(cfg: OneMessage.Config, steps: seq<OneMessage.Step>)
    requires OneMessage.Run(cfg, steps).Some?
    ensures OneMessage.Linked(OneMessage.Run(cfg, steps).value.p)
  {
    OneMessage.RunKeepsAlways(cfg, steps, 0, RefKey("", ""));
    hide OneMessage.Run, OneMessage.Linked;
  }

  lemma NewSessionStarts(cfg: OneMessage.Config, s: OneMessage.State, step: OneMessage.Step, key: SessionKey)
    requires OneMessage.Possible(s, step) && key in OneMessage.Apply(cfg, s, step).p.store.sessions
    requires key !in s.p.store.sessions
    ensures step.Core? && step.action.Start?
  {
    if step.Deliver? {
      OneMessage.SendShape(cfg, s, step.op, step.to, step.env);
    }
  }

  // ----- the results -----

  /** Where the calls of a key do not overlap and none is in progress: if the last delivery
      to a destination the session names was acknowledged, then what its message was last
      set to is what the stored events routed there build to. */
  lemma {:induction false} ShowsLatest(cfg: OneMessage.Config, steps: seq<OneMessage.Step>, key: SessionKey, to: RefKey)
    requires cfg.retries >= 0 && OneMessage.Run(cfg, steps).Some? && OneMessage.Serial(cfg, steps)
    requires var p := OneMessage.Run(cfg, steps).value.p;
      && key in p.store.sessions && Routing.Names(p.store.sessions[key].perApp, to)
      && forall n :: OneMessage.Active(p, n) ==> p.ops[n].ticket.key != key
    ensures var s := OneMessage.Run(cfg, steps).value;
      var st := s.p.store.sessions[key];
      var last := LastDelivery(cfg, steps, st.id, to);
      && last.Some? && last.value.apps == Routing.AppsFor(st.perApp, to)
      && (last.value.acked ==>
            && cfg.core.build(last.value.apps).Ok?
            && Shown(s.wire, st.id, to) == Some(cfg.core.build(Routing.AppsFor(st.perApp, to)).value))
  {
    SerialIsUpToDate(cfg, steps, key, to);
    ShownIsDelivered(cfg, steps, OneMessage.Run(cfg, steps).value.p.store.sessions[key].id, to);
    hide OneMessage.Run, LastDelivery, Shown, Routing.AppsFor;
  }

  /** A delivery that failed is not made up for by its events coming again: as long as the
      session has not expired, events whose content it holds deliver nothing. */
  lemma RepeatDeliversNothing(cfg: Protocol.Config, p: Protocol.State, a: Protocol.Action)
    requires Protocol.Enabled(p, a) && a.Start? && a.key in p.store.sessions
    requires a.at - p.store.sessions[a.key].lastFlush <= cfg.ttl
    ensures (forall ev :: ev in a.events ==> IsDuplicate(p.store.sessions[a.key].perApp, ev)) <==>
      !Protocol.Apply(cfg, p, a).ops[a.op].ticket.changed
    ensures (forall ev :: ev in a.events ==> IsDuplicate(p.store.sessions[a.key].perApp, ev)) ==>
      Protocol.Apply(cfg, p, a).ops[a.op].left == {}
  {
    Replay.UnchangedIff(p.store.sessions[a.key].perApp, a.events);
    hide Merge, Routing.Destinations, IsDuplicate;
  }
}
