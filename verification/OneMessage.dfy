/** One live message per rollout and destination: the publisher of `Protocol` with
    the Slack backend and its retrying client behind it. `Upsert` calls interleave
    freely; what is promised for a destination depends on whether two of them ever
    compete for its first message. */
module OneMessage {
  import opened Domain
  import opened SessionModel
  import Protocol
  import Routing
  import SlackBackend
  import SlackClient

  datatype Config = Config(core: Protocol.Config, retries: int)

  /** One attempt at a request for a main notification. `place` is where Slack put the
      message if it stored it; `acked` says the core learnt of it, which takes an answer
      to this attempt and the backend's own reply. */
  datatype Wire = Wire(
    id: nat,
    to: RefKey,
    api: SlackBackend.ApiCall,
    content: Notification,
    place: Option<(string, string)>,
    acked: bool)

  datatype State = State(p: Protocol.State, wire: seq<Wire>)

  datatype Step =
    | Core(action: Protocol.Action)
    | Deliver(op: nat, to: RefKey, env: SlackBackend.Env)

  const INITIAL := State(Protocol.INITIAL, [])

  /** A destination gets its deliveries from `Deliver`. */
  predicate Possible(s: State, step: Step) {
    match step
    case Core(a) => Protocol.Enabled(s.p, a) && !a.Send?
    case Deliver(op, to, env) => Active(s.p, op) && to in s.p.ops[op].left
  }

  function RefFor(o: Protocol.Op, to: RefKey): string {
    if to in o.ticket.refs then o.ticket.refs[to] else ""
  }

  function ResolvedFor(cfg: Config, o: Protocol.Op, to: RefKey, env: SlackBackend.Env): Resolved {
    if env.NotResolved? then Unresolved else Notifier(SlackBackend.Heard(cfg.retries, to, RefFor(o, to), env))
  }

  /** The attempts Slack sees of a delivery, none when the notification cannot be built. */
  function WireFor(cfg: Config, o: Protocol.Op, to: RefKey, env: SlackBackend.Env): seq<Wire> {
    var h := SlackBackend.Through(cfg.retries, to, RefFor(o, to), env);
    var built := cfg.core.build(Routing.AppsFor(o.ticket.perApp, to));
    if built.Failed? || h.None? then []
    else
      var acked := h.value.answer.Ok? && !env.replyLost;
      seq(h.value.attempts, i requires 0 <= i < h.value.attempts =>
        Wire(o.ticket.id, to, h.value.api, built.value, SlackClient.StoredBy(env.weather.tries, i),
             acked && i == h.value.attempts - 1))
  }

  function Apply(cfg: Config, s: State, step: Step): State
    requires Possible(s, step)
  {
    match step
    case Core(a) => s.(p := Protocol.Apply(cfg.core, s.p, a))
    case Deliver(op, to, env) =>
      var o := s.p.ops[op];
      State(Protocol.Apply(cfg.core, s.p, Protocol.Send(op, to, ResolvedFor(cfg, o, to, env))),
            s.wire + WireFor(cfg, o, to, env))
  }

  /** The state after a run, or None when some step of it was not possible. */
  function Run(cfg: Config, steps: seq<Step>): Option<State> {
    if steps == [] then Some(INITIAL)
    else
      var before := Run(cfg, steps[..|steps| - 1]);
      var step := steps[|steps| - 1];
      if before.Some? && Possible(before.value, step) then Some(Apply(cfg, before.value, step)) else None
  }

  lemma RunSnoc(cfg: Config, steps: seq<Step>, step: Step)
    requires Run(cfg, steps).Some? && Possible(Run(cfg, steps).value, step)
    ensures Run(cfg, steps + [step]) == Some(Apply(cfg, Run(cfg, steps).value, step))
  {
    assert (steps + [step])[..|steps|] == steps;
  }

  // ----- acknowledged posts -----

  predicate AcceptedPost(w: Wire, id: nat, to: RefKey) {
    w.id == id && w.to == to && w.api.ChatPost? && w.place.Some?
  }

  predicate AckedPost(w: Wire, id: nat, to: RefKey) {
    AcceptedPost(w, id, to) && w.acked
  }

  /** The refs of the acknowledged posts for one session object and destination. */
  function AckRefs(wire: seq<Wire>, id: nat, to: RefKey): seq<string> {
    if wire == [] then [] else
      var w := wire[|wire| - 1];
      AckRefs(wire[..|wire| - 1], id, to)
      + (if AcceptedPost(w, id, to) && w.acked then [SlackClient.EncodeRef(w.place.value.0, w.place.value.1)] else [])
  }

  /** The messages Slack stored, and those of them the core never learnt of: the answer
      to the attempt or the backend's reply was lost. */
  function Posts(wire: seq<Wire>, id: nat, to: RefKey, unheardOnly: bool): nat {
    if wire == [] then 0 else
      var w := wire[|wire| - 1];
      Posts(wire[..|wire| - 1], id, to, unheardOnly)
      + if AcceptedPost(w, id, to) && !(unheardOnly && w.acked) then 1 else 0
  }

  lemma {:induction false} AckRefsAppend(a: seq<Wire>, b: seq<Wire>, id: nat, to: RefKey)
    ensures AckRefs(a + b, id, to) == AckRefs(a, id, to) + AckRefs(b, id, to)
  {
    hide AcceptedPost, SlackClient.EncodeRef;
    if b == [] {
      assert a + b == a;
    } else {
      AckRefsAppend(a, b[..|b| - 1], id, to);
      assert (a + b)[..|a + b| - 1] == a + b[..|b| - 1];
    }
  }

  lemma {:induction false} NothingAcked(wire: seq<Wire>, id: nat, to: RefKey)
    requires forall i :: 0 <= i < |wire| ==> !wire[i].acked
    ensures AckRefs(wire, id, to) == []
  {
    if wire == [] {
    } else {
      NothingAcked(wire[..|wire| - 1], id, to);
    }
  }

  /** A remembered ref is one `EncodeRef` made, so it is never empty. */
  lemma {:induction false} RefsAreSeparated(wire: seq<Wire>, id: nat, to: RefKey)
    ensures forall r :: r in AckRefs(wire, id, to) ==> r != ""
  {
    if wire == [] {
    } else {
      RefsAreSeparated(wire[..|wire| - 1], id, to);
    }
  }

  /** An edit addresses the one acknowledged post made before it; any other request
      comes before there is one. */
  ghost predicate EditOk(wire: seq<Wire>, i: nat)
    requires i < |wire|
  {
    var w := wire[i];
    var refs := AckRefs(wire[..i], w.id, w.to);
    if w.api.ChatUpdate?
    then |refs| == 1 && (w.api.channel, w.api.ts) == SlackClient.DecodeRef(refs[0], w.to.recipient)
    else refs == []
  }

  ghost predicate EditsOk(wire: seq<Wire>, id: nat, to: RefKey) {
    forall i :: 0 <= i < |wire| && wire[i].id == id && wire[i].to == to ==> EditOk(wire, i)
  }

  // ----- competing calls -----

  predicate Active(p: Protocol.State, op: nat) {
    op in p.ops && !p.ops[op].committed
  }

  /** A call of the session object whose snapshot has no ref for the destination. */
  predicate Bare(o: Protocol.Op, id: nat, to: RefKey) {
    o.ticket.id == id && to !in o.ticket.refs
  }

  predicate Competing(s: State, m: nat, n: nat, id: nat, to: RefKey) {
    && m != n && Active(s.p, m) && Active(s.p, n) && Bare(s.p.ops[m], id, to) && Bare(s.p.ops[n], id, to)
    && to in s.p.ops[n].left && (to in s.p.ops[m].left || to in s.p.ops[m].newRefs)
  }

  /** Two calls in progress took their snapshots without a ref for the destination; one
      has yet to deliver there, and the other has too or holds a ref it has not
      committed. */
  ghost predicate AtRisk(s: State, id: nat, to: RefKey) {
    exists m: nat, n: nat :: Competing(s, m, n, id, to)
  }

  /** At no point of the run was the destination at risk. */
  ghost predicate Calm(cfg: Config, steps: seq<Step>, id: nat, to: RefKey) {
    Run(cfg, steps).Some? && !AtRisk(Run(cfg, steps).value, id, to)
    && (steps != [] ==> Calm(cfg, steps[..|steps| - 1], id, to))
  }

  // ----- what every run keeps -----

  /** The calls of one session object have its key, and a destination still to serve has
      apps routed to it. */
  ghost predicate Linked(p: Protocol.State) {
    && (forall m, n :: m in p.ops && n in p.ops && p.ops[m].ticket.id == p.ops[n].ticket.id ==>
          p.ops[m].ticket.key == p.ops[n].ticket.key)
    && (forall k, n :: k in p.store.sessions && n in p.ops && p.store.sessions[k].id == p.ops[n].ticket.id ==>
          k == p.ops[n].ticket.key)
    && (forall n, to :: n in p.ops && to in p.ops[n].left ==> Routing.AppsFor(p.ops[n].ticket.perApp, to) != map[])
  }

  /** A ref that a call obtained without having one is that of an acknowledged post. */
  ghost predicate Backed(s: State, id: nat, to: RefKey) {
    forall n :: n in s.p.ops && Bare(s.p.ops[n], id, to) && to in s.p.ops[n].newRefs ==> AckRefs(s.wire, id, to) != []
  }

  ghost predicate Always(cfg: Config, s: State, id: nat, to: RefKey) {
    Protocol.Inv(s.p) && Linked(s.p) && (cfg.retries >= 0 ==> Backed(s, id, to))
  }

  lemma StartKeepsLinked(cfg: Protocol.Config, p: Protocol.State, a: Protocol.Action)
    requires Protocol.Inv(p) && Linked(p) && Protocol.Enabled(p, a) && a.Start?
    ensures Linked(Protocol.Apply(cfg, p, a))
  {
    hide Merge, Protocol.OpOk, Protocol.AllReturned, Protocol.Grounded, Routing.AppsFor;
    var p' := Protocol.Apply(cfg, p, a);
    forall n, to | n in p'.ops && to in p'.ops[n].left ensures Routing.AppsFor(p'.ops[n].ticket.perApp, to) != map[] {
      if n == a.op {
        DestinationHasApps(p'.ops[n].ticket.perApp, to);
      }
    }
    hide Routing.Destinations;
  }

  lemma DestinationHasApps(perApp: map<string, Event>, to: RefKey)
    requires to in Routing.Destinations(perApp)
    ensures Routing.AppsFor(perApp, to) != map[]
  {
    Routing.DestinationsAreNamed(perApp, to);
    var app :| app in perApp && Routing.Routes(perApp[app], to);
    assert app in Routing.AppsFor(perApp, to);
  }

  lemma StepKeepsLinked(cfg: Protocol.Config, p: Protocol.State, a: Protocol.Action)
    requires Protocol.Inv(p) && Linked(p) && Protocol.Enabled(p, a)
    ensures Linked(Protocol.Apply(cfg, p, a))
  {
    if a.Start? {
      StartKeepsLinked(cfg, p, a);
    } else {
      OtherSteps(cfg, p, a);
      hide Protocol.Inv, Linked, Protocol.Apply;
      LinkedCarries(p, Protocol.Apply(cfg, p, a));
    }
  }

  /** Steps of calls in progress start none and replace no session object. */
  lemma OtherSteps(cfg: Protocol.Config, p: Protocol.State, a: Protocol.Action)
    requires Protocol.Enabled(p, a) && !a.Start?
    ensures Carries(p, Protocol.Apply(cfg, p, a))
  {
    hide Routing.AppsFor, Routing.Recipients, Protocol.AttemptOf;
  }

  ghost predicate Carries(p: Protocol.State, p': Protocol.State) {
    && p'.ops.Keys == p.ops.Keys && p'.store.sessions.Keys == p.store.sessions.Keys
    && (forall n :: n in p.ops ==> p'.ops[n].ticket == p.ops[n].ticket && p'.ops[n].left <= p.ops[n].left)
    && (forall k :: k in p.store.sessions ==> p'.store.sessions[k].id == p.store.sessions[k].id)
  }

  lemma LinkedCarries(p: Protocol.State, p': Protocol.State)
    requires Linked(p) && Carries(p, p')
    ensures Linked(p')
  {
    hide Routing.AppsFor;
  }

  /** The new ref of a delivery, if it brought one. */
  function Obtained(cfg: Config, o: Protocol.Op, to: RefKey, env: SlackBackend.Env): Option<string> {
    var out := SlackBackend.Heard(cfg.retries, to, RefFor(o, to), env);
    if cfg.core.build(Routing.AppsFor(o.ticket.perApp, to)).Ok? && out.Ok? then Some(out.value) else None
  }

  function OpAfter(o: Protocol.Op, to: RefKey, got: Option<string>): Protocol.Op {
    Protocol.Op(o.ticket, o.left - {to}, if got.Some? then o.newRefs[to := got.value] else o.newRefs, false)
  }

  lemma SendShape(cfg: Config, s: State, op: nat, to: RefKey, env: SlackBackend.Env)
    requires Possible(s, Deliver(op, to, env))
    ensures var o := s.p.ops[op];
      var s' := Apply(cfg, s, Deliver(op, to, env));
      && s'.p.store == s.p.store && s'.wire == s.wire + WireFor(cfg, o, to, env)
      && s'.p.ops == s.p.ops[op := OpAfter(o, to, Obtained(cfg, o, to, env))]
  {
    assert env.NotResolved? ==> SlackBackend.Heard(cfg.retries, to, RefFor(s.p.ops[op], to), env).Failed?;
    hide Routing.AppsFor, SlackBackend.Heard, RefFor, WireFor;
  }

  predicate IsEditOf(api: SlackBackend.ApiCall, place: (string, string)) {
    api.ChatUpdate? && (api.channel, api.ts) == place
  }

  /** With no ref every attempt is a post, and a ref comes back exactly when the last one
      is acknowledged; with a ref each is an edit of that message, and the ref stays. */
  lemma WireShape(cfg: Config, o: Protocol.Op, to: RefKey, env: SlackBackend.Env)
    requires cfg.retries >= 0
    ensures var added, got, ref := WireFor(cfg, o, to, env), Obtained(cfg, o, to, env), RefFor(o, to);
      && (forall i :: 0 <= i < |added| ==> added[i].id == o.ticket.id && added[i].to == to && (i < |added| - 1 ==>
            !added[i].acked))
      && (ref == "" ==>
            && (forall i :: 0 <= i < |added| ==> added[i].api.ChatPost?)
            && (got.Some? <==> added != [] && added[|added| - 1].acked)
            && (got.Some? ==>
                  var place := added[|added| - 1].place;
                  place.Some? && got.value == SlackClient.EncodeRef(place.value.0, place.value.1)))
      && (ref != "" ==>
            && (forall i :: 0 <= i < |added| ==> IsEditOf(added[i].api, SlackClient.DecodeRef(ref, to.recipient)))
            && (got.Some? ==> got.value == ref))
  {
    if env.Reached? {
      SlackClient.CallEnds(env.weather.encodes, cfg.retries, env.weather.tries);
    }
    hide Routing.AppsFor, SlackClient.DecodeRef, SlackClient.EncodeRef, SlackClient.Calling, SlackClient.KeptTrying,
      SlackClient.Retryable;
  }

  lemma {:induction false} AckedAdded(added: seq<Wire>, id: nat, to: RefKey)
    requires forall i :: 0 <= i < |added| - 1 ==> !added[i].acked
    ensures AckRefs(added, id, to) ==
      if added != [] && AcceptedPost(added[|added| - 1], id, to) && added[|added| - 1].acked
      then [SlackClient.EncodeRef(added[|added| - 1].place.value.0, added[|added| - 1].place.value.1)] else []
  {
    hide SlackClient.EncodeRef;
    if added == [] {
    } else {
      NothingAcked(added[..|added| - 1], id, to);
    }
  }

  /** A delivery adds at most one acknowledged post: its own. */
  lemma AckEffect(cfg: Config, wire: seq<Wire>, o: Protocol.Op, to: RefKey, env: SlackBackend.Env, id: nat,
                  dest: RefKey)
    requires cfg.retries >= 0
    ensures var got := Obtained(cfg, o, to, env);
      AckRefs(wire + WireFor(cfg, o, to, env), id, dest)
      == AckRefs(wire, id, dest)
         + (if o.ticket.id == id && to == dest && RefFor(o, to) == "" && got.Some? then [got.value] else [])
  {
    WireShape(cfg, o, to, env);
    var added := WireFor(cfg, o, to, env);
    hide WireFor, Obtained, RefFor, SlackClient.EncodeRef, SlackClient.DecodeRef;
    AckedAdded(added, id, dest);
    AckRefsAppend(wire, added, id, dest);
    hide AckRefs;
  }

  lemma DeliverKeepsAlways(cfg: Config, s: State, op: nat, to: RefKey, env: SlackBackend.Env, id: nat, dest: RefKey)
    requires Always(cfg, s, id, dest) && Possible(s, Deliver(op, to, env))
    ensures Always(cfg, Apply(cfg, s, Deliver(op, to, env)), id, dest)
  {
    var o := s.p.ops[op];
    var send := Protocol.Send(op, to, ResolvedFor(cfg, o, to, env));
    Protocol.StepKeepsInv(cfg.core, s.p, send);
    StepKeepsLinked(cfg.core, s.p, send);
    SendShape(cfg, s, op, to, env);
    if cfg.retries >= 0 {
      AckEffect(cfg, s.wire, o, to, env, id, dest);
    }
    hide Apply, AckRefs, Linked, Protocol.Inv, Protocol.Apply, WireFor, Obtained, ResolvedFor;
  }

  lemma CoreKeepsAlways(cfg: Config, s: State, a: Protocol.Action, id: nat, to: RefKey)
    requires Always(cfg, s, id, to) && Possible(s, Core(a))
    ensures Always(cfg, Apply(cfg, s, Core(a)), id, to)
  {
    Protocol.StepKeepsInv(cfg.core, s.p, a);
    StepKeepsLinked(cfg.core, s.p, a);
    hide AckRefs, Linked, Protocol.Inv, Merge, Routing.Destinations, Routing.Recipients;
  }

  lemma StepKeepsAlways(cfg: Config, s: State, step: Step, id: nat, to: RefKey)
    requires Always(cfg, s, id, to) && Possible(s, step)
    ensures Always(cfg, Apply(cfg, s, step), id, to)
  {
    match step
    case Core(a) => CoreKeepsAlways(cfg, s, a, id, to);
    case Deliver(op, dest, env) => DeliverKeepsAlways(cfg, s, op, dest, env, id, to);
  }

  lemma {:induction false} RunKeepsAlways(cfg: Config, steps: seq<Step>, id: nat, to: RefKey)
    requires Run(cfg, steps).Some?
    ensures Always(cfg, Run(cfg, steps).value, id, to)
  {
    if steps == [] {
    } else {
      RunKeepsAlways(cfg, steps[..|steps| - 1], id, to);
      StepKeepsAlways(cfg, Run(cfg, steps[..|steps| - 1]).value, steps[|steps| - 1], id, to);
    }
  }

  // ----- what every calm run keeps -----

  /** The refs a call knows or holds for the destination are that of the one post. */
  predicate Knows(o: Protocol.Op, to: RefKey, ack: seq<string>) {
    && (to in o.ticket.refs ==> ack == [o.ticket.refs[to]])
    && (to in o.newRefs ==> ack == [o.newRefs[to]])
    && (to in o.left && to !in o.ticket.refs && !o.committed ==> ack == [])
  }

  predicate SessionsKnow(store: Store, id: nat, to: RefKey, ack: seq<string>) {
    forall k :: k in store.sessions && store.sessions[k].id == id && to in store.sessions[k].refs ==>
      ack == [store.sessions[k].refs[to]]
  }

  predicate OpsKnow(ops: map<nat, Protocol.Op>, id: nat, to: RefKey, ack: seq<string>) {
    forall n :: n in ops && ops[n].ticket.id == id ==> Knows(ops[n], to, ack)
  }

  /** An acknowledged post is remembered by the stored session or by an active call,
      unless the session has been replaced. */
  ghost predicate Remembered(s: State, id: nat, to: RefKey) {
    || (exists k :: k in s.p.store.sessions && s.p.store.sessions[k].id == id && to in s.p.store.sessions[k].refs)
    || (exists m :: Active(s.p, m) && Bare(s.p.ops[m], id, to) && to in s.p.ops[m].newRefs)
    || (forall k :: k in s.p.store.sessions ==> s.p.store.sessions[k].id != id)
  }

  ghost predicate Inv(s: State, id: nat, to: RefKey) {
    var ack := AckRefs(s.wire, id, to);
    && |ack| <= 1 && (id >= s.p.store.nextId ==> ack == [])
    && SessionsKnow(s.p.store, id, to, ack)
    && OpsKnow(s.p.ops, id, to, ack)
    && (ack != [] ==> Remembered(s, id, to))
    && EditsOk(s.wire, id, to)
  }

  lemma StartKeepsInv(cfg: Config, s: State, a: Protocol.Action, id: nat, to: RefKey)
    requires Always(cfg, s, id, to) && Inv(s, id, to) && Possible(s, Core(a)) && a.Start?
    requires !AtRisk(Apply(cfg, s, Core(a)), id, to)
    ensures Inv(Apply(cfg, s, Core(a)), id, to)
  {
    hide Merge, Routing.Destinations, AckRefs, EditsOk, Linked, Backed, Protocol.OpOk, Protocol.AllReturned,
      Protocol.Grounded;
    var s' := Apply(cfg, s, Core(a));
    var ack := AckRefs(s.wire, id, to);
    var o := s'.p.ops[a.op];
    assert s'.wire == s.wire;
    assert forall n :: n in s.p.ops ==> n != a.op && s'.p.ops[n] == s.p.ops[n];
    if ack != [] {
      StartRemembers(cfg, s, a, id, to);
    }
    forall m: nat | Active(s.p, m) && Bare(s.p.ops[m], id, to) && to in s.p.ops[m].newRefs
      ensures !(Bare(o, id, to) && to in o.left)
    {
      assert !Competing(s', m, a.op, id, to);
    }
    assert o.ticket.id == id ==> Knows(o, to, ack);
    assert OpsKnow(s'.p.ops, id, to, ack);
    hide Knows;
  }

  lemma StartRemembers(cfg: Config, s: State, a: Protocol.Action, id: nat, to: RefKey)
    requires Always(cfg, s, id, to) && Possible(s, Core(a)) && a.Start?
    requires id < s.p.store.nextId && Remembered(s, id, to)
    ensures Remembered(Apply(cfg, s, Core(a)), id, to)
  {
    hide Merge, Routing.Destinations, Linked, Backed, Protocol.OpOk, Protocol.AllReturned, Protocol.Grounded;
    var s' := Apply(cfg, s, Core(a));
    if m :| Active(s.p, m) && Bare(s.p.ops[m], id, to) && to in s.p.ops[m].newRefs {
      assert Active(s'.p, m) && s'.p.ops[m] == s.p.ops[m];
    } else if k :| k in s.p.store.sessions && s.p.store.sessions[k].id == id && to in s.p.store.sessions[k].refs {
      if s'.p.store.sessions[k].id == id {
        assert to in s'.p.store.sessions[k].refs;
      }
    }
  }

  lemma FinishKeepsInv(cfg: Config, s: State, a: Protocol.Action, id: nat, to: RefKey)
    requires Always(cfg, s, id, to) && Inv(s, id, to) && Possible(s, Core(a)) && a.Finish?
    ensures Inv(Apply(cfg, s, Core(a)), id, to)
  {
    hide AckRefs, EditsOk, Backed, Protocol.Inv, Linked;
    if AckRefs(s.wire, id, to) != [] {
      FinishRemembers(cfg, s, a, id, to);
    }
    FinishKnown(cfg, s, a, id, to, AckRefs(s.wire, id, to));
    FinishShape(cfg, s, a);
    hide Remembered, SessionsKnow, OpsKnow, Apply, Possible;
  }

  lemma FinishKnown(cfg: Config, s: State, a: Protocol.Action, id: nat, to: RefKey, ack: seq<string>)
    requires SessionsKnow(s.p.store, id, to, ack) && OpsKnow(s.p.ops, id, to, ack) && Possible(s, Core(a)) && a.Finish?
    ensures var s' := Apply(cfg, s, Core(a)); SessionsKnow(s'.p.store, id, to, ack) && OpsKnow(s'.p.ops, id, to, ack)
  {
    FinishShape(cfg, s, a);
    hide Apply;
    var s', o := Apply(cfg, s, Core(a)), s.p.ops[a.op];
    assert o.ticket.id == id ==> Knows(o, to, ack);
    assert OpsKnow(s'.p.ops, id, to, ack);
    hide Knows;
  }

  /** Finishing a call writes its refs into its session object, if that is still stored. */
  lemma FinishShape(cfg: Config, s: State, a: Protocol.Action)
    requires Possible(s, Core(a)) && a.Finish?
    ensures var s', o := Apply(cfg, s, Core(a)), s.p.ops[a.op];
      && s'.wire == s.wire && s'.p.ops == s.p.ops[a.op := o.(committed := true)]
      && s'.p.store.nextId == s.p.store.nextId && s'.p.store.sessions.Keys == s.p.store.sessions.Keys
      && (forall k :: k in s.p.store.sessions ==>
            && s'.p.store.sessions[k].id == s.p.store.sessions[k].id
            && s'.p.store.sessions[k].refs == s.p.store.sessions[k].refs
                 + if k == o.ticket.key && s.p.store.sessions[k].id == o.ticket.id then o.newRefs else map[])
  {
    assert forall refs: map<RefKey, string> :: refs + map[] == refs;
  }

  lemma FinishRemembers(cfg: Config, s: State, a: Protocol.Action, id: nat, to: RefKey)
    requires Linked(s.p) && Remembered(s, id, to) && Possible(s, Core(a)) && a.Finish?
    ensures Remembered(Apply(cfg, s, Core(a)), id, to)
  {
    FinishShape(cfg, s, a);
    var s', o := Apply(cfg, s, Core(a)), s.p.ops[a.op];
    assert forall k :: k in s.p.store.sessions && s.p.store.sessions[k].id == o.ticket.id ==> k == o.ticket.key;
    hide Apply, Linked;
    if m :| m != a.op && Active(s.p, m) && Bare(s.p.ops[m], id, to) && to in s.p.ops[m].newRefs {
      assert Active(s'.p, m) && s'.p.ops[m] == s.p.ops[m];
    } else if k :| k in s.p.store.sessions && s.p.store.sessions[k].id == id
                   && (to in s.p.store.sessions[k].refs || (o.ticket.id == id && to in o.newRefs)) {
      assert to in s'.p.store.sessions[k].refs;
    }
  }

  lemma CommentKeepsInv(cfg: Config, s: State, a: Protocol.Action, id: nat, to: RefKey)
    requires Inv(s, id, to) && Possible(s, Core(a)) && a.Comment?
    ensures Inv(Apply(cfg, s, Core(a)), id, to)
  {
    hide AckRefs, EditsOk, Routing.Recipients;
    var s' := Apply(cfg, s, Core(a));
    assert s'.p.store == s.p.store && s'.p.ops == s.p.ops && s'.wire == s.wire;
    if m :| Active(s.p, m) && Bare(s.p.ops[m], id, to) && to in s.p.ops[m].newRefs {
      assert Active(s'.p, m);
    }
  }

  /** The attempts of a delivery that finds the acknowledged post it knows of, if any. */
  lemma EditEffect(cfg: Config, wire: seq<Wire>, o: Protocol.Op, to: RefKey, env: SlackBackend.Env, id: nat,
                   dest: RefKey)
    requires cfg.retries >= 0 && EditsOk(wire, id, dest)
    requires o.ticket.id == id && to == dest ==>
      AckRefs(wire, id, to) == if RefFor(o, to) == "" then [] else [RefFor(o, to)]
    ensures EditsOk(wire + WireFor(cfg, o, to, env), id, dest)
  {
    WireShape(cfg, o, to, env);
    var ref := RefFor(o, to);
    hide WireFor, Obtained, RefFor, AckRefs, EditsOk, SlackClient.EncodeRef, SlackClient.DecodeRef;
    EditsGrow(wire, WireFor(cfg, o, to, env), ref, id, dest);
  }

  lemma EditsGrow(wire: seq<Wire>, added: seq<Wire>, ref: string, id: nat, to: RefKey)
    requires EditsOk(wire, id, to)
    requires forall i :: 0 <= i < |added| - 1 ==> !added[i].acked
    requires forall i :: 0 <= i < |added| && added[i].id == id && added[i].to == to ==>
      if ref == "" then added[i].api.ChatPost? && AckRefs(wire, id, to) == []
      else IsEditOf(added[i].api, SlackClient.DecodeRef(ref, to.recipient)) && AckRefs(wire, id, to) == [ref]
    ensures EditsOk(wire + added, id, to)
  {
    hide EditOk;
    var all := wire + added;
    forall i | 0 <= i < |all| && all[i].id == id && all[i].to == to ensures EditOk(all, i) {
      if i < |wire| {
        assert EditOk(wire, i);
        SameEdit(wire, all, i);
      } else {
        SeesNoMore(wire, added, i - |wire|, id, to);
        NewEdit(all, i, ref, AckRefs(wire, id, to));
      }
    }
  }

  lemma SameEdit(wire: seq<Wire>, all: seq<Wire>, i: nat)
    requires wire <= all && i < |wire| && EditOk(wire, i)
    ensures EditOk(all, i)
  {
    hide AckRefs, SlackClient.DecodeRef;
    assert all[..i] == wire[..i];
  }

  /** Up to its last attempt a delivery adds no acknowledged post. */
  lemma SeesNoMore(wire: seq<Wire>, added: seq<Wire>, k: nat, id: nat, to: RefKey)
    requires k < |added| && forall i :: 0 <= i < |added| - 1 ==> !added[i].acked
    ensures AckRefs((wire + added)[..|wire| + k], id, to) == AckRefs(wire, id, to)
  {
    hide AckRefs;
    assert (wire + added)[..|wire| + k] == wire + added[..k];
    NothingAcked(added[..k], id, to);
    AckRefsAppend(wire, added[..k], id, to);
  }

  lemma NewEdit(all: seq<Wire>, i: nat, ref: string, ack: seq<string>)
    requires i < |all| && AckRefs(all[..i], all[i].id, all[i].to) == ack
    requires if ref == "" then all[i].api.ChatPost? && ack == []
             else IsEditOf(all[i].api, SlackClient.DecodeRef(ref, all[i].to.recipient)) && ack == [ref]
    ensures EditOk(all, i)
  {
    hide AckRefs, SlackClient.DecodeRef;
  }

  lemma DeliverKeepsInv(cfg: Config, s: State, op: nat, to: RefKey, env: SlackBackend.Env, id: nat, dest: RefKey)
    requires cfg.retries >= 0 && Always(cfg, s, id, dest) && Inv(s, id, dest) && !AtRisk(s, id, dest)
    requires Possible(s, Deliver(op, to, env))
    ensures Inv(Apply(cfg, s, Deliver(op, to, env)), id, dest)
  {
    var o, got := s.p.ops[op], Obtained(cfg, s.p.ops[op], to, env);
    var s' := Apply(cfg, s, Deliver(op, to, env));
    SendShape(cfg, s, op, to, env);
    AckEffect(cfg, s.wire, o, to, env, id, dest);
    WireShape(cfg, o, to, env);
    RefsAreSeparated(s.wire, id, dest);
    hide Apply, AckRefs, EditsOk, Linked, Backed, WireFor, Obtained;
    var ack := AckRefs(s.wire, id, dest);
    if o.ticket.id == id && to == dest {
      assert Knows(o, dest, ack);
      assert to in o.ticket.refs ==> o.ticket.refs[to] in ack;
    }
    EditEffect(cfg, s.wire, o, to, env, id, dest);
    DeliveredInv(s, s', op, to, got, id, dest);
  }

  lemma DeliveredInv(s: State, s': State, op: nat, to: RefKey, got: Option<string>, id: nat, dest: RefKey)
    requires Protocol.Inv(s.p) && Inv(s, id, dest) && !AtRisk(s, id, dest) && Active(s.p, op) && to in s.p.ops[op].left
    requires s'.p.store == s.p.store && s'.p.ops == s.p.ops[op := OpAfter(s.p.ops[op], to, got)]
    requires EditsOk(s'.wire, id, dest)
    requires var o, ack := s.p.ops[op], AckRefs(s.wire, id, dest);
      if o.ticket.id == id && to == dest && to !in o.ticket.refs && got.Some?
      then ack == [] && AckRefs(s'.wire, id, dest) == [got.value]
      else AckRefs(s'.wire, id, dest) == ack
    requires var o := s.p.ops[op];
      o.ticket.id == id && to == dest && to in o.ticket.refs && got.Some? ==> got.value == o.ticket.refs[to]
    ensures Inv(s', id, dest)
  {
    hide AckRefs, EditsOk, Protocol.OpOk, Protocol.Grounded;
    var o, ack, ack' := s.p.ops[op], AckRefs(s.wire, id, dest), AckRefs(s'.wire, id, dest);
    assert o.ticket.id < s.p.store.nextId;
    DeliveredOps(s, s'.p.ops, op, to, got, id, dest, ack');
    hide Protocol.Inv, OpsKnow, AtRisk;
    assert SessionsKnow(s'.p.store, id, dest, ack');
    hide SessionsKnow;
    if ack' != [] {
      if ack' != ack {
        assert Active(s'.p, op) && Bare(s'.p.ops[op], id, dest) && dest in s'.p.ops[op].newRefs;
      } else if m :| Active(s.p, m) && Bare(s.p.ops[m], id, dest) && dest in s.p.ops[m].newRefs {
        assert Active(s'.p, m) && Bare(s'.p.ops[m], id, dest) && dest in s'.p.ops[m].newRefs;
      }
    }
  }

  lemma DeliveredOps(s: State, ops': map<nat, Protocol.Op>, op: nat, to: RefKey, got: Option<string>, id: nat,
                     dest: RefKey, ack': seq<string>)
    requires OpsKnow(s.p.ops, id, dest, AckRefs(s.wire, id, dest)) && !AtRisk(s, id, dest)
    requires Active(s.p, op) && to in s.p.ops[op].left && ops' == s.p.ops[op := OpAfter(s.p.ops[op], to, got)]
    requires var o, ack := s.p.ops[op], AckRefs(s.wire, id, dest);
      if o.ticket.id == id && to == dest && to !in o.ticket.refs && got.Some?
      then ack == [] && ack' == [got.value] else ack' == ack
    requires var o := s.p.ops[op];
      o.ticket.id == id && to == dest && to in o.ticket.refs && got.Some? ==> got.value == o.ticket.refs[to]
    ensures OpsKnow(ops', id, dest, ack')
  {
    hide AckRefs;
    var ack := AckRefs(s.wire, id, dest);
    forall n | n in ops' && ops'[n].ticket.id == id ensures Knows(ops'[n], dest, ack') {
      assert Knows(s.p.ops[n], dest, ack);
      assert !Competing(s, op, n, id, dest);
    }
  }

  lemma {:induction false} CalmKeepsInv(cfg: Config, steps: seq<Step>, id: nat, to: RefKey)
    requires cfg.retries >= 0 && Calm(cfg, steps, id, to)
    ensures Inv(Run(cfg, steps).value, id, to)
  {
    if steps == [] {
    } else {
      var before, step := steps[..|steps| - 1], steps[|steps| - 1];
      CalmKeepsInv(cfg, before, id, to);
      RunKeepsAlways(cfg, before, id, to);
      var s := Run(cfg, before).value;
      hide Inv, Always, AtRisk, Apply;
      match step
      case Deliver(op, dest, env) => DeliverKeepsInv(cfg, s, op, dest, env, id, to);
      case Core(a) =>
        if a.Start? {
          StartKeepsInv(cfg, s, a, id, to);
        } else if a.Finish? {
          FinishKeepsInv(cfg, s, a, id, to);
        } else {
          CommentKeepsInv(cfg, s, a, id, to);
        }
    }
  }

  /** Without an attempt allowed nothing ever reaches Slack. */
  lemma {:induction false} NothingSent(cfg: Config, steps: seq<Step>)
    requires cfg.retries < 0 && Run(cfg, steps).Some?
    ensures Run(cfg, steps).value.wire == []
  {
    if steps == [] {
    } else {
      NothingSent(cfg, steps[..|steps| - 1]);
      var step := steps[|steps| - 1];
      if step.Deliver? && step.env.Reached? {
        SlackClient.CallEnds(step.env.weather.encodes, cfg.retries, step.env.weather.tries);
        hide Protocol.Apply, SlackClient.Calling;
      }
    }
  }

  // ----- the guarantee -----

  lemma {:induction false} AckRefFrom(wire: seq<Wire>, id: nat, to: RefKey) returns (j: nat)
    requires AckRefs(wire, id, to) != []
    ensures j < |wire| && AcceptedPost(wire[j], id, to) && wire[j].acked
    ensures AckRefs(wire, id, to)[0] == SlackClient.EncodeRef(wire[j].place.value.0, wire[j].place.value.1)
  {
    if AckRefs(wire[..|wire| - 1], id, to) != [] {
      j := AckRefFrom(wire[..|wire| - 1], id, to);
    } else {
      j := |wire| - 1;
    }
  }

  lemma {:induction false} AckedIsListed(wire: seq<Wire>, j: nat)
    requires j < |wire| && AcceptedPost(wire[j], wire[j].id, wire[j].to) && wire[j].acked
    ensures AckRefs(wire, wire[j].id, wire[j].to) != []
  {
    if j < |wire| - 1 {
      AckedIsListed(wire[..|wire| - 1], j);
    }
  }

  /** `post` is an acknowledged post of the same session object and destination, and
      `edit` addresses the message it created (as far as the ref can carry it). */
  predicate Edits(edit: Wire, post: Wire) {
    && edit.api.ChatUpdate? && AcceptedPost(post, edit.id, edit.to) && post.acked
    && ('|' !in post.place.value.0 ==> (edit.api.channel, edit.api.ts) == post.place.value)
  }

  /** What one live message means for a destination of a session object: at most one post
      is acknowledged; every edit comes after it and, when the channel Slack named holds
      no separator, addresses exactly the message it created; every attempt after it is
      an edit; and Slack holds at most one message besides those whose answer or reply
      the core never got. Every post goes to the recipient. */
  ghost predicate OneLive(wire: seq<Wire>, id: nat, to: RefKey) {
    && |AckRefs(wire, id, to)| <= 1
    && (forall i :: 0 <= i < |wire| && wire[i].id == id && wire[i].to == to && wire[i].api.ChatUpdate? ==>
          exists j :: 0 <= j < i && Edits(wire[i], wire[j]))
    && (forall j, i :: 0 <= j < i < |wire| && AckedPost(wire[j], id, to) && wire[i].id == id && wire[i].to == to ==>
          wire[i].api.ChatUpdate?)
    && Posts(wire, id, to, false) <= 1 + Posts(wire, id, to, true)
    && (forall i :: 0 <= i < |wire| && wire[i].id == id && wire[i].to == to ==> Addressed(wire[i]))
  }

  /** A post names the recipient as its channel. */
  predicate Addressed(w: Wire) {
    match w.api
    case ChatPost(channel) => channel == w.to.recipient
    case ChatUpdate(_, _) => true
    case ChatReply(_, _) => false
  }

  /** In every run, calm or not, every post goes to the recipient of its destination. */
  lemma {:induction false} PostsAreAddressed(cfg: Config, steps: seq<Step>)
    requires Run(cfg, steps).Some?
    ensures forall w :: w in Run(cfg, steps).value.wire ==> Addressed(w)
  {
    if steps == [] {
    } else {
      PostsAreAddressed(cfg, steps[..|steps| - 1]);
      var s, step := Run(cfg, steps[..|steps| - 1]).value, steps[|steps| - 1];
      if step.Deliver? {
        SendShape(cfg, s, step.op, step.to, step.env);
        AttemptsAreAddressed(cfg, s.p.ops[step.op], step.to, step.env);
        hide Apply, WireFor, Obtained, Addressed;
      }
    }
  }

  lemma AttemptsAreAddressed(cfg: Config, o: Protocol.Op, to: RefKey, env: SlackBackend.Env)
    ensures forall w :: w in WireFor(cfg, o, to, env) ==> Addressed(w)
  {
    hide Routing.AppsFor, SlackClient.Posting, SlackClient.Updating, SlackClient.DecodeRef, SlackClient.StoredBy;
  }

  lemma {:induction false} PostsAreAckedOrUnheard(wire: seq<Wire>, id: nat, to: RefKey)
    ensures Posts(wire, id, to, false) == |AckRefs(wire, id, to)| + Posts(wire, id, to, true)
  {
    if wire == [] {
    } else {
      PostsAreAckedOrUnheard(wire[..|wire| - 1], id, to);
    }
  }

  lemma EditsMeanOneLive(wire: seq<Wire>, id: nat, to: RefKey)
    requires |AckRefs(wire, id, to)| <= 1 && EditsOk(wire, id, to)
    requires forall w :: w in wire ==> Addressed(w)
    ensures OneLive(wire, id, to)
  {
    PostsAreAckedOrUnheard(wire, id, to);
    hide SlackClient.DecodeRef, SlackClient.EncodeRef, Posts, Addressed;
    forall j, i | 0 <= j < i < |wire| && AckedPost(wire[j], id, to) && wire[i].id == id && wire[i].to == to
      ensures wire[i].api.ChatUpdate?
    {
      assert EditOk(wire, i);
      assert wire[..i][j] == wire[j];
      AckedIsListed(wire[..i], j);
    }
    forall i | 0 <= i < |wire| && wire[i].id == id && wire[i].to == to && wire[i].api.ChatUpdate?
      ensures exists j :: 0 <= j < i && Edits(wire[i], wire[j])
    {
      assert EditOk(wire, i);
      var j := AckRefFrom(wire[..i], id, to);
      assert wire[..i][j] == wire[j];
      SlackClient.RefRoundTripIff(wire[j].place.value.0, wire[j].place.value.1, wire[i].to.recipient);
      assert Edits(wire[i], wire[j]);
    }
  }

  /** Whatever fails, and however calls interleave: as long as no two calls compete for
      the first message of a destination, it has one live message. */
  lemma {:induction false} OneLiveMessage(cfg: Config, steps: seq<Step>, id: nat, to: RefKey)
    requires Calm(cfg, steps, id, to)
    ensures OneLive(Run(cfg, steps).value.wire, id, to)
  {
    if cfg.retries < 0 {
      NothingSent(cfg, steps);
    } else {
      CalmKeepsInv(cfg, steps, id, to);
    }
    PostsAreAddressed(cfg, steps);
    hide Addressed;
    EditsMeanOneLive(Run(cfg, steps).value.wire, id, to);
  }

  // ----- the order in which attempts reach Slack -----

  /** An order in which attempts reach Slack, by their place in the order of deliveries:
      any order, and any unanswered attempt may be missing, but an edit is made with the
      ref of a post whose answer has arrived, so it comes after that post. */
  ghost predicate Arrives(wire: seq<Wire>, order: seq<nat>, id: nat, to: RefKey) {
    && (forall p :: 0 <= p < |order| ==> order[p] < |wire|)
    && (forall i :: 0 <= i < |wire| && AckedPost(wire[i], id, to) ==> i in order)
    && (forall p, q :: 0 <= p < |order| && 0 <= q < |order| && EditsLater(wire, order[p], order[q], id, to) ==> p < q)
  }

  predicate EditsLater(wire: seq<Wire>, post: nat, edit: nat, id: nat, to: RefKey) {
    post < edit < |wire| && AckedPost(wire[post], id, to) && IsEdit(wire[edit], id, to)
  }

  predicate IsEdit(w: Wire, id: nat, to: RefKey) {
    w.id == id && w.to == to && w.api.ChatUpdate?
  }

  /** However the attempts of the deliveries overtake each other on the way, an edit
      reaches Slack after the post it edits; and what reaches it after the acknowledged
      post is an edit, or an attempt that was made before that post and has no answer. */
  lemma {:induction false} OneLiveOnArrival(cfg: Config, steps: seq<Step>, order: seq<nat>, id: nat, to: RefKey, q: nat)
    requires Calm(cfg, steps, id, to) && Arrives(Run(cfg, steps).value.wire, order, id, to) && q < |order|
    requires var w := Run(cfg, steps).value.wire[order[q]]; w.id == id && w.to == to
    ensures var wire := Run(cfg, steps).value.wire;
      && (wire[order[q]].api.ChatUpdate? ==> exists p :: 0 <= p < q && Edits(wire[order[q]], wire[order[p]]))
      && (forall p :: 0 <= p < q && AckedPost(wire[order[p]], id, to) && order[p] != order[q] ==>
            wire[order[q]].api.ChatUpdate? || (order[q] < order[p] && !AckedPost(wire[order[q]], id, to)))
  {
    OneLiveMessage(cfg, steps, id, to);
    var wire := Run(cfg, steps).value.wire;
    hide Run, Posts, AckRefs, SlackClient.DecodeRef;
    assert forall j, i :: 0 <= j < i < |wire| && AckedPost(wire[j], id, to) && wire[i].id == id && wire[i].to == to ==>
      wire[i].api.ChatUpdate?;
    if wire[order[q]].api.ChatUpdate? {
      var j :| 0 <= j < order[q] && Edits(wire[order[q]], wire[j]);
      assert AckedPost(wire[j], id, to) && j in order;
      var p :| 0 <= p < |order| && order[p] == j;
      assert EditsLater(wire, order[p], order[q], id, to);
    }
  }

  // ----- which attempts leave a message the core does not know of -----

  /** Attempt `i` of a delivery is a post, and Slack stores its message. */
  predicate Stores(cfg: Config, o: Protocol.Op, to: RefKey, env: SlackBackend.Env, i: nat) {
    && env.Reached? && env.weather.rendered && env.weather.encodes
    && RefFor(o, to) == "" && cfg.core.build(Routing.AppsFor(o.ticket.perApp, to)).Ok?
    && i < SlackClient.Posting(cfg.retries, env.weather).attempts
    && SlackClient.StoredBy(env.weather.tries, i).Some?
  }

  /** The core learns of attempt `i`: it is answered OK, and the backend's reply arrives. */
  predicate IsHeard(env: SlackBackend.Env, i: nat)
    requires env.Reached?
  {
    !env.replyLost && SlackClient.Succeeds(SlackClient.ExchangeOf(env.weather.tries, i))
  }

  function Attempts(cfg: Config, env: SlackBackend.Env): nat {
    if env.Reached? then SlackClient.Posting(cfg.retries, env.weather).attempts else 0
  }

  /** The attempts of a delivery that store a message, and the acknowledged one among
      them, told from what the surroundings decide. */
  lemma StoresIff(cfg: Config, o: Protocol.Op, to: RefKey, env: SlackBackend.Env, i: nat)
    ensures var added := WireFor(cfg, o, to, env);
      && (i < |added| && AcceptedPost(added[i], o.ticket.id, to) <==> Stores(cfg, o, to, env, i))
      && (Stores(cfg, o, to, env, i) ==> (added[i].acked <==> IsHeard(env, i)))
  {
    if env.Reached? {
      SlackClient.CallEnds(env.weather.encodes, cfg.retries, env.weather.tries);
    }
    hide Routing.AppsFor, SlackClient.DecodeRef, SlackClient.EncodeRef, SlackClient.Calling, SlackClient.StoredBy;
  }

  /** How many of the first `n` attempts of a delivery store a message that the core does
      (or does not) hear of. */
  function StoredUpTo(cfg: Config, o: Protocol.Op, to: RefKey, env: SlackBackend.Env, n: nat, heard: bool): nat {
    if n == 0 then 0
    else
      StoredUpTo(cfg, o, to, env, n - 1, heard)
      + if Stores(cfg, o, to, env, n - 1) && IsHeard(env, n - 1) == heard then 1 else 0
  }

  /** The same over all deliveries of a run to one destination of a session object. */
  function Stored(cfg: Config, steps: seq<Step>, id: nat, to: RefKey, heard: bool): nat
    requires Run(cfg, steps).Some?
  {
    if steps == [] then 0
    else
      var s, step := Run(cfg, steps[..|steps| - 1]).value, steps[|steps| - 1];
      Stored(cfg, steps[..|steps| - 1], id, to, heard)
      + if step.Deliver? && step.to == to && s.p.ops[step.op].ticket.id == id
        then StoredUpTo(cfg, s.p.ops[step.op], to, step.env, Attempts(cfg, step.env), heard) else 0
  }

  lemma {:induction false} PostsAppend(a: seq<Wire>, b: seq<Wire>, id: nat, to: RefKey, unheardOnly: bool)
    ensures Posts(a + b, id, to, unheardOnly) == Posts(a, id, to, unheardOnly) + Posts(b, id, to, unheardOnly)
  {
    hide AcceptedPost;
    if b == [] {
      assert a + b == a;
    } else {
      PostsAppend(a, b[..|b| - 1], id, to, unheardOnly);
      assert (a + b)[..|a + b| - 1] == a + b[..|b| - 1];
    }
  }

  lemma {:induction false} DeliveryStores(cfg: Config, o: Protocol.Op, to: RefKey, env: SlackBackend.Env, n: nat)
    requires var added := WireFor(cfg, o, to, env); |added| <= n
    ensures var added := WireFor(cfg, o, to, env);
      && Posts(added, o.ticket.id, to, true) == StoredUpTo(cfg, o, to, env, n, false)
      && Posts(added, o.ticket.id, to, false) ==
           StoredUpTo(cfg, o, to, env, n, false) + StoredUpTo(cfg, o, to, env, n, true)
  {
    var added := WireFor(cfg, o, to, env);
    hide WireFor, Stores, IsHeard;
    PrefixStores(cfg, o, to, env, n);
    assert added[..|added|] == added;
  }

  lemma {:induction false} PrefixStores(cfg: Config, o: Protocol.Op, to: RefKey, env: SlackBackend.Env, n: nat)
    ensures var added := WireFor(cfg, o, to, env);
      var first := if n < |added| then added[..n] else added;
      && Posts(first, o.ticket.id, to, true) == StoredUpTo(cfg, o, to, env, n, false)
      && Posts(first, o.ticket.id, to, false) ==
           StoredUpTo(cfg, o, to, env, n, false) + StoredUpTo(cfg, o, to, env, n, true)
  {
    var added := WireFor(cfg, o, to, env);
    if n > 0 {
      PrefixStores(cfg, o, to, env, n - 1);
      StoresIff(cfg, o, to, env, n - 1);
      hide WireFor, Stores, IsHeard, AcceptedPost;
      if n <= |added| {
        assert added[..n][..n - 1] == added[..n - 1];
        assert n == |added| ==> added[..n] == added;
      }
    }
  }

  lemma OtherDelivery(cfg: Config, o: Protocol.Op, to: RefKey, env: SlackBackend.Env, id: nat, dest: RefKey,
                      unheardOnly: bool)
    requires o.ticket.id != id || to != dest
    ensures Posts(WireFor(cfg, o, to, env), id, dest, unheardOnly) == 0
  {
    var added := WireFor(cfg, o, to, env);
    assert forall i :: 0 <= i < |added| ==> added[i].id == o.ticket.id && added[i].to == to;
    hide WireFor;
    NoPosts(added, id, dest, unheardOnly);
  }

  lemma {:induction false} NoPosts(wire: seq<Wire>, id: nat, to: RefKey, unheardOnly: bool)
    requires forall i :: 0 <= i < |wire| ==> wire[i].id != id || wire[i].to != to
    ensures Posts(wire, id, to, unheardOnly) == 0
  {
    if wire == [] {
    } else {
      NoPosts(wire[..|wire| - 1], id, to, unheardOnly);
    }
  }

  lemma NoLonger(cfg: Config, o: Protocol.Op, to: RefKey, env: SlackBackend.Env)
    ensures |WireFor(cfg, o, to, env)| <= Attempts(cfg, env)
  {
    hide SlackClient.Calling, Routing.AppsFor;
  }

  /** The messages Slack stored over a run are those of the storing attempts. */
  lemma {:induction false} PostsAreStored(cfg: Config, steps: seq<Step>, id: nat, to: RefKey)
    requires Run(cfg, steps).Some?
    ensures var wire := Run(cfg, steps).value.wire;
      && Posts(wire, id, to, true) == Stored(cfg, steps, id, to, false)
      && Posts(wire, id, to, false) == Stored(cfg, steps, id, to, false) + Stored(cfg, steps, id, to, true)
  {
    if steps == [] {
    } else {
      var before, step := steps[..|steps| - 1], steps[|steps| - 1];
      PostsAreStored(cfg, before, id, to);
      var s := Run(cfg, before).value;
      assert Run(cfg, steps).value == Apply(cfg, s, step);
      if step.Deliver? {
        var o := s.p.ops[step.op];
        var added := WireFor(cfg, o, step.to, step.env);
        SendShape(cfg, s, step.op, step.to, step.env);
        PostsAppend(s.wire, added, id, to, true);
        PostsAppend(s.wire, added, id, to, false);
        hide Run, Apply, WireFor, Posts, Stores, IsHeard;
        if o.ticket.id == id && step.to == to {
          NoLonger(cfg, o, to, step.env);
          DeliveryStores(cfg, o, to, step.env, Attempts(cfg, step.env));
        } else {
          OtherDelivery(cfg, o, step.to, step.env, id, to, true);
          OtherDelivery(cfg, o, step.to, step.env, id, to, false);
        }
      }
    }
  }

  /** When Slack holds more than one message for a destination: never two that the core
      heard of, so exactly when two attempts stored one unheard, or one did beside the
      one that was heard. An attempt goes unheard when it is not answered OK or the
      backend's reply is lost, whether or not it is retried. */
  lemma {:induction false} MoreThanOneMessageIff(cfg: Config, steps: seq<Step>, id: nat, to: RefKey)
    requires Calm(cfg, steps, id, to)
    ensures var unheard, heard := Stored(cfg, steps, id, to, false), Stored(cfg, steps, id, to, true);
      && heard <= 1
      && (Posts(Run(cfg, steps).value.wire, id, to, false) > 1 <==> unheard >= 2 || (unheard == 1 && heard == 1))
  {
    OneLiveMessage(cfg, steps, id, to);
    PostsAreStored(cfg, steps, id, to);
    hide Run, Posts, Stored, AckRefs;
  }

  // ----- the condition is exact -----

  predicate OnlyDeliveries(steps: seq<Step>) {
    forall i :: 0 <= i < |steps| ==> steps[i].Deliver?
  }

  /** Deliveries alone can lead from here to two acknowledged posts. */
  ghost predicate CanPostTwice(cfg: Config, steps: seq<Step>, id: nat, to: RefKey) {
    exists more :: OnlyDeliveries(more) && PostsTwice(cfg, steps + more, id, to)
  }

  ghost predicate PostsTwice(cfg: Config, steps: seq<Step>, id: nat, to: RefKey) {
    Run(cfg, steps).Some? && |AckRefs(Run(cfg, steps).value.wire, id, to)| > 1
  }

  lemma DeliveryIsCalm(s: State, s': State, op: nat, dest: RefKey, got: Option<string>, id: nat, to: RefKey)
    requires Active(s.p, op) && dest in s.p.ops[op].left && !AtRisk(s, id, to)
    requires s'.p.ops == s.p.ops[op := OpAfter(s.p.ops[op], dest, got)]
    ensures !AtRisk(s', id, to)
  {
    forall m: nat, n: nat ensures !Competing(s', m, n, id, to) {
      assert !Competing(s, m, n, id, to);
    }
  }

  /** A delivery creates no competition. */
  lemma CalmStep(cfg: Config, steps: seq<Step>, last: Step, id: nat, to: RefKey)
    requires Calm(cfg, steps, id, to) && last.Deliver? && Run(cfg, steps + [last]).Some?
    ensures Calm(cfg, steps + [last], id, to)
  {
    hide Apply, WireFor, Obtained, AtRisk;
    assert (steps + [last])[..|steps|] == steps;
    var s := Run(cfg, steps).value;
    var got := Obtained(cfg, s.p.ops[last.op], last.to, last.env);
    SendShape(cfg, s, last.op, last.to, last.env);
    DeliveryIsCalm(s, Apply(cfg, s, last), last.op, last.to, got, id, to);
  }

  lemma {:induction false} DeliveriesKeepCalm(cfg: Config, steps: seq<Step>, more: seq<Step>, id: nat, to: RefKey)
    requires Calm(cfg, steps, id, to) && OnlyDeliveries(more) && Run(cfg, steps + more).Some?
    ensures Calm(cfg, steps + more, id, to)
    decreases |more|
  {
    hide Apply, AtRisk, Possible;
    if more == [] {
      assert steps + more == steps;
    } else {
      var init, last := more[..|more| - 1], more[|more| - 1];
      var all := steps + more;
      assert all[..|all| - 1] == steps + init && all == steps + init + [last];
      DeliveriesKeepCalm(cfg, steps, init, id, to);
      hide Calm;
      CalmStep(cfg, steps + init, last, id, to);
    }
  }

  /** Slack accepts the first attempt, and its answer and the reply arrive. */
  const ACCEPTED := SlackBackend.Reached(
    SlackClient.Weather(true, true,
      [SlackClient.Try(false, SlackClient.Answer(200, SlackClient.ApiResponse(true, "", "1", "C")), None)]),
    false)

  lemma AcceptedIsObtained(cfg: Config, o: Protocol.Op, to: RefKey)
    requires cfg.retries >= 0 && cfg.core.build(Routing.AppsFor(o.ticket.perApp, to)).Ok?
    ensures Obtained(cfg, o, to, ACCEPTED).Some?
  {
    hide Routing.AppsFor;
    assert SlackClient.Meets(ACCEPTED.weather.tries, 0).exchange.response.ok;
  }

  /** A delivery to a destination without a ref can be acknowledged. */
  lemma CanAck(cfg: Config, steps: seq<Step>, n: nat, id: nat, to: RefKey) returns (step: Step)
    requires cfg.retries >= 0 && (forall apps: map<string, Event> :: apps != map[] ==> cfg.core.build(apps).Ok?)
    requires Run(cfg, steps).Some?
    requires var s := Run(cfg, steps).value; Active(s.p, n) && Bare(s.p.ops[n], id, to) && to in s.p.ops[n].left
    ensures step.Deliver? && Run(cfg, steps + [step]).Some?
    ensures var s, s' := Run(cfg, steps).value, Run(cfg, steps + [step]).value;
      && |AckRefs(s'.wire, id, to)| == |AckRefs(s.wire, id, to)| + 1
      && (forall m :: m != n && m in s.p.ops ==> m in s'.p.ops && s'.p.ops[m] == s.p.ops[m])
  {
    hide AckRefs, Apply, WireFor, Obtained;
    step := Deliver(n, to, ACCEPTED);
    RunSnoc(cfg, steps, step);
    HasApps(cfg, steps, n, to);
    hide Run, Routing.AppsFor;
    var s := Run(cfg, steps).value;
    AcceptedIsObtained(cfg, s.p.ops[n], to);
    SendShape(cfg, s, n, to, ACCEPTED);
    AckEffect(cfg, s.wire, s.p.ops[n], to, ACCEPTED, id, to);
  }

  lemma HasApps(cfg: Config, steps: seq<Step>, n: nat, to: RefKey)
    requires Run(cfg, steps).Some?
    requires var s := Run(cfg, steps).value; n in s.p.ops && to in s.p.ops[n].left
    ensures Routing.AppsFor(Run(cfg, steps).value.p.ops[n].ticket.perApp, to) != map[]
  {
    RunKeepsAlways(cfg, steps, 0, to);
    hide Run, Routing.AppsFor, Protocol.Inv, Backed;
  }

  /** Two acknowledged posts are one race away: up to the first moment at which two
      calls compete for the destination there is one at most, and at exactly such a
      moment the deliveries under way can make it two. */
  lemma {:induction false} TwoPostsIff(cfg: Config, steps: seq<Step>, id: nat, to: RefKey)
    requires cfg.retries >= 0 && (forall apps: map<string, Event> :: apps != map[] ==> cfg.core.build(apps).Ok?)
    requires Run(cfg, steps).Some? && (steps != [] ==> Calm(cfg, steps[..|steps| - 1], id, to))
    ensures CanPostTwice(cfg, steps, id, to) <==> AtRisk(Run(cfg, steps).value, id, to)
  {
    if AtRisk(Run(cfg, steps).value, id, to) {
      RiskCanPostTwice(cfg, steps, id, to);
    } else if more :| OnlyDeliveries(more) && PostsTwice(cfg, steps + more, id, to) {
      DeliveriesKeepCalm(cfg, steps, more, id, to);
      OneLiveMessage(cfg, steps + more, id, to);
      assert false;
    }
  }

  /** The second of two competing calls posts when the first has been acknowledged. */
  lemma LastPost(cfg: Config, steps: seq<Step>, n: nat, id: nat, to: RefKey) returns (step: Step)
    requires cfg.retries >= 0 && (forall apps: map<string, Event> :: apps != map[] ==> cfg.core.build(apps).Ok?)
    requires Run(cfg, steps).Some? && AckRefs(Run(cfg, steps).value.wire, id, to) != []
    requires var s := Run(cfg, steps).value; Active(s.p, n) && Bare(s.p.ops[n], id, to) && to in s.p.ops[n].left
    ensures OnlyDeliveries([step]) && PostsTwice(cfg, steps + [step], id, to)
  {
    hide AckRefs, Run, Active;
    step := CanAck(cfg, steps, n, id, to);
  }

  /** From any state at risk, calm before or not. */
  lemma {:induction false} RiskCanPostTwice(cfg: Config, steps: seq<Step>, id: nat, to: RefKey)
    requires cfg.retries >= 0 && (forall apps: map<string, Event> :: apps != map[] ==> cfg.core.build(apps).Ok?)
    requires Run(cfg, steps).Some? && AtRisk(Run(cfg, steps).value, id, to)
    ensures CanPostTwice(cfg, steps, id, to)
  {
    hide AckRefs, Run, PostsTwice;
    var s := Run(cfg, steps).value;
    var m: nat, n: nat :| Competing(s, m, n, id, to);
    if to in s.p.ops[m].newRefs {
      HasAcked(cfg, steps, m, id, to);
      var last := LastPost(cfg, steps, n, id, to);
    } else {
      var first := CanAck(cfg, steps, m, id, to);
      var last := LastPost(cfg, steps + [first], n, id, to);
      assert steps + [first] + [last] == steps + [first, last];
      assert [last][0].Deliver?;
      assert OnlyDeliveries([first, last]);
    }
  }

  lemma HasAcked(cfg: Config, steps: seq<Step>, m: nat, id: nat, to: RefKey)
    requires cfg.retries >= 0 && Run(cfg, steps).Some?
    requires var s := Run(cfg, steps).value; m in s.p.ops && Bare(s.p.ops[m], id, to) && to in s.p.ops[m].newRefs
    ensures AckRefs(Run(cfg, steps).value.wire, id, to) != []
  {
    RunKeepsAlways(cfg, steps, id, to);
    hide AckRefs, Run, Protocol.Inv, Linked;
  }

  // ----- calls that do not overlap -----

  /** Each call starts when the calls of its key have finished. */
  ghost predicate Serial(cfg: Config, steps: seq<Step>) {
    steps != [] ==>
      && Serial(cfg, steps[..|steps| - 1])
      && (var before, step := Run(cfg, steps[..|steps| - 1]), steps[|steps| - 1];
          before.Some? && step.Core? && step.action.Start? ==>
            forall n :: Active(before.value.p, n) ==> before.value.p.ops[n].ticket.key != step.action.key)
  }

  ghost predicate Alone(p: Protocol.State) {
    forall m, n :: Active(p, m) && Active(p, n) && m != n ==> p.ops[m].ticket.key != p.ops[n].ticket.key
  }

  lemma {:induction false} SerialIsAlone(cfg: Config, steps: seq<Step>)
    requires Run(cfg, steps).Some? && Serial(cfg, steps)
    ensures Alone(Run(cfg, steps).value.p)
  {
    if steps == [] {
    } else {
      var before, step := steps[..|steps| - 1], steps[|steps| - 1];
      SerialIsAlone(cfg, before);
      var s, s' := Run(cfg, before).value, Run(cfg, steps).value;
      hide Serial, Run, Merge, Routing.Destinations, Routing.Recipients, SessionModel.Deliver, WireFor;
      forall m, n | Active(s'.p, m) && Active(s'.p, n) && m != n
        ensures s'.p.ops[m].ticket.key != s'.p.ops[n].ticket.key
      {
      }
    }
  }

  /** Where the calls of a key do not overlap, no destination is ever at risk, so each
      has one live message. */
  lemma {:induction false} SerialIsCalm(cfg: Config, steps: seq<Step>, id: nat, to: RefKey)
    requires Run(cfg, steps).Some? && Serial(cfg, steps)
    ensures Calm(cfg, steps, id, to)
  {
    SerialIsAlone(cfg, steps);
    RunKeepsAlways(cfg, steps, id, to);
    if steps == [] {
    } else {
      SerialIsCalm(cfg, steps[..|steps| - 1], id, to);
    }
  }

  // ----- a race exists -----

  /** Two overlapping calls for different apps: neither snapshot holds a ref. */
  lemma BothStarted(cfg: Config, key: SessionKey, first: Event, second: Event, to: RefKey) returns (steps: seq<Step>)
    requires cfg.core.ttl >= 0
    requires first.appName != second.appName && Routing.Routes(first, to) && Routing.Routes(second, to)
    ensures Run(cfg, steps).Some? && AtRisk(Run(cfg, steps).value, 0, to)
  {
    hide Routing.Recipients, Routing.Destinations, Merge;
    var start1, start2 := Core(Protocol.Start(0, 0, key, [first])), Core(Protocol.Start(1, 0, key, [second]));
    RunSnoc(cfg, [], start1);
    MergeNew(map[], first);
    var one := map[][first.appName := first];
    IsNamed(one, first.appName, to);
    var s1 := Apply(cfg, INITIAL, start1);
    RunSnoc(cfg, [] + [start1], start2);
    MergeNew(one, second);
    var two := one[second.appName := second];
    IsNamed(two, second.appName, to);
    assert s1.p.store.sessions[key] == Session(0, one, map[], 0);
    steps := [] + [start1] + [start2];
    var s2 := Apply(cfg, s1, start2);
    assert s2.p.ops[0] == s1.p.ops[0];
    assert Competing(s2, 0, 1, 0, to);
  }

  /** Whenever two events of a key concern different apps and name the same destination,
      overlapping calls for them can leave two acknowledged messages there. */
  lemma {:induction false} OverlapPostsTwice(cfg: Config, key: SessionKey, first: Event, second: Event, to: RefKey)
    returns (steps: seq<Step>)
    requires cfg.core.ttl >= 0 && cfg.retries >= 0 && (forall apps: map<string, Event> :: apps != map[] ==>
      cfg.core.build(apps).Ok?)
    requires first.appName != second.appName && Routing.Routes(first, to) && Routing.Routes(second, to)
    ensures PostsTwice(cfg, steps, 0, to)
  {
    var started := BothStarted(cfg, key, first, second, to);
    RiskCanPostTwice(cfg, started, 0, to);
    var more :| OnlyDeliveries(more) && PostsTwice(cfg, started + more, 0, to);
    steps := started + more;
  }

  /** Slack stores the message and answers with an error; nothing is retried. */
  const STORED_UNHEARD := SlackBackend.Reached(
    SlackClient.Weather(true, true,
      [SlackClient.Try(false, SlackClient.Answer(200, SlackClient.ApiResponse(false, "fatal_error", "", "")),
                       Some(("C", "0")))]),
    false)

  lemma UnheardIsStored(cfg: Config, o: Protocol.Op, to: RefKey)
    requires cfg.retries >= 0 && RefFor(o, to) == "" && cfg.core.build(Routing.AppsFor(o.ticket.perApp, to)).Ok?
    ensures Obtained(cfg, o, to, STORED_UNHEARD).None?
    ensures Attempts(cfg, STORED_UNHEARD) == 1 && Stores(cfg, o, to, STORED_UNHEARD, 0) && !IsHeard(STORED_UNHEARD, 0)
  {
    hide Routing.AppsFor;
    assert SlackClient.Meets(STORED_UNHEARD.weather.tries, 0).exchange.response.error == "fatal_error";
  }

  lemma AcceptedIsStored(cfg: Config, o: Protocol.Op, to: RefKey)
    requires cfg.retries >= 0 && RefFor(o, to) == "" && cfg.core.build(Routing.AppsFor(o.ticket.perApp, to)).Ok?
    ensures Attempts(cfg, ACCEPTED) == 1 && Stores(cfg, o, to, ACCEPTED, 0)
  {
    hide Routing.AppsFor;
    assert SlackClient.Meets(ACCEPTED.weather.tries, 0).exchange.response.ok;
  }

  lemma StoredSnoc(cfg: Config, steps: seq<Step>, step: Step, id: nat, to: RefKey, heard: bool)
    requires Run(cfg, steps).Some? && Run(cfg, steps + [step]).Some?
    ensures var s := Run(cfg, steps).value;
      Stored(cfg, steps + [step], id, to, heard) == Stored(cfg, steps, id, to, heard)
        + if step.Deliver? && step.to == to && s.p.ops[step.op].ticket.id == id
          then StoredUpTo(cfg, s.p.ops[step.op], to, step.env, Attempts(cfg, step.env), heard) else 0
  {
    assert (steps + [step])[..|steps|] == steps;
  }

  lemma CalmSnoc(cfg: Config, steps: seq<Step>, step: Step, id: nat, to: RefKey)
    requires Calm(cfg, steps, id, to) && Run(cfg, steps + [step]).Some?
    requires step.Deliver? || !AtRisk(Run(cfg, steps + [step]).value, id, to)
    ensures Calm(cfg, steps + [step], id, to)
  {
    if step.Deliver? {
      DeliveriesKeepCalm(cfg, steps, [step], id, to);
    } else {
      assert (steps + [step])[..|steps|] == steps;
    }
  }

  /** A delivery to a destination without a ref whose one attempt stores a message. */
  lemma DeliverOne(cfg: Config, steps: seq<Step>, op: nat, to: RefKey, env: SlackBackend.Env, heard: bool)
    requires Calm(cfg, steps, 0, to)
    requires var p := Run(cfg, steps).value.p; Active(p, op) && to in p.ops[op].left && Bare(p.ops[op], 0, to)
    requires env.Reached? && Attempts(cfg, env) == 1
    requires Stores(cfg, Run(cfg, steps).value.p.ops[op], to, env, 0) && IsHeard(env, 0) == heard
    ensures var more := steps + [Deliver(op, to, env)];
      && Calm(cfg, more, 0, to)
      && Stored(cfg, more, 0, to, heard) == Stored(cfg, steps, 0, to, heard) + 1
      && Stored(cfg, more, 0, to, !heard) == Stored(cfg, steps, 0, to, !heard)
      && var s, s' := Run(cfg, steps).value, Run(cfg, more).value;
      && s'.p.store == s.p.store
      && s'.p.ops == s.p.ops[op := OpAfter(s.p.ops[op], to, Obtained(cfg, s.p.ops[op], to, env))]
  {
    hide WireFor, Obtained, Stores, IsHeard, AtRisk, Attempts;
    var step := Deliver(op, to, env);
    RunSnoc(cfg, steps, step);
    SendShape(cfg, Run(cfg, steps).value, op, to, env);
    CalmSnoc(cfg, steps, step, 0, to);
    StoredSnoc(cfg, steps, step, 0, to, heard);
    StoredSnoc(cfg, steps, step, 0, to, !heard);
    hide Run, Apply, Calm, Stored;
  }

  /** A first call of a key. */
  lemma StartFirst(cfg: Config, key: SessionKey, ev: Event, to: RefKey) returns (steps: seq<Step>)
    requires Routing.Routes(ev, to)
    ensures |steps| == 1 && steps[0].Core?
    ensures Calm(cfg, steps, 0, to) && Stored(cfg, steps, 0, to, false) == Stored(cfg, steps, 0, to, true) == 0
    ensures var p := Run(cfg, steps).value.p;
      && p.ops.Keys == {0} && Active(p, 0) && to in p.ops[0].left && Bare(p.ops[0], 0, to) && p.ops[0].newRefs == map[]
      && Routing.AppsFor(p.ops[0].ticket.perApp, to) != map[]
      && p.store == Store(map[key := Session(0, map[ev.appName := ev], map[], 0)], 1)
  {
    hide Routing.Recipients, Routing.Destinations, Routing.AppsFor, Merge, Stored;
    var start := Core(Protocol.Start(0, 0, key, [ev]));
    MergeNew(map[], ev);
    IsNamed(map[ev.appName := ev], ev.appName, to);
    DestinationHasApps(map[ev.appName := ev], to);
    RunSnoc(cfg, [], start);
    assert [] + [start] == [start];
    CalmSnoc(cfg, [], start, 0, to);
    NothingStored(cfg, start, to);
    steps := [start];
  }

  lemma NothingStored(cfg: Config, start: Step, to: RefKey)
    requires Run(cfg, [start]).Some? && start.Core?
    ensures Stored(cfg, [start], 0, to, false) == Stored(cfg, [start], 0, to, true) == 0
  {
    assert [start][..0] == [];
  }

  /** A second call of the key, for another app, while the first has nothing left to
      deliver to the destination and no ref for it. */
  lemma StartSecond(cfg: Config, steps: seq<Step>, key: SessionKey, one: map<string, Event>, ev: Event, to: RefKey)
    requires cfg.core.ttl >= 0 && Calm(cfg, steps, 0, to) && ev.appName !in one && Routing.Routes(ev, to)
    requires var p := Run(cfg, steps).value.p;
      && p.ops.Keys == {0} && to !in p.ops[0].left && to !in p.ops[0].newRefs
      && p.store == Store(map[key := Session(0, one, map[], 0)], 1)
    ensures var more := steps + [Core(Protocol.Start(1, 0, key, [ev]))];
      && Calm(cfg, more, 0, to)
      && (forall heard :: Stored(cfg, more, 0, to, heard) == Stored(cfg, steps, 0, to, heard))
      && var p := Run(cfg, more).value.p;
      && Active(p, 1) && to in p.ops[1].left && Bare(p.ops[1], 0, to)
      && Routing.AppsFor(p.ops[1].ticket.perApp, to) != map[]
  {
    hide Routing.Recipients, Routing.Destinations, Routing.AppsFor, Merge, Stored;
    var start := Core(Protocol.Start(1, 0, key, [ev]));
    MergeNew(one, ev);
    IsNamed(one[ev.appName := ev], ev.appName, to);
    DestinationHasApps(one[ev.appName := ev], to);
    RunSnoc(cfg, steps, start);
    assert !AtRisk(Run(cfg, steps + [start]).value, 0, to);
    CalmSnoc(cfg, steps, start, 0, to);
    StoredSnoc(cfg, steps, start, 0, to, false);
    StoredSnoc(cfg, steps, start, 0, to, true);
    hide Run, Apply, Calm;
  }

  /** Calm is not enough for one message: for any two events of a key for different apps
      and one destination there is a calm run, without a retry or a lost reply, after
      which Slack holds two messages. */
  lemma {:induction false} CalmRunLeavesTwo(cfg: Config, key: SessionKey, first: Event, second: Event, to: RefKey)
    returns (steps: seq<Step>)
    requires cfg.core.ttl >= 0 && cfg.retries >= 0
    requires forall apps: map<string, Event> :: apps != map[] ==> cfg.core.build(apps).Ok?
    requires first.appName != second.appName && Routing.Routes(first, to) && Routing.Routes(second, to)
    ensures Calm(cfg, steps, 0, to) && Posts(Run(cfg, steps).value.wire, 0, to, false) == 2
    ensures forall i :: 0 <= i < |steps| && steps[i].Deliver? ==> HeardOnce(cfg, steps[i].env)
  {
    hide Run, AtRisk, Stored, Stores, IsHeard, Obtained, Posts, Routing.Routes, Routing.AppsFor, Attempts;
    var started := StartFirst(cfg, key, first, to);
    var o := Run(cfg, started).value.p.ops[0];
    UnheardIsStored(cfg, o, to);
    DeliverOne(cfg, started, 0, to, STORED_UNHEARD, false);
    var sent := started + [Deliver(0, to, STORED_UNHEARD)];
    StartSecond(cfg, sent, key, map[first.appName := first], second, to);
    var both := sent + [Core(Protocol.Start(1, 0, key, [second]))];
    AcceptedIsStored(cfg, Run(cfg, both).value.p.ops[1], to);
    DeliverOne(cfg, both, 1, to, ACCEPTED, IsHeard(ACCEPTED, 0));
    steps := both + [Deliver(1, to, ACCEPTED)];
    PostsAreStored(cfg, steps, 0, to);
  }

  /** One attempt, and its outcome reaches the core. */
  predicate HeardOnce(cfg: Config, env: SlackBackend.Env) {
    env.Reached? && !env.replyLost && Attempts(cfg, env) == 1
  }

  lemma MergeNew(perApp: map<string, Event>, ev: Event)
    requires ev.appName !in perApp
    ensures Merge(perApp, [ev]) == Merged(perApp[ev.appName := ev], [], true)
  {
    assert [ev][..0] == [];
  }

  lemma IsNamed(perApp: map<string, Event>, app: string, to: RefKey)
    requires app in perApp && Routing.Routes(perApp[app], to)
    ensures to in Routing.Destinations(perApp)
  {
    hide Routing.Recipients;
    assert to == RefKey(perApp[app].backend, to.recipient);
  }
}
