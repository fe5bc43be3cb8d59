/** Any number of `Upsert` calls in progress at once: each takes its ticket under
    the lock, delivers to its destinations one by one without it, and commits the
    refs it got under the lock again. Steps of different calls interleave freely. */
module Protocol {
  import opened Domain
  import opened SessionModel
  import Routing

  datatype Config = Config(ttl: int, build: Builder)

  /** One `Upsert` in progress: destinations still to serve, refs obtained so far. */
  datatype Op = Op(ticket: Ticket, left: set<RefKey>, newRefs: map<RefKey, string>, committed: bool)

  /** A call that was made, for which session object, and the ref it brought back. */
  datatype Sent = Sent(id: nat, call: Call, returned: Option<string>)

  datatype State = State(store: Store, ops: map<nat, Op>, log: seq<Sent>)

  datatype Action =
    | Start(op: nat, at: int, key: SessionKey, events: seq<Event>)
    | Send(op: nat, to: RefKey, answer: Resolved)
    | Finish(op: nat)
    | Comment(op: nat, duplicate: nat, recipient: string)

  const INITIAL := State(Store(map[], 0), map[], [])

  predicate Enabled(s: State, a: Action) {
    match a
    case Start(op, at, key, events) => op !in s.ops && events != []
    case Send(op, to, answer) => op in s.ops && !s.ops[op].committed && to in s.ops[op].left
    case Finish(op) => op in s.ops && !s.ops[op].committed && s.ops[op].left == {}
    case Comment(op, i, recipient) =>
      && op in s.ops && s.ops[op].committed && i < |s.ops[op].ticket.duplicates|
      && var ev := s.ops[op].ticket.duplicates[i];
      && recipient in Routing.Recipients(ev.recipient)
      && RefKey(ev.backend, recipient) in s.ops[op].ticket.refs
  }

  function AttemptOf(cfg: Config, op: Op, to: RefKey, answer: Resolved): Attempt {
    Deliver(cfg.build, Routing.AppsFor(op.ticket.perApp, to), to, op.ticket.refs, answer)
  }

  function Apply(cfg: Config, s: State, a: Action): State
    requires Enabled(s, a)
  {
    match a
    case Start(op, at, key, events) =>
      var (store, t) := Begin(cfg.ttl, s.store, at, key, events);
      State(store, s.ops[op := Op(t, if t.changed then Routing.Destinations(t.perApp) else {}, map[], false)], s.log)
    case Send(op, to, answer) =>
      var o := s.ops[op];
      var e := AttemptOf(cfg, o, to, answer);
      State(s.store,
            s.ops[op := Op(o.ticket, o.left - {to},
                           if e.newRef.Some? then o.newRefs[to := e.newRef.value] else o.newRefs, false)],
            s.log + (if e.calls == [] then [] else [Sent(o.ticket.id, e.calls[0], e.newRef)]))
    case Finish(op) =>
      var o := s.ops[op];
      State(Commit(s.store, o.ticket.key, o.ticket.id, o.newRefs), s.ops[op := o.(committed := true)], s.log)
    case Comment(op, i, recipient) =>
      var o := s.ops[op];
      var to := RefKey(o.ticket.duplicates[i].backend, recipient);
      s.(log := s.log + [Sent(o.ticket.id, Reply(to, o.ticket.refs[to], o.ticket.duplicates[i], o.ticket.at), None)])
  }

  /** The state after a run from the empty publisher, or None when a step of the
      run was not possible. */
  function Run(cfg: Config, actions: seq<Action>): Option<State> {
    if actions == [] then Some(INITIAL)
    else
      var before := Run(cfg, actions[..|actions| - 1]);
      var a := actions[|actions| - 1];
      if before.Some? && Enabled(before.value, a) then Some(Apply(cfg, before.value, a)) else None
  }

  // ----- ref provenance -----

  /** Some earlier call for this session object and destination brought back `ref`. */
  ghost predicate Returned(log: seq<Sent>, id: nat, to: RefKey, ref: string) {
    exists j :: 0 <= j < |log| && log[j].id == id && log[j].call.to == to && log[j].returned == Some(ref)
  }

  ghost predicate AllReturned(log: seq<Sent>, id: nat, refs: map<RefKey, string>) {
    forall to :: to in refs ==> Returned(log, id, to, refs[to])
  }

  /** The ref a call carries; an empty ref given to `Notify` says there is none. */
  function Carried(c: Call): Option<string> {
    match c
    case Notify(_, ref, _) => if ref == "" then None else Some(ref)
    case Update(_, ref, _) => Some(ref)
    case Post(_, _) => None
    case Reply(_, ref, _, _) => Some(ref)
  }

  /** What call `i` carries was brought back earlier, for the same session object
      and destination. */
  ghost predicate Grounded(log: seq<Sent>, i: nat)
    requires i < |log|
  {
    Carried(log[i].call).Some? ==> Returned(log[..i], log[i].id, log[i].call.to, Carried(log[i].call).value)
  }

  ghost predicate SessionsOk(store: Store, log: seq<Sent>) {
    && (forall k :: k in store.sessions ==>
          store.sessions[k].id < store.nextId && AllReturned(log, store.sessions[k].id, store.sessions[k].refs))
    && (forall k, l :: k in store.sessions && l in store.sessions && k != l ==>
          store.sessions[k].id != store.sessions[l].id)
  }

  ghost predicate OpOk(o: Op, log: seq<Sent>) {
    AllReturned(log, o.ticket.id, o.ticket.refs) && AllReturned(log, o.ticket.id, o.newRefs)
  }

  ghost predicate Inv(s: State) {
    && SessionsOk(s.store, s.log)
    && (forall op :: op in s.ops ==> OpOk(s.ops[op], s.log) && s.ops[op].ticket.id < s.store.nextId)
    && (forall i :: 0 <= i < |s.log| ==> Grounded(s.log, i))
  }

  lemma ReturnedStays(log: seq<Sent>, more: seq<Sent>, id: nat, refs: map<RefKey, string>)
    requires AllReturned(log, id, refs)
    ensures AllReturned(log + more, id, refs)
  {
    forall to | to in refs ensures Returned(log + more, id, to, refs[to]) {
      var j :| 0 <= j < |log| && log[j].id == id && log[j].call.to == to && log[j].returned == Some(refs[to]);
      assert (log + more)[j] == log[j];
    }
  }

  /** One more call in the log keeps everything known, and is grounded if it carries
      a ref of a grounded source. */
  lemma LogOne(s: State, sent: Sent)
    requires Inv(s)
    requires Carried(sent.call).Some? ==> Returned(s.log, sent.id, sent.call.to, Carried(sent.call).value)
    ensures Inv(s.(log := s.log + [sent]))
  {
    var s' := s.(log := s.log + [sent]);
    forall k | k in s.store.sessions
      ensures AllReturned(s'.log, s.store.sessions[k].id, s.store.sessions[k].refs)
    {
      ReturnedStays(s.log, [sent], s.store.sessions[k].id, s.store.sessions[k].refs);
    }
    forall op | op in s.ops ensures OpOk(s.ops[op], s'.log) {
      ReturnedStays(s.log, [sent], s.ops[op].ticket.id, s.ops[op].ticket.refs);
      ReturnedStays(s.log, [sent], s.ops[op].ticket.id, s.ops[op].newRefs);
    }
    forall i | 0 <= i < |s'.log| ensures Grounded(s'.log, i) {
      if i < |s.log| {
        assert Grounded(s.log, i);
        assert s'.log[..i] == s.log[..i];
      } else {
        assert s'.log[..i] == s.log;
      }
    }
  }

  lemma StartKeepsInv(cfg: Config, s: State, a: Action)
    requires Inv(s) && a.Start? && Enabled(s, a)
    ensures Inv(Apply(cfg, s, a))
  {
    hide Merge, Routing.Destinations, Returned;
  }

  lemma SendKeepsInv(cfg: Config, s: State, a: Action)
    requires Inv(s) && a.Send? && Enabled(s, a)
    ensures Inv(Apply(cfg, s, a))
  {
    var o := s.ops[a.op];
    AttemptCarries(cfg, o, a.to, a.answer);
    hide AttemptOf, Carried;
    var e := AttemptOf(cfg, o, a.to, a.answer);
    assert OpOk(o, s.log);
    var logged := s;
    if e.calls != [] {
      var sent := Sent(o.ticket.id, e.calls[0], e.newRef);
      logged := s.(log := s.log + [sent]);
      LogOne(s, sent);
      assert logged.log[|s.log|] == sent;
    }
    assert Apply(cfg, s, a).log == logged.log;
    hide Grounded;
    AnswerKept(logged, a.op, a.to, e.newRef);
  }

  /** A round makes at most one call, to its destination; the ref it carries is the
      snapshot's, and without a call there is no new ref. */
  lemma AttemptCarries(cfg: Config, o: Op, to: RefKey, answer: Resolved)
    ensures var e := AttemptOf(cfg, o, to, answer);
      && (e.calls == [] ==> e.newRef.None?)
      && (e.calls != [] ==> e.calls[0].to == to)
      && (e.calls != [] && Carried(e.calls[0]).Some? ==>
          to in o.ticket.refs && Carried(e.calls[0]).value == o.ticket.refs[to])
  {
    hide Routing.AppsFor;
  }

  /** Noting a ref that was brought back keeps the invariant. */
  lemma AnswerKept(s: State, op: nat, to: RefKey, newRef: Option<string>)
    requires Inv(s) && op in s.ops
    requires newRef.Some? ==> Returned(s.log, s.ops[op].ticket.id, to, newRef.value)
    ensures var o := s.ops[op];
      Inv(s.(ops := s.ops[op := Op(o.ticket, o.left - {to},
                                   if newRef.Some? then o.newRefs[to := newRef.value] else o.newRefs, false)]))
  {
    hide Returned, Grounded, SessionsOk;
    assert OpOk(s.ops[op], s.log);
  }

  lemma FinishKeepsInv(cfg: Config, s: State, a: Action)
    requires Inv(s) && a.Finish? && Enabled(s, a)
    ensures Inv(Apply(cfg, s, a))
  {
    hide Returned;
    var o := s.ops[a.op];
    assert OpOk(o, s.log);
  }

  lemma CommentKeepsInv(cfg: Config, s: State, a: Action)
    requires Inv(s) && a.Comment? && Enabled(s, a)
    ensures Inv(Apply(cfg, s, a))
  {
    hide Routing.Recipients;
    var o := s.ops[a.op];
    var to := RefKey(o.ticket.duplicates[a.duplicate].backend, a.recipient);
    assert OpOk(o, s.log);
    LogOne(s, Sent(o.ticket.id, Reply(to, o.ticket.refs[to], o.ticket.duplicates[a.duplicate], o.ticket.at), None));
  }

  lemma StepKeepsInv(cfg: Config, s: State, a: Action)
    requires Inv(s) && Enabled(s, a)
    ensures Inv(Apply(cfg, s, a))
  {
    match a
    case Start(_, _, _, _) => StartKeepsInv(cfg, s, a);
    case Send(_, _, _) => SendKeepsInv(cfg, s, a);
    case Finish(_) => FinishKeepsInv(cfg, s, a);
    case Comment(_, _, _) => CommentKeepsInv(cfg, s, a);
  }

  lemma {:induction false} RunKeepsInv(cfg: Config, actions: seq<Action>)
    requires Run(cfg, actions).Some?
    ensures Inv(Run(cfg, actions).value)
  {
    if actions == [] {
    } else {
      RunKeepsInv(cfg, actions[..|actions| - 1]);
      StepKeepsInv(cfg, Run(cfg, actions[..|actions| - 1]).value, actions[|actions| - 1]);
    }
  }

  /** In every interleaving, every ref a call carries was brought back by an earlier
      call for the same destination and the same session object. */
  lemma RefProvenance(cfg: Config, actions: seq<Action>, i: nat)
    requires Run(cfg, actions).Some? && i < |Run(cfg, actions).value.log|
    ensures Grounded(Run(cfg, actions).value.log, i)
  {
    RunKeepsInv(cfg, actions);
  }

  /** A step changes the refs of a stored session only by committing a call of that
      very session object, and then it only adds or renews entries; a commit for a
      session that has been replaced meanwhile changes nothing. */
  lemma StepGrows(cfg: Config, s: State, a: Action, key: SessionKey)
    requires Inv(s) && Enabled(s, a) && key in s.store.sessions
    ensures var s' := Apply(cfg, s, a);
      && key in s'.store.sessions
      && var old_, new_ := s.store.sessions[key], s'.store.sessions[key];
      && (new_.id == old_.id ==> old_.refs.Keys <= new_.refs.Keys)
      && (new_.id == old_.id && new_.refs != old_.refs ==> a.Finish? && s.ops[a.op].ticket.id == old_.id)
      && (new_.id != old_.id ==> new_.id == s.store.nextId && new_.refs == map[])
    ensures a.Finish? && s.ops[a.op].ticket.key == key && s.ops[a.op].ticket.id != s.store.sessions[key].id ==>
      Apply(cfg, s, a).store == s.store
  {
    hide Merge, Routing.Destinations, Returned;
  }

  /** The session of `key` at one moment and later: the object is the same or a newer
      one, and the same object has lost no ref key. */
  ghost predicate Succeeds(before: State, after: State, key: SessionKey) {
    key in before.store.sessions ==>
      && key in after.store.sessions
      && before.store.sessions[key].id <= after.store.sessions[key].id
      && (before.store.sessions[key].id == after.store.sessions[key].id ==>
            before.store.sessions[key].refs.Keys <= after.store.sessions[key].refs.Keys)
  }

  /** Over any stretch of any run a session object keeps every ref key it has learnt,
      and once it is replaced it never comes back. */
  lemma {:induction false} RefsOnlyGrow(cfg: Config, actions: seq<Action>, n: nat, key: SessionKey)
    requires n <= |actions| && Run(cfg, actions).Some?
    ensures Run(cfg, actions[..n]).Some?
    ensures Succeeds(Run(cfg, actions[..n]).value, Run(cfg, actions).value, key)
    decreases |actions|
  {
    if n == |actions| {
      assert actions[..n] == actions;
    } else {
      var before, a := actions[..|actions| - 1], actions[|actions| - 1];
      assert actions[..n] == before[..n];
      RefsOnlyGrow(cfg, before, n, key);
      RunKeepsInv(cfg, before);
      if key in Run(cfg, before).value.store.sessions {
        StepGrows(cfg, Run(cfg, before).value, a, key);
      }
      hide Inv, Apply;
    }
  }

  /** A call whose session object had been replaced at some moment of the run changes
      nothing in the store when it commits, however much later. */
  lemma {:induction false} LateCommitIsLost(cfg: Config, actions: seq<Action>, n: nat, op: nat)
    requires n < |actions| && actions[|actions| - 1] == Finish(op) && Run(cfg, actions).Some?
    requires Run(cfg, actions[..n]).Some?
    requires var s := Run(cfg, actions[..n]).value;
      && op in s.ops && s.ops[op].ticket.key in s.store.sessions
      && s.store.sessions[s.ops[op].ticket.key].id > s.ops[op].ticket.id
    ensures Run(cfg, actions).value.store == Run(cfg, actions[..|actions| - 1]).value.store
  {
    var before := actions[..|actions| - 1];
    assert before[..n] == actions[..n];
    TicketStays(cfg, before, n, op);
    RefsOnlyGrow(cfg, before, n, Run(cfg, actions[..n]).value.ops[op].ticket.key);
    hide Inv;
  }

  lemma {:induction false} TicketStays(cfg: Config, actions: seq<Action>, n: nat, op: nat)
    requires n <= |actions| && Run(cfg, actions).Some? && Run(cfg, actions[..n]).Some?
    requires op in Run(cfg, actions[..n]).value.ops
    ensures var s, s' := Run(cfg, actions[..n]).value, Run(cfg, actions).value;
      op in s'.ops && s'.ops[op].ticket == s.ops[op].ticket
  {
    if n == |actions| {
      assert actions[..n] == actions;
    } else {
      var before := actions[..|actions| - 1];
      assert actions[..n] == before[..n];
      TicketStays(cfg, before, n, op);
      hide Merge, Routing.Destinations, Routing.Recipients, Deliver;
    }
  }
}
