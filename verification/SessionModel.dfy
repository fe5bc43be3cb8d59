/** The session store as values: what `Upsert` does under the lock before it
    delivers (`Begin`), what it sends to one destination (`Deliver`) and what it
    writes back afterwards (`Commit`). Two sessions are the same object exactly
    when they carry the same `id`. */
module SessionModel {
  import opened Domain
  import Content
  import Routing

  datatype Session = Session(id: nat, perApp: map<string, Event>, refs: map<RefKey, string>, lastFlush: int)

  /** `nextId` numbers the next session object to be created. */
  datatype Store = Store(sessions: map<SessionKey, Session>, nextId: nat)

  /** What the first critical section hands to the rest of `Upsert`. */
  datatype Ticket = Ticket(
    key: SessionKey,
    id: nat,
    at: int,
    changed: bool,
    perApp: map<string, Event>,
    refs: map<RefKey, string>,
    duplicates: seq<Event>)

  datatype Merged = Merged(perApp: map<string, Event>, duplicates: seq<Event>, changed: bool)

  predicate IsDuplicate(perApp: map<string, Event>, ev: Event) {
    ev.appName in perApp && Content.Key(perApp[ev.appName]) == Content.Key(ev)
  }

  function MergeOne(m: Merged, ev: Event): Merged {
    if IsDuplicate(m.perApp, ev)
    then m.(duplicates := m.duplicates + [ev])
    else Merged(m.perApp[ev.appName := ev], m.duplicates, true)
  }

  /** The loop over the events of one `Upsert`. */
  function Merge(perApp: map<string, Event>, events: seq<Event>): Merged {
    if events == [] then Merged(perApp, [], false)
    else MergeOne(Merge(perApp, events[..|events| - 1]), events[|events| - 1])
  }

  /** The session that takes the events: the stored one, or a new one when there is
      none or it has been silent for more than the TTL. */
  function Current(ttl: int, s: Store, now: int, key: SessionKey): Session {
    if key !in s.sessions || now - s.sessions[key].lastFlush > ttl
    then Session(s.nextId, map[], map[], now)
    else s.sessions[key]
  }

  function Begin(ttl: int, s: Store, now: int, key: SessionKey, events: seq<Event>): (Store, Ticket) {
    var cur := Current(ttl, s, now, key);
    var m := Merge(cur.perApp, events);
    var cur' := Session(cur.id, m.perApp, cur.refs, now);
    (Store(s.sessions[key := cur'], if cur.id == s.nextId then s.nextId + 1 else s.nextId),
     Ticket(key, cur.id, now, m.changed, m.perApp, cur.refs, m.duplicates))
  }

  /** The second critical section: refs go into the session only if it is still the
      one the ticket was taken from. */
  function Commit(s: Store, key: SessionKey, id: nat, newRefs: map<RefKey, string>): Store {
    if key in s.sessions && s.sessions[key].id == id
    then s.(sessions := s.sessions[key := s.sessions[key].(refs := s.sessions[key].refs + newRefs)])
    else s
  }

  // ----- delivery to one destination -----

  /** What resolving a backend name yields, by the capabilities it implements, each
      with the answer its call would give. */
  datatype Resolved =
    | Unresolved
    | Notifier(notify: Outcome<string>)
    | Neither
    | PostOnly(post: Outcome<string>)
    | PostAndUpdate(post: Outcome<string>, update: Outcome<()>)

  datatype Call =
    | Notify(to: RefKey, ref: string, content: Notification)
    | Update(to: RefKey, ref: string, content: Notification)
    | Post(to: RefKey, content: Notification)
    | Reply(to: RefKey, ref: string, about: Event, at: int)

  datatype Attempt = Attempt(calls: seq<Call>, newRef: Option<string>, failed: bool)

  type Builder = map<string, Event> -> Outcome<Notification>

  function Kept(answer: Outcome<string>): Option<string> {
    if answer.Ok? then Some(answer.value) else None
  }

  /** One round of the delivery loop of `Upsert`. */
  function Deliver(build: Builder, apps: map<string, Event>, to: RefKey, refs: map<RefKey, string>,
                   r: Resolved): Attempt {
    var built := build(apps);
    if built.Failed? then Attempt([], None, true)
    else
      var n := built.value;
      match r
      case Unresolved => Attempt([], None, true)
      case Notifier(answer) =>
        Attempt([Notify(to, if to in refs then refs[to] else "", n)], Kept(answer), answer.Failed?)
      case Neither => Attempt([], None, true)
      case PostOnly(answer) => Attempt([Post(to, n)], None, answer.Failed?)
      case PostAndUpdate(posted, updated) =>
        if to in refs then Attempt([Update(to, refs[to], n)], None, updated.Failed?)
        else Attempt([Post(to, n)], Kept(posted), posted.Failed?)
  }

  // ----- thread replies to duplicates -----

  datatype Threader = NoBackend | CannotReply | CanReply

  /** The replies attempted for one duplicate event, one per listed recipient that
      has a message to reply under. */
  function RepliesTo(ev: Event, names: seq<string>, refs: map<RefKey, string>, at: int): seq<Call> {
    if names == [] then [] else
      RepliesTo(ev, names[..|names| - 1], refs, at) + ReplyAt(ev, RefKey(ev.backend, names[|names| - 1]), refs, at)
  }

  function ReplyAt(ev: Event, to: RefKey, refs: map<RefKey, string>, at: int): seq<Call> {
    if to in refs then [Reply(to, refs[to], ev, at)] else []
  }

  function RepliesFor(ev: Event, refs: map<RefKey, string>, at: int, threader: Threader): seq<Call> {
    if threader.CanReply? then RepliesTo(ev, Routing.Recipients(ev.recipient), refs, at) else []
  }

  /** The thread-reply loop; `threader(i)` is what the backend of duplicate `i` can do. */
  function Replies(duplicates: seq<Event>, refs: map<RefKey, string>, at: int, threader: nat -> Threader): seq<Call> {
    if duplicates == [] then [] else
      var i := |duplicates| - 1;
      Replies(duplicates[..i], refs, at, threader) + RepliesFor(duplicates[i], refs, at, threader(i))
  }

  // ----- delivery to all destinations -----

  /** What one changed `Upsert` does for a destination: it depends on the apps routed
      there, on the ref of that destination and on its backend's answer alone. */
  ghost function Expected(build: Builder, perApp: map<string, Event>, refs: map<RefKey, string>,
                          answer: Resolved, to: RefKey): Attempt
  {
    if Routing.Names(perApp, to) then Deliver(build, Routing.AppsFor(perApp, to), to, refs, answer)
    else Attempt([], None, false)
  }

  function Find(refs: map<RefKey, string>, to: RefKey): Option<string> {
    if to in refs then Some(refs[to]) else None
  }

  ghost predicate Served(sent: seq<Call>, newRefs: map<RefKey, string>, failed: set<RefKey>, to: RefKey, e: Attempt) {
    CallsTo(sent, to) == e.calls && Find(newRefs, to) == e.newRef && (to in failed <==> e.failed)
  }

  /** What is due to a destination once all but those of `left` have been served. */
  ghost function Due(build: Builder, perApp: map<string, Event>, refs: map<RefKey, string>, answers: RefKey -> Resolved,
                     left: set<RefKey>, to: RefKey): Attempt
  {
    if to in left then Attempt([], None, false) else Expected(build, perApp, refs, answers(to), to)
  }

  /** The destinations of `left` have not been served; each other one got exactly
      what was expected for it, in some order among destinations. */
  ghost predicate DeliveredExcept(build: Builder, perApp: map<string, Event>, refs: map<RefKey, string>,
                                  answers: RefKey -> Resolved,
                                  left: set<RefKey>, sent: seq<Call>, newRefs: map<RefKey, string>, failed: set<RefKey>)
  {
    forall to :: Served(sent, newRefs, failed, to, Due(build, perApp, refs, answers, left, to))
  }

  /** `sent`, `newRefs` and `failed` are what the whole delivery loop produces. */
  ghost predicate Delivered(build: Builder, perApp: map<string, Event>, refs: map<RefKey, string>,
                            answers: RefKey -> Resolved,
                            sent: seq<Call>, newRefs: map<RefKey, string>, failed: set<RefKey>)
  {
    DeliveredExcept(build, perApp, refs, answers, {}, sent, newRefs, failed)
  }

  /** Before the loop, with all named destinations still to serve. */
  lemma NothingDelivered(build: Builder, perApp: map<string, Event>, refs: map<RefKey, string>,
                         answers: RefKey -> Resolved, left: set<RefKey>)
    requires forall to :: to in left <==> Routing.Names(perApp, to)
    ensures DeliveredExcept(build, perApp, refs, answers, left, [], map[], {})
  {
    forall to ensures Served([], map[], {}, to, Due(build, perApp, refs, answers, left, to)) {
      assert to in left <==> Routing.Names(perApp, to);
    }
  }

  /** Serving one more destination leaves every other as it was. */
  lemma ServeOne(build: Builder, perApp: map<string, Event>, refs: map<RefKey, string>, answers: RefKey -> Resolved,
                 left: set<RefKey>, sent: seq<Call>, newRefs: map<RefKey, string>, failed: set<RefKey>,
                 to: RefKey, e: Attempt)
    requires DeliveredExcept(build, perApp, refs, answers, left, sent, newRefs, failed)
    requires to in left && e == Expected(build, perApp, refs, answers(to), to)
    ensures DeliveredExcept(build, perApp, refs, answers, left - {to}, sent + e.calls,
              if e.newRef.Some? then newRefs[to := e.newRef.value] else newRefs,
              if e.failed then failed + {to} else failed)
  {
    ExpectedCallsAreTo(build, perApp, refs, answers(to), to);
    hide CallsTo, Expected;
    var newRefs' := if e.newRef.Some? then newRefs[to := e.newRef.value] else newRefs;
    var failed' := if e.failed then failed + {to} else failed;
    forall other
      ensures Served(sent + e.calls, newRefs', failed', other, Due(build, perApp, refs, answers, left - {to}, other))
    {
      assert Served(sent, newRefs, failed, other, Due(build, perApp, refs, answers, left, other));
      CallsToAppend(sent, e.calls, other);
    }
  }

  /** A round for `to` calls nobody else. */
  lemma ExpectedCallsAreTo(build: Builder, perApp: map<string, Event>, refs: map<RefKey, string>, r: Resolved,
                           to: RefKey)
    ensures forall other :: CallsTo(Expected(build, perApp, refs, r, to).calls, other)
                         == if other == to then Expected(build, perApp, refs, r, to).calls else []
  {
  }

  /** The calls made to one destination. */
  function CallsTo(calls: seq<Call>, to: RefKey): seq<Call> {
    if calls == [] then [] else
      var last := calls[|calls| - 1];
      CallsTo(calls[..|calls| - 1], to) + (if last.to == to then [last] else [])
  }

  lemma {:induction false} CallsToAppend(a: seq<Call>, b: seq<Call>, to: RefKey)
    ensures CallsTo(a + b, to) == CallsTo(a, to) + CallsTo(b, to)
  {
    if b == [] {
      assert a + b == a;
    } else {
      CallsToAppend(a, b[..|b| - 1], to);
      assert (a + b)[..|a + b| - 1] == a + b[..|b| - 1];
    }
  }

  // ----- facts about merging -----

  ghost predicate Seen(events: seq<Event>, app: string) {
    exists ev :: ev in events && ev.appName == app
  }

  /** Apps with an entry are those that had one and those of the batch; each entry is
      the old one or an event of the batch; and a batch reported as unchanged has
      left every entry alone and consists of duplicates. */
  ghost predicate MergeOk(perApp: map<string, Event>, events: seq<Event>, m: Merged) {
    && (forall app :: app in m.perApp <==> app in perApp || Seen(events, app))
    && (forall app :: app in m.perApp ==>
          || (app in perApp && m.perApp[app] == perApp[app])
          || (m.perApp[app] in events && m.perApp[app].appName == app))
    && (if m.changed then |m.duplicates| < |events| else m.perApp == perApp && m.duplicates == events)
  }

  lemma SeenSnoc(events: seq<Event>, ev: Event, app: string)
    ensures Seen(events + [ev], app) <==> Seen(events, app) || ev.appName == app
  {
    assert ev in events + [ev];
    if Seen(events, app) {
      var e :| e in events && e.appName == app;
      assert e in events + [ev];
    }
  }

  lemma MergeOneOk(perApp: map<string, Event>, events: seq<Event>, m: Merged, ev: Event)
    requires MergeOk(perApp, events, m)
    ensures MergeOk(perApp, events + [ev], MergeOne(m, ev))
  {
    forall app ensures Seen(events + [ev], app) <==> Seen(events, app) || ev.appName == app {
      SeenSnoc(events, ev, app);
    }
    assert IsDuplicate(m.perApp, ev) ==> ev.appName in m.perApp;
    hide IsDuplicate, Seen;
    if IsDuplicate(m.perApp, ev) {
      assert m.duplicates == events ==> m.duplicates + [ev] == events + [ev];
    } else {
      assert MergeOne(m, ev).changed;
    }
  }

  lemma {:induction false} MergeEffect(perApp: map<string, Event>, events: seq<Event>)
    ensures MergeOk(perApp, events, Merge(perApp, events))
  {
    if events == [] {
    } else {
      var init, last := events[..|events| - 1], events[|events| - 1];
      MergeEffect(perApp, init);
      MergeOneOk(perApp, init, Merge(perApp, init), last);
      assert events == init + [last];
    }
  }

  /** The entry of an app agrees with the last event processed for it. */
  lemma {:induction false} MergeKeepsLast(perApp: map<string, Event>, events: seq<Event>, i: nat)
    requires i < |events|
    requires forall j :: i < j < |events| ==> events[j].appName != events[i].appName
    ensures var m := Merge(perApp, events);
      events[i].appName in m.perApp && Content.Key(m.perApp[events[i].appName]) == Content.Key(events[i])
  {
    hide Content.Key;
    if i < |events| - 1 {
      MergeKeepsLast(perApp, events[..|events| - 1], i);
    }
  }

  /** Merging two batches one after the other is merging them as one. */
  lemma {:induction false} MergeAppend(perApp: map<string, Event>, a: seq<Event>, b: seq<Event>)
    ensures Merge(perApp, a + b).perApp == Merge(Merge(perApp, a).perApp, b).perApp
  {
    hide IsDuplicate;
    if b == [] {
      assert a + b == a;
    } else {
      var init, last := b[..|b| - 1], b[|b| - 1];
      MergeAppend(perApp, a, init);
      assert (a + b)[..|a + b| - 1] == a + init && (a + b)[|a + b| - 1] == last;
      assert Merge(perApp, a + b) == MergeOne(Merge(perApp, a + init), last);
      assert Merge(Merge(perApp, a).perApp, b) == MergeOne(Merge(Merge(perApp, a).perApp, init), last);
    }
  }

  // ----- which events of a batch are set aside, and which are stored -----

  /** What event `i` of a batch is compared with: the last earlier event of its app in the
      batch, or the stored entry if there is none. */
  function Prior(perApp: map<string, Event>, events: seq<Event>, app: string): Option<Event> {
    if events == [] then (if app in perApp then Some(perApp[app]) else None)
    else if events[|events| - 1].appName == app then Some(events[|events| - 1])
    else Prior(perApp, events[..|events| - 1], app)
  }

  predicate Repeats(perApp: map<string, Event>, before: seq<Event>, ev: Event) {
    var prior := Prior(perApp, before, ev.appName);
    prior.Some? && Content.Key(prior.value) == Content.Key(ev)
  }

  /** The events of a batch that repeat what came before them, in order. */
  function Repeated(perApp: map<string, Event>, events: seq<Event>): seq<Event> {
    if events == [] then []
    else
      var before, ev := events[..|events| - 1], events[|events| - 1];
      Repeated(perApp, before) + (if Repeats(perApp, before, ev) then [ev] else [])
  }

  /** The last event of an app that does not repeat, or the stored entry. */
  function LastNews(perApp: map<string, Event>, events: seq<Event>, app: string): Option<Event> {
    if events == [] then (if app in perApp then Some(perApp[app]) else None)
    else
      var before, ev := events[..|events| - 1], events[|events| - 1];
      if ev.appName == app && !Repeats(perApp, before, ev) then Some(ev) else LastNews(perApp, before, app)
  }

  /** What the merged entry of an app and the event before have in common: the content. */
  ghost predicate SameContent(perApp: map<string, Event>, events: seq<Event>, m: map<string, Event>, app: string) {
    var prior := Prior(perApp, events, app);
    (app in m <==> prior.Some?) && (app in m ==> Content.Key(m[app]) == Content.Key(prior.value))
  }

  lemma {:induction false} EntryHasPriorContent(perApp: map<string, Event>, events: seq<Event>, app: string)
    ensures SameContent(perApp, events, Merge(perApp, events).perApp, app)
  {
    hide Content.Key;
    if events == [] {
    } else {
      EntryHasPriorContent(perApp, events[..|events| - 1], app);
    }
  }

  /** For every batch, changed or not: set aside are, in order and each as often as it
      comes, exactly the events whose content is that of the last earlier event of their
      app, or of the stored entry; every app is left with its last event that is not one
      of these, or its stored entry; and the batch is a change iff not all are set aside. */
  lemma {:induction false} MergedExactly(perApp: map<string, Event>, events: seq<Event>)
    ensures var m := Merge(perApp, events);
      && m.duplicates == Repeated(perApp, events)
      && (m.changed <==> |Repeated(perApp, events)| < |events|)
      && (forall app :: FindEvent(m.perApp, app) == LastNews(perApp, events, app))
  {
    hide Content.Key;
    if events == [] {
    } else {
      var before, ev := events[..|events| - 1], events[|events| - 1];
      MergedExactly(perApp, before);
      NoMoreThanAll(perApp, before);
      EntryHasPriorContent(perApp, before, ev.appName);
      assert IsDuplicate(Merge(perApp, before).perApp, ev) <==> Repeats(perApp, before, ev);
      hide IsDuplicate, Repeats;
    }
  }

  function FindEvent(perApp: map<string, Event>, app: string): Option<Event> {
    if app in perApp then Some(perApp[app]) else None
  }

  lemma {:induction false} NoMoreThanAll(perApp: map<string, Event>, events: seq<Event>)
    ensures |Repeated(perApp, events)| <= |events|
  {
    hide Repeats;
    if events == [] {
    } else {
      NoMoreThanAll(perApp, events[..|events| - 1]);
    }
  }

  /** The same on the five fields, when no separator can blur them. */
  lemma RepeatsIff(perApp: map<string, Event>, before: seq<Event>, ev: Event)
    requires Content.HeadPlain(ev)
    requires forall prior :: Prior(perApp, before, ev.appName) == Some(prior) ==> Content.HeadPlain(prior)
    ensures Repeats(perApp, before, ev) <==>
      Prior(perApp, before, ev.appName).Some? && Content.Same(Prior(perApp, before, ev.appName).value, ev)
  {
    if Prior(perApp, before, ev.appName).Some? {
      Content.KeyIsInjective(Prior(perApp, before, ev.appName).value, ev);
    }
    hide Content.Key;
  }

  // ----- what a commit changes -----

  /** A commit gives the session object it started from the new refs, each in place of an
      older one; it changes nothing else, and nothing at all if that object is gone. */
  lemma CommitRenews(s: Store, key: SessionKey, id: nat, newRefs: map<RefKey, string>, k: SessionKey, to: RefKey)
    requires k in s.sessions
    ensures var s' := Commit(s, key, id, newRefs);
      && s'.nextId == s.nextId && s'.sessions.Keys == s.sessions.Keys
      && var before, after := s.sessions[k], s'.sessions[k];
      && after == before.(refs := after.refs)
      && Find(after.refs, to) ==
           if k == key && before.id == id && to in newRefs then Some(newRefs[to]) else Find(before.refs, to)
  {
  }
}
