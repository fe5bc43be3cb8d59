/** The session publisher as the program has it: session objects updated in place
    under the lock, deliveries made without it. Every method is tied to the step of
    `SessionModel` it performs. */
module SessionPublishing {
  import opened Domain
  import Content
  import Routing
  import SessionModel

  class SessionState {
    ghost const id: nat
    var perApp: map<string, Event>
    var refs: map<RefKey, string>
    var lastFlush: int

    constructor (ghost id: nat, now: int)
      ensures Value() == SessionModel.Session(id, map[], map[], now)
    {
      this.id := id;
      perApp, refs, lastFlush := map[], map[], now;
    }

    ghost function Value(): SessionModel.Session
      reads this
    {
      SessionModel.Session(id, perApp, refs, lastFlush)
    }

    /** The loop over the events of one batch. */
    method Merge(events: seq<Event>) returns (duplicates: seq<Event>, changed: bool)
      modifies this`perApp
      ensures SessionModel.Merged(perApp, duplicates, changed) == SessionModel.Merge(old(perApp), events)
    {
      duplicates, changed := [], false;
      for i := 0 to |events|
        invariant SessionModel.Merged(perApp, duplicates, changed) == SessionModel.Merge(old(perApp), events[..i])
      {
        hide Content.Key;
        var ev := events[i];
        assert events[..i + 1][..i] == events[..i];
        if ev.appName in perApp && Content.Key(perApp[ev.appName]) == Content.Key(ev) {
          duplicates := duplicates + [ev];
          continue;
        }
        perApp := perApp[ev.appName := ev];
        changed := true;
      }
      assert events[..|events|] == events;
    }

    /** Merge a batch, take the snapshot and stamp the session. */
    method Use(now: int, events: seq<Event>)
      returns (changed: bool, perApp: map<string, Event>, refs: map<RefKey, string>, duplicates: seq<Event>)
      modifies this
      ensures SessionModel.Merged(perApp, duplicates, changed) == SessionModel.Merge(old(this.perApp), events)
      ensures refs == old(this.refs)
      ensures Value() == SessionModel.Session(id, perApp, refs, now)
    {
      hide SessionModel.Merge;
      duplicates, changed := Merge(events);
      perApp, refs := this.perApp, this.refs;
      lastFlush := now;
    }
  }

  class SessionPublisher {
    const ttl: int
    const replyToDuplicates: bool
    const build: SessionModel.Builder
    var sessions: map<SessionKey, SessionState>

    /** Every session object ever made; an object's `id` is its place here. */
    ghost var created: seq<SessionState>

    constructor (ttl: int, duplicateAction: string, build: SessionModel.Builder)
      ensures Valid() && Value() == SessionModel.Store(map[], 0)
      ensures this.ttl == ttl && this.build == build && this.replyToDuplicates == (duplicateAction == "thread")
    {
      this.ttl := ttl;
      this.replyToDuplicates := duplicateAction == "thread";
      this.build := build;
      sessions := map[];
      created := [];
    }

    ghost predicate Valid()
      reads this
    {
      && (forall i :: 0 <= i < |created| ==> created[i].id == i)
      && (forall k :: k in sessions ==> sessions[k] in created)
      && (forall k, l :: k in sessions && l in sessions && k != l ==> sessions[k] != sessions[l])
    }

    ghost function Value(): SessionModel.Store
      reads this, sessions.Values
    {
      SessionModel.Store(map k | k in sessions :: sessions[k].Value(), |created|)
    }

    lemma ValueIs(after: SessionModel.Store)
      requires sessions.Keys == after.sessions.Keys && |created| == after.nextId
      requires forall k :: k in sessions ==> sessions[k].Value() == after.sessions[k]
      ensures Value() == after
    {
    }

    /** The store after the first critical section, put together from its parts. */
    lemma StoreIs(before: SessionModel.Store, now: int, key: SessionKey, events: seq<Event>, st: SessionState)
      requires sessions.Keys == before.sessions.Keys + {key} && sessions[key] == st
      requires var cur := SessionModel.Current(ttl, before, now, key);
        && st.Value() == SessionModel.Session(cur.id, SessionModel.Merge(cur.perApp, events).perApp, cur.refs, now)
        && |created| == if cur.id == before.nextId then before.nextId + 1 else before.nextId
      requires forall k :: k in sessions && k != key ==> sessions[k].Value() == before.sessions[k]
      ensures Value() == SessionModel.Begin(ttl, before, now, key, events).0
      ensures var m := SessionModel.Merge(SessionModel.Current(ttl, before, now, key).perApp, events);
        SessionModel.Begin(ttl, before, now, key, events).1
          == SessionModel.Ticket(key, st.id, now, m.changed, st.perApp, st.refs, m.duplicates)
    {
      hide SessionModel.Merge, SessionModel.Current;
      ValueIs(SessionModel.Begin(ttl, before, now, key, events).0);
    }

    /** Find the session of a key, or replace a missing or expired one. */
    method Open(now: int, key: SessionKey) returns (st: SessionState)
      requires Valid()
      modifies this
      ensures Valid() && old(created) <= created && key in sessions && sessions[key] == st
      ensures fresh(sessions.Values - old(sessions.Values))
      ensures st.Value() == SessionModel.Current(ttl, old(Value()), now, key)
      ensures |created| == if st.id == old(|created|) then old(|created|) + 1 else old(|created|)
      ensures sessions.Keys == old(sessions.Keys) + {key}
      ensures forall k :: k in sessions && k != key ==> k in old(sessions) && sessions[k] == old(sessions[k])
    {
      if key !in sessions || now - sessions[key].lastFlush > ttl {
        st := new SessionState(|created|, now);
        created := created + [st];
        sessions := sessions[key := st];
      } else {
        st := sessions[key];
      }
    }

    /** The first critical section of `Upsert`. */
    method Begin(now: int, key: SessionKey, events: seq<Event>)
      returns (st: SessionState, changed: bool, perApp: map<string, Event>, refs: map<RefKey, string>,
               duplicates: seq<Event>)
      requires Valid()
      modifies this, sessions.Values
      ensures Valid() && st in created && fresh(sessions.Values - old(sessions.Values))
      ensures (Value(), SessionModel.Ticket(key, st.id, now, changed, perApp, refs, duplicates))
           == SessionModel.Begin(ttl, old(Value()), now, key, events)
    {
      hide SessionModel.Merge, SessionModel.Current;
      ghost var before := Value();
      st := Open(now, key);
      changed, perApp, refs, duplicates := st.Use(now, events);
      hide SessionModel.Begin;
      StoreIs(before, now, key, events, st);
    }

    /** The second critical section: `cur == st` compares objects. */
    method Commit(key: SessionKey, st: SessionState, newRefs: map<RefKey, string>)
      requires Valid() && st in created
      modifies sessions.Values
      ensures Valid()
      ensures Value() == SessionModel.Commit(old(Value()), key, st.id, newRefs)
    {
      ghost var before := Value();
      if key in sessions && sessions[key] == st {
        st.refs := st.refs + newRefs;
      }
      ValueIs(SessionModel.Commit(before, key, st.id, newRefs));
    }

    /** One round of the delivery loop, with the early exits of `Upsert`. */
    method DeliverOne(apps: map<string, Event>, to: RefKey, refs: map<RefKey, string>, r: SessionModel.Resolved)
      returns (sent: seq<SessionModel.Call>, newRef: Option<string>, failed: bool)
      ensures SessionModel.Attempt(sent, newRef, failed) == SessionModel.Deliver(build, apps, to, refs, r)
    {
      sent, newRef, failed := [], None, false;
      var built := build(apps);
      if built.Failed? {
        return [], None, true;
      }
      if r.Unresolved? {
        return [], None, true;
      }
      if r.Notifier? {
        sent := [SessionModel.Notify(to, if to in refs then refs[to] else "", built.value)];
        if r.notify.Failed? {
          return sent, None, true;
        }
        return sent, Some(r.notify.value), false;
      }
      if r.Neither? {
        return [], None, true;
      }
      var canUpdate := r.PostAndUpdate?;
      if canUpdate {
        if to in refs {
          sent := [SessionModel.Update(to, refs[to], built.value)];
          return sent, None, r.update.Failed?;
        }
      }
      sent := [SessionModel.Post(to, built.value)];
      if r.post.Failed? {
        return sent, None, true;
      }
      if canUpdate {
        newRef := Some(r.post.value);
      }
    }

    /** The delivery loop, over destinations in whatever order Go's map gives. */
    method DeliverAll(perApp: map<string, Event>, refs: map<RefKey, string>, answers: RefKey -> SessionModel.Resolved)
      returns (sent: seq<SessionModel.Call>, newRefs: map<RefKey, string>, failed: set<RefKey>)
      ensures SessionModel.Delivered(build, perApp, refs, answers, sent, newRefs, failed)
    {
      var groups := Routing.GroupApps(perApp);
      sent, newRefs, failed := [], map[], {};
      var left := groups.Keys;
      SessionModel.NothingDelivered(build, perApp, refs, answers, left);
      while left != {}
        invariant left <= groups.Keys
        invariant SessionModel.DeliveredExcept(build, perApp, refs, answers, left, sent, newRefs, failed)
        decreases |left|
      {
        hide SessionModel.DeliveredExcept, Routing.AppsFor;
        var to :| to in left;
        var calls, newRef, bad := DeliverOne(groups[to], to, refs, answers(to));
        SessionModel.ServeOne(build, perApp, refs, answers, left, sent, newRefs, failed, to,
                              SessionModel.Attempt(calls, newRef, bad));
        left := left - {to};
        sent := sent + calls;
        if newRef.Some? {
          newRefs := newRefs[to := newRef.value];
        }
        if bad {
          failed := failed + {to};
        }
      }
    }

    /** The inner loop of the thread replies. */
    method ReplyTo(ev: Event, refs: map<RefKey, string>, at: int) returns (sent: seq<SessionModel.Call>)
      ensures sent == SessionModel.RepliesTo(ev, Routing.Recipients(ev.recipient), refs, at)
    {
      var names := Routing.SplitRecipients(ev.recipient);
      sent := [];
      hide Routing.Recipients;
      for i := 0 to |names|
        invariant sent == SessionModel.RepliesTo(ev, names[..i], refs, at)
      {
        assert names[..i + 1][..i] == names[..i];
        var to := RefKey(ev.backend, names[i]);
        if to !in refs {
          continue;
        }
        sent := sent + [SessionModel.Reply(to, refs[to], ev, at)];
      }
      assert names[..|names|] == names;
    }

    /** Replies under the known messages for the events set aside as duplicates. */
    method SendReplies(duplicates: seq<Event>, refs: map<RefKey, string>, at: int,
                       threader: nat -> SessionModel.Threader)
      returns (sent: seq<SessionModel.Call>)
      ensures sent == SessionModel.Replies(duplicates, refs, at, threader)
    {
      sent := [];
      for i := 0 to |duplicates|
        invariant sent == SessionModel.Replies(duplicates[..i], refs, at, threader)
      {
        hide SessionModel.RepliesTo, Routing.Recipients;
        assert duplicates[..i + 1][..i] == duplicates[..i];
        if !threader(i).CanReply? {
          continue;
        }
        var more := ReplyTo(duplicates[i], refs, at);
        sent := sent + more;
      }
      assert duplicates[..|duplicates|] == duplicates;
    }

    /** `Upsert` when no other call comes between its critical sections. */
    method Upsert(now: int, key: SessionKey, events: seq<Event>,
                  answers: RefKey -> SessionModel.Resolved, threader: nat -> SessionModel.Threader)
      returns (sent: seq<SessionModel.Call>, replies: seq<SessionModel.Call>, newRefs: map<RefKey, string>,
               failed: set<RefKey>)
      requires Valid()
      modifies this, sessions.Values
      ensures Valid()
      ensures events == [] ==> Value() == old(Value()) && sent == replies == []
      ensures events != [] ==>
        var (s, t) := SessionModel.Begin(ttl, old(Value()), now, key, events);
        && Value() == SessionModel.Commit(s, key, t.id, newRefs)
        && (if t.changed then SessionModel.Delivered(build, t.perApp, t.refs, answers, sent, newRefs, failed)
            else sent == [] && newRefs == map[] && failed == {})
        && replies == if replyToDuplicates then SessionModel.Replies(t.duplicates, t.refs, now, threader) else []
      ensures var cur := SessionModel.Current(ttl, old(Value()), now, key);
        events != [] && replyToDuplicates ==>
          replies == SessionModel.Replies(SessionModel.Repeated(cur.perApp, events), cur.refs, now, threader)
    {
      hide SessionModel.Merge, SessionModel.Replies, SessionModel.Delivered, SessionModel.Current;
      hide SessionModel.Repeated;
      sent, replies, newRefs, failed := [], [], map[], {};
      if |events| == 0 {
        return;
      }
      SessionModel.MergedExactly(SessionModel.Current(ttl, Value(), now, key).perApp, events);
      var st, changed, perApp, refs, duplicates := Begin(now, key, events);
      if changed {
        sent, newRefs, failed := DeliverAll(perApp, refs, answers);
      }
      Commit(key, st, newRefs);
      if replyToDuplicates {
        replies := SendReplies(duplicates, refs, now, threader);
      }
    }
  }
}
