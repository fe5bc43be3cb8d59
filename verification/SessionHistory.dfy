/** What a session holds, told from its history alone, over runs in which first and
    second critical sections of any number of `Upsert` calls interleave. */
module SessionHistory {
  import opened Domain
  import opened SessionModel
  import Content

  datatype Step =
    | Began(at: int, key: SessionKey, events: seq<Event>)
    | Committed(key: SessionKey, id: nat, newRefs: map<RefKey, string>)

  function Taken(ttl: int, s: Store, step: Step): Store {
    match step
    case Began(at, key, events) => Begin(ttl, s, at, key, events).0
    case Committed(key, id, newRefs) => Commit(s, key, id, newRefs)
  }

  function Run(ttl: int, steps: seq<Step>): Store {
    if steps == [] then Store(map[], 0)
    else
      Taken(ttl, Run(ttl, steps[..|steps| - 1]), steps[|steps| - 1])
  }

  /** The batches given to one key, with their times. */
  datatype Use = Use(at: int, events: seq<Event>)

  function Uses(steps: seq<Step>, key: SessionKey): seq<Use> {
    if steps == [] then [] else
      var last := steps[|steps| - 1];
      Uses(steps[..|steps| - 1], key) + (if last.Began? && last.key == key then [Use(last.at, last.events)] else [])
  }

  /** Where the current incarnation starts: the latest use that came more than the
      TTL after the one before it, or the first use. */
  function Start(ttl: int, uses: seq<Use>): (j: nat)
    requires uses != []
    ensures j < |uses|
  {
    var n := |uses|;
    if n == 1 || uses[n - 1].at - uses[n - 2].at > ttl then n - 1 else Start(ttl, uses[..n - 1])
  }

  function AllEvents(uses: seq<Use>): seq<Event> {
    if uses == [] then [] else AllEvents(uses[..|uses| - 1]) + uses[|uses| - 1].events
  }

  /** The incarnation is a maximal run of uses without a gap longer than the TTL. */
  lemma {:induction false} StartsAfterAGap(ttl: int, uses: seq<Use>)
    requires uses != []
    ensures forall i :: Start(ttl, uses) < i < |uses| ==> uses[i].at - uses[i - 1].at <= ttl
    ensures Start(ttl, uses) > 0 ==> uses[Start(ttl, uses)].at - uses[Start(ttl, uses) - 1].at > ttl
  {
    var n := |uses|;
    if n > 1 && uses[n - 1].at - uses[n - 2].at <= ttl {
      StartsAfterAGap(ttl, uses[..n - 1]);
    }
  }

  /** The stored session of `key` is what these uses, and nothing else, made of it. */
  ghost predicate Replays(ttl: int, s: Store, key: SessionKey, uses: seq<Use>) {
    && (key in s.sessions <==> uses != [])
    && (uses != [] ==>
          && s.sessions[key].lastFlush == uses[|uses| - 1].at
          && s.sessions[key].perApp == Merge(map[], AllEvents(uses[Start(ttl, uses)..])).perApp)
  }

  lemma AllEventsSnoc(uses: seq<Use>, use: Use)
    ensures AllEvents(uses + [use]) == AllEvents(uses) + use.events
  {
    assert (uses + [use])[..|uses|] == uses;
  }

  lemma NextUse(ttl: int, s: Store, key: SessionKey, uses: seq<Use>, use: Use)
    requires Replays(ttl, s, key, uses)
    ensures Replays(ttl, Begin(ttl, s, use.at, key, use.events).0, key, uses + [use])
  {
    hide IsDuplicate;
    var uses' := uses + [use];
    assert uses'[..|uses|] == uses;
    var j := Start(ttl, uses');
    AllEventsSnoc(uses[j..], use);
    assert uses'[j..] == uses[j..] + [use];
    assert Current(ttl, s, use.at, key).perApp == Merge(map[], AllEvents(uses[j..])).perApp by {
      if j == |uses| {
        assert uses[j..] == [];
      }
    }
    MergeAppend(map[], AllEvents(uses[j..]), use.events);
  }

  /** In every run the stored session is a replay of its incarnation: all batches
      since the last gap, merged in order from nothing. */
  lemma {:induction false} SessionIsReplay(ttl: int, steps: seq<Step>, key: SessionKey)
    ensures Replays(ttl, Run(ttl, steps), key, Uses(steps, key))
  {
    hide IsDuplicate;
    if steps == [] {
    } else {
      var before, last := steps[..|steps| - 1], steps[|steps| - 1];
      SessionIsReplay(ttl, before, key);
      if last.Began? && last.key == key {
        NextUse(ttl, Run(ttl, before), key, Uses(before, key), Use(last.at, last.events));
      } else {
        assert Uses(steps, key) == Uses(before, key);
      }
    }
  }

  /** Read off a replay: the apps of the session are exactly those seen in its
      incarnation, each entry is an event processed for that app, and it agrees on
      the hashed content with the last event processed for the app. */
  lemma SessionHoldsLatest(ttl: int, steps: seq<Step>, key: SessionKey)
    requires Uses(steps, key) != []
    ensures var uses := Uses(steps, key);
      var evs := AllEvents(uses[Start(ttl, uses)..]);
      var s := Run(ttl, steps);
      && key in s.sessions
      && var perApp := s.sessions[key].perApp;
      && (forall app :: app in perApp <==> Seen(evs, app))
      && (forall app :: app in perApp ==> perApp[app] in evs && perApp[app].appName == app)
      && (forall i :: 0 <= i < |evs| && (forall j :: i < j < |evs| ==> evs[j].appName != evs[i].appName) ==>
            evs[i].appName in perApp && Content.Key(perApp[evs[i].appName]) == Content.Key(evs[i]))
  {
    SessionIsReplay(ttl, steps, key);
    var uses := Uses(steps, key);
    var evs := AllEvents(uses[Start(ttl, uses)..]);
    MergeEffect(map[], evs);
    var perApp := Run(ttl, steps).sessions[key].perApp;
    forall i | 0 <= i < |evs| && forall j :: i < j < |evs| ==> evs[j].appName != evs[i].appName
      ensures evs[i].appName in perApp && Content.Key(perApp[evs[i].appName]) == Content.Key(evs[i])
    {
      MergeKeepsLast(map[], evs, i);
    }
  }

  // ----- identity of incarnations -----

  /** The session object each use of the key got. */
  function Ids(ttl: int, steps: seq<Step>, key: SessionKey): seq<nat> {
    if steps == [] then [] else
      var before, last := steps[..|steps| - 1], steps[|steps| - 1];
      Ids(ttl, before, key)
      + (if last.Began? && last.key == key
         then [Begin(ttl, Run(ttl, before), last.at, key, last.events).1.id]
         else [])
  }

  ghost predicate IdsOk(ttl: int, s: Store, key: SessionKey, uses: seq<Use>, ids: seq<nat>) {
    && |ids| == |uses|
    && (forall i :: 0 <= i < |ids| ==> ids[i] < s.nextId)
    && (key in s.sessions <==> uses != [])
    && (uses != [] ==> s.sessions[key].id == ids[|ids| - 1] && s.sessions[key].lastFlush == uses[|uses| - 1].at)
    && (forall i :: 0 < i < |ids| ==>
          if uses[i].at - uses[i - 1].at <= ttl then ids[i] == ids[i - 1] else ids[i - 1] < ids[i])
  }

  lemma NextId(ttl: int, s: Store, key: SessionKey, uses: seq<Use>, ids: seq<nat>, use: Use)
    requires IdsOk(ttl, s, key, uses, ids)
    ensures var (s', t) := Begin(ttl, s, use.at, key, use.events);
      IdsOk(ttl, s', key, uses + [use], ids + [t.id])
  {
    hide Merge;
  }

  /** Neither a use of another key nor a commit changes which object a key has. */
  lemma OtherStep(ttl: int, s: Store, key: SessionKey, uses: seq<Use>, ids: seq<nat>, step: Step)
    requires IdsOk(ttl, s, key, uses, ids) && (step.Began? ==> step.key != key)
    ensures IdsOk(ttl, Taken(ttl, s, step), key, uses, ids)
  {
    hide Merge;
    var s' := Taken(ttl, s, step);
    assert s.nextId <= s'.nextId && (key in s'.sessions <==> key in s.sessions);
    assert key in s.sessions ==>
        s'.sessions[key].id == s.sessions[key].id && s'.sessions[key].lastFlush == s.sessions[key].lastFlush;
    hide Taken;
  }

  lemma {:induction false} IdsFollowGaps(ttl: int, steps: seq<Step>, key: SessionKey)
    ensures IdsOk(ttl, Run(ttl, steps), key, Uses(steps, key), Ids(ttl, steps, key))
  {
    hide Merge;
    if steps == [] {
    } else {
      var before, last := steps[..|steps| - 1], steps[|steps| - 1];
      IdsFollowGaps(ttl, before, key);
      if last.Began? && last.key == key {
        NextId(ttl, Run(ttl, before), key, Uses(before, key), Ids(ttl, before, key), Use(last.at, last.events));
      } else {
        assert Uses(steps, key) == Uses(before, key) && Ids(ttl, steps, key) == Ids(ttl, before, key);
        OtherStep(ttl, Run(ttl, before), key, Uses(before, key), Ids(ttl, before, key), last);
      }
      hide IdsOk, Begin;
    }
  }

  /** Two uses of a key share a session object exactly when no gap between
      consecutive uses from the one to the other exceeds the TTL. */
  lemma {:induction false} SameIncarnationIff(ttl: int, steps: seq<Step>, key: SessionKey, i: nat, j: nat)
    requires i <= j < |Uses(steps, key)|
    ensures |Ids(ttl, steps, key)| == |Uses(steps, key)|
    ensures var ids, uses := Ids(ttl, steps, key), Uses(steps, key);
      ids[i] <= ids[j] && (ids[i] == ids[j] <==> forall m :: i < m <= j ==> uses[m].at - uses[m - 1].at <= ttl)
    decreases j
  {
    IdsFollowGaps(ttl, steps, key);
    if i < j {
      SameIncarnationIff(ttl, steps, key, i, j - 1);
    }
  }
}

/** Replaying a batch within the TTL. */
module Replay {
  import opened Domain
  import opened SessionModel
  import Content
  import Routing

  /** Events of the batch for the same app carry the same content. */
  predicate Agree(events: seq<Event>) {
    forall i, j :: 0 <= i < j < |events| && events[i].appName == events[j].appName ==>
      Content.Key(events[i]) == Content.Key(events[j])
  }

  lemma {:induction false} UnchangedIff(perApp: map<string, Event>, events: seq<Event>)
    ensures !Merge(perApp, events).changed <==> forall ev :: ev in events ==> IsDuplicate(perApp, ev)
  {
    hide Content.Key;
    if events == [] {
    } else {
      var init, last := events[..|events| - 1], events[|events| - 1];
      assert events == init + [last];
      UnchangedIff(perApp, init);
      MergeEffect(perApp, init);
    }
  }

  /** Merging a batch a second time changes nothing exactly when its events agree. */
  lemma MergedTwice(perApp: map<string, Event>, events: seq<Event>)
    ensures var once := Merge(perApp, events).perApp;
      !Merge(once, events).changed <==> Agree(events)
  {
    hide Content.Key;
    var once := Merge(perApp, events).perApp;
    UnchangedIff(once, events);
    if Agree(events) {
      forall ev | ev in events ensures IsDuplicate(once, ev) {
        var i :| 0 <= i < |events| && events[i] == ev;
        var last := LastOf(events, i);
        MergeKeepsLast(perApp, events, last);
      }
    }
    if forall ev :: ev in events ==> IsDuplicate(once, ev) {
      forall i, j | 0 <= i < j < |events| && events[i].appName == events[j].appName
        ensures Content.Key(events[i]) == Content.Key(events[j])
      {
        assert events[i] in events && events[j] in events;
      }
    }
  }

  /** The last event of the app of event `i`. */
  lemma LastOf(events: seq<Event>, i: nat) returns (last: nat)
    requires i < |events|
    ensures i <= last < |events| && events[last].appName == events[i].appName
    ensures forall j :: last < j < |events| ==> events[j].appName != events[last].appName
  {
    last := i;
    for j := i + 1 to |events|
      invariant i <= last < j && events[last].appName == events[i].appName
      invariant forall k :: last < k < j ==> events[k].appName != events[last].appName
    {
      if events[j].appName == events[i].appName { last := j; }
    }
  }

  /** An `Upsert` repeated within the TTL, with no other use of the key between,
      reports no change exactly when the batch agrees; then every event is a
      duplicate and the session and its apps are as before. */
  lemma ReplayIsUnchangedIff(ttl: int, s: Store, at: int, key: SessionKey, events: seq<Event>, between: Store,
                             again: int)
    requires var s1 := Begin(ttl, s, at, key, events).0;
      key in between.sessions && between.sessions[key] == s1.sessions[key].(refs := between.sessions[key].refs)
    requires again - at <= ttl
    ensures var t1 := Begin(ttl, s, at, key, events).1;
      var t2 := Begin(ttl, between, again, key, events).1;
      && (!t2.changed <==> Agree(events))
      && (!t2.changed ==> t2.duplicates == events && t2.perApp == t1.perApp)
      && t2.id == t1.id && t2.refs == between.sessions[key].refs
  {
    var cur := Current(ttl, s, at, key);
    MergedTwice(cur.perApp, events);
    MergeEffect(Merge(cur.perApp, events).perApp, events);
  }

  // ----- how many replies thread mode attempts -----

  function Count(names: seq<string>, name: string): nat {
    multiset(names)[name]
  }

  /** How often the duplicates list a destination, where the backend can reply. */
  function Listings(duplicates: seq<Event>, threader: nat -> Threader, to: RefKey): nat {
    if duplicates == [] then 0 else
      var i := |duplicates| - 1;
      Listings(duplicates[..i], threader, to)
      + if threader(i).CanReply? && duplicates[i].backend == to.backend
        then Count(Routing.Recipients(duplicates[i].recipient), to.recipient) else 0
  }

  predicate UnderMessage(c: Call, to: RefKey, refs: map<RefKey, string>, ev: Event, at: int) {
    to in refs && c == Reply(to, refs[to], ev, at)
  }

  lemma {:induction false} RepliesOfOne(ev: Event, names: seq<string>, refs: map<RefKey, string>, at: int, to: RefKey)
    ensures var mine := CallsTo(RepliesTo(ev, names, refs, at), to);
      && |mine| == (if to in refs && ev.backend == to.backend then Count(names, to.recipient) else 0)
      && (forall c :: c in mine ==> UnderMessage(c, to, refs, ev, at))
  {
    if names == [] {
    } else {
      var init, last := names[..|names| - 1], names[|names| - 1];
      assert names == init + [last];
      assert Count(names, to.recipient) == Count(init, to.recipient) + if last == to.recipient then 1 else 0;
      RepliesOfOne(ev, init, refs, at, to);
      OneReply(ev, RefKey(ev.backend, last), refs, at, to);
      CallsToAppend(RepliesTo(ev, init, refs, at), ReplyAt(ev, RefKey(ev.backend, last), refs, at), to);
      hide Count, CallsTo, UnderMessage, ReplyAt;
    }
  }

  lemma OneReply(ev: Event, rk: RefKey, refs: map<RefKey, string>, at: int, to: RefKey)
    ensures var mine := CallsTo(ReplyAt(ev, rk, refs, at), to);
      && |mine| == (if to in refs && rk == to then 1 else 0)
      && (forall c :: c in mine ==> UnderMessage(c, to, refs, ev, at))
  {
  }

  lemma RepliesToDuplicate(ev: Event, refs: map<RefKey, string>, at: int, threader: Threader, to: RefKey)
    ensures var mine := CallsTo(RepliesFor(ev, refs, at, threader), to);
      && |mine| == (if to in refs && threader.CanReply? && ev.backend == to.backend
                    then Count(Routing.Recipients(ev.recipient), to.recipient) else 0)
      && (forall c :: c in mine ==> UnderMessage(c, to, refs, ev, at))
  {
    hide Routing.Recipients, Count, UnderMessage;
    RepliesOfOne(ev, Routing.Recipients(ev.recipient), refs, at, to);
  }

  /** Thread mode attempts exactly one reply per duplicate event and listing of a
      destination that has a message, and every such reply goes under that message. */
  lemma {:induction false} OneReplyPerListing(duplicates: seq<Event>, refs: map<RefKey, string>, at: int,
                                              threader: nat -> Threader, to: RefKey)
    ensures var mine := CallsTo(Replies(duplicates, refs, at, threader), to);
      && |mine| == (if to in refs then Listings(duplicates, threader, to) else 0)
      && (forall c :: c in mine ==> to in refs && c.Reply? && c.ref == refs[to] && c.about in duplicates)
  {
    hide Routing.Recipients;
    if duplicates == [] {
    } else {
      var i := |duplicates| - 1;
      OneReplyPerListing(duplicates[..i], refs, at, threader, to);
      RepliesToDuplicate(duplicates[i], refs, at, threader(i), to);
      CallsToAppend(Replies(duplicates[..i], refs, at, threader), RepliesFor(duplicates[i], refs, at, threader(i)), to);
      hide Count, CallsTo, RepliesFor;
    }
  }

  /** How often the duplicates ask for this one reply: the listings of the destination by
      duplicates that are this event, where the backend can reply. */
  function Asked(duplicates: seq<Event>, threader: nat -> Threader, to: RefKey, about: Event): nat {
    if duplicates == [] then 0
    else
      var i := |duplicates| - 1;
      Asked(duplicates[..i], threader, to, about)
      + if threader(i).CanReply? && duplicates[i] == about && about.backend == to.backend
        then Count(Routing.Recipients(about.recipient), to.recipient) else 0
  }

  lemma {:induction false} RepliesToBag(ev: Event, names: seq<string>, refs: map<RefKey, string>, at: int, c: Call)
    ensures multiset(RepliesTo(ev, names, refs, at))[c] ==
      if c.Reply? && c.at == at && c.about == ev && c.to in refs && c.ref == refs[c.to] && c.to.backend == ev.backend
      then Count(names, c.to.recipient) else 0
  {
    if names == [] {
    } else {
      var init, last := names[..|names| - 1], names[|names| - 1];
      RepliesToBag(ev, init, refs, at, c);
      CountOneMore(names, c.to.recipient);
      ReplyAtBag(ev, RefKey(ev.backend, last), refs, at, c);
      var before, one := RepliesTo(ev, init, refs, at), ReplyAt(ev, RefKey(ev.backend, last), refs, at);
      assert RepliesTo(ev, names, refs, at) == before + one;
      hide Count, ReplyAt, RepliesTo;
      assert multiset(before + one)[c] == multiset(before)[c] + multiset(one)[c];
    }
  }

  lemma CountOneMore(names: seq<string>, name: string)
    requires names != []
    ensures Count(names, name) == Count(names[..|names| - 1], name) + if names[|names| - 1] == name then 1 else 0
  {
    assert names == names[..|names| - 1] + [names[|names| - 1]];
  }

  lemma ReplyAtBag(ev: Event, to: RefKey, refs: map<RefKey, string>, at: int, c: Call)
    ensures multiset(ReplyAt(ev, to, refs, at))[c] ==
      if c.Reply? && c.to == to && to in refs && c == Reply(to, refs[to], ev, at) then 1 else 0
  {
  }

  /** The replies come in the order of the duplicates, and for each in that of its list. */
  lemma {:induction false} RepliesInOrder(duplicates: seq<Event>, refs: map<RefKey, string>, at: int,
                                          threader: nat -> Threader, k: nat)
    requires k <= |duplicates|
    ensures Replies(duplicates[..k], refs, at, threader) <= Replies(duplicates, refs, at, threader)
    ensures forall ev, names: seq<string>, n :: 0 <= n <= |names| ==>
      RepliesTo(ev, names[..n], refs, at) <= RepliesTo(ev, names, refs, at)
  {
    hide RepliesFor;
    forall ev, names: seq<string>, n | 0 <= n <= |names|
      ensures RepliesTo(ev, names[..n], refs, at) <= RepliesTo(ev, names, refs, at)
    {
      ListInOrder(ev, names, refs, at, n);
    }
    if k == |duplicates| {
      assert duplicates[..k] == duplicates;
    } else {
      var init := duplicates[..|duplicates| - 1];
      assert init[..k] == duplicates[..k];
      RepliesInOrder(init, refs, at, threader, k);
    }
  }

  lemma {:induction false} ListInOrder(ev: Event, names: seq<string>, refs: map<RefKey, string>, at: int, n: nat)
    requires n <= |names|
    ensures RepliesTo(ev, names[..n], refs, at) <= RepliesTo(ev, names, refs, at)
  {
    hide ReplyAt;
    if n == |names| {
      assert names[..n] == names;
    } else {
      assert names[..|names| - 1][..n] == names[..n];
      ListInOrder(ev, names[..|names| - 1], refs, at, n);
    }
  }

  /** The replies, exactly: which calls are made and how often each. */
  lemma {:induction false} RepliesAreAsked(duplicates: seq<Event>, refs: map<RefKey, string>, at: int,
                                           threader: nat -> Threader, c: Call)
    ensures multiset(Replies(duplicates, refs, at, threader))[c] ==
      if c.Reply? && c.at == at && c.to in refs && c.ref == refs[c.to]
      then Asked(duplicates, threader, c.to, c.about) else 0
  {
    if duplicates == [] {
    } else {
      var i := |duplicates| - 1;
      RepliesAreAsked(duplicates[..i], refs, at, threader, c);
      RepliesToBag(duplicates[i], Routing.Recipients(duplicates[i].recipient), refs, at, c);
      hide Routing.Recipients, Count, RepliesTo;
    }
  }
}

/** Which destinations a changed `Upsert` serves, with what, and independently of what. */
module Fanout {
  import opened Domain
  import opened SessionModel
  import Routing

  /** A destination gets at most one call, and one only if some app's stored event
      names its backend and lists its recipient; a `Notify` for it carries exactly
      those apps, and a builder that accepts every non-empty set never refuses one. */
  lemma {:induction false} ExactRouting(build: Builder, perApp: map<string, Event>, refs: map<RefKey, string>,
                                        answers: RefKey -> Resolved,
                     sent: seq<Call>, newRefs: map<RefKey, string>, failed: set<RefKey>, to: RefKey)
    requires Delivered(build, perApp, refs, answers, sent, newRefs, failed)
    requires forall apps: map<string, Event> :: apps != map[] ==> build(apps).Ok?
    ensures |CallsTo(sent, to)| ==
      if Routing.Names(perApp, to) && !answers(to).Unresolved? && !answers(to).Neither? then 1 else 0
    ensures forall c :: c in CallsTo(sent, to) ==>
      && c.to == to && !c.Reply? && build(Routing.AppsFor(perApp, to)) == Ok(c.content)
      && (c.Notify? ==> c.ref == (if to in refs then refs[to] else ""))
      && (c.Update? ==> to in refs && c.ref == refs[to])
      && (c.Notify? <==> answers(to).Notifier?)
      && (c.Update? <==> answers(to).PostAndUpdate? && to in refs)
    ensures forall app :: app in Routing.AppsFor(perApp, to) <==>
      app in perApp && perApp[app].backend == to.backend && to.recipient in Routing.Recipients(perApp[app].recipient)
  {
    hide Routing.Recipients, CallsTo;
    assert Served(sent, newRefs, failed, to, Due(build, perApp, refs, answers, {}, to));
    if Routing.Names(perApp, to) {
      var app :| app in perApp && Routing.Routes(perApp[app], to);
      assert app in Routing.AppsFor(perApp, to);
    }
  }

  /** Failures elsewhere do not matter: whatever the other destinations answer, this
      one sees the same calls and leaves the same ref and error. */
  lemma FailuresAreIsolated(build: Builder, perApp: map<string, Event>, refs: map<RefKey, string>,
                            answers1: RefKey -> Resolved, sent1: seq<Call>, newRefs1: map<RefKey, string>,
                            failed1: set<RefKey>,
                            answers2: RefKey -> Resolved, sent2: seq<Call>, newRefs2: map<RefKey, string>,
                            failed2: set<RefKey>,
                            to: RefKey)
    requires Delivered(build, perApp, refs, answers1, sent1, newRefs1, failed1)
    requires Delivered(build, perApp, refs, answers2, sent2, newRefs2, failed2)
    requires answers1(to) == answers2(to)
    ensures CallsTo(sent1, to) == CallsTo(sent2, to)
    ensures Find(newRefs1, to) == Find(newRefs2, to)
    ensures to in failed1 <==> to in failed2
  {
    assert Served(sent1, newRefs1, failed1, to, Due(build, perApp, refs, answers1, {}, to));
    assert Served(sent2, newRefs2, failed2, to, Due(build, perApp, refs, answers2, {}, to));
  }

  /** Exactly when a destination gets a new ref: from a notifier that answers, or from
      a first post to a backend that can edit it later. */
  lemma RefIsLearnedIff(build: Builder, perApp: map<string, Event>, refs: map<RefKey, string>,
                        answers: RefKey -> Resolved,
                        sent: seq<Call>, newRefs: map<RefKey, string>, failed: set<RefKey>, to: RefKey)
    requires Delivered(build, perApp, refs, answers, sent, newRefs, failed)
    ensures to in newRefs <==>
      && Routing.Names(perApp, to) && build(Routing.AppsFor(perApp, to)).Ok?
      && (var r := answers(to);
          || (r.Notifier? && r.notify.Ok?)
          || (r.PostAndUpdate? && to !in refs && r.post.Ok?))
    ensures to in newRefs ==>
      Some(newRefs[to]) == Kept(if answers(to).Notifier? then answers(to).notify else answers(to).post)
  {
    hide CallsTo, Routing.Names, Routing.AppsFor;
    assert Served(sent, newRefs, failed, to, Due(build, perApp, refs, answers, {}, to));
  }

  /** A failed delivery keeps what was known: the ref committed for a destination is
      a new one only if this delivery produced one. */
  lemma FailureKeepsRef(build: Builder, perApp: map<string, Event>, refs: map<RefKey, string>,
                        answers: RefKey -> Resolved,
                        sent: seq<Call>, newRefs: map<RefKey, string>, failed: set<RefKey>, to: RefKey)
    requires Delivered(build, perApp, refs, answers, sent, newRefs, failed)
    requires to in failed
    ensures Find(refs + newRefs, to) == Find(refs, to)
  {
    assert Served(sent, newRefs, failed, to, Due(build, perApp, refs, answers, {}, to));
  }

  /** Exactly when a destination counts as failed: it is named, and its notification cannot
      be built, its backend is not to be had or cannot post, or the one call made fails. */
  lemma FailedIff(build: Builder, perApp: map<string, Event>, refs: map<RefKey, string>, answers: RefKey -> Resolved,
                  sent: seq<Call>, newRefs: map<RefKey, string>, failed: set<RefKey>, to: RefKey)
    requires Delivered(build, perApp, refs, answers, sent, newRefs, failed)
    ensures to in failed <==>
      && Routing.Names(perApp, to)
      && (build(Routing.AppsFor(perApp, to)).Failed? || CallFails(answers(to), to in refs))
    ensures build(Routing.AppsFor(perApp, to)).Failed? ==> CallsTo(sent, to) == []
  {
    hide CallsTo, Routing.Names, Routing.AppsFor;
    assert Served(sent, newRefs, failed, to, Due(build, perApp, refs, answers, {}, to));
  }

  /** The call a known (or unknown) ref leads to does not succeed. */
  predicate CallFails(r: Resolved, known: bool) {
    || r.Unresolved? || r.Neither?
    || (r.Notifier? && r.notify.Failed?)
    || (r.PostOnly? && r.post.Failed?)
    || (r.PostAndUpdate? && if known then r.update.Failed? else r.post.Failed?)
  }
}
