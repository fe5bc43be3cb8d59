/** Turning the stored events of one destination into a notification: the same one
    whatever order Go's map ranges in. */
module Build {
  import opened Domain
  import Order
  import Text

  // ----- items -----

  function OrDefault(s: string, def: string): string {
    if s == "" then def else s
  }

  function Cluster(ev: Event): string {
    OrDefault(ev.target, "?")
  }

  function ArgoCDLink(ev: Event): string {
    Text.TrimRightChar(ev.argoCDURL, '/') + "/applications/" + ev.appName
  }

  function CommitURL(ev: Event): string {
    if ev.repoURL == "" || ev.revision == "" then ""
    else Text.TrimSuffix(ev.repoURL, ".git") + "/commit/" + ev.revision
  }

  function CommitSHA(ev: Event): string {
    if ev.revision == "" then "?"
    else if |ev.revision| > 8 then ev.revision[..8]
    else ev.revision
  }

  function Truncate(s: string, n: nat): string {
    if |s| <= n then s else s[..n] + "..."
  }

  /** What every item starts from. */
  function Base(ev: Event): Item {
    Item(ev.appName, Cluster(ev), ev.trigger, "", "", ev.targetRevision, "", [], [], "", ArgoCDLink(ev))
  }

  /** The item of an event, by its trigger; None for a trigger that has no builder. */
  function ItemFor(ev: Event): Option<Item> {
    match ev.trigger
    case "on-created" => Some(Base(ev))
    case "on-deleted" => Some(Base(ev).(link := ""))
    case "on-deployed" => Some(Base(ev).(commitURL := CommitURL(ev), commitSHA := CommitSHA(ev),
                                         triggeredBy := OrDefault(ev.initiatedBy, "auto-sync"), images := ev.images))
    case "on-health-degraded" => Some(Base(ev).(fields := [Field("Health", ":large_yellow_circle: Degraded")]))
    case "on-sync-failed" => Some(Base(ev).(fields := [Field("Phase", ev.syncPhase)],
                                            detailText := Truncate(ev.operationMsg, 300)))
    case "on-sync-running" => Some(Base(ev).(commitURL := CommitURL(ev), commitSHA := CommitSHA(ev),
                                             triggeredBy := OrDefault(ev.initiatedBy, "auto-sync")))
    case "on-sync-status-unknown" =>
      Some(Base(ev).(fields := [Field("Sync Status", OrDefault(ev.syncStatus, "Unknown"))]))
    case "on-sync-succeeded" => Some(Base(ev).(commitURL := CommitURL(ev), commitSHA := CommitSHA(ev)))
    case _ => None
  }

  predicate Known(trigger: string) {
    trigger in {"on-created", "on-deleted", "on-deployed", "on-health-degraded", "on-sync-failed", "on-sync-running",
                "on-sync-status-unknown", "on-sync-succeeded"}
  }

  lemma ItemShape(ev: Event)
    ensures ItemFor(ev).Some? <==> Known(ev.trigger)
    ensures ItemFor(ev).Some? ==> ItemFor(ev).value.appName == ev.appName && ItemFor(ev).value.trigger == ev.trigger
  {
  }

  predicate ShowsCommit(trigger: string) {
    trigger in {"on-deployed", "on-sync-running", "on-sync-succeeded"}
  }

  /** Which parts of an item are filled, and with what: only a deleted app has no link;
      only three triggers name the commit, linked exactly when the repository and the
      revision are known; the rest belongs to one or two triggers each. */
  lemma ItemContents(ev: Event)
    requires Known(ev.trigger)
    ensures var item := ItemFor(ev).value;
      && item.cluster != "" && item.targetRevision == ev.targetRevision
      && (item.link == "" <==> ev.trigger == "on-deleted")
      && (item.commitSHA != "" <==> ShowsCommit(ev.trigger))
      && (item.commitURL != "" <==> ShowsCommit(ev.trigger) && ev.repoURL != "" && ev.revision != "")
      && (item.commitURL != "" ==> item.commitSHA <= ev.revision && EndsWith(item.commitURL, "/commit/" + ev.revision))
      && (item.triggeredBy != "" <==> ev.trigger in {"on-deployed", "on-sync-running"})
      && (item.images != [] <==> ev.trigger == "on-deployed" && ev.images != [])
      && (item.fields != [] <==> ev.trigger in {"on-health-degraded", "on-sync-failed", "on-sync-status-unknown"})
      && (item.detailText != "" <==> ev.trigger == "on-sync-failed" && ev.operationMsg != "")
      && |item.detailText| <= 303 && |item.commitSHA| <= 8
  {
    hide Text.TrimSuffix, Text.TrimRightChar;
    if CommitURL(ev) != "" {
      var head := Text.TrimSuffix(ev.repoURL, ".git");
      assert CommitURL(ev) == head + ("/commit/" + ev.revision);
    }
    assert ArgoCDLink(ev) != "";
  }

  /** `url` without its trailing slashes. */
  predicate IsBase(url: string, base: string) {
    base <= url && (forall i :: |base| <= i < |url| ==> url[i] == '/') && (base != "" ==> base[|base| - 1] != '/')
  }

  /** `url` without a trailing ".git". */
  ghost predicate IsRepo(url: string, repo: string) {
    url == repo + ".git" || (url == repo && forall p :: url != p + ".git")
  }

  /** What the filled parts hold. */
  lemma ItemValues(ev: Event)
    requires Known(ev.trigger)
    ensures var item := ItemFor(ev).value;
      && item.cluster == (if ev.target == "" then "?" else ev.target)
      && (item.link != "" ==>
            exists base :: IsBase(ev.argoCDURL, base) && item.link == base + "/applications/" + ev.appName)
      && (item.commitSHA != "" ==>
            item.commitSHA ==
              if ev.revision == "" then "?" else if |ev.revision| <= 8 then ev.revision else ev.revision[..8])
      && (item.commitURL != "" ==>
            exists repo :: IsRepo(ev.repoURL, repo) && item.commitURL == repo + "/commit/" + ev.revision)
      && (item.triggeredBy != "" ==> item.triggeredBy == if ev.initiatedBy == "" then "auto-sync" else ev.initiatedBy)
      && (item.images != [] ==> item.images == ev.images)
      && (item.detailText != "" ==>
            item.detailText == if |ev.operationMsg| <= 300 then ev.operationMsg else ev.operationMsg[..300] + "...")
    ensures var fields := ItemFor(ev).value.fields;
      && (ev.trigger == "on-health-degraded" ==> fields == [Field("Health", ":large_yellow_circle: Degraded")])
      && (ev.trigger == "on-sync-failed" ==> fields == [Field("Phase", ev.syncPhase)])
      && (ev.trigger == "on-sync-status-unknown" ==>
            fields == [Field("Sync Status", if ev.syncStatus == "" then "Unknown" else ev.syncStatus)])
  {
    hide Text.TrimSuffix, Text.TrimRightChar;
    var base, repo := Text.TrimRightChar(ev.argoCDURL, '/'), Text.TrimSuffix(ev.repoURL, ".git");
    assert IsBase(ev.argoCDURL, base) && IsRepo(ev.repoURL, repo);
    hide IsBase, IsRepo;
  }

  predicate EndsWith(s: string, suffix: string) {
    |suffix| <= |s| && s[|s| - |suffix|..] == suffix
  }

  // ----- the notification as a function of the stored events alone -----

  /** A set of names in order. */
  ghost predicate Lists(names: seq<string>, s: set<string>) {
    Order.Sorted(names) && forall n :: n in names <==> n in s
  }

  function ItemsOf(perApp: map<string, Event>, names: seq<string>): seq<Item>
    requires forall n :: n in names ==> n in perApp
  {
    if names == [] then [] else
      var item := ItemFor(perApp[names[|names| - 1]]);
      ItemsOf(perApp, names[..|names| - 1]) + (if item.Some? then [item.value] else [])
  }

  function Triggers(perApp: map<string, Event>): set<string> {
    set a | a in perApp :: perApp[a].trigger
  }

  function WithTrigger(perApp: map<string, Event>, trigger: string): set<string> {
    set a | a in perApp && perApp[a].trigger == trigger
  }

  /** How many of the stored events have this trigger. */
  function CountOf(perApp: map<string, Event>, trigger: string): nat {
    |WithTrigger(perApp, trigger)|
  }

  function Counts(perApp: map<string, Event>): map<string, nat> {
    map t | t in Triggers(perApp) :: CountOf(perApp, t)
  }

  function SummaryParts(counts: map<string, nat>, triggers: seq<string>): seq<string>
    requires forall t :: t in triggers ==> t in counts
  {
    if triggers == [] then [] else
      var t := triggers[|triggers| - 1];
      SummaryParts(counts, triggers[..|triggers| - 1]) + [Text.Decimal(counts[t]) + " " + Text.TrimPrefix(t, "on-")]
  }

  function SummaryText(groupKey: string, counts: map<string, nat>, triggers: seq<string>): string
    requires forall t :: t in triggers ==> t in counts
  {
    groupKey + " \U{2014} " + Text.Join(SummaryParts(counts, triggers), ", ")
  }

  /** The part reads as a count and the short name of a trigger. */
  ghost predicate Reads(part: string, count: nat, trigger: string) {
    exists digits, name :: part == digits + " " + name && IsDecimal(digits, count) && IsShort(trigger, name)
  }

  /** Digits without a leading zero that denote the count. */
  predicate IsDecimal(digits: string, count: nat) {
    && digits != "" && (forall i :: 0 <= i < |digits| ==> '0' <= digits[i] <= '9')
    && (digits[0] == '0' ==> digits == "0") && Text.Number(digits) == count
  }

  /** The name of a trigger without a leading "on-". */
  ghost predicate IsShort(trigger: string, name: string) {
    trigger == "on-" + name || (trigger == name && forall p :: trigger != "on-" + p)
  }

  /** What the summary says: the group key, then for each trigger in order its count and
      its short name. */
  lemma {:induction false} SummaryReads(groupKey: string, counts: map<string, nat>, triggers: seq<string>)
    requires forall t :: t in triggers ==> t in counts
    ensures var parts := SummaryParts(counts, triggers);
      && |parts| == |triggers|
      && (forall i :: 0 <= i < |parts| ==> Reads(parts[i], counts[triggers[i]], triggers[i]))
      && SummaryText(groupKey, counts, triggers) == groupKey + " \U{2014} " + Text.Join(parts, ", ")
  {
    hide Text.Decimal, Text.TrimPrefix, IsDecimal, IsShort;
    if triggers == [] {
    } else {
      var init, last := triggers[..|triggers| - 1], triggers[|triggers| - 1];
      SummaryReads(groupKey, counts, init);
      PartReads(counts[last], last);
      hide Reads;
    }
  }

  lemma PartReads(count: nat, trigger: string)
    ensures Reads(Text.Decimal(count) + " " + Text.TrimPrefix(trigger, "on-"), count, trigger)
  {
    assert IsDecimal(Text.Decimal(count), count) && IsShort(trigger, Text.TrimPrefix(trigger, "on-"));
    hide IsDecimal, IsShort;
  }

  /** The one notification for these events under a group key, given the two sorted
      listings (of which there is one each). */
  ghost predicate IsBuiltFrom(n: Notification, perApp: map<string, Event>, groupKey: string) {
    exists names, triggers :: Lists(names, perApp.Keys) && Lists(triggers, Triggers(perApp))
      && n == Notification(SummaryText(groupKey, Counts(perApp), triggers), ItemsOf(perApp, names))
  }

  lemma BuiltUnique(m: Notification, n: Notification, perApp: map<string, Event>, groupKey: string)
    requires IsBuiltFrom(m, perApp, groupKey) && IsBuiltFrom(n, perApp, groupKey)
    ensures m == n
  {
    var names1, triggers1 :| Lists(names1, perApp.Keys) && Lists(triggers1, Triggers(perApp))
      && m == Notification(SummaryText(groupKey, Counts(perApp), triggers1), ItemsOf(perApp, names1));
    var names2, triggers2 :| Lists(names2, perApp.Keys) && Lists(triggers2, Triggers(perApp))
      && n == Notification(SummaryText(groupKey, Counts(perApp), triggers2), ItemsOf(perApp, names2));
    Order.SortedUnique(names1, names2);
    Order.SortedUnique(triggers1, triggers2);
  }

  // ----- the program -----

  method Summary(groupKey: string, counts: map<string, nat>) returns (text: string, ghost order: seq<string>)
    ensures Lists(order, counts.Keys)
    ensures text == SummaryText(groupKey, counts, order)
  {
    var triggers := ListKeys(counts.Keys);
    triggers := Order.SortStrings(triggers);
    order := triggers;
    var parts: seq<string> := [];
    for i := 0 to |triggers|
      invariant parts == SummaryParts(counts, triggers[..i])
    {
      hide Text.Decimal, Text.TrimPrefix;
      parts := parts + [Text.Decimal(counts[triggers[i]]) + " " + Text.TrimPrefix(triggers[i], "on-")];
      assert triggers[..i + 1][..i] == triggers[..i];
    }
    assert triggers[..|triggers|] == triggers;
    text := groupKey + " \U{2014} " + Text.Join(parts, ", ");
  }

  /** The names of a set in the order Go's map happens to range. */
  method ListKeys(s: set<string>) returns (names: seq<string>)
    ensures forall i, j :: 0 <= i < j < |names| ==> names[i] != names[j]
    ensures forall n :: n in names <==> n in s
  {
    names := [];
    var left := s;
    while left != {}
      invariant left <= s
      invariant forall i, j :: 0 <= i < j < |names| ==> names[i] != names[j]
      invariant forall n :: n in names <==> n in s && n !in left
      decreases |left|
    {
      var n :| n in left;
      left := left - {n};
      names := names + [n];
    }
  }

  lemma CountOneMore(perApp: map<string, Event>, app: string, ev: Event, t: string)
    requires app !in perApp
    ensures CountOf(perApp[app := ev], t) == CountOf(perApp, t) + if ev.trigger == t then 1 else 0
  {
    var more := perApp[app := ev];
    var before, after := WithTrigger(perApp, t), WithTrigger(more, t);
    assert app in after <==> ev.trigger == t;
    assert forall a :: a != app ==> (a in after <==> a in before);
    assert app !in before;
    hide WithTrigger;
    if ev.trigger == t {
      assert after == before + {app};
    } else {
      assert after == before;
    }
  }

  lemma TriggersOneMore(perApp: map<string, Event>, app: string, ev: Event)
    requires app !in perApp
    ensures Triggers(perApp[app := ev]) == Triggers(perApp) + {ev.trigger}
    ensures forall t :: t in Triggers(perApp) <==> WithTrigger(perApp, t) != {}
  {
    var more := perApp[app := ev];
    forall t ensures t in Triggers(more) <==> t in Triggers(perApp) || t == ev.trigger {
      if t in Triggers(perApp) {
        var a :| a in perApp && perApp[a].trigger == t;
        assert a in more && more[a].trigger == t;
      }
      if t == ev.trigger { assert app in more && more[app].trigger == t; }
    }
    forall t ensures t in Triggers(perApp) <==> WithTrigger(perApp, t) != {} {
      if t in Triggers(perApp) {
        var a :| a in perApp && perApp[a].trigger == t;
        assert a in WithTrigger(perApp, t);
      }
      if WithTrigger(perApp, t) != {} {
        var a :| a in WithTrigger(perApp, t);
      }
    }
  }

  /** `counts[t]++` on a Go map. */
  function Bumped(counts: map<string, nat>, t: string): map<string, nat> {
    counts[t := (if t in counts then counts[t] else 0) + 1]
  }

  lemma CountsOneMore(perApp: map<string, Event>, app: string, ev: Event)
    requires app !in perApp
    ensures Counts(perApp[app := ev]) == Bumped(Counts(perApp), ev.trigger)
  {
    var more := perApp[app := ev];
    TriggersOneMore(perApp, app, ev);
    hide WithTrigger, Triggers;
    var before, after, bumped := Counts(perApp), Counts(more), Bumped(Counts(perApp), ev.trigger);
    assert before.Keys == Triggers(perApp) && after.Keys == Triggers(more);
    forall t | t in after ensures after[t] == bumped[t] {
      CountOneMore(perApp, app, ev, t);
      if t !in before { assert CountOf(perApp, t) == 0; }
    }
    assert after.Keys == bumped.Keys;
  }

  /** `Build`. The group key comes from whichever event the range visits last. */
  method BuildNotification(perApp: map<string, Event>) returns (n: Outcome<Notification>)
    ensures n.Failed? <==> perApp == map[]
    ensures n.Ok? ==> exists app :: app in perApp && IsBuiltFrom(n.value, perApp, perApp[app].groupKey)
  {
    hide Counts, IsBuiltFrom;
    if |perApp| == 0 {
      return Failed;
    }
    var names, counts, groupKey, from := Collect(perApp);
    n := Finish(perApp, names, counts, groupKey);
    assert from in perApp && IsBuiltFrom(n.value, perApp, perApp[from].groupKey);
  }

  /** The range over the map: every name, the count of each trigger, and the group
      key of the last event visited. */
  method Collect(perApp: map<string, Event>)
    returns (names: seq<string>, counts: map<string, nat>, groupKey: string, ghost from: string)
    requires perApp != map[]
    ensures forall i, j :: 0 <= i < j < |names| ==> names[i] != names[j]
    ensures forall n :: n in names <==> n in perApp
    ensures counts == Counts(perApp)
    ensures from in perApp && groupKey == perApp[from].groupKey
  {
    hide Counts, Bumped, Part;
    var order := ListKeys(perApp.Keys);
    names, counts, groupKey, from := [], map[], "", "";
    PartOfNone(perApp);
    for i := 0 to |order|
      invariant names == order[..i]
      invariant counts == Counts(Part(perApp, names))
      invariant i > 0 ==> from in perApp && groupKey == perApp[from].groupKey
    {
      var name := order[i];
      assert name in order && name !in names;
      PartOneMore(perApp, names, name);
      names := names + [name];
      counts := Bumped(counts, perApp[name].trigger);
      groupKey := perApp[name].groupKey;
      from := name;
      assert order[..i + 1] == order[..i] + [name];
    }
    PartIsAll(perApp, names);
  }

  function Part(perApp: map<string, Event>, names: seq<string>): map<string, Event> {
    map a | a in perApp && a in names :: perApp[a]
  }

  lemma PartOfNone(perApp: map<string, Event>)
    ensures Counts(Part(perApp, [])) == map[]
  {
  }

  lemma PartOneMore(perApp: map<string, Event>, names: seq<string>, name: string)
    requires name in perApp && name !in names
    ensures Counts(Part(perApp, names + [name])) == Bumped(Counts(Part(perApp, names)), perApp[name].trigger)
  {
    CountsOneMore(Part(perApp, names), name, perApp[name]);
    hide Counts, Bumped;
    assert Part(perApp, names + [name]) == Part(perApp, names)[name := perApp[name]];
  }

  lemma PartIsAll(perApp: map<string, Event>, names: seq<string>)
    requires forall n :: n in names <==> n in perApp
    ensures Part(perApp, names) == perApp && (perApp != map[] ==> names != [])
  {
    assert perApp.Keys == set n | n in names;
  }

  /** The part after the range: sort, build the items, render the summary. */
  method Finish(perApp: map<string, Event>, unsorted: seq<string>, counts: map<string, nat>, groupKey: string)
    returns (n: Outcome<Notification>)
    requires forall i, j :: 0 <= i < j < |unsorted| ==> unsorted[i] != unsorted[j]
    requires forall n :: n in unsorted <==> n in perApp
    requires counts == Counts(perApp)
    ensures n.Ok? && IsBuiltFrom(n.value, perApp, groupKey)
  {
    var names := Order.SortStrings(unsorted);
    var items: seq<Item> := [];
    for i := 0 to |names|
      invariant items == ItemsOf(perApp, names[..i])
    {
      hide ItemFor;
      assert names[..i + 1][..i] == names[..i];
      var item := ItemFor(perApp[names[i]]);
      if item.None? {
        continue;
      }
      items := items + [item.value];
    }
    assert names[..|names|] == names;
    ghost var triggers;
    var text: string;
    text, triggers := Summary(groupKey, counts);
    n := Ok(Notification(text, items));
    assert Lists(names, perApp.Keys) && Lists(triggers, Triggers(perApp));
  }

  // ----- what it promises -----

  /** When all events share one group key, the notification is determined: any two
      results for the same events are equal, whatever orders the ranges took. */
  lemma BuildIsDeterministic(perApp: map<string, Event>, groupKey: string, m: Notification, n: Notification)
    requires forall app :: app in perApp ==> perApp[app].groupKey == groupKey
    requires exists app :: app in perApp && IsBuiltFrom(m, perApp, perApp[app].groupKey)
    requires exists app :: app in perApp && IsBuiltFrom(n, perApp, perApp[app].groupKey)
    ensures m == n
  {
    BuiltUnique(m, n, perApp, groupKey);
  }

  /** With every event stored under its own app name: the items are in strict app
      order, each stands for an app with a known trigger, and every such app has one. */
  lemma ItemsAreSortedAndComplete(perApp: map<string, Event>, groupKey: string, n: Notification)
    requires IsBuiltFrom(n, perApp, groupKey)
    requires forall app :: app in perApp ==> perApp[app].appName == app
    ensures forall i, j :: 0 <= i < j < |n.items| ==> Order.Less(n.items[i].appName, n.items[j].appName)
    ensures forall i :: 0 <= i < |n.items| ==> var item := n.items[i];
      item.appName in perApp && Some(item) == ItemFor(perApp[item.appName]) && Known(item.trigger)
    ensures forall app :: app in perApp && Known(perApp[app].trigger) ==>
      exists i :: 0 <= i < |n.items| && n.items[i].appName == app
  {
    hide Order.Less, ItemFor, Known, ItemsOf, CountOf, SummaryText;
    var names, triggers :| Lists(names, perApp.Keys) && Lists(triggers, Triggers(perApp))
      && n == Notification(SummaryText(groupKey, Counts(perApp), triggers), ItemsOf(perApp, names));
    ItemsFollow(perApp, names);
    assert forall i :: 0 <= i < |n.items| ==> Stands(n.items[i], perApp, names);
    forall app | app in perApp && Known(perApp[app].trigger)
      ensures exists i :: 0 <= i < |n.items| && n.items[i].appName == app
    {
      assert Shown(n.items, app);
    }
  }

  function KnownApps(perApp: map<string, Event>): set<string> {
    set app | app in perApp && Known(perApp[app].trigger)
  }

  function AppNames(items: seq<Item>): set<string> {
    set i | 0 <= i < |items| :: items[i].appName
  }

  /** One item per app with a known trigger. */
  lemma OneItemPerKnownApp(perApp: map<string, Event>, groupKey: string, n: Notification)
    requires IsBuiltFrom(n, perApp, groupKey)
    requires forall app :: app in perApp ==> perApp[app].appName == app
    ensures AppNames(n.items) == KnownApps(perApp)
    ensures |n.items| == |KnownApps(perApp)|
  {
    ItemsAreSortedAndComplete(perApp, groupKey, n);
    hide IsBuiltFrom, Order.Less, Known;
    forall app ensures app in AppNames(n.items) <==> app in KnownApps(perApp) {
      if app in AppNames(n.items) {
        var i :| 0 <= i < |n.items| && n.items[i].appName == app;
        ItemShape(perApp[app]);
      }
    }
    DistinctNames(n.items);
  }

  lemma {:induction false} DistinctNames(items: seq<Item>)
    requires InOrder(items)
    ensures |AppNames(items)| == |items|
  {
    hide Order.Less;
    if items == [] {
    } else {
      var init, last := items[..|items| - 1], items[|items| - 1];
      DistinctNames(init);
      assert last.appName !in AppNames(init) by {
        forall i | 0 <= i < |init| ensures init[i].appName != last.appName {
          Order.LessAsymmetric(items[i].appName, items[|items| - 1].appName);
        }
      }
      assert items == init + [last];
      forall a ensures a in AppNames(items) <==> a in AppNames(init) || a == last.appName {
        if a in AppNames(init) {
          var i :| 0 <= i < |init| && init[i].appName == a;
          assert items[i].appName == a;
        }
        assert items[|items| - 1].appName == last.appName;
      }
      assert AppNames(items) == AppNames(init) + {last.appName};
    }
  }

  ghost predicate InOrder(items: seq<Item>) {
    forall i, j :: 0 <= i < j < |items| ==> Order.Less(items[i].appName, items[j].appName)
  }

  ghost predicate Stands(item: Item, perApp: map<string, Event>, names: seq<string>) {
    && item.appName in names && item.appName in perApp
    && Some(item) == ItemFor(perApp[item.appName]) && Known(item.trigger)
  }

  ghost predicate Shown(items: seq<Item>, name: string) {
    exists i :: 0 <= i < |items| && items[i].appName == name
  }

  lemma {:induction false} ItemsFollow(perApp: map<string, Event>, names: seq<string>)
    requires Order.Sorted(names) && (forall n :: n in names ==> n in perApp)
    requires forall app :: app in perApp ==> perApp[app].appName == app
    ensures InOrder(ItemsOf(perApp, names))
    ensures forall i :: 0 <= i < |ItemsOf(perApp, names)| ==> Stands(ItemsOf(perApp, names)[i], perApp, names)
    ensures forall n :: n in names && Known(perApp[n].trigger) ==> Shown(ItemsOf(perApp, names), n)
  {
    hide Order.Less;
    if names == [] {
    } else {
      var init, last := names[..|names| - 1], names[|names| - 1];
      ItemsFollow(perApp, init);
      ItemShape(perApp[last]);
      hide ItemFor, Known;
      var before, item := ItemsOf(perApp, init), ItemFor(perApp[last]);
      assert ItemsOf(perApp, names) == before + (if item.Some? then [item.value] else []);
      hide ItemsOf;
      assert forall n :: n in names <==> n in init || n == last by { assert names == init + [last]; }
      assert forall n :: n in init ==> Order.Less(n, last);
      assert last in names;
      OneItemMore(perApp, init, names, last, before);
    }
  }

  lemma OneItemMore(perApp: map<string, Event>, init: seq<string>, names: seq<string>, last: string, before: seq<Item>)
    requires last in perApp && (forall n :: n in names <==> n in init || n == last)
    requires forall n :: n in names ==> n in perApp
    requires forall n :: n in init ==> Order.Less(n, last)
    requires InOrder(before) && (forall i :: 0 <= i < |before| ==> Stands(before[i], perApp, init))
    requires forall n :: n in init && Known(perApp[n].trigger) ==> Shown(before, n)
    requires perApp[last].appName == last
    ensures var item := ItemFor(perApp[last]);
      var items := before + (if item.Some? then [item.value] else []);
      && InOrder(items)
      && (forall i :: 0 <= i < |items| ==> Stands(items[i], perApp, names))
      && (forall n :: n in names && Known(perApp[n].trigger) ==> Shown(items, n))
  {
    hide Order.Less;
    ItemShape(perApp[last]);
    hide ItemFor, Known;
    var item := ItemFor(perApp[last]);
    var items := before + (if item.Some? then [item.value] else []);
    forall i | 0 <= i < |items| ensures Stands(items[i], perApp, names) {
      if i < |before| { assert Stands(before[i], perApp, init); }
    }
    forall i, j | 0 <= i < j < |items| ensures Order.Less(items[i].appName, items[j].appName) {
      assert Stands(before[i], perApp, init);
    }
    forall n | n in names && Known(perApp[n].trigger) ensures Shown(items, n) {
      if n in init {
        assert Shown(before, n);
        var i :| 0 <= i < |before| && before[i].appName == n;
        assert items[i].appName == n;
      } else {
        assert items[|before|].appName == n;
      }
    }
  }

  /** The counts the summary prints add up to the number of apps, unknown triggers
      included. */
  lemma SummaryCountsAddUp(perApp: map<string, Event>, triggers: seq<string>)
    requires Lists(triggers, Triggers(perApp))
    ensures Total(perApp, triggers) == |perApp|
  {
    TotalCovers(perApp, triggers);
    assert WithTriggerIn(perApp, triggers) == perApp.Keys by {
      forall a | a in perApp ensures perApp[a].trigger in triggers {
        assert perApp[a].trigger in Triggers(perApp);
      }
    }
  }

  function WithTriggerIn(perApp: map<string, Event>, triggers: seq<string>): set<string> {
    set a | a in perApp && perApp[a].trigger in triggers
  }

  function Total(perApp: map<string, Event>, triggers: seq<string>): nat {
    if triggers == [] then 0 else Total(perApp, triggers[..|triggers| - 1]) + CountOf(perApp, triggers[|triggers| - 1])
  }

  lemma {:induction false} TotalCovers(perApp: map<string, Event>, triggers: seq<string>)
    requires Order.Sorted(triggers)
    ensures Total(perApp, triggers) == |WithTriggerIn(perApp, triggers)|
  {
    hide Order.Less;
    if triggers == [] {
    } else {
      var init, last := triggers[..|triggers| - 1], triggers[|triggers| - 1];
      TotalCovers(perApp, init);
      assert last !in init by {
        if last in init {
          var i :| 0 <= i < |init| && init[i] == last;
          Order.LessAsymmetric(triggers[i], triggers[|triggers| - 1]);
        }
      }
      SplitLast(perApp, triggers, init, last);
    }
  }

  lemma SplitLast(perApp: map<string, Event>, triggers: seq<string>, init: seq<string>, last: string)
    requires triggers == init + [last] && last !in init
    ensures |WithTriggerIn(perApp, triggers)| == |WithTriggerIn(perApp, init)| + |WithTrigger(perApp, last)|
  {
    var covered, mine := WithTriggerIn(perApp, init), WithTrigger(perApp, last);
    assert WithTriggerIn(perApp, triggers) == covered + mine;
    assert covered !! mine;
  }
}
