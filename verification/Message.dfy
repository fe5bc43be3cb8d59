/** From a session to the Slack message of one destination. */
module Message {
  import opened Domain
  import Build
  import Pipeline
  import Render
  import Routing
  import Wire

  /** A notification that `Build` may return for the events. */
  ghost predicate Built(n: Notification, perApp: map<string, Event>) {
    exists app :: app in perApp && Build.IsBuiltFrom(n, perApp, perApp[app].groupKey)
  }

  /** In every reachable state, the events a session routes to a destination have one
      notification, whatever order the map is ranged in; it carries the session's group
      key, it reaches the backend unchanged, and there it has a place or a count for
      every app that has a known trigger. */
  lemma {:induction false} OneMessagePerDestination(cfg: Pipeline.Config, actions: seq<Pipeline.Action>,
                                                    key: SessionKey, to: RefKey,
                                 m: Notification, n: Notification)
    requires Pipeline.Run(cfg, actions).Some? && key in Pipeline.Run(cfg, actions).value.store.sessions
    requires var group := Routing.AppsFor(Pipeline.Run(cfg, actions).value.store.sessions[key].perApp, to);
      Built(m, group) && Built(n, group)
    ensures m == n
    ensures var group := Routing.AppsFor(Pipeline.Run(cfg, actions).value.store.sessions[key].perApp, to);
      var received := Wire.DecodedNotification(Wire.EncodedNotification(m));
      && Build.IsBuiltFrom(received, group, key.groupKey)
      && Render.Renderable(received.items) == received.items
      && |received.items| == |Build.KnownApps(group)|
  {
    Pipeline.SessionsAreKeyed(cfg, actions, key);
    var perApp := Pipeline.Run(cfg, actions).value.store.sessions[key].perApp;
    hide Pipeline.Run, Routing.Routes, Build.IsBuiltFrom;
    var group := Routing.AppsFor(perApp, to);
    assert forall app :: app in group ==> group[app].groupKey == key.groupKey && group[app].appName == app;
    Build.BuildIsDeterministic(group, key.groupKey, m, n);
    Build.OneItemPerKnownApp(group, key.groupKey, m);
    Build.ItemsAreSortedAndComplete(group, key.groupKey, m);
    Wire.RoundTrip(m);
    Render.NothingIsDropped(m.items);
  }
}
