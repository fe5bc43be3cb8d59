/** Where an event goes: the recipients its semicolon-joined list names, and the
    apps of a session grouped by destination. */
module Routing {
  import opened Domain
  import Text

  function Kept(parts: seq<string>): seq<string> {
    if parts == [] then [] else
      var p := Text.TrimSpace(parts[|parts| - 1]);
      Kept(parts[..|parts| - 1]) + (if p != "" then [p] else [])
  }

  /** `splitRecipients` as a function. */
  function Recipients(raw: string): seq<string> {
    if raw == "" then [] else Kept(Text.Split(raw, ';'))
  }

  method SplitRecipients(raw: string) returns (out: seq<string>)
    ensures out == Recipients(raw)
  {
    if raw == "" {
      return [];
    }
    var parts := Text.Split(raw, ';');
    out := [];
    for i := 0 to |parts|
      invariant out == Kept(parts[..i])
    {
      var p := Text.TrimSpace(parts[i]);
      if p != "" {
        out := out + [p];
      }
      assert parts[..i + 1][..i] == parts[..i];
    }
    assert parts[..|parts|] == parts;
  }

  predicate Clean(name: string) {
    name != "" && ';' !in name && Text.Trimmed(name)
  }

  lemma {:induction false} KeptClean(parts: seq<string>)
    requires forall p :: p in parts ==> ';' !in p
    ensures forall n :: n in Kept(parts) ==> Clean(n)
  {
    if parts == [] {
    } else {
      KeptClean(parts[..|parts| - 1]);
      TrimmedPart(parts[|parts| - 1]);
      hide Text.TrimSpace, Text.Trimmed;
    }
  }

  lemma TrimmedPart(part: string)
    ensures Text.Trimmed(Text.TrimSpace(part))
    ensures forall c :: c in Text.TrimSpace(part) ==> c in part
  {
    Text.TrimSpaceIff(part, Text.TrimSpace(part));
    var name := Text.TrimSpace(part);
    var i, j :| 0 <= i <= j <= |part| && Text.PaddedAt(part, name, i, j);
    assert forall c :: c in part[i..j] ==> c in part;
  }

  /** Each part is one of the names with white space around it. */
  ghost predicate PadsOf(parts: seq<string>, names: seq<string>) {
    |parts| == |names| && forall i :: 0 <= i < |parts| ==> Text.Padded(parts[i], names[i]) && Clean(names[i])
  }

  lemma {:induction false} KeptPads(parts: seq<string>, names: seq<string>)
    requires PadsOf(parts, names)
    ensures Kept(parts) == names
  {
    hide Text.TrimSpace, Text.Trimmed;
    if parts == [] {
    } else {
      KeptPads(parts[..|parts| - 1], names[..|names| - 1]);
      CleanIsTrimmed(names[|names| - 1]);
      Text.TrimSpaceIff(parts[|parts| - 1], names[|names| - 1]);
      hide Text.Padded, Clean;
      assert names == names[..|names| - 1] + [names[|names| - 1]];
    }
  }

  lemma CleanIsTrimmed(name: string)
    requires Clean(name)
    ensures Text.Trimmed(name) && name != ""
  {
  }

  /** A list of clean names, with any white space around each, gives these names in this
      order. */
  lemma RecipientsInOrder(parts: seq<string>, names: seq<string>)
    requires PadsOf(parts, names) && (forall p :: p in parts ==> ';' !in p)
    ensures Recipients(Text.Join(parts, ";")) == names
  {
    if parts != [] {
      Text.SplitJoin(parts, ';');
      KeptPads(parts, names);
      SomethingJoined(parts, names);
      hide Text.Split, Kept, Clean, Text.Padded;
    }
  }

  lemma SomethingJoined(parts: seq<string>, names: seq<string>)
    requires PadsOf(parts, names) && parts != []
    ensures Text.Join(parts, ";") != ""
  {
    assert Text.Padded(parts[0], names[0]) && Clean(names[0]);
    assert parts[0] != "";
  }

  /** Only trimmed, non-empty, separator-free names come out, and joining them again
      with ";" gives a list that splits into the same names. */
  lemma RecipientsRoundTrip(raw: string)
    ensures forall n :: n in Recipients(raw) ==> Clean(n)
    ensures Recipients(Text.Join(Recipients(raw), ";")) == Recipients(raw)
  {
    KeptClean(Text.Split(raw, ';'));
    var names := Recipients(raw);
    forall i | 0 <= i < |names| ensures Text.Padded(names[i], names[i]) && Clean(names[i]) {
      assert names[i] in names;
      assert Text.PaddedAt(names[i], names[i], 0, |names[i]|);
    }
    hide Kept, Text.Split, Text.Padded, Clean;
    assert forall n :: n in names ==> Clean(n);
    NoSeparators(names);
    RecipientsInOrder(names, names);
  }

  lemma NoSeparators(names: seq<string>)
    requires forall n :: n in names ==> Clean(n)
    ensures forall n :: n in names ==> ';' !in n
  {
  }

  /** Some stretch of the list between semicolons is the name with white space around. */
  ghost predicate Lists(raw: string, name: string) {
    exists p :: Text.IsPart(raw, ';', p) && Text.Padded(p, name)
  }

  /** A recipient is listed exactly when it is a clean name that stands between two
      semicolons, or a semicolon and an end, with nothing but white space around it. */
  lemma RecipientListed(raw: string, name: string)
    ensures name in Recipients(raw) <==> Clean(name) && Lists(raw, name)
  {
    var parts := Text.Split(raw, ';');
    KeptMembers(parts, name);
    KeptClean(parts);
    forall p ensures p in parts <==> Text.IsPart(raw, ';', p) {
      Text.SplitParts(raw, ';', p);
    }
    if name != "" { ListedInSomething(raw, name); }
    hide Text.Split, Kept, Text.IsPart, Text.Padded, Text.Trimmed;
  }

  lemma ListedInSomething(raw: string, name: string)
    requires name != ""
    ensures Lists(raw, name) ==> raw != ""
  {
    if p :| Text.IsPart(raw, ';', p) && Text.Padded(p, name) {
      assert |name| <= |p| <= |raw|;
    }
  }

  lemma {:induction false} KeptMembers(parts: seq<string>, name: string)
    ensures name in Kept(parts) <==>
      name != "" && Text.Trimmed(name) && exists p :: p in parts && Text.Padded(p, name)
  {
    if parts == [] {
    } else {
      var init, last := parts[..|parts| - 1], parts[|parts| - 1];
      assert parts == init + [last];
      KeptMembers(init, name);
      Text.TrimSpaceIff(last, name);
      hide Text.TrimSpace, Text.Trimmed, Text.Padded;
      assert last in parts && forall p :: p in parts <==> p in init || p == last;
    }
  }

  // ----- grouping -----

  /** The event names this destination. */
  predicate Routes(ev: Event, to: RefKey) {
    ev.backend == to.backend && to.recipient in Recipients(ev.recipient)
  }

  predicate Names(perApp: map<string, Event>, to: RefKey) {
    exists app :: app in perApp && Routes(perApp[app], to)
  }

  /** All destinations named by the stored events. */
  function Destinations(perApp: map<string, Event>): set<RefKey> {
    set app, name | app in perApp && name in Recipients(perApp[app].recipient) :: RefKey(perApp[app].backend, name)
  }

  lemma DestinationsAreNamed(perApp: map<string, Event>, to: RefKey)
    ensures to in Destinations(perApp) <==> Names(perApp, to)
  {
    if Names(perApp, to) {
      var app :| app in perApp && Routes(perApp[app], to);
      assert to == RefKey(perApp[app].backend, to.recipient);
    }
  }

  /** The apps addressed to one destination. */
  function AppsFor(perApp: map<string, Event>, to: RefKey): map<string, Event> {
    map app | app in perApp && Routes(perApp[app], to) :: perApp[app]
  }

  /** A destination's group holds exactly the apps addressed to it, and there is a
      group exactly for the destinations some app names. */
  ghost predicate IsGrouping(perApp: map<string, Event>, out: map<RefKey, map<string, Event>>) {
    && (forall to :: to in out <==> Names(perApp, to))
    && (forall to :: to in out ==> out[to] == AppsFor(perApp, to))
  }

  lemma GroupsAreNeverEmpty(perApp: map<string, Event>, out: map<RefKey, map<string, Event>>, to: RefKey)
    requires IsGrouping(perApp, out) && to in out
    ensures out[to] != map[]
  {
    var app :| app in perApp && Routes(perApp[app], to);
    assert app in out[to];
  }

  lemma OneMoreApp(perApp: map<string, Event>, app: string, ev: Event, to: RefKey)
    requires app !in perApp
    ensures Names(perApp[app := ev], to) <==> Names(perApp, to) || Routes(ev, to)
    ensures AppsFor(perApp[app := ev], to) ==
      if Routes(ev, to) then AppsFor(perApp, to)[app := ev] else AppsFor(perApp, to)
    ensures !Names(perApp, to) ==> AppsFor(perApp, to) == map[]
  {
    hide Recipients;
    var more := perApp[app := ev];
    assert forall a :: a in more && a != app ==> a in perApp && more[a] == perApp[a];
    if Names(perApp, to) {
      var a :| a in perApp && Routes(perApp[a], to);
      assert a in more && Routes(more[a], to);
    } else {
      assert AppsFor(perApp, to).Keys == {};
    }
    if Routes(ev, to) {
      assert app in more && Routes(more[app], to);
    }
  }

  method GroupApps(perApp: map<string, Event>) returns (out: map<RefKey, map<string, Event>>)
    ensures IsGrouping(perApp, out)
  {
    out := map[];
    var left := perApp.Keys;
    ghost var done: map<string, Event> := map[];
    while left != {}
      invariant left <= perApp.Keys && done.Keys == perApp.Keys - left
      invariant forall app :: app in done ==> done[app] == perApp[app]
      invariant IsGrouping(done, out)
      decreases |left|
    {
      var app :| app in left;
      left := left - {app};
      out := AddApp(done, out, app, perApp[app]);
      done := done[app := perApp[app]];
    }
    assert done == perApp;
  }

  predicate Listed(ev: Event, names: seq<string>, to: RefKey) {
    to.backend == ev.backend && to.recipient in names
  }

  function Entry(m: map<RefKey, map<string, Event>>, to: RefKey): map<string, Event> {
    if to in m then m[to] else map[]
  }

  /** The inner loop: one app is entered under every recipient of its event. */
  method AddApp(ghost done: map<string, Event>, soFar: map<RefKey, map<string, Event>>, app: string, ev: Event)
    returns (out: map<RefKey, map<string, Event>>)
    requires IsGrouping(done, soFar) && app !in done
    ensures IsGrouping(done[app := ev], out)
  {
    out := soFar;
    var names := SplitRecipients(ev.recipient);
    hide Recipients;
    for i := 0 to |names|
      invariant forall to :: to in out <==> to in soFar || Listed(ev, names[..i], to)
      invariant forall to :: to in out ==>
        out[to] == if Listed(ev, names[..i], to) then Entry(soFar, to)[app := ev] else Entry(soFar, to)
    {
      var to := RefKey(ev.backend, names[i]);
      assert names[..i + 1] == names[..i] + [names[i]];
      out := out[to := Entry(out, to)[app := ev]];
    }
    assert names[..|names|] == names;
    Entered(done, soFar, app, ev, names, out);
  }

  lemma Entered(done: map<string, Event>, soFar: map<RefKey, map<string, Event>>, app: string, ev: Event,
                names: seq<string>, out: map<RefKey, map<string, Event>>)
    requires IsGrouping(done, soFar) && app !in done && names == Recipients(ev.recipient)
    requires forall to :: to in out <==> to in soFar || Listed(ev, names, to)
    requires forall to :: to in out ==>
      out[to] == if Listed(ev, names, to) then Entry(soFar, to)[app := ev] else Entry(soFar, to)
    ensures IsGrouping(done[app := ev], out)
  {
    hide Recipients;
    forall to
      ensures to in out <==> Names(done[app := ev], to)
      ensures to in out ==> out[to] == AppsFor(done[app := ev], to)
    {
      OneMoreApp(done, app, ev, to);
      assert Listed(ev, names, to) <==> Routes(ev, to);
    }
  }
}
