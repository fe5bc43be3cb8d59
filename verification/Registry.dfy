/** The registry of backends: a map that forgets stale entries when it happens to
    register something, compared with a log that never forgets. */
module Registry {
  import opened Domain
  import Text

  datatype Backend = Backend(name: string, baseURL: string, supportsThreadReply: bool, lastSeen: int)

  datatype Error = MissingName | MissingBaseURL

  predicate Stale(ttl: int, now: int, b: Backend) {
    now - b.lastSeen > ttl
  }

  function Entry(now: int, name: string, baseURL: string, supportsThreadReply: bool): Backend {
    Backend(name, Text.TrimSuffix(baseURL, "/"), supportsThreadReply, now)
  }

  function Missing(name: string, baseURL: string): seq<Error> {
    (if name == "" then [MissingName] else []) + (if baseURL == "" then [MissingBaseURL] else [])
  }

  /** What is left after pruning: the entry just made and those not stale. */
  function Pruned(ttl: int, backends: map<string, Backend>, now: int, skip: string): map<string, Backend> {
    map n | n in backends && (n == skip || !Stale(ttl, now, backends[n])) :: backends[n]
  }

  function Fresh(ttl: int, backends: map<string, Backend>, now: int, name: string): Option<Backend> {
    if name in backends && !Stale(ttl, now, backends[name]) then Some(backends[name]) else None
  }

  datatype Op =
    | Register(at: int, name: string, baseURL: string, supportsThreadReply: bool)
    | Lookup(at: int, name: string)

  /** `size` is what `Len` reports right after a successful registration. */
  datatype Answer = Refused | Registered(isNew: bool, size: nat) | Found(backend: Option<Backend>)

  /** One call on the pruned map, as the methods of the class specify it. */
  function Step(ttl: int, backends: map<string, Backend>, op: Op): (map<string, Backend>, Answer) {
    match op
    case Lookup(at, name) => (backends, Found(Fresh(ttl, backends, at, name)))
    case Register(at, name, url, thread) =>
      if Missing(name, url) != [] then (backends, Refused)
      else
        var backends' := Pruned(ttl, backends[name := Entry(at, name, url, thread)], at, name);
        (backends', Registered(name in backends ==> Stale(ttl, at, backends[name]), |backends'|))
  }

  /** The address as given, less one trailing slash if it has one. */
  predicate SameAddress(stored: string, given: string) {
    given == stored + "/" || (given == stored && (given == "" || given[|given| - 1] != '/'))
  }

  /** The entry holds what this registration gave. */
  predicate IsOf(b: Backend, op: Op)
    requires op.Register?
  {
    && b.name == op.name && b.lastSeen == op.at && b.supportsThreadReply == op.supportsThreadReply
    && SameAddress(b.baseURL, op.baseURL)
  }

  lemma EntryIsOf(op: Op)
    requires op.Register?
    ensures IsOf(Entry(op.at, op.name, op.baseURL, op.supportsThreadReply), op)
  {
    var url := op.baseURL;
    if url != "" && url[|url| - 1] == '/' {
      assert url == url[..|url| - 1] + "/";
    }
  }

  class Registry {
    const ttl: int
    var backends: map<string, Backend>

    constructor (ttl: int)
      ensures this.ttl == ttl && backends == map[]
    {
      this.ttl := ttl;
      backends := map[];
    }

    method Register(now: int, name: string, baseURL: string, supportsThreadReply: bool)
      returns (isNew: bool, errs: seq<Error>)
      modifies this
      ensures errs == Missing(name, baseURL)
      ensures (MissingName in errs <==> name == "") && (MissingBaseURL in errs <==> baseURL == "")
      ensures errs == [] ==>
        name in backends && IsOf(backends[name], Op.Register(now, name, baseURL, supportsThreadReply))
      ensures errs != [] ==> !isNew
      ensures (backends, if errs != [] then Refused else Registered(isNew, |backends|))
           == Step(ttl, old(backends), Op.Register(now, name, baseURL, supportsThreadReply))
    {
      errs := [];
      if name == "" {
        errs := errs + [MissingName];
      }
      if baseURL == "" {
        errs := errs + [MissingBaseURL];
      }
      if |errs| > 0 {
        return false, errs;
      }
      isNew := name !in backends || now - backends[name].lastSeen > ttl;
      EntryIsOf(Op.Register(now, name, baseURL, supportsThreadReply));
      backends := backends[name := Entry(now, name, baseURL, supportsThreadReply)];
      PruneLocked(now, name);
    }

    /** Deletes while ranging over the names in any order. */
    method PruneLocked(now: int, skip: string)
      modifies this
      ensures backends == Pruned(ttl, old(backends), now, skip)
    {
      var names := backends.Keys;
      while names != {}
        invariant names <= old(backends).Keys
        invariant forall n :: n in backends ==> n in old(backends) && backends[n] == old(backends)[n]
        invariant forall n :: n in old(backends) ==>
          (n in backends <==> n in names || n == skip || !Stale(ttl, now, old(backends)[n]))
        decreases |names|
      {
        var name :| name in names;
        names := names - {name};
        if name == skip {
          continue;
        }
        if now - backends[name].lastSeen > ttl {
          backends := backends - {name};
        }
      }
    }

    method Lookup(now: int, name: string) returns (found: Option<Backend>)
      ensures (backends, Found(found)) == Step(ttl, backends, Op.Lookup(now, name))
    {
      if name !in backends || now - backends[name].lastSeen > ttl {
        return None;
      }
      return Some(backends[name]);
    }

    method Len() returns (n: nat)
      ensures n == |backends|
    {
      return |backends|;
    }
  }

  // ----- the full history -----

  /** The last registration of a name in the log. */
  function LastOf(log: seq<Backend>, name: string): Option<Backend> {
    if log == [] then None
    else if log[|log| - 1].name == name then Some(log[|log| - 1])
    else LastOf(log[..|log| - 1], name)
  }

  /** The last registration of a name, if it is at most `ttl` old. */
  function LogFresh(ttl: int, log: seq<Backend>, now: int, name: string): Option<Backend> {
    var last := LastOf(log, name);
    if last.Some? && now - last.value.lastSeen <= ttl then last else None
  }

  function FreshNames(ttl: int, log: seq<Backend>, now: int): set<string> {
    set b | b in log && LogFresh(ttl, log, now, b.name).Some? :: b.name
  }

  /** The same call answered from the full log. */
  function LogStep(ttl: int, log: seq<Backend>, op: Op): (seq<Backend>, Answer) {
    match op
    case Lookup(at, name) => (log, Found(LogFresh(ttl, log, at, name)))
    case Register(at, name, url, thread) =>
      if name == "" || url == "" then (log, Refused)
      else
        var log' := log + [Entry(at, name, url, thread)];
        (log', Registered(LogFresh(ttl, log, at, name).None?, |FreshNames(ttl, log', at)|))
  }

  function Run(ttl: int, ops: seq<Op>): (map<string, Backend>, seq<Answer>) {
    if ops == [] then (map[], []) else
      var (backends, answers) := Run(ttl, ops[..|ops| - 1]);
      var (backends', answer) := Step(ttl, backends, ops[|ops| - 1]);
      (backends', answers + [answer])
  }

  function RunLog(ttl: int, ops: seq<Op>): (seq<Backend>, seq<Answer>) {
    if ops == [] then ([], []) else
      var (log, answers) := RunLog(ttl, ops[..|ops| - 1]);
      var (log', answer) := LogStep(ttl, log, ops[|ops| - 1]);
      (log', answers + [answer])
  }

  /** The clock never goes back. */
  predicate InOrder(ops: seq<Op>) {
    forall i, j :: 0 <= i < j < |ops| ==> ops[i].at <= ops[j].at
  }

  /** The map holds the last registration of each name, except for some names that
      have gone stale. */
  ghost predicate Agrees(ttl: int, backends: map<string, Backend>, log: seq<Backend>, now: int) {
    && (forall n :: n in backends ==> LastOf(log, n) == Some(backends[n]))
    && (forall n :: n !in backends && LastOf(log, n).Some? ==> now - LastOf(log, n).value.lastSeen > ttl)
  }

  lemma {:induction false} LastOfIsInLog(log: seq<Backend>, name: string)
    ensures LastOf(log, name).Some? ==> LastOf(log, name).value in log && LastOf(log, name).value.name == name
    ensures forall b :: b in log && b.name == name ==> LastOf(log, name).Some?
  {
    if log != [] && log[|log| - 1].name != name {
      LastOfIsInLog(log[..|log| - 1], name);
    }
  }

  lemma StepAgrees(ttl: int, backends: map<string, Backend>, log: seq<Backend>, then_: int, op: Op)
    requires 0 <= ttl && then_ <= op.at && Agrees(ttl, backends, log, then_)
    ensures Agrees(ttl, Step(ttl, backends, op).0, LogStep(ttl, log, op).0, op.at)
    ensures Step(ttl, backends, op).1 == LogStep(ttl, log, op).1
  {
    hide Entry;
    if op.Register? && Missing(op.name, op.baseURL) == [] {
      var b := Entry(op.at, op.name, op.baseURL, op.supportsThreadReply);
      EntryIs(op.at, op.name, op.baseURL, op.supportsThreadReply);
      var log' := log + [b];
      assert log'[..|log|] == log;
      assert forall n :: LastOf(log', n) == if n == op.name then Some(b) else LastOf(log, n);
      var backends' := Step(ttl, backends, op).0;
      assert Agrees(ttl, backends', log', op.at);
      forall n ensures n in backends' <==> n in FreshNames(ttl, log', op.at) {
        LastOfIsInLog(log', n);
      }
      assert backends'.Keys == FreshNames(ttl, log', op.at);
      assert |backends'| == |backends'.Keys|;
    }
  }

  lemma EntryIs(now: int, name: string, baseURL: string, supportsThreadReply: bool)
    ensures Entry(now, name, baseURL, supportsThreadReply).name == name
    ensures Entry(now, name, baseURL, supportsThreadReply).lastSeen == now
  {
  }

  lemma {:induction false} RunAgrees(ttl: int, ops: seq<Op>)
    requires 0 <= ttl && InOrder(ops)
    ensures forall now :: (ops != [] ==> ops[|ops| - 1].at <= now) ==>
      Agrees(ttl, Run(ttl, ops).0, RunLog(ttl, ops).0, now)
    ensures Run(ttl, ops).1 == RunLog(ttl, ops).1
  {
    if ops == [] {
    } else {
      var before, last := ops[..|ops| - 1], ops[|ops| - 1];
      RunAgrees(ttl, before);
      hide Step, LogStep;
      assert Agrees(ttl, Run(ttl, before).0, RunLog(ttl, before).0, last.at);
      StepAgrees(ttl, Run(ttl, before).0, RunLog(ttl, before).0, last.at, last);
    }
  }

  /** For one TTL: whatever the calls, every answer is what the full history gives. */
  ghost predicate Invisible(ttl: int) {
    forall ops :: InOrder(ops) ==> Run(ttl, ops).1 == RunLog(ttl, ops).1
  }

  /** Pruning is invisible: for every sequence of calls under a clock that does not
      go back, each `Lookup`, each `isNew` and each `Len` after a registration is
      what the full history gives; `Len` counts exactly the fresh names. It takes a
      TTL that is not negative, which the configuration requires. */
  lemma PruningIsInvisibleIff(ttl: int)
    ensures Invisible(ttl) <==> 0 <= ttl
  {
    if 0 <= ttl {
      forall ops | InOrder(ops) ensures Run(ttl, ops).1 == RunLog(ttl, ops).1 {
        RunAgrees(ttl, ops);
      }
    } else {
      StaleAtOnce(ttl);
    }
  }

  /** An entry that is stale the moment it is made survives its own pruning. */
  lemma StaleAtOnce(ttl: int)
    requires ttl < 0
    ensures !Invisible(ttl)
  {
    var op := Register(0, "n", "u", false);
    var b := Entry(0, "n", "u", false);
    assert [op][..0] == [] && [b][..0] == [];
    var m := map["n" := b];
    assert Pruned(ttl, map["n" := b], 0, "n") == m;
    assert "n" in m && |m| != 0;
    assert FreshNames(ttl, [b], 0) == {};
    assert Step(ttl, map[], op).1 == Registered(true, |m|);
    assert LogStep(ttl, [], op).1 == Registered(true, 0) by { assert [] + [b] == [b]; }
    hide Step, LogStep;
    assert InOrder([op]) && [op][0] == op;
    assert Run(ttl, [op]).1 == [] + [Step(ttl, map[], op).1];
    assert RunLog(ttl, [op]).1 == [] + [LogStep(ttl, [], op).1];
    assert Run(ttl, [op]).1[0] != RunLog(ttl, [op]).1[0];
  }

  // ----- what a lookup finds -----

  /** The last registration of a name that was accepted. */
  function LastAccepted(ops: seq<Op>, name: string): Option<Op> {
    if ops == [] then None
    else
      var op := ops[|ops| - 1];
      if op.Register? && op.name == name && op.name != "" && op.baseURL != "" then Some(op)
      else LastAccepted(ops[..|ops| - 1], name)
  }

  lemma {:induction false} LastAcceptedIs(ops: seq<Op>, name: string)
    ensures var last := LastAccepted(ops, name);
      last.Some? ==> last.value in ops && last.value.Register? && last.value.name == name
  {
    if ops == [] {
    } else {
      LastAcceptedIs(ops[..|ops| - 1], name);
    }
  }

  /** The map holds, for each name, what its last accepted registration gave, except for
      some names whose last registration is older than the TTL. */
  ghost predicate Holds(ttl: int, backends: map<string, Backend>, ops: seq<Op>, now: int) {
    forall n ::
      var last := LastAccepted(ops, n);
      if n in backends then last.Some? && last.value.Register? && IsOf(backends[n], last.value)
      else last.Some? ==> now - last.value.at > ttl
  }

  lemma StepHolds(ttl: int, backends: map<string, Backend>, ops: seq<Op>, then_: int, op: Op)
    requires Holds(ttl, backends, ops, then_) && then_ <= op.at
    ensures Holds(ttl, Step(ttl, backends, op).0, ops + [op], op.at)
  {
    assert (ops + [op])[..|ops|] == ops;
    if op.Register? && Missing(op.name, op.baseURL) == [] {
      EntryIsOf(op);
    }
    hide Entry, SameAddress;
  }

  lemma {:induction false} RunHolds(ttl: int, ops: seq<Op>, now: int)
    requires InOrder(ops) && (ops != [] ==> ops[|ops| - 1].at <= now)
    ensures Holds(ttl, Run(ttl, ops).0, ops, now)
  {
    if ops == [] {
    } else {
      var before, last := ops[..|ops| - 1], ops[|ops| - 1];
      RunHolds(ttl, before, last.at);
      StepHolds(ttl, Run(ttl, before).0, before, last.at, last);
      assert before + [last] == ops;
      hide Step, IsOf;
    }
  }

  /** For every TTL and every run under a clock that does not go back: a lookup finds the
      name iff its last accepted registration is at most the TTL old, and then what that
      registration gave. */
  lemma LookupIsLastRegister(ttl: int, ops: seq<Op>, now: int, name: string)
    requires InOrder(ops) && (ops != [] ==> ops[|ops| - 1].at <= now)
    ensures var last := LastAccepted(ops, name);
      var answer := Step(ttl, Run(ttl, ops).0, Op.Lookup(now, name)).1;
      && answer.Found?
      && (answer.backend.Some? <==> last.Some? && now - last.value.at <= ttl)
      && (answer.backend.Some? ==> last.value.Register? && IsOf(answer.backend.value, last.value))
  {
    RunHolds(ttl, ops, now);
    hide Run, SameAddress;
    assert var last := LastAccepted(ops, name);
      name !in Run(ttl, ops).0 ==> last.Some? ==> now - last.value.at > ttl;
  }
}
