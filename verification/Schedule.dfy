/** How the engine's timing keeps calls apart: flushes of a group are at least the
    shorter of its two delays apart, races included, so calls that are done sooner never
    overlap. */
module Schedule {
  import opened Domain
  import OneMessage
  import Race
  import RacingCalls
  import Timing

  /** Which call of the timed run each `Upsert` in progress is, and the time of each step. */
  datatype Plan = Plan(of: map<nat, nat>, times: seq<int>)

  predicate IsStart(step: OneMessage.Step) {
    step.Core? && step.action.Start?
  }

  predicate StartsOnTime(s: Timing.State, step: OneMessage.Step, time: int, of: map<nat, nat>) {
    IsStart(step) ==>
      && step.action.op in of && of[step.action.op] < |s.upserts|
      && var u := s.upserts[of[step.action.op]];
      && u.at == time && u.call.call.key == step.action.key
  }

  /** The steps come in the order of time, and every call that starts is one of the timed
      run, at the time it took the lock there, each only once. */
  ghost predicate Follows(s: Timing.State, steps: seq<OneMessage.Step>, plan: Plan) {
    && |plan.times| == |steps|
    && (forall i, j :: 0 <= i < j < |steps| ==> plan.times[i] <= plan.times[j])
    && (forall k :: 0 <= k < |steps| ==> StartsOnTime(s, steps[k], plan.times[k], plan.of))
    && (forall m, n :: m in plan.of && n in plan.of && m != n ==> plan.of[m] != plan.of[n])
  }

  /** A call in progress at `time` is one whose flush was less than the gap ago. */
  ghost predicate AllRecent(cfg: Timing.Config, s: Timing.State, calls: OneMessage.State, plan: Plan, time: int) {
    forall op :: OneMessage.Active(calls.p, op) && op in plan.of && plan.of[op] < |s.upserts| ==>
      time < s.upserts[plan.of[op]].call.flushedAt + Race.Gap(cfg.engine)
  }

  /** At every step, the calls in progress are recent. */
  ghost predicate Prompt(cfg: Timing.Config, s: Timing.State, om: OneMessage.Config, steps: seq<OneMessage.Step>,
                         plan: Plan)
    requires |plan.times| == |steps|
  {
    steps != [] ==>
      && Prompt(cfg, s, om, steps[..|steps| - 1], Before(plan))
      && (var after := OneMessage.Run(om, steps);
          after.Some? ==> AllRecent(cfg, s, after.value, plan, plan.times[|steps| - 1]))
  }

  function Before(plan: Plan): Plan
    requires plan.times != []
  {
    plan.(times := plan.times[..|plan.times| - 1])
  }

  /** A call in progress has been started, with its key. */
  lemma {:induction false} HasStarted(s: Timing.State, om: OneMessage.Config, steps: seq<OneMessage.Step>, plan: Plan,
                                      op: nat)
    requires Follows(s, steps, plan) && OneMessage.Run(om, steps).Some? && op in OneMessage.Run(om, steps).value.p.ops
    ensures op in plan.of && plan.of[op] < |s.upserts|
    ensures s.upserts[plan.of[op]].call.call.key == OneMessage.Run(om, steps).value.p.ops[op].ticket.key
    ensures steps != [] && s.upserts[plan.of[op]].at <= plan.times[|steps| - 1]
  {
    var before, step := steps[..|steps| - 1], steps[|steps| - 1];
    assert StartsOnTime(s, step, plan.times[|steps| - 1], plan.of);
    if !(IsStart(step) && step.action.op == op) {
      SameTicket(om, OneMessage.Run(om, before).value, step, op);
      HasStarted(s, om, before, Before(plan), op);
    } else {
      NewTicket(om, OneMessage.Run(om, before).value, step);
    }
    hide OneMessage.Apply;
  }

  lemma SameTicket(om: OneMessage.Config, s: OneMessage.State, step: OneMessage.Step, op: nat)
    requires OneMessage.Possible(s, step) && !(IsStart(step) && step.action.op == op)
    requires op in OneMessage.Apply(om, s, step).p.ops
    ensures op in s.p.ops && OneMessage.Apply(om, s, step).p.ops[op].ticket == s.p.ops[op].ticket
  {
    if step.Deliver? {
      OneMessage.SendShape(om, s, step.op, step.to, step.env);
      hide OneMessage.Apply;
    }
  }

  lemma NewTicket(om: OneMessage.Config, s: OneMessage.State, step: OneMessage.Step)
    requires OneMessage.Possible(s, step) && IsStart(step)
    ensures var s' := OneMessage.Apply(om, s, step);
      && OneMessage.Active(s'.p, step.action.op) && s'.p.ops[step.action.op].ticket.key == step.action.key
      && step.action.op !in s.p.ops
      && (forall op :: OneMessage.Active(s.p, op) ==> OneMessage.Active(s'.p, op))
  {
  }

  /** A call that starts finds none of its key in progress. */
  lemma StartsAlone(cfg: Timing.Config, start: int, actions: seq<RacingCalls.Action>, om: OneMessage.Config,
                    steps: seq<OneMessage.Step>, plan: Plan, n: nat)
    requires RacingCalls.Run(cfg, start, actions).Some? && OneMessage.Run(om, steps).Some? && steps != []
    requires var s := RacingCalls.Run(cfg, start, actions).value;
      Follows(s, steps, plan) && Prompt(cfg, s, om, steps, plan)
    requires IsStart(steps[|steps| - 1])
    requires OneMessage.Active(OneMessage.Run(om, steps[..|steps| - 1]).value.p, n)
    ensures OneMessage.Run(om, steps[..|steps| - 1]).value.p.ops[n].ticket.key != steps[|steps| - 1].action.key
  {
    var s, before, step := RacingCalls.Run(cfg, start, actions).value, steps[..|steps| - 1], steps[|steps| - 1];
    var now := plan.times[|steps| - 1];
    NewTicket(om, OneMessage.Run(om, before).value, step);
    HasStarted(s, om, before, Before(plan), n);
    assert StartsOnTime(s, step, now, plan.of);
    var i, j := plan.of[n], plan.of[step.action.op];
    assert AllRecent(cfg, s, OneMessage.Run(om, steps).value, plan, now);
    hide Follows, Prompt, RacingCalls.Run, OneMessage.Apply, Race.Gap;
    RacingCalls.CallsOfAKeyAreApart(cfg, start, actions, i, j);
    RacingCalls.CallsOfAKeyAreApart(cfg, start, actions, j, i);
  }

  /** If at every moment the calls in progress come from flushes less than the gap ago, the
      calls of one key do not overlap. */
  lemma {:induction false} PromptIsSerial(cfg: Timing.Config, start: int, actions: seq<RacingCalls.Action>,
                                          om: OneMessage.Config, steps: seq<OneMessage.Step>, plan: Plan)
    requires RacingCalls.Run(cfg, start, actions).Some? && OneMessage.Run(om, steps).Some?
    requires var s := RacingCalls.Run(cfg, start, actions).value;
      Follows(s, steps, plan) && Prompt(cfg, s, om, steps, plan)
    ensures OneMessage.Serial(om, steps)
  {
    if steps == [] {
    } else {
      var before, step := steps[..|steps| - 1], steps[|steps| - 1];
      PromptIsSerial(cfg, start, actions, om, before, Before(plan));
      if IsStart(step) {
        var s := OneMessage.Run(om, before).value;
        forall n | OneMessage.Active(s.p, n) ensures s.p.ops[n].ticket.key != step.action.key {
          StartsAlone(cfg, start, actions, om, steps, plan, n);
        }
      }
    }
  }

  /** Then every destination of every session has one live message, whatever fails. */
  lemma {:induction false} PromptCallsKeepOneMessage(cfg: Timing.Config, start: int, actions: seq<RacingCalls.Action>,
                                                     om: OneMessage.Config, steps: seq<OneMessage.Step>, plan: Plan,
                                                     id: nat, to: RefKey)
    requires RacingCalls.Run(cfg, start, actions).Some? && OneMessage.Run(om, steps).Some?
    requires var s := RacingCalls.Run(cfg, start, actions).value;
      Follows(s, steps, plan) && Prompt(cfg, s, om, steps, plan)
    ensures OneMessage.OneLive(OneMessage.Run(om, steps).value.wire, id, to)
  {
    PromptIsSerial(cfg, start, actions, om, steps, plan);
    OneMessage.SerialIsCalm(om, steps, id, to);
    OneMessage.OneLiveMessage(om, steps, id, to);
    hide OneMessage.OneLive;
  }
}
