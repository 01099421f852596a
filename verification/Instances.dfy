/** The engine's calls as they run: methods that update an instance step by step, against their specification. */
module Instances {
  import opened Core
  import opened Definitions
  import opened Counters
  import opened Engine
  import Durations

  class FsmInstance {
    var currentState: string
    var status: Status
    var createdAt: Time
    var updatedAt: Time
    var context: Context
    var history: seq<Move>

    ghost function View(): Instance
      reads this
    {
      Instance(currentState, status, createdAt, updatedAt, context, history)
    }

    constructor (initial: string, context: Context, now: Time)
      ensures View() == New(initial, context, now)
    {
      currentState, status, createdAt, updatedAt := initial, Running, now, now;
      this.context := context;
      history := [Move("", initial, OnStart, now)];
    }

    method TransitionTo(to: string, trigger: Trigger, now: Time)
      modifies this
      ensures View() == MoveTo(old(View()), to, trigger, now)
    {
      history := history + [Move(currentState, to, trigger, now)];
      currentState := to;
      updatedAt := now;
    }

    predicate IsRunning()
      reads this
    {
      status == Running
    }

    // ----- conditions -----

    /** `ctx` is the context the evaluation began with; only its clocks have changed since. */
    method EvaluateCounter(cc: CounterCondition, key: string, w: World, ghost ctx: Context) returns (r: bool)
      requires context == ctx.(clocks := context.clocks)
      modifies this`context
      ensures (r, context.clocks) == EvalCounter(cc, ctx, old(context.clocks), key, w)
      ensures context == ctx.(clocks := context.clocks)
    {
      var nodes := NodesToCheck(context, w);
      if nodes == [] {
        return false;
      }
      var useBytes := cc.field == Some("bytes");
      if cc.totalAbove.Some? {
        var met := TotalAbove(w.cache, cc.counter, cc.totalAbove.value, useBytes, nodes, Mode(cc));
        if !met {
          context := context.(clocks := context.clocks - {key});
          return false;
        }
      }
      if cc.rateAbove.Some? || cc.rateBelow.Some? {
        var met := RateThreshold(w.cache, cc.counter, cc.rateAbove, cc.rateBelow, useBytes, nodes, Mode(cc));
        if !met {
          context := context.(clocks := context.clocks - {key});
          return false;
        }
      }
      if cc.forDuration.Some? {
        var required := Durations.ParseDuration(cc.forDuration.value);
        if required.Err? {
          return false;
        }
        if key !in context.clocks {
          context := context.(clocks := context.clocks[key := w.now]);
        }
        var elapsed := w.now - context.clocks[key];
        if elapsed < Durations.Span(required.value) {
          return false;
        }
      }
      return true;
    }

    method EvaluateCondition(c: Condition, key: string, w: World, ghost ctx: Context) returns (r: bool)
      requires context == ctx.(clocks := context.clocks)
      modifies this`context
      ensures (r, context.clocks) == EvalCondition(c, ctx, old(context.clocks), key, w)
      ensures context == ctx.(clocks := context.clocks)
      decreases c
    {
      hide EvalCounter;
      match c {
        case Simple(_, _, _) =>
          r := EvalSimple(c, context);
        case Counter(cc) =>
          r := EvaluateCounter(cc, key, w, ctx);
        case Compound(allOf, anyOf, negated) =>
          if allOf.Given? {
            r := EvaluateEvery(allOf.items, key, w, ctx);
          } else if anyOf.Given? {
            r := EvaluateSome(anyOf.items, key, w, ctx);
          } else if negated.Some? {
            r := EvaluateCondition(negated.value, key, w, ctx);
            r := !r;
          } else {
            r := false;
          }
      }
    }

    method EvaluateEvery(cs: seq<Condition>, key: string, w: World, ghost ctx: Context) returns (r: bool)
      requires context == ctx.(clocks := context.clocks)
      modifies this`context
      ensures (r, context.clocks) == EvalAll(cs, ctx, old(context.clocks), key, w)
      ensures context == ctx.(clocks := context.clocks)
      decreases cs
    {
      hide EvalCondition;
      var k := 0;
      while k < |cs|
        invariant 0 <= k <= |cs|
        invariant context == ctx.(clocks := context.clocks)
        invariant EvalAll(cs[k..], ctx, context.clocks, key, w) == EvalAll(cs, ctx, old(context.clocks), key, w)
      {
        assert cs[k..][1..] == cs[k + 1..];
        r := EvaluateCondition(cs[k], key, w, ctx);
        if !r {
          return;
        }
        k := k + 1;
      }
      return true;
    }

    method EvaluateSome(cs: seq<Condition>, key: string, w: World, ghost ctx: Context) returns (r: bool)
      requires context == ctx.(clocks := context.clocks)
      modifies this`context
      ensures (r, context.clocks) == EvalAny(cs, ctx, old(context.clocks), key, w)
      ensures context == ctx.(clocks := context.clocks)
      decreases cs
    {
      hide EvalCondition;
      var k := 0;
      while k < |cs|
        invariant 0 <= k <= |cs|
        invariant context == ctx.(clocks := context.clocks)
        invariant EvalAny(cs[k..], ctx, context.clocks, key, w) == EvalAny(cs, ctx, old(context.clocks), key, w)
      {
        assert cs[k..][1..] == cs[k + 1..];
        r := EvaluateCondition(cs[k], key, w, ctx);
        if r {
          return;
        }
        k := k + 1;
      }
      return false;
    }

    // ----- actions -----

    method BookResults(results: seq<NodeResult>)
      modifies this`context
      ensures context == old(context).(
                deployedNodes := AddAllNew(old(context).deployedNodes, Outcome(results, true)),
                failedNodes := AddAllNew(old(context).failedNodes, Outcome(results, false)))
    {
      var k := 0;
      while k < |results|
        invariant 0 <= k <= |results|
        invariant context == old(context).(
                    deployedNodes := AddAllNew(old(context).deployedNodes, Outcome(results[..k], true)),
                    failedNodes := AddAllNew(old(context).failedNodes, Outcome(results[..k], false)))
      {
        var nr := results[k];
        assert results[..k + 1][..k] == results[..k];
        assert Outcome(results[..k], !nr.success) + [] == Outcome(results[..k], !nr.success);
        if nr.success {
          AddAllNewSnoc(old(context).deployedNodes, Outcome(results[..k], true), nr.nodeId);
          if nr.nodeId !in context.deployedNodes {
            context := context.(deployedNodes := context.deployedNodes + [nr.nodeId]);
          }
        } else {
          AddAllNewSnoc(old(context).failedNodes, Outcome(results[..k], false), nr.nodeId);
          if nr.nodeId !in context.failedNodes {
            context := context.(failedNodes := context.failedNodes + [nr.nodeId]);
          }
        }
        k := k + 1;
      }
      assert results[..k] == results;
    }

    method AddTargets(nodes: seq<NodeId>)
      modifies this`context
      ensures context == old(context).(targetNodes := AddAllNew(old(context).targetNodes, nodes))
    {
      var k := 0;
      while k < |nodes|
        invariant 0 <= k <= |nodes|
        invariant context == old(context).(targetNodes := AddAllNew(old(context).targetNodes, nodes[..k]))
      {
        AddAllNewSnoc(old(context).targetNodes, nodes[..k], nodes[k]);
        assert nodes[..k + 1] == nodes[..k] + [nodes[k]];
        if nodes[k] !in context.targetNodes {
          context := context.(targetNodes := context.targetNodes + [nodes[k]]);
        }
        k := k + 1;
      }
      assert nodes[..k] == nodes;
    }

    method DeployAndBook(nodes: seq<NodeId>, w: World)
      modifies this`context
      ensures context == DeployBatch(nodes, old(context), w)
    {
      AddTargets(nodes);
      var result := CollectResults(nodes, w);
      BookResults(result.results);
      context := context.(lastResult := Some(result));
    }

    method RunDeploy(d: DeployAction, w: World)
      modifies this`context
      ensures context == ExecuteDeploy(d, old(context), w)
    {
      hide DeployBatch, Select, BatchSize;
      if context.rulesYaml.None? || w.fleet.None? {
        return;
      }
      var nodes := Select(w.fleet.value, d.select);
      if nodes == [] {
        context := context.(lastResult := Some(ActionResult(0, 0, 0, [])));
        return;
      }
      var selected := nodes;
      if d.limit.Some? && d.limit.value < |selected| {
        selected := selected[..d.limit.value];
      }
      if d.batchPercent.Some? {
        var total := |selected|;
        var size := BatchSize(total, d.batchPercent.value);
        var cursor := context.batchCursor;
        if cursor >= total {
          context := context.(lastResult :=
            Some(ActionResult(|context.deployedNodes|, |context.failedNodes|, total, [])));
          return;
        }
        var end := if cursor + size > total then total else cursor + size;
        selected := selected[cursor..end];
        context := context.(batchCursor := end);
      }
      DeployAndBook(selected, w);
    }

    method RunRollback(w: World)
      modifies this`context
      ensures context == ExecuteRollback(old(context), w)
    {
      if context.deployedNodes == [] {
        return;
      }
      var result := CollectResults(context.deployedNodes, w);
      context := context.(lastResult := Some(result));
    }

    method RunAction(a: Option<Action>, w: World)
      modifies this`context
      ensures context == ExecuteAction(a, old(context), w)
    {
      hide ExecuteDeploy, ExecuteRollback;
      if a.Some? {
        if a.value.deploy.Some? {
          RunDeploy(a.value.deploy.value, w);
        } else if a.value.rollback.Some? {
          RunRollback(w);
        }
      }
    }

    // ----- calls -----

    method FireTransition(def: Definition, to: string, trigger: Trigger, w: World)
      modifies this
      ensures View() == Fire(def, old(View()), to, trigger, w)
    {
      hide ExecuteAction;
      context := context.(clocks := DropClocks(context.clocks, currentState));
      TransitionTo(to, trigger, w.now);
      if to in def.states {
        var state := def.states[to];
        RunAction(state.action, w);
        if state.terminal {
          status := Completed;
        }
      }
    }

    method EvaluateInstance(def: Definition, w: World)
      modifies this
      ensures View() == Evaluate(def, old(View()), w)
    {
      hide Fire, EvalTransition;
      if currentState !in def.states {
        return;
      }
      var state := def.states[currentState];
      if state.terminal {
        if IsRunning() {
          status := Completed;
          updatedAt := w.now;
        }
        return;
      }
      ghost var ctx := context;
      ghost var i := View();
      var ti := 0;
      while ti < |state.transitions|
        invariant 0 <= ti <= |state.transitions|
        invariant View() == i.(context := i.context.(clocks := context.clocks))
        invariant EvalFrom(i, state.transitions, ti, context.clocks, w)
                  == EvalFrom(i, state.transitions, 0, i.context.clocks, w)
      {
        var t := state.transitions[ti];
        var shouldFire := ShouldFire(t, ti, w, ctx);
        if shouldFire {
          var trigger := if t.after.Some? then OnTimer else OnCondition;
          FireTransition(def, t.to, trigger, w);
          return;
        }
        ti := ti + 1;
      }
    }

    method ShouldFire(t: Transition, ti: nat, w: World, ghost ctx: Context) returns (r: bool)
      requires context == ctx.(clocks := context.clocks)
      modifies this`context
      ensures (r, context.clocks)
              == EvalTransition(t, ctx, old(context.clocks), updatedAt, Key(currentState, ti), w)
      ensures context == ctx.(clocks := context.clocks)
    {
      hide EvalCondition;
      if t.when.Some? {
        r := EvaluateCondition(t.when.value, Key(currentState, ti), w, ctx);
      } else if t.after.Some? {
        var duration := Durations.ParseDuration(t.after.value);
        r := duration.Ok? && w.now - updatedAt >= Durations.Span(duration.value);
      } else {
        r := false;
      }
    }

    method AdvanceInstance(def: Definition, target: Option<string>, w: World) returns (r: Result<string, CallError>)
      modifies this
      ensures r == AdvanceTarget(def, old(View()), target)
      ensures View() == Advance(def, old(View()), target, w)
    {
      hide Fire;
      if !IsRunning() {
        return Err(AlreadyCompleted);
      }
      if currentState !in def.states {
        return Err(InvalidState);
      }
      var ts := def.states[currentState].transitions;
      var to: string;
      if target.Some? {
        if !exists t :: t in ts && t.to == target.value {
          return Err(NoTransition);
        }
        to := target.value;
      } else {
        if ts == [] {
          return Err(NoTransition);
        }
        var k := 0;
        while k < |ts| && !IsManual(ts[k])
          invariant 0 <= k <= |ts| && FirstManual(ts, k) == FirstManual(ts, 0)
        {
          k := k + 1;
        }
        to := if k < |ts| then ts[k].to else ts[0].to;
      }
      FireTransition(def, to, OnManual, w);
      return Ok(to);
    }

    method CancelInstance(now: Time) returns (r: Result<(), CallError>)
      modifies this
      ensures View() == Cancel(old(View()), now)
      ensures r == if old(status) == Running then Ok(()) else Err(AlreadyCompleted)
    {
      if !IsRunning() {
        return Err(AlreadyCompleted);
      }
      status := Cancelled;
      updatedAt := now;
      history := history + [Move(currentState, "", OnManual, now)];
      return Ok(());
    }
  }

  /** Deploys to each node in turn and counts the answers. */
  method CollectResults(nodes: seq<NodeId>, w: World) returns (result: ActionResult)
    ensures result == Summary(Results(nodes, w))
  {
    var results: seq<NodeResult>, succeeded, failed := [], 0, 0;
    var all := Results(nodes, w);
    var k := 0;
    while k < |nodes|
      invariant 0 <= k <= |nodes| && results == all[..k]
      invariant succeeded == Count(all[..k], true) && failed == Count(all[..k], false)
    {
      var success := nodes[k] in w.willSucceed;
      assert all[..k + 1][..k] == all[..k];
      if success {
        succeeded := succeeded + 1;
      } else {
        failed := failed + 1;
      }
      results := results + [NodeResult(nodes[k], success)];
      k := k + 1;
    }
    assert all[..k] == all;
    return ActionResult(succeeded, failed, |nodes|, results);
  }

  method LaunchInstance(def: Definition, context: Context, w: World) returns (i: FsmInstance)
    ensures fresh(i) && i.View() == Launch(def, context, w)
  {
    hide ExecuteAction;
    i := new FsmInstance(def.initial, context, w.now);
    if def.initial in def.states {
      i.RunAction(def.states[def.initial].action, w);
    }
  }

  method StartInstance(def: Definition, rules: string, w: World) returns (i: FsmInstance)
    ensures fresh(i) && i.View() == StartDeployment(def, rules, w)
  {
    i := LaunchInstance(def, NewContext(Some(rules), []), w);
  }

  method StartAdaptiveInstance(def: Definition, rules: Option<string>, filter: map<string, string>, w: World)
    returns (i: FsmInstance?, error: Option<CallError>)
    ensures match StartAdaptive(def, rules, filter, w)
            case Ok(v) => i != null && fresh(i) && i.View() == v && error == None
            case Err(e) => i == null && error == Some(e)
  {
    hide Launch;
    if w.fleet.None? {
      return null, Some(StorageFailure);
    }
    var targets := Select(w.fleet.value, filter);
    if targets == [] {
      return null, Some(NoNodes);
    }
    i := LaunchInstance(def, NewContext(rules, targets), w);
    error := None;
  }
}
