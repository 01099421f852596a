/** What one call of the rollout engine computes, as functions on an instance and the world it sees. */
module Engine {
  import opened Core
  import opened Text
  import opened Definitions
  import opened Counters
  import Durations

  datatype Status = Running | Completed | Failed | Cancelled

  datatype Trigger = OnCondition | OnTimer | OnManual | OnActionResult | OnStart

  /** One entry of an instance's history. */
  datatype Move = Move(from: string, to: string, trigger: Trigger, at: Time)

  datatype NodeResult = NodeResult(nodeId: NodeId, success: bool)

  datatype ActionResult = ActionResult(succeeded: nat, failed: nat, total: nat, results: seq<NodeResult>)

  /** First-true times of counter conditions, by "state:transition index". */
  type Clocks = map<string, Time>

  datatype Context = Context(
    rulesYaml: Option<string>,
    targetNodes: seq<NodeId>,
    deployedNodes: seq<NodeId>,
    failedNodes: seq<NodeId>,
    lastResult: Option<ActionResult>,
    batchCursor: nat,
    clocks: Clocks)

  datatype Instance = Instance(
    currentState: string,
    status: Status,
    createdAt: Time,
    updatedAt: Time,
    context: Context,
    history: seq<Move>)

  datatype FleetNode = FleetNode(id: NodeId, labels: map<string, string>)

  /**
   * What one call reads: the clock, the registered nodes (`None` when the listing fails), the nodes
   * whose deploy succeeds, and the counter cache with the order in which it lists its nodes.
   */
  datatype World = World(
    now: Time,
    fleet: Option<seq<FleetNode>>,
    willSucceed: set<NodeId>,
    cache: Entries,
    cachedIds: seq<NodeId>)

  // ----- conditions -----

  function Key(state: string, idx: nat): string {
    state + ":" + Render(idx)
  }

  function NodesToCheck(ctx: Context, w: World): seq<NodeId> {
    if ctx.targetNodes != [] then ctx.targetNodes
    else if ctx.deployedNodes != [] then ctx.deployedNodes
    else w.cachedIds
  }

  function Mode(cc: CounterCondition): Aggregate {
    if cc.aggregate.Some? then ParseAggregate(cc.aggregate.value) else Any
  }

  /** The thresholds of a counter condition hold on the cached counters of `nodes`. */
  predicate Met(cc: CounterCondition, nodes: seq<NodeId>, w: World) {
    var useBytes := cc.field == Some("bytes");
    && nodes != []
    && (cc.totalAbove.Some? ==> TotalAbove(w.cache, cc.counter, cc.totalAbove.value, useBytes, nodes, Mode(cc)))
    && (cc.rateAbove.Some? || cc.rateBelow.Some? ==>
          RateThreshold(w.cache, cc.counter, cc.rateAbove, cc.rateBelow, useBytes, nodes, Mode(cc)))
  }

  /** One evaluation of a counter condition; it starts, keeps or stops the clock under `key`. */
  function EvalCounter(cc: CounterCondition, ctx: Context, clocks: Clocks, key: string, w: World): (bool, Clocks) {
    var nodes := NodesToCheck(ctx, w);
    if nodes == [] then (false, clocks)
    else if !Met(cc, nodes, w) then (false, clocks - {key})
    else match cc.forDuration
      case None => (true, clocks)
      case Some(text) =>
        match Durations.Parse(text)
        case Err(_) => (false, clocks)
        case Ok(seconds) =>
          var started := if key in clocks then clocks else clocks[key := w.now];
          (w.now - started[key] >= Durations.Span(seconds), started)
  }

  predicate EvalSimple(c: Condition, ctx: Context)
    requires c.Simple?
  {
    if c.allSucceeded == Some(true) then
      ctx.lastResult.Some? && ctx.lastResult.value.failed == 0 && ctx.lastResult.value.succeeded > 0
    else if c.anyFailed == Some(true) then ctx.lastResult.Some? && ctx.lastResult.value.failed > 0
    else false
  }

  function EvalCondition(c: Condition, ctx: Context, clocks: Clocks, key: string, w: World): (bool, Clocks)
    decreases c
  {
    match c
    case Simple(_, _, _) => (EvalSimple(c, ctx), clocks)
    case Counter(cc) => EvalCounter(cc, ctx, clocks, key, w)
    case Compound(allOf, anyOf, negated) =>
      if allOf.Given? then EvalAll(allOf.items, ctx, clocks, key, w)
      else if anyOf.Given? then EvalAny(anyOf.items, ctx, clocks, key, w)
      else if negated.Some? then
        var (r, clocks1) := EvalCondition(negated.value, ctx, clocks, key, w);
        (!r, clocks1)
      else (false, clocks)
  }

  /** Left to right, stopping at the first false one. */
  function EvalAll(cs: seq<Condition>, ctx: Context, clocks: Clocks, key: string, w: World): (bool, Clocks)
    decreases cs
  {
    if cs == [] then (true, clocks)
    else
      var (r, clocks1) := EvalCondition(cs[0], ctx, clocks, key, w);
      if r then EvalAll(cs[1..], ctx, clocks1, key, w) else (false, clocks1)
  }

  /** Left to right, stopping at the first true one. */
  function EvalAny(cs: seq<Condition>, ctx: Context, clocks: Clocks, key: string, w: World): (bool, Clocks)
    decreases cs
  {
    if cs == [] then (false, clocks)
    else
      var (r, clocks1) := EvalCondition(cs[0], ctx, clocks, key, w);
      if r then (true, clocks1) else EvalAny(cs[1..], ctx, clocks1, key, w)
  }

  function EvalTransition(
    t: Transition, ctx: Context, clocks: Clocks, updatedAt: Time, key: string, w: World): (bool, Clocks) {
    if t.when.Some? then EvalCondition(t.when.value, ctx, clocks, key, w)
    else if t.after.Some? then
      match Durations.Parse(t.after.value)
      case Err(_) => (false, clocks)
      case Ok(seconds) => (w.now - updatedAt >= Durations.Span(seconds), clocks)
    else (false, clocks)
  }

  /** Tries the transitions of the current state in order from index `k`, up to the first that fires. */
  function EvalFrom(i: Instance, ts: seq<Transition>, k: nat, clocks: Clocks, w: World): (r: (Option<nat>, Clocks))
    requires k <= |ts|
    ensures r.0.Some? ==> k <= r.0.value < |ts|
    decreases |ts| - k
  {
    if k == |ts| then (None, clocks)
    else
      var (fires, clocks1) := EvalTransition(ts[k], i.context, clocks, i.updatedAt, Key(i.currentState, k), w);
      if fires then (Some(k), clocks1) else EvalFrom(i, ts, k + 1, clocks1, w)
  }

  // ----- actions -----

  predicate Matches(n: FleetNode, filter: map<string, string>) {
    forall k | k in filter :: k in n.labels && n.labels[k] == filter[k]
  }

  function Select(fleet: seq<FleetNode>, filter: map<string, string>): seq<NodeId>
    decreases |fleet|
  {
    if fleet == [] then []
    else (if Matches(fleet[0], filter) then [fleet[0].id] else []) + Select(fleet[1..], filter)
  }

  function Limit(nodes: seq<NodeId>, limit: Option<nat>): seq<NodeId> {
    if limit.Some? && limit.value < |nodes| then nodes[..limit.value] else nodes
  }

  /** Nodes per batch: the given percentage of `n` rounded up, at least 1 and at most `n`. */
  function BatchSize(n: nat, percent: nat): nat {
    var size := (n * percent + 99) / 100;
    if n == 0 then 0 else if size < 1 then 1 else if size > n then n else size
  }

  /** One result per node, in order. */
  function Results(nodes: seq<NodeId>, w: World): seq<NodeResult> {
    seq(|nodes|, i requires 0 <= i < |nodes| => NodeResult(nodes[i], nodes[i] in w.willSucceed))
  }

  function Count(results: seq<NodeResult>, success: bool): nat
    decreases |results|
  {
    if results == [] then 0
    else
      var last := |results| - 1;
      Count(results[..last], success) + if results[last].success == success then 1 else 0
  }

  function Summary(results: seq<NodeResult>): ActionResult {
    ActionResult(Count(results, true), Count(results, false), |results|, results)
  }

  /** The nodes whose result is `success`, in order. */
  function Outcome(results: seq<NodeResult>, success: bool): seq<NodeId>
    decreases |results|
  {
    if results == [] then []
    else
      var last := |results| - 1;
      Outcome(results[..last], success) + if results[last].success == success then [results[last].nodeId] else []
  }

  /** Deploys the selected nodes and books targets and results. */
  function DeployBatch(nodes: seq<NodeId>, ctx: Context, w: World): Context {
    var results := Results(nodes, w);
    ctx.(targetNodes := AddAllNew(ctx.targetNodes, nodes),
         deployedNodes := AddAllNew(ctx.deployedNodes, Outcome(results, true)),
         failedNodes := AddAllNew(ctx.failedNodes, Outcome(results, false)),
         lastResult := Some(Summary(results)))
  }

  function ExecuteDeploy(d: DeployAction, ctx: Context, w: World): Context {
    if ctx.rulesYaml.None? || w.fleet.None? then ctx
    else
      var nodes := Select(w.fleet.value, d.select);
      if nodes == [] then ctx.(lastResult := Some(ActionResult(0, 0, 0, [])))
      else
        var selected := Limit(nodes, d.limit);
        if d.batchPercent.None? then DeployBatch(selected, ctx, w)
        else
          var n := |selected|;
          if ctx.batchCursor >= n then
            ctx.(lastResult := Some(ActionResult(|ctx.deployedNodes|, |ctx.failedNodes|, n, [])))
          else
            var end := ctx.batchCursor + BatchSize(n, d.batchPercent.value);
            var end' := if end > n then n else end;
            DeployBatch(selected[ctx.batchCursor..end'], ctx.(batchCursor := end'), w)
  }

  /** Rolls back every deployed node, whatever target the action names. */
  function ExecuteRollback(ctx: Context, w: World): Context {
    if ctx.deployedNodes == [] then ctx
    else ctx.(lastResult := Some(Summary(Results(ctx.deployedNodes, w))))
  }

  function ExecuteAction(a: Option<Action>, ctx: Context, w: World): Context {
    if a.None? then ctx
    else if a.value.deploy.Some? then ExecuteDeploy(a.value.deploy.value, ctx, w)
    else if a.value.rollback.Some? then ExecuteRollback(ctx, w)
    else ctx
  }

  // ----- calls -----

  /** Drops every clock of the given state. */
  function DropClocks(clocks: Clocks, state: string): Clocks {
    map k | k in clocks && !(state + ":" <= k) :: clocks[k]
  }

  function MoveTo(i: Instance, to: string, trigger: Trigger, now: Time): Instance {
    i.(history := i.history + [Move(i.currentState, to, trigger, now)], currentState := to, updatedAt := now)
  }

  function Fire(def: Definition, i: Instance, to: string, trigger: Trigger, w: World): Instance {
    var i1 := MoveTo(i.(context := i.context.(clocks := DropClocks(i.context.clocks, i.currentState))), to, trigger,
      w.now);
    if to in def.states then
      var state := def.states[to];
      i1.(context := ExecuteAction(state.action, i1.context, w),
          status := if state.terminal then Completed else i1.status)
    else i1
  }

  /** The periodic evaluation of one instance. */
  function Evaluate(def: Definition, i: Instance, w: World): Instance {
    if i.currentState !in def.states then i
    else
      var state := def.states[i.currentState];
      if state.terminal then
        if i.status == Running then i.(status := Completed, updatedAt := w.now) else i
      else
        var (chosen, clocks) := EvalFrom(i, state.transitions, 0, i.context.clocks, w);
        var i1 := i.(context := i.context.(clocks := clocks));
        match chosen
        case None => i1
        case Some(k) =>
          var t := state.transitions[k];
          Fire(def, i1, t.to, if t.after.Some? then OnTimer else OnCondition, w)
  }

  datatype CallError = AlreadyCompleted | InvalidState | NoTransition | NoNodes | StorageFailure

  predicate IsManual(t: Transition) {
    t.when.Some? && t.when.value.Simple? && t.when.value.manual == Some(true)
  }

  function FirstManual(ts: seq<Transition>, k: nat): nat
    requires k <= |ts|
    decreases |ts| - k
  {
    if k == |ts| || IsManual(ts[k]) then k else FirstManual(ts, k + 1)
  }

  /** Where a manual advance goes: the named state, else the first manual transition, else the first one. */
  function AdvanceTarget(def: Definition, i: Instance, target: Option<string>): Result<string, CallError> {
    if i.status != Running then Err(AlreadyCompleted)
    else if i.currentState !in def.states then Err(InvalidState)
    else
      var ts := def.states[i.currentState].transitions;
      if target.Some? then
        if exists t :: t in ts && t.to == target.value then Ok(target.value) else Err(NoTransition)
      else if ts == [] then Err(NoTransition)
      else
        var k := FirstManual(ts, 0);
        Ok(if k < |ts| then ts[k].to else ts[0].to)
  }

  function Advance(def: Definition, i: Instance, target: Option<string>, w: World): Instance {
    match AdvanceTarget(def, i, target)
    case Ok(to) => Fire(def, i, to, OnManual, w)
    case Err(_) => i
  }

  function Cancel(i: Instance, now: Time): Instance {
    if i.status != Running then i
    else i.(status := Cancelled, updatedAt := now, history := i.history + [Move(i.currentState, "", OnManual, now)])
  }

  function NewContext(rules: Option<string>, targets: seq<NodeId>): Context {
    Context(rules, targets, [], [], None, 0, map[])
  }

  function New(initial: string, ctx: Context, now: Time): Instance {
    Instance(initial, Running, now, now, ctx, [Move("", initial, OnStart, now)])
  }

  /** A new instance, after the action of its initial state. */
  function Launch(def: Definition, ctx: Context, w: World): Instance {
    var i := New(def.initial, ctx, w.now);
    if def.initial in def.states then i.(context := ExecuteAction(def.states[def.initial].action, ctx, w)) else i
  }

  function StartDeployment(def: Definition, rules: string, w: World): Instance {
    Launch(def, NewContext(Some(rules), []), w)
  }

  function StartAdaptive(
    def: Definition, rules: Option<string>, filter: map<string, string>, w: World): Result<Instance, CallError> {
    if w.fleet.None? then Err(StorageFailure)
    else
      var targets := Select(w.fleet.value, filter);
      if targets == [] then Err(NoNodes) else Ok(Launch(def, NewContext(rules, targets), w))
  }
}
