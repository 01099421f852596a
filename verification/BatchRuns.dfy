/** Batch rollouts inside engine runs: the cursor an instance carries from state to state. */
module BatchRuns {
  import opened Core
  import opened Definitions
  import opened Engine
  import opened EngineRuns
  import opened Bookkeeping

  // ----- from any cursor -----

  /** The nodes that batches from cursor `c` to cursor `e` take. */
  function Slice(nodes: seq<NodeId>, c: nat, e: nat): seq<NodeId> {
    if c < e <= |nodes| then nodes[c..e] else []
  }

  /** Where `k` batches of `size` nodes move a cursor at `c`: up to the last node, and not at all beyond it. */
  function CursorAfter(c: nat, k: nat, size: nat, n: nat): nat {
    if c >= n then c else Min(c + k * size, n)
  }

  lemma CursorNext(c: nat, k: nat, size: nat, n: nat)
    requires size >= 1
    ensures CursorAfter(CursorAfter(c, k, size, n), 1, size, n) == CursorAfter(c, k + 1, size, n)
    ensures CursorAfter(c, 0, size, n) == c
    ensures c <= CursorAfter(c, k, size, n)
  {
    assert (k + 1) * size == k * size + size;
  }

  /** Nodes were added as targets, and each as deployed or failed. */
  ghost predicate Took(ctx: Context, end: Context, taken: seq<NodeId>) {
    && end.rulesYaml == ctx.rulesYaml
    && Elems(end.targetNodes) == Elems(ctx.targetNodes) + Elems(taken)
    && Elems(end.deployedNodes) + Elems(end.failedNodes)
       == Elems(ctx.deployedNodes) + Elems(ctx.failedNodes) + Elems(taken)
  }

  lemma TookMore(a: Context, b: Context, c: Context, x: seq<NodeId>, y: seq<NodeId>, z: seq<NodeId>)
    requires Took(a, b, x) && Took(b, c, y) && Elems(z) == Elems(x) + Elems(y)
    ensures Took(a, c, z)
  {
    hide Elems;
  }

  lemma BatchTakes(nodes: seq<NodeId>, ctx: Context, next: nat, w: World)
    ensures Took(ctx, DeployBatch(nodes, ctx.(batchCursor := next), w), nodes)
  {
    BatchBooks(nodes, ctx.(batchCursor := next), w);
    assert DeployBatch(nodes, ctx.(batchCursor := next), w).rulesYaml == ctx.rulesYaml;
    hide NoDup, Elems, DeployBatch;
    assert Elems(nodes) == Succeeding(nodes, w) + Failing(nodes, w);
  }

  lemma SliceMore(nodes: seq<NodeId>, c: nat, e: nat, f: nat)
    requires c <= e <= f && (f <= |nodes| || e == f)
    ensures Elems(Slice(nodes, c, f)) == Elems(Slice(nodes, c, e)) + Elems(Slice(nodes, e, f))
  {
    if c < e < f {
      assert nodes[c..f] == nodes[c..e] + nodes[e..f];
    }
    ElemsAppend(Slice(nodes, c, e), Slice(nodes, e, f));
  }

  lemma OneBatch(d: DeployAction, ctx: Context, w: World, fleet: seq<FleetNode>)
    requires d.batchPercent.Some? && ctx.rulesYaml.Some? && w.fleet == Some(fleet) && Selected(d, fleet) != []
    ensures var nodes := Selected(d, fleet);
            var end := ExecuteDeploy(d, ctx, w);
            && end.batchCursor == CursorAfter(ctx.batchCursor, 1, BatchSize(|nodes|, d.batchPercent.value), |nodes|)
            && Took(ctx, end, Slice(nodes, ctx.batchCursor, end.batchCursor))
  {
    hide Selected, DeployBatch, BatchSize, Took, Elems;
    var nodes := Selected(d, fleet);
    BatchSizeRange(|nodes|, d.batchPercent.value);
    if ctx.batchCursor < |nodes| {
      BatchRun(d, ctx, w, fleet);
      var next := Min(ctx.batchCursor + BatchSize(|nodes|, d.batchPercent.value), |nodes|);
      BatchTakes(nodes[ctx.batchCursor..next], ctx, next, w);
      CursorKept(nodes[ctx.batchCursor..next], ctx.(batchCursor := next), w);
    } else {
      BatchesDone(d, ctx, w, fleet);
      TookNothing(ctx, ExecuteDeploy(d, ctx, w));
    }
  }

  lemma CursorKept(nodes: seq<NodeId>, ctx: Context, w: World)
    ensures DeployBatch(nodes, ctx, w).batchCursor == ctx.batchCursor
  {
  }

  lemma TookNothing(ctx: Context, end: Context)
    requires end == ctx.(lastResult := end.lastResult)
    ensures Took(ctx, end, [])
  {
  }

  /**
   * An action that is entered with its instance's cursor at `c`, left there by whatever action ran
   * before, takes in `k` runs exactly the nodes it selects from position `c` on, up to `k` batches of
   * them; the first `c` are passed over.
   */
  lemma {:induction false} BatchesFrom(d: DeployAction, ctx: Context, ws: seq<World>, fleet: seq<FleetNode>)
    requires d.batchPercent.Some? && ctx.rulesYaml.Some? && SameFleet(ws, fleet) && Selected(d, fleet) != []
    ensures var nodes := Selected(d, fleet);
            var end := RunBatches(d, ctx, ws);
            && end.batchCursor
               == CursorAfter(ctx.batchCursor, |ws|, BatchSize(|nodes|, d.batchPercent.value), |nodes|)
            && Took(ctx, end, Slice(nodes, ctx.batchCursor, end.batchCursor))
    decreases |ws|
  {
    hide Selected, BatchSize, ExecuteDeploy, Took, Slice, CursorAfter;
    var nodes := Selected(d, fleet);
    var size := BatchSize(|nodes|, d.batchPercent.value);
    BatchSizeRange(|nodes|, d.batchPercent.value);
    if ws == [] {
      CursorNext(ctx.batchCursor, 0, size, |nodes|);
      NoSlice(nodes, ctx.batchCursor);
      TookNothing(ctx, ctx);
    } else {
      var init, w := ws[..|ws| - 1], ws[|ws| - 1];
      assert w in ws && SameFleet(init, fleet);
      BatchesFrom(d, ctx, init, fleet);
      var mid := RunBatches(d, ctx, init);
      TookRules(ctx, mid, Slice(nodes, ctx.batchCursor, mid.batchCursor));
      OneBatch(d, mid, w, fleet);
      var end := ExecuteDeploy(d, mid, w);
      CursorNext(ctx.batchCursor, |init|, size, |nodes|);
      CursorNext(mid.batchCursor, 1, size, |nodes|);
      CursorBound(mid.batchCursor, size, |nodes|);
      SliceMore(nodes, ctx.batchCursor, mid.batchCursor, end.batchCursor);
      TookMore(ctx, mid, end, Slice(nodes, ctx.batchCursor, mid.batchCursor),
        Slice(nodes, mid.batchCursor, end.batchCursor),
               Slice(nodes, ctx.batchCursor, end.batchCursor));
    }
  }

  lemma NoSlice(nodes: seq<NodeId>, c: nat)
    ensures Slice(nodes, c, c) == []
  {
  }

  lemma TookRules(ctx: Context, end: Context, taken: seq<NodeId>)
    requires Took(ctx, end, taken)
    ensures end.rulesYaml == ctx.rulesYaml
  {
  }

  lemma CursorBound(c: nat, size: nat, n: nat)
    requires size >= 1
    ensures c <= CursorAfter(c, 1, size, n)
    ensures CursorAfter(c, 1, size, n) <= n || CursorAfter(c, 1, size, n) == c
  {
  }

  /** The nodes passed over become targets no more than they were. */
  lemma PassedOver(d: DeployAction, ctx: Context, ws: seq<World>, fleet: seq<FleetNode>, k: nat)
    requires d.batchPercent.Some? && ctx.rulesYaml.Some? && SameFleet(ws, fleet)
    requires NoDup(Selected(d, fleet)) && k < |Selected(d, fleet)| && k < ctx.batchCursor
    ensures var x := Selected(d, fleet)[k]; x in RunBatches(d, ctx, ws).targetNodes <==> x in ctx.targetNodes
  {
    hide Selected, RunBatches, BatchSize, CursorAfter, Slice, NoDup;
    var nodes, end := Selected(d, fleet), RunBatches(d, ctx, ws);
    BatchesFrom(d, ctx, ws, fleet);
    SliceMisses(nodes, ctx.batchCursor, end.batchCursor, k);
    assert nodes[k] in end.targetNodes <==> nodes[k] in Elems(end.targetNodes);
  }

  lemma SliceMisses(nodes: seq<NodeId>, c: nat, e: nat, k: nat)
    requires NoDup(nodes) && k < |nodes| && k < c
    ensures nodes[k] !in Slice(nodes, c, e)
  {
    forall j | 0 <= j < |Slice(nodes, c, e)| ensures Slice(nodes, c, e)[j] != nodes[k] {
      assert Slice(nodes, c, e)[j] == nodes[c + j];
    }
  }

  // ----- over engine runs -----

  /** Entering `state` performs a deploy action. */
  predicate Deploys(def: Definition, state: string) {
    state in def.states && def.states[state].action.Some? && def.states[state].action.value.deploy.Some?
  }

  /** Every deploy action of the definition is `d`. */
  ghost predicate OneRollout(def: Definition, d: DeployAction) {
    forall s :: Deploys(def, s) ==> def.states[s].action.value.deploy == Some(d)
  }

  /** How many of the states entered deploy. */
  function Entries(def: Definition, visited: seq<string>): nat
    decreases |visited|
  {
    if visited == [] then 0
    else
      var last := |visited| - 1;
      Entries(def, visited[..last]) + if Deploys(def, visited[last]) then 1 else 0
  }

  ghost predicate FixedFleet(ops: seq<Op>, fleet: seq<FleetNode>) {
    forall op | op in ops :: op.w.fleet == Some(fleet)
  }

  /** The batches so far took the nodes in front, `entered` batches of them. */
  ghost predicate Progress(d: DeployAction, ctx: Context, fleet: seq<FleetNode>, entered: nat)
    requires d.batchPercent.Some?
  {
    var nodes := Selected(d, fleet);
    Handled(ctx, nodes, Min(entered * BatchSize(|nodes|, d.batchPercent.value), |nodes|))
  }

  lemma ProgressFrame(d: DeployAction, ctx: Context, ctx1: Context, fleet: seq<FleetNode>, entered: nat)
    requires d.batchPercent.Some? && Progress(d, ctx, fleet, entered)
    requires ctx1 == ctx.(clocks := ctx1.clocks, lastResult := ctx1.lastResult)
    ensures Progress(d, ctx1, fleet, entered)
  {
    hide NoDup, Elems, Selected, BatchSize;
  }

  lemma ActionProgress(
    def: Definition, d: DeployAction, state: string, ctx: Context, w: World, fleet: seq<FleetNode>, entered: nat)
    requires OneRollout(def, d) && d.batchPercent.Some? && state in def.states && w.fleet == Some(fleet)
    requires Selected(d, fleet) != [] && NoDup(Selected(d, fleet)) && Progress(d, ctx, fleet, entered)
    ensures Progress(d, ExecuteAction(def.states[state].action, ctx, w), fleet,
                     entered + if Deploys(def, state) then 1 else 0)
  {
    hide NoDup, Selected, BatchSize, ExecuteDeploy, Handled;
    if Deploys(def, state) {
      var nodes := Selected(d, fleet);
      StartCursorAt(ctx, nodes, Min(entered * BatchSize(|nodes|, d.batchPercent.value), |nodes|));
      BatchStep(d, ctx, w, fleet);
      NextCursor(entered, BatchSize(|nodes|, d.batchPercent.value), |nodes|);
    } else {
      ProgressFrame(d, ctx, ExecuteAction(def.states[state].action, ctx, w), fleet, entered);
    }
  }

  lemma StartCursorAt(ctx: Context, nodes: seq<NodeId>, c: nat)
    requires Handled(ctx, nodes, c)
    ensures ctx.batchCursor == c
  {
  }

  lemma EntriesSnoc(def: Definition, visited: seq<string>, state: string)
    ensures Entries(def, visited + [state]) == Entries(def, visited) + if Deploys(def, state) then 1 else 0
  {
    assert (visited + [state])[..|visited|] == visited;
  }

  lemma MoveVisits(def: Definition, i: Instance, j: Instance, to: string, m: Move)
    requires i.status != Cancelled && j.status != Cancelled && j.history == i.history + [m] && m.to == to
    ensures Visited(j) == Visited(i) + [to]
  {
  }

  lemma StepProgress(def: Definition, d: DeployAction, i: Instance, op: Op, fleet: seq<FleetNode>)
    requires Valid(def) && RunOk(def, i) && OneRollout(def, d) && d.batchPercent.Some? && op.w.fleet == Some(fleet)
    requires Selected(d, fleet) != [] && NoDup(Selected(d, fleet))
    requires Progress(d, i.context, fleet, Entries(def, Visited(i)))
    ensures RunOk(def, Step(def, i, op))
    ensures Progress(d, Step(def, i, op).context, fleet, Entries(def, Visited(Step(def, i, op))))
  {
    StepKeeps(def, i, op);
    StepEffect(def, i, op);
    hide Step, Valid, HistoryOk, Progress, Entries, NoDup, Selected;
    var e := EffectOf(def, i, op);
    var j := Step(def, i, op);
    var entered := Entries(def, Visited(i));
    match e
    case Moves(to, trigger) =>
      MoveProgress(def, d, i, op, fleet);
    case ClocksOnly(clocks) =>
      ProgressFrame(d, i.context, j.context, fleet, entered);
      assert Visited(j) == Visited(i);
    case Nothing =>
    case Completes =>
      assert Visited(j) == Visited(i);
    case Cancels =>
      assert Visited(j) == Visited(i);
  }

  lemma MoveProgress(def: Definition, d: DeployAction, i: Instance, op: Op, fleet: seq<FleetNode>)
    requires Valid(def) && RunOk(def, i) && OneRollout(def, d) && d.batchPercent.Some? && op.w.fleet == Some(fleet)
    requires Selected(d, fleet) != [] && NoDup(Selected(d, fleet)) && EffectOf(def, i, op).Moves?
    requires Progress(d, i.context, fleet, Entries(def, Visited(i)))
    ensures var j := Apply(def, i, EffectOf(def, i, op), op.w);
            Visits(j) >= 0 && Progress(d, j.context, fleet, Entries(def, Visited(j)))
  {
    var e := EffectOf(def, i, op);
    MoveCaused(def, i, op);
    ValidEdge(def, i, e, op.w.now - i.updatedAt);
    hide Valid, RunOk, Progress, Entries, NoDup, Selected, EffectOf, Fire, Caused, OneRollout;
    RunVisits(def, i);
    FiredProgress(def, d, i, e.to, e.trigger, op.w, fleet);
  }

  lemma RunVisits(def: Definition, i: Instance)
    requires RunOk(def, i)
    ensures Visits(i) >= 1
  {
  }

  lemma FiredProgress(
    def: Definition, d: DeployAction, i: Instance, to: string, trigger: Trigger, w: World, fleet: seq<FleetNode>)
    requires OneRollout(def, d) && d.batchPercent.Some? && to in def.states && w.fleet == Some(fleet)
    requires Selected(d, fleet) != [] && NoDup(Selected(d, fleet)) && i.status == Running
    requires Progress(d, i.context, fleet, Entries(def, Visited(i)))
    ensures var j := Fire(def, WithClocks(i, map[]), to, trigger, w);
            Visits(j) >= 0 && Progress(d, j.context, fleet, Entries(def, Visited(j)))
  {
    hide Progress, Entries, NoDup, Selected, Fire, ExecuteAction, OneRollout, Visited, Deploys;
    var b := WithClocks(i, map[]);
    FireResult(def, b, to, trigger, w);
    var j := Fire(def, b, to, trigger, w);
    ProgressFrame(d, i.context, b.context, fleet, Entries(def, Visited(i)));
    ActionProgress(def, d, to, b.context, w, fleet, Entries(def, Visited(i)));
    MoveVisits(def, i, j, to, Move(i.currentState, to, trigger, w.now));
    EntriesSnoc(def, Visited(i), to);
  }

  lemma {:induction false} RunProgress(
    def: Definition, d: DeployAction, i: Instance, ops: seq<Op>, fleet: seq<FleetNode>)
    requires Valid(def) && RunOk(def, i) && OneRollout(def, d) && d.batchPercent.Some? && FixedFleet(ops, fleet)
    requires Selected(d, fleet) != [] && NoDup(Selected(d, fleet))
    requires Progress(d, i.context, fleet, Entries(def, Visited(i)))
    ensures RunOk(def, Run(def, i, ops))
    ensures Progress(d, Run(def, i, ops).context, fleet, Entries(def, Visited(Run(def, i, ops))))
    decreases |ops|
  {
    hide Step, Valid, HistoryOk, Progress, Entries, NoDup, Selected, StatusOk;
    if ops != [] {
      assert ops[0] in ops;
      StepProgress(def, d, i, ops[0], fleet);
      RunProgress(def, d, Step(def, i, ops[0]), ops[1..], fleet);
    }
  }

  lemma StartProgress(def: Definition, d: DeployAction, rules: string, w: World, fleet: seq<FleetNode>)
    requires Valid(def) && OneRollout(def, d) && d.batchPercent.Some? && w.fleet == Some(fleet)
    requires Selected(d, fleet) != [] && NoDup(Selected(d, fleet))
    ensures var i := StartDeployment(def, rules, w);
            Visits(i) >= 0 && Progress(d, i.context, fleet, Entries(def, Visited(i)))
  {
    var i := StartDeployment(def, rules, w);
    assert Visited(i) == [] + [def.initial];
    EntriesSnoc(def, [], def.initial);
    FreshProgress(d, rules, fleet);
    hide Valid, Progress, NoDup, Selected, ExecuteAction;
    ActionProgress(def, d, def.initial, NewContext(Some(rules), []), w, fleet, 0);
  }

  lemma FreshProgress(d: DeployAction, rules: string, fleet: seq<FleetNode>)
    requires d.batchPercent.Some?
    ensures Progress(d, NewContext(Some(rules), []), fleet, 0)
  {
    hide Selected, BatchSize;
  }

  /**
   * In every run of a deployment whose deploy actions are all `d`, over a fixed fleet of distinct nodes,
   * whatever the nodes answer and however the states are entered: `k` entries to states that deploy have
   * handled exactly the first `k` batches, each node once.
   */
  lemma BatchesOverRuns(
    def: Definition, d: DeployAction, rules: string, w: World, ops: seq<Op>, fleet: seq<FleetNode>)
    requires Valid(def) && OneRollout(def, d) && d.batchPercent.Some?
    requires w.fleet == Some(fleet) && FixedFleet(ops, fleet) && Selected(d, fleet) != [] && NoDup(Selected(d, fleet))
    ensures var e := Run(def, StartDeployment(def, rules, w), ops);
            Visits(e) >= 0 && Progress(d, e.context, fleet, Entries(def, Visited(e)))
  {
    var i := StartDeployment(def, rules, w);
    StartOk(def, i);
    StartProgress(def, d, rules, w, fleet);
    hide Valid, Progress, NoDup, Selected, Run, StartDeployment, Entries;
    RunProgress(def, d, i, ops, fleet);
  }

  /**
   * Once such a run has entered deploying states 100/percent times, rounded up, every selected node was
   * deployed to or failed, exactly one of the two.
   */
  lemma RunCovers(
    def: Definition, d: DeployAction, rules: string, w: World, ops: seq<Op>, fleet: seq<FleetNode>)
    requires Valid(def) && OneRollout(def, d) && d.batchPercent.Some? && d.batchPercent.value >= 1
    requires w.fleet == Some(fleet) && FixedFleet(ops, fleet) && Selected(d, fleet) != [] && NoDup(Selected(d, fleet))
    requires var e := Run(def, StartDeployment(def, rules, w), ops);
             Visits(e) >= 0 && Entries(def, Visited(e)) >= RunsNeeded(d.batchPercent.value)
    ensures var nodes := Selected(d, fleet);
            var ctx := Run(def, StartDeployment(def, rules, w), ops).context;
            && ctx.batchCursor == |nodes|
            && Elems(ctx.deployedNodes) !! Elems(ctx.failedNodes)
            && Elems(ctx.deployedNodes) + Elems(ctx.failedNodes) == Elems(nodes)
            && |ctx.deployedNodes| + |ctx.failedNodes| == |nodes|
  {
    BatchesOverRuns(def, d, rules, w, ops, fleet);
    hide Run, StartDeployment, Entries, Selected, BatchSize, RunsNeeded, Valid;
    var e := Run(def, StartDeployment(def, rules, w), ops);
    Covered(d, e.context, fleet, Entries(def, Visited(e)));
  }

  lemma Covered(d: DeployAction, ctx: Context, fleet: seq<FleetNode>, entered: nat)
    requires d.batchPercent.Some? && d.batchPercent.value >= 1 && Progress(d, ctx, fleet, entered)
    requires entered >= RunsNeeded(d.batchPercent.value) && Selected(d, fleet) != [] && NoDup(Selected(d, fleet))
    ensures var nodes := Selected(d, fleet);
            && ctx.batchCursor == |nodes|
            && Elems(ctx.deployedNodes) !! Elems(ctx.failedNodes)
            && Elems(ctx.deployedNodes) + Elems(ctx.failedNodes) == Elems(nodes)
            && |ctx.deployedNodes| + |ctx.failedNodes| == |nodes|
  {
    var nodes := Selected(d, fleet);
    hide Selected, BatchSize, RunsNeeded;
    RunsSuffice(|nodes|, d.batchPercent.value, entered);
    assert nodes[..|nodes|] == nodes;
    NoDupSize(nodes);
    NoDupSize(ctx.deployedNodes);
    NoDupSize(ctx.failedNodes);
  }
}
