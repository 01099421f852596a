/** Node lists of an instance over whole runs, and batch rollouts over a fixed fleet. */
module Bookkeeping {
  import opened Core
  import opened Definitions
  import opened Engine
  import opened EngineRuns

  // ----- results of one deploy -----

  lemma {:induction false} CountsAddUp(results: seq<NodeResult>)
    ensures Count(results, true) + Count(results, false) == |results|
    ensures |Outcome(results, true)| == Count(results, true)
    ensures |Outcome(results, false)| == Count(results, false)
    decreases |results|
  {
    if results != [] {
      CountsAddUp(results[..|results| - 1]);
    }
  }

  ghost function Succeeding(nodes: seq<NodeId>, w: World): set<NodeId> {
    Elems(nodes) * w.willSucceed
  }

  ghost function Failing(nodes: seq<NodeId>, w: World): set<NodeId> {
    Elems(nodes) - w.willSucceed
  }

  /** Succeeding and failing nodes together are the nodes deployed to, each with its own answer. */
  lemma {:induction false} OutcomesCover(nodes: seq<NodeId>, w: World)
    ensures Elems(Outcome(Results(nodes, w), true)) == Succeeding(nodes, w)
    ensures Elems(Outcome(Results(nodes, w), false)) == Failing(nodes, w)
    decreases |nodes|
  {
    if nodes != [] {
      var init, x := nodes[..|nodes| - 1], nodes[|nodes| - 1];
      assert nodes == init + [x];
      assert Results(nodes, w)[..|init|] == Results(init, w);
      OutcomesCover(init, w);
      ElemsAppend(init, [x]);
      ElemsAppend(Outcome(Results(init, w), true), if x in w.willSucceed then [x] else []);
      ElemsAppend(Outcome(Results(init, w), false), if x in w.willSucceed then [] else [x]);
    }
  }

  /** What a batch does to the lists: targets and results are added, and the summary counts every node once. */
  lemma BatchBooks(nodes: seq<NodeId>, ctx: Context, w: World)
    ensures var c := DeployBatch(nodes, ctx, w);
            && Elems(c.targetNodes) == Elems(ctx.targetNodes) + Elems(nodes)
            && Elems(c.deployedNodes) == Elems(ctx.deployedNodes) + Succeeding(nodes, w)
            && Elems(c.failedNodes) == Elems(ctx.failedNodes) + Failing(nodes, w)
            && ctx.targetNodes <= c.targetNodes
            && (NoDup(ctx.targetNodes) ==> NoDup(c.targetNodes))
            && (NoDup(ctx.deployedNodes) ==> NoDup(c.deployedNodes))
            && (NoDup(ctx.failedNodes) ==> NoDup(c.failedNodes))
            && c.lastResult.Some? && c.lastResult.value.succeeded + c.lastResult.value.failed == |nodes|
  {
    var results := Results(nodes, w);
    OutcomesCover(nodes, w);
    CountsAddUp(results);
    AddAllNewElems(ctx.targetNodes, nodes);
    AddAllNewElems(ctx.deployedNodes, Outcome(results, true));
    AddAllNewElems(ctx.failedNodes, Outcome(results, false));
    hide NoDup, Elems, AddAllNew, Outcome, Succeeding, Failing;
  }

  /** A rollback action reports on every deployed node once and changes nothing else. */
  lemma RollbackReport(ctx: Context, w: World)
    ensures var c := ExecuteRollback(ctx, w);
            && c == ctx.(lastResult := c.lastResult)
            && (ctx.deployedNodes == [] ==> c == ctx)
            && (ctx.deployedNodes != [] ==>
                  && c.lastResult.Some? && c.lastResult.value.total == |ctx.deployedNodes|
                  && c.lastResult.value.succeeded + c.lastResult.value.failed == |ctx.deployedNodes|
                  && forall k :: 0 <= k < |ctx.deployedNodes| ==>
                       c.lastResult.value.results[k].nodeId == ctx.deployedNodes[k])
  {
    CountsAddUp(Results(ctx.deployedNodes, w));
  }

  /** A selector picks exactly the registered nodes that carry all its labels. */
  lemma {:induction false} SelectMeaning(fleet: seq<FleetNode>, filter: map<string, string>)
    ensures forall x :: x in Select(fleet, filter) <==> exists f :: f in fleet && f.id == x && Matches(f, filter)
    decreases |fleet|
  {
    hide Matches;
    if fleet != [] {
      SelectMeaning(fleet[1..], filter);
      assert fleet == [fleet[0]] + fleet[1..];
    }
  }

  ghost predicate DistinctIds(fleet: seq<FleetNode>) {
    forall i, j :: 0 <= i < j < |fleet| ==> fleet[i].id != fleet[j].id
  }

  /** No node is selected twice when no two registered nodes share an id. */
  lemma {:induction false} SelectNoDup(fleet: seq<FleetNode>, filter: map<string, string>)
    requires DistinctIds(fleet)
    ensures NoDup(Select(fleet, filter))
    decreases |fleet|
  {
    hide Matches;
    if fleet != [] {
      var x, tail := fleet[0].id, Select(fleet[1..], filter);
      SelectNoDup(fleet[1..], filter);
      SelectMeaning(fleet[1..], filter);
      forall f | f in fleet[1..] ensures f.id != x {
        var k :| 0 <= k < |fleet[1..]| && fleet[1..][k] == f;
        assert f == fleet[k + 1];
      }
      assert x !in tail;
    }
  }

  // ----- the lists over whole runs -----

  /** Duplicate-free lists, and targets made of the initial ones and every node an action reached. */
  ghost predicate BooksOk(ctx: Context, initial: seq<NodeId>) {
    && NoDup(ctx.targetNodes) && NoDup(ctx.deployedNodes) && NoDup(ctx.failedNodes)
    && initial <= ctx.targetNodes
    && Elems(ctx.targetNodes) == Elems(initial) + Elems(ctx.deployedNodes) + Elems(ctx.failedNodes)
  }

  lemma BatchKeepsBooks(nodes: seq<NodeId>, ctx: Context, initial: seq<NodeId>, w: World)
    requires BooksOk(ctx, initial)
    ensures BooksOk(DeployBatch(nodes, ctx, w), initial)
  {
    BatchBooks(nodes, ctx, w);
    hide DeployBatch, NoDup, Elems;
    assert Elems(nodes) == Succeeding(nodes, w) + Failing(nodes, w);
  }

  lemma ActionKeepsBooks(a: Option<Action>, ctx: Context, initial: seq<NodeId>, w: World)
    requires BooksOk(ctx, initial)
    ensures BooksOk(ExecuteAction(a, ctx, w), initial)
  {
    hide DeployBatch, Select, Limit, BatchSize, NoDup, Elems;
    if a.Some? && a.value.deploy.Some? && ctx.rulesYaml.Some? && w.fleet.Some? {
      var d := a.value.deploy.value;
      var selected := Limit(Select(w.fleet.value, d.select), d.limit);
      BatchKeepsBooks(selected, ctx, initial, w);
      var n := |selected|;
      if d.batchPercent.Some? && ctx.batchCursor < n {
        var end := ctx.batchCursor + BatchSize(n, d.batchPercent.value);
        var end' := if end > n then n else end;
        BatchKeepsBooks(selected[ctx.batchCursor..end'], ctx.(batchCursor := end'), initial, w);
      }
    }
  }

  lemma StepKeepsBooks(def: Definition, i: Instance, op: Op, initial: seq<NodeId>)
    requires OwnClocks(i.currentState, i.context.clocks) && BooksOk(i.context, initial)
    ensures BooksOk(Step(def, i, op).context, initial)
  {
    StepEffect(def, i, op);
    hide Step;
    var e := EffectOf(def, i, op);
    hide EffectOf;
    if e.Moves? && e.to in def.states {
      var ctx := i.context.(clocks := map[]);
      assert DropClocks(map[], i.currentState) == map[];
      ActionKeepsBooks(def.states[e.to].action, ctx, initial, op.w);
      hide ExecuteAction;
    }
  }

  lemma {:induction false} RunKeepsBooks(def: Definition, i: Instance, ops: seq<Op>, initial: seq<NodeId>)
    requires Valid(def) && RunOk(def, i) && BooksOk(i.context, initial)
    ensures BooksOk(Run(def, i, ops).context, initial)
    decreases |ops|
  {
    hide Step, BooksOk, HistoryOk, StatusOk, Valid;
    if ops != [] {
      StepKeeps(def, i, ops[0]);
      StepKeepsBooks(def, i, ops[0], initial);
      RunKeepsBooks(def, Step(def, i, ops[0]), ops[1..], initial);
    }
  }

  /**
   * Over every run of an instance started as a deployment, whatever happens to the fleet between
   * actions: no list repeats a node, and the targets are exactly the deployed and the failed nodes.
   */
  lemma DeploymentBooks(def: Definition, i: Instance, ops: seq<Op>)
    requires Valid(def) && StartsDeployment(def, i)
    ensures var ctx := Run(def, i, ops).context;
            && NoDup(ctx.targetNodes) && NoDup(ctx.deployedNodes) && NoDup(ctx.failedNodes)
            && Elems(ctx.targetNodes) == Elems(ctx.deployedNodes) + Elems(ctx.failedNodes)
  {
    var rules, w :| i == StartDeployment(def, rules, w);
    StartOk(def, i);
    ActionKeepsBooks(def.states[def.initial].action, NewContext(Some(rules), []), [], w);
    hide Run, RunOk, ExecuteAction;
    RunKeepsBooks(def, i, ops, []);
  }

  /** Over every run of an instance started by label, the initial targets stay, so there always are some. */
  lemma AdaptiveBooks(def: Definition, i: Instance, ops: seq<Op>)
    requires Valid(def) && StartsAdaptive(def, i)
    ensures var ctx := Run(def, i, ops).context;
            && NoDup(ctx.targetNodes) && NoDup(ctx.deployedNodes) && NoDup(ctx.failedNodes)
            && ctx.targetNodes != []
            && Elems(ctx.deployedNodes) + Elems(ctx.failedNodes) <= Elems(ctx.targetNodes)
  {
    var rules, filter: map<string, string>, w: World :|
      w.fleet.Some? && NoDup(Select(w.fleet.value, filter)) && StartAdaptive(def, rules, filter, w) == Ok(i);
    var initial := Select(w.fleet.value, filter);
    StartOk(def, i);
    ActionKeepsBooks(def.states[def.initial].action, NewContext(rules, initial), initial, w);
    hide Run, RunOk, ExecuteAction;
    RunKeepsBooks(def, i, ops, initial);
  }

  // ----- batch rollouts -----

  /** The nodes a deploy action selects from a fleet. */
  function Selected(d: DeployAction, fleet: seq<FleetNode>): seq<NodeId> {
    Limit(Select(fleet, d.select), d.limit)
  }

  /** The action performed once per world, from a context. */
  function RunBatches(d: DeployAction, ctx: Context, ws: seq<World>): Context
    decreases |ws|
  {
    if ws == [] then ctx else ExecuteDeploy(d, RunBatches(d, ctx, ws[..|ws| - 1]), ws[|ws| - 1])
  }

  ghost predicate SameFleet(ws: seq<World>, fleet: seq<FleetNode>) {
    forall w | w in ws :: w.fleet == Some(fleet)
  }

  function Min(a: int, b: int): int {
    if a < b then a else b
  }

  /** One run takes the next `BatchSize` nodes, and no others, until none are left. */
  lemma BatchRun(d: DeployAction, ctx: Context, w: World, fleet: seq<FleetNode>)
    requires d.batchPercent.Some? && ctx.rulesYaml.Some? && w.fleet == Some(fleet)
    requires Selected(d, fleet) != [] && ctx.batchCursor < |Selected(d, fleet)|
    ensures var nodes := Selected(d, fleet);
            var next := Min(ctx.batchCursor + BatchSize(|nodes|, d.batchPercent.value), |nodes|);
            ExecuteDeploy(d, ctx, w) == DeployBatch(nodes[ctx.batchCursor..next], ctx.(batchCursor := next), w)
  {
    hide DeployBatch, Select, BatchSize;
  }

  /** The batches so far handled exactly the first `c` nodes, each once. */
  ghost predicate Handled(ctx: Context, nodes: seq<NodeId>, c: nat) {
    && c <= |nodes| && ctx.batchCursor == c && ctx.rulesYaml.Some?
    && NoDup(ctx.deployedNodes) && NoDup(ctx.failedNodes)
    && Elems(ctx.deployedNodes) !! Elems(ctx.failedNodes)
    && Elems(ctx.deployedNodes) + Elems(ctx.failedNodes) == Elems(nodes[..c])
  }

  lemma SliceApart(nodes: seq<NodeId>, c: nat, next: nat)
    requires NoDup(nodes) && c <= next <= |nodes|
    ensures Elems(nodes[..c]) !! Elems(nodes[c..next])
    ensures Elems(nodes[..next]) == Elems(nodes[..c]) + Elems(nodes[c..next])
  {
    assert nodes[..next] == nodes[..c] + nodes[c..next];
    ElemsAppend(nodes[..c], nodes[c..next]);
    forall i, j | 0 <= i < c && 0 <= j < next - c ensures nodes[..c][i] != nodes[c..next][j] {
      assert nodes[i] != nodes[c + j];
    }
  }

  lemma BatchHandles(ctx: Context, nodes: seq<NodeId>, c: nat, next: nat, w: World)
    requires NoDup(nodes) && Handled(ctx, nodes, c) && c <= next <= |nodes|
    ensures Handled(DeployBatch(nodes[c..next], ctx.(batchCursor := next), w), nodes, next)
  {
    var batch := nodes[c..next];
    BatchBooks(batch, ctx.(batchCursor := next), w);
    SliceApart(nodes, c, next);
    assert DeployBatch(batch, ctx.(batchCursor := next), w).batchCursor == next;
    assert DeployBatch(batch, ctx.(batchCursor := next), w).rulesYaml == ctx.rulesYaml;
    hide NoDup, Elems, DeployBatch;
    assert Elems(batch) == Succeeding(batch, w) + Failing(batch, w);
  }

  lemma BatchStep(d: DeployAction, ctx: Context, w: World, fleet: seq<FleetNode>)
    requires d.batchPercent.Some? && w.fleet == Some(fleet)
    requires var nodes := Selected(d, fleet); nodes != [] && NoDup(nodes) && Handled(ctx, nodes, ctx.batchCursor)
    ensures var nodes := Selected(d, fleet);
            var end := ExecuteDeploy(d, ctx, w);
            && end.batchCursor == Min(ctx.batchCursor + BatchSize(|nodes|, d.batchPercent.value), |nodes|)
            && Handled(end, nodes, end.batchCursor)
  {
    var nodes := Selected(d, fleet);
    hide NoDup, Selected, DeployBatch, Elems;
    BatchSizeRange(|nodes|, d.batchPercent.value);
    hide BatchSize;
    if ctx.batchCursor < |nodes| {
      BatchRun(d, ctx, w, fleet);
      hide ExecuteDeploy;
      var next := Min(ctx.batchCursor + BatchSize(|nodes|, d.batchPercent.value), |nodes|);
      BatchHandles(ctx, nodes, ctx.batchCursor, next, w);
    } else {
      BatchesDone(d, ctx, w, fleet);
      hide ExecuteDeploy;
    }
  }

  lemma NextCursor(k: nat, size: nat, n: nat)
    ensures Min(Min(k * size, n) + size, n) == Min((k + 1) * size, n)
  {
    assert (k + 1) * size == k * size + size;
  }

  /**
   * `k` runs of one batch action over a fixed fleet, whatever each node answers, advance the cursor
   * to `k` batches and handle exactly the nodes before it, every node once.
   */
  lemma {:induction false} BatchesHandle(d: DeployAction, ctx: Context, ws: seq<World>, fleet: seq<FleetNode>)
    requires d.batchPercent.Some? && SameFleet(ws, fleet)
    requires var nodes := Selected(d, fleet); nodes != [] && NoDup(nodes) && Handled(ctx, nodes, 0)
    ensures var nodes := Selected(d, fleet);
            var end := RunBatches(d, ctx, ws);
            && end.batchCursor == Min(|ws| * BatchSize(|nodes|, d.batchPercent.value), |nodes|)
            && Handled(end, nodes, end.batchCursor)
    decreases |ws|
  {
    hide NoDup, Selected, BatchSize, ExecuteDeploy, Handled;
    if ws == [] {
      StartCursor(ctx, Selected(d, fleet));
    } else {
      var nodes := Selected(d, fleet);
      var size := BatchSize(|nodes|, d.batchPercent.value);
      var init, w := ws[..|ws| - 1], ws[|ws| - 1];
      assert w in ws && SameFleet(init, fleet);
      BatchesHandle(d, ctx, init, fleet);
      BatchStep(d, RunBatches(d, ctx, init), w, fleet);
      NextCursor(|init|, size, |nodes|);
    }
  }

  lemma StartCursor(ctx: Context, nodes: seq<NodeId>)
    requires Handled(ctx, nodes, 0)
    ensures ctx.batchCursor == 0
  {
  }

  lemma BatchSizeRange(n: nat, percent: nat)
    requires n > 0
    ensures 1 <= BatchSize(n, percent) <= n
    ensures BatchSize(n, percent) * 100 >= n * Min(percent, 100)
    ensures BatchSize(n, percent) > 1 ==> (BatchSize(n, percent) - 1) * 100 < n * percent
  {
    if percent <= 100 {
      assert n * percent <= n * 100;
    }
  }

  /** Once the cursor has passed the last node, a run only reports the totals. */
  lemma BatchesDone(d: DeployAction, ctx: Context, w: World, fleet: seq<FleetNode>)
    requires d.batchPercent.Some? && ctx.rulesYaml.Some? && w.fleet == Some(fleet)
    requires Selected(d, fleet) != [] && ctx.batchCursor >= |Selected(d, fleet)|
    ensures ExecuteDeploy(d, ctx, w)
            == ctx.(lastResult := Some(ActionResult(|ctx.deployedNodes|, |ctx.failedNodes|, |Selected(d, fleet)|, [])))
  {
    hide Select, BatchSize, DeployBatch;
  }

  /** Runs needed for `percent`: 100 divided by it, rounded up. */
  function RunsNeeded(percent: nat): nat
    requires percent >= 1
  {
    (100 + percent - 1) / percent
  }

  lemma RunsSuffice(n: nat, percent: nat, runs: nat)
    requires n > 0 && percent >= 1 && runs >= RunsNeeded(percent)
    ensures runs * BatchSize(n, percent) >= n
  {
    var size := BatchSize(n, percent);
    BatchSizeRange(n, percent);
    hide BatchSize, RunsNeeded;
    assert runs >= 1 by { DivUp(percent, runs); }
    if percent <= 100 {
      assert runs * percent >= 100 by { DivUp(percent, runs); }
      assert size * 100 * runs >= n * percent * runs by { MulLe(n * percent, size * 100, runs); }
      assert n * percent * runs >= n * 100 by { MulLe(100, runs * percent, n); Assoc(n, percent, runs); }
      Assoc(size, 100, runs);
    } else {
      MulLe(1, runs, size);
    }
  }

  lemma DivUp(percent: nat, runs: nat)
    requires percent >= 1 && runs >= RunsNeeded(percent)
    ensures runs * percent >= 100
  {
    var q := RunsNeeded(percent);
    assert q * percent + (100 + percent - 1) % percent == 100 + percent - 1;
    MulLe(q, runs, percent);
  }

  lemma MulLe(a: int, b: int, c: nat)
    requires a <= b
    ensures a * c <= b * c
  {
  }

  lemma Assoc(a: int, b: int, c: int)
    ensures a * b * c == a * (b * c) == a * (c * b)
  {
  }

  /**
   * A rollout in batches of `percent` from a fresh deployment context over a fixed fleet of distinct
   * nodes ends within 100/percent runs, rounded up: every node was handled exactly once, and the next
   * run reports each of them as succeeded or failed.
   */
  lemma BatchRolloutCovers(d: DeployAction, rules: string, ws: seq<World>, w: World, fleet: seq<FleetNode>)
    requires d.batchPercent.Some? && d.batchPercent.value >= 1 && |ws| >= RunsNeeded(d.batchPercent.value)
    requires SameFleet(ws + [w], fleet) && Selected(d, fleet) != [] && NoDup(Selected(d, fleet))
    ensures var nodes := Selected(d, fleet);
            var end := RunBatches(d, NewContext(Some(rules), []), ws);
            && end.batchCursor == |nodes|
            && Elems(end.deployedNodes) !! Elems(end.failedNodes)
            && Elems(end.deployedNodes) + Elems(end.failedNodes) == Elems(nodes)
            && ExecuteDeploy(d, end, w)
               == end.(lastResult := Some(ActionResult(|end.deployedNodes|, |end.failedNodes|, |nodes|, [])))
            && |end.deployedNodes| + |end.failedNodes| == |nodes|
  {
    var nodes := Selected(d, fleet);
    var start := NewContext(Some(rules), []);
    assert forall x | x in ws :: x in ws + [w];
    assert w in ws + [w];
    BatchesHandle(d, start, ws, fleet);
    RunsSuffice(|nodes|, d.batchPercent.value, |ws|);
    var end := RunBatches(d, start, ws);
    hide RunBatches, Selected, ExecuteDeploy, BatchSize, RunsNeeded;
    BatchesDone(d, end, w, fleet);
    assert nodes[..|nodes|] == nodes;
    NoDupSize(nodes);
    NoDupSize(end.deployedNodes);
    NoDupSize(end.failedNodes);
  }
}
