/** Which nodes a deploy action takes and what it books, spelled out in the fleet as it is listed. */
module DeployActions {
  import opened Core
  import opened Definitions
  import opened Engine
  import opened Bookkeeping

  // ----- selection -----

  predicate Carries(f: FleetNode, labels: map<string, string>) {
    forall key :: key in labels ==> key in f.labels && f.labels[key] == labels[key]
  }

  /** Positions below `n`, in order. */
  ghost predicate Ascends(at: seq<nat>, n: nat) {
    && (forall i, j :: 0 <= i < j < |at| ==> at[i] < at[j])
    && forall i :: 0 <= i < |at| ==> at[i] < n
  }

  lemma LastOf(at: seq<nat>, n: nat)
    requires Ascends(at, n + 1) && n in at
    ensures var k := |at| - 1;
            && at != [] && at[k] == n && Ascends(at[..k], n)
            && forall p :: p in at[..k] <==> p in at && p != n
  {
    var j :| 0 <= j < |at| && at[j] == n;
    var k := |at| - 1;
    assert forall i :: 0 <= i < k ==> at[i] < at[k] <= n;
    assert at == at[..k] + [n];
  }

  lemma NotLast(at: seq<nat>, n: nat)
    requires Ascends(at, n + 1) && n !in at
    ensures Ascends(at, n)
  {
    forall i | 0 <= i < |at| ensures at[i] < n {
      assert at[i] in at;
    }
  }

  /** The positions, in order, of the nodes that carry all the labels. */
  ghost predicate Picks(idx: seq<nat>, fleet: seq<FleetNode>, labels: map<string, string>) {
    && Ascends(idx, |fleet|)
    && forall p: nat :: p < |fleet| ==> (p in idx <==> Carries(fleet[p], labels))
  }

  function IdsAt(fleet: seq<FleetNode>, idx: seq<nat>): seq<NodeId>
    requires forall i :: 0 <= i < |idx| ==> idx[i] < |fleet|
  {
    seq(|idx|, i requires 0 <= i < |idx| => fleet[idx[i]].id)
  }

  lemma CarriesIs(f: FleetNode, labels: map<string, string>)
    ensures Carries(f, labels) <==> Matches(f, labels)
  {
  }

  function IdIf(f: FleetNode, labels: map<string, string>): seq<NodeId> {
    if Carries(f, labels) then [f.id] else []
  }

  lemma SelectFirst(fleet: seq<FleetNode>, labels: map<string, string>)
    ensures Select([], labels) == []
    ensures fleet != [] ==> Select(fleet, labels) == IdIf(fleet[0], labels) + Select(fleet[1..], labels)
  {
    if fleet != [] {
      CarriesIs(fleet[0], labels);
    }
    hide Carries, Matches;
  }

  lemma {:induction false} SelectSnoc(fleet: seq<FleetNode>, f: FleetNode, labels: map<string, string>)
    ensures Select(fleet + [f], labels) == Select(fleet, labels) + IdIf(f, labels)
    decreases |fleet|
  {
    hide Select, IdIf;
    SelectFirst(fleet + [f], labels);
    SelectFirst(fleet, labels);
    if fleet == [] {
      assert fleet + [f] == [f] && [f][1..] == [];
    } else {
      assert (fleet + [f])[1..] == fleet[1..] + [f];
      SelectSnoc(fleet[1..], f, labels);
      Regroup(IdIf(fleet[0], labels), Select(fleet[1..], labels), IdIf(f, labels));
    }
  }

  lemma Regroup<T>(a: seq<T>, b: seq<T>, c: seq<T>)
    ensures a + (b + c) == a + b + c
  {
  }

  /** Picking from a fleet without its last node. */
  lemma PicksInit(idx: seq<nat>, fleet: seq<FleetNode>, labels: map<string, string>)
    requires Picks(idx, fleet, labels) && fleet != []
    ensures var last := |fleet| - 1;
            if Carries(fleet[last], labels) then
              idx != [] && idx[|idx| - 1] == last && Picks(idx[..|idx| - 1], fleet[..last], labels)
            else Picks(idx, fleet[..last], labels)
  {
    hide Carries, Ascends;
    var last := |fleet| - 1;
    if last in idx {
      LastOf(idx, last);
    } else {
      NotLast(idx, last);
    }
  }

  lemma PicksSome(idx: seq<nat>, fleet: seq<FleetNode>, labels: map<string, string>)
    requires Picks(idx, fleet, labels) && idx != []
    ensures idx[0] < |fleet|
  {
    hide Carries;
  }

  lemma IdsInit(idx: seq<nat>, fleet: seq<FleetNode>, n: nat)
    requires Ascends(idx, n) && n <= |fleet|
    ensures IdsAt(fleet, idx) == IdsAt(fleet[..n], idx)
  {
  }

  lemma IdsLast(idx: seq<nat>, fleet: seq<FleetNode>, n: nat)
    requires idx != [] && idx[|idx| - 1] == n < |fleet| && Ascends(idx[..|idx| - 1], n) && Ascends(idx, |fleet|)
    ensures IdsAt(fleet, idx) == IdsAt(fleet[..n], idx[..|idx| - 1]) + [fleet[n].id]
  {
  }

  /** The label query answers the nodes at those positions, in that order. */
  lemma {:induction false} SelectIs(idx: seq<nat>, fleet: seq<FleetNode>, labels: map<string, string>)
    requires Picks(idx, fleet, labels)
    ensures Ascends(idx, |fleet|) && Select(fleet, labels) == IdsAt(fleet, idx)
    decreases |fleet|
  {
    hide Carries, Picks, IdsAt, Select;
    PicksBound(idx, fleet, labels);
    SelectNone(labels);
    if fleet == [] {
      if idx != [] {
        PicksSome(idx, fleet, labels);
      }
    } else {
      var last := |fleet| - 1;
      PicksInit(idx, fleet, labels);
      assert fleet == fleet[..last] + [fleet[last]];
      SelectSnoc(fleet[..last], fleet[last], labels);
      if Carries(fleet[last], labels) {
        SelectIs(idx[..|idx| - 1], fleet[..last], labels);
        IdsLast(idx, fleet, last);
      } else {
        SelectIs(idx, fleet[..last], labels);
        IdsInit(idx, fleet, last);
      }
    }
  }

  lemma SelectNone(labels: map<string, string>)
    ensures Select([], labels) == [] == IdsAt([], [])
  {
  }

  lemma PicksBound(idx: seq<nat>, fleet: seq<FleetNode>, labels: map<string, string>)
    requires Picks(idx, fleet, labels)
    ensures Ascends(idx, |fleet|)
  {
    hide Carries;
  }

  /** There always are such positions. */
  lemma {:induction false} Picked(fleet: seq<FleetNode>, labels: map<string, string>) returns (idx: seq<nat>)
    ensures Picks(idx, fleet, labels)
    decreases |fleet|
  {
    hide Carries;
    if fleet == [] {
      idx := [];
    } else {
      var last := |fleet| - 1;
      var init := Picked(fleet[..last], labels);
      if Carries(fleet[last], labels) {
        idx := init + [last];
      } else {
        idx := init;
      }
      forall p: nat | p < |fleet| ensures p in idx <==> Carries(fleet[p], labels) {
        if p < last {
          assert fleet[..last][p] == fleet[p];
        }
      }
    }
  }

  // ----- lists that grow -----

  /** Positions in `xs` of the elements not met before, neither in `old` nor in `xs`. */
  ghost predicate Unmet<T(!new)>(at: seq<nat>, before: seq<T>, xs: seq<T>) {
    && Ascends(at, |xs|)
    && forall p: nat :: p < |xs| ==> (p in at <==> xs[p] !in before && xs[p] !in xs[..p])
  }

  /** `after` is `before` followed by the elements of `xs` not met before, in their order. */
  ghost predicate Extends<T(!new)>(before: seq<T>, xs: seq<T>, after: seq<T>) {
    exists at :: Unmet(at, before, xs) && after == before + Chosen(xs, at)
  }

  ghost function Chosen<T>(xs: seq<T>, at: seq<nat>): seq<T>
    requires forall i :: 0 <= i < |at| ==> at[i] < |xs|
  {
    seq(|at|, i requires 0 <= i < |at| => xs[at[i]])
  }

  lemma {:induction false} AddAllExtends<T(!new)>(before: seq<T>, xs: seq<T>)
    ensures Extends(before, xs, AddAllNew(before, xs))
    decreases |xs|
  {
    if xs == [] {
      assert Unmet([], before, xs);
      assert before + Chosen(xs, []) == before;
    } else {
      var last := |xs| - 1;
      var init, x := xs[..last], xs[last];
      assert xs == init + [x];
      AddAllExtends(before, init);
      AddAllNewSnoc(before, init, x);
      AddAllNewElems(before, init);
      var at :| Unmet(at, before, init) && AddAllNew(before, init) == before + Chosen(init, at);
      ExtendOne(at, before, init, x);
    }
  }

  lemma ExtendOne<T(!new)>(at: seq<nat>, before: seq<T>, init: seq<T>, x: T)
    requires Unmet(at, before, init)
    requires Elems(before + Chosen(init, at)) == Elems(before) + Elems(init)
    ensures Extends(before, init + [x], AddNew(before + Chosen(init, at), x))
  {
    hide Unmet, Chosen;
    UnmetBound(at, before, init);
    var now := before + Chosen(init, at);
    assert x in now <==> x in Elems(now);
    if x in before || x in init {
      UnmetSame(at, before, init, x);
      ChosenSame(at, init, x);
    } else {
      UnmetMore(at, before, init, x);
      ChosenSame(at, init, x);
      ChosenMore(at, init, x);
      assert now + [x] == before + (Chosen(init, at) + [x]);
    }
  }

  lemma UnmetBound<T(!new)>(at: seq<nat>, before: seq<T>, xs: seq<T>)
    requires Unmet(at, before, xs)
    ensures forall i :: 0 <= i < |at| ==> at[i] < |xs|
  {
  }

  lemma UnmetSame<T(!new)>(at: seq<nat>, before: seq<T>, init: seq<T>, x: T)
    requires Unmet(at, before, init) && (x in before || x in init)
    ensures Unmet(at, before, init + [x])
  {
    var xs := init + [x];
    assert xs[..|init|] == init;
    forall p: nat | p < |xs| ensures p in at <==> xs[p] !in before && xs[p] !in xs[..p] {
      if p < |init| {
        assert xs[..p] == init[..p];
      }
    }
  }

  lemma UnmetMore<T(!new)>(at: seq<nat>, before: seq<T>, init: seq<T>, x: T)
    requires Unmet(at, before, init) && x !in before && x !in init
    ensures Unmet(at + [|init|], before, init + [x])
  {
    var xs := init + [x];
    assert xs[..|init|] == init;
    forall p: nat | p < |xs| ensures p in at + [|init|] <==> xs[p] !in before && xs[p] !in xs[..p] {
      if p < |init| {
        assert xs[..p] == init[..p];
      }
    }
  }

  lemma ChosenSame<T>(at: seq<nat>, init: seq<T>, x: T)
    requires forall i :: 0 <= i < |at| ==> at[i] < |init|
    ensures Chosen(init + [x], at) == Chosen(init, at)
  {
  }

  lemma ChosenMore<T>(at: seq<nat>, init: seq<T>, x: T)
    requires forall i :: 0 <= i < |at| ==> at[i] < |init|
    ensures Chosen(init + [x], at + [|init|]) == Chosen(init, at) + [x]
  {
  }

  // ----- answers -----

  /** The positions, in order, of the nodes whose deploy succeeds, or of those whose deploy fails. */
  ghost predicate Answering(at: seq<nat>, ids: seq<NodeId>, success: bool, w: World) {
    && Ascends(at, |ids|)
    && forall p: nat :: p < |ids| ==> (p in at <==> (ids[p] in w.willSucceed) == success)
  }

  lemma AnsweringInit(at: seq<nat>, ids: seq<NodeId>, success: bool, w: World)
    requires Answering(at, ids, success, w) && ids != []
    ensures var last := |ids| - 1;
            if (ids[last] in w.willSucceed) == success then
              at != [] && at[|at| - 1] == last && Answering(at[..|at| - 1], ids[..last], success, w)
            else Answering(at, ids[..last], success, w)
  {
    hide Ascends;
    var last := |ids| - 1;
    if last in at {
      LastOf(at, last);
    } else {
      NotLast(at, last);
    }
  }

  lemma AnsweringSome(at: seq<nat>, ids: seq<NodeId>, success: bool, w: World)
    requires Answering(at, ids, success, w) && at != []
    ensures at[0] < |ids|
  {
  }

  lemma ChosenInit<T>(at: seq<nat>, xs: seq<T>, n: nat)
    requires Ascends(at, n) && n <= |xs|
    ensures Chosen(xs, at) == Chosen(xs[..n], at)
  {
  }

  lemma ChosenLast<T>(at: seq<nat>, xs: seq<T>, n: nat)
    requires at != [] && at[|at| - 1] == n < |xs| && Ascends(at[..|at| - 1], n) && Ascends(at, |xs|)
    ensures Chosen(xs, at) == Chosen(xs[..n], at[..|at| - 1]) + [xs[n]]
  {
  }

  lemma OutcomeSnoc(ids: seq<NodeId>, success: bool, w: World)
    ensures Outcome(Results([], w), success) == [] == Chosen([], [])
    ensures ids != [] ==>
              var last := |ids| - 1;
              Outcome(Results(ids, w), success)
              == Outcome(Results(ids[..last], w), success)
                 + if (ids[last] in w.willSucceed) == success then [ids[last]] else []
  {
    if ids != [] {
      assert Results(ids, w)[..|ids| - 1] == Results(ids[..|ids| - 1], w);
    }
  }

  lemma {:induction false} OutcomeIs(at: seq<nat>, ids: seq<NodeId>, success: bool, w: World)
    requires Answering(at, ids, success, w)
    ensures Ascends(at, |ids|) && Outcome(Results(ids, w), success) == Chosen(ids, at)
    decreases |ids|
  {
    hide Answering, Chosen, Outcome, Results;
    AnsweringBound(at, ids, success, w);
    OutcomeSnoc(ids, success, w);
    if ids == [] {
      if at != [] {
        AnsweringSome(at, ids, success, w);
      }
    } else {
      var last := |ids| - 1;
      AnsweringInit(at, ids, success, w);
      if (ids[last] in w.willSucceed) == success {
        OutcomeIs(at[..|at| - 1], ids[..last], success, w);
        ChosenLast(at, ids, last);
      } else {
        OutcomeIs(at, ids[..last], success, w);
        ChosenInit(at, ids, last);
        assert Outcome(Results(ids[..last], w), success) + [] == Outcome(Results(ids[..last], w), success);
      }
    }
  }

  lemma AnsweringBound(at: seq<nat>, ids: seq<NodeId>, success: bool, w: World)
    requires Answering(at, ids, success, w)
    ensures Ascends(at, |ids|)
  {
  }

  /** There always are such positions. */
  lemma {:induction false} Answered(ids: seq<NodeId>, success: bool, w: World) returns (at: seq<nat>)
    ensures Answering(at, ids, success, w)
    decreases |ids|
  {
    if ids == [] {
      at := [];
    } else {
      var last := |ids| - 1;
      at := Answered(ids[..last], success, w);
      if (ids[last] in w.willSucceed) == success {
        at := at + [last];
      }
      forall p: nat | p < |ids| ensures p in at <==> (ids[p] in w.willSucceed) == success {
        if p < last {
          assert ids[..last][p] == ids[p];
        }
      }
    }
  }

  // ----- the deploy action -----

  /** `percent` of `m` rounded up, but one at least and `m` at most. */
  predicate IsBatch(size: nat, m: nat, percent: nat) {
    && 1 <= size <= m
    && (size == m || size * 100 >= m * percent)
    && (size == 1 || (size - 1) * 100 < m * percent)
  }

  /** How many of `n` matching nodes the action may take at all. */
  function Allowed(d: DeployAction, n: nat): nat {
    if d.limit.Some? && d.limit.value < n then d.limit.value else n
  }

  /** Of `n` matching nodes the action takes those from `lo` to `hi`. */
  ghost predicate Takes(d: DeployAction, ctx: Context, n: nat, lo: nat, hi: nat) {
    var m := Allowed(d, n);
    if d.batchPercent.None? then lo == 0 && hi == m
    else
      && lo == ctx.batchCursor && lo < m
      && exists size: nat :: IsBatch(size, m, d.batchPercent.value) && hi == if lo + size < m then lo + size else m
  }

  lemma RoundsUp(size: nat, m: nat, x: nat)
    requires 1 <= size <= m && (size == m || size * 100 >= x) && (size == 1 || (size - 1) * 100 < x)
    ensures var up := (x + 99) / 100; size == if up < 1 then 1 else if up > m then m else up
  {
  }

  lemma BatchOnce(size: nat, m: nat, percent: nat)
    requires IsBatch(size, m, percent)
    ensures size == BatchSize(m, percent)
  {
    RoundsUp(size, m, m * percent);
  }

  /** Where there is a node, there is such a batch. */
  lemma BatchThere(m: nat, percent: nat)
    requires m > 0
    ensures IsBatch(BatchSize(m, percent), m, percent)
  {
    BatchSizeRange(m, percent);
    hide BatchSize;
    if percent >= 100 {
      assert m * percent >= m * 100;
    }
  }

  /** One entry for each node, in order, with its own answer, and the numbers of both answers. */
  ghost predicate Reported(r: ActionResult, ids: seq<NodeId>, succeeded: nat, failed: nat, w: World) {
    && r.succeeded == succeeded && r.failed == failed && r.total == |r.results| == |ids|
    && forall k :: 0 <= k < |ids| ==> r.results[k] == NodeResult(ids[k], ids[k] in w.willSucceed)
  }

  /** What deploying to these nodes, in this order, makes of the context. */
  ghost predicate Booked(ctx: Context, c: Context, ids: seq<NodeId>, good: seq<nat>, bad: seq<nat>, w: World)
    requires Ascends(good, |ids|) && Ascends(bad, |ids|)
  {
    && Extends(ctx.targetNodes, ids, c.targetNodes)
    && Extends(ctx.deployedNodes, Chosen(ids, good), c.deployedNodes)
    && Extends(ctx.failedNodes, Chosen(ids, bad), c.failedNodes)
    && c.lastResult.Some? && Reported(c.lastResult.value, ids, |good|, |bad|, w)
    && c.rulesYaml == ctx.rulesYaml && c.clocks == ctx.clocks
  }

  lemma BatchBooked(ctx: Context, ids: seq<NodeId>, good: seq<nat>, bad: seq<nat>, w: World)
    requires Answering(good, ids, true, w) && Answering(bad, ids, false, w)
    ensures var c := DeployBatch(ids, ctx, w); Booked(ctx, c, ids, good, bad, w) && c.batchCursor == ctx.batchCursor
  {
    hide Extends, AddAllNew, Outcome, Count;
    var results := Results(ids, w);
    OutcomeIs(good, ids, true, w);
    OutcomeIs(bad, ids, false, w);
    CountsAddUp(results);
    AddAllExtends(ctx.targetNodes, ids);
    AddAllExtends(ctx.deployedNodes, Outcome(results, true));
    AddAllExtends(ctx.failedNodes, Outcome(results, false));
  }

  lemma IdsSlice(fleet: seq<FleetNode>, idx: seq<nat>, lo: nat, hi: nat)
    requires Ascends(idx, |fleet|) && lo <= hi <= |idx|
    ensures IdsAt(fleet, idx)[lo..hi] == IdsAt(fleet, idx[lo..hi])
  {
  }

  /** The nodes the action deploys to. */
  function Taken(fleet: seq<FleetNode>, idx: seq<nat>, lo: nat, hi: nat): seq<NodeId>
    requires (forall i :: 0 <= i < |idx| ==> idx[i] < |fleet|) && lo <= hi <= |idx|
  {
    IdsAt(fleet, idx[lo..hi])
  }

  lemma TakesBound(d: DeployAction, ctx: Context, n: nat, lo: nat, hi: nat)
    requires Takes(d, ctx, n, lo, hi)
    ensures lo <= hi <= n
  {
  }

  /**
   * A deploy action with rules and a listing deploys to the first nodes of the listing that carry its
   * labels, up to its limit; with batches, to those of them from the cursor on, up to one batch. They
   * become targets, each is booked as deployed or failed by its own answer, the lists grow in order and
   * repeat nothing, the result has one entry for each, and only batches move the cursor.
   */
  lemma DeployTakes(a: Action, d: DeployAction, ctx: Context, w: World, fleet: seq<FleetNode>, idx: seq<nat>, lo: nat,
                    hi: nat, good: seq<nat>, bad: seq<nat>)
    requires a.deploy == Some(d) && ctx.rulesYaml.Some? && w.fleet == Some(fleet)
    requires Picks(idx, fleet, d.select) && idx != [] && Takes(d, ctx, |idx|, lo, hi) && lo <= hi <= |idx|
    requires Answering(good, Taken(fleet, idx, lo, hi), true, w) && Answering(bad, Taken(fleet, idx, lo, hi), false, w)
    ensures var c := ExecuteAction(Some(a), ctx, w);
            && Booked(ctx, c, Taken(fleet, idx, lo, hi), good, bad, w)
            && c.batchCursor == if d.batchPercent.None? then ctx.batchCursor else hi
  {
    hide Select, DeployBatch, Booked, BatchSize, IsBatch, Answering;
    SelectIs(idx, fleet, d.select);
    var all := IdsAt(fleet, idx);
    IdsSlice(fleet, idx, lo, hi);
    var ids := Taken(fleet, idx, lo, hi);
    AnsweringBound(good, ids, true, w);
    AnsweringBound(bad, ids, false, w);
    if d.batchPercent.None? {
      assert Limit(all, d.limit) == all[..hi] == all[lo..hi];
      BatchBooked(ctx, ids, good, bad, w);
    } else {
      var m := Allowed(d, |idx|);
      var size: nat :| IsBatch(size, m, d.batchPercent.value) && hi == if lo + size < m then lo + size else m;
      BatchOnce(size, m, d.batchPercent.value);
      assert Limit(all, d.limit)[lo..hi] == all[lo..hi];
      BatchBooked(ctx.(batchCursor := hi), ids, good, bad, w);
      BookedCursor(ctx, hi, DeployBatch(ids, ctx.(batchCursor := hi), w), ids, good, bad, w);
    }
  }

  lemma BookedCursor(ctx: Context, k: nat, c: Context, ids: seq<NodeId>, good: seq<nat>, bad: seq<nat>, w: World)
    requires Ascends(good, |ids|) && Ascends(bad, |ids|) && Booked(ctx.(batchCursor := k), c, ids, good, bad, w)
    ensures Booked(ctx, c, ids, good, bad, w)
  {
  }

  /**
   * Without rules or a listing it does nothing. When no node carries its labels, or all batches are done,
   * it only sets the last result.
   */
  lemma DeployIdle(a: Action, d: DeployAction, ctx: Context, w: World, idx: seq<nat>)
    requires a.deploy == Some(d)
    ensures ctx.rulesYaml.None? || w.fleet.None? ==> ExecuteAction(Some(a), ctx, w) == ctx
    ensures ctx.rulesYaml.Some? && w.fleet.Some? && Picks(idx, w.fleet.value, d.select) ==>
              && (idx == [] ==>
                    ExecuteAction(Some(a), ctx, w) == ctx.(lastResult := Some(ActionResult(0, 0, 0, []))))
              && (idx != [] && d.batchPercent.Some? && ctx.batchCursor >= Allowed(d, |idx|) ==>
                    ExecuteAction(Some(a), ctx, w)
                    == ctx.(lastResult := Some(ActionResult(|ctx.deployedNodes|, |ctx.failedNodes|,
                                                            Allowed(d, |idx|), []))))
  {
    hide Select, DeployBatch, BatchSize, Picks;
    if w.fleet.Some? && Picks(idx, w.fleet.value, d.select) {
      PicksBound(idx, w.fleet.value, d.select);
      SelectIs(idx, w.fleet.value, d.select);
    }
  }

  // ----- the other actions -----

  /**
   * A rollback action, whatever version it names, reports on every deployed node in order, each by its own
   * answer, and changes nothing else; without deployed nodes it does nothing, and an alert never does.
   */
  lemma OtherActions(a: Action, ctx: Context, w: World, good: seq<nat>, bad: seq<nat>)
    requires a.deploy.None?
    requires Answering(good, ctx.deployedNodes, true, w) && Answering(bad, ctx.deployedNodes, false, w)
    ensures var c := ExecuteAction(Some(a), ctx, w);
            && c == ctx.(lastResult := c.lastResult)
            && if a.rollback.None? || ctx.deployedNodes == [] then c == ctx
               else c.lastResult.Some? && Reported(c.lastResult.value, ctx.deployedNodes, |good|, |bad|, w)
  {
    hide Outcome, Count, Answering;
    var ids := ctx.deployedNodes;
    OutcomeIs(good, ids, true, w);
    OutcomeIs(bad, ids, false, w);
    CountsAddUp(Results(ids, w));
    AnsweringBound(good, ids, true, w);
    AnsweringBound(bad, ids, false, w);
  }
}
