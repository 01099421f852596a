/** Runs of one instance under a fixed, validated definition, and what every run keeps. */
module EngineRuns {
  import opened Core
  import opened Definitions
  import opened Engine
  import Durations

  /** One stored call on an instance: the periodic evaluation, a manual advance, or a cancellation. */
  datatype Op =
    | EvaluateOp(w: World)
    | AdvanceOp(target: Option<string>, w: World)
    | CancelOp(w: World)

  /** The periodic evaluation is given running instances only; the other calls check for themselves. */
  function Step(def: Definition, i: Instance, op: Op): Instance {
    match op
    case EvaluateOp(w) => if i.status == Running then Evaluate(def, i, w) else i
    case AdvanceOp(target, w) => Advance(def, i, target, w)
    case CancelOp(w) => Cancel(i, w.now)
  }

  function Run(def: Definition, i: Instance, ops: seq<Op>): Instance
    decreases |ops|
  {
    if ops == [] then i else Run(def, Step(def, i, ops[0]), ops[1..])
  }

  ghost predicate StartsDeployment(def: Definition, i: Instance) {
    exists rules, w :: i == StartDeployment(def, rules, w)
  }

  /** Started by label; the listing holds each registered node once. */
  ghost predicate StartsAdaptive(def: Definition, i: Instance) {
    exists rules, filter: map<string, string>, w: World ::
      w.fleet.Some? && NoDup(Select(w.fleet.value, filter)) && StartAdaptive(def, rules, filter, w) == Ok(i)
  }

  ghost predicate Starts(def: Definition, i: Instance) {
    StartsDeployment(def, i) || StartsAdaptive(def, i)
  }

  // ----- the effect of one call -----

  datatype Effect =
    | Nothing
    | ClocksOnly(clocks: Clocks)
    | Completes
    | Moves(to: string, trigger: Trigger)
    | Cancels

  function EffectOf(def: Definition, i: Instance, op: Op): Effect {
    if i.status != Running then Nothing
    else match op
      case EvaluateOp(w) =>
        if i.currentState !in def.states then Nothing
        else if def.states[i.currentState].terminal then Completes
        else
          var ts := def.states[i.currentState].transitions;
          var (chosen, clocks) := EvalFrom(i, ts, 0, i.context.clocks, w);
          if chosen.None? then ClocksOnly(clocks)
          else
            var t := ts[chosen.value];
            Moves(t.to, if t.after.Some? then OnTimer else OnCondition)
      case AdvanceOp(target, w) =>
        var to := AdvanceTarget(def, i, target);
        if to.Ok? then Moves(to.value, OnManual) else Nothing
      case CancelOp(_) => Cancels
  }

  function WithClocks(i: Instance, clocks: Clocks): Instance {
    i.(context := i.context.(clocks := clocks))
  }

  /** A fired transition starts the new stay without clocks. */
  function Apply(def: Definition, i: Instance, e: Effect, w: World): Instance {
    match e
    case Nothing => i
    case ClocksOnly(clocks) => WithClocks(i, clocks)
    case Completes => i.(status := Completed, updatedAt := w.now)
    case Moves(to, trigger) => Fire(def, WithClocks(i, map[]), to, trigger, w)
    case Cancels => Cancel(i, w.now)
  }

  /** Every clock belongs to the current state. */
  ghost predicate OwnClocks(state: string, clocks: Clocks) {
    forall k :: k in clocks ==> state + ":" <= k
  }

  ghost predicate SameExcept(a: Clocks, b: Clocks, key: string) {
    forall k :: k != key ==> (k in a <==> k in b) && (k in a ==> a[k] == b[k])
  }

  /** Evaluating a condition touches no clock but its transition's. */
  lemma {:induction false} ConditionFrame(c: Condition, ctx: Context, clocks: Clocks, key: string, w: World)
    ensures SameExcept(clocks, EvalCondition(c, ctx, clocks, key, w).1, key)
    decreases c
  {
    match c
    case Simple(_, _, _) =>
    case Counter(cc) => CounterFrame(cc, ctx, clocks, key, w);
    case Compound(allOf, anyOf, negated) =>
      if allOf.Given? {
        AllFrame(allOf.items, ctx, clocks, key, w);
      } else if anyOf.Given? {
        AnyFrame(anyOf.items, ctx, clocks, key, w);
      } else if negated.Some? {
        ConditionFrame(negated.value, ctx, clocks, key, w);
      }
  }

  lemma CounterFrame(cc: CounterCondition, ctx: Context, clocks: Clocks, key: string, w: World)
    ensures SameExcept(clocks, EvalCounter(cc, ctx, clocks, key, w).1, key)
  {
    hide Met, Durations.Parse;
  }

  lemma {:induction false} AllFrame(cs: seq<Condition>, ctx: Context, clocks: Clocks, key: string, w: World)
    ensures SameExcept(clocks, EvalAll(cs, ctx, clocks, key, w).1, key)
    decreases cs
  {
    if cs != [] {
      ConditionFrame(cs[0], ctx, clocks, key, w);
      AllFrame(cs[1..], ctx, EvalCondition(cs[0], ctx, clocks, key, w).1, key, w);
    }
  }

  lemma {:induction false} AnyFrame(cs: seq<Condition>, ctx: Context, clocks: Clocks, key: string, w: World)
    ensures SameExcept(clocks, EvalAny(cs, ctx, clocks, key, w).1, key)
    decreases cs
  {
    if cs != [] {
      ConditionFrame(cs[0], ctx, clocks, key, w);
      AnyFrame(cs[1..], ctx, EvalCondition(cs[0], ctx, clocks, key, w).1, key, w);
    }
  }

  lemma TransitionFrame(t: Transition, i: Instance, clocks: Clocks, key: string, w: World)
    ensures SameExcept(clocks, EvalTransition(t, i.context, clocks, i.updatedAt, key, w).1, key)
  {
    hide EvalCondition, Durations.Parse;
    if t.when.Some? {
      ConditionFrame(t.when.value, i.context, clocks, key, w);
    }
  }

  lemma {:induction false} EvalFromClocks(i: Instance, ts: seq<Transition>, k: nat, clocks: Clocks, w: World)
    requires k <= |ts| && OwnClocks(i.currentState, clocks)
    ensures OwnClocks(i.currentState, EvalFrom(i, ts, k, clocks, w).1)
    decreases |ts| - k
  {
    hide EvalTransition;
    if k < |ts| {
      var key := Key(i.currentState, k);
      TransitionFrame(ts[k], i, clocks, key, w);
      EvalFromClocks(i, ts, k + 1, EvalTransition(ts[k], i.context, clocks, i.updatedAt, key, w).1, w);
    }
  }

  lemma FireDropsClocks(def: Definition, i: Instance, clocks: Clocks, to: string, trigger: Trigger, w: World)
    requires OwnClocks(i.currentState, clocks)
    ensures Fire(def, WithClocks(i, clocks), to, trigger, w) == Fire(def, WithClocks(i, map[]), to, trigger, w)
  {
    hide ExecuteAction;
    assert DropClocks(clocks, i.currentState) == map[] == DropClocks(map[], i.currentState);
  }

  /** Every call is one of the five effects. */
  lemma StepEffect(def: Definition, i: Instance, op: Op)
    requires OwnClocks(i.currentState, i.context.clocks)
    ensures Step(def, i, op) == Apply(def, i, EffectOf(def, i, op), op.w)
    ensures EffectOf(def, i, op).ClocksOnly? ==> OwnClocks(i.currentState, EffectOf(def, i, op).clocks)
  {
    hide Fire, EvalFrom;
    assert WithClocks(i, i.context.clocks) == i;
    if i.status == Running && i.currentState in def.states {
      match op
      case EvaluateOp(w) =>
        var ts := def.states[i.currentState].transitions;
        EvalFromClocks(i, ts, 0, i.context.clocks, w);
        var (chosen, clocks) := EvalFrom(i, ts, 0, i.context.clocks, w);
        if chosen.Some? {
          FireDropsClocks(def, i, clocks, ts[chosen.value].to, if ts[chosen.value].after.Some? then OnTimer
            else OnCondition, w);
        }
      case AdvanceOp(target, w) =>
        var to := AdvanceTarget(def, i, target);
        if to.Ok? {
          FireDropsClocks(def, i, i.context.clocks, to.value, OnManual, w);
        }
      case CancelOp(_) =>
    }
  }

  // ----- why a transition fires -----

  /** A condition the periodic evaluation can answer `true` to at all. */
  predicate CanHold(c: Condition) {
    c.Simple? ==> c.allSucceeded == Some(true) || c.anyFailed == Some(true)
  }

  /** `t` may fire by evaluation after `elapsed`: a condition that can hold, or a delay that has passed. */
  predicate Automatic(t: Transition, elapsed: Time) {
    if t.when.Some? then CanHold(t.when.value)
    else
      && t.after.Some? && Durations.Parse(t.after.value).Ok?
      && elapsed >= Durations.Span(Durations.Parse(t.after.value).value)
  }

  /** The move is backed by a transition of the definition and, unless manual, by that transition's cause. */
  ghost predicate Caused(def: Definition, from: string, to: string, trigger: Trigger, elapsed: Time) {
    from in def.states && exists t :: t in def.states[from].transitions && t.to == to && Allows(t, trigger, elapsed)
  }

  predicate Allows(t: Transition, trigger: Trigger, elapsed: Time) {
    trigger == OnManual || (Automatic(t, elapsed) && trigger == if t.after.Some? then OnTimer else OnCondition)
  }

  lemma {:induction false} EvalFromChoice(i: Instance, ts: seq<Transition>, k: nat, clocks: Clocks, w: World)
    requires k <= |ts|
    ensures var r := EvalFrom(i, ts, k, clocks, w).0; r.Some? ==> Automatic(ts[r.value], w.now - i.updatedAt)
    decreases |ts| - k
  {
    if k < |ts| {
      hide EvalCounter, EvalAll, EvalAny, Durations.Parse;
      var (fires, clocks1) := EvalTransition(ts[k], i.context, clocks, i.updatedAt, Key(i.currentState, k), w);
      EvalFromChoice(i, ts, k + 1, clocks1, w);
    }
  }

  lemma {:induction false} FirstManualBound(ts: seq<Transition>, k: nat)
    requires k <= |ts|
    ensures k <= FirstManual(ts, k) <= |ts|
    ensures FirstManual(ts, k) < |ts| ==> IsManual(ts[FirstManual(ts, k)])
    ensures forall j | k <= j < FirstManual(ts, k) :: !IsManual(ts[j])
    decreases |ts| - k
  {
    if k < |ts| && !IsManual(ts[k]) {
      FirstManualBound(ts, k + 1);
    }
  }

  /**
   * A manual advance without a named state takes the first manual transition, or else the first one;
   * a named state is taken exactly when a transition leads there; only a running instance advances.
   */
  lemma AdvanceChoice(def: Definition, i: Instance, target: Option<string>)
    requires i.currentState in def.states
    ensures var r := AdvanceTarget(def, i, target);
            var ts := def.states[i.currentState].transitions;
            && (r == Err(AlreadyCompleted) <==> i.status != Running)
            && (i.status == Running && target.Some? ==>
                  r == if Edge(def, i.currentState, target.value) then Ok(target.value) else Err(NoTransition))
            && (i.status == Running && target.None? ==>
                  if ts == [] then r == Err(NoTransition)
                  else exists k :: 0 <= k < |ts| && r == Ok(ts[k].to) && IsChoice(ts, k))
  {
    if i.status == Running && target.None? {
      var ts := def.states[i.currentState].transitions;
      FirstManualBound(ts, 0);
      var k := FirstManual(ts, 0);
      if ts != [] {
        assert IsChoice(ts, if k < |ts| then k else 0);
      }
    }
  }

  ghost predicate IsChoice(ts: seq<Transition>, k: nat)
    requires k < |ts|
  {
    if IsManual(ts[k]) then forall j | 0 <= j < k :: !IsManual(ts[j])
    else k == 0 && forall j | 0 <= j < |ts| :: !IsManual(ts[j])
  }

  lemma MoveCaused(def: Definition, i: Instance, op: Op)
    requires EffectOf(def, i, op).Moves?
    ensures var e := EffectOf(def, i, op);
            i.status == Running && Caused(def, i.currentState, e.to, e.trigger, op.w.now - i.updatedAt)
  {
    hide EvalFrom, Automatic;
    var e := EffectOf(def, i, op);
    var ts := def.states[i.currentState].transitions;
    match op
    case EvaluateOp(w) =>
      EvalFromChoice(i, ts, 0, i.context.clocks, w);
      assert ts[EvalFrom(i, ts, 0, i.context.clocks, w).0.value] in ts;
    case AdvanceOp(target, w) =>
      if target.None? {
        FirstManualBound(ts, 0);
        var k := FirstManual(ts, 0);
        assert ts[if k < |ts| then k else 0] in ts;
      }
  }

  // ----- what every run keeps -----

  /** Records that name a state: all but the one a cancellation adds. */
  function Visits(i: Instance): int {
    if i.status == Cancelled then |i.history| - 1 else |i.history|
  }

  ghost predicate HistoryOk(def: Definition, i: Instance) {
    var h := i.history;
    && Visits(i) >= 1
    && h[0] == Move("", def.initial, OnStart, i.createdAt)
    && (forall k | 1 <= k < |h| :: h[k].from == h[k - 1].to)
    && (forall k | 1 <= k < Visits(i) :: Caused(def, h[k].from, h[k].to, h[k].trigger, h[k].at - h[k - 1].at))
    && h[Visits(i) - 1].to == i.currentState
    && (i.status == Cancelled ==> h[|h| - 1] == Move(i.currentState, "", OnManual, i.updatedAt))
  }

  ghost predicate StatusOk(def: Definition, i: Instance) {
    && i.currentState in def.states
    && i.status != Failed
    && (i.status == Completed ==> def.states[i.currentState].terminal)
    && (i.status == Running && def.states[i.currentState].terminal ==> |i.history| == 1)
    && (i.status == Running ==> i.history != [] && i.updatedAt == i.history[|i.history| - 1].at)
  }

  ghost predicate RunOk(def: Definition, i: Instance) {
    OwnClocks(i.currentState, i.context.clocks) && HistoryOk(def, i) && StatusOk(def, i)
  }

  /** Executing an action changes the context only, and no clock. */
  lemma ActionKeepsClocks(a: Option<Action>, ctx: Context, w: World)
    ensures ExecuteAction(a, ctx, w).clocks == ctx.clocks
  {
  }

  lemma StartOk(def: Definition, i: Instance)
    requires Valid(def) && Starts(def, i)
    ensures RunOk(def, i) && i.status == Running
  {
    if StartsDeployment(def, i) {
      var rules, w :| i == StartDeployment(def, rules, w);
      ActionKeepsClocks(def.states[def.initial].action, NewContext(Some(rules), []), w);
    } else {
      var rules, filter: map<string, string>, w: World :| w.fleet.Some?
        && StartAdaptive(def, rules, filter, w) == Ok(i);
      ActionKeepsClocks(def.states[def.initial].action, NewContext(rules, Select(w.fleet.value, filter)), w);
    }
  }

  /** What a fired transition leaves: the record, the new state, no clocks, and `Completed` in a terminal state. */
  lemma FireResult(def: Definition, i: Instance, to: string, trigger: Trigger, w: World)
    requires to in def.states && i.context.clocks == map[]
    ensures var j := Fire(def, i, to, trigger, w);
            && j.history == i.history + [Move(i.currentState, to, trigger, w.now)]
            && j.currentState == to && j.updatedAt == w.now && j.createdAt == i.createdAt
            && j.status == (if def.states[to].terminal then Completed else i.status)
            && j.context.clocks == map[]
            && j.context == ExecuteAction(def.states[to].action, i.context, w)
  {
    assert DropClocks(map[], i.currentState) == map[];
    ActionKeepsClocks(def.states[to].action, i.context, w);
  }

  lemma ValidEdge(def: Definition, i: Instance, e: Effect, elapsed: Time)
    requires Valid(def) && e.Moves? && Caused(def, i.currentState, e.to, e.trigger, elapsed)
    ensures e.to in def.states && !def.states[i.currentState].terminal
  {
    hide Automatic;
    var t :| t in def.states[i.currentState].transitions && t.to == e.to;
    assert ValidTransition(def, t);
  }

  lemma MoveKeeps(def: Definition, i: Instance, op: Op)
    requires Valid(def) && RunOk(def, i) && EffectOf(def, i, op).Moves?
    ensures RunOk(def, Apply(def, i, EffectOf(def, i, op), op.w))
  {
    var e := EffectOf(def, i, op);
    MoveCaused(def, i, op);
    ValidEdge(def, i, e, op.w.now - i.updatedAt);
    hide EffectOf, Valid, Caused;
    var b := WithClocks(i, map[]);
    FireResult(def, b, e.to, e.trigger, op.w);
    hide Fire;
    var j := Fire(def, b, e.to, e.trigger, op.w);
    HistoryExtends(def, i, j, Move(i.currentState, e.to, e.trigger, op.w.now));
  }

  lemma HistoryExtends(def: Definition, i: Instance, j: Instance, m: Move)
    requires HistoryOk(def, i) && StatusOk(def, i) && i.status == Running
    requires Caused(def, m.from, m.to, m.trigger, m.at - i.updatedAt) && m.from == i.currentState
    requires j.history == i.history + [m] && j.currentState == m.to && j.createdAt == i.createdAt
    requires j.status == Running || j.status == Completed
    ensures HistoryOk(def, j)
  {
    hide Caused;
  }

  lemma StepKeeps(def: Definition, i: Instance, op: Op)
    requires Valid(def) && RunOk(def, i)
    ensures RunOk(def, Step(def, i, op))
  {
    StepEffect(def, i, op);
    hide Step, EvalFrom, Valid, Caused, Fire;
    var e := EffectOf(def, i, op);
    match e
    case Moves(_, _) => MoveKeeps(def, i, op);
    case Nothing =>
    case ClocksOnly(_) =>
    case Completes =>
    case Cancels => CancelKeeps(def, i, op.w.now);
  }

  lemma CancelKeeps(def: Definition, i: Instance, now: Time)
    requires RunOk(def, i) && i.status == Running
    ensures RunOk(def, Cancel(i, now))
  {
    hide Caused;
  }

  lemma {:induction false} RunKeeps(def: Definition, i: Instance, ops: seq<Op>)
    requires Valid(def) && RunOk(def, i)
    ensures RunOk(def, Run(def, i, ops))
    decreases |ops|
  {
    hide Step, RunOk;
    if ops != [] {
      StepKeeps(def, i, ops[0]);
      RunKeeps(def, Step(def, i, ops[0]), ops[1..]);
    }
  }

  /**
   * Over every run from a start, of any calls in any order: the history begins at the initial state,
   * each record continues from the one before and is a transition of the definition with its cause,
   * the current state is the last one entered, and the status agrees with it.
   */
  lemma EveryRunOk(def: Definition, i: Instance, ops: seq<Op>)
    requires Valid(def) && Starts(def, i)
    ensures RunOk(def, Run(def, i, ops))
  {
    StartOk(def, i);
    RunKeeps(def, i, ops);
  }

  /** Once an instance is no longer running, no calls of any kind change it. */
  lemma {:induction false} StoppedStays(def: Definition, i: Instance, ops: seq<Op>)
    requires i.status != Running
    ensures Run(def, i, ops) == i
    decreases |ops|
  {
    if ops != [] {
      StoppedStays(def, i, ops[1..]);
    }
  }

  /** A call appends at most one record and rewrites none. */
  lemma HistoryGrows(def: Definition, i: Instance, op: Op)
    requires Valid(def) && RunOk(def, i)
    ensures var h := i.history; var h1 := Step(def, i, op).history;
            h <= h1 && |h1| <= |h| + 1
  {
    StepEffect(def, i, op);
    var e := EffectOf(def, i, op);
    hide Step, EffectOf, Valid;
    if e.Moves? {
      assert e == EffectOf(def, i, op);
      MoveCaused(def, i, op);
      FireHistory(def, WithClocks(i, map[]), e.to, e.trigger, op.w);
    }
  }

  lemma FireHistory(def: Definition, i: Instance, to: string, trigger: Trigger, w: World)
    ensures Fire(def, i, to, trigger, w).history == i.history + [Move(i.currentState, to, trigger, w.now)]
  {
    hide ExecuteAction;
  }

  // ----- timers and manual gates -----

  /** Every transition out of `state` to `to` waits for a delay alone. */
  ghost predicate TimerOnly(def: Definition, state: string, to: string, delay: Time) {
    state in def.states && forall t :: t in def.states[state].transitions && t.to == to ==>
      t.when.None? && t.after.Some? && Durations.Parse(t.after.value).Ok?
      && Durations.Span(Durations.Parse(t.after.value).value) >= delay
  }

  /** No run leaves a state by a delay-only transition earlier than its delay, except by hand. */
  lemma TimerNotEarly(def: Definition, i: Instance, ops: seq<Op>, k: nat, delay: Time)
    requires Valid(def) && Starts(def, i)
    requires var e := Run(def, i, ops); 1 <= k < Visits(e) && TimerOnly(def, e.history[k].from, e.history[k].to, delay)
    ensures var h := Run(def, i, ops).history;
            h[k].trigger == OnManual || (h[k].trigger == OnTimer && h[k].at - h[k - 1].at >= delay)
  {
    EveryRunOk(def, i, ops);
    hide Run, Valid, Starts, Durations.Parse;
    var h := Run(def, i, ops).history;
    assert Caused(def, h[k].from, h[k].to, h[k].trigger, h[k].at - h[k - 1].at);
  }

  /** Every way out of `state` is a manual one, or has no condition at all. */
  ghost predicate Gate(def: Definition, state: string) {
    state in def.states && forall t :: t in def.states[state].transitions ==>
      if t.when.Some? then !CanHold(t.when.value) else t.after.None?
  }

  /** A gate is left by hand only. */
  lemma GateNeedsHand(def: Definition, i: Instance, ops: seq<Op>, k: nat)
    requires Valid(def) && Starts(def, i)
    requires var e := Run(def, i, ops); 1 <= k < Visits(e) && Gate(def, e.history[k].from)
    ensures Run(def, i, ops).history[k].trigger == OnManual
  {
    EveryRunOk(def, i, ops);
    hide Run, Valid, Starts, Durations.Parse;
    var h := Run(def, i, ops).history;
    assert Caused(def, h[k].from, h[k].to, h[k].trigger, h[k].at - h[k - 1].at);
  }

  // ----- bounded runs -----

  ghost predicate Path(def: Definition, p: seq<string>) {
    forall k | 1 <= k < |p| :: Edge(def, p[k - 1], p[k])
  }

  /** No path comes back to where it started. */
  ghost predicate Acyclic(def: Definition) {
    forall p | |p| >= 2 && Path(def, p) :: p[0] != p[|p| - 1]
  }

  /** The states entered, in order. */
  ghost function Visited(i: Instance): (p: seq<string>)
    requires 0 <= Visits(i)
    ensures |p| == Visits(i)
  {
    seq(Visits(i), k requires 0 <= k < Visits(i) => i.history[k].to)
  }

  lemma VisitedPath(def: Definition, i: Instance)
    requires HistoryOk(def, i)
    ensures Path(def, Visited(i))
  {
    hide Automatic;
    var p := Visited(i);
    forall k | 1 <= k < |p| ensures Edge(def, p[k - 1], p[k]) {
      var m := i.history[k];
      assert Caused(def, m.from, m.to, m.trigger, m.at - i.history[k - 1].at);
    }
  }

  lemma AcyclicNoDup(def: Definition, p: seq<string>)
    requires Acyclic(def) && Path(def, p)
    ensures NoDup(p)
  {
    forall i, j | 0 <= i < j < |p| ensures p[i] != p[j] {
      var q := p[i..j + 1];
      forall k | 1 <= k < |q| ensures Edge(def, q[k - 1], q[k]) {
        assert Edge(def, p[i + k - 1], p[i + k]);
      }
      assert Path(def, q);
    }
  }

  /** Over an acyclic definition every history has at most one record per state, and one for a cancellation. */
  lemma BoundedRun(def: Definition, i: Instance, ops: seq<Op>)
    requires Valid(def) && Starts(def, i) && Acyclic(def)
    ensures var e := Run(def, i, ops); |e.history| <= |def.states| + if e.status == Cancelled then 1 else 0
  {
    EveryRunOk(def, i, ops);
    var e := Run(def, i, ops);
    hide Run, Starts, Acyclic;
    VisitedPath(def, e);
    AcyclicNoDup(def, Visited(e));
    forall s | s in Visited(e) ensures s in def.states {
      var k :| 0 <= k < |e.history| && k < Visits(e) && e.history[k].to == s;
      VisitKnown(def, e, k);
    }
    Pigeonhole(Visited(e), def.states.Keys);
  }

  lemma VisitKnown(def: Definition, i: Instance, k: nat)
    requires Valid(def) && HistoryOk(def, i) && k < Visits(i)
    ensures i.history[k].to in def.states
  {
    hide Automatic;
    if k > 0 {
      var m := i.history[k];
      assert Caused(def, m.from, m.to, m.trigger, m.at - i.history[k - 1].at);
      var t :| t in def.states[m.from].transitions && t.to == m.to;
      assert ValidTransition(def, t);
    }
  }
}
