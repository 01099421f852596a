/** What transition conditions mean: a declarative reading, and when "held for d" is what the clocks measure. */
module Conditions {
  import opened Core
  import opened Text
  import opened Definitions
  import opened Engine
  import opened EngineRuns
  import Durations

  // ----- conditions without clocks -----

  /** No counter condition inside `c` carries a duration. */
  predicate Timeless(c: Condition) {
    match c
    case Counter(cc) => cc.forDuration.None?
    case Simple(_, _, _) => true
    case Compound(allOf, anyOf, negated) =>
      && (allOf.Given? ==> forall x | x in allOf.items :: Timeless(x))
      && (anyOf.Given? ==> forall x | x in anyOf.items :: Timeless(x))
      && (negated.Some? ==> Timeless(negated.value))
  }

  /** The last action succeeded on every node it touched, and on one at least. */
  predicate AllSucceeded(ctx: Context) {
    ctx.lastResult.Some? && ctx.lastResult.value.failed == 0 && ctx.lastResult.value.succeeded > 0
  }

  predicate AnyFailed(ctx: Context) {
    ctx.lastResult.Some? && ctx.lastResult.value.failed > 0
  }

  /** The declarative reading: no clocks, no order of evaluation. */
  predicate Holds(c: Condition, ctx: Context, w: World) {
    match c
    case Counter(cc) => Met(cc, NodesToCheck(ctx, w), w)
    case Simple(allSucceeded, anyFailed, _) =>
      || (allSucceeded == Some(true) && AllSucceeded(ctx))
      || (allSucceeded != Some(true) && anyFailed == Some(true) && AnyFailed(ctx))
    case Compound(allOf, anyOf, negated) =>
      if allOf.Given? then forall x | x in allOf.items :: Holds(x, ctx, w)
      else if anyOf.Given? then exists x | x in anyOf.items :: Holds(x, ctx, w)
      else negated.Some? && !Holds(negated.value, ctx, w)
  }

  /** Evaluation of a timeless condition answers its declarative reading, from any clocks. */
  lemma {:induction false} TimelessMeaning(c: Condition, ctx: Context, clocks: Clocks, key: string, w: World)
    requires Timeless(c)
    ensures EvalCondition(c, ctx, clocks, key, w).0 == Holds(c, ctx, w)
    decreases c
  {
    hide Met;
    match c
    case Counter(cc) =>
      assert NodesToCheck(ctx, w) == [] ==> !Met(cc, NodesToCheck(ctx, w), w) by { NoNodesUnmet(cc, w); }
    case Simple(_, _, _) =>
    case Compound(allOf, anyOf, negated) =>
      if allOf.Given? {
        AllMeaning(allOf.items, ctx, clocks, key, w);
      } else if anyOf.Given? {
        AnyMeaning(anyOf.items, ctx, clocks, key, w);
      } else if negated.Some? {
        TimelessMeaning(negated.value, ctx, clocks, key, w);
      }
  }

  lemma NoNodesUnmet(cc: CounterCondition, w: World)
    ensures !Met(cc, [], w)
  {
  }

  lemma {:induction false} AllMeaning(cs: seq<Condition>, ctx: Context, clocks: Clocks, key: string, w: World)
    requires forall x | x in cs :: Timeless(x)
    ensures EvalAll(cs, ctx, clocks, key, w).0 == forall x | x in cs :: Holds(x, ctx, w)
    decreases cs
  {
    if cs != [] {
      TimelessMeaning(cs[0], ctx, clocks, key, w);
      AllMeaning(cs[1..], ctx, EvalCondition(cs[0], ctx, clocks, key, w).1, key, w);
      assert forall x :: x in cs <==> x == cs[0] || x in cs[1..];
    }
  }

  lemma {:induction false} AnyMeaning(cs: seq<Condition>, ctx: Context, clocks: Clocks, key: string, w: World)
    requires forall x | x in cs :: Timeless(x)
    ensures EvalAny(cs, ctx, clocks, key, w).0 == exists x | x in cs :: Holds(x, ctx, w)
    decreases cs
  {
    if cs != [] {
      TimelessMeaning(cs[0], ctx, clocks, key, w);
      AnyMeaning(cs[1..], ctx, EvalCondition(cs[0], ctx, clocks, key, w).1, key, w);
      assert forall x :: x in cs <==> x == cs[0] || x in cs[1..];
    }
  }

  // ----- durations of validated definitions -----

  /** A counter condition, with `failed` for the answer when its duration does not parse. */
  function CounterOr(
    cc: CounterCondition, ctx: Context, clocks: Clocks, key: string, w: World, failed: Clocks -> (bool, Clocks))
    : (bool, Clocks)
  {
    var nodes := NodesToCheck(ctx, w);
    if Met(cc, nodes, w) && cc.forDuration.Some? && Durations.Parse(cc.forDuration.value).Err? then failed(clocks)
    else EvalCounter(cc, ctx, clocks, key, w)
  }

  /** Evaluation of a condition, with `failed` for the answer where a duration does not parse. */
  function EvalOr(c: Condition, ctx: Context, clocks: Clocks, key: string, w: World, failed: Clocks -> (bool, Clocks))
    : (bool, Clocks)
    decreases c
  {
    match c
    case Simple(_, _, _) => (EvalSimple(c, ctx), clocks)
    case Counter(cc) => CounterOr(cc, ctx, clocks, key, w, failed)
    case Compound(allOf, anyOf, negated) =>
      if allOf.Given? then AllOr(allOf.items, ctx, clocks, key, w, failed)
      else if anyOf.Given? then AnyOr(anyOf.items, ctx, clocks, key, w, failed)
      else if negated.Some? then
        var (r, clocks1) := EvalOr(negated.value, ctx, clocks, key, w, failed);
        (!r, clocks1)
      else (false, clocks)
  }

  function AllOr(
    cs: seq<Condition>, ctx: Context, clocks: Clocks, key: string, w: World, failed: Clocks -> (bool, Clocks))
    : (bool, Clocks)
    decreases cs
  {
    if cs == [] then (true, clocks)
    else
      var (r, clocks1) := EvalOr(cs[0], ctx, clocks, key, w, failed);
      if r then AllOr(cs[1..], ctx, clocks1, key, w, failed) else (false, clocks1)
  }

  function AnyOr(
    cs: seq<Condition>, ctx: Context, clocks: Clocks, key: string, w: World, failed: Clocks -> (bool, Clocks))
    : (bool, Clocks)
    decreases cs
  {
    if cs == [] then (false, clocks)
    else
      var (r, clocks1) := EvalOr(cs[0], ctx, clocks, key, w, failed);
      if r then (true, clocks1) else AnyOr(cs[1..], ctx, clocks1, key, w, failed)
  }

  /** `failed` is the code's own answer, or it is never asked because every duration was validated. */
  ghost predicate Immaterial(valid: bool, failed: Clocks -> (bool, Clocks)) {
    valid || forall clocks :: failed(clocks) == (false, clocks)
  }

  lemma CounterImmaterial(
    cc: CounterCondition, ctx: Context, clocks: Clocks, key: string, w: World, failed: Clocks -> (bool, Clocks))
    requires Immaterial(ValidCounter(cc), failed)
    ensures CounterOr(cc, ctx, clocks, key, w, failed) == EvalCounter(cc, ctx, clocks, key, w)
  {
    hide Durations.Parse;
    if NodesToCheck(ctx, w) == [] {
      NoNodesUnmet(cc, w);
    }
    hide Met;
  }

  /**
   * Evaluating a validated condition never asks for the answer to a duration that does not parse:
   * whatever that answer were, the evaluation is the same. (For a condition that is not validated it
   * is the same when the answer is the code's own.)
   */
  lemma {:induction false} FallbackImmaterial(
    c: Condition, ctx: Context, clocks: Clocks, key: string, w: World, failed: Clocks -> (bool, Clocks))
    requires Immaterial(ValidCondition(c), failed)
    ensures EvalOr(c, ctx, clocks, key, w, failed) == EvalCondition(c, ctx, clocks, key, w)
    decreases c
  {
    hide ValidCounter, EvalCounter, CounterOr;
    match c
    case Counter(cc) => CounterImmaterial(cc, ctx, clocks, key, w, failed);
    case Simple(_, _, _) =>
    case Compound(allOf, anyOf, negated) =>
      if allOf.Given? {
        AllImmaterial(allOf.items, ctx, clocks, key, w, failed);
      } else if anyOf.Given? {
        AnyImmaterial(anyOf.items, ctx, clocks, key, w, failed);
      } else if negated.Some? {
        FallbackImmaterial(negated.value, ctx, clocks, key, w, failed);
      }
  }

  lemma {:induction false} AllImmaterial(
    cs: seq<Condition>, ctx: Context, clocks: Clocks, key: string, w: World, failed: Clocks -> (bool, Clocks))
    requires forall x | x in cs :: Immaterial(ValidCondition(x), failed)
    ensures AllOr(cs, ctx, clocks, key, w, failed) == EvalAll(cs, ctx, clocks, key, w)
    decreases cs
  {
    hide Immaterial;
    if cs != [] {
      FallbackImmaterial(cs[0], ctx, clocks, key, w, failed);
      AllImmaterial(cs[1..], ctx, EvalCondition(cs[0], ctx, clocks, key, w).1, key, w, failed);
    }
  }

  lemma {:induction false} AnyImmaterial(
    cs: seq<Condition>, ctx: Context, clocks: Clocks, key: string, w: World, failed: Clocks -> (bool, Clocks))
    requires forall x | x in cs :: Immaterial(ValidCondition(x), failed)
    ensures AnyOr(cs, ctx, clocks, key, w, failed) == EvalAny(cs, ctx, clocks, key, w)
    decreases cs
  {
    hide Immaterial;
    if cs != [] {
      FallbackImmaterial(cs[0], ctx, clocks, key, w, failed);
      AnyImmaterial(cs[1..], ctx, EvalCondition(cs[0], ctx, clocks, key, w).1, key, w, failed);
    }
  }

  /**
   * In a validated definition every `after` parses, and no evaluation of a transition's condition comes
   * to a `for` that does not.
   */
  lemma DurationsParse(def: Definition, state: string, t: Transition)
    requires Valid(def) && state in def.states && t in def.states[state].transitions
    ensures t.after.Some? ==> Durations.Parse(t.after.value).Ok?
    ensures t.when.Some? ==>
              forall ctx, clocks, key, w, failed: Clocks -> (bool, Clocks) ::
                EvalOr(t.when.value, ctx, clocks, key, w, failed) == EvalCondition(t.when.value, ctx, clocks, key, w)
  {
    hide Durations.Parse, EvalOr, EvalCondition, ValidCondition;
    assert ValidTransition(def, t);
    if t.when.Some? {
      forall ctx, clocks, key, w, failed: Clocks -> (bool, Clocks)
        ensures EvalOr(t.when.value, ctx, clocks, key, w, failed) == EvalCondition(t.when.value, ctx, clocks, key, w)
      {
        FallbackImmaterial(t.when.value, ctx, clocks, key, w, failed);
      }
    }
  }

  // ----- which transition fires -----

  /** The clocks transition `k` is evaluated with, when none before it fires. */
  function ClocksBefore(i: Instance, ts: seq<Transition>, k: nat, w: World): Clocks
    requires k <= |ts|
  {
    if k == 0 then i.context.clocks
    else EvalTransition(ts[k - 1], i.context, ClocksBefore(i, ts, k - 1, w), i.updatedAt, Key(i.currentState, k - 1),
      w).1
  }

  /** Transition `k` answers true when its turn comes. */
  predicate Enabled(i: Instance, ts: seq<Transition>, k: nat, w: World)
    requires k < |ts|
  {
    EvalTransition(ts[k], i.context, ClocksBefore(i, ts, k, w), i.updatedAt, Key(i.currentState, k), w).0
  }

  lemma {:induction false} EvalFromEnabled(i: Instance, ts: seq<Transition>, k: nat, w: World)
    requires k <= |ts|
    ensures var (r, clocks) := EvalFrom(i, ts, k, ClocksBefore(i, ts, k, w), w);
            && (r.Some? ==> Enabled(i, ts, r.value, w) && forall j | k <= j < r.value :: !Enabled(i, ts, j, w))
            && (r.None?
               ==> (forall j | k <= j < |ts| :: !Enabled(i, ts, j, w)) && clocks == ClocksBefore(i, ts, |ts|, w))
    decreases |ts| - k
  {
    hide EvalTransition;
    if k < |ts| {
      EvalFromEnabled(i, ts, k + 1, w);
    }
  }

  /** An evaluation fires the first enabled transition, and none exactly when none is enabled. */
  lemma FirstEnabledFires(i: Instance, ts: seq<Transition>, w: World, k: nat)
    requires k < |ts|
    ensures EvalFrom(i, ts, 0, i.context.clocks, w).0 == Some(k)
            <==> Enabled(i, ts, k, w) && forall j | 0 <= j < k :: !Enabled(i, ts, j, w)
  {
    EvalFromEnabled(i, ts, 0, w);
    hide Enabled;
  }

  // ----- sustained counter conditions -----

  lemma KeysDiffer(state: string, j: nat, k: nat)
    requires j != k
    ensures Key(state, j) != Key(state, k)
  {
    if Key(state, j) == Key(state, k) {
      assert Render(j) == Key(state, j)[|state| + 1..];
      assert Render(k) == Key(state, k)[|state| + 1..];
      RenderInjective(j, k);
    }
  }

  ghost predicate SameClock(a: Clocks, b: Clocks, key: string) {
    (key in a <==> key in b) && (key in a ==> a[key] == b[key])
  }

  /** Transitions other than `k` leave the clock of `k` alone. */
  lemma {:induction false} OthersKeepClock(i: Instance, ts: seq<Transition>, from: nat, k: nat, n: nat, w: World)
    requires from <= n <= |ts|
    requires k < from || n <= k
    ensures SameClock(ClocksBefore(i, ts, from, w), ClocksBefore(i, ts, n, w), Key(i.currentState, k))
    decreases n
  {
    hide EvalTransition;
    if from < n {
      OthersKeepClock(i, ts, from, k, n - 1, w);
      KeysDiffer(i.currentState, n - 1, k);
      TransitionFrame(ts[n - 1], i, ClocksBefore(i, ts, n - 1, w), Key(i.currentState, n - 1), w);
    }
  }

  /** Transition `k` is guarded by the lone counter condition `cc`, required to hold for a duration. */
  ghost predicate LoneSustained(ts: seq<Transition>, k: nat, cc: CounterCondition) {
    && k < |ts| && ts[k].when == Some(Counter(cc))
    && cc.forDuration.Some? && Durations.Parse(cc.forDuration.value).Ok?
  }

  function Required(cc: CounterCondition): Time
    requires cc.forDuration.Some? && Durations.Parse(cc.forDuration.value).Ok?
  {
    Durations.Span(Durations.Parse(cc.forDuration.value).value)
  }

  /** Where the nodes of a counter condition come from: the targets, else the deployed nodes, else the cache. */
  datatype Scope = Scope(targets: seq<NodeId>, deployed: seq<NodeId>)

  function ScopeOf(ctx: Context): Scope {
    Scope(ctx.targetNodes, ctx.deployedNodes)
  }

  function Checked(sc: Scope, w: World): seq<NodeId> {
    if sc.targets != [] then sc.targets else if sc.deployed != [] then sc.deployed else w.cachedIds
  }

  /** The thresholds hold on the nodes there are at this evaluation, and there is one at least. */
  predicate MetIn(cc: CounterCondition, sc: Scope, w: World) {
    Met(cc, Checked(sc, w), w)
  }

  /** There is no node to check: such an evaluation answers false and leaves the clock alone. */
  predicate Blank(sc: Scope, w: World) {
    Checked(sc, w) == []
  }

  /** When the unbroken run of met evaluations at the end of `ws` began, blank ones not counted. */
  function HeldSince(cc: CounterCondition, sc: Scope, ws: seq<World>): Option<Time>
    decreases |ws|
  {
    if ws == [] then None
    else
      var last := ws[|ws| - 1];
      var before := HeldSince(cc, sc, ws[..|ws| - 1]);
      if Blank(sc, last) then before
      else if !MetIn(cc, sc, last) then None else if before.Some? then before else Some(last.now)
  }

  function ClockAt(clocks: Clocks, key: string): Option<Time> {
    if key in clocks then Some(clocks[key]) else None
  }

  /** Evaluations of one stay, none of which fires. */
  function StayRun(def: Definition, i: Instance, ws: seq<World>): Instance
    decreases |ws|
  {
    if ws == [] then i else Step(def, StayRun(def, i, ws[..|ws| - 1]), EvaluateOp(ws[|ws| - 1]))
  }

  ghost predicate Quiet(def: Definition, i: Instance, ws: seq<World>)
    decreases |ws|
  {
    ws == [] ||
    (Quiet(def, i, ws[..|ws| - 1])
      && EffectOf(def, StayRun(def, i, ws[..|ws| - 1]), EvaluateOp(ws[|ws| - 1])).ClocksOnly?)
  }

  /** The instance has just entered a state that is not terminal. */
  ghost predicate Entered(def: Definition, i: Instance) {
    && i.status == Running && i.currentState in def.states && !def.states[i.currentState].terminal
    && i.context.clocks == map[]
  }

  /** One evaluation of a lone counter condition moves its clock as `HeldSince` does, and compares it. */
  lemma CounterClock(cc: CounterCondition, ctx: Context, clocks: Clocks, key: string, w: World, ws: seq<World>)
    requires cc.forDuration.Some? && Durations.Parse(cc.forDuration.value).Ok?
    requires ClockAt(clocks, key) == HeldSince(cc, ScopeOf(ctx), ws)
    ensures var (r, clocks1) := EvalCounter(cc, ctx, clocks, key, w);
            var since := HeldSince(cc, ScopeOf(ctx), ws + [w]);
            && ClockAt(clocks1, key) == since
            && (r <==> !Blank(ScopeOf(ctx), w) && since.Some? && w.now - since.value >= Required(cc))
  {
    assert Checked(ScopeOf(ctx), w) == NodesToCheck(ctx, w);
    hide Met, Durations.Parse;
    assert (ws + [w])[..|ws|] == ws;
  }

  lemma EnabledSince(i: Instance, ts: seq<Transition>, k: nat, cc: CounterCondition, ws: seq<World>, w: World)
    requires LoneSustained(ts, k, cc)
    requires ClockAt(i.context.clocks, Key(i.currentState, k)) == HeldSince(cc, ScopeOf(i.context), ws)
    ensures var since := HeldSince(cc, ScopeOf(i.context), ws + [w]);
            && ClockAt(ClocksBefore(i, ts, |ts|, w), Key(i.currentState, k)) == since
            && (Enabled(i, ts, k, w)
               <==> !Blank(ScopeOf(i.context), w) && since.Some? && w.now - since.value >= Required(cc))
  {
    hide EvalCounter, HeldSince, Durations.Parse;
    OthersKeepClock(i, ts, 0, k, k, w);
    CounterClock(cc, i.context, ClocksBefore(i, ts, k, w), Key(i.currentState, k), w, ws);
    OthersKeepClock(i, ts, k + 1, k, |ts|, w);
  }

  /** Throughout a stay the transition's clock is the time its condition has held since. */
  lemma {:induction false} StayClock(def: Definition, i: Instance, ws: seq<World>, k: nat, cc: CounterCondition)
    requires Entered(def, i) && Quiet(def, i, ws)
    requires LoneSustained(def.states[i.currentState].transitions, k, cc)
    ensures var j := StayRun(def, i, ws);
            && j == WithClocks(i, j.context.clocks)
            && ClockAt(j.context.clocks, Key(i.currentState, k)) == HeldSince(cc, ScopeOf(i.context), ws)
    decreases |ws|
  {
    hide Step, LoneSustained, ClocksBefore, Enabled, EffectOf, MetIn;
    if ws != [] {
      var ws' := ws[..|ws| - 1];
      var w := ws[|ws| - 1];
      StayClock(def, i, ws', k, cc);
      var j := StayRun(def, i, ws');
      QuietStep(def, i, j, w);
      var ts := def.states[i.currentState].transitions;
      EnabledSince(j, ts, k, cc, ws', w);
      assert ws' + [w] == ws;
    }
  }

  /** An evaluation that fires nothing leaves the clocks as checking every transition leaves them. */
  lemma QuietStep(def: Definition, i: Instance, j: Instance, w: World)
    requires Entered(def, i) && j == WithClocks(i, j.context.clocks)
    requires EffectOf(def, j, EvaluateOp(w)).ClocksOnly?
    ensures var ts := def.states[i.currentState].transitions;
            && Step(def, j, EvaluateOp(w)) == WithClocks(i, ClocksBefore(j, ts, |ts|, w))
            && forall k | 0 <= k < |ts| :: !Enabled(j, ts, k, w)
  {
    hide EvalFrom, ClocksBefore;
    var ts := def.states[i.currentState].transitions;
    FirstClocks(j, ts, w);
    EvalFromEnabled(j, ts, 0, w);
  }

  lemma FirstClocks(i: Instance, ts: seq<Transition>, w: World)
    ensures ClocksBefore(i, ts, 0, w) == i.context.clocks
  {
  }

  /**
   * The condition was met at evaluation `j`, at the last one, which lies at least `d` later, and at every
   * one between them that was not blank.
   */
  ghost predicate HeldFrom(cc: CounterCondition, sc: Scope, ws: seq<World>, j: nat, d: Time) {
    && j < |ws| && ws[j].now <= ws[|ws| - 1].now - d
    && MetIn(cc, sc, ws[j]) && MetIn(cc, sc, ws[|ws| - 1])
    && forall m | j <= m < |ws| :: Blank(sc, ws[m]) || MetIn(cc, sc, ws[m])
  }

  ghost predicate InTimeOrder(ws: seq<World>) {
    forall a, b :: 0 <= a < b < |ws| ==> ws[a].now <= ws[b].now
  }

  /** Met at `j`, and at every later evaluation that was not blank. */
  ghost predicate MetSince(cc: CounterCondition, sc: Scope, ws: seq<World>, j: nat) {
    && j < |ws| && MetIn(cc, sc, ws[j])
    && forall m | j <= m < |ws| :: Blank(sc, ws[m]) || MetIn(cc, sc, ws[m])
  }

  lemma {:induction false} MetSinceSome(cc: CounterCondition, sc: Scope, ws: seq<World>, j: nat)
    requires MetSince(cc, sc, ws, j)
    ensures HeldSince(cc, sc, ws).Some?
    decreases |ws|
  {
    hide MetIn, Blank;
    var n := |ws| - 1;
    if j < n {
      assert MetSince(cc, sc, ws[..n], j);
      MetSinceSome(cc, sc, ws[..n], j);
    } else {
      MetNotBlank(cc, sc, ws[n]);
    }
  }

  lemma MetNotBlank(cc: CounterCondition, sc: Scope, w: World)
    ensures MetIn(cc, sc, w) ==> !Blank(sc, w)
  {
  }

  /** `HeldSince` names the first of the trailing met evaluations. */
  lemma {:induction false} HeldSinceStart(cc: CounterCondition, sc: Scope, ws: seq<World>) returns (j: nat)
    requires HeldSince(cc, sc, ws).Some?
    ensures MetSince(cc, sc, ws, j) && HeldSince(cc, sc, ws) == Some(ws[j].now)
    ensures forall i: nat :: i < j ==> !MetSince(cc, sc, ws, i)
    decreases |ws|
  {
    hide MetIn, Blank;
    var n := |ws| - 1;
    if HeldSince(cc, sc, ws[..n]).Some? {
      j := HeldSinceStart(cc, sc, ws[..n]);
      forall i: nat | i < j ensures !MetSince(cc, sc, ws, i) {
        assert !MetSince(cc, sc, ws[..n], i);
      }
    } else {
      j := n;
      forall i: nat | i < j ensures !MetSince(cc, sc, ws, i) {
        if MetSince(cc, sc, ws[..n], i) {
          MetSinceSome(cc, sc, ws[..n], i);
        }
      }
    }
  }

  lemma HeldSinceIff(cc: CounterCondition, sc: Scope, ws: seq<World>, d: Time)
    requires ws != [] && InTimeOrder(ws)
    ensures var since := HeldSince(cc, sc, ws);
            !Blank(sc, ws[|ws| - 1]) && since.Some? && ws[|ws| - 1].now - since.value >= d
            <==> exists j :: HeldFrom(cc, sc, ws, j, d)
  {
    hide MetIn, Blank, HeldSince;
    var since := HeldSince(cc, sc, ws);
    var last := |ws| - 1;
    MetNotBlank(cc, sc, ws[last]);
    if since.Some? {
      var s := HeldSinceStart(cc, sc, ws);
      if ws[last].now - since.value >= d && !Blank(sc, ws[last]) {
        assert HeldFrom(cc, sc, ws, s, d);
      }
      if j: nat :| HeldFrom(cc, sc, ws, j, d) {
        assert MetSince(cc, sc, ws, j);
        assert s <= j;
      }
    }
    forall j: nat | HeldFrom(cc, sc, ws, j, d) ensures since.Some? {
      MetSinceSome(cc, sc, ws, j);
    }
  }

  /**
   * A transition guarded by a lone counter condition "for d" is enabled at an evaluation exactly when
   * the thresholds were met at some evaluation of the same stay at least d earlier, are met at this one,
   * and were met at every one between that had a node to check.
   */
  lemma SustainedIff(def: Definition, i: Instance, ws: seq<World>, w: World, k: nat, cc: CounterCondition)
    requires Entered(def, i) && Quiet(def, i, ws) && InTimeOrder(ws + [w])
    requires LoneSustained(def.states[i.currentState].transitions, k, cc)
    ensures Enabled(StayRun(def, i, ws), def.states[i.currentState].transitions, k, w)
            <==> exists j :: HeldFrom(cc, ScopeOf(i.context), ws + [w], j, Required(cc))
  {
    StayClock(def, i, ws, k, cc);
    EnabledSince(StayRun(def, i, ws), def.states[i.currentState].transitions, k, cc, ws, w);
    HeldSinceIff(cc, ScopeOf(i.context), ws + [w], Required(cc));
  }
}
