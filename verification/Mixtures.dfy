/** A sustained counter condition beside one without a duration, in one transition: what "or" and "and" mean then. */
module Mixtures {
  import opened Core
  import opened Definitions
  import opened Engine
  import opened EngineRuns
  import opened Conditions
  import opened Rollouts
  import opened Compounds
  import Durations

  /** Evaluating a condition without a duration drops the transition's clock if it is not met, and else keeps it. */
  lemma InstantTurn(cc: CounterCondition, ctx: Context, clocks: Clocks, key: string, w: World)
    requires cc.forDuration.None?
    ensures var (r, clocks1) := EvalCounter(cc, ctx, clocks, key, w);
            && (r <==> MetIn(cc, ScopeOf(ctx), w))
            && ClockAt(clocks1, key) == if r || Blank(ScopeOf(ctx), w) then ClockAt(clocks, key) else None
  {
    assert Checked(ScopeOf(ctx), w) == NodesToCheck(ctx, w);
    if Blank(ScopeOf(ctx), w) {
      NoNodesUnmet(cc, w);
    }
    hide Met;
  }

  // ----- "b, or a for d", and "a for d, or b" -----

  lemma OrTurn(
    a: CounterCondition, b: CounterCondition, ctx: Context, clocks: Clocks, key: string, w: World)
    requires Timed(a) && b.forDuration.None?
    ensures EvalCondition(EitherOf(b, a), ctx, clocks, key, w).0 <==> MetIn(b, ScopeOf(ctx), w)
    ensures ClockAt(clocks, key).None? ==>
              var (r, clocks1) := EvalCondition(EitherOf(a, b), ctx, clocks, key, w);
              && (r <==> MetIn(b, ScopeOf(ctx), w))
              && (!r ==> ClockAt(clocks1, key).None?)
  {
    hide MetIn, Blank, Required, EvalCounter, EvalCondition, EitherOf, ScopeOf, Timed;
    MetNotBlank(a, ScopeOf(ctx), w);
    MetNotBlank(b, ScopeOf(ctx), w);
    EitherUnfolds(a, b, ctx, clocks, key, w);
    EitherUnfolds(b, a, ctx, clocks, key, w);
    CounterTurn(a, ctx, clocks, key, w);
    InstantTurn(b, ctx, EvalCounter(a, ctx, clocks, key, w).1, key, w);
    InstantTurn(b, ctx, clocks, key, w);
    CounterTurn(a, ctx, EvalCounter(b, ctx, clocks, key, w).1, key, w);
  }

  lemma OrEnabled(i: Instance, ts: seq<Transition>, k: nat, a: CounterCondition, b: CounterCondition, w: World)
    requires Timed(a) && b.forDuration.None? && k < |ts|
    requires (ts[k].when == Some(EitherOf(a, b)) && ClockAt(i.context.clocks, Key(i.currentState, k)).None?)
             || ts[k].when == Some(EitherOf(b, a))
    ensures Enabled(i, ts, k, w) <==> MetIn(b, ScopeOf(i.context), w)
    ensures ts[k].when == Some(EitherOf(a, b)) && ClockAt(i.context.clocks, Key(i.currentState, k)).None? ==>
              !Enabled(i, ts, k, w) ==> ClockAt(ClocksBefore(i, ts, |ts|, w), Key(i.currentState, k)).None?
  {
    hide EvalCondition, EitherOf, Key, MetIn;
    OthersKeepClock(i, ts, 0, k, k, w);
    OrTurn(a, b, i.context, ClocksBefore(i, ts, k, w), Key(i.currentState, k), w);
    OthersKeepClock(i, ts, k + 1, k, |ts|, w);
  }

  lemma {:induction false} OrStay(
    def: Definition, i: Instance, ws: seq<World>, k: nat, a: CounterCondition, b: CounterCondition)
    requires Stay(def, i, ws, k, EitherOf(a, b)) && Timed(a) && b.forDuration.None?
    ensures var j := StayRun(def, i, ws);
            j == WithClocks(i, j.context.clocks) && ClockAt(j.context.clocks, Key(i.currentState, k)).None?
    decreases |ws|
  {
    hide Step, ClocksBefore, Enabled, EffectOf, MetIn, EitherOf, Timed;
    if ws != [] {
      var ws', w := ws[..|ws| - 1], ws[|ws| - 1];
      OrStay(def, i, ws', k, a, b);
      var j := StayRun(def, i, ws');
      QuietStep(def, i, j, w);
      OrEnabled(j, def.states[i.currentState].transitions, k, a, b, w);
    }
  }

  /** However long a has been met, "a for d, or b", in either order, is enabled exactly when b is met at that moment. */
  lemma OrIsInstant(
    def: Definition, i: Instance, ws: seq<World>, w: World, k: nat, a: CounterCondition, b: CounterCondition)
    requires Stay(def, i, ws, k, EitherOf(a, b)) || Stay(def, i, ws, k, EitherOf(b, a))
    requires Timed(a) && b.forDuration.None?
    ensures Enabled(StayRun(def, i, ws), def.states[i.currentState].transitions, k, w)
            <==> MetIn(b, ScopeOf(i.context), w)
  {
    hide Enabled, StayRun, Quiet, EitherOf, Timed, MetIn;
    if Stay(def, i, ws, k, EitherOf(a, b)) {
      OrStay(def, i, ws, k, a, b);
    } else {
      StayContext(def, i, ws, k, EitherOf(b, a));
    }
    OrEnabled(StayRun(def, i, ws), def.states[i.currentState].transitions, k, a, b, w);
  }

  lemma {:induction false} StayContext(def: Definition, i: Instance, ws: seq<World>, k: nat, c: Condition)
    requires Stay(def, i, ws, k, c)
    ensures StayRun(def, i, ws) == WithClocks(i, StayRun(def, i, ws).context.clocks)
    decreases |ws|
  {
    hide Step, ClocksBefore, Enabled, EffectOf;
    if ws != [] {
      var ws', w := ws[..|ws| - 1], ws[|ws| - 1];
      StayContext(def, i, ws', k, c);
      QuietStep(def, i, StayRun(def, i, ws'), w);
    }
  }

  // ----- "b, and a for d" -----

  predicate MetBoth(a: CounterCondition, b: CounterCondition, sc: Scope, w: World) {
    MetIn(a, sc, w) && MetIn(b, sc, w)
  }

  /** When the unbroken run of evaluations that met both began, blank ones not counted. */
  function TogetherSince(a: CounterCondition, b: CounterCondition, sc: Scope, ws: seq<World>): Option<Time>
    decreases |ws|
  {
    if ws == [] then None
    else
      var last := ws[|ws| - 1];
      var before := TogetherSince(a, b, sc, ws[..|ws| - 1]);
      if Blank(sc, last) then before
      else if !MetBoth(a, b, sc, last) then None else if before.Some? then before else Some(last.now)
  }

  lemma AndTurn(
    a: CounterCondition, b: CounterCondition, ctx: Context, clocks: Clocks, key: string, ws: seq<World>, w: World)
    requires Timed(a) && b.forDuration.None?
    requires ClockAt(clocks, key) == TogetherSince(a, b, ScopeOf(ctx), ws)
    ensures var (r, clocks1) := EvalCondition(BothOf(b, a), ctx, clocks, key, w);
            var since := TogetherSince(a, b, ScopeOf(ctx), ws + [w]);
            && ClockAt(clocks1, key) == since
            && (r <==> !Blank(ScopeOf(ctx), w) && since.Some? && w.now - since.value >= Required(a))
  {
    hide MetIn, Blank, Required, EvalCounter, EvalCondition, BothOf, ScopeOf, Timed;
    assert (ws + [w])[..|ws|] == ws;
    MetNotBlank(a, ScopeOf(ctx), w);
    MetNotBlank(b, ScopeOf(ctx), w);
    BothUnfolds(b, a, ctx, clocks, key, w);
    InstantTurn(b, ctx, clocks, key, w);
    CounterTurn(a, ctx, EvalCounter(b, ctx, clocks, key, w).1, key, w);
  }

  lemma AndEnabled(
    i: Instance, ts: seq<Transition>, k: nat, a: CounterCondition, b: CounterCondition, ws: seq<World>, w: World)
    requires Timed(a) && b.forDuration.None? && k < |ts| && ts[k].when == Some(BothOf(b, a))
    requires ClockAt(i.context.clocks, Key(i.currentState, k)) == TogetherSince(a, b, ScopeOf(i.context), ws)
    ensures var since := TogetherSince(a, b, ScopeOf(i.context), ws + [w]);
            && ClockAt(ClocksBefore(i, ts, |ts|, w), Key(i.currentState, k)) == since
            && (Enabled(i, ts, k, w)
               <==> !Blank(ScopeOf(i.context), w) && since.Some? && w.now - since.value >= Required(a))
  {
    hide EvalCondition, TogetherSince, BothOf, Key, Blank;
    OthersKeepClock(i, ts, 0, k, k, w);
    AndTurn(a, b, i.context, ClocksBefore(i, ts, k, w), Key(i.currentState, k), ws, w);
    OthersKeepClock(i, ts, k + 1, k, |ts|, w);
  }

  lemma {:induction false} AndStay(
    def: Definition, i: Instance, ws: seq<World>, k: nat, a: CounterCondition, b: CounterCondition)
    requires Stay(def, i, ws, k, BothOf(b, a)) && Timed(a) && b.forDuration.None?
    ensures var j := StayRun(def, i, ws);
            && j == WithClocks(i, j.context.clocks)
            && ClockAt(j.context.clocks, Key(i.currentState, k)) == TogetherSince(a, b, ScopeOf(i.context), ws)
    decreases |ws|
  {
    hide Step, ClocksBefore, Enabled, EffectOf, MetIn, BothOf, Required, Timed;
    if ws != [] {
      var ws', w := ws[..|ws| - 1], ws[|ws| - 1];
      AndStay(def, i, ws', k, a, b);
      var j := StayRun(def, i, ws');
      QuietStep(def, i, j, w);
      AndEnabled(j, def.states[i.currentState].transitions, k, a, b, ws', w);
      assert ws' + [w] == ws;
    }
  }

  /** Both met at `j`, and at every later evaluation that was not blank. */
  ghost predicate BothSinceAt(a: CounterCondition, b: CounterCondition, sc: Scope, ws: seq<World>, j: nat) {
    && j < |ws| && MetBoth(a, b, sc, ws[j])
    && forall m | j <= m < |ws| :: Blank(sc, ws[m]) || MetBoth(a, b, sc, ws[m])
  }

  /** Both met at `j`, which lies at least `d` before the last evaluation, at the last one, and at all between. */
  ghost predicate TogetherFrom(
    a: CounterCondition, b: CounterCondition, sc: Scope, ws: seq<World>, j: nat, d: Time) {
    BothSinceAt(a, b, sc, ws, j) && MetBoth(a, b, sc, ws[|ws| - 1]) && ws[j].now <= ws[|ws| - 1].now - d
  }

  lemma {:induction false} TogetherSome(
    a: CounterCondition, b: CounterCondition, sc: Scope, ws: seq<World>, j: nat)
    requires BothSinceAt(a, b, sc, ws, j)
    ensures TogetherSince(a, b, sc, ws).Some?
    decreases |ws|
  {
    hide MetIn, Blank;
    var n := |ws| - 1;
    if j < n {
      assert BothSinceAt(a, b, sc, ws[..n], j);
      TogetherSome(a, b, sc, ws[..n], j);
    } else {
      MetNotBlank(a, sc, ws[n]);
    }
  }

  lemma {:induction false} TogetherStart(a: CounterCondition, b: CounterCondition, sc: Scope, ws: seq<World>)
    returns (j: nat)
    requires TogetherSince(a, b, sc, ws).Some?
    ensures BothSinceAt(a, b, sc, ws, j) && TogetherSince(a, b, sc, ws) == Some(ws[j].now)
    ensures forall i: nat :: i < j ==> !BothSinceAt(a, b, sc, ws, i)
    decreases |ws|
  {
    hide MetIn, Blank;
    var n := |ws| - 1;
    if TogetherSince(a, b, sc, ws[..n]).Some? {
      j := TogetherStart(a, b, sc, ws[..n]);
      forall i: nat | i < j ensures !BothSinceAt(a, b, sc, ws, i) {
        assert !BothSinceAt(a, b, sc, ws[..n], i);
      }
    } else {
      j := n;
      forall i: nat | i < j ensures !BothSinceAt(a, b, sc, ws, i) {
        if BothSinceAt(a, b, sc, ws[..n], i) {
          TogetherSome(a, b, sc, ws[..n], i);
        }
      }
    }
  }

  lemma TogetherIff(a: CounterCondition, b: CounterCondition, sc: Scope, ws: seq<World>, d: Time)
    requires ws != [] && InTimeOrder(ws)
    ensures var since := TogetherSince(a, b, sc, ws);
            !Blank(sc, ws[|ws| - 1]) && since.Some? && ws[|ws| - 1].now - since.value >= d
            <==> exists j :: TogetherFrom(a, b, sc, ws, j, d)
  {
    hide MetBoth, Blank, TogetherSince;
    var since := TogetherSince(a, b, sc, ws);
    var last := |ws| - 1;
    BothNotBlank(a, b, sc, ws[last]);
    if since.Some? {
      var s := TogetherStart(a, b, sc, ws);
      if ws[last].now - since.value >= d && !Blank(sc, ws[last]) {
        assert TogetherFrom(a, b, sc, ws, s, d);
      }
      if j: nat :| TogetherFrom(a, b, sc, ws, j, d) {
        assert BothSinceAt(a, b, sc, ws, j);
        assert s <= j;
      }
    }
    forall j: nat | TogetherFrom(a, b, sc, ws, j, d) ensures since.Some? {
      TogetherSome(a, b, sc, ws, j);
    }
  }

  lemma BothNotBlank(a: CounterCondition, b: CounterCondition, sc: Scope, w: World)
    ensures MetBoth(a, b, sc, w) ==> !Blank(sc, w)
  {
  }

  /**
   * "b, and a for d", the condition without a duration first, is enabled exactly when both were met at
   * some evaluation of this stay at least d earlier, are met now, and were met at every one between that
   * had a node to check.
   */
  lemma AndTogetherIff(
    def: Definition, i: Instance, ws: seq<World>, w: World, k: nat, a: CounterCondition, b: CounterCondition)
    requires Stay(def, i, ws, k, BothOf(b, a)) && Timed(a) && b.forDuration.None? && InTimeOrder(ws + [w])
    ensures Enabled(StayRun(def, i, ws), def.states[i.currentState].transitions, k, w)
            <==> exists j :: TogetherFrom(a, b, ScopeOf(i.context), ws + [w], j, Required(a))
  {
    AndStay(def, i, ws, k, a, b);
    AndEnabled(StayRun(def, i, ws), def.states[i.currentState].transitions, k, a, b, ws, w);
    TogetherIff(a, b, ScopeOf(i.context), ws + [w], Required(a));
    hide Enabled, StayRun, Quiet, TogetherSince, TogetherFrom, BothOf, Timed, InTimeOrder, Required, Blank;
  }

  // ----- "a for d, and b" -----

  lemma ThenTurn(
    a: CounterCondition, b: CounterCondition, ctx: Context, clocks: Clocks, key: string, ws: seq<World>, w: World)
    requires Timed(a) && b.forDuration.None?
    requires ClockAt(clocks, key) == BothSince(a, b, ScopeOf(ctx), ws)
    ensures var (r, clocks1) := EvalCondition(BothOf(a, b), ctx, clocks, key, w);
            var since := BothSince(a, b, ScopeOf(ctx), ws);
            && (r <==> since.Some? && MetBoth(a, b, ScopeOf(ctx), w) && w.now - since.value >= Required(a))
            && (!r ==> ClockAt(clocks1, key) == BothSince(a, b, ScopeOf(ctx), ws + [w]))
  {
    hide MetIn, Blank, Required, EvalCounter, EvalCondition, BothOf, ScopeOf, Timed;
    assert (ws + [w])[..|ws|] == ws;
    MetNotBlank(a, ScopeOf(ctx), w);
    MetNotBlank(b, ScopeOf(ctx), w);
    BothUnfolds(a, b, ctx, clocks, key, w);
    CounterTurn(a, ctx, clocks, key, w);
    InstantTurn(b, ctx, EvalCounter(a, ctx, clocks, key, w).1, key, w);
  }

  lemma ThenEnabled(
    i: Instance, ts: seq<Transition>, k: nat, a: CounterCondition, b: CounterCondition, ws: seq<World>, w: World)
    requires Timed(a) && b.forDuration.None? && k < |ts| && ts[k].when == Some(BothOf(a, b))
    requires ClockAt(i.context.clocks, Key(i.currentState, k)) == BothSince(a, b, ScopeOf(i.context), ws)
    ensures var since := BothSince(a, b, ScopeOf(i.context), ws);
            && (Enabled(i, ts, k, w)
               <==> since.Some? && MetBoth(a, b, ScopeOf(i.context), w) && w.now - since.value >= Required(a))
            && (!Enabled(i, ts, k, w) ==>
                  ClockAt(ClocksBefore(i, ts, |ts|, w), Key(i.currentState, k))
                    == BothSince(a, b, ScopeOf(i.context), ws + [w]))
  {
    hide EvalCondition, BothSince, MetBoth, BothOf, Key;
    OthersKeepClock(i, ts, 0, k, k, w);
    ThenTurn(a, b, i.context, ClocksBefore(i, ts, k, w), Key(i.currentState, k), ws, w);
    OthersKeepClock(i, ts, k + 1, k, |ts|, w);
  }

  lemma {:induction false} ThenStay(
    def: Definition, i: Instance, ws: seq<World>, k: nat, a: CounterCondition, b: CounterCondition)
    requires Stay(def, i, ws, k, BothOf(a, b)) && Timed(a) && b.forDuration.None?
    ensures var j := StayRun(def, i, ws);
            && j == WithClocks(i, j.context.clocks)
            && ClockAt(j.context.clocks, Key(i.currentState, k)) == BothSince(a, b, ScopeOf(i.context), ws)
    decreases |ws|
  {
    hide Step, ClocksBefore, Enabled, EffectOf, MetIn, BothOf, Required;
    if ws != [] {
      var ws', w := ws[..|ws| - 1], ws[|ws| - 1];
      ThenStay(def, i, ws', k, a, b);
      var j := StayRun(def, i, ws');
      QuietStep(def, i, j, w);
      ThenEnabled(j, def.states[i.currentState].transitions, k, a, b, ws', w);
      assert ws' + [w] == ws;
    }
  }

  /**
   * "a for d, and b", the sustained condition first, is enabled exactly when both are met now and the clock
   * is at least d old; it is dropped when a is not met, or when it has reached d while b is not met.
   */
  lemma AndThenIff(
    def: Definition, i: Instance, ws: seq<World>, w: World, k: nat, a: CounterCondition, b: CounterCondition)
    requires Stay(def, i, ws, k, BothOf(a, b)) && Timed(a) && b.forDuration.None?
    ensures var sc := ScopeOf(i.context);
            Enabled(StayRun(def, i, ws), def.states[i.currentState].transitions, k, w)
            <==> MetBoth(a, b, sc, w)
                 && exists j: nat :: BothHeld(a, b, sc, ws, j) && w.now - ws[j].now >= Required(a)
  {
    ThenStay(def, i, ws, k, a, b);
    ThenEnabled(StayRun(def, i, ws), def.states[i.currentState].transitions, k, a, b, ws, w);
    hide Enabled, StayRun, Quiet, BothSince, BothHeld, MetBoth, BothOf, Timed, Required;
    var sc := ScopeOf(i.context);
    if BothSince(a, b, sc, ws).Some? {
      var s := BothSinceStart(a, b, sc, ws);
    }
    forall j: nat | BothHeld(a, b, sc, ws, j) ensures j < |ws| && BothSince(a, b, sc, ws) == Some(ws[j].now) {
      HeldBound(a, b, sc, ws, j);
      BothSinceIff(a, b, sc, ws, j);
    }
  }

  lemma HeldBound(a: CounterCondition, b: CounterCondition, sc: Scope, ws: seq<World>, j: nat)
    requires Timed(a) && BothHeld(a, b, sc, ws, j)
    ensures j < |ws|
  {
  }

  // ----- over whole runs -----

  /** `OrIsInstant` in every stay of every run. */
  lemma OrOverRuns(
    def: Definition, s: Instance, ops: seq<Op>, ws: seq<World>, w: World, k: nat, a: CounterCondition,
    b: CounterCondition)
    requires WaitInRun(def, s, ops, ws, k, EitherOf(a, b)) || WaitInRun(def, s, ops, ws, k, EitherOf(b, a))
    requires Timed(a) && b.forDuration.None?
    ensures var i := Run(def, s, ops);
            Enabled(Run(def, i, Evaluations(ws)), Ways(def, s, ops), k, w) <==> MetIn(b, ScopeOf(i.context), w)
  {
    hide Run, StayRun, Enabled, EitherOf, Timed, MetIn, StayInRun;
    if WaitInRun(def, s, ops, ws, k, EitherOf(a, b)) {
      StayOfRun(def, s, ops, ws, k, EitherOf(a, b));
    } else {
      StayOfRun(def, s, ops, ws, k, EitherOf(b, a));
    }
    OrIsInstant(def, Run(def, s, ops), ws, w, k, a, b);
  }

  /** `AndTogetherIff` in every stay of every run. */
  lemma AndTogetherOverRuns(
    def: Definition, s: Instance, ops: seq<Op>, ws: seq<World>, w: World, k: nat, a: CounterCondition,
    b: CounterCondition)
    requires WaitInRun(def, s, ops, ws, k, BothOf(b, a)) && Timed(a) && b.forDuration.None? && InTimeOrder(ws + [w])
    ensures var i := Run(def, s, ops);
            Enabled(Run(def, i, Evaluations(ws)), Ways(def, s, ops), k, w)
            <==> exists j :: TogetherFrom(a, b, ScopeOf(i.context), ws + [w], j, Required(a))
  {
    StayOfRun(def, s, ops, ws, k, BothOf(b, a));
    hide Run, StayRun, Enabled, BothOf, Timed, TogetherFrom, InTimeOrder;
    AndTogetherIff(def, Run(def, s, ops), ws, w, k, a, b);
  }

  /** `AndThenIff` in every stay of every run. */
  lemma AndThenOverRuns(
    def: Definition, s: Instance, ops: seq<Op>, ws: seq<World>, w: World, k: nat, a: CounterCondition,
    b: CounterCondition)
    requires WaitInRun(def, s, ops, ws, k, BothOf(a, b)) && Timed(a) && b.forDuration.None?
    ensures var i := Run(def, s, ops);
            var sc := ScopeOf(i.context);
            Enabled(Run(def, i, Evaluations(ws)), Ways(def, s, ops), k, w)
            <==> MetBoth(a, b, sc, w)
                 && exists j: nat :: BothHeld(a, b, sc, ws, j) && w.now - ws[j].now >= Required(a)
  {
    StayOfRun(def, s, ops, ws, k, BothOf(a, b));
    hide Run, StayRun, Enabled, BothOf, Timed, BothHeld, MetBoth;
    AndThenIff(def, Run(def, s, ops), ws, w, k, a, b);
  }
}
