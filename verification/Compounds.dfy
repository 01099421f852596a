/** Two sustained counter conditions in one transition share its clock: what "or" and "and" of them mean then. */
module Compounds {
  import opened Core
  import opened Definitions
  import opened Engine
  import opened EngineRuns
  import opened Conditions
  import opened Rollouts
  import Durations

  /** A counter condition with a duration that parses. */
  ghost predicate Timed(cc: CounterCondition) {
    cc.forDuration.Some? && Durations.Parse(cc.forDuration.value).Ok?
  }

  function BothOf(a: CounterCondition, b: CounterCondition): Condition {
    Compound(Given([Counter(a), Counter(b)]), Omitted, None)
  }

  function EitherOf(a: CounterCondition, b: CounterCondition): Condition {
    Compound(Omitted, Given([Counter(a), Counter(b)]), None)
  }

  /** A stay in the current state, and its transition `k` guarded by `c`. */
  ghost predicate Stay(def: Definition, i: Instance, ws: seq<World>, k: nat, c: Condition) {
    && Entered(def, i) && Quiet(def, i, ws)
    && k < |def.states[i.currentState].transitions| && def.states[i.currentState].transitions[k].when == Some(c)
  }

  lemma EitherUnfolds(a: CounterCondition, b: CounterCondition, ctx: Context, clocks: Clocks, key: string, w: World)
    ensures var (r, clocks1) := EvalCounter(a, ctx, clocks, key, w);
            EvalCondition(EitherOf(a, b), ctx, clocks, key, w)
            == if r then (true, clocks1) else EvalCounter(b, ctx, clocks1, key, w)
  {
    hide EvalCounter;
    var cs := [Counter(a), Counter(b)];
    assert cs[1..] == [Counter(b)] && [Counter(b)][1..] == [];
    var (r, clocks1) := EvalCounter(a, ctx, clocks, key, w);
    assert EvalAny([Counter(b)], ctx, clocks1, key, w) == EvalCounter(b, ctx, clocks1, key, w);
    assert EvalAny(cs, ctx, clocks, key, w) == if r then (true, clocks1) else EvalAny(cs[1..], ctx, clocks1, key, w);
  }

  lemma BothUnfolds(a: CounterCondition, b: CounterCondition, ctx: Context, clocks: Clocks, key: string, w: World)
    ensures var (r, clocks1) := EvalCounter(a, ctx, clocks, key, w);
            EvalCondition(BothOf(a, b), ctx, clocks, key, w)
            == if r then EvalCounter(b, ctx, clocks1, key, w) else (false, clocks1)
  {
    hide EvalCounter;
    var cs := [Counter(a), Counter(b)];
    assert cs[1..] == [Counter(b)] && [Counter(b)][1..] == [];
    var (r, clocks1) := EvalCounter(a, ctx, clocks, key, w);
    assert EvalAll([Counter(b)], ctx, clocks1, key, w) == EvalCounter(b, ctx, clocks1, key, w);
    assert EvalAll(cs, ctx, clocks, key, w) == if r then EvalAll(cs[1..], ctx, clocks1, key, w) else (false, clocks1);
  }

  /** One evaluation of a sustained counter condition, seen from its clock alone. */
  lemma CounterTurn(cc: CounterCondition, ctx: Context, clocks: Clocks, key: string, w: World)
    requires Timed(cc)
    ensures var (r, clocks1) := EvalCounter(cc, ctx, clocks, key, w);
            var since := if key in clocks then clocks[key] else w.now;
            && ClockAt(clocks1, key) == (if Blank(ScopeOf(ctx), w) then ClockAt(clocks, key)
                                         else if MetIn(cc, ScopeOf(ctx), w) then Some(since) else None)
            && (r <==> MetIn(cc, ScopeOf(ctx), w) && w.now - since >= Required(cc))
    ensures Required(cc) > 0
  {
    Durations.SpanPositive(cc.forDuration.value);
    assert Checked(ScopeOf(ctx), w) == NodesToCheck(ctx, w);
    if Blank(ScopeOf(ctx), w) {
      NoNodesUnmet(cc, w);
    }
    hide Met, Durations.Parse, Durations.Span;
  }

  // ----- "a for d, or b for e" -----

  /**
   * The clock after evaluations that fired nothing: it runs since b has been met, and a after that,
   * blank ones aside.
   */
  function EitherSince(a: CounterCondition, b: CounterCondition, sc: Scope, ws: seq<World>): Option<Time>
    decreases |ws|
  {
    if ws == [] then None
    else
      var last := ws[|ws| - 1];
      var before := EitherSince(a, b, sc, ws[..|ws| - 1]);
      if Blank(sc, last) then before
      else if !MetIn(b, sc, last) then None
      else if !MetIn(a, sc, last) || before.None? then Some(last.now)
      else before
  }

  /** The transition answers true at `w`, when its clock runs since `since`. */
  ghost predicate EitherDue(a: CounterCondition, b: CounterCondition, sc: Scope, since: Time, w: World)
    requires Timed(a) && Timed(b)
  {
    MetIn(a, sc, w) && (w.now - since >= Required(a) || (MetIn(b, sc, w) && w.now - since >= Required(b)))
  }

  lemma EitherTurn(
    a: CounterCondition, b: CounterCondition, ctx: Context, clocks: Clocks, key: string, ws: seq<World>, w: World)
    requires Timed(a) && Timed(b)
    requires ClockAt(clocks, key) == EitherSince(a, b, ScopeOf(ctx), ws)
    ensures var (r, clocks1) := EvalCondition(EitherOf(a, b), ctx, clocks, key, w);
            var since := EitherSince(a, b, ScopeOf(ctx), ws);
            && (r <==> since.Some? && EitherDue(a, b, ScopeOf(ctx), since.value, w))
            && (!r ==> ClockAt(clocks1, key) == EitherSince(a, b, ScopeOf(ctx), ws + [w]))
  {
    hide MetIn, Blank, Required, EvalCounter, EvalCondition, EitherOf, ScopeOf, Timed;
    assert (ws + [w])[..|ws|] == ws;
    MetNotBlank(a, ScopeOf(ctx), w);
    MetNotBlank(b, ScopeOf(ctx), w);
    EitherUnfolds(a, b, ctx, clocks, key, w);
    CounterTurn(a, ctx, clocks, key, w);
    CounterTurn(b, ctx, EvalCounter(a, ctx, clocks, key, w).1, key, w);
  }

  lemma EitherEnabled(
    i: Instance, ts: seq<Transition>, k: nat, a: CounterCondition, b: CounterCondition, ws: seq<World>, w: World)
    requires Timed(a) && Timed(b)
    requires k < |ts| && ts[k].when == Some(EitherOf(a, b))
    requires ClockAt(i.context.clocks, Key(i.currentState, k)) == EitherSince(a, b, ScopeOf(i.context), ws)
    ensures var since := EitherSince(a, b, ScopeOf(i.context), ws);
            && (Enabled(i, ts, k, w) <==> since.Some? && EitherDue(a, b, ScopeOf(i.context), since.value, w))
            && (!Enabled(i, ts, k, w) ==>
                  ClockAt(ClocksBefore(i, ts, |ts|, w), Key(i.currentState, k))
                    == EitherSince(a, b, ScopeOf(i.context), ws + [w]))
  {
    hide EvalCondition, EitherSince, EitherDue, EitherOf, Key;
    OthersKeepClock(i, ts, 0, k, k, w);
    EitherTurn(a, b, i.context, ClocksBefore(i, ts, k, w), Key(i.currentState, k), ws, w);
    OthersKeepClock(i, ts, k + 1, k, |ts|, w);
  }

  /** Throughout a stay the clock is the one `EitherSince` names. */
  lemma {:induction false} EitherStay(
    def: Definition, i: Instance, ws: seq<World>, k: nat, a: CounterCondition, b: CounterCondition)
    requires Stay(def, i, ws, k, EitherOf(a, b)) && Timed(a) && Timed(b)
    ensures var j := StayRun(def, i, ws);
            && j == WithClocks(i, j.context.clocks)
            && ClockAt(j.context.clocks, Key(i.currentState, k)) == EitherSince(a, b, ScopeOf(i.context), ws)
    decreases |ws|
  {
    hide Step, ClocksBefore, Enabled, EffectOf, MetIn, EitherOf, Required, Timed;
    if ws != [] {
      var ws', w := ws[..|ws| - 1], ws[|ws| - 1];
      EitherStay(def, i, ws', k, a, b);
      var j := StayRun(def, i, ws');
      QuietStep(def, i, j, w);
      EitherEnabled(j, def.states[i.currentState].transitions, k, a, b, ws', w);
      assert ws' + [w] == ws;
    }
  }

  /** Since evaluation `j` b has been met, and a at every later one, blank ones aside. */
  ghost predicate EitherHeld(a: CounterCondition, b: CounterCondition, sc: Scope, ws: seq<World>, j: nat) {
    && j < |ws| && MetIn(b, sc, ws[j])
    && (forall m | j <= m < |ws| :: Blank(sc, ws[m]) || MetIn(b, sc, ws[m]))
    && (forall m | j < m < |ws| :: Blank(sc, ws[m]) || MetIn(a, sc, ws[m]))
  }

  /** Evaluation `j` is one of these, and lies far enough back for the transition to answer true at `w`. */
  ghost predicate EitherFrom(a: CounterCondition, b: CounterCondition, sc: Scope, ws: seq<World>, w: World, j: nat)
    requires Timed(a) && Timed(b)
  {
    EitherHeld(a, b, sc, ws, j) && EitherDue(a, b, sc, ws[j].now, w)
  }

  lemma {:induction false} EitherHeldSome(a: CounterCondition, b: CounterCondition, sc: Scope, ws: seq<World>, j: nat)
    requires EitherHeld(a, b, sc, ws, j)
    ensures EitherSince(a, b, sc, ws).Some?
    decreases |ws|
  {
    hide MetIn, Blank;
    var n := |ws| - 1;
    if j < n {
      assert EitherHeld(a, b, sc, ws[..n], j);
      EitherHeldSome(a, b, sc, ws[..n], j);
    } else {
      MetNotBlank(b, sc, ws[n]);
    }
  }

  /** `EitherSince` names the first such evaluation. */
  lemma {:induction false} EitherSinceStart(a: CounterCondition, b: CounterCondition, sc: Scope, ws: seq<World>)
    returns (j: nat)
    requires EitherSince(a, b, sc, ws).Some?
    ensures EitherHeld(a, b, sc, ws, j) && EitherSince(a, b, sc, ws) == Some(ws[j].now)
    ensures forall i: nat :: i < j ==> !EitherHeld(a, b, sc, ws, i)
    decreases |ws|
  {
    hide MetIn, Blank;
    var n := |ws| - 1;
    j := n;
    var before := EitherSince(a, b, sc, ws[..n]);
    if before.Some? && (Blank(sc, ws[n]) || MetIn(a, sc, ws[n])) {
      j := EitherSinceStart(a, b, sc, ws[..n]);
      forall i: nat | i < j ensures !EitherHeld(a, b, sc, ws, i) {
        assert !EitherHeld(a, b, sc, ws[..n], i);
      }
    } else {
      forall i: nat | i < j ensures !EitherHeld(a, b, sc, ws, i) {
        if EitherHeld(a, b, sc, ws[..n], i) {
          EitherHeldSome(a, b, sc, ws[..n], i);
        }
      }
    }
  }

  lemma EitherSinceIff(a: CounterCondition, b: CounterCondition, sc: Scope, ws: seq<World>, w: World)
    requires Timed(a) && Timed(b) && InTimeOrder(ws + [w])
    ensures var since := EitherSince(a, b, sc, ws);
            since.Some? && EitherDue(a, b, sc, since.value, w)
            <==> exists j :: EitherFrom(a, b, sc, ws, w, j)
  {
    var since := EitherSince(a, b, sc, ws);
    hide MetIn, Required, Timed;
    if j: nat :| EitherFrom(a, b, sc, ws, w, j) {
      EitherHeldSome(a, b, sc, ws, j);
      var s := EitherSinceStart(a, b, sc, ws);
      assert s <= j;
      assert (ws + [w])[s].now <= (ws + [w])[j].now;
    }
    if since.Some? && EitherDue(a, b, sc, since.value, w) {
      var s := EitherSinceStart(a, b, sc, ws);
      assert EitherFrom(a, b, sc, ws, w, s);
    }
  }

  /**
   * "a for d, or b for e" is enabled at an evaluation exactly when a is met there and some earlier
   * evaluation of the stay, far enough back, met b, b has been met at every one since and a at every
   * one after it, evaluations without a node to check aside: far enough is d, or e if b is met now too.
   */
  lemma EitherIff(
    def: Definition, i: Instance, ws: seq<World>, w: World, k: nat, a: CounterCondition, b: CounterCondition)
    requires Stay(def, i, ws, k, EitherOf(a, b)) && Timed(a) && Timed(b) && InTimeOrder(ws + [w])
    ensures var sc := ScopeOf(i.context);
            Enabled(StayRun(def, i, ws), def.states[i.currentState].transitions, k, w)
            <==> exists j :: EitherFrom(a, b, sc, ws, w, j)
  {
    EitherStay(def, i, ws, k, a, b);
    hide Enabled, StayRun, Quiet, EitherSince, EitherDue, EitherFrom, EitherOf, Timed, InTimeOrder;
    EitherEnabled(StayRun(def, i, ws), def.states[i.currentState].transitions, k, a, b, ws, w);
    EitherSinceIff(a, b, ScopeOf(i.context), ws, w);
  }

  lemma {:induction false} EitherNone(a: CounterCondition, b: CounterCondition, sc: Scope, ws: seq<World>)
    requires forall x | x in ws :: !MetIn(b, sc, x)
    ensures EitherSince(a, b, sc, ws).None?
    decreases |ws|
  {
    hide MetIn, Blank;
    if ws != [] {
      EitherNone(a, b, sc, ws[..|ws| - 1]);
    }
  }

  /** As long as b is never met, "a for d, or b for e" is never enabled, however long a has been met. */
  lemma EitherNeverFires(
    def: Definition, i: Instance, ws: seq<World>, w: World, k: nat, a: CounterCondition, b: CounterCondition)
    requires Stay(def, i, ws, k, EitherOf(a, b)) && Timed(a) && Timed(b)
    requires forall x | x in ws :: !MetIn(b, ScopeOf(i.context), x)
    ensures StayRun(def, i, ws) == WithClocks(i, StayRun(def, i, ws).context.clocks)
    ensures Key(i.currentState, k) !in StayRun(def, i, ws).context.clocks
    ensures !Enabled(StayRun(def, i, ws), def.states[i.currentState].transitions, k, w)
  {
    hide Enabled, StayRun, Quiet, EitherOf, Timed, MetIn, EitherSince, EitherDue;
    EitherStay(def, i, ws, k, a, b);
    EitherNone(a, b, ScopeOf(i.context), ws);
    EitherEnabled(StayRun(def, i, ws), def.states[i.currentState].transitions, k, a, b, ws, w);
  }

  // ----- "a for d, and b for e" -----

  /**
   * The clock after evaluations that fired nothing: it runs since a has been met, and is dropped when it
   * has reached d while b is not met.
   */
  function BothSince(a: CounterCondition, b: CounterCondition, sc: Scope, ws: seq<World>): Option<Time>
    requires a.forDuration.Some? && Durations.Parse(a.forDuration.value).Ok?
    decreases |ws|
  {
    if ws == [] then None
    else
      var last := ws[|ws| - 1];
      var before := BothSince(a, b, sc, ws[..|ws| - 1]);
      var since := if before.Some? then before.value else last.now;
      if Blank(sc, last) then before
      else if !MetIn(a, sc, last) || (last.now - since >= Required(a) && !MetIn(b, sc, last)) then None
      else Some(since)
  }

  ghost predicate BothDue(a: CounterCondition, b: CounterCondition, sc: Scope, since: Time, w: World)
    requires Timed(a) && Timed(b)
  {
    MetIn(a, sc, w) && MetIn(b, sc, w) && w.now - since >= Required(a) && w.now - since >= Required(b)
  }

  lemma BothTurn(
    a: CounterCondition, b: CounterCondition, ctx: Context, clocks: Clocks, key: string, ws: seq<World>, w: World)
    requires Timed(a) && Timed(b)
    requires ClockAt(clocks, key) == BothSince(a, b, ScopeOf(ctx), ws)
    ensures var (r, clocks1) := EvalCondition(BothOf(a, b), ctx, clocks, key, w);
            var since := BothSince(a, b, ScopeOf(ctx), ws);
            && (r <==> since.Some? && BothDue(a, b, ScopeOf(ctx), since.value, w))
            && (!r ==> ClockAt(clocks1, key) == BothSince(a, b, ScopeOf(ctx), ws + [w]))
  {
    hide MetIn, Blank, Required, EvalCounter, EvalCondition, BothOf, ScopeOf, Timed;
    assert (ws + [w])[..|ws|] == ws;
    MetNotBlank(a, ScopeOf(ctx), w);
    MetNotBlank(b, ScopeOf(ctx), w);
    BothUnfolds(a, b, ctx, clocks, key, w);
    CounterTurn(a, ctx, clocks, key, w);
    CounterTurn(b, ctx, EvalCounter(a, ctx, clocks, key, w).1, key, w);
  }

  lemma BothEnabled(
    i: Instance, ts: seq<Transition>, k: nat, a: CounterCondition, b: CounterCondition, ws: seq<World>, w: World)
    requires Timed(a) && Timed(b)
    requires k < |ts| && ts[k].when == Some(BothOf(a, b))
    requires ClockAt(i.context.clocks, Key(i.currentState, k)) == BothSince(a, b, ScopeOf(i.context), ws)
    ensures var since := BothSince(a, b, ScopeOf(i.context), ws);
            && (Enabled(i, ts, k, w) <==> since.Some? && BothDue(a, b, ScopeOf(i.context), since.value, w))
            && (!Enabled(i, ts, k, w) ==>
                  ClockAt(ClocksBefore(i, ts, |ts|, w), Key(i.currentState, k))
                    == BothSince(a, b, ScopeOf(i.context), ws + [w]))
  {
    hide EvalCondition, BothSince, BothDue, BothOf, Key;
    OthersKeepClock(i, ts, 0, k, k, w);
    BothTurn(a, b, i.context, ClocksBefore(i, ts, k, w), Key(i.currentState, k), ws, w);
    OthersKeepClock(i, ts, k + 1, k, |ts|, w);
  }

  /** Throughout a stay the clock is the one `BothSince` names. */
  lemma {:induction false} BothStay(
    def: Definition, i: Instance, ws: seq<World>, k: nat, a: CounterCondition, b: CounterCondition)
    requires Stay(def, i, ws, k, BothOf(a, b)) && Timed(a) && Timed(b)
    ensures var j := StayRun(def, i, ws);
            && j == WithClocks(i, j.context.clocks)
            && ClockAt(j.context.clocks, Key(i.currentState, k)) == BothSince(a, b, ScopeOf(i.context), ws)
    decreases |ws|
  {
    hide Step, ClocksBefore, Enabled, EffectOf, MetIn, BothOf, Required;
    if ws != [] {
      var ws', w := ws[..|ws| - 1], ws[|ws| - 1];
      BothStay(def, i, ws', k, a, b);
      var j := StayRun(def, i, ws');
      QuietStep(def, i, j, w);
      BothEnabled(j, def.states[i.currentState].transitions, k, a, b, ws', w);
      assert ws' + [w] == ws;
    }
  }

  /** An evaluation that does not drop a clock running since `since`. */
  ghost predicate KeepsBoth(a: CounterCondition, b: CounterCondition, sc: Scope, since: Time, w: World)
    requires Timed(a)
  {
    MetIn(a, sc, w) && (w.now - since >= Required(a) ==> MetIn(b, sc, w))
  }

  /**
   * The clock starts at evaluation `j`, a has been met since, and at none of them had it reached d while
   * b was not met, blank ones aside.
   */
  ghost predicate BothHeld(a: CounterCondition, b: CounterCondition, sc: Scope, ws: seq<World>, j: nat)
    requires Timed(a)
  {
    && j < |ws| && BothSince(a, b, sc, ws[..j]).None? && MetIn(a, sc, ws[j])
    && forall m | j <= m < |ws| :: Blank(sc, ws[m]) || KeepsBoth(a, b, sc, ws[j].now, ws[m])
  }

  ghost predicate BothFrom(a: CounterCondition, b: CounterCondition, sc: Scope, ws: seq<World>, w: World, j: nat)
    requires Timed(a) && Timed(b)
  {
    BothHeld(a, b, sc, ws, j) && BothDue(a, b, sc, ws[j].now, w)
  }

  lemma {:induction false} BothSinceIff(a: CounterCondition, b: CounterCondition, sc: Scope, ws: seq<World>, j: nat)
    requires Timed(a) && j < |ws|
    ensures BothHeld(a, b, sc, ws, j) ==> BothSince(a, b, sc, ws) == Some(ws[j].now)
    decreases |ws|
  {
    hide MetIn, Required;
    var n := |ws| - 1;
    if BothHeld(a, b, sc, ws, j) {
      assert ws[..n][..j] == ws[..j] || j == n;
      MetNotBlank(a, sc, ws[j]);
      if j < n {
        assert forall m | j <= m < n :: ws[..n][m] == ws[m];
        BothSinceIff(a, b, sc, ws[..n], j);
      }
    }
  }

  lemma {:induction false} BothSinceStart(a: CounterCondition, b: CounterCondition, sc: Scope, ws: seq<World>)
    returns (j: nat)
    requires Timed(a) && BothSince(a, b, sc, ws).Some?
    ensures BothHeld(a, b, sc, ws, j) && BothSince(a, b, sc, ws) == Some(ws[j].now)
    decreases |ws|
  {
    hide MetIn, Required;
    var n := |ws| - 1;
    j := n;
    if BothSince(a, b, sc, ws[..n]).Some? {
      j := BothSinceStart(a, b, sc, ws[..n]);
      assert ws[..n][..j] == ws[..j];
    }
  }

  /**
   * "a for d, and b for e" is enabled at an evaluation exactly when both are met there and the clock is
   * at least d and at least e old; the clock starts at an evaluation, and is dropped at any later one
   * with a node to check that does not meet a, or at which it has reached d while b is not met.
   */
  lemma BothIff(
    def: Definition, i: Instance, ws: seq<World>, w: World, k: nat, a: CounterCondition, b: CounterCondition)
    requires Stay(def, i, ws, k, BothOf(a, b)) && Timed(a) && Timed(b)
    ensures var sc := ScopeOf(i.context);
            Enabled(StayRun(def, i, ws), def.states[i.currentState].transitions, k, w)
            <==> exists j :: BothFrom(a, b, sc, ws, w, j)
  {
    BothStay(def, i, ws, k, a, b);
    hide Enabled, StayRun, Quiet, BothSince, BothDue, BothFrom, BothOf, Timed;
    BothEnabled(StayRun(def, i, ws), def.states[i.currentState].transitions, k, a, b, ws, w);
    BothFromIff(a, b, ScopeOf(i.context), ws, w);
  }

  lemma BothFromIff(a: CounterCondition, b: CounterCondition, sc: Scope, ws: seq<World>, w: World)
    requires Timed(a) && Timed(b)
    ensures var since := BothSince(a, b, sc, ws);
            since.Some? && BothDue(a, b, sc, since.value, w) <==> exists j :: BothFrom(a, b, sc, ws, w, j)
  {
    hide BothSince, BothDue, MetIn;
    var since := BothSince(a, b, sc, ws);
    if j: nat :| BothFrom(a, b, sc, ws, w, j) {
      BothSinceIff(a, b, sc, ws, j);
    }
    if since.Some? {
      var s := BothSinceStart(a, b, sc, ws);
      assert BothDue(a, b, sc, since.value, w) ==> BothFrom(a, b, sc, ws, w, s);
    }
  }

  /** Whenever "a for d, and b for e" is enabled, a has been held for d and e, while b need only be met now. */
  lemma BothNeeds(
    def: Definition, i: Instance, ws: seq<World>, w: World, k: nat, a: CounterCondition, b: CounterCondition)
    requires Stay(def, i, ws, k, BothOf(a, b)) && Timed(a) && Timed(b)
    requires Enabled(StayRun(def, i, ws), def.states[i.currentState].transitions, k, w)
    ensures var sc := ScopeOf(i.context);
            && MetIn(b, sc, w)
            && exists j :: HeldFrom(a, sc, ws + [w], j, Required(a)) && HeldFrom(a, sc, ws + [w], j, Required(b))
  {
    BothIff(def, i, ws, w, k, a, b);
    hide Enabled, StayRun, Quiet, BothOf, BothFrom, HeldFrom, Timed;
    var j :| BothFrom(a, b, ScopeOf(i.context), ws, w, j);
    BothFromHeld(a, b, ScopeOf(i.context), ws, w, j);
  }

  lemma BothFromHeld(a: CounterCondition, b: CounterCondition, sc: Scope, ws: seq<World>, w: World, j: nat)
    requires Timed(a) && Timed(b) && BothFrom(a, b, sc, ws, w, j)
    ensures MetIn(b, sc, w)
    ensures HeldFrom(a, sc, ws + [w], j, Required(a)) && HeldFrom(a, sc, ws + [w], j, Required(b))
  {
    hide MetIn, Required, BothSince;
    assert forall m | j <= m < |ws| :: (ws + [w])[m] == ws[m];
  }

  /**
   * "a for d, and b for d": the transition is enabled as soon as a has been met for d and b is met at
   * that one evaluation, although b was not met before.
   */
  lemma BothFiresEarly(
    def: Definition, i: Instance, w0: World, w: World, k: nat, a: CounterCondition, b: CounterCondition)
    requires Stay(def, i, [w0], k, BothOf(a, b)) && Timed(a) && b.forDuration == a.forDuration
    requires MetIn(a, ScopeOf(i.context), w0) && !MetIn(b, ScopeOf(i.context), w0)
    requires MetIn(a, ScopeOf(i.context), w) && MetIn(b, ScopeOf(i.context), w) && w.now - w0.now >= Required(a)
    ensures Enabled(StayRun(def, i, [w0]), def.states[i.currentState].transitions, k, w)
  {
    BothIff(def, i, [w0], w, k, a, b);
    Durations.SpanPositive(a.forDuration.value);
    hide Enabled, StayRun, Quiet, BothOf, MetIn, Durations.Parse, Durations.Span;
    var sc := ScopeOf(i.context);
    assert [w0][..0] == [];
    assert BothFrom(a, b, sc, [w0], w, 0);
  }

  // ----- over whole runs -----

  /** A stay in some run, and its transition `k` guarded by `c`. */
  ghost predicate WaitInRun(def: Definition, s: Instance, ops: seq<Op>, ws: seq<World>, k: nat, c: Condition) {
    StayInRun(def, s, ops, ws) && k < |Ways(def, s, ops)| && Ways(def, s, ops)[k].when == Some(c)
  }

  lemma StayOfRun(def: Definition, s: Instance, ops: seq<Op>, ws: seq<World>, k: nat, c: Condition)
    requires WaitInRun(def, s, ops, ws, k, c)
    ensures var i := Run(def, s, ops);
            Stay(def, i, ws, k, c) && StayRun(def, i, ws) == Run(def, i, Evaluations(ws))
  {
    EntryInRun(def, s, ops);
    StayIsRun(def, Run(def, s, ops), ws);
    hide Run, StayRun, Quiet, Valid, Starts, JustEntered;
  }

  /** `EitherIff` in every stay of every run. */
  lemma EitherOverRuns(
    def: Definition, s: Instance, ops: seq<Op>, ws: seq<World>, w: World, k: nat, a: CounterCondition,
    b: CounterCondition)
    requires WaitInRun(def, s, ops, ws, k, EitherOf(a, b)) && Timed(a) && Timed(b) && InTimeOrder(ws + [w])
    ensures var i := Run(def, s, ops);
            var sc := ScopeOf(i.context);
            Enabled(Run(def, i, Evaluations(ws)), Ways(def, s, ops), k, w)
            <==> exists j :: EitherFrom(a, b, sc, ws, w, j)
  {
    StayOfRun(def, s, ops, ws, k, EitherOf(a, b));
    hide Run, StayRun, Enabled, EitherOf, EitherFrom, Timed, InTimeOrder;
    EitherIff(def, Run(def, s, ops), ws, w, k, a, b);
  }

  /** `BothIff` in every stay of every run. */
  lemma BothOverRuns(
    def: Definition, s: Instance, ops: seq<Op>, ws: seq<World>, w: World, k: nat, a: CounterCondition,
    b: CounterCondition)
    requires WaitInRun(def, s, ops, ws, k, BothOf(a, b)) && Timed(a) && Timed(b)
    ensures var i := Run(def, s, ops);
            var sc := ScopeOf(i.context);
            Enabled(Run(def, i, Evaluations(ws)), Ways(def, s, ops), k, w)
            <==> exists j :: BothFrom(a, b, sc, ws, w, j)
  {
    StayOfRun(def, s, ops, ws, k, BothOf(a, b));
    hide Run, StayRun, Enabled, BothOf, BothFrom;
    BothIff(def, Run(def, s, ops), ws, w, k, a, b);
  }
}
