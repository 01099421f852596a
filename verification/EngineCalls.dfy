/** What each engine call makes of an instance, spelled out; and when a delay moves a rollout on, over runs. */
module EngineCalls {
  import opened Core
  import opened Definitions
  import opened Engine
  import opened EngineRuns
  import opened Conditions
  import opened Rollouts
  import opened DeployActions
  import Durations

  // ----- when a transition is enabled -----

  /** A condition decides alone, whatever delay stands beside it; a delay counts from the last change of state. */
  predicate Ready(t: Transition, ctx: Context, elapsed: Time, w: World) {
    match t.when
    case Some(c) => Holds(c, ctx, w)
    case None =>
      && t.after.Some? && Durations.Parse(t.after.value).Ok?
      && elapsed >= Durations.Span(Durations.Parse(t.after.value).value)
  }

  /** A transition without sustained conditions is enabled exactly when its condition holds, or its delay has passed. */
  lemma EnabledIff(i: Instance, ts: seq<Transition>, k: nat, w: World)
    requires k < |ts| && (ts[k].when.Some? ==> Timeless(ts[k].when.value))
    ensures Enabled(i, ts, k, w) <==> Ready(ts[k], i.context, w.now - i.updatedAt, w)
  {
    hide ClocksBefore, Holds, Timeless, Durations.Parse, EvalCondition;
    if ts[k].when.Some? {
      TimelessMeaning(ts[k].when.value, i.context, ClocksBefore(i, ts, k, w), Key(i.currentState, k), w);
    }
  }

  // ----- moving on -----

  /** The clocks but those of `state`. */
  ghost predicate Without(clocks: Clocks, kept: Clocks, state: string) {
    forall key ::
      (key in kept <==> key in clocks && !(state + ":" <= key)) && (key in kept ==> kept[key] == clocks[key])
  }

  /** What entering `to` performs. */
  function Entering(def: Definition, to: string, ctx: Context, w: World): Context {
    if to in def.states then ExecuteAction(def.states[to].action, ctx, w) else ctx
  }

  /**
   * `j` is `i` moved to state `to`: one more record, the time of the move, no clock of the old state, the
   * action of the new state performed, and the run completed if the new state is terminal.
   */
  ghost predicate Moved(def: Definition, i: Instance, j: Instance, to: string, trigger: Trigger, w: World) {
    && j.history == i.history + [Move(i.currentState, to, trigger, w.now)]
    && j.currentState == to && j.updatedAt == w.now && j.createdAt == i.createdAt
    && j.status == (if to in def.states && def.states[to].terminal then Completed else i.status)
    && exists kept :: Without(i.context.clocks, kept, i.currentState)
                      && j.context == Entering(def, to, i.context.(clocks := kept), w)
  }

  lemma DropsOwn(before: Clocks, clocks: Clocks, state: string)
    requires forall key :: !(state + ":" <= key) ==> SameClock(before, clocks, key)
    ensures Without(before, DropClocks(clocks, state), state)
  {
    var kept := DropClocks(clocks, state);
    forall key
      ensures (key in kept <==> key in before && !(state + ":" <= key)) && (key in kept ==> kept[key] == before[key])
    {
      if !(state + ":" <= key) {
        assert SameClock(before, clocks, key);
      }
    }
  }

  lemma FireMoves(def: Definition, i: Instance, clocks: Clocks, to: string, trigger: Trigger, w: World)
    requires forall key :: !(i.currentState + ":" <= key) ==> SameClock(i.context.clocks, clocks, key)
    ensures Moved(def, i, Fire(def, WithClocks(i, clocks), to, trigger, w), to, trigger, w)
  {
    hide ExecuteAction;
    var kept := DropClocks(clocks, i.currentState);
    DropsOwn(i.context.clocks, clocks, i.currentState);
    assert WithClocks(i, clocks).context.(clocks := kept) == i.context.(clocks := kept);
  }

  /** Evaluating transitions touches clocks of the current state only. */
  lemma {:induction false} EvalFromOthers(
    i: Instance, ts: seq<Transition>, k: nat, clocks: Clocks, w: World, key: string)
    requires k <= |ts| && !(i.currentState + ":" <= key)
    ensures SameClock(clocks, EvalFrom(i, ts, k, clocks, w).1, key)
    decreases |ts| - k
  {
    hide EvalTransition;
    if k < |ts| {
      KeyOwn(i.currentState, k, key);
      TransitionFrame(ts[k], i, clocks, Key(i.currentState, k), w);
      EvalFromOthers(i, ts, k + 1, EvalTransition(ts[k], i.context, clocks, i.updatedAt,
        Key(i.currentState, k), w).1, w, key);
    }
  }

  lemma KeyOwn(state: string, k: nat, key: string)
    requires !(state + ":" <= key)
    ensures key != Key(state, k)
  {
  }

  // ----- the periodic evaluation -----

  /** Transition `k` is enabled and none before it is. */
  ghost predicate Fires(i: Instance, ts: seq<Transition>, k: nat, w: World) {
    k < |ts| && Enabled(i, ts, k, w) && forall m: nat :: m < k ==> !Enabled(i, ts, m, w)
  }

  /**
   * An evaluation takes the first enabled transition, as a timer's if it has a delay; with none enabled it
   * changes clocks only; in a terminal state it completes the run.
   */
  lemma EvaluationIs(def: Definition, i: Instance, w: World)
    requires i.status == Running && i.currentState in def.states
    ensures var j := Step(def, i, EvaluateOp(w));
            var state := def.states[i.currentState];
            && (state.terminal ==> j == i.(status := Completed, updatedAt := w.now))
            && (!state.terminal ==>
                  && (forall k: nat :: Fires(i, state.transitions, k, w) ==>
                        Moved(def, i, j, state.transitions[k].to,
                              if state.transitions[k].after.Some? then OnTimer else OnCondition, w))
                  && ((forall k: nat :: !Fires(i, state.transitions, k, w)) ==>
                        j == i.(context := i.context.(clocks := j.context.clocks))))
  {
    hide EvalFrom, Moved, Enabled, Fire;
    var state := def.states[i.currentState];
    var ts := state.transitions;
    var (chosen, clocks) := EvalFrom(i, ts, 0, i.context.clocks, w);
    forall k: nat | k < |ts| ensures chosen == Some(k) <==> Fires(i, ts, k, w) {
      FirstEnabledFires(i, ts, w, k);
    }
    if !state.terminal && chosen.Some? {
      var t := ts[chosen.value];
      forall key | !(i.currentState + ":" <= key)
        ensures SameClock(i.context.clocks, clocks, key)
      {
        EvalFromOthers(i, ts, 0, i.context.clocks, w, key);
      }
      FireMoves(def, i, clocks, t.to, if t.after.Some? then OnTimer else OnCondition, w);
    }
  }

  // ----- delays over runs -----

  /** A transition that waits for a delay alone. */
  predicate Delays(t: Transition, delay: Time) {
    && t.when.None? && t.after.Some? && Durations.Parse(t.after.value).Ok?
    && Durations.Span(Durations.Parse(t.after.value).value) == delay
  }

  lemma {:induction false} QuietStay(def: Definition, i: Instance, ws: seq<World>)
    requires Entered(def, i) && Quiet(def, i, ws)
    ensures StayRun(def, i, ws) == WithClocks(i, StayRun(def, i, ws).context.clocks)
    decreases |ws|
  {
    hide Step, EffectOf, ClocksBefore, Enabled;
    if ws != [] {
      var init, w := ws[..|ws| - 1], ws[|ws| - 1];
      QuietStay(def, i, init);
      QuietStep(def, i, StayRun(def, i, init), w);
    }
  }

  /** The time of the last record, when there is one. */
  function LastChange(i: Instance): Time {
    if i.history == [] then i.createdAt else i.history[|i.history| - 1].at
  }

  lemma RunningSince(def: Definition, s: Instance, ops: seq<Op>)
    requires Valid(def) && Starts(def, s) && Run(def, s, ops).status == Running
    ensures LastChange(Run(def, s, ops)) == Run(def, s, ops).updatedAt
  {
    EveryRunOk(def, s, ops);
    hide Run, Valid, Starts, HistoryOk, OwnClocks;
  }

  /** The instance after a run `ops` that entered a state, and evaluations `ws` that fired nothing there. */
  ghost function Staying(def: Definition, s: Instance, ops: seq<Op>, ws: seq<World>): Instance {
    Run(def, Run(def, s, ops), Evaluations(ws))
  }

  /**
   * In any run of any instance, and however many evaluations fired nothing since the current state was
   * entered: a transition that waits for a delay alone is enabled at the next evaluation exactly when the
   * delay has passed since the record of that entry; and if it is, and none before it, the evaluation
   * records its move, with the timer as its cause.
   */
  lemma DelayOverRuns(
    def: Definition, s: Instance, ops: seq<Op>, ws: seq<World>, w: World, k: nat, delay: Time)
    requires StayInRun(def, s, ops, ws) && k < |Ways(def, s, ops)| && Delays(Ways(def, s, ops)[k], delay)
    ensures var i := Run(def, s, ops);
            var stay := Staying(def, s, ops, ws);
            var t := Ways(def, s, ops)[k];
            && (Enabled(stay, Ways(def, s, ops), k, w) <==> w.now - LastChange(i) >= delay)
            && (w.now - LastChange(i) >= delay
                && (forall m: nat :: m < k ==> !Enabled(stay, Ways(def, s, ops), m, w)) ==>
                  Moved(def, stay, Step(def, stay, EvaluateOp(w)), t.to, OnTimer, w))
  {
    hide Enabled, Moved, Step, Quiet, EvalFrom, Durations.Parse;
    var i := Run(def, s, ops);
    var stay := Staying(def, s, ops, ws);
    StaysRunning(def, s, ops, ws);
    EnabledIff(stay, Ways(def, s, ops), k, w);
    EvaluationIs(def, stay, w);
    if Enabled(stay, Ways(def, s, ops), k, w)
       && forall m: nat :: m < k ==> !Enabled(stay, Ways(def, s, ops), m, w) {
      assert Fires(stay, Ways(def, s, ops), k, w);
    }
  }

  lemma StaysRunning(def: Definition, s: Instance, ops: seq<Op>, ws: seq<World>)
    requires StayInRun(def, s, ops, ws)
    ensures var i := Run(def, s, ops);
            var stay := Staying(def, s, ops, ws);
            && stay == WithClocks(i, stay.context.clocks) && i.status == Running && i.updatedAt == LastChange(i)
            && !def.states[i.currentState].terminal
  {
    hide Valid, Starts, Run, Quiet, Step, JustEntered, LastChange;
    EntryInRun(def, s, ops);
    var i := Run(def, s, ops);
    RunningSince(def, s, ops);
    QuietStay(def, i, ws);
    StayIsRun(def, i, ws);
  }

  // ----- manual advance and cancellation -----

  ghost predicate ByHand(t: Transition) {
    exists a, f :: t.when == Some(Simple(a, f, Some(true)))
  }

  /** Where a manual advance goes: to the state named, if a transition leads there; else by the first manual one. */
  ghost predicate Goes(ts: seq<Transition>, target: Option<string>, to: string) {
    match target
    case Some(name) => to == name && exists k: nat :: k < |ts| && ts[k].to == name
    case None => exists k: nat :: k < |ts| && ts[k].to == to && FirstChoice(ts, k)
  }

  ghost predicate FirstChoice(ts: seq<Transition>, k: nat)
    requires k < |ts|
  {
    if ByHand(ts[k]) then forall m: nat :: m < k ==> !ByHand(ts[m])
    else k == 0 && forall m: nat :: m < |ts| ==> !ByHand(ts[m])
  }

  /** A manual advance moves a running instance there, and answers where; with nowhere to go it changes nothing. */
  lemma AdvanceIs(def: Definition, i: Instance, target: Option<string>, w: World)
    requires i.status == Running && i.currentState in def.states
    ensures var ts := def.states[i.currentState].transitions;
            var j := Step(def, i, AdvanceOp(target, w));
            && (forall to :: Goes(ts, target, to) ==>
                  AdvanceTarget(def, i, target) == Ok(to) && Moved(def, i, j, to, OnManual, w))
            && ((forall to :: !Goes(ts, target, to)) ==> AdvanceTarget(def, i, target) == Err(NoTransition) && j == i)
  {
    hide Moved, Fire;
    var ts := def.states[i.currentState].transitions;
    assert WithClocks(i, i.context.clocks) == i;
    AdvanceGoes(def, i, target);
    var r := AdvanceTarget(def, i, target);
    if r.Ok? {
      FireMoves(def, i, i.context.clocks, r.value, OnManual, w);
    }
  }

  lemma {:induction false} FirstManualIs(ts: seq<Transition>, k: nat)
    requires k <= |ts|
    ensures var f := FirstManual(ts, k);
            && k <= f <= |ts| && (forall m: nat :: k <= m < f ==> !ByHand(ts[m])) && (f < |ts| ==> ByHand(ts[f]))
    decreases |ts| - k
  {
    if k < |ts| {
      ManualIs(ts[k]);
      hide IsManual, ByHand;
      if !IsManual(ts[k]) {
        FirstManualIs(ts, k + 1);
      }
    }
  }

  lemma ManualIs(t: Transition)
    ensures IsManual(t) <==> ByHand(t)
  {
    if IsManual(t) {
      var c := t.when.value;
      assert t.when == Some(Simple(c.allSucceeded, c.anyFailed, Some(true)));
    }
  }

  lemma FirstChoiceOnce(ts: seq<Transition>, k: nat, m: nat)
    requires k < |ts| && m < |ts| && FirstChoice(ts, k) && FirstChoice(ts, m)
    ensures k == m
  {
    hide ByHand;
  }

  lemma AdvanceGoes(def: Definition, i: Instance, target: Option<string>)
    requires i.status == Running && i.currentState in def.states
    ensures var ts := def.states[i.currentState].transitions;
            var r := AdvanceTarget(def, i, target);
            && (r.Ok? ==> Goes(ts, target, r.value))
            && (r.Err? ==> r == Err(NoTransition))
            && forall to :: Goes(ts, target, to) ==> r == Ok(to)
  {
    hide ByHand, FirstManual;
    var ts := def.states[i.currentState].transitions;
    if target.None? && ts != [] {
      FirstManualIs(ts, 0);
      var f := FirstManual(ts, 0);
      var k := if f < |ts| then f else 0;
      assert FirstChoice(ts, k);
      forall m: nat | m < |ts| && FirstChoice(ts, m) ensures m == k {
        FirstChoiceOnce(ts, k, m);
      }
    }
  }

  /** What is not running, or in a state the definition does not have, is not advanced. */
  lemma AdvanceRefused(def: Definition, i: Instance, target: Option<string>, w: World)
    requires i.status != Running || i.currentState !in def.states
    ensures Step(def, i, AdvanceOp(target, w)) == i
    ensures AdvanceTarget(def, i, target) == Err(if i.status != Running then AlreadyCompleted else InvalidState)
  {
  }

  /** A cancellation ends a running instance where it is, with a last record that names no state. */
  lemma CancelIs(def: Definition, i: Instance, w: World)
    ensures var j := Step(def, i, CancelOp(w));
            && (i.status != Running ==> j == i)
            && (i.status == Running ==>
                  && j.status == Cancelled && j.updatedAt == w.now && j.currentState == i.currentState
                  && j.history == i.history + [Move(i.currentState, "", OnManual, w.now)]
                  && j.context == i.context && j.createdAt == i.createdAt)
  {
  }

  // ----- starting -----

  /** A new instance in the initial state, with that state's action performed on this context. */
  ghost predicate NewIn(def: Definition, i: Instance, rules: Option<string>, targets: seq<NodeId>, w: World) {
    && i.status == Running && i.currentState == def.initial && i.createdAt == i.updatedAt == w.now
    && i.history == [Move("", def.initial, OnStart, w.now)]
    && i.context == Entering(def, def.initial, Context(rules, targets, [], [], None, 0, map[]), w)
  }

  /**
   * A deployment starts with its rules and no nodes. A start by label takes as targets the nodes of the
   * listing that carry the labels, in order, and fails without any or without a listing.
   */
  lemma StartsAre(def: Definition, rules: string, given: Option<string>, labels: map<string, string>, w: World,
                  idx: seq<nat>)
    requires w.fleet.Some? ==> Picks(idx, w.fleet.value, labels) && Ascends(idx, |w.fleet.value|)
    ensures NewIn(def, StartDeployment(def, rules, w), Some(rules), [], w)
    ensures match StartAdaptive(def, given, labels, w)
            case Ok(i) => w.fleet.Some? && idx != [] && NewIn(def, i, given, IdsAt(w.fleet.value, idx), w)
            case Err(e) => if w.fleet.None? then e == StorageFailure else idx == [] && e == NoNodes
  {
    hide ExecuteAction, Select, Picks;
    if w.fleet.Some? {
      SelectIs(idx, w.fleet.value, labels);
    }
  }

  lemma ActionKeepsRules(a: Option<Action>, ctx: Context, w: World)
    ensures ExecuteAction(a, ctx, w).rulesYaml == ctx.rulesYaml
  {
  }

  lemma StepKeepsRules(def: Definition, i: Instance, op: Op)
    requires OwnClocks(i.currentState, i.context.clocks)
    ensures Step(def, i, op).context.rulesYaml == i.context.rulesYaml
  {
    StepEffect(def, i, op);
    hide Step;
    var e := EffectOf(def, i, op);
    hide EffectOf;
    if e.Moves? && e.to in def.states {
      ActionKeepsRules(def.states[e.to].action,
        i.context.(clocks := DropClocks(map[], i.currentState)), op.w);
      hide ExecuteAction, DropClocks;
    }
  }

  lemma {:induction false} RulesKept(def: Definition, i: Instance, ops: seq<Op>)
    requires Valid(def) && RunOk(def, i)
    ensures Run(def, i, ops).context.rulesYaml == i.context.rulesYaml
    decreases |ops|
  {
    hide Step, HistoryOk, StatusOk, Valid;
    if ops != [] {
      StepKeeps(def, i, ops[0]);
      StepKeepsRules(def, i, ops[0]);
      RulesKept(def, Step(def, i, ops[0]), ops[1..]);
    }
  }

  /** The rules an instance was started with are those of all its deploy actions, over every run. */
  lemma RulesOverRuns(
    def: Definition, i: Instance, ops: seq<Op>, rules: Option<string>, targets: seq<NodeId>, w: World)
    requires Valid(def) && Starts(def, i) && NewIn(def, i, rules, targets, w)
    ensures Run(def, i, ops).context.rulesYaml == rules
  {
    StartOk(def, i);
    ActionKeepsRules(def.states[def.initial].action, Context(rules, targets, [], [], None, 0, map[]), w);
    hide ExecuteAction, Run, RunOk, Valid, Starts;
    RulesKept(def, i, ops);
  }
}
