/** Sustained conditions over whole runs. */
module Rollouts {
  import opened Core
  import opened Definitions
  import opened Engine
  import opened EngineRuns
  import opened Conditions
  import opened Bookkeeping
  import Durations

  lemma {:induction false} RunSnoc(def: Definition, i: Instance, ops: seq<Op>, op: Op)
    ensures Run(def, i, ops + [op]) == Step(def, Run(def, i, ops), op)
    decreases |ops|
  {
    hide Step;
    if ops == [] {
      assert ([] + [op])[1..] == [];
    } else {
      assert (ops + [op])[1..] == ops[1..] + [op];
      RunSnoc(def, Step(def, i, ops[0]), ops[1..], op);
    }
  }

  /** The last of the calls fired a transition, or there was none. */
  ghost predicate JustEntered(def: Definition, s: Instance, ops: seq<Op>) {
    ops == [] || EffectOf(def, Run(def, s, ops[..|ops| - 1]), ops[|ops| - 1]).Moves?
  }

  /** A state entered in a run, however the instance was started, is entered without clocks. */
  lemma EntryInRun(def: Definition, s: Instance, ops: seq<Op>)
    requires Valid(def) && Starts(def, s) && JustEntered(def, s, ops)
    requires var i := Run(def, s, ops); i.currentState in def.states && !def.states[i.currentState].terminal
    ensures Entered(def, Run(def, s, ops))
  {
    hide Valid, Starts, RunOk, Step;
    if ops == [] {
      StartClocks(def, s);
    } else {
      var before, last := ops[..|ops| - 1], ops[|ops| - 1];
      assert ops == before + [last];
      RunSnoc(def, s, before, last);
      EveryRunOk(def, s, before);
      MoveEnters(def, Run(def, s, before), last);
    }
  }

  lemma StartClocks(def: Definition, s: Instance)
    requires Valid(def) && Starts(def, s)
    ensures s.status == Running && s.context.clocks == map[]
  {
    if StartsDeployment(def, s) {
      var rules, w :| s == StartDeployment(def, rules, w);
      ActionKeepsClocks(def.states[def.initial].action, NewContext(Some(rules), []), w);
    } else {
      var rules, filter: map<string, string>, w: World :| w.fleet.Some?
        && StartAdaptive(def, rules, filter, w) == Ok(s);
      ActionKeepsClocks(def.states[def.initial].action, NewContext(rules, Select(w.fleet.value, filter)), w);
    }
    hide ExecuteAction, Select;
  }

  lemma MoveEnters(def: Definition, i: Instance, op: Op)
    requires Valid(def) && RunOk(def, i) && EffectOf(def, i, op).Moves?
    ensures var j := Step(def, i, op);
            && j.context.clocks == map[] && j.currentState in def.states
            && (j.status == Running <==> !def.states[j.currentState].terminal)
  {
    StepEffect(def, i, op);
    MoveCaused(def, i, op);
    var e := EffectOf(def, i, op);
    ValidEdge(def, i, e, op.w.now - i.updatedAt);
    FireResult(def, WithClocks(i, map[]), e.to, e.trigger, op.w);
    hide Fire, Step, EffectOf, RunOk;
  }

  function Evaluations(ws: seq<World>): seq<Op> {
    seq(|ws|, k requires 0 <= k < |ws| => EvaluateOp(ws[k]))
  }

  lemma {:induction false} StayIsRun(def: Definition, i: Instance, ws: seq<World>)
    ensures StayRun(def, i, ws) == Run(def, i, Evaluations(ws))
    decreases |ws|
  {
    hide Step;
    if ws != [] {
      var init, w := ws[..|ws| - 1], ws[|ws| - 1];
      StayIsRun(def, i, init);
      assert Evaluations(ws) == Evaluations(init) + [EvaluateOp(w)];
      RunSnoc(def, i, Evaluations(init), EvaluateOp(w));
    }
  }

  /** In some run a state was just entered, and evaluations fired nothing since. */
  ghost predicate StayInRun(def: Definition, s: Instance, ops: seq<Op>, ws: seq<World>) {
    && Valid(def) && Starts(def, s) && JustEntered(def, s, ops)
    && var i := Run(def, s, ops);
       i.currentState in def.states && !def.states[i.currentState].terminal && Quiet(def, i, ws)
  }

  /** The transitions out of the state a run has come to. */
  ghost function Ways(def: Definition, s: Instance, ops: seq<Op>): seq<Transition>
    requires Run(def, s, ops).currentState in def.states
  {
    def.states[Run(def, s, ops).currentState].transitions
  }

  /**
   * In any run of any instance: once a state is entered and a series of evaluations fires nothing, its
   * transition guarded by a lone counter condition "for d" is enabled at the next evaluation exactly when
   * the thresholds were met at one evaluation of this stay at least d earlier, are met now, and were met
   * at every one between that had a node to check.
   */
  lemma SustainedOverRuns(
    def: Definition, s: Instance, ops: seq<Op>, ws: seq<World>, w: World, k: nat, cc: CounterCondition)
    requires StayInRun(def, s, ops, ws) && LoneSustained(Ways(def, s, ops), k, cc) && InTimeOrder(ws + [w])
    ensures var i := Run(def, s, ops);
            Enabled(Run(def, i, Evaluations(ws)), Ways(def, s, ops), k, w)
            <==> exists j :: HeldFrom(cc, ScopeOf(i.context), ws + [w], j, Required(cc))
  {
    EntryInRun(def, s, ops);
    var i := Run(def, s, ops);
    StayIsRun(def, i, ws);
    SustainedIff(def, i, ws, w, k, cc);
  }

  /** The condition was met at evaluation `j` and at every later one, and `j` lies at least `d` before the last. */
  ghost predicate HeldThroughout(cc: CounterCondition, nodes: seq<NodeId>, ws: seq<World>, j: nat, d: Time) {
    && j < |ws| && ws[j].now <= ws[|ws| - 1].now - d
    && forall m | j <= m < |ws| :: Met(cc, nodes, ws[m])
  }

  /** With targets there always is a node to check. */
  lemma NeverBlank(cc: CounterCondition, sc: Scope, ws: seq<World>, j: nat, d: Time)
    requires sc.targets != []
    ensures HeldFrom(cc, sc, ws, j, d) <==> HeldThroughout(cc, sc.targets, ws, j, d)
  {
    hide Met;
  }

  /** For an instance that has targets, "held for d" leaves no evaluation out. */
  lemma SustainedWithTargets(
    def: Definition, s: Instance, ops: seq<Op>, ws: seq<World>, w: World, k: nat, cc: CounterCondition)
    requires StayInRun(def, s, ops, ws) && LoneSustained(Ways(def, s, ops), k, cc) && InTimeOrder(ws + [w])
    requires Run(def, s, ops).context.targetNodes != []
    ensures var i := Run(def, s, ops);
            Enabled(Run(def, i, Evaluations(ws)), Ways(def, s, ops), k, w)
            <==> exists j :: HeldThroughout(cc, i.context.targetNodes, ws + [w], j, Required(cc))
  {
    SustainedOverRuns(def, s, ops, ws, w, k, cc);
    hide Run, StayInRun, Enabled, HeldFrom, HeldThroughout, Required;
    var sc := ScopeOf(Run(def, s, ops).context);
    forall j: nat
      ensures HeldFrom(cc, sc, ws + [w], j, Required(cc)) <==> HeldThroughout(cc, sc.targets, ws + [w], j, Required(cc))
    {
      NeverBlank(cc, sc, ws + [w], j, Required(cc));
    }
  }

  /** So it is for every instance started by label. */
  lemma SustainedByLabel(
    def: Definition, s: Instance, ops: seq<Op>, ws: seq<World>, w: World, k: nat, cc: CounterCondition)
    requires StartsAdaptive(def, s)
    requires StayInRun(def, s, ops, ws) && LoneSustained(Ways(def, s, ops), k, cc) && InTimeOrder(ws + [w])
    ensures var i := Run(def, s, ops);
            Enabled(Run(def, i, Evaluations(ws)), Ways(def, s, ops), k, w)
            <==> exists j :: HeldThroughout(cc, i.context.targetNodes, ws + [w], j, Required(cc))
  {
    AdaptiveBooks(def, s, ops);
    hide Run, Enabled, HeldThroughout, Quiet, JustEntered, StartsAdaptive;
    SustainedWithTargets(def, s, ops, ws, w, k, cc);
  }
}
