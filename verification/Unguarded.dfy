/**
 * Deployers that neither take nor release the guard, as the engine's rollback action runs them, beside the
 * guarded ones: when they do no harm, and what they can do otherwise.
 */
module Unguarded {
  import opened Core
  import opened Storage
  import opened Deploys
  import opened Protocol
  import opened Evidence

  /** The protocol's system, and the deployers in it that ignore the guard. */
  datatype Mixed = Mixed(base: System, loose: set<nat>)

  const START := Mixed(EMPTY, {})

  /** A step of the protocol, or a rollback action that turns to a node. */
  datatype Action = Ordinary(step: Step) | RollBack(task: nat, id: NodeId)

  /** One action of a deployer that ignores the guard. */
  function LooseActed(s: System, task: nat, now: Time, answer: Answer, applied: bool, H: string -> string): System
    requires task in s.tasks
  {
    match s.tasks[task].phase
    case Fetched => WithPhase(s, task, Guarded)
    case Finishing(success, _) => WithPhase(s, task, Finished(success))
    case _ => Acted(s, task, now, answer, applied, H)
  }

  /** The deploy a rollback action starts, when the node is registered and has a previous version. */
  function RollbackSteps(s: System, task: nat, id: NodeId): seq<Step> {
    var h := History(s.store, id, 2);
    if task in s.tasks || id !in s.store.nodes || |h| < 2 then []
    else [FetchStep(task, id, h[1].policy.rules, h[1].policy.options)]
  }

  ghost function Do(x: Mixed, a: Action, H: string -> string): Mixed {
    match a
    case RollBack(task, id) =>
      if RollbackSteps(x.base, task, id) == [] then x
      else Mixed(Next(x.base, RollbackSteps(x.base, task, id)[0], H), x.loose + {task})
    case Ordinary(step) =>
      if step.TaskStep? && step.task in x.loose && step.task in x.base.tasks then
        x.(base := LooseActed(x.base, step.task, step.now, step.answer, step.applied, H))
      else x.(base := Next(x.base, step, H))
  }

  ghost function DoAll(x: Mixed, actions: seq<Action>, H: string -> string): Mixed
    decreases |actions|
  {
    if actions == [] then x else DoAll(Do(x, actions[0], H), actions[1..], H)
  }

  /** A deployer about to enter its section. */
  predicate Enters(x: Mixed, a: Action) {
    a.Ordinary? && a.step.TaskStep? && a.step.task in x.base.tasks && x.base.tasks[a.step.task].phase.Fetched?
  }

  /** One that ignores the guard is in its section at node `n`. */
  ghost predicate LooseAt(x: Mixed, n: NodeId) {
    exists u :: u in x.loose && Holds(x.base, u, n)
  }

  /**
   * No deployer enters beside one that ignores the guard, and one that ignores it enters only while the
   * guard is free.
   */
  ghost predicate Clear(x: Mixed, a: Action) {
    Enters(x, a) ==>
      var n := x.base.tasks[a.step.task].node.id;
      !LooseAt(x, n) && (a.step.task in x.loose ==> n !in x.base.store.deploying)
  }

  ghost predicate AllClear(x: Mixed, actions: seq<Action>, H: string -> string)
    decreases |actions|
  {
    actions == [] || (Clear(x, actions[0]) && AllClear(Do(x, actions[0], H), actions[1..], H))
  }

  // ----- the guarded system behind a clear one -----

  function WithGuard(s: System, guard: set<NodeId>): System {
    s.(store := s.store.(deploying := guard))
  }

  /** `c` is the same system with a guard that also covers the deployers that ignore it. */
  ghost predicate Covers(c: System, x: Mixed) {
    && c == WithGuard(x.base, c.store.deploying)
    && x.base.store.deploying <= c.store.deploying
    && (forall n :: n in c.store.deploying && n !in x.base.store.deploying ==> LooseAt(x, n))
    && (forall u, n :: u in x.loose && Holds(x.base, u, n) ==>
          n !in x.base.store.deploying && (n in x.base.store.nodes ==> n in c.store.deploying))
  }

  /** The step of the guarded system for an action of the mixed one. */
  function Behind(x: Mixed, a: Action): seq<Step> {
    match a
    case RollBack(task, id) => RollbackSteps(x.base, task, id)
    case Ordinary(step) => [step]
  }

  /** Actions inside the section do not look at the guard. */
  lemma GuardBlind(
    s: System, guard: set<NodeId>, task: nat, now: Time, answer: Answer, applied: bool, H: string -> string)
    requires task in s.tasks && !s.tasks[task].phase.Fetched? && !s.tasks[task].phase.Finishing?
    ensures Acted(WithGuard(s, guard), task, now, answer, applied, H)
            == WithGuard(Acted(s, task, now, answer, applied, H), guard)
    ensures Acted(s, task, now, answer, applied, H).store.deploying == s.store.deploying
  {
    hide Acted, StorePolicy, SetState, Log, History, Contacted;
    var t := s.tasks[task];
    var g := WithGuard(s, guard);
    match t.phase
    case Guarded => ChoiceBlind(s, guard, task, now, answer, applied, H);
    case Matched(_) =>
      MatchedIs(s, task, now, answer, applied, H);
      MatchedIs(g, task, now, answer, applied, H);
      StoreBlind(s.store, guard, t.node.id, Policy(t.node.id, t.rules, H(t.rules), now, t.options),
        Note(t, 0, Success, now, H));
    case Noted(version, _) =>
      NotedIs(s, task, now, answer, applied, H);
      NotedIs(g, task, now, answer, applied, H);
      StoreBlind(s.store, guard, t.node.id, Policy(t.node.id, t.rules, H(t.rules), now, t.options),
        Note(t, version, Success, now, H));
    case Approved =>
      ApprovedIs(s, task, now, answer, applied, H);
      ApprovedIs(g, task, now, answer, applied, H);
      StoreBlind(s.store, guard, t.node.id, Policy(t.node.id, t.rules, H(t.rules), now, t.options),
        Note(t, 0, Success, now, H));
    case Stored(_) =>
      StoredIs(s, task, now, answer, applied, H);
      StoredIs(g, task, now, answer, applied, H);
      StateBlind(s.store, guard, t.node.id, Deploying);
    case Marked(_) =>
      MarkedIs(s, task, now, answer, applied, H);
      MarkedIs(g, task, now, answer, applied, H);
    case Answered(_, a) =>
      AnsweredIs(s, task, now, answer, applied, H);
      AnsweredIs(g, task, now, answer, applied, H);
      StateBlind(s.store, guard, t.node.id, if a == Accepted then Active else Error);
    case Settled(version, a) =>
      SettledIs(s, task, now, answer, applied, H);
      SettledIs(g, task, now, answer, applied, H);
      StoreBlind(s.store, guard, t.node.id, Policy(t.node.id, t.rules, H(t.rules), now, t.options),
        Note(t, version, ResultOf(a), now, H));
    case Finished(_) =>
      FinishedStep(s, task, now, answer, applied, H);
      FinishedStep(g, task, now, answer, applied, H);
  }

  lemma ChoiceBlind(
    s: System, guard: set<NodeId>, task: nat, now: Time, answer: Answer, applied: bool, H: string -> string)
    requires task in s.tasks && s.tasks[task].phase.Guarded?
    ensures Acted(WithGuard(s, guard), task, now, answer, applied, H)
            == WithGuard(Acted(s, task, now, answer, applied, H), guard)
    ensures Acted(s, task, now, answer, applied, H).store.deploying == s.store.deploying
  {
    hide Capable, PolicyMatches;
  }

  /** Versions, records and histories do not look at the guard. */
  lemma StoreBlind(s: Store, guard: set<NodeId>, n: NodeId, p: Policy, d: Deployment)
    ensures StorePolicy(s.(deploying := guard), p) == (StorePolicy(s, p).0.(deploying := guard), StorePolicy(s, p).1)
    ensures StorePolicy(s, p).0.deploying == s.deploying
    ensures Log(s.(deploying := guard), d) == Log(s, d).(deploying := guard) && Log(s, d).deploying == s.deploying
    ensures History(s.(deploying := guard), n, 1) == History(s, n, 1)
  {
  }

  lemma StateBlind(s: Store, guard: set<NodeId>, n: NodeId, state: NodeState)
    ensures SetState(s.(deploying := guard), n, state) == SetState(s, n, state).(deploying := guard)
    ensures SetState(s, n, state).deploying == s.deploying
  {
  }

  lemma StillInside(s: System, task: nat, now: Time, answer: Answer, applied: bool, H: string -> string)
    requires task in s.tasks && !s.tasks[task].phase.Fetched? && !s.tasks[task].phase.Finishing?
    ensures var b := Acted(s, task, now, answer, applied, H);
            && task in b.tasks && b.tasks == s.tasks[task := s.tasks[task].(phase := b.tasks[task].phase)]
            && (InSection(b.tasks[task].phase) <==> InSection(s.tasks[task].phase))
            && b.store.nodes.Keys == s.store.nodes.Keys
  {
    hide Capable, PolicyMatches;
  }

  lemma SameHolds(s: System, b: System, task: nat)
    requires task in s.tasks && task in b.tasks
             && b.tasks == s.tasks[task := s.tasks[task].(phase := b.tasks[task].phase)]
    requires InSection(b.tasks[task].phase) <==> InSection(s.tasks[task].phase)
    ensures forall u, n :: Holds(b, u, n) <==> Holds(s, u, n)
  {
  }

  /** An action inside the section, by whichever deployer. */
  lemma CoverInside(c: System, x: Mixed, task: nat, now: Time, answer: Answer, applied: bool, H: string -> string)
    requires Covers(c, x) && task in x.base.tasks
    requires !x.base.tasks[task].phase.Fetched? && !x.base.tasks[task].phase.Finishing?
    ensures Covers(Acted(c, task, now, answer, applied, H), x.(base := Acted(x.base, task, now, answer, applied, H)))
  {
    hide Acted, Holds;
    var s := x.base;
    GuardBlind(s, c.store.deploying, task, now, answer, applied, H);
    StillInside(s, task, now, answer, applied, H);
    SameHolds(s, Acted(s, task, now, answer, applied, H), task);
    LooseSame(x, x.(base := Acted(s, task, now, answer, applied, H)));
  }

  lemma LooseSame(x: Mixed, y: Mixed)
    requires y.loose == x.loose && forall u, n :: Holds(y.base, u, n) <==> Holds(x.base, u, n)
    ensures forall n :: LooseAt(y, n) <==> LooseAt(x, n)
  {
    hide Holds;
  }

  lemma EnterIs(s: System, task: nat, now: Time, answer: Answer, applied: bool, H: string -> string)
    requires task in s.tasks && s.tasks[task].phase.Fetched?
    ensures var n := s.tasks[task].node.id;
            Acted(s, task, now, answer, applied, H)
            == if n in s.store.deploying then WithPhase(s, task, Finished(false))
               else WithPhase(WithGuard(s, s.store.deploying + {n}), task, Guarded)
  {
  }

  lemma ReleaseIs(s: System, task: nat, now: Time, answer: Answer, applied: bool, H: string -> string)
    requires task in s.tasks && s.tasks[task].phase.Finishing?
    ensures Acted(s, task, now, answer, applied, H)
            == WithPhase(WithGuard(s, s.store.deploying - {s.tasks[task].node.id}), task,
               Finished(s.tasks[task].phase.success))
  {
  }

  /** After `task` has entered or left, the others stand where they stood. */
  lemma HoldsAfter(s: System, task: nat, p: Phase, guard: set<NodeId>)
    requires task in s.tasks
    ensures forall u, n :: Holds(WithPhase(WithGuard(s, guard), task, p), u, n)
              <==> if u == task then s.tasks[task].node.id == n && InSection(p) else Holds(s, u, n)
  {
  }

  lemma CoverEnter(c: System, x: Mixed, task: nat, now: Time, answer: Answer, applied: bool, H: string -> string)
    requires Covers(c, x) && task in x.base.tasks && x.base.tasks[task].phase.Fetched?
    requires var n := x.base.tasks[task].node.id;
             !LooseAt(x, n) && (task in x.loose ==> n !in x.base.store.deploying)
    ensures var b := if task in x.loose then LooseActed(x.base, task, now, answer, applied, H)
                     else Acted(x.base, task, now, answer, applied, H);
            Covers(Acted(c, task, now, answer, applied, H), x.(base := b))
  {
    var s, n := x.base, x.base.tasks[task].node.id;
    EnterIs(c, task, now, answer, applied, H);
    EnterIs(s, task, now, answer, applied, H);
    assert n in c.store.deploying <==> n in s.store.deploying;
    var guard := s.store.deploying;
    HoldsAfter(s, task, Finished(false), guard);
    HoldsAfter(s, task, Guarded, guard);
    HoldsAfter(s, task, Guarded, guard + {n});
    assert WithGuard(s, guard) == s;
    assert !Holds(s, task, n);
    hide Acted, Holds;
    if task in x.loose {
      EnteredLoose(c, x, task);
    } else if n in guard {
      LooseSame(x, x.(base := WithPhase(s, task, Finished(false))));
    } else {
      assert forall u, m :: u in x.loose ==>
        (Holds(WithPhase(WithGuard(s, guard + {n}), task, Guarded), u, m) <==> Holds(s, u, m));
      LooseOnly(x, x.(base := WithPhase(WithGuard(s, guard + {n}), task, Guarded)));
    }
  }

  lemma LooseOnly(x: Mixed, y: Mixed)
    requires y.loose == x.loose && forall u, n :: u in x.loose ==> (Holds(y.base, u, n) <==> Holds(x.base, u, n))
    ensures forall n :: LooseAt(y, n) <==> LooseAt(x, n)
  {
    hide Holds;
  }

  lemma EnteredLoose(c: System, x: Mixed, task: nat)
    requires Covers(c, x) && task in x.base.tasks && task in x.loose && x.base.tasks[task].phase.Fetched?
    requires var n := x.base.tasks[task].node.id; n !in c.store.deploying
    ensures var n := x.base.tasks[task].node.id;
            Covers(WithPhase(WithGuard(c, c.store.deploying + {n}), task, Guarded),
              x.(base := WithPhase(x.base, task, Guarded)))
  {
    var s, n := x.base, x.base.tasks[task].node.id;
    var y := x.(base := WithPhase(s, task, Guarded));
    var d := WithPhase(WithGuard(c, c.store.deploying + {n}), task, Guarded);
    HoldsAfter(s, task, Guarded, s.store.deploying);
    assert WithGuard(s, s.store.deploying) == s;
    assert Holds(y.base, task, n);
    forall m | m in d.store.deploying && m !in y.base.store.deploying ensures LooseAt(y, m) {
      if m != n {
        var u :| u in x.loose && Holds(s, u, m);
        assert Holds(y.base, u, m);
      }
    }
  }

  lemma CoverRelease(c: System, x: Mixed, task: nat, now: Time, answer: Answer, applied: bool, H: string -> string)
    requires Inv(c, H) && Covers(c, x) && task in x.base.tasks && x.base.tasks[task].phase.Finishing?
    ensures var b := if task in x.loose then LooseActed(x.base, task, now, answer, applied, H)
                     else Acted(x.base, task, now, answer, applied, H);
            Covers(Acted(c, task, now, answer, applied, H), x.(base := b))
  {
    hide StoreOk, SeenOk, NodeOk, TaskOk;
    var s, n := x.base, x.base.tasks[task].node.id;
    var p := Finished(s.tasks[task].phase.success);
    ReleaseIs(c, task, now, answer, applied, H);
    ReleaseIs(s, task, now, answer, applied, H);
    assert Holds(s, task, n);
    assert forall u, m :: Holds(c, u, m) <==> Holds(s, u, m);
    assert forall u :: Holds(s, u, n) && n in s.store.nodes ==> u == task;
    hide Inv, Acted;
    Released(c, x, task, if task in x.loose then s.store.deploying else s.store.deploying - {n});
    assert WithGuard(s, s.store.deploying) == s;
  }

  lemma Released(c: System, x: Mixed, task: nat, guard: set<NodeId>)
    requires Covers(c, x) && task in x.base.tasks && x.base.tasks[task].phase.Finishing?
    requires var n := x.base.tasks[task].node.id;
             && guard == (if task in x.loose then x.base.store.deploying else x.base.store.deploying - {n})
             && forall u :: Holds(x.base, u, n) && n in x.base.store.nodes ==> u == task
    ensures var n := x.base.tasks[task].node.id;
            var p := Finished(x.base.tasks[task].phase.success);
            Covers(WithPhase(WithGuard(c, c.store.deploying - {n}), task, p),
              x.(base := WithPhase(WithGuard(x.base, guard), task, p)))
  {
    var s, n := x.base, x.base.tasks[task].node.id;
    var p := Finished(s.tasks[task].phase.success);
    var y := x.(base := WithPhase(WithGuard(s, guard), task, p));
    var d := WithPhase(WithGuard(c, c.store.deploying - {n}), task, p);
    HoldsAfter(s, task, p, guard);
    assert Holds(s, task, n);
    forall m | m in d.store.deploying && m !in y.base.store.deploying ensures LooseAt(y, m) {
      var u :| u in x.loose && Holds(s, u, m);
      assert Holds(y.base, u, m);
    }
  }

  /** A step that concerns no deployer's section. */
  lemma CoverOther(c: System, x: Mixed, step: Step, H: string -> string)
    requires Inv(c, H) && Covers(c, x) && !step.TaskStep?
    ensures Covers(Next(c, step, H), x.(base := Next(x.base, step, H)))
  {
    var s := x.base;
    var y := x.(base := Next(s, step, H));
    TasksSeen(c, H);
    NextBlind(s, c.store.deploying, step, H);
    StepHolds(s, step, H);
    hide Inv, Next, Holds;
    LooseOnly(x, y);
  }

  /** The guard after a step that concerns no deployer's section. */
  function GuardAfter(guard: set<NodeId>, step: Step): set<NodeId> {
    if step.RemoveStep? then guard - {step.id} else guard
  }

  lemma NextBlind(s: System, guard: set<NodeId>, step: Step, H: string -> string)
    requires !step.TaskStep?
    ensures Next(WithGuard(s, guard), step, H) == WithGuard(Next(s, step, H), GuardAfter(guard, step))
    ensures Next(s, step, H).store.deploying == GuardAfter(s.store.deploying, step)
  {
    if step.HeartbeatStep? {
      assert forall u, n :: Settling(WithGuard(s, guard), u, n) <==> Settling(s, u, n);
      assert Harmless(WithGuard(s, guard), step) <==> Harmless(s, step);
    }
    hide Harmless, Normalize, Settling;
  }

  lemma StepHolds(s: System, step: Step, H: string -> string)
    requires !step.TaskStep?
    ensures forall u, n :: Holds(Next(s, step, H), u, n) <==> Holds(s, u, n)
    ensures forall n :: n in Next(s, step, H).store.nodes ==>
              || (n in s.store.nodes && !(step.RemoveStep? && n == step.id))
              || (step.RegisterStep? && n == step.id && n !in s.seen)
  {
    hide Harmless, Normalize;
  }

  /** One clear action is one step of the guarded system behind it, or none. */
  lemma CoverStep(c: System, x: Mixed, a: Action, H: string -> string)
    requires Inv(c, H) && Covers(c, x) && Clear(x, a)
    ensures Covers(Run(c, Behind(x, a), H), Do(x, a, H))
  {
    hide Inv, Covers, Acted, LooseActed, Harmless;
    match a
    case RollBack(task, id) =>
      var steps := RollbackSteps(x.base, task, id);
      if steps != [] {
        RunOne(c, steps[0], H);
        CoverOther(c, x, steps[0], H);
        CoverMore(Next(c, steps[0], H), x.(base := Next(x.base, steps[0], H)), task);
      }
    case Ordinary(step) =>
      RunOne(c, step, H);
      if step.TaskStep? {
        CoverTask(c, x, step, H);
      } else {
        CoverOther(c, x, step, H);
      }
  }

  /** A deployer that has just fetched its node may be one that ignores the guard. */
  lemma CoverMore(c: System, x: Mixed, task: nat)
    requires Covers(c, x) && task in x.base.tasks && x.base.tasks[task].phase.Fetched?
    ensures Covers(c, x.(loose := x.loose + {task}))
  {
    var y := x.(loose := x.loose + {task});
    forall n | LooseAt(x, n) ensures LooseAt(y, n) {
      var u :| u in x.loose && Holds(x.base, u, n);
      assert u in y.loose;
    }
  }

  lemma CoverTask(c: System, x: Mixed, step: Step, H: string -> string)
    requires Inv(c, H) && Covers(c, x) && step.TaskStep? && Clear(x, Ordinary(step))
    ensures Covers(Next(c, step, H), Do(x, Ordinary(step), H).(loose := x.loose))
    ensures Do(x, Ordinary(step), H).loose == x.loose
  {
    var TaskStep(task, now, answer, applied) := step;
    assert c.tasks == x.base.tasks;
    hide Inv, Covers, Acted;
    if task in x.base.tasks {
      ActedIsNext(c, task, now, answer, applied, H);
      ActedIsNext(x.base, task, now, answer, applied, H);
      if x.base.tasks[task].phase.Fetched? {
        CoverEnter(c, x, task, now, answer, applied, H);
      } else if x.base.tasks[task].phase.Finishing? {
        CoverRelease(c, x, task, now, answer, applied, H);
      } else {
        CoverInside(c, x, task, now, answer, applied, H);
      }
    }
  }

  lemma {:induction false} CoverRun(
    c: System, x: Mixed, actions: seq<Action>, H: string -> string) returns (steps: seq<Step>)
    requires Inv(c, H) && Covers(c, x) && AllClear(x, actions, H)
    ensures Covers(Run(c, steps, H), DoAll(x, actions, H))
    decreases |actions|
  {
    hide Inv, Covers, Do, Clear, Behind, Next;
    if actions == [] {
      steps := [];
    } else {
      CoverStep(c, x, actions[0], H);
      RunKeeps(c, Behind(x, actions[0]), H);
      var rest := CoverRun(Run(c, Behind(x, actions[0]), H), Do(x, actions[0], H), actions[1..], H);
      RunConcat(c, Behind(x, actions[0]), rest, H);
      steps := Behind(x, actions[0]) + rest;
    }
  }

  lemma StartCovered()
    ensures Covers(EMPTY, START)
  {
  }

  /**
   * Every run in which deployers that ignore the guard overlap with no other is, but for the guard, a run
   * in which they take it: same nodes, versions, records, agents and deployers.
   */
  lemma ClearIsGuarded(actions: seq<Action>, H: string -> string) returns (steps: seq<Step>)
    requires AllClear(START, actions, H)
    ensures Covers(Run(EMPTY, steps, H), DoAll(START, actions, H))
  {
    EmptyOk(H);
    StartCovered();
    hide Inv, Covers, DoAll, Run;
    steps := CoverRun(EMPTY, START, actions, H);
  }

  // ----- what carries over -----

  lemma CoverFacts(c: System, x: Mixed, n: NodeId)
    requires Covers(c, x)
    ensures Runs(c, n) == Runs(x.base, n) && VersionsOf(c.store, n) == VersionsOf(x.base.store, n)
    ensures c.store.deployments == x.base.store.deployments
    ensures Agrees(c, n) <==> Agrees(x.base, n)
    ensures c.store.nodes == x.base.store.nodes && c.trusted == x.base.trusted
    ensures n in c.store.deploying ==> n in x.base.store.deploying || LooseAt(x, n)
  {
  }

  lemma StoreCarries(c: System, x: Mixed, H: string -> string)
    requires Inv(c, H) && Covers(c, x)
    ensures StoreOk(x.base.store, H)
  {
    hide SeenOk, NodeOk, TaskOk, Exclusive, StoreOk, LooseAt;
    GuardFrame(c.store, x.base.store.deploying, H);
  }

  /**
   * In every run in which deployers that ignore the guard overlap with no other, the store stays sound; and
   * while no deployer is at work on a registered node, its agent runs what the records leave possible, it
   * agrees as they say where they are conclusive, and an Active node agrees while heartbeats were harmless.
   */
  lemma ClearResults(actions: seq<Action>, H: string -> string, n: NodeId)
    requires AllClear(START, actions, H)
    requires var x := DoAll(START, actions, H);
             n in x.base.store.nodes && n !in x.base.store.deploying && !LooseAt(x, n)
    ensures var s := DoAll(START, actions, H).base;
            && StoreOk(s.store, H)
            && Runs(s, n) in MayRun(s, n, Size(s, n))
            && (RecordsConclude(s, n) ==> (Agrees(s, n) <==> Size(s, n) > 0 && Confirmed(s, n) == StoredRules(s, n)))
            && (s.trusted && s.store.nodes[n].state == Active ==> Agrees(s, n))
  {
    var steps := ClearIsGuarded(actions, H);
    Reached(steps, H);
    hide DoAll, Run, AllClear, Inv, EvidenceOk, Covers, LooseAt;
    var x, c := DoAll(START, actions, H), Run(EMPTY, steps, H);
    StoreCarries(c, x, H);
    CoverFacts(c, x, n);
    FreeFacts(c, n, H);
    CarriesOver(c, x.base, n);
    assert c.store.policies == x.base.store.policies by { CoverPolicies(c, x); }
  }

  lemma CoverPolicies(c: System, x: Mixed)
    requires Covers(c, x)
    ensures c.store.policies == x.base.store.policies
  {
  }

  lemma FreeFacts(c: System, n: NodeId, H: string -> string)
    requires Inv(c, H) && EvidenceOk(c) && n in c.store.nodes && n !in c.store.deploying
    ensures Runs(c, n) in MayRun(c, n, Size(c, n))
    ensures RecordsConclude(c, n) ==> (Agrees(c, n) <==> Size(c, n) > 0 && Confirmed(c, n) == StoredRules(c, n))
    ensures c.trusted && c.store.nodes[n].state == Active ==> Agrees(c, n)
  {
    hide Inv, EvidenceOk, RecordsConclude, Confirmed;
    DoneIfFree(c, n);
    if RecordsConclude(c, n) {
      ConfirmedRuns(c, n, H);
    }
    if c.trusted && c.store.nodes[n].state == Active {
      TrustedAgrees(c, n, H);
    }
  }

  lemma CarriesOver(c: System, s: System, n: NodeId)
    requires VersionsOf(c.store, n) == VersionsOf(s.store, n) && c.store.deployments == s.store.deployments
    ensures Size(c, n) == Size(s, n) && MayRun(c, n, Size(c, n)) == MayRun(s, n, Size(s, n))
    ensures (RecordsConclude(c, n) <==> RecordsConclude(s, n)) && Confirmed(c, n) == Confirmed(s, n)
  {
    hide VersionsOf;
  }

  /**
   * From a state that clear actions reach, a deployer of a registered node enters its section without
   * another one being inside exactly when that is clear: a guarded one beside none that ignores the guard,
   * one that ignores it beside none at all, as a free guard and no other of its kind tell.
   */
  lemma EntryExclusiveIff(
    actions: seq<Action>, H: string -> string, task: nat, now: Time, answer: Answer, applied: bool)
    requires AllClear(START, actions, H)
    requires var x := DoAll(START, actions, H);
             && task in x.base.tasks && x.base.tasks[task].phase.Fetched?
             && x.base.tasks[task].node.id in x.base.store.nodes
    ensures var x := DoAll(START, actions, H);
            var a := Ordinary(TaskStep(task, now, answer, applied));
            Exclusive(Do(x, a, H).base) <==> Clear(x, a)
  {
    var steps := ClearIsGuarded(actions, H);
    Reached(steps, H);
    hide DoAll, Run, AllClear, EvidenceOk, Inv, Covers;
    EntryHere(Run(EMPTY, steps, H), DoAll(START, actions, H), task, now, answer, applied, H);
  }

  lemma EntryHere(c: System, x: Mixed, task: nat, now: Time, answer: Answer, applied: bool, H: string -> string)
    requires Inv(c, H) && Covers(c, x) && task in x.base.tasks && x.base.tasks[task].phase.Fetched?
    requires x.base.tasks[task].node.id in x.base.store.nodes
    ensures var a := Ordinary(TaskStep(task, now, answer, applied));
            Exclusive(Do(x, a, H).base) <==> Clear(x, a)
  {
    hide Inv, Covers, Clear, Exclusive, Do;
    var a := Ordinary(TaskStep(task, now, answer, applied));
    if Clear(x, a) {
      ClearEntry(c, x, a, H);
    } else {
      var u := Rival(c, x, a, H);
      EntersBeside(x, task, u, now, answer, applied, H);
    }
  }

  /** Where it is not clear to enter, another deployer is inside and the guard does not stop this one. */
  lemma Rival(c: System, x: Mixed, a: Action, H: string -> string) returns (u: nat)
    requires Inv(c, H) && Covers(c, x) && Enters(x, a) && !Clear(x, a)
    requires x.base.tasks[a.step.task].node.id in x.base.store.nodes
    ensures var n := x.base.tasks[a.step.task].node.id;
            Holds(x.base, u, n) && u != a.step.task && (a.step.task in x.loose || n !in x.base.store.deploying)
  {
    hide StoreOk, SeenOk, TaskOk, Exclusive;
    var n := x.base.tasks[a.step.task].node.id;
    if LooseAt(x, n) {
      u :| u in x.loose && Holds(x.base, u, n);
    } else {
      assert NodeOk(c, n);
      u :| Holds(c, u, n);
    }
  }

  lemma EntersBeside(x: Mixed, task: nat, u: nat, now: Time, answer: Answer, applied: bool, H: string -> string)
    requires task in x.base.tasks && x.base.tasks[task].phase.Fetched? && u != task
    requires var n := x.base.tasks[task].node.id;
             Holds(x.base, u, n) && n in x.base.store.nodes && (task in x.loose || n !in x.base.store.deploying)
    ensures !Exclusive(Do(x, Ordinary(TaskStep(task, now, answer, applied)), H).base)
  {
    var s, n := x.base, x.base.tasks[task].node.id;
    EnterIs(s, task, now, answer, applied, H);
    ActedIsNext(s, task, now, answer, applied, H);
    hide Acted, Next;
    var b := Do(x, Ordinary(TaskStep(task, now, answer, applied)), H).base;
    assert Holds(b, u, n) && Holds(b, task, n);
  }

  lemma ClearEntry(c: System, x: Mixed, a: Action, H: string -> string)
    requires Inv(c, H) && Covers(c, x) && Clear(x, a)
    ensures Exclusive(Do(x, a, H).base)
  {
    CoverStep(c, x, a, H);
    RunKeeps(c, Behind(x, a), H);
    hide Do, Run, Clear, StoreOk, SeenOk, NodeOk, TaskOk, Behind;
    var d, b := Run(c, Behind(x, a), H), Do(x, a, H).base;
    assert forall u, n :: Holds(b, u, n) ==> Holds(d, u, n);
  }

  // ----- exactly when deployers stay apart -----

  /** Who is inside at registered nodes, and what the guard says about the deployers that take it. */
  ghost predicate GuardTells(x: Mixed) {
    && Exclusive(x.base)
    && (forall u, n :: u !in x.loose && Holds(x.base, u, n) && n in x.base.store.nodes ==> n in x.base.store.deploying)
    && (forall n :: n in x.base.store.nodes && n in x.base.store.deploying ==> GuardedAt(x, n))
    && KnownIds(x.base)
  }

  ghost predicate GuardedAt(x: Mixed, n: NodeId) {
    exists u :: u !in x.loose && Holds(x.base, u, n)
  }

  ghost predicate KnownIds(s: System) {
    && s.store.nodes.Keys <= s.seen && s.store.deploying <= s.seen
    && (forall n :: n in s.store.nodes ==> s.store.nodes[n].id == n)
    && forall u :: u in s.tasks ==> s.tasks[u].node.id in s.seen
  }

  /** A deployer enters at a registered node only where that is clear. */
  ghost predicate EntryClear(x: Mixed, a: Action) {
    Enters(x, a) && x.base.tasks[a.step.task].node.id in x.base.store.nodes ==> Clear(x, a)
  }

  /** Nobody has moved in or out, and no node with somebody inside is new. */
  lemma TellsFrame(x: Mixed, y: Mixed)
    requires GuardTells(x) && KnownIds(y.base)
    requires forall u, n :: Holds(y.base, u, n) <==> Holds(x.base, u, n)
    requires forall u, n :: Holds(x.base, u, n) ==> (u in x.loose <==> u in y.loose)
    requires forall n :: n in y.base.store.nodes ==>
               if n in x.base.store.nodes then n in x.base.store.deploying <==> n in y.base.store.deploying
               else n !in x.base.seen && n !in y.base.store.deploying
    ensures GuardTells(y)
  {
    forall u, n | Holds(x.base, u, n) ensures n in x.base.seen {
    }
    hide Holds;
    forall n | n in y.base.store.nodes && n in y.base.store.deploying ensures GuardedAt(y, n) {
      var u :| u !in x.loose && Holds(x.base, u, n);
      assert u !in y.loose && Holds(y.base, u, n);
    }
  }

  lemma TellsInside(x: Mixed, task: nat, now: Time, answer: Answer, applied: bool, H: string -> string)
    requires GuardTells(x) && task in x.base.tasks
    requires !x.base.tasks[task].phase.Fetched? && !x.base.tasks[task].phase.Finishing?
    ensures GuardTells(x.(base := Acted(x.base, task, now, answer, applied, H)))
  {
    hide Acted, Holds, GuardTells;
    var s := x.base;
    var b := Acted(s, task, now, answer, applied, H);
    GuardBlind(s, s.store.deploying, task, now, answer, applied, H);
    StillInside(s, task, now, answer, applied, H);
    SameHolds(s, b, task);
    ActedSeen(s, task, now, answer, applied, H);
    TellsKnown(x);
    TellsFrame(x, x.(base := b));
  }

  lemma TellsKnown(x: Mixed)
    requires GuardTells(x)
    ensures KnownIds(x.base)
  {
  }

  lemma ActedSeen(s: System, task: nat, now: Time, answer: Answer, applied: bool, H: string -> string)
    requires task in s.tasks
    ensures var b := Acted(s, task, now, answer, applied, H);
            && b.seen == s.seen
            && forall n :: n in s.store.nodes && n in b.store.nodes ==> b.store.nodes[n].id == s.store.nodes[n].id
  {
    hide Acted, SetState;
    var n := s.tasks[task].node.id;
    ActedNodes(s, task, now, answer, applied, H);
    SetStateFrame(s.store, n, Deploying);
    SetStateFrame(s.store, n, Active);
    SetStateFrame(s.store, n, Error);
  }

  /** A deployer writes no more of a node than its state. */
  lemma ActedNodes(s: System, task: nat, now: Time, answer: Answer, applied: bool, H: string -> string)
    requires task in s.tasks
    ensures var b := Acted(s, task, now, answer, applied, H);
            var n := s.tasks[task].node.id;
            && b.seen == s.seen
            && (b.store.nodes == s.store.nodes
                || exists state | state in {Deploying, Active, Error} ::
                     b.store.nodes == SetState(s.store, n, state).nodes)
  {
    hide Acted, History, SetState, Log, StorePolicy, Contacted;
    var t := s.tasks[task];
    match t.phase
    case Fetched => EnterIs(s, task, now, answer, applied, H);
    case Guarded => GuardedIs(s, task, now, answer, applied, H);
    case Matched(_) => MatchedIs(s, task, now, answer, applied, H);
    case Noted(version, _) =>
      NotedIs(s, task, now, answer, applied, H);
      LogFrame(s.store, Note(t, version, Success, now, H));
    case Approved =>
      ApprovedIs(s, task, now, answer, applied, H);
      StorePolicyFrame(s.store, Policy(t.node.id, t.rules, H(t.rules), now, t.options));
    case Stored(_) => StoredIs(s, task, now, answer, applied, H);
    case Marked(_) => MarkedIs(s, task, now, answer, applied, H);
    case Answered(_, _) => AnsweredIs(s, task, now, answer, applied, H);
    case Settled(version, a) =>
      SettledIs(s, task, now, answer, applied, H);
      LogFrame(s.store, Note(t, version, ResultOf(a), now, H));
    case Finishing(_, _) => ReleaseIs(s, task, now, answer, applied, H);
    case Finished(_) => FinishedStep(s, task, now, answer, applied, H);
  }

  lemma TellsOther(x: Mixed, step: Step, H: string -> string)
    requires GuardTells(x) && !step.TaskStep?
    ensures GuardTells(x.(base := Next(x.base, step, H)))
  {
    var s, b := x.base, Next(x.base, step, H);
    NextBlind(s, s.store.deploying, step, H);
    StepHolds(s, step, H);
    StepKnown(s, step, H);
    hide Next, Holds;
    TellsFrame(x, x.(base := b));
  }

  lemma StepKnown(s: System, step: Step, H: string -> string)
    requires KnownIds(s) && !step.TaskStep?
    ensures KnownIds(Next(s, step, H))
  {
    hide Harmless, Normalize;
  }

  /** A deployer comes in where nobody is, or turns away. */
  lemma TellsEnter(x: Mixed, task: nat, guard: set<NodeId>, p: Phase)
    requires GuardTells(x) && task in x.base.tasks && x.base.tasks[task].phase.Fetched?
    requires var s, n := x.base, x.base.tasks[task].node.id;
             || (p == Finished(false) && guard == s.store.deploying)
             || (p == Guarded && (forall u :: n in s.store.nodes ==> !Holds(s, u, n))
                 && guard == if task in x.loose then s.store.deploying else s.store.deploying + {n})
    ensures GuardTells(x.(base := WithPhase(WithGuard(x.base, guard), task, p)))
  {
    var s, n := x.base, x.base.tasks[task].node.id;
    var y := x.(base := WithPhase(WithGuard(s, guard), task, p));
    HoldsAfter(s, task, p, guard);
    assert !Holds(s, task, n);
    hide Holds;
    forall m | m in y.base.store.nodes && m in guard ensures GuardedAt(y, m) {
      if m in s.store.deploying {
        var u :| u !in x.loose && Holds(s, u, m);
        assert Holds(y.base, u, m);
      } else {
        assert Holds(y.base, task, m);
      }
    }
  }

  lemma TellsRelease(x: Mixed, task: nat, guard: set<NodeId>)
    requires GuardTells(x) && task in x.base.tasks && x.base.tasks[task].phase.Finishing?
    requires var n := x.base.tasks[task].node.id;
             guard == if task in x.loose then x.base.store.deploying else x.base.store.deploying - {n}
    ensures GuardTells(x.(base := WithPhase(WithGuard(x.base, guard), task,
            Finished(x.base.tasks[task].phase.success))))
  {
    var s, n := x.base, x.base.tasks[task].node.id;
    var p := Finished(s.tasks[task].phase.success);
    var y := x.(base := WithPhase(WithGuard(s, guard), task, p));
    HoldsAfter(s, task, p, guard);
    assert Holds(s, task, n);
    hide Holds;
    forall m | m in y.base.store.nodes && m in guard ensures GuardedAt(y, m) {
      var u :| u !in x.loose && Holds(s, u, m);
      assert Holds(y.base, u, m);
    }
  }

  /** While the guard tells who is inside, an entry finds nobody there exactly when it is clear. */
  lemma NobodyInside(x: Mixed, a: Action)
    requires GuardTells(x) && Enters(x, a) && Clear(x, a)
    requires a.step.task in x.loose || x.base.tasks[a.step.task].node.id !in x.base.store.deploying
    ensures var n := x.base.tasks[a.step.task].node.id; n in x.base.store.nodes ==> forall u :: !Holds(x.base, u, n)
  {
    hide Holds;
  }

  lemma TellsTask(x: Mixed, step: Step, H: string -> string)
    requires GuardTells(x) && step.TaskStep? && step.task in x.base.tasks && EntryClear(x, Ordinary(step))
    ensures GuardTells(Do(x, Ordinary(step), H))
  {
    var TaskStep(task, now, answer, applied) := step;
    var s, n := x.base, x.base.tasks[task].node.id;
    var guard := s.store.deploying;
    ActedIsNext(s, task, now, answer, applied, H);
    hide GuardTells, Acted, Next;
    assert WithGuard(s, guard) == s;
    if s.tasks[task].phase.Fetched? {
      EnterIs(s, task, now, answer, applied, H);
      if task in x.loose || n !in guard {
        if n in s.store.nodes {
          NobodyInside(x, Ordinary(step));
        }
        TellsEnter(x, task, if task in x.loose then guard else guard + {n}, Guarded);
      } else {
        TellsEnter(x, task, guard, Finished(false));
      }
    } else if s.tasks[task].phase.Finishing? {
      ReleaseIs(s, task, now, answer, applied, H);
      TellsRelease(x, task, if task in x.loose then guard else guard - {n});
    } else {
      TellsInside(x, task, now, answer, applied, H);
    }
  }

  lemma TellsMore(x: Mixed, task: nat)
    requires GuardTells(x) && task in x.base.tasks && x.base.tasks[task].phase.Fetched?
    ensures GuardTells(x.(loose := x.loose + {task}))
  {
    assert forall n :: !Holds(x.base, task, n);
    hide Holds;
    TellsFrame(x, x.(loose := x.loose + {task}));
  }

  lemma TellsStep(x: Mixed, a: Action, H: string -> string)
    requires GuardTells(x) && EntryClear(x, a)
    ensures GuardTells(Do(x, a, H))
  {
    match a
    case RollBack(task, id) =>
      var steps := RollbackSteps(x.base, task, id);
      if steps != [] {
        TellsOther(x, steps[0], H);
        hide GuardTells, History;
        TellsMore(x.(base := Next(x.base, steps[0], H)), task);
      }
    case Ordinary(step) =>
      hide GuardTells, Next, LooseActed, EntryClear;
      if step.TaskStep? {
        if step.task in x.base.tasks {
          TellsTask(x, step, H);
        } else {
          NoTask(x.base, step, H);
        }
      } else {
        TellsOther(x, step, H);
      }
  }

  lemma NoTask(s: System, step: Step, H: string -> string)
    requires step.TaskStep? && step.task !in s.tasks
    ensures Next(s, step, H) == s
  {
  }

  /** An entry that is not clear puts two deployers inside. */
  lemma NotApart(x: Mixed, a: Action, H: string -> string)
    requires GuardTells(x) && !EntryClear(x, a)
    ensures !Exclusive(Do(x, a, H).base)
  {
    var TaskStep(task, now, answer, applied) := a.step;
    var n := x.base.tasks[task].node.id;
    assert !Holds(x.base, task, n);
    hide Holds, Do;
    var u: nat;
    if LooseAt(x, n) {
      u :| u in x.loose && Holds(x.base, u, n);
    } else {
      u :| u !in x.loose && Holds(x.base, u, n);
    }
    EntersBeside(x, task, u, now, answer, applied, H);
  }

  /** At no time are two deployers inside at one registered node. */
  ghost predicate AlwaysApart(x: Mixed, actions: seq<Action>, H: string -> string)
    decreases |actions|
  {
    Exclusive(x.base) && (actions == [] || AlwaysApart(Do(x, actions[0], H), actions[1..], H))
  }

  ghost predicate EntriesClear(x: Mixed, actions: seq<Action>, H: string -> string)
    decreases |actions|
  {
    actions == [] || (EntryClear(x, actions[0]) && EntriesClear(Do(x, actions[0], H), actions[1..], H))
  }

  lemma {:induction false} ApartFrom(x: Mixed, actions: seq<Action>, H: string -> string)
    requires GuardTells(x)
    ensures AlwaysApart(x, actions, H) <==> EntriesClear(x, actions, H)
    decreases |actions|
  {
    hide Do, EntryClear, GuardTells;
    TellsApart(x);
    if actions != [] {
      var y := Do(x, actions[0], H);
      if EntryClear(x, actions[0]) {
        TellsStep(x, actions[0], H);
        ApartFrom(y, actions[1..], H);
      } else {
        NotApart(x, actions[0], H);
      }
    }
  }

  lemma TellsApart(x: Mixed)
    requires GuardTells(x)
    ensures Exclusive(x.base)
  {
  }

  lemma StartTells()
    ensures GuardTells(START)
  {
  }

  /**
   * Over any run of guarded deployers and deployers that ignore the guard: at no time are two of them
   * inside at one registered node if and only if every entry at a registered node is clear.
   */
  lemma ApartIff(actions: seq<Action>, H: string -> string)
    ensures AlwaysApart(START, actions, H) <==> EntriesClear(START, actions, H)
  {
    StartTells();
    ApartFrom(START, actions, H);
  }
}
