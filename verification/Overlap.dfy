/** What a rollback action that overlaps with a guarded deploy can leave behind. */
module Overlap {
  import opened Core
  import opened Storage
  import opened Deploys
  import opened Protocol
  import opened Uninterrupted
  import opened Unguarded

  function Repeat(a: Action, k: nat): seq<Action> {
    if k == 0 then [] else Repeat(a, k - 1) + [a]
  }

  /** An action of deployer `task`, whose agent call is accepted. */
  function Acts(task: nat): Action {
    Ordinary(TaskStep(task, 0, Accepted, true))
  }

  function Ordinaries(steps: seq<Step>): seq<Action> {
    seq(|steps|, i requires 0 <= i < |steps| => Ordinary(steps[i]))
  }

  lemma {:induction false} DoConcat(x: Mixed, a: seq<Action>, b: seq<Action>, H: string -> string)
    ensures DoAll(x, a + b, H) == DoAll(DoAll(x, a, H), b, H)
    decreases |a|
  {
    hide Do;
    if a == [] {
      assert a + b == b;
    } else {
      assert (a + b)[1..] == a[1..] + b;
      DoConcat(Do(x, a[0], H), a[1..], b, H);
    }
  }

  lemma DoOne(x: Mixed, a: Action, H: string -> string)
    ensures DoAll(x, [a], H) == Do(x, a, H)
  {
    hide Do;
    assert [a][1..] == [];
  }

  lemma {:induction false} OrdinaryRun(s: System, steps: seq<Step>, H: string -> string)
    ensures DoAll(Mixed(s, {}), Ordinaries(steps), H) == Mixed(Run(s, steps, H), {})
    decreases |steps|
  {
    hide Next;
    if steps != [] {
      assert Ordinaries(steps)[1..] == Ordinaries(steps[1..]);
      OrdinaryRun(Next(s, steps[0], H), steps[1..], H);
    }
  }

  lemma {:induction false} GuardedActs(x: Mixed, task: nat, k: nat, H: string -> string)
    requires task in x.base.tasks && task !in x.loose
    ensures DoAll(x, Repeat(Acts(task), k), H) == x.(base := Solo(x.base, task, k, 0, Accepted, true, H))
    decreases k
  {
    hide Next, Acted;
    if k > 0 {
      GuardedActs(x, task, k - 1, H);
      DoConcat(x, Repeat(Acts(task), k - 1), [Acts(task)], H);
      var s := Solo(x.base, task, k - 1, 0, Accepted, true, H);
      DoOne(x.(base := s), Acts(task), H);
      ActedIsNext(s, task, 0, Accepted, true, H);
    }
  }

  /** `k` actions in a row of a deployer that ignores the guard. */
  function LooseSolo(s: System, task: nat, k: nat, H: string -> string): (r: System)
    requires task in s.tasks
    ensures task in r.tasks
  {
    if k == 0 then s else LooseActed(LooseSolo(s, task, k - 1, H), task, 0, Accepted, true, H)
  }

  lemma {:induction false} LooseActs(x: Mixed, task: nat, k: nat, H: string -> string)
    requires task in x.base.tasks && task in x.loose
    ensures DoAll(x, Repeat(Acts(task), k), H) == x.(base := LooseSolo(x.base, task, k, H))
    decreases k
  {
    hide Next, LooseActed;
    if k > 0 {
      LooseActs(x, task, k - 1, H);
      DoConcat(x, Repeat(Acts(task), k - 1), [Acts(task)], H);
      DoOne(x.(base := LooseSolo(x.base, task, k - 1, H)), Acts(task), H);
    }
  }

  // ----- the parts of the run -----

  /** `task` has stored its policy at `n`, marked the node, and is about to call the agent. */
  ghost predicate Calling(s: System, n: NodeId, task: nat) {
    && task in s.tasks && s.tasks[task].phase.Marked? && s.tasks[task].node.id == n
    && n in s.store.nodes && s.store.nodes[n].state == Deploying
    && n in s.store.policies && s.store.policies[n].rules == s.tasks[task].rules
  }

  /** Only `task` moved. */
  predicate OnlyTask(s: System, e: System, task: nat)
    requires task in s.tasks
  {
    task in e.tasks && e.tasks == s.tasks[task := s.tasks[task].(phase := e.tasks[task].phase)]
  }

  /** A fetched request for other rules, of a node that was Active and can be deployed to. */
  ghost predicate Asks(s: System, n: NodeId, task: nat) {
    && task in s.tasks && s.tasks[task].phase.Fetched? && s.tasks[task].node.id == n
    && Capable(s.tasks[task].node.capabilities, s.tasks[task].options)
    && n in s.store.policies && s.store.policies[n].rules != s.tasks[task].rules
    && n in s.store.nodes && s.store.nodes[n].state in {Active, Deploying}
  }

  lemma ContactState(s: Store, n: NodeId, p: Policy)
    requires p.nodeId == n && n in s.nodes && s.nodes[n].state in {Active, Deploying}
    ensures var e := SetState(StorePolicy(s, p).0, n, Deploying);
            && n in e.nodes && e.nodes[n].state == Deploying && n in e.policies && e.policies[n] == p
               && e.deploying == s.deploying
  {
  }

  lemma GuardedCalls(s: System, n: NodeId, task: nat, H: string -> string)
    requires Asks(s, n, task) && n !in s.store.deploying
    ensures var e := Solo(s, task, 4, 0, Accepted, true, H);
            Calling(e, n, task) && OnlyTask(s, e, task)
  {
    hide Solo, Capable, StorePolicy, SetState;
    SoloChoice(s, task, 0, Accepted, true, H);
    var two := Solo(s, task, 2, 0, Accepted, true, H);
    SoloApproved(two, task, 0, Accepted, true, H);
    SoloAppend(s, task, 2, 2, 0, Accepted, true, H);
    var t := s.tasks[task];
    ContactState(BeginDeploy(s.store, n).0, n, Policy(n, t.rules, H(t.rules), 0, t.options));
  }

  lemma LooseFour(s: System, task: nat, H: string -> string)
    requires task in s.tasks
    ensures LooseSolo(s, task, 1, H) == LooseActed(s, task, 0, Accepted, true, H)
    ensures LooseSolo(s, task, 2, H) == LooseActed(LooseSolo(s, task, 1, H), task, 0, Accepted, true, H)
    ensures LooseSolo(s, task, 3, H) == LooseActed(LooseSolo(s, task, 2, H), task, 0, Accepted, true, H)
    ensures LooseSolo(s, task, 4, H) == LooseActed(LooseSolo(s, task, 3, H), task, 0, Accepted, true, H)
  {
    hide LooseActed;
  }

  lemma ApprovedNext(s: System, task: nat, H: string -> string)
    requires task in s.tasks && s.tasks[task].phase.Guarded?
    requires var t := s.tasks[task]; Capable(t.node.capabilities, t.options) && !Redundant(s.store, t, H)
    ensures Acted(s, task, 0, Accepted, true, H) == WithPhase(s, task, Approved)
  {
    hide Capable, Redundant;
  }

  lemma LooseCalls(s: System, n: NodeId, task: nat, H: string -> string)
    requires Asks(s, n, task)
    ensures var e := LooseSolo(s, task, 4, H);
            Calling(e, n, task) && OnlyTask(s, e, task) && e.store.deploying == s.store.deploying
              && e.agents == s.agents
  {
    hide LooseSolo, Capable, StorePolicy, SetState, Acted;
    LooseFour(s, task, H);
    var t := s.tasks[task];
    var one := WithPhase(s, task, Guarded);
    ApprovedNext(one, task, H);
    var two := WithPhase(s, task, Approved);
    assert LooseSolo(s, task, 2, H) == two;
    ApprovedIs(two, task, 0, Accepted, true, H);
    var p := Policy(n, t.rules, H(t.rules), 0, t.options);
    var three := WithPhase(s.(store := StorePolicy(s.store, p).0), task, Protocol.Stored(StorePolicy(s.store, p).1));
    assert LooseSolo(s, task, 3, H) == three;
    StoredIs(three, task, 0, Accepted, true, H);
    ContactState(s.store, n, p);
  }

  /** With both about to call, the later caller's rules stay at the agent, and the later storer's in the store. */
  lemma CallsCross(s: System, a: nat, b: nat, H: string -> string)
    requires a in s.tasks && a != b && s.tasks[a].phase.Marked? && Calling(s, s.tasks[a].node.id, b)
    requires s.tasks[b].rules != s.tasks[a].rules
    ensures var n := s.tasks[a].node.id;
            var end := Solo(LooseActed(s, b, 0, Accepted, true, H), a, 4, 0, Accepted, true, H);
            && n in end.store.nodes && end.store.nodes[n].state == Active && n !in end.store.deploying
               && !Agrees(end, n)
            && a in end.tasks && end.tasks[a].phase.Finished?
            && b in end.tasks && end.tasks[b].phase.Answered? && end.tasks[b].phase.answer == Accepted
            && end.tasks[b].node.id == n && end.tasks.Keys == s.tasks.Keys
            && forall u :: u in s.tasks && u != a && u != b ==> end.tasks[u] == s.tasks[u]
  {
    hide Solo, Acted;
    MarkedIs(s, b, 0, Accepted, true, H);
    var s1 := Acted(s, b, 0, Accepted, true, H);
    SoloMarked(s1, a, 0, Accepted, true, H);
    SoloSettled(Solo(s1, a, 2, 0, Accepted, true, H), a, 0, Accepted, true, H);
    SoloAppend(s1, a, 2, 2, 0, Accepted, true, H);
  }

  /** The rest of the way of a deployer that was accepted changes neither an Active node nor the agent. */
  lemma LooseEnds(s: System, n: NodeId, task: nat, H: string -> string)
    requires task in s.tasks && s.tasks[task].phase.Answered? && s.tasks[task].phase.answer == Accepted
    requires s.tasks[task].node.id == n && n in s.store.nodes && s.store.nodes[n].state == Active
    ensures var e := LooseSolo(s, task, 3, H);
            && e.store.nodes == s.store.nodes && e.store.policies == s.store.policies && e.agents == s.agents
            && e.store.deploying == s.store.deploying && OnlyTask(s, e, task) && e.tasks[task].phase.Finished?
  {
    hide LooseSolo, LooseActed;
    LooseFour(s, task, H);
    LooseSettles(s, n, task, H);
    LooseFinishes(LooseSolo(s, task, 1, H), task, H);
  }

  lemma LooseSettles(s: System, n: NodeId, task: nat, H: string -> string)
    requires task in s.tasks && s.tasks[task].phase.Answered? && s.tasks[task].phase.answer == Accepted
    requires s.tasks[task].node.id == n && n in s.store.nodes && s.store.nodes[n].state == Active
    ensures LooseActed(s, task, 0, Accepted, true, H)
            == WithPhase(s, task, Settled(s.tasks[task].phase.version, Accepted))
  {
    hide Acted;
    assert SetState(s.store, n, Active) == s.store;
    hide SetState;
    AnsweredIs(s, task, 0, Accepted, true, H);
  }

  lemma LooseFinishes(s: System, task: nat, H: string -> string)
    requires task in s.tasks && s.tasks[task].phase.Settled? && s.tasks[task].phase.answer == Accepted
    ensures var b := LooseActed(s, task, 0, Accepted, true, H);
            && task in b.tasks
            && var e := LooseActed(b, task, 0, Accepted, true, H);
               && e.store.nodes == s.store.nodes && e.store.policies == s.store.policies && e.agents == s.agents
               && e.store.deploying == s.store.deploying && OnlyTask(s, e, task) && e.tasks[task].phase.Finished?
  {
    hide Acted, Log;
    SettledIs(s, task, 0, Accepted, true, H);
    LogOnly(s.store, Note(s.tasks[task], s.tasks[task].phase.version, Success, 0, H));
  }

  lemma LogOnly(s: Store, d: Deployment)
    ensures Log(s, d) == s.(deployments := s.deployments + [d])
  {
  }

  // ----- the run -----

  /** Two versions stored, the second running; then "c" and the rollback to "a" are fetched. */
  function Prelude(n: NodeId): seq<Step> {
    FirstSteps(n) + DeliverySteps(1, n, "b", Accepted) + [FetchStep(2, n, "c", PLAIN)]
  }

  /** Deployer 2 takes the guard; the rollback action, deployer 3, does not look at it. */
  function Crossing(n: NodeId): seq<Action> {
    Ordinaries(Prelude(n)) + [RollBack(3, n)]
    + Repeat(Acts(2), 4) + Repeat(Acts(3), 4) + [Acts(3)] + Repeat(Acts(2), 4) + Repeat(Acts(3), 3)
  }

  /** Both requests are fetched, for "c" and for the previous version "a", while "b" is stored and runs. */
  ghost predicate Ready(s: System, n: NodeId) {
    && Asks(s, n, 2) && Asks(s, n, 3) && s.tasks[2].rules == "c" && s.tasks[3].rules == "a"
    && n !in s.store.deploying && s.store.nodes[n].state == Active
    && s.tasks.Keys == {0, 1, 2, 3} && s.tasks[0].phase.Finished? && s.tasks[1].phase.Finished?
  }

  lemma PreludeReady(n: NodeId, H: string -> string)
    ensures var x := DoAll(START, Ordinaries(Prelude(n)) + [RollBack(3, n)], H);
            x.loose == {3} && Ready(x.base, n)
  {
    hide Run, DoAll, DeliverySteps, FirstSteps, Normalize, Capable;
    FirstDelivery(n, H);
    var first := Run(EMPTY, FirstSteps(n), H);
    var second := DeliverySteps(1, n, "b", Accepted);
    Delivered(first, 1, n, "b", Accepted, H);
    var fetch := FetchStep(2, n, "c", PLAIN);
    RunConcat(EMPTY, FirstSteps(n), second, H);
    RunConcat(EMPTY, FirstSteps(n) + second, [fetch], H);
    RunOne(Run(first, second, H), fetch, H);
    OrdinaryRun(EMPTY, Prelude(n), H);
    DoConcat(START, Ordinaries(Prelude(n)), [RollBack(3, n)], H);
    DoOne(Mixed(Run(EMPTY, Prelude(n), H), {}), RollBack(3, n), H);
    RollbackFetched(Run(first, second, H), n, H);
  }

  /** After both deliveries: the two fetches. */
  lemma RollbackFetched(s: System, n: NodeId, H: string -> string)
    requires n in s.store.nodes && s.store.nodes[n].id == n && s.store.nodes[n].state == Active
             && n !in s.store.deploying
    requires |VersionsOf(s.store, n)| == 2 && VersionsOf(s.store, n)[0].policy.rules == "a"
    requires VersionsOf(s.store, n)[0].policy.options == Normalize(PLAIN)
    requires n in s.store.policies && s.store.policies[n].rules == "b"
    requires s.tasks.Keys == {0, 1} && s.tasks[0].phase.Finished? && s.tasks[1].phase.Finished?
    ensures var x := Do(Mixed(Next(s, FetchStep(2, n, "c", PLAIN), H), {}), RollBack(3, n), H);
            x.loose == {3} && Ready(x.base, n)
  {
    NormalizeTwice(PLAIN);
    PlainCapable(s.store.nodes[n].capabilities);
    hide Normalize, Capable;
    assert History(s.store, n, 2)[1].policy == VersionsOf(s.store, n)[0].policy;
  }

  /**
   * A run from the start, of one guarded deploy and one rollback action, that ends with every deployer
   * finished, the guard free, and an Active node whose agent does not run the stored current policy.
   */
  lemma RollbackOverlaps(H: string -> string, n: NodeId)
    ensures exists actions ::
              var s := DoAll(START, actions, H).base;
              && n in s.store.nodes && s.store.nodes[n].state == Active && n !in s.store.deploying
              && (forall u :: u in s.tasks ==> s.tasks[u].phase.Finished?) && !Agrees(s, n)
  {
    hide DoAll, Prelude, Ordinaries, Ready, Solo, LooseSolo, Repeat;
    PreludeReady(n, H);
    var x0 := DoAll(START, Ordinaries(Prelude(n)) + [RollBack(3, n)], H);
    var end := Crossed(x0, n, H);
    CrossingIs(n, H);
    assert DoAll(START, Crossing(n), H) == end;
  }

  /** The crossing from where both requests are fetched. */
  ghost function Rest(x: Mixed, H: string -> string): Mixed {
    var x1 := DoAll(x, Repeat(Acts(2), 4), H);
    var x2 := DoAll(x1, Repeat(Acts(3), 4), H);
    var x3 := DoAll(x2, [Acts(3)], H);
    var x4 := DoAll(x3, Repeat(Acts(2), 4), H);
    DoAll(x4, Repeat(Acts(3), 3), H)
  }

  lemma CrossingIs(n: NodeId, H: string -> string)
    ensures DoAll(START, Crossing(n), H) == Rest(DoAll(START, Ordinaries(Prelude(n)) + [RollBack(3, n)], H), H)
  {
    hide DoAll, Prelude, Ordinaries, Repeat;
    var p := Ordinaries(Prelude(n)) + [RollBack(3, n)];
    DoConcat(START, p, Repeat(Acts(2), 4), H);
    DoConcat(START, p + Repeat(Acts(2), 4), Repeat(Acts(3), 4), H);
    DoConcat(START, p + Repeat(Acts(2), 4) + Repeat(Acts(3), 4), [Acts(3)], H);
    DoConcat(START, p + Repeat(Acts(2), 4) + Repeat(Acts(3), 4) + [Acts(3)], Repeat(Acts(2), 4), H);
    DoConcat(START, p + Repeat(Acts(2), 4) + Repeat(Acts(3), 4) + [Acts(3)] + Repeat(Acts(2), 4), Repeat(Acts(3), 3),
      H);
  }

  lemma Crossed(x: Mixed, n: NodeId, H: string -> string) returns (end: Mixed)
    requires x.loose == {3} && Ready(x.base, n)
    ensures end == Rest(x, H)
    ensures var s := end.base;
            && n in s.store.nodes && s.store.nodes[n].state == Active && n !in s.store.deploying
            && (forall u :: u in s.tasks ==> s.tasks[u].phase.Finished?) && !Agrees(s, n)
  {
    hide DoAll, Solo, LooseSolo, Repeat, Capable, LooseActed;
    GuardedActs(x, 2, 4, H);
    GuardedCalls(x.base, n, 2, H);
    var s1 := Solo(x.base, 2, 4, 0, Accepted, true, H);
    LooseActs(x.(base := s1), 3, 4, H);
    LooseCalls(s1, n, 3, H);
    var s2 := LooseSolo(s1, 3, 4, H);
    DoOne(x.(base := s2), Acts(3), H);
    var s3 := LooseActed(s2, 3, 0, Accepted, true, H);
    CallsCross(s2, 2, 3, H);
    KeepsTask(s2, 3, 2, H);
    GuardedActs(x.(base := s3), 2, 4, H);
    var s4 := Solo(s3, 2, 4, 0, Accepted, true, H);
    LooseActs(x.(base := s4), 3, 3, H);
    LooseEnds(s4, n, 3, H);
    end := x.(base := LooseSolo(s4, 3, 3, H));
  }

  lemma KeepsTask(s: System, task: nat, u: nat, H: string -> string)
    requires task in s.tasks && u in s.tasks
    ensures u in LooseActed(s, task, 0, Accepted, true, H).tasks
  {
    hide Advance;
  }
}
