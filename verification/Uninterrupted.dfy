/** A deployer that nobody interrupts, and runs of the protocol built from such deployers. */
module Uninterrupted {
  import opened Core
  import opened Storage
  import opened Deploys
  import opened Protocol

  // ----- an uninterrupted deployer -----

  /** `k` actions in a row of one deployer, with the same clock and answer. */
  function Solo(
    s: System, task: nat, k: nat, now: Time, answer: Answer, applied: bool, H: string -> string): (r: System)
    requires task in s.tasks
    ensures task in r.tasks
  {
    if k == 0 then s else Acted(Solo(s, task, k - 1, now, answer, applied, H), task, now, answer, applied, H)
  }

  lemma SoloTwo(s: System, task: nat, k: nat, now: Time, answer: Answer, applied: bool, H: string -> string)
    requires task in s.tasks
    ensures Solo(s, task, k + 2, now, answer, applied, H)
            == Acted(Acted(Solo(s, task, k, now, answer, applied, H), task, now, answer, applied, H), task, now,
               answer, applied, H)
  {
    hide Acted;
  }

  lemma SoloStays(s: System, task: nat, k: nat, n: nat, now: Time, answer: Answer, applied: bool, H: string -> string)
    requires task in s.tasks && k <= n && Solo(s, task, k, now, answer, applied, H).tasks[task].phase.Finished?
    ensures Solo(s, task, n, now, answer, applied, H) == Solo(s, task, k, now, answer, applied, H)
    decreases n
  {
    hide Acted;
    if k < n {
      SoloStays(s, task, k, n - 1, now, answer, applied, H);
      FinishedStep(Solo(s, task, n - 1, now, answer, applied, H), task, now, answer, applied, H);
    }
  }

  lemma SoloAppend(s: System, task: nat, j: nat, k: nat, now: Time, answer: Answer, applied: bool, H: string -> string)
    requires task in s.tasks
    ensures Solo(Solo(s, task, j, now, answer, applied, H), task, k, now, answer, applied, H)
            == Solo(s, task, j + k, now, answer, applied, H)
  {
    hide Acted;
    if k > 0 {
      SoloAppend(s, task, j, k - 1, now, answer, applied, H);
    }
  }

  lemma SoloApproved(s: System, task: nat, now: Time, answer: Answer, applied: bool, H: string -> string)
    requires task in s.tasks && s.tasks[task].phase.Approved?
    ensures var t := s.tasks[task];
            var (s1, version) := StorePolicy(s.store, Policy(t.node.id, t.rules, H(t.rules), now, t.options));
            Solo(s, task, 2, now, answer, applied, H)
            == WithPhase(s.(store := SetState(s1, t.node.id, Deploying)), task, Marked(version))
  {
    hide StorePolicy, SetState;
    SoloTwo(s, task, 0, now, answer, applied, H);
  }

  lemma SoloMarked(s: System, task: nat, now: Time, answer: Answer, applied: bool, H: string -> string)
    requires task in s.tasks && s.tasks[task].phase.Marked?
    ensures var t := s.tasks[task];
            Solo(s, task, 2, now, answer, applied, H)
            == WithPhase(s.(store := SetState(s.store, t.node.id, if answer == Accepted then Active else Error),
                            agents := Contacted(s.agents, t.node.id, t.rules, answer, applied)),
                         task, Settled(t.phase.version, answer))
  {
    hide SetState;
    SoloTwo(s, task, 0, now, answer, applied, H);
  }

  lemma SoloSettled(s: System, task: nat, now: Time, answer: Answer, applied: bool, H: string -> string)
    requires task in s.tasks && s.tasks[task].phase.Settled?
    ensures var t := s.tasks[task];
            Solo(s, task, 2, now, answer, applied, H)
            == WithPhase(s.(store := EndDeploy(Log(s.store,
               Note(t, t.phase.version, ResultOf(t.phase.answer), now, H)), t.node.id)),
                         task, Finished(t.phase.answer == Accepted))
  {
    hide Log, EndDeploy;
    SoloTwo(s, task, 0, now, answer, applied, H);
  }

  /** The part of a deploy that contacts the agent, on the store alone. */
  function Contact(
    s: Store, n: NodeId, rules: string, options: Options, now: Time, answer: Answer, H: string -> string): Store {
    var (s1, version) := StorePolicy(s, Policy(n, rules, H(rules), now, options));
    Log(SetState(SetState(s1, n, Deploying), n, if answer == Accepted then Active else Error),
        Deployment(n, version, H(rules), now, ResultOf(answer)))
  }

  /** From `Approved` on: store, mark, call, settle, record, release. */
  lemma SoloContact(s: System, task: nat, now: Time, answer: Answer, applied: bool, H: string -> string)
    requires task in s.tasks && s.tasks[task].phase.Approved?
    ensures var t := s.tasks[task];
            Solo(s, task, 6, now, answer, applied, H)
            == WithPhase(s.(store := EndDeploy(Contact(s.store, t.node.id, t.rules, t.options, now, answer, H),
               t.node.id),
                            agents := Contacted(s.agents, t.node.id, t.rules, answer, applied)),
                         task, Finished(answer == Accepted))
  {
    hide StorePolicy, SetState, Log, EndDeploy, Solo, Contacted;
    SoloApproved(s, task, now, answer, applied, H);
    var two := Solo(s, task, 2, now, answer, applied, H);
    SoloMarked(two, task, now, answer, applied, H);
    SoloAppend(s, task, 2, 2, now, answer, applied, H);
    var four := Solo(s, task, 4, now, answer, applied, H);
    SoloSettled(four, task, now, answer, applied, H);
    SoloAppend(s, task, 4, 2, now, answer, applied, H);
  }

  /** A redundant request: note the current version, record it, release. */
  lemma SoloSkip(
    g: System, s: System, sure: bool, task: nat, now: Time, answer: Answer, applied: bool, H: string -> string)
    requires task in g.tasks && s == WithPhase(g, task, Matched(sure))
    ensures var t := g.tasks[task];
            var h := History(g.store, t.node.id, 1);
            var d := Deployment(t.node.id, if h == [] then 0 else h[0].version, H(t.rules), now, Success);
            Solo(s, task, 3, now, answer, applied, H)
            == WithPhase(g.(store := EndDeploy(Log(g.store, d), t.node.id)), task, Finished(true))
  {
    hide History, Log, EndDeploy, Solo, Acted, WithPhase;
    SkipNotes(g, s, sure, task, now, answer, applied, H);
    SoloThree(s, task, now, answer, applied, H);
    var t := g.tasks[task];
    var h := History(g.store, t.node.id, 1);
    SkipRecords(g, if h == [] then 0 else h[0].version, sure, task, now, answer, applied, H);
  }

  lemma SkipNotes(
    g: System, s: System, sure: bool, task: nat, now: Time, answer: Answer, applied: bool, H: string -> string)
    requires task in g.tasks && s == WithPhase(g, task, Matched(sure))
    ensures task in s.tasks
    ensures var h := History(g.store, g.tasks[task].node.id, 1);
            Acted(s, task, now, answer, applied, H)
              == WithPhase(g, task, Noted(if h == [] then 0 else h[0].version, sure))
  {
    hide History, Acted;
    MatchedIs(s, task, now, answer, applied, H);
  }

  lemma SkipRecords(
    g: System, version: nat, sure: bool, task: nat, now: Time, answer: Answer, applied: bool, H: string -> string)
    requires task in g.tasks
    ensures task in WithPhase(g, task, Noted(version, sure)).tasks
    ensures var t := g.tasks[task];
            var d := Deployment(t.node.id, version, H(t.rules), now, Success);
            Acted(Acted(WithPhase(g, task, Noted(version, sure)), task, now, answer, applied, H), task, now, answer,
              applied, H)
            == WithPhase(g.(store := EndDeploy(Log(g.store, d), t.node.id)), task, Finished(true))
  {
    hide Log, EndDeploy, Acted;
    var t := g.tasks[task];
    var one := WithPhase(g, task, Noted(version, sure));
    NotedIs(one, task, now, answer, applied, H);
    var two := WithPhase(g.(store := Log(g.store, Deployment(t.node.id, version, H(t.rules), now, Success))), task,
      Finishing(true, sure));
    assert Acted(one, task, now, answer, applied, H) == two;
    FinishingIs(two, task, now, answer, applied, H);
  }

  lemma SoloThree(s: System, task: nat, now: Time, answer: Answer, applied: bool, H: string -> string)
    requires task in s.tasks
    ensures Solo(s, task, 3, now, answer, applied, H)
            == Acted(Acted(Acted(s, task, now, answer, applied, H), task, now, answer, applied, H), task, now, answer,
               applied, H)
  {
    hide Acted;
    SoloTwo(s, task, 1, now, answer, applied, H);
  }

  /** The first two actions with the guard free: take it, and choose the way. */
  lemma SoloChoice(s: System, task: nat, now: Time, answer: Answer, applied: bool, H: string -> string)
    requires task in s.tasks && s.tasks[task].phase.Fetched? && s.tasks[task].node.id !in s.store.deploying
    ensures var t := s.tasks[task];
            var g := BeginDeploy(s.store, t.node.id).0;
            Solo(s, task, 2, now, answer, applied, H)
            == WithPhase(s.(store := g), task,
                         if !Capable(t.node.capabilities, t.options) then Finishing(false, false)
                         else if Redundant(g, t, H) then Matched(Unchanged(g, t.node)) else Approved)
  {
    hide Capable, PolicyMatches;
    SoloTwo(s, task, 0, now, answer, applied, H);
  }

  /** The whole way of a deployer that is not interrupted, from a free guard. */
  function Whole(s: System, task: nat, now: Time, answer: Answer, applied: bool, H: string -> string): System
    requires task in s.tasks
  {
    var t := s.tasks[task];
    var n := t.node.id;
    var g := BeginDeploy(s.store, n).0;
    if !Capable(t.node.capabilities, t.options) then WithPhase(s.(store := EndDeploy(g, n)), task, Finished(false))
    else if Redundant(g, t, H) then
      var h := History(g, n, 1);
      var d := Deployment(n, if h == [] then 0 else h[0].version, H(t.rules), now, Success);
      WithPhase(s.(store := EndDeploy(Log(g, d), n)), task, Finished(true))
    else
      WithPhase(s.(store := EndDeploy(Contact(g, n, t.rules, t.options, now, answer, H), n),
                   agents := Contacted(s.agents, n, t.rules, answer, applied)),
                task, Finished(answer == Accepted))
  }

  /** Reached by the first two actions and `k` more, a finished state stays. */
  lemma SoloThen(s: System, task: nat, k: nat, now: Time, answer: Answer, applied: bool, H: string -> string)
    requires task in s.tasks && k <= 6
    requires Solo(Solo(s, task, 2, now, answer, applied, H), task, k, now, answer, applied,
             H).tasks[task].phase.Finished?
    ensures Solo(s, task, 8, now, answer, applied, H)
            == Solo(Solo(s, task, 2, now, answer, applied, H), task, k, now, answer, applied, H)
  {
    hide Solo;
    SoloAppend(s, task, 2, k, now, answer, applied, H);
    SoloStays(s, task, 2 + k, 8, now, answer, applied, H);
  }

  lemma SoloGivesUp(g: System, s: System, task: nat, now: Time, answer: Answer, applied: bool, H: string -> string)
    requires task in g.tasks && s == WithPhase(g, task, Finishing(false, false))
    ensures Solo(s, task, 1, now, answer, applied, H)
            == WithPhase(g.(store := EndDeploy(g.store, g.tasks[task].node.id)), task, Finished(false))
  {
    hide EndDeploy;
    assert Solo(s, task, 1, now, answer, applied, H) == Acted(s, task, now, answer, applied, H);
  }

  lemma SoloDelivers(g: System, s: System, task: nat, now: Time, answer: Answer, applied: bool, H: string -> string)
    requires task in g.tasks && s == WithPhase(g, task, Approved)
    ensures var t := g.tasks[task];
            Solo(s, task, 6, now, answer, applied, H)
            == WithPhase(g.(store := EndDeploy(Contact(g.store, t.node.id, t.rules, t.options, now, answer, H),
               t.node.id),
                            agents := Contacted(g.agents, t.node.id, t.rules, answer, applied)),
                         task, Finished(answer == Accepted))
  {
    hide Contact, Contacted, EndDeploy, Solo;
    SoloContact(s, task, now, answer, applied, H);
  }

  lemma SoloWhole(s: System, task: nat, now: Time, answer: Answer, applied: bool, H: string -> string)
    requires task in s.tasks && s.tasks[task].phase.Fetched? && s.tasks[task].node.id !in s.store.deploying
    ensures Solo(s, task, 8, now, answer, applied, H) == Whole(s, task, now, answer, applied, H)
  {
    hide Solo, Capable, Redundant, Contact, Contacted, History, Log, EndDeploy, BeginDeploy, Acted;
    var t := s.tasks[task];
    var g := s.(store := BeginDeploy(s.store, t.node.id).0);
    SoloChoice(s, task, now, answer, applied, H);
    var two := Solo(s, task, 2, now, answer, applied, H);
    if !Capable(t.node.capabilities, t.options) {
      SoloGivesUp(g, two, task, now, answer, applied, H);
      SoloThen(s, task, 1, now, answer, applied, H);
    } else if Redundant(g.store, t, H) {
      SoloSkip(g, two, Unchanged(g.store, t.node), task, now, answer, applied, H);
      SoloThen(s, task, 3, now, answer, applied, H);
    } else {
      SoloDelivers(g, two, task, now, answer, applied, H);
      SoloThen(s, task, 6, now, answer, applied, H);
    }
  }

  /**
   * A deployer that is not interrupted does to the store what the sequential guarded deploy does, and
   * its agent is contacted exactly when that deploy contacts it.
   */
  lemma SoloIsSequential(s: System, task: nat, now: Time, answer: Answer, applied: bool, H: string -> string)
    requires task in s.tasks && s.tasks[task].phase.Fetched?
             && Normalize(s.tasks[task].options) == s.tasks[task].options
    ensures var t := s.tasks[task];
            var (st, success) := DeployGuarded(s.store, t.node, t.rules, t.options, answer, now, H);
            var end := Solo(s, task, 8, now, answer, applied, H);
            && end.store == st && end.tasks[task].phase == Finished(success)
            && end.agents == (if t.node.id !in s.store.deploying
                                 && DeployToNode(BeginDeploy(s.store, t.node.id).0, t.node, t.rules, t.options, answer,
                                    now, H).1.contacted
                              then Contacted(s.agents, t.node.id, t.rules, answer, applied) else s.agents)
  {
    hide DeployToNode, Solo, Whole, Contacted, Normalize, EndDeploy;
    var t := s.tasks[task];
    if t.node.id in s.store.deploying {
      SoloBlocked(s, task, now, answer, applied, H);
    } else {
      SoloWhole(s, task, now, answer, applied, H);
      WholeIsDeploy(s, BeginDeploy(s.store, t.node.id).0, task, now, answer, applied, H);
    }
  }

  lemma SoloBlocked(s: System, task: nat, now: Time, answer: Answer, applied: bool, H: string -> string)
    requires task in s.tasks && s.tasks[task].phase.Fetched? && s.tasks[task].node.id in s.store.deploying
    ensures Solo(s, task, 8, now, answer, applied, H) == WithPhase(s, task, Finished(false))
    ensures BeginDeploy(s.store, s.tasks[task].node.id).0 == s.store
  {
    assert Solo(s, task, 1, now, answer, applied, H) == Acted(s, task, now, answer, applied, H);
    SoloStays(s, task, 1, 8, now, answer, applied, H);
    assert s.store.deploying + {s.tasks[task].node.id} == s.store.deploying;
  }

  lemma WholeIsDeploy(s: System, g: Store, task: nat, now: Time, answer: Answer, applied: bool, H: string -> string)
    requires task in s.tasks && Normalize(s.tasks[task].options) == s.tasks[task].options
    requires g == BeginDeploy(s.store, s.tasks[task].node.id).0
    ensures var t := s.tasks[task];
            var (st, r) := DeployToNode(g, t.node, t.rules, t.options, answer, now, H);
            var end := Whole(s, task, now, answer, applied, H);
            && end.store == EndDeploy(st, t.node.id) && end.tasks[task].phase == Finished(r.success)
            && end.agents == if r.contacted then Contacted(s.agents, t.node.id, t.rules, answer, applied) else s.agents
  {
    hide Normalize, Capable, Contact, Log, EndDeploy, History, DeployToNode, Redundant, Contacted, BeginDeploy;
    DeployIs(g, s.tasks[task], now, answer, H);
  }

  /** The sequential deploy of a task's request, in the terms of its phases. */
  lemma DeployIs(g: Store, t: Task, now: Time, answer: Answer, H: string -> string)
    requires Normalize(t.options) == t.options
    ensures var n := t.node.id;
            var h := History(g, n, 1);
            var version := if h == [] then 0 else h[0].version;
            var (st, r) := DeployToNode(g, t.node, t.rules, t.options, answer, now, H);
            if !Capable(t.node.capabilities, t.options) then st == g && !r.success && !r.contacted
            else if Redundant(g, t, H) then
              st == Log(g, Deployment(n, version, H(t.rules), now, Success)) && r.success && !r.contacted
            else
              && st == Contact(g, n, t.rules, t.options, now, answer, H)
              && r.success == (answer == Accepted) && r.contacted
  {
    hide Normalize, Capable, StorePolicy, SetState, Log, History, PolicyMatches;
  }

  // ----- what the results do not cover -----

  /**
   * A request compared on a node fetched before another deploy of the same rules was rejected is
   * answered as a success without contacting the agent, although the agent does not run the rules.
   */
  lemma StaleSnapshotSkips(s: System, task: nat, now: Time, answer: Answer, applied: bool, H: string -> string)
    requires task in s.tasks && s.tasks[task].phase.Fetched?
             && Normalize(s.tasks[task].options) == s.tasks[task].options
    requires var t := s.tasks[task];
             && t.node.id !in s.store.deploying && t.node.state == Active && Capable(t.node.capabilities, t.options)
             && t.node.id in s.store.policies
                && PolicyMatches(s.store.policies[t.node.id], t.rules, H(t.rules), t.options)
             && !Agrees(s, t.node.id)
    ensures var end := Solo(s, task, 8, now, answer, applied, H);
            end.tasks[task].phase == Finished(true) && end.agents == s.agents && !Agrees(end, s.tasks[task].node.id)
  {
    SoloIsSequential(s, task, now, answer, applied, H);
    hide Solo, Normalize, Capable, PolicyMatches, History;
  }

  /** Fetching a node and deploying to it without interruption, as steps. */
  function DeliverySteps(task: nat, n: NodeId, rules: string, answer: Answer): seq<Step> {
    [FetchStep(task, n, rules, PLAIN)] + Times(TaskStep(task, 0, answer, false), 8)
  }

  function Times(step: Step, k: nat): seq<Step> {
    if k == 0 then [] else Times(step, k - 1) + [step]
  }

  lemma {:induction false} SoloIsRun(
    s: System, task: nat, k: nat, now: Time, answer: Answer, applied: bool, H: string -> string)
    requires task in s.tasks
    ensures Run(s, Times(TaskStep(task, now, answer, applied), k), H) == Solo(s, task, k, now, answer, applied, H)
    decreases k
  {
    hide Next, Acted;
    if k > 0 {
      var step := TaskStep(task, now, answer, applied);
      SoloIsRun(s, task, k - 1, now, answer, applied, H);
      RunConcat(s, Times(step, k - 1), [step], H);
      RunOne(Solo(s, task, k - 1, now, answer, applied, H), step, H);
      ActedIsNext(Solo(s, task, k - 1, now, answer, applied, H), task, now, answer, applied, H);
    }
  }

  /** `n` is reachable, not being deployed to, and has no policy with these rules. */
  ghost predicate Deliverable(s: System, n: NodeId, rules: string) {
    && n in s.store.nodes && s.store.nodes[n].id == n && s.store.nodes[n].state in {Online, Active}
    && n !in s.store.deploying && (n in s.store.policies ==> s.store.policies[n].rules != rules)
  }

  /** What a delivery leaves: the stored policy, the node's state, the agent's rules, a free guard. */
  lemma Delivered(s: System, task: nat, n: NodeId, rules: string, answer: Answer, H: string -> string)
    requires task !in s.tasks && Deliverable(s, n, rules)
    ensures var e := Run(s, DeliverySteps(task, n, rules, answer), H);
            && e.tasks.Keys == s.tasks.Keys + {task} && e.tasks[task].phase.Finished?
               && (forall u :: u in s.tasks ==> e.tasks[u] == s.tasks[u])
            && n in e.store.nodes && e.store.nodes[n].id == n
            && e.store.nodes[n].state == (if answer == Accepted then Active else Error)
            && n in e.store.policies && PolicyMatches(e.store.policies[n], rules, H(rules), Normalize(PLAIN))
            && VersionsOf(e.store, n)
               == VersionsOf(s.store, n) + [PolicyVersion(|VersionsOf(s.store, n)| + 1, e.store.policies[n])]
            && n !in e.store.deploying
            && e.agents == if answer == Accepted then s.agents[n := rules] else s.agents
  {
    hide Solo, Run, DeployToNode, Normalize, Times, DeployGuarded, Capable;
    var fetched := Next(s, FetchStep(task, n, rules, PLAIN), H);
    RunConcat(s, [FetchStep(task, n, rules, PLAIN)], Times(TaskStep(task, 0, answer, false), 8), H);
    RunOne(s, FetchStep(task, n, rules, PLAIN), H);
    SoloIsRun(fetched, task, 8, 0, answer, false, H);
    NormalizeTwice(PLAIN);
    SoloKeys(fetched, task, 8, 0, answer, false, H);
    SoloIsSequential(fetched, task, 0, answer, false, H);
    GuardedDelivery(s.store, n, rules, answer, H);
  }

  lemma {:induction false} SoloKeys(
    s: System, task: nat, k: nat, now: Time, answer: Answer, applied: bool, H: string -> string)
    requires task in s.tasks
    ensures var e := Solo(s, task, k, now, answer, applied, H);
            e.tasks.Keys == s.tasks.Keys && forall u :: u in s.tasks && u != task ==> e.tasks[u] == s.tasks[u]
    decreases k
  {
    hide Advance;
    if k > 0 {
      SoloKeys(s, task, k - 1, now, answer, applied, H);
    }
  }

  lemma GuardedDelivery(s: Store, n: NodeId, rules: string, answer: Answer, H: string -> string)
    requires n in s.nodes && s.nodes[n].id == n && s.nodes[n].state in {Online, Active} && n !in s.deploying
    requires n in s.policies ==> s.policies[n].rules != rules
    ensures var node := s.nodes[n];
            var st := DeployGuarded(s, node, rules, Normalize(PLAIN), answer, 0, H).0;
            && n in st.nodes && st.nodes[n] == node.(state := if answer == Accepted then Active else Error)
            && n in st.policies && PolicyMatches(st.policies[n], rules, H(rules), Normalize(PLAIN))
               && n !in st.deploying
            && VersionsOf(st, n) == VersionsOf(s, n) + [PolicyVersion(|VersionsOf(s, n)| + 1, st.policies[n])]
            && DeployToNode(BeginDeploy(s, n).0, node, rules, Normalize(PLAIN), answer, 0, H).1.contacted
  {
    assert Normalize(PLAIN) == PLAIN.(ports := 1, dynamicEntries := 16, width := 8, rssQueues := 4,
      target := "standalone");
    assert Normalize(Normalize(PLAIN)) == Normalize(PLAIN);
    hide History, Normalize;
  }

  /** `n` is Active and runs "a", as stored; `tasks` deployers have been at work. */
  ghost predicate RunsFirst(s: System, n: NodeId, tasks: set<nat>, H: string -> string) {
    && n in s.store.nodes && s.store.nodes[n].id == n && s.store.nodes[n].state == Active && n !in s.store.deploying
    && n in s.store.policies && PolicyMatches(s.store.policies[n], "a", H("a"), Normalize(PLAIN))
    && n in s.agents && s.agents[n] == "a" && s.tasks.Keys == tasks
    && |VersionsOf(s.store, n)| == 1 && VersionsOf(s.store, n)[0].policy == s.store.policies[n]
  }

  function FirstSteps(n: NodeId): seq<Step> {
    [RegisterStep(n, map[], 0)] + [HeartbeatStep(n, Online, 0)] + DeliverySteps(0, n, "a", Accepted)
  }

  /** Registered, online, and deployed to once. */
  lemma FirstDelivery(n: NodeId, H: string -> string)
    ensures RunsFirst(Run(EMPTY, FirstSteps(n), H), n, {0}, H) && Run(EMPTY, FirstSteps(n), H).tasks[0].phase.Finished?
  {
    hide Run, DeliverySteps, Normalize;
    var start := [RegisterStep(n, map[], 0)] + [HeartbeatStep(n, Online, 0)];
    var registered := Next(EMPTY, RegisterStep(n, map[], 0), H);
    RunConcat(EMPTY, [RegisterStep(n, map[], 0)], [HeartbeatStep(n, Online, 0)], H);
    RunOne(EMPTY, RegisterStep(n, map[], 0), H);
    RunOne(registered, HeartbeatStep(n, Online, 0), H);
    RunConcat(EMPTY, start, DeliverySteps(0, n, "a", Accepted), H);
    Delivered(Run(EMPTY, start, H), 0, n, "a", Accepted, H);
  }

  /**
   * Heartbeats are not harmless in general. In some run, after a rejected deploy of other rules, the
   * report of an agent that still runs its old ones makes the node Active, with its guard free and a
   * stored policy the agent does not run.
   */
  lemma HeartbeatAfterRejection(H: string -> string, n: NodeId)
    ensures exists steps ::
              var e := Run(EMPTY, steps, H);
              n in e.store.nodes && e.store.nodes[n].state == Active && n !in e.store.deploying && !Agrees(e, n)
  {
    hide Run, DeliverySteps, FirstSteps, Normalize;
    FirstDelivery(n, H);
    var first := Run(EMPTY, FirstSteps(n), H);
    var second := DeliverySteps(1, n, "b", Rejected);
    var report := HeartbeatStep(n, Active, 0);
    Delivered(first, 1, n, "b", Rejected, H);
    RunConcat(EMPTY, FirstSteps(n), second, H);
    RunConcat(EMPTY, FirstSteps(n) + second, [report], H);
    RunOne(Run(first, second, H), report, H);
    assert !Agrees(Run(EMPTY, FirstSteps(n) + second + [report], H), n);
  }

  ghost predicate NoClaim(steps: seq<Step>) {
    forall step :: step in steps ==> !(step.HeartbeatStep? && step.state in {Active, Deploying})
  }

  lemma {:induction false} QuietHarmless(s: System, steps: seq<Step>, H: string -> string)
    requires NoClaim(steps)
    ensures AllHarmless(s, steps, H)
    decreases |steps|
  {
    hide Next;
    if steps != [] {
      QuietHarmless(Next(s, steps[0], H), steps[1..], H);
    }
  }

  lemma {:induction false} TimesQuiet(step: Step, k: nat)
    requires step.TaskStep?
    ensures NoClaim(Times(step, k))
    decreases k
  {
    if k > 0 {
      TimesQuiet(step, k - 1);
    }
  }

  /** The deployer finished with success although the node's agent runs other rules than it asked for. */
  ghost predicate FalseSuccess(s: System, task: nat) {
    && task in s.tasks && s.tasks[task].phase == Finished(true)
    && s.tasks[task].node.id in s.agents && s.agents[s.tasks[task].node.id] != s.tasks[task].rules
  }

  function StaleSteps(n: NodeId): seq<Step> {
    [FetchStep(2, n, "b", PLAIN)] + DeliverySteps(1, n, "b", Rejected) + Times(TaskStep(2, 0, Accepted, true), 8)
  }

  /** The node is fetched while Active; then "b" is rejected; then the fetched node is compared with what is stored. */
  lemma StaleEnd(first: System, n: NodeId, H: string -> string)
    requires RunsFirst(first, n, {0}, H)
    ensures FalseSuccess(Run(first, StaleSteps(n), H), 2)
  {
    hide Run, Times, DeliverySteps, Solo, Normalize, Capable;
    var fetch := FetchStep(2, n, "b", PLAIN);
    var second := DeliverySteps(1, n, "b", Rejected);
    var fetched := Next(first, fetch, H);
    RunOne(first, fetch, H);
    RunConcat(first, [fetch], second, H);
    RunConcat(first, [fetch] + second, Times(TaskStep(2, 0, Accepted, true), 8), H);
    Delivered(fetched, 1, n, "b", Rejected, H);
    StaleLast(Run(fetched, second, H), n, H);
  }

  lemma StaleLast(s: System, n: NodeId, H: string -> string)
    requires 2 in s.tasks && s.tasks[2].node.id == n && s.tasks[2].node.state == Active
    requires s.tasks[2] == Task(s.tasks[2].node, "b", Normalize(PLAIN), Fetched)
    requires n in s.agents && s.agents[n] == "a" && n !in s.store.deploying
    requires n in s.store.policies && PolicyMatches(s.store.policies[n], "b", H("b"), Normalize(PLAIN))
    ensures FalseSuccess(Run(s, Times(TaskStep(2, 0, Accepted, true), 8), H), 2)
  {
    NormalizeTwice(PLAIN);
    PlainCapable(s.tasks[2].node.capabilities);
    hide Run, Times, Solo, Normalize, Capable;
    SoloIsRun(s, 2, 8, 0, Accepted, true, H);
    StaleSnapshotSkips(s, 2, 0, Accepted, true, H);
    SoloTask(s, 2, 8, 0, Accepted, true, H);
  }

  lemma FirstQuiet(n: NodeId)
    ensures NoClaim(FirstSteps(n))
  {
    hide Times;
    TimesQuiet(TaskStep(0, 0, Accepted, false), 8);
  }

  lemma StaleQuiet(n: NodeId)
    ensures NoClaim(StaleSteps(n))
  {
    hide Times;
    TimesQuiet(TaskStep(1, 0, Rejected, false), 8);
    TimesQuiet(TaskStep(2, 0, Accepted, true), 8);
  }

  /** A run without any heartbeat of an Active node that ends in such a success: the snapshot was stale. */
  lemma StaleSnapshotReached(H: string -> string, n: NodeId)
    ensures exists steps :: AllHarmless(EMPTY, steps, H) && FalseSuccess(Run(EMPTY, steps, H), 2)
  {
    hide Run, FirstSteps, StaleSteps, AllHarmless, FalseSuccess, RunsFirst;
    FirstQuiet(n);
    StaleQuiet(n);
    QuietHarmless(EMPTY, FirstSteps(n) + StaleSteps(n), H);
    FirstDelivery(n, H);
    StaleEnd(Run(EMPTY, FirstSteps(n), H), n, H);
    RunConcat(EMPTY, FirstSteps(n), StaleSteps(n), H);
  }

  /** A deployer's actions change its phase, not what it asks for. */
  lemma {:induction false} SoloTask(
    s: System, task: nat, k: nat, now: Time, answer: Answer, applied: bool, H: string -> string)
    requires task in s.tasks
    ensures var t := Solo(s, task, k, now, answer, applied, H).tasks[task]; t == s.tasks[task].(phase := t.phase)
    decreases k
  {
    hide Advance;
    if k > 0 {
      SoloTask(s, task, k - 1, now, answer, applied, H);
    }
  }
}
