/**
 * The deploy protocol as interleaved steps: any number of guarded deployers, the stale-node reaper,
 * registrations, removals and heartbeats share one store, and each deployer talks to its node's agent.
 */
module Protocol {
  import opened Core
  import opened Storage
  import opened Deploys

  /**
   * How far a deployer has come; the guard is held from `Guarded` to `Finishing`. `sure` records whether
   * its success is sure: the agent accepted, or the node was still in the fetched state when compared.
   */
  datatype Phase =
    | Fetched
    | Guarded
    | Matched(sure: bool)
    | Noted(version: nat, sure: bool)
    | Approved
    | Stored(version: nat)
    | Marked(version: nat)
    | Answered(version: nat, answer: Answer)
    | Settled(version: nat, answer: Answer)
    | Finishing(success: bool, sure: bool)
    | Finished(success: bool)

  /** A deployer: the node as it was fetched, the request, and the phase. */
  datatype Task = Task(node: Node, rules: string, options: Options, phase: Phase)

  /**
   * `agents` holds the rules each agent runs; `seen` the ids ever registered, which are never reused;
   * `trusted` records whether every heartbeat so far was harmless.
   */
  datatype System = System(store: Store, agents: map<NodeId, string>, tasks: map<nat, Task>, seen: set<NodeId>,
    trusted: bool)

  const EMPTY := System(Store(map[], map[], map[], [], {}), map[], map[], {}, true)

  datatype Step =
    | RegisterStep(id: NodeId, capabilities: map<string, string>, now: Time)
    | RemoveStep(id: NodeId)
    | HeartbeatStep(id: NodeId, state: NodeState, now: Time)
    | ReapStep(now: Time, threshold: Time)
    | FetchStep(task: nat, id: NodeId, rules: string, raw: Options)
    | TaskStep(task: nat, now: Time, answer: Answer, applied: bool)

  predicate InSection(p: Phase) {
    !p.Fetched? && !p.Finished?
  }

  function Note(t: Task, version: nat, result: DeploymentResult, now: Time, H: string -> string): Deployment {
    Deployment(t.node.id, version, H(t.rules), now, result)
  }

  /** The fetched node is Active, and the stored current policy is the one asked for: the shortcut's test. */
  predicate Redundant(s: Store, t: Task, H: string -> string) {
    var n := t.node.id;
    t.node.state == Active && n in s.policies && PolicyMatches(s.policies[n], t.rules, H(t.rules), t.options)
  }

  /** The agents after one contact that came to `answer`. */
  function Contacted(
    agents: map<NodeId, string>, n: NodeId, rules: string, answer: Answer, applied: bool): map<NodeId, string> {
    if answer == Accepted || (applied && answer != Rejected) then agents[n := rules] else agents
  }

  /** The node is registered and still in the state it was fetched in. */
  predicate Unchanged(s: Store, node: Node) {
    node.id in s.nodes && s.nodes[node.id].state == node.state
  }

  /**
   * The next atomic action of a deployer. The agent applies the rules when it accepts; when the call
   * fails or times out it has either applied them by then (`applied`) or never will.
   */
  function Advance(s: System, t: Task, now: Time, answer: Answer, applied: bool, H: string -> string): (System, Phase) {
    var n := t.node.id;
    var st := s.store;
    match t.phase
    case Fetched =>
      var (st1, ok) := BeginDeploy(st, n);
      if ok then (s.(store := st1), Guarded) else (s, Finished(false))
    case Guarded =>
      if !Capable(t.node.capabilities, t.options) then (s, Finishing(false, false))
      else if Redundant(st, t, H) then (s, Matched(Unchanged(st, t.node)))
      else (s, Approved)
    case Matched(sure) =>
      var h := History(st, n, 1);
      (s, Noted(if h == [] then 0 else h[0].version, sure))
    case Noted(version, sure) => (s.(store := Log(st, Note(t, version, Success, now, H))), Finishing(true, sure))
    case Approved =>
      var (st1, version) := StorePolicy(st, Policy(n, t.rules, H(t.rules), now, t.options));
      (s.(store := st1), Stored(version))
    case Stored(version) => (s.(store := SetState(st, n, Deploying)), Marked(version))
    case Marked(version) =>
      (s.(agents := Contacted(s.agents, n, t.rules, answer, applied)), Answered(version, answer))
    case Answered(version, a) =>
      (s.(store := SetState(st, n, if a == Accepted then Active else Error)), Settled(version, a))
    case Settled(version, a) => (s.(store := Log(st, Note(t, version, ResultOf(a), now, H))),
      Finishing(a == Accepted, true))
    case Finishing(success, _) => (s.(store := EndDeploy(st, n)), Finished(success))
    case Finished(_) => (s, t.phase)
  }

  ghost function Next(s: System, step: Step, H: string -> string): System {
    match step
    case RegisterStep(id, capabilities, now) =>
      if id in s.seen then s
      else s.(store := Register(s.store, Node(id, capabilities, Registered, now)), seen := s.seen + {id})
    case RemoveStep(id) => s.(store := RemoveNode(s.store, id))
    case HeartbeatStep(id, state, now) =>
      s.(store := Heartbeat(s.store, id, state, now), trusted := s.trusted && Harmless(s, step))
    case ReapStep(now, threshold) => s.(store := MarkStale(s.store, now, threshold))
    case FetchStep(task, id, rules, raw) =>
      if task in s.tasks || id !in s.store.nodes then s
      else s.(tasks := s.tasks[task := Task(s.store.nodes[id], rules, Normalize(raw), Fetched)])
    case TaskStep(task, now, answer, applied) =>
      if task !in s.tasks then s
      else
        var t := s.tasks[task];
        var (s1, phase) := Advance(s, t, now, answer, applied, H);
        s1.(tasks := s.tasks[task := t.(phase := phase)])
  }

  /** The agent of `n` runs exactly the rules of the stored current policy. */
  predicate Agrees(s: System, n: NodeId) {
    n in s.agents && n in s.store.policies && s.agents[n] == s.store.policies[n].rules
  }

  /** `n` may be in `state` while no deployer is at work. */
  predicate Firm(s: System, n: NodeId, state: NodeState) {
    state != Deploying && (state == Active ==> Agrees(s, n))
  }

  /** `n` may be in `state`: any, while a deployer has yet to settle a new policy. */
  ghost predicate Fits(s: System, n: NodeId, state: NodeState) {
    Firm(s, n, state) || exists task :: Settling(s, task, n)
  }

  /** A heartbeat of a registered node reports a state it may be in. */
  ghost predicate Harmless(s: System, step: Step) {
    step.HeartbeatStep? && step.id in s.store.nodes ==> Fits(s, step.id, step.state)
  }

  ghost function Run(s: System, steps: seq<Step>, H: string -> string): System
    decreases |steps|
  {
    if steps == [] then s else Run(Next(s, steps[0], H), steps[1..], H)
  }

  ghost predicate AllHarmless(s: System, steps: seq<Step>, H: string -> string)
    decreases |steps|
  {
    steps == [] || (Harmless(s, steps[0]) && AllHarmless(Next(s, steps[0], H), steps[1..], H))
  }

  // ----- the invariant -----

  predicate Holds(s: System, task: nat, n: NodeId) {
    task in s.tasks && s.tasks[task].node.id == n && InSection(s.tasks[task].phase)
  }

  /** The new policy is stored and the state that results from deploying it is still to be written. */
  predicate Unsettled(p: Phase) {
    p.Stored? || p.Marked? || p.Answered?
  }

  /** Meanwhile the node may say Active for the old policy. */
  predicate Settling(s: System, task: nat, n: NodeId) {
    Holds(s, task, n) && Unsettled(s.tasks[task].phase)
  }

  /** What a deployer in its section relies on, while its node is registered. */
  ghost predicate PhaseOk(s: System, t: Task, H: string -> string) {
    var n := t.node.id;
    match t.phase
    case Fetched | Guarded | Finished(_) => true
    case Matched(sure) => Served(s, t, sure, H)
    case Noted(version, sure) => Names(s.store, Note(t, version, Success, 0, H)) && Served(s, t, sure, H)
    case Finishing(success, sure) => success ==> Served(s, t, sure, H)
    case Approved => Capable(t.node.capabilities, t.options)
    case Stored(version) => OwnsCurrent(s, t, version, H)
    case Marked(version) => OwnsCurrent(s, t, version, H)
    case Answered(version, a) => OwnsCurrent(s, t, version, H) && (a == Accepted ==> Agrees(s, n))
    case Settled(version, a) => OwnsCurrent(s, t, version, H) && (a == Accepted ==> Agrees(s, n))
  }

  /** The stored current policy is the one asked for and, where that is sure, the agent runs it. */
  ghost predicate Served(s: System, t: Task, sure: bool, H: string -> string) {
    var n := t.node.id;
    && n in s.store.policies && PolicyMatches(s.store.policies[n], t.rules, H(t.rules), t.options)
    && (s.trusted && sure ==> Agrees(s, n))
  }

  /** The stored current policy is this deployer's. */
  ghost predicate OwnsCurrent(s: System, t: Task, version: nat, H: string -> string) {
    var n := t.node.id;
    && n in s.store.policies && PolicyMatches(s.store.policies[n], t.rules, H(t.rules), t.options)
    && version == |VersionsOf(s.store, n)|
  }

  ghost predicate TaskOk(s: System, t: Task, H: string -> string) {
    var n := t.node.id;
    && n in s.seen
    && Normalize(t.options) == t.options
    && (n in s.store.nodes ==>
          && t.node.capabilities == s.store.nodes[n].capabilities
          && (InSection(t.phase) ==> n in s.store.deploying && PhaseOk(s, t, H)))
  }

  /** If the node is Active, its agent runs the stored policy, or a deployer has yet to settle a new one. */
  ghost predicate StateOk(s: System, n: NodeId) {
    n in s.store.nodes ==> Fits(s, n, s.store.nodes[n].state)
  }

  ghost predicate NodeOk(s: System, n: NodeId) {
    n in s.store.nodes ==>
      && s.store.nodes[n].id == n && n in s.seen
      && (s.trusted ==> StateOk(s, n))
      && (n in s.store.deploying ==> exists task :: Holds(s, task, n))
  }

  /** At most one deployer of a registered node is in its section. */
  ghost predicate Exclusive(s: System) {
    forall a, b, n :: n in s.store.nodes && Holds(s, a, n) && Holds(s, b, n) ==> a == b
  }

  /** Nothing is kept under an id that was never registered. */
  ghost predicate SeenOk(s: System) {
    && s.store.nodes.Keys <= s.seen && s.store.versions.Keys <= s.seen && s.store.deploying <= s.seen
    && s.agents.Keys <= s.seen
    && forall d :: d in s.store.deployments ==> d.nodeId in s.seen
  }

  ghost predicate Inv(s: System, H: string -> string) {
    && StoreOk(s.store, H)
    && SeenOk(s)
    && Exclusive(s)
    && (forall n :: NodeOk(s, n))
    && (forall task :: task in s.tasks ==> TaskOk(s, s.tasks[task], H))
  }

  // ----- steps that concern one node -----

  /** `b` differs from `a` at node `n` only. */
  ghost predicate OnlyAt(a: System, b: System, n: NodeId) {
    && b.seen == a.seen && b.trusted == a.trusted && b.store.nodes.Keys == a.store.nodes.Keys
    && (forall m :: m in a.store.nodes ==> b.store.nodes[m] == a.store.nodes[m].(state := b.store.nodes[m].state))
    && forall m :: m != n ==> SameAt(a, b, m)
  }

  ghost predicate SameAt(a: System, b: System, m: NodeId) {
    && b.trusted == a.trusted
    && (m in a.store.nodes <==> m in b.store.nodes)
    && (m in a.store.nodes ==> a.store.nodes[m] == b.store.nodes[m])
    && GetPolicy(a.store, m) == GetPolicy(b.store, m)
    && VersionsOf(a.store, m) == VersionsOf(b.store, m)
    && (m in a.store.deploying <==> m in b.store.deploying)
    && (m in a.agents <==> m in b.agents)
    && (m in a.agents ==> a.agents[m] == b.agents[m])
  }

  lemma TaskElsewhere(a: System, b: System, t: Task, H: string -> string)
    requires TaskOk(a, t, H) && SameAt(a, b, t.node.id) && a.seen <= b.seen
    ensures TaskOk(b, t, H)
  {
    hide PolicyMatches, Capable, Normalize;
    assert GetPolicy(a.store, t.node.id) == GetPolicy(b.store, t.node.id);
  }

  lemma NodeElsewhere(a: System, b: System, m: NodeId)
    requires NodeOk(a, m) && SameAt(a, b, m) && a.seen <= b.seen
    requires forall u :: u in a.tasks && a.tasks[u].node.id == m ==> u in b.tasks && b.tasks[u] == a.tasks[u]
    ensures NodeOk(b, m)
  {
    if m in b.store.nodes {
      if b.trusted && !Firm(b, m, b.store.nodes[m].state) {
        assert GetPolicy(a.store, m) == GetPolicy(b.store, m);
        var u :| Settling(a, u, m);
        assert Settling(b, u, m);
      }
      if m in b.store.deploying {
        var u :| Holds(a, u, m);
        assert Holds(b, u, m);
      }
    }
  }

  /** One action of a deployer: it suffices to look at its own node and task. */
  lemma LocalStep(a: System, b: System, task: nat, H: string -> string)
    requires Inv(a, H) && task in a.tasks && task in b.tasks
    requires b.tasks == a.tasks[task := a.tasks[task].(phase := b.tasks[task].phase)]
    requires var n := a.tasks[task].node.id;
             && OnlyAt(a, b, n) && StoreOk(b.store, H) && SeenOk(b)
             && TaskOk(b, b.tasks[task], H) && NodeOk(b, n)
             && (Holds(a, task, n) || SameAt(a, b, n) || (n !in a.store.deploying && Holds(b, task, n)))
             && (Holds(b, task, n) && !Holds(a, task, n) ==> n !in a.store.deploying)
    ensures Inv(b, H)
  {
    var n := a.tasks[task].node.id;
    hide StoreOk, PhaseOk, Normalize, SeenOk;
    forall u | u in b.tasks ensures TaskOk(b, b.tasks[u], H) {
      if u != task {
        OtherTask(a, b, task, u, H);
      }
    }
    forall m ensures NodeOk(b, m) {
      if m != n {
        NodeElsewhere(a, b, m);
      }
    }
    LocalExclusive(a, b, task, H);
    hide TaskOk, NodeOk, Exclusive, OnlyAt, SameAt, Holds, SeenOk;
  }

  lemma OtherTask(a: System, b: System, task: nat, u: nat, H: string -> string)
    requires Inv(a, H) && task in a.tasks && u in a.tasks && u != task
    requires var n := a.tasks[task].node.id;
             && OnlyAt(a, b, n)
             && (Holds(a, task, n) || SameAt(a, b, n) || n !in a.store.deploying)
    ensures TaskOk(b, a.tasks[u], H)
  {
    hide StoreOk, PhaseOk, NodeOk, Normalize;
    var n := a.tasks[task].node.id;
    var t := a.tasks[u];
    assert TaskOk(a, t, H);
    assert t.node.id == n && InSection(t.phase) ==> Holds(a, u, n);
    if t.node.id != n || SameAt(a, b, n) {
      TaskElsewhere(a, b, t, H);
    }
  }

  lemma LocalExclusive(a: System, b: System, task: nat, H: string -> string)
    requires Exclusive(a) && task in a.tasks && (forall u :: u in a.tasks ==> TaskOk(a, a.tasks[u], H))
    requires task in b.tasks && b.tasks == a.tasks[task := a.tasks[task].(phase := b.tasks[task].phase)]
    requires b.store.nodes.Keys == a.store.nodes.Keys
    requires var n := a.tasks[task].node.id; Holds(b, task, n) && !Holds(a, task, n) ==> n !in a.store.deploying
    ensures Exclusive(b)
  {
    hide PhaseOk, Normalize;
    forall u, v, m | m in b.store.nodes && Holds(b, u, m) && Holds(b, v, m) ensures u == v {
      assert u != task ==> Holds(a, u, m) && TaskOk(a, a.tasks[u], H);
      assert v != task ==> Holds(a, v, m) && TaskOk(a, a.tasks[v], H);
    }
  }

  // ----- the actions of a deployer -----

  /** The parts of the invariant that concern one deployer. */
  lemma Parts(s: System, task: nat, H: string -> string)
    requires Inv(s, H) && task in s.tasks
    ensures StoreOk(s.store, H) && SeenOk(s) && TaskOk(s, s.tasks[task], H) && NodeOk(s, s.tasks[task].node.id)
  {
    hide StoreOk, SeenOk, Exclusive, TaskOk, NodeOk;
  }

  lemma SectionOk(s: System, t: Task, H: string -> string)
    requires TaskOk(s, t, H) && InSection(t.phase)
    ensures var n := t.node.id;
            && n in s.seen && Normalize(t.options) == t.options
            && (n in s.store.nodes ==>
                  t.node.capabilities == s.store.nodes[n].capabilities && n in s.store.deploying && PhaseOk(s, t, H))
  {
    hide Normalize, PhaseOk;
  }

  lemma PhaseFree(s: System, t: Task, H: string -> string)
    requires t.phase.Guarded? || (t.phase.Finishing? && !t.phase.success)
    ensures PhaseOk(s, t, H)
  {
  }

  predicate Owner(p: Phase) {
    p.Stored? || p.Marked? || p.Answered? || p.Settled?
  }

  function Reply(p: Phase): Option<Answer> {
    if p.Answered? || p.Settled? then Some(p.answer) else None
  }

  lemma OwnerPhase(s: System, t: Task, H: string -> string)
    requires Owner(t.phase)
    ensures PhaseOk(s, t, H) <==>
              OwnsCurrent(s, t, t.phase.version, H) && (Reply(t.phase) == Some(Accepted) ==> Agrees(s, t.node.id))
  {
    hide OwnsCurrent, Agrees;
  }

  lemma StoreVersions(s: Store, H: string -> string)
    requires StoreOk(s, H)
    ensures VersionsOk(s)
  {
    hide VersionsOk, RecordsOk, AllDeployable;
  }

  function WithPhase(s: System, task: nat, p: Phase): System
    requires task in s.tasks
  {
    s.(tasks := s.tasks[task := s.tasks[task].(phase := p)])
  }

  /** What one action of a deployer makes of the system. */
  function Acted(s: System, task: nat, now: Time, answer: Answer, applied: bool, H: string -> string): System
    requires task in s.tasks
  {
    var (s1, phase) := Advance(s, s.tasks[task], now, answer, applied, H);
    s1.(tasks := s.tasks[task := s.tasks[task].(phase := phase)])
  }

  /** Unless its section's deployer has yet to settle a new policy, an Active node's agent agrees. */
  lemma ActiveAgrees(s: System, task: nat, H: string -> string)
    requires Inv(s, H) && task in s.tasks && InSection(s.tasks[task].phase) && !Unsettled(s.tasks[task].phase)
    ensures var n := s.tasks[task].node.id;
            s.trusted && n in s.store.nodes ==> Firm(s, n, s.store.nodes[n].state)
  {
    hide StoreOk, SeenOk, TaskOk;
    var n := s.tasks[task].node.id;
    assert NodeOk(s, n);
    assert Holds(s, task, n);
  }

  /**
   * An action of a deployer that stays in its section: what is left to show is the store, the frame,
   * the next phase, and that an Active node's agent agrees unless a policy was just stored.
   */
  lemma InsideStep(a: System, b: System, task: nat, H: string -> string)
    requires Inv(a, H) && task in a.tasks && task in b.tasks
    requires b.tasks == a.tasks[task := a.tasks[task].(phase := b.tasks[task].phase)]
    requires InSection(a.tasks[task].phase) && InSection(b.tasks[task].phase)
    requires StoreOk(b.store, H) && SeenOk(b)
    requires OnlyAt(a, b, a.tasks[task].node.id) && b.store.deploying == a.store.deploying
    requires var n := a.tasks[task].node.id;
             n in b.store.nodes ==>
               && PhaseOk(b, b.tasks[task], H)
               && (b.trusted ==> Firm(b, n, b.store.nodes[n].state) || Unsettled(b.tasks[task].phase))
    ensures Inv(b, H)
  {
    var n := a.tasks[task].node.id;
    assert TaskOk(a, a.tasks[task], H) && NodeOk(a, n);
    hide StoreOk, SeenOk, PhaseOk, Normalize, SameAt;
    assert Holds(b, task, n) && Holds(a, task, n);
    assert TaskOk(b, b.tasks[task], H);
    assert NodeOk(b, n) by {
      if Unsettled(b.tasks[task].phase) {
        assert Settling(b, task, n);
      }
    }
    hide Inv, TaskOk, NodeOk, OnlyAt;
    LocalStep(a, b, task, H);
  }

  lemma StoreOnlyAt(a: System, b: System, n: NodeId, p: Policy)
    requires p.nodeId == n && b.store == StorePolicy(a.store, p).0 && b.agents == a.agents && b.seen == a.seen
    requires b.trusted == a.trusted
    ensures OnlyAt(a, b, n)
  {
    StorePolicyFrame(a.store, p);
    hide StorePolicy, VersionsOf, GetPolicy;
  }

  lemma StateOnlyAt(a: System, b: System, n: NodeId, state: NodeState)
    requires b.store == SetState(a.store, n, state) && b.agents == a.agents && b.seen == a.seen
             && b.trusted == a.trusted
    ensures OnlyAt(a, b, n)
  {
    SetStateFrame(a.store, n, state);
    SetStateElsewhere(a.store, n, state);
    hide SetState;
  }

  /** An action inside the section that touches neither store nor agent. */
  lemma QuietStep(s: System, task: nat, p: Phase, H: string -> string)
    requires Inv(s, H) && task in s.tasks && InSection(s.tasks[task].phase) && !Unsettled(s.tasks[task].phase)
    requires InSection(p)
    requires s.tasks[task].node.id in s.store.nodes ==> PhaseOk(WithPhase(s, task, p), s.tasks[task].(phase := p), H)
    ensures Inv(WithPhase(s, task, p), H)
  {
    ActiveAgrees(s, task, H);
    hide PhaseOk, StoreOk, Normalize;
    InsideStep(s, WithPhase(s, task, p), task, H);
  }

  lemma FetchedStep(s: System, task: nat, now: Time, answer: Answer, applied: bool, H: string -> string)
    requires Inv(s, H) && task in s.tasks && s.tasks[task].phase.Fetched?
    ensures Inv(Acted(s, task, now, answer, applied, H), H)
  {
    hide Inv, StoreOk, Normalize, PhaseOk, NodeOk, SeenOk;
    var n := s.tasks[task].node.id;
    var b := Acted(s, task, now, answer, applied, H);
    Parts(s, task, H);
    GuardFrame(s.store, b.store.deploying, H);
    FetchedSeen(s, b, n);
    if n in s.store.deploying {
      NodeElsewhereSame(s, b, task);
    } else {
      PhaseFree(b, b.tasks[task], H);
      StoredGuards(s, n, H);
      FetchedNode(s, b, task);
    }
    LocalStep(s, b, task, H);
  }

  lemma FetchedSeen(s: System, b: System, n: NodeId)
    requires SeenOk(s) && n in s.seen
    requires b.seen == s.seen && b.agents == s.agents && (b.store == s.store || b.store == BeginDeploy(s.store, n).0)
    ensures SeenOk(b)
  {
  }

  lemma FetchedNode(s: System, b: System, task: nat)
    requires task in s.tasks && NodeOk(s, s.tasks[task].node.id)
    requires forall u :: Settling(s, u, s.tasks[task].node.id) ==> s.tasks[task].node.id !in s.store.nodes
    requires b == WithPhase(s.(store := BeginDeploy(s.store, s.tasks[task].node.id).0), task, Guarded)
    ensures NodeOk(b, s.tasks[task].node.id)
  {
    assert Holds(b, task, s.tasks[task].node.id);
  }

  lemma StoredGuards(s: System, n: NodeId, H: string -> string)
    requires Inv(s, H)
    ensures forall u :: Settling(s, u, n) && n in s.store.nodes ==> n in s.store.deploying
  {
    hide StoreOk, SeenOk, PhaseOk, Normalize, NodeOk, Exclusive;
    forall u | Settling(s, u, n) && n in s.store.nodes ensures n in s.store.deploying {
      assert TaskOk(s, s.tasks[u], H);
    }
  }

  /** Giving up before the section changes no node. */
  lemma NodeElsewhereSame(s: System, b: System, task: nat)
    requires task in s.tasks && s.tasks[task].phase.Fetched? && NodeOk(s, s.tasks[task].node.id)
    requires b == WithPhase(s, task, Finished(false))
    ensures NodeOk(b, s.tasks[task].node.id)
  {
    var n := s.tasks[task].node.id;
    if n in s.store.nodes {
      if s.trusted && !Firm(s, n, s.store.nodes[n].state) {
        var u :| Settling(s, u, n);
        assert Settling(b, u, n);
      }
      if n in s.store.deploying {
        var u :| Holds(s, u, n);
        assert Holds(b, u, n);
      }
    }
  }

  lemma GuardedStep(s: System, task: nat, now: Time, answer: Answer, applied: bool, H: string -> string)
    requires Inv(s, H) && task in s.tasks && s.tasks[task].phase.Guarded?
    ensures Inv(Acted(s, task, now, answer, applied, H), H)
  {
    var p := Advance(s, s.tasks[task], now, answer, applied, H).1;
    ActiveAgrees(s, task, H);
    hide Inv;
    QuietStep(s, task, p, H);
    assert Acted(s, task, now, answer, applied, H) == WithPhase(s, task, p);
  }

  lemma MatchedIs(s: System, task: nat, now: Time, answer: Answer, applied: bool, H: string -> string)
    requires task in s.tasks && s.tasks[task].phase.Matched?
    ensures var t := s.tasks[task];
            var h := History(s.store, t.node.id, 1);
            Acted(s, task, now, answer, applied, H)
              == WithPhase(s, task, Noted(if h == [] then 0 else h[0].version, t.phase.sure))
  {
    hide History;
  }

  lemma NotedIs(s: System, task: nat, now: Time, answer: Answer, applied: bool, H: string -> string)
    requires task in s.tasks && s.tasks[task].phase.Noted?
    ensures var t := s.tasks[task];
            Acted(s, task, now, answer, applied, H)
            == WithPhase(s.(store := Log(s.store, Note(t, t.phase.version, Success, now, H))), task,
               Finishing(true, t.phase.sure))
  {
    hide Log;
  }

  lemma StoredIs(s: System, task: nat, now: Time, answer: Answer, applied: bool, H: string -> string)
    requires task in s.tasks && s.tasks[task].phase.Stored?
    ensures var t := s.tasks[task];
            Acted(s, task, now, answer, applied, H)
            == WithPhase(s.(store := SetState(s.store, t.node.id, Deploying)), task, Marked(t.phase.version))
  {
    hide SetState;
  }

  lemma SettledIs(s: System, task: nat, now: Time, answer: Answer, applied: bool, H: string -> string)
    requires task in s.tasks && s.tasks[task].phase.Settled?
    ensures var t := s.tasks[task];
            var a := t.phase.answer;
            Acted(s, task, now, answer, applied, H)
            == WithPhase(s.(store := Log(s.store, Note(t, t.phase.version, ResultOf(a), now, H))), task,
               Finishing(a == Accepted, true))
  {
    hide Log;
  }

  lemma FinishingIs(s: System, task: nat, now: Time, answer: Answer, applied: bool, H: string -> string)
    requires task in s.tasks && s.tasks[task].phase.Finishing?
    ensures var t := s.tasks[task];
            Acted(s, task, now, answer, applied, H)
            == WithPhase(s.(store := EndDeploy(s.store, t.node.id)), task, Finished(t.phase.success))
  {
    hide EndDeploy;
  }

  lemma MatchedStep(s: System, task: nat, now: Time, answer: Answer, applied: bool, H: string -> string)
    requires Inv(s, H) && task in s.tasks && s.tasks[task].phase.Matched?
    ensures Inv(Acted(s, task, now, answer, applied, H), H)
  {
    var t := s.tasks[task];
    hide Inv, History, PhaseOk, TaskOk, StoreOk, Normalize, SeenOk, NodeOk, VersionsOk, Acted;
    MatchedIs(s, task, now, answer, applied, H);
    var h := History(s.store, t.node.id, 1);
    var p := Noted(if h == [] then 0 else h[0].version, t.phase.sure);
    Parts(s, task, H);
    SectionOk(s, t, H);
    StoreVersions(s.store, H);
    if t.node.id in s.store.nodes {
      NotedOk(s, WithPhase(s, task, p), t, p, H);
    }
    QuietStep(s, task, p, H);
  }

  lemma NotedOk(s: System, b: System, t: Task, p: Phase, H: string -> string)
    requires t.phase.Matched? && PhaseOk(s, t, H) && VersionsOk(s.store)
    requires b.store == s.store && b.agents == s.agents && b.trusted == s.trusted
    requires var h := History(s.store, t.node.id, 1); p == Noted(if h == [] then 0 else h[0].version, t.phase.sure)
    ensures PhaseOk(b, t.(phase := p), H)
  {
    hide History, VersionsOf, VersionsOk, Names;
    NewestNamed(s.store, Note(t, p.version, Success, 0, H));
  }

  lemma LogKeeps(s: Store, d: Deployment, H: string -> string)
    requires StoreOk(s, H) && (d.nodeId in s.nodes ==> Names(s, d))
    ensures StoreOk(Log(s, d), H)
  {
    var s1 := Log(s, d);
    hide Deployable, Current;
    forall e | e in s1.deployments && e.nodeId in s1.nodes ensures Names(s1, e) {
      assert Names(s, e);
    }
    forall n | n in s1.nodes ensures EachDeployable(VersionsOf(s1, n), s1.nodes[n].capabilities, H) {
      assert EachDeployable(VersionsOf(s, n), s.nodes[n].capabilities, H);
    }
  }

  /** Writing the record ends the deployer's work; a record of a registered node names its version. */
  lemma RecordStep(s: System, task: nat, d: Deployment, success: bool, sure: bool, H: string -> string)
    requires Inv(s, H) && task in s.tasks && InSection(s.tasks[task].phase) && !Unsettled(s.tasks[task].phase)
    requires d.nodeId == s.tasks[task].node.id && (d.nodeId in s.store.nodes ==> Names(s.store, d))
    requires d.nodeId in s.store.nodes && success ==> Served(s, s.tasks[task], sure, H)
    ensures Inv(WithPhase(s.(store := Log(s.store, d)), task, Finishing(success, sure)), H)
  {
    hide Inv, StoreOk, Normalize, TaskOk, NodeOk, Names, PolicyMatches;
    var b := WithPhase(s.(store := Log(s.store, d)), task, Finishing(success, sure));
    Parts(s, task, H);
    SectionOk(s, s.tasks[task], H);
    LogKeeps(s.store, d, H);
    ActiveAgrees(s, task, H);
    InsideStep(s, b, task, H);
  }

  lemma NameOnly(s: Store, d: Deployment, at: Time)
    ensures Names(s, d) <==> Names(s, d.(deployedAt := at))
  {
  }

  lemma NotedStep(s: System, task: nat, now: Time, answer: Answer, applied: bool, H: string -> string)
    requires Inv(s, H) && task in s.tasks && s.tasks[task].phase.Noted?
    ensures Inv(Acted(s, task, now, answer, applied, H), H)
  {
    var t := s.tasks[task];
    hide Inv, StoreOk, SeenOk, TaskOk, NodeOk, Names, VersionsOf, History, Log, Normalize, Acted;
    NotedIs(s, task, now, answer, applied, H);
    Parts(s, task, H);
    SectionOk(s, t, H);
    NameOnly(s.store, Note(t, t.phase.version, Success, 0, H), now);
    RecordStep(s, task, Note(t, t.phase.version, Success, now, H), true, t.phase.sure, H);
  }

  lemma CurrentNamed(s: Store, d: Deployment, H: string -> string)
    requires StoreOk(s, H) && d.nodeId in s.policies
    requires d.version == |VersionsOf(s, d.nodeId)| && d.hash == s.policies[d.nodeId].hash
    ensures Names(s, d)
  {
    assert Current(s.versions[d.nodeId], s.policies[d.nodeId], d.nodeId);
  }

  lemma SettledStep(s: System, task: nat, now: Time, answer: Answer, applied: bool, H: string -> string)
    requires Inv(s, H) && task in s.tasks && s.tasks[task].phase.Settled?
    ensures Inv(Acted(s, task, now, answer, applied, H), H)
  {
    var t := s.tasks[task];
    var n := t.node.id;
    hide Inv, StoreOk, SeenOk, Normalize, TaskOk, NodeOk, Names, VersionsOf, Log, Acted;
    SettledIs(s, task, now, answer, applied, H);
    Parts(s, task, H);
    SectionOk(s, t, H);
    var d := Note(t, t.phase.version, ResultOf(t.phase.answer), now, H);
    if n in s.store.nodes {
      CurrentNamed(s.store, d, H);
    }
    RecordStep(s, task, d, t.phase.answer == Accepted, true, H);
  }

  lemma StorePolicyFrame(s: Store, p: Policy)
    ensures var (s1, version) := StorePolicy(s, p);
            && s1 == s.(versions := s1.versions, policies := s1.policies)
            && VersionsOf(s1, p.nodeId) == VersionsOf(s, p.nodeId) + [PolicyVersion(version, p)]
            && version == |VersionsOf(s1, p.nodeId)|
            && GetPolicy(s1, p.nodeId) == Some(p)
            && s1.versions.Keys == s.versions.Keys + {p.nodeId}
    ensures forall m :: m != p.nodeId ==>
              VersionsOf(StorePolicy(s, p).0, m) == VersionsOf(s, m)
                && GetPolicy(StorePolicy(s, p).0, m) == GetPolicy(s, m)
  {
  }

  lemma StorePolicyDeployable(s: Store, p: Policy, H: string -> string)
    requires AllDeployable(s, H) && (p.nodeId in s.nodes ==> Deployable(p, s.nodes[p.nodeId].capabilities, H))
    ensures AllDeployable(StorePolicy(s, p).0, H)
  {
    StorePolicyFrame(s, p);
    hide Deployable, StorePolicy, VersionsOf;
    var s1 := StorePolicy(s, p).0;
    forall n | n in s1.nodes ensures EachDeployable(VersionsOf(s1, n), s1.nodes[n].capabilities, H) {
      assert EachDeployable(VersionsOf(s, n), s.nodes[n].capabilities, H);
    }
  }

  lemma StorePolicyKeeps(s: Store, p: Policy, H: string -> string)
    requires StoreOk(s, H) && (p.nodeId in s.nodes ==> Deployable(p, s.nodes[p.nodeId].capabilities, H))
    ensures StoreOk(StorePolicy(s, p).0, H)
  {
    var s1 := StorePolicy(s, p).0;
    StoreKeepsVersions(s, p);
    StorePolicyDeployable(s, p, H);
    StorePolicyFrame(s, p);
    hide Deployable, VersionsOk, AllDeployable, StorePolicy, Names;
    forall d | d in s1.deployments && d.nodeId in s1.nodes ensures Names(s1, d) {
      StoreKeepsNames(s, p, d);
    }
  }

  lemma ApprovedIs(s: System, task: nat, now: Time, answer: Answer, applied: bool, H: string -> string)
    requires task in s.tasks && s.tasks[task].phase.Approved?
    ensures var t := s.tasks[task];
            var (st, version) := StorePolicy(s.store, Policy(t.node.id, t.rules, H(t.rules), now, t.options));
            Acted(s, task, now, answer, applied, H) == WithPhase(s.(store := st), task, Stored(version))
  {
    hide StorePolicy;
  }

  lemma ApprovedStep(s: System, task: nat, now: Time, answer: Answer, applied: bool, H: string -> string)
    requires Inv(s, H) && task in s.tasks && s.tasks[task].phase.Approved?
    ensures Inv(Acted(s, task, now, answer, applied, H), H)
  {
    var t := s.tasks[task];
    var n := t.node.id;
    var p := Policy(n, t.rules, H(t.rules), now, t.options);
    hide Inv, StoreOk, Normalize, Capable, StorePolicy, VersionsOf, GetPolicy, TaskOk, NodeOk, SeenOk, OwnsCurrent,
      OnlyAt, Acted, PhaseOk, Deployable, Agrees;
    ApprovedIs(s, task, now, answer, applied, H);
    Parts(s, task, H);
    SectionOk(s, t, H);
    ApprovedDeployable(s, t, p, H);
    StorePolicyKeeps(s.store, p, H);
    StorePolicyFrame(s.store, p);
    var (st, version) := StorePolicy(s.store, p);
    var b := WithPhase(s.(store := st), task, Stored(version));
    StoredOwns(b, b.tasks[task], p, version, H);
    StoreOnlyAt(s, b, n, p);
    StoredSeen(s, b, p);
    InsideStep(s, b, task, H);
  }

  lemma StoredSeen(s: System, b: System, p: Policy)
    requires SeenOk(s) && p.nodeId in s.seen && b.seen == s.seen && b.agents == s.agents
             && b.store == StorePolicy(s.store, p).0
    ensures SeenOk(b)
  {
  }

  lemma ApprovedDeployable(s: System, t: Task, p: Policy, H: string -> string)
    requires t.phase.Approved? && Normalize(t.options) == t.options
    requires p.hash == H(p.rules) && p.options == t.options
    ensures PhaseOk(s, t, H) ==> Deployable(p, t.node.capabilities, H)
  {
    hide Normalize, Capable;
  }

  lemma StoredOwns(s: System, t: Task, p: Policy, version: nat, H: string -> string)
    requires GetPolicy(s.store, t.node.id) == Some(p) && version == |VersionsOf(s.store, t.node.id)|
    requires p.rules == t.rules && p.hash == H(t.rules) && p.options == t.options
    requires t.phase == Stored(version)
    ensures PhaseOk(s, t, H)
  {
    hide VersionsOf;
  }

  /** Only node states changed. */
  ghost predicate StatesOnly(a: Store, b: Store) {
    && b == a.(nodes := b.nodes) && b.nodes.Keys == a.nodes.Keys
    && forall n :: n in a.nodes ==>
         b.nodes[n] == a.nodes[n].(state := b.nodes[n].state, lastHeartbeat := b.nodes[n].lastHeartbeat)
  }

  lemma StatesKeep(a: Store, b: Store, H: string -> string)
    requires StoreOk(a, H) && StatesOnly(a, b)
    ensures StoreOk(b, H)
  {
    hide Deployable, Current;
    forall d | d in b.deployments && d.nodeId in b.nodes ensures Names(b, d) {
      assert Names(a, d);
    }
    forall n | n in b.nodes ensures EachDeployable(VersionsOf(b, n), b.nodes[n].capabilities, H) {
      assert EachDeployable(VersionsOf(a, n), a.nodes[n].capabilities, H);
    }
  }

  /** A deployer writes its node's state; afterwards that is firm, or still to be settled. */
  lemma WriteStateStep(s: System, task: nat, state: NodeState, p: Phase, H: string -> string)
    requires Inv(s, H) && task in s.tasks && InSection(s.tasks[task].phase) && InSection(p)
    requires var b := WithPhase(s.(store := SetState(s.store, s.tasks[task].node.id, state)), task, p);
             var n := s.tasks[task].node.id;
             n in s.store.nodes ==>
               PhaseOk(b, b.tasks[task], H) && (Firm(b, n, b.store.nodes[n].state) || Unsettled(p))
    ensures Inv(WithPhase(s.(store := SetState(s.store, s.tasks[task].node.id, state)), task, p), H)
  {
    var n := s.tasks[task].node.id;
    var b := WithPhase(s.(store := SetState(s.store, n, state)), task, p);
    SetStateFrame(s.store, n, state);
    StateOnlyAt(s, b, n, state);
    hide SetState;
    StatesKeep(s.store, b.store, H);
    hide StoreOk, Normalize, PhaseOk, OnlyAt;
    InsideStep(s, b, task, H);
  }

  lemma SetStateElsewhere(s: Store, n: NodeId, state: NodeState)
    ensures forall m :: m in s.nodes && m != n ==> SetState(s, n, state).nodes[m] == s.nodes[m]
  {
  }

  lemma OwnsCurrentFrame(a: System, b: System, t: Task, p: Phase, version: nat, H: string -> string)
    requires OwnsCurrent(a, t, version, H)
    requires b.store.policies == a.store.policies && b.store.versions == a.store.versions
    ensures OwnsCurrent(b, t.(phase := p), version, H)
  {
    hide PolicyMatches;
  }

  /** The state written for an answer is firm. */
  lemma OutcomeFirm(s: System, b: System, n: NodeId, a: Answer)
    requires n in s.store.nodes && n in b.store.nodes && (a == Accepted ==> Agrees(s, n))
    requires b.store == SetState(s.store, n, if a == Accepted then Active else Error) && b.agents == s.agents
    ensures Firm(b, n, b.store.nodes[n].state)
  {
  }

  lemma StoredStep(s: System, task: nat, now: Time, answer: Answer, applied: bool, H: string -> string)
    requires Inv(s, H) && task in s.tasks && s.tasks[task].phase.Stored?
    ensures Inv(Acted(s, task, now, answer, applied, H), H)
  {
    var t := s.tasks[task];
    var n := t.node.id;
    var p := Marked(t.phase.version);
    hide Inv, StoreOk, SeenOk, NodeOk, Normalize, OwnsCurrent, SetState, TaskOk, Firm, PhaseOk, Acted;
    StoredIs(s, task, now, answer, applied, H);
    Parts(s, task, H);
    SectionOk(s, t, H);
    SetStateFrame(s.store, n, Deploying);
    var b := WithPhase(s.(store := SetState(s.store, n, Deploying)), task, p);
    OwnerPhase(s, t, H);
    OwnerPhase(b, b.tasks[task], H);
    if n in s.store.nodes {
      OwnsCurrentFrame(s, b, t, p, p.version, H);
    }
    WriteStateStep(s, task, Deploying, p, H);
  }

  lemma AnsweredIs(s: System, task: nat, now: Time, answer: Answer, applied: bool, H: string -> string)
    requires task in s.tasks && s.tasks[task].phase.Answered?
    ensures var t := s.tasks[task];
            var state := if t.phase.answer == Accepted then Active else Error;
            Acted(s, task, now, answer, applied, H)
            == WithPhase(s.(store := SetState(s.store, t.node.id, state)), task,
               Settled(t.phase.version, t.phase.answer))
  {
    hide SetState;
  }

  lemma AnsweredStep(s: System, task: nat, now: Time, answer: Answer, applied: bool, H: string -> string)
    requires Inv(s, H) && task in s.tasks && s.tasks[task].phase.Answered?
    ensures Inv(Acted(s, task, now, answer, applied, H), H)
  {
    var t := s.tasks[task];
    var n := t.node.id;
    var p := Settled(t.phase.version, t.phase.answer);
    var state := if t.phase.answer == Accepted then Active else Error;
    hide Inv, StoreOk, SeenOk, NodeOk, Normalize, OwnsCurrent, SetState, TaskOk, Acted, Firm, PhaseOk;
    AnsweredIs(s, task, now, answer, applied, H);
    Parts(s, task, H);
    SectionOk(s, t, H);
    SetStateFrame(s.store, n, state);
    var b := WithPhase(s.(store := SetState(s.store, n, state)), task, p);
    OwnerPhase(s, t, H);
    OwnerPhase(b, b.tasks[task], H);
    if n in s.store.nodes {
      OutcomeFirm(s, b, n, t.phase.answer);
      OwnsCurrentFrame(s, b, t, p, p.version, H);
    }
    WriteStateStep(s, task, state, p, H);
  }

  lemma MarkedIs(s: System, task: nat, now: Time, answer: Answer, applied: bool, H: string -> string)
    requires task in s.tasks && s.tasks[task].phase.Marked?
    ensures var t := s.tasks[task];
            Acted(s, task, now, answer, applied, H)
            == WithPhase(s.(agents := Contacted(s.agents, t.node.id, t.rules, answer, applied)), task,
               Answered(t.phase.version, answer))
  {
  }

  lemma MarkedStep(s: System, task: nat, now: Time, answer: Answer, applied: bool, H: string -> string)
    requires Inv(s, H) && task in s.tasks && s.tasks[task].phase.Marked?
    ensures Inv(Acted(s, task, now, answer, applied, H), H)
  {
    var t := s.tasks[task];
    var n := t.node.id;
    hide Inv, StoreOk, SeenOk, NodeOk, Normalize, OwnsCurrent, TaskOk, OnlyAt, Agrees, Acted, Contacted, Firm, PhaseOk;
    ContactedIs(s.agents, n, t.rules, answer, applied);
    var b := WithPhase(s.(agents := Contacted(s.agents, n, t.rules, answer, applied)), task,
      Answered(t.phase.version, answer));
    MarkedIs(s, task, now, answer, applied, H);
    Parts(s, task, H);
    SectionOk(s, t, H);
    OwnerPhase(s, t, H);
    OwnerPhase(b, b.tasks[task], H);
    AgentOnlyAt(s, b, n, t.rules);
    SameSeen(s, b);
    if n in s.store.nodes {
      OwnsCurrentFrame(s, b, t, b.tasks[task].phase, t.phase.version, H);
      if answer == Accepted {
        AgentRuns(s, b, t, t.phase.version, H);
      }
    }
    InsideStep(s, b, task, H);
  }

  lemma ContactedIs(agents: map<NodeId, string>, n: NodeId, rules: string, answer: Answer, applied: bool)
    ensures var c := Contacted(agents, n, rules, answer, applied);
            (c == agents || c == agents[n := rules]) && (answer == Accepted ==> c == agents[n := rules])
  {
  }

  lemma AgentOnlyAt(a: System, b: System, n: NodeId, rules: string)
    requires b.store == a.store && b.seen == a.seen && b.trusted == a.trusted
    requires b.agents == a.agents || b.agents == a.agents[n := rules]
    ensures OnlyAt(a, b, n)
  {
    hide VersionsOf, GetPolicy;
  }

  lemma SameSeen(a: System, b: System)
    requires SeenOk(a) && b.store == a.store && b.seen == a.seen
    requires b.agents == a.agents || b.agents.Keys <= b.seen
    ensures SeenOk(b)
  {
  }

  /** An agent that runs the request of the owner of the current policy agrees with the store. */
  lemma AgentRuns(s: System, b: System, t: Task, version: nat, H: string -> string)
    requires OwnsCurrent(s, t, version, H)
    requires b.store == s.store && b.agents == s.agents[t.node.id := t.rules]
    ensures Agrees(b, t.node.id)
  {
  }

  lemma FinishingStep(s: System, task: nat, now: Time, answer: Answer, applied: bool, H: string -> string)
    requires Inv(s, H) && task in s.tasks && s.tasks[task].phase.Finishing?
    ensures Inv(Acted(s, task, now, answer, applied, H), H)
  {
    var t := s.tasks[task];
    var n := t.node.id;
    hide Inv, StoreOk, Normalize, PhaseOk, SeenOk, NodeOk, TaskOk, Acted;
    var b := Acted(s, task, now, answer, applied, H);
    FinishingIs(s, task, now, answer, applied, H);
    Parts(s, task, H);
    ActiveAgrees(s, task, H);
    GuardFrame(s.store, b.store.deploying, H);
    assert Holds(s, task, n);
    ReleasedOk(s, b, task, H);
    LocalStep(s, b, task, H);
  }

  lemma ReleasedOk(s: System, b: System, task: nat, H: string -> string)
    requires task in s.tasks && s.tasks[task].phase.Finishing?
    requires SeenOk(s) && TaskOk(s, s.tasks[task], H) && NodeOk(s, s.tasks[task].node.id)
    requires var n := s.tasks[task].node.id;
             s.trusted && n in s.store.nodes ==> Firm(s, n, s.store.nodes[n].state)
    requires b == WithPhase(s.(store := EndDeploy(s.store, s.tasks[task].node.id)), task,
             Finished(s.tasks[task].phase.success))
    ensures SeenOk(b) && TaskOk(b, b.tasks[task], H) && NodeOk(b, s.tasks[task].node.id)
  {
    hide Normalize, PhaseOk;
  }

  lemma ActedKeeps(s: System, task: nat, now: Time, answer: Answer, applied: bool, H: string -> string)
    requires Inv(s, H) && task in s.tasks
    ensures Inv(Acted(s, task, now, answer, applied, H), H)
  {
    hide Inv, Acted;
    match s.tasks[task].phase
    case Fetched => FetchedStep(s, task, now, answer, applied, H);
    case Guarded => GuardedStep(s, task, now, answer, applied, H);
    case Matched(_) => MatchedStep(s, task, now, answer, applied, H);
    case Noted(_, _) => NotedStep(s, task, now, answer, applied, H);
    case Approved => ApprovedStep(s, task, now, answer, applied, H);
    case Stored(_) => StoredStep(s, task, now, answer, applied, H);
    case Marked(_) => MarkedStep(s, task, now, answer, applied, H);
    case Answered(_, _) => AnsweredStep(s, task, now, answer, applied, H);
    case Settled(_, _) => SettledStep(s, task, now, answer, applied, H);
    case Finishing(_, _) => FinishingStep(s, task, now, answer, applied, H);
    case Finished(_) => FinishedStep(s, task, now, answer, applied, H);
  }

  lemma FinishedStep(s: System, task: nat, now: Time, answer: Answer, applied: bool, H: string -> string)
    requires task in s.tasks && s.tasks[task].phase.Finished?
    ensures Acted(s, task, now, answer, applied, H) == s
  {
    assert s.tasks[task := s.tasks[task].(phase := s.tasks[task].phase)] == s.tasks;
  }

  // ----- the other steps -----

  ghost predicate OnlyStates(a: System, b: System) {
    b == a.(store := b.store, trusted := b.trusted) && (b.trusted ==> a.trusted) && StatesOnly(a.store, b.store)
  }

  /** Node states and heartbeats may change freely, but while the heartbeats are trusted only to what fits. */
  lemma StatesStep(a: System, b: System, H: string -> string)
    requires Inv(a, H) && OnlyStates(a, b)
    requires b.trusted ==> forall n :: n in a.store.nodes ==>
               b.store.nodes[n].state == a.store.nodes[n].state || Fits(a, n, b.store.nodes[n].state)
    ensures Inv(b, H)
  {
    hide StoreOk, TaskOk, NodeOk, StatesOnly, SeenOk, Exclusive;
    StatesKeep(a.store, b.store, H);
    forall n ensures NodeOk(b, n) {
      assert NodeOk(a, n);
      StatesNode(a, b, n);
    }
    forall u | u in b.tasks ensures TaskOk(b, b.tasks[u], H) {
      assert TaskOk(a, a.tasks[u], H);
      StatesTask(a, b, a.tasks[u], H);
    }
    StatesSeen(a, b);
    ExclusiveFrame(a, b);
  }

  /** No deployer has entered its section, and no node is new. */
  lemma ExclusiveFrame(a: System, b: System)
    requires Exclusive(a)
    requires forall u, n :: n in b.store.nodes && Holds(b, u, n) ==> n in a.store.nodes && Holds(a, u, n)
    ensures Exclusive(b)
  {
    hide Holds;
  }

  lemma StatesSeen(a: System, b: System)
    requires SeenOk(a) && OnlyStates(a, b)
    ensures SeenOk(b) && b.store.nodes.Keys == a.store.nodes.Keys
  {
  }

  lemma StatesTask(a: System, b: System, t: Task, H: string -> string)
    requires TaskOk(a, t, H) && OnlyStates(a, b)
    ensures TaskOk(b, t, H)
  {
    hide Normalize, Capable, PolicyMatches;
  }

  lemma StatesNode(a: System, b: System, n: NodeId)
    requires NodeOk(a, n) && OnlyStates(a, b)
    requires b.trusted && n in a.store.nodes ==>
               b.store.nodes[n].state == a.store.nodes[n].state || Fits(a, n, b.store.nodes[n].state)
    ensures NodeOk(b, n)
  {
    if n in b.store.nodes {
      if b.trusted && !Firm(b, n, b.store.nodes[n].state) {
        var u :| Settling(a, u, n);
        assert Settling(b, u, n);
      }
      if n in b.store.deploying {
        var u :| Holds(a, u, n);
        assert Holds(b, u, n);
      }
    }
  }

  lemma HeartbeatKeeps(s: System, step: Step, H: string -> string)
    requires Inv(s, H) && step.HeartbeatStep?
    ensures Inv(Next(s, step, H), H)
  {
    hide Inv;
    StatesStep(s, Next(s, step, H), H);
  }

  lemma ReapKeeps(s: System, step: Step, H: string -> string)
    requires Inv(s, H) && step.ReapStep?
    ensures Inv(Next(s, step, H), H)
  {
    hide Inv;
    StatesStep(s, Next(s, step, H), H);
  }

  lemma FetchKeeps(s: System, step: Step, H: string -> string)
    requires Inv(s, H) && step.FetchStep?
    ensures Inv(Next(s, step, H), H)
  {
    hide StoreOk, Normalize, SeenOk, NodeOk, TaskOk, Exclusive;
    var b := Next(s, step, H);
    if b != s {
      forall n ensures NodeOk(b, n) {
        assert NodeOk(s, n);
        NodeElsewhere(s, b, n);
      }
      forall u | u in b.tasks ensures TaskOk(b, b.tasks[u], H) {
        if u != step.task {
          TaskElsewhere(s, b, s.tasks[u], H);
        } else {
          assert NodeOk(s, step.id);
          FetchedTask(s, b, step, H);
        }
      }
      SameSeen(s, b);
      ExclusiveFrame(s, b);
    }
  }

  lemma FetchedTask(s: System, b: System, step: Step, H: string -> string)
    requires step.FetchStep? && b.store == s.store && b.seen == s.seen && NodeOk(s, step.id) && step.id in s.store.nodes
    ensures TaskOk(b, Task(s.store.nodes[step.id], step.rules, Normalize(step.raw), Fetched), H)
  {
    NormalizeTwice(step.raw);
    hide Normalize, PhaseOk;
  }

  lemma RegisterStore(s: System, id: NodeId, node: Node, H: string -> string)
    requires StoreOk(s.store, H) && SeenOk(s) && id !in s.seen && node.id == id
    ensures StoreOk(Register(s.store, node), H)
  {
    var b := Register(s.store, node);
    hide Deployable, Current;
    forall d | d in b.deployments && d.nodeId in b.nodes ensures Names(b, d) {
      assert Names(s.store, d);
    }
    forall n | n in b.nodes ensures EachDeployable(VersionsOf(b, n), b.nodes[n].capabilities, H) {
      if n != id {
        assert EachDeployable(VersionsOf(s.store, n), s.store.nodes[n].capabilities, H);
      }
    }
  }

  lemma RegisterKeeps(s: System, step: Step, H: string -> string)
    requires Inv(s, H) && step.RegisterStep?
    ensures Inv(Next(s, step, H), H)
  {
    hide StoreOk, SeenOk, NodeOk, TaskOk, Exclusive;
    var b := Next(s, step, H);
    if step.id !in s.seen {
      RegisterStore(s, step.id, Node(step.id, step.capabilities, Registered, step.now), H);
      forall n ensures NodeOk(b, n) {
        if n != step.id {
          assert NodeOk(s, n);
          NodeElsewhere(s, b, n);
        } else {
          RegisteredNode(s, b, step);
        }
      }
      forall u | u in b.tasks ensures TaskOk(b, b.tasks[u], H) && b.tasks[u].node.id in s.seen {
        TaskSeen(s, s.tasks[u], H);
        TaskElsewhere(s, b, s.tasks[u], H);
      }
      RegisteredSeen(s, b, step);
      ExclusiveFrame(s, b);
    }
  }

  lemma TaskSeen(s: System, t: Task, H: string -> string)
    requires TaskOk(s, t, H)
    ensures t.node.id in s.seen
  {
    hide Normalize, PhaseOk;
  }

  lemma RegisteredSeen(s: System, b: System, step: Step)
    requires SeenOk(s) && step.RegisterStep? && b.seen == s.seen + {step.id} && b.agents == s.agents
    requires b.store == Register(s.store, Node(step.id, step.capabilities, Registered, step.now))
    ensures SeenOk(b)
  {
  }

  lemma RegisteredNode(s: System, b: System, step: Step)
    requires SeenOk(s) && step.RegisterStep? && step.id !in s.seen && b.seen == s.seen + {step.id}
    requires b.store == Register(s.store, Node(step.id, step.capabilities, Registered, step.now))
    ensures NodeOk(b, step.id)
  {
  }

  lemma RemoveStore(s: Store, id: NodeId, H: string -> string)
    requires StoreOk(s, H)
    ensures StoreOk(RemoveNode(s, id), H)
  {
    var b := RemoveNode(s, id);
    hide Deployable, Current;
    forall d | d in b.deployments && d.nodeId in b.nodes ensures Names(b, d) {
      assert Names(s, d);
    }
    forall n | n in b.nodes ensures EachDeployable(VersionsOf(b, n), b.nodes[n].capabilities, H) {
      assert EachDeployable(VersionsOf(s, n), s.nodes[n].capabilities, H);
    }
  }

  lemma RemoveKeeps(s: System, step: Step, H: string -> string)
    requires Inv(s, H) && step.RemoveStep?
    ensures Inv(Next(s, step, H), H)
  {
    hide StoreOk, SeenOk, NodeOk, TaskOk, Exclusive;
    var b := Next(s, step, H);
    RemoveStore(s.store, step.id, H);
    forall n ensures NodeOk(b, n) {
      if n != step.id {
        assert NodeOk(s, n);
        NodeElsewhere(s, b, n);
      } else {
        RemovedNode(b, n);
      }
    }
    forall u | u in b.tasks ensures TaskOk(b, b.tasks[u], H) {
      if s.tasks[u].node.id != step.id {
        TaskElsewhere(s, b, s.tasks[u], H);
      } else {
        RemovedTask(s, b, s.tasks[u], H);
      }
    }
    RemovedSeen(s, b, step.id);
    ExclusiveFrame(s, b);
  }

  lemma RemovedNode(b: System, n: NodeId)
    requires n !in b.store.nodes
    ensures NodeOk(b, n)
  {
  }

  lemma RemovedTask(s: System, b: System, t: Task, H: string -> string)
    requires TaskOk(s, t, H) && b.seen == s.seen && t.node.id !in b.store.nodes
    ensures TaskOk(b, t, H)
  {
    hide Normalize, PhaseOk;
  }

  lemma RemovedSeen(s: System, b: System, n: NodeId)
    requires SeenOk(s) && b.seen == s.seen && b.agents == s.agents && b.store == RemoveNode(s.store, n)
    ensures SeenOk(b)
  {
  }

  lemma NextKeeps(s: System, step: Step, H: string -> string)
    requires Inv(s, H)
    ensures Inv(Next(s, step, H), H)
  {
    hide Inv;
    match step
    case RegisterStep(_, _, _) => RegisterKeeps(s, step, H);
    case RemoveStep(_) => RemoveKeeps(s, step, H);
    case HeartbeatStep(_, _, _) => HeartbeatKeeps(s, step, H);
    case ReapStep(_, _) => ReapKeeps(s, step, H);
    case FetchStep(_, _, _, _) => FetchKeeps(s, step, H);
    case TaskStep(task, now, answer, applied) =>
      if task in s.tasks {
        ActedKeeps(s, task, now, answer, applied, H);
        ActedIsNext(s, task, now, answer, applied, H);
      }
  }

  lemma ActedIsNext(s: System, task: nat, now: Time, answer: Answer, applied: bool, H: string -> string)
    requires task in s.tasks
    ensures Next(s, TaskStep(task, now, answer, applied), H) == Acted(s, task, now, answer, applied, H)
  {
    hide Advance;
  }

  lemma {:induction false} RunConcat(s: System, a: seq<Step>, b: seq<Step>, H: string -> string)
    ensures Run(s, a + b, H) == Run(Run(s, a, H), b, H)
    decreases |a|
  {
    hide Next;
    if a == [] {
      assert a + b == b;
    } else {
      assert (a + b)[1..] == a[1..] + b;
      RunConcat(Next(s, a[0], H), a[1..], b, H);
    }
  }

  lemma RunOne(s: System, step: Step, H: string -> string)
    ensures Run(s, [step], H) == Next(s, step, H)
  {
    hide Next;
    assert [step][1..] == [];
  }

  lemma {:induction false} RunKeeps(s: System, steps: seq<Step>, H: string -> string)
    requires Inv(s, H)
    ensures Inv(Run(s, steps, H), H)
    decreases |steps|
  {
    hide Inv, Next;
    if steps != [] {
      NextKeeps(s, steps[0], H);
      RunKeeps(Next(s, steps[0], H), steps[1..], H);
    }
  }

  lemma {:induction false} HarmlessTrusted(s: System, steps: seq<Step>, H: string -> string)
    requires s.trusted && AllHarmless(s, steps, H)
    ensures Run(s, steps, H).trusted
    decreases |steps|
  {
    if steps != [] {
      TaskTrust(s, steps[0], H);
      hide Harmless, Next;
      HarmlessTrusted(Next(s, steps[0], H), steps[1..], H);
    }
  }

  /** Trust is lost by a harmful heartbeat only. */
  lemma TaskTrust(s: System, step: Step, H: string -> string)
    ensures Next(s, step, H).trusted <==> s.trusted && Harmless(s, step)
  {
    hide Settling, Agrees, PolicyMatches, Capable;
  }

  lemma EmptyOk(H: string -> string)
    ensures Inv(EMPTY, H)
  {
  }

  // ----- results -----

  /**
   * In every interleaving of guarded deploys with registrations, removals, stale marking and harmless
   * heartbeats: a registered Active node whose guard is free has an agent running exactly the rules of
   * the stored current policy.
   */
  lemma HarmlessAgreement(steps: seq<Step>, H: string -> string, n: NodeId)
    requires AllHarmless(EMPTY, steps, H)
    requires var st := Run(EMPTY, steps, H).store;
             n in st.nodes && st.nodes[n].state == Active && n !in st.deploying
    ensures Agrees(Run(EMPTY, steps, H), n)
  {
    EmptyOk(H);
    RunKeeps(EMPTY, steps, H);
    HarmlessTrusted(EMPTY, steps, H);
    var s := Run(EMPTY, steps, H);
    hide Run, StoreOk, SeenOk, TaskOk, Exclusive;
    assert NodeOk(s, n);
    StoredGuards(s, n, H);
  }

  /**
   * Whatever heartbeats report, at most one deployer of a registered node is inside its section, and
   * there is one exactly while the guard is set.
   */
  lemma MutualExclusion(steps: seq<Step>, H: string -> string, n: NodeId)
    requires n in Run(EMPTY, steps, H).store.nodes
    ensures var s := Run(EMPTY, steps, H);
            && (forall a, b :: Holds(s, a, n) && Holds(s, b, n) ==> a == b)
            && (n in s.store.deploying <==> exists task :: Holds(s, task, n))
  {
    EmptyOk(H);
    RunKeeps(EMPTY, steps, H);
    var s := Run(EMPTY, steps, H);
    assert NodeOk(s, n);
    hide Run, StoreOk, SeenOk, PhaseOk, Normalize;
    forall task | Holds(s, task, n) ensures n in s.store.deploying {
      assert TaskOk(s, s.tasks[task], H);
    }
  }

  /**
   * On every reachable store: versions are numbered 1, 2, ..., the current policy is the last version,
   * records of registered nodes name a stored version with their hash, and every stored version of a
   * registered node is normalised and within the node's capabilities.
   */
  lemma StoreIntegrity(steps: seq<Step>, H: string -> string)
    ensures StoreOk(Run(EMPTY, steps, H).store, H)
  {
    EmptyOk(H);
    RunKeeps(EMPTY, steps, H);
  }

  /** This deployer was accepted and has not recorded that yet. */
  predicate WasAccepted(s: System, task: nat) {
    && task in s.tasks && s.tasks[task].node.id in s.store.nodes
    && s.tasks[task].phase.Settled? && s.tasks[task].phase.answer == Accepted
  }

  lemma AcceptedHere(s: System, task: nat, H: string -> string)
    requires Inv(s, H) && WasAccepted(s, task)
    ensures var t := s.tasks[task];
            && Agrees(s, t.node.id) && s.agents[t.node.id] == t.rules
            && PolicyMatches(s.store.policies[t.node.id], t.rules, H(t.rules), t.options)
  {
    hide StoreOk, NodeOk, Exclusive, SeenOk, Normalize, VersionsOf;
    assert TaskOk(s, s.tasks[task], H);
  }

  /**
   * When the deploy of a registered node was accepted, the agent runs its request, and that is the
   * stored current policy.
   */
  lemma AcceptedRuns(steps: seq<Step>, H: string -> string, task: nat)
    requires WasAccepted(Run(EMPTY, steps, H), task)
    ensures var s := Run(EMPTY, steps, H);
            var t := s.tasks[task];
            && Agrees(s, t.node.id) && s.agents[t.node.id] == t.rules
            && PolicyMatches(s.store.policies[t.node.id], t.rules, H(t.rules), t.options)
  {
    EmptyOk(H);
    RunKeeps(EMPTY, steps, H);
    hide Run, Inv;
    AcceptedHere(Run(EMPTY, steps, H), task, H);
  }

  /**
   * When a deployer under the guard finds its request redundant and the node still in the fetched state,
   * the agent runs the rules: the shortcut's success is true.
   */
  lemma UnchangedShortcut(steps: seq<Step>, H: string -> string, task: nat)
    requires AllHarmless(EMPTY, steps, H) && task in Run(EMPTY, steps, H).tasks
    requires var s := Run(EMPTY, steps, H);
             var t := s.tasks[task];
             t.phase.Guarded? && Redundant(s.store, t, H) && Unchanged(s.store, t.node)
    ensures var s := Run(EMPTY, steps, H);
            var t := s.tasks[task];
            t.node.id in s.agents && s.agents[t.node.id] == t.rules
  {
    EmptyOk(H);
    RunKeeps(EMPTY, steps, H);
    HarmlessTrusted(EMPTY, steps, H);
    hide Run, Inv, AllHarmless, Capable;
    UnchangedHere(Run(EMPTY, steps, H), task, H);
  }

  lemma UnchangedHere(s: System, task: nat, H: string -> string)
    requires Inv(s, H) && s.trusted && task in s.tasks
    requires var t := s.tasks[task]; t.phase.Guarded? && Redundant(s.store, t, H) && Unchanged(s.store, t.node)
    ensures var t := s.tasks[task]; t.node.id in s.agents && s.agents[t.node.id] == t.rules
  {
    hide Inv;
    ActiveAgrees(s, task, H);
  }

  /**
   * Over every run with harmless heartbeats, a deployer about to release the guard of a registered node
   * with a success leaves its request as the stored current policy; and the agent runs it if it was
   * accepted, or if the node was still in the fetched state when compared.
   */
  lemma SuccessTrue(steps: seq<Step>, H: string -> string, task: nat)
    requires AllHarmless(EMPTY, steps, H) && task in Run(EMPTY, steps, H).tasks
    requires var s := Run(EMPTY, steps, H);
             var t := s.tasks[task];
             t.phase.Finishing? && t.phase.success && t.node.id in s.store.nodes
    ensures var s := Run(EMPTY, steps, H);
            var t := s.tasks[task];
            var n := t.node.id;
            && n in s.store.policies && PolicyMatches(s.store.policies[n], t.rules, H(t.rules), t.options)
            && (t.phase.sure ==> n in s.agents && s.agents[n] == t.rules)
  {
    EmptyOk(H);
    RunKeeps(EMPTY, steps, H);
    HarmlessTrusted(EMPTY, steps, H);
    hide Run, Inv, AllHarmless, PolicyMatches;
    ServedHere(Run(EMPTY, steps, H), task, H);
  }

  lemma ServedHere(s: System, task: nat, H: string -> string)
    requires Inv(s, H) && task in s.tasks
    requires var t := s.tasks[task]; t.phase.Finishing? && t.phase.success && t.node.id in s.store.nodes
    ensures var t := s.tasks[task];
            var n := t.node.id;
            && n in s.store.policies && PolicyMatches(s.store.policies[n], t.rules, H(t.rules), t.options)
            && (s.trusted && t.phase.sure ==> n in s.agents && s.agents[n] == t.rules)
  {
    hide Inv, TaskOk, StoreOk, SeenOk, NodeOk, Normalize;
    Parts(s, task, H);
    SectionOk(s, s.tasks[task], H);
  }
}
