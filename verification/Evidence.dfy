/**
 * What the deployment records tell about the agents: the rules an agent may run, when a reported state or
 * success can be believed, and agreement under conditions that can be read from the store.
 */
module Evidence {
  import opened Core
  import opened Storage
  import opened Deploys
  import opened Protocol

  /** The result of the first record of version `v` of node `n`; later ones come from skipped redeploys. */
  function First(ds: seq<Deployment>, n: NodeId, v: nat): Option<DeploymentResult>
    decreases |ds|
  {
    if ds == [] then None
    else if ds[0].nodeId == n && ds[0].version == v then Some(ds[0].result)
    else First(ds[1..], n, v)
  }

  /** What an agent may run after a deploy of `rules` that came to `result`. */
  function After(before: set<Option<string>>, rules: string, result: Option<DeploymentResult>): set<Option<string>> {
    match result
    case Some(Success) => {Some(rules)}
    case Some(AgentFailure) => before
    case _ => before + {Some(rules)}
  }

  /** What the agent of `n` may run, by the records of the first `v` versions; `None` stands for no rules. */
  function Possible(vs: seq<PolicyVersion>, ds: seq<Deployment>, n: NodeId, v: nat): set<Option<string>>
    requires v <= |vs|
  {
    if v == 0 then {None} else After(Possible(vs, ds, n, v - 1), vs[v - 1].policy.rules, First(ds, n, v))
  }

  function Runs(s: System, n: NodeId): Option<string> {
    if n in s.agents then Some(s.agents[n]) else None
  }

  function Size(s: System, n: NodeId): nat {
    |VersionsOf(s.store, n)|
  }

  /** The first result of the current version. */
  function Latest(s: System, n: NodeId): Option<DeploymentResult> {
    First(s.store.deployments, n, Size(s, n))
  }

  function MayRun(s: System, n: NodeId, v: nat): set<Option<string>>
    requires v <= Size(s, n)
  {
    Possible(VersionsOf(s.store, n), s.store.deployments, n, v)
  }

  // ----- the invariant -----

  ghost predicate Recorded(s: System, n: NodeId, k: nat) {
    forall v | 1 <= v <= k :: First(s.store.deployments, n, v).Some?
  }

  /** Every version has its record, and the agent runs what they allow. */
  ghost predicate Done(s: System, n: NodeId) {
    Recorded(s, n, Size(s, n)) && Runs(s, n) in MayRun(s, n, Size(s, n))
  }

  /** The current version has no record yet; the agent has answered, if at all, with `reply`. */
  ghost predicate Owing(s: System, n: NodeId, reply: Option<Answer>) {
    var k := Size(s, n);
    && k > 0 && Recorded(s, n, k - 1) && Latest(s, n).None?
    && Runs(s, n) in if reply.None? then MayRun(s, n, k - 1)
                     else After(MayRun(s, n, k - 1), VersionsOf(s.store, n)[k - 1].policy.rules,
                       Some(ResultOf(reply.value)))
  }

  ghost predicate TaskEvidence(s: System, t: Task) {
    var n := t.node.id;
    n in s.store.nodes && InSection(t.phase) ==> if Owner(t.phase) then Owing(s, n, Reply(t.phase)) else Done(s, n)
  }

  ghost predicate NodeEvidence(s: System, n: NodeId) {
    n in s.store.nodes && n !in s.store.deploying ==> Done(s, n)
  }

  ghost predicate EvidenceOk(s: System) {
    && (forall n :: NodeEvidence(s, n))
    && (forall task :: task in s.tasks ==> TaskEvidence(s, s.tasks[task]))
  }

  // ----- records -----

  lemma {:induction false} FirstAppend(ds: seq<Deployment>, d: Deployment, n: NodeId, v: nat)
    ensures First(ds + [d], n, v)
            == if First(ds, n, v).Some? then First(ds, n, v)
               else if d.nodeId == n && d.version == v then Some(d.result) else None
    decreases |ds|
  {
    if ds == [] {
      assert ds + [d] == [d] && [d][1..] == [];
    } else {
      assert (ds + [d])[1..] == ds[1..] + [d];
      FirstAppend(ds[1..], d, n, v);
    }
  }

  lemma {:induction false} FirstAbsent(ds: seq<Deployment>, n: NodeId, v: nat)
    requires forall d :: d in ds && d.nodeId == n ==> d.version != v
    ensures First(ds, n, v).None?
    decreases |ds|
  {
    if ds != [] {
      assert ds[0] in ds;
      FirstAbsent(ds[1..], n, v);
    }
  }

  lemma {:induction false} PossibleFrame(
    vs: seq<PolicyVersion>, vs1: seq<PolicyVersion>, ds: seq<Deployment>, ds1: seq<Deployment>, n: NodeId, v: nat)
    requires v <= |vs| && v <= |vs1| && forall i :: 0 <= i < v ==> vs[i] == vs1[i]
    requires forall u | 1 <= u <= v :: First(ds, n, u) == First(ds1, n, u)
    ensures Possible(vs, ds, n, v) == Possible(vs1, ds1, n, v)
    decreases v
  {
    if v > 0 {
      PossibleFrame(vs, vs1, ds, ds1, n, v - 1);
    }
  }

  /** Versions and agent of `n` are the same, and so are the first records of its versions. */
  ghost predicate SameFacts(a: System, b: System, n: NodeId) {
    && VersionsOf(a.store, n) == VersionsOf(b.store, n) && Runs(a, n) == Runs(b, n)
    && forall v | 1 <= v <= Size(a, n) :: First(a.store.deployments, n, v) == First(b.store.deployments, n, v)
  }

  lemma FactsFrame(a: System, b: System, n: NodeId)
    requires SameFacts(a, b, n)
    ensures Done(a, n) ==> Done(b, n)
    ensures forall reply :: Owing(a, n, reply) ==> Owing(b, n, reply)
  {
    hide VersionsOf, Runs, First;
    var vs := VersionsOf(a.store, n);
    PossibleFrame(vs, vs, a.store.deployments, b.store.deployments, n, |vs|);
    if vs != [] {
      PossibleFrame(vs, vs, a.store.deployments, b.store.deployments, n, |vs| - 1);
    }
    hide Possible, After;
  }

  /** Nothing happened to what is known about any node but `n`. */
  ghost predicate Elsewhere(a: System, b: System, n: NodeId) {
    && b.store.nodes.Keys == a.store.nodes.Keys
    && forall m :: m != n ==> SameFacts(a, b, m) && (m in b.store.deploying <==> m in a.store.deploying)
  }

  lemma OtherEvidence(a: System, b: System, task: nat, u: nat, H: string -> string)
    requires Inv(a, H) && EvidenceOk(a) && task in a.tasks && u in a.tasks && u != task
    requires var n := a.tasks[task].node.id;
             Elsewhere(a, b, n) && (Holds(a, task, n) || n !in a.store.deploying || SameFacts(a, b, n))
    ensures TaskEvidence(b, a.tasks[u])
  {
    hide StoreOk, SeenOk, NodeOk, PhaseOk, Normalize, SameFacts, Owing, Done;
    var n, m := a.tasks[task].node.id, a.tasks[u].node.id;
    assert TaskOk(a, a.tasks[u], H) && TaskEvidence(a, a.tasks[u]);
    assert InSection(a.tasks[u].phase) ==> Holds(a, u, m);
    if m != n || SameFacts(a, b, n) {
      FactsFrame(a, b, m);
    }
  }

  /** One action of a deployer: it suffices to look at its own node and task. */
  lemma LocalEvidence(a: System, b: System, task: nat, H: string -> string)
    requires Inv(a, H) && EvidenceOk(a) && task in a.tasks && task in b.tasks
    requires b.tasks == a.tasks[task := a.tasks[task].(phase := b.tasks[task].phase)]
    requires var n := a.tasks[task].node.id;
             && Elsewhere(a, b, n) && (Holds(a, task, n) || n !in a.store.deploying || SameFacts(a, b, n))
             && TaskEvidence(b, b.tasks[task]) && NodeEvidence(b, n)
    ensures EvidenceOk(b)
  {
    hide Inv, TaskEvidence, Holds, SameFacts, Done;
    forall u | u in b.tasks ensures TaskEvidence(b, b.tasks[u]) {
      if u != task {
        OtherEvidence(a, b, task, u, H);
      }
    }
    forall m ensures NodeEvidence(b, m) {
      if m != a.tasks[task].node.id {
        assert NodeEvidence(a, m);
        FactsFrame(a, b, m);
      }
    }
  }

  // ----- the actions of a deployer -----

  lemma QuietFacts(a: System, b: System)
    requires b.store.versions == a.store.versions && b.store.deployments == a.store.deployments && b.agents == a.agents
    ensures forall n :: SameFacts(a, b, n)
  {
  }

  /** What is known where a deployer stands in its section. */
  lemma Here(s: System, task: nat, H: string -> string)
    requires Inv(s, H) && EvidenceOk(s) && task in s.tasks && InSection(s.tasks[task].phase)
    ensures var t := s.tasks[task];
            && Holds(s, task, t.node.id)
            && (t.node.id in s.store.nodes ==>
                  && t.node.id in s.store.deploying && PhaseOk(s, t, H) && StoreOk(s.store, H)
                  && if Owner(t.phase) then Owing(s, t.node.id, Reply(t.phase)) else Done(s, t.node.id))
  {
    hide Inv, StoreOk, SeenOk, NodeOk, TaskOk, PhaseOk, Owing, Done, Normalize;
    Parts(s, task, H);
    SectionOk(s, s.tasks[task], H);
    assert TaskEvidence(s, s.tasks[task]);
  }

  /** An action that touches no version, record or agent, inside the section and with the same duties. */
  lemma QuietEvidence(a: System, b: System, task: nat, H: string -> string)
    requires Inv(a, H) && EvidenceOk(a) && task in a.tasks && task in b.tasks
    requires b.tasks == a.tasks[task := a.tasks[task].(phase := b.tasks[task].phase)]
    requires b.store.versions == a.store.versions && b.store.deployments == a.store.deployments && b.agents == a.agents
    requires b.store.nodes.Keys == a.store.nodes.Keys && b.store.deploying == a.store.deploying
    requires InSection(a.tasks[task].phase) && InSection(b.tasks[task].phase)
    requires Owner(a.tasks[task].phase) <==> Owner(b.tasks[task].phase)
    requires Reply(a.tasks[task].phase) == Reply(b.tasks[task].phase)
    ensures EvidenceOk(b)
  {
    hide Inv, PhaseOk, StoreOk, Owing, Done, SameFacts;
    Here(a, task, H);
    QuietFacts(a, b);
    FactsFrame(a, b, a.tasks[task].node.id);
    LocalEvidence(a, b, task, H);
  }

  lemma EnterEvidence(s: System, task: nat, now: Time, answer: Answer, applied: bool, H: string -> string)
    requires Inv(s, H) && EvidenceOk(s) && task in s.tasks && s.tasks[task].phase.Fetched?
    ensures EvidenceOk(Acted(s, task, now, answer, applied, H))
  {
    hide Inv, Done, SameFacts;
    var n := s.tasks[task].node.id;
    var b := Acted(s, task, now, answer, applied, H);
    QuietFacts(s, b);
    FactsFrame(s, b, n);
    assert NodeEvidence(s, n);
    LocalEvidence(s, b, task, H);
  }

  lemma ReleaseEvidence(s: System, task: nat, now: Time, answer: Answer, applied: bool, H: string -> string)
    requires Inv(s, H) && EvidenceOk(s) && task in s.tasks && s.tasks[task].phase.Finishing?
    ensures EvidenceOk(Acted(s, task, now, answer, applied, H))
  {
    hide Inv, Done, SameFacts, Acted, PhaseOk, StoreOk;
    var b := Acted(s, task, now, answer, applied, H);
    FinishingIs(s, task, now, answer, applied, H);
    Here(s, task, H);
    QuietFacts(s, b);
    FactsFrame(s, b, s.tasks[task].node.id);
    LocalEvidence(s, b, task, H);
  }

  lemma LogElsewhere(a: System, b: System, d: Deployment)
    requires b.store == Log(a.store, d) && b.agents == a.agents
    ensures Elsewhere(a, b, d.nodeId)
  {
    forall m, v: nat | m != d.nodeId ensures First(a.store.deployments, m, v) == First(b.store.deployments, m, v) {
      FirstAppend(a.store.deployments, d, m, v);
    }
  }

  /** Once every version has its record, another one tells nothing new. */
  lemma LogDone(a: System, b: System, d: Deployment)
    requires b.store == Log(a.store, d) && b.agents == a.agents && Done(a, d.nodeId)
    ensures Done(b, d.nodeId)
  {
    forall v: nat ensures First(a.store.deployments, d.nodeId, v).Some?
                          ==> First(b.store.deployments, d.nodeId, v) == First(a.store.deployments, d.nodeId, v) {
      FirstAppend(a.store.deployments, d, d.nodeId, v);
    }
    assert SameFacts(a, b, d.nodeId);
    FactsFrame(a, b, d.nodeId);
  }

  /** The record that was owed settles what the agent may run. */
  lemma LogOwed(a: System, b: System, d: Deployment, reply: Answer)
    requires b.store == Log(a.store, d) && b.agents == a.agents && Owing(a, d.nodeId, Some(reply))
    requires d.version == Size(a, d.nodeId) && d.result == ResultOf(reply)
    ensures Done(b, d.nodeId)
  {
    var n, k := d.nodeId, Size(a, d.nodeId);
    forall v: nat ensures First(b.store.deployments, n, v)
                          == if First(a.store.deployments, n, v).Some? then First(a.store.deployments, n, v)
                             else if v == k then Some(d.result) else None {
      FirstAppend(a.store.deployments, d, n, v);
    }
    hide First, Log;
    assert b.store.deployments == a.store.deployments + [d]
      && b.store.versions == a.store.versions by { LogIs(a.store, d); }
    var vs := VersionsOf(a.store, n);
    assert VersionsOf(b.store, n) == vs;
    PossibleFrame(vs, vs, a.store.deployments, b.store.deployments, n, k - 1);
  }

  lemma LogIs(s: Store, d: Deployment)
    ensures Log(s, d).deployments == s.deployments + [d] && Log(s, d).versions == s.versions
  {
  }

  lemma NotedEvidence(s: System, task: nat, now: Time, answer: Answer, applied: bool, H: string -> string)
    requires Inv(s, H) && EvidenceOk(s) && task in s.tasks && s.tasks[task].phase.Noted?
    ensures EvidenceOk(Acted(s, task, now, answer, applied, H))
  {
    hide Inv, Done, Acted, PhaseOk, StoreOk, Log, Elsewhere;
    var t := s.tasks[task];
    var d := Note(t, t.phase.version, Success, now, H);
    var b := Acted(s, task, now, answer, applied, H);
    NotedIs(s, task, now, answer, applied, H);
    Here(s, task, H);
    LogFrame(s.store, d);
    LogElsewhere(s, b, d);
    if t.node.id in s.store.nodes {
      LogDone(s, b, d);
    }
    LocalEvidence(s, b, task, H);
  }

  lemma LogFrame(s: Store, d: Deployment)
    ensures Log(s, d).nodes == s.nodes && Log(s, d).deploying == s.deploying
  {
  }

  lemma SettledEvidence(s: System, task: nat, now: Time, answer: Answer, applied: bool, H: string -> string)
    requires Inv(s, H) && EvidenceOk(s) && task in s.tasks && s.tasks[task].phase.Settled?
    ensures EvidenceOk(Acted(s, task, now, answer, applied, H))
  {
    hide Inv, Done, Owing, Acted, PhaseOk, StoreOk, Log, Elsewhere, VersionsOf;
    var t := s.tasks[task];
    var d := Note(t, t.phase.version, ResultOf(t.phase.answer), now, H);
    var b := Acted(s, task, now, answer, applied, H);
    SettledIs(s, task, now, answer, applied, H);
    Here(s, task, H);
    OwnerPhase(s, t, H);
    LogFrame(s.store, d);
    LogElsewhere(s, b, d);
    if t.node.id in s.store.nodes {
      LogOwed(s, b, d, t.phase.answer);
    }
    LocalEvidence(s, b, task, H);
  }

  /** A version just stored has no record. */
  lemma StoreOwes(a: System, b: System, p: Policy)
    requires RecordsOk(a.store) && p.nodeId in a.store.nodes && Done(a, p.nodeId)
    requires b.store == StorePolicy(a.store, p).0 && b.agents == a.agents
    ensures Owing(b, p.nodeId, None)
  {
    var n := p.nodeId;
    var vs := VersionsOf(a.store, n);
    StorePolicyFrame(a.store, p);
    forall d | d in a.store.deployments && d.nodeId == n ensures d.version != |vs| + 1 {
      assert Names(a.store, d);
    }
    FirstAbsent(a.store.deployments, n, |vs| + 1);
    hide First, StorePolicy, RecordsOk;
    PossibleFrame(vs, VersionsOf(b.store, n), a.store.deployments, b.store.deployments, n, |vs|);
  }

  lemma StoreElsewhere(a: System, b: System, p: Policy)
    requires b.store == StorePolicy(a.store, p).0 && b.agents == a.agents
    ensures Elsewhere(a, b, p.nodeId)
  {
    StorePolicyFrame(a.store, p);
    hide StorePolicy, VersionsOf;
  }

  lemma StoreRecords(s: Store, H: string -> string)
    requires StoreOk(s, H)
    ensures RecordsOk(s)
  {
    hide VersionsOk, RecordsOk, AllDeployable;
  }

  lemma ApprovedEvidence(s: System, task: nat, now: Time, answer: Answer, applied: bool, H: string -> string)
    requires Inv(s, H) && EvidenceOk(s) && task in s.tasks && s.tasks[task].phase.Approved?
    ensures EvidenceOk(Acted(s, task, now, answer, applied, H))
  {
    hide Inv, Done, Owing, Acted, PhaseOk, StoreOk, RecordsOk, StorePolicy, Elsewhere;
    var t := s.tasks[task];
    var p := Policy(t.node.id, t.rules, H(t.rules), now, t.options);
    var b := Acted(s, task, now, answer, applied, H);
    ApprovedIs(s, task, now, answer, applied, H);
    Here(s, task, H);
    StorePolicyFrame(s.store, p);
    StoreElsewhere(s, b, p);
    if t.node.id in s.store.nodes {
      StoreRecords(s.store, H);
      StoreOwes(s, b, p);
    }
    LocalEvidence(s, b, task, H);
  }

  /** The agent's answer, and what it runs then. */
  lemma ContactOwes(a: System, b: System, t: Task, answer: Answer, applied: bool, H: string -> string)
    requires Owing(a, t.node.id, None) && VersionsOk(a.store) && OwnsCurrent(a, t, Size(a, t.node.id), H)
    requires b.store == a.store && b.agents == Contacted(a.agents, t.node.id, t.rules, answer, applied)
    ensures Owing(b, t.node.id, Some(answer))
  {
    hide First, Possible, Capable, Normalize;
    var n := t.node.id;
    assert Current(a.store.versions[n], a.store.policies[n], n);
  }

  lemma ContactElsewhere(a: System, b: System, n: NodeId, rules: string)
    requires b.store == a.store && (b.agents == a.agents || b.agents == a.agents[n := rules])
    ensures Elsewhere(a, b, n)
  {
    hide VersionsOf;
  }

  lemma MarkedEvidence(s: System, task: nat, now: Time, answer: Answer, applied: bool, H: string -> string)
    requires Inv(s, H) && EvidenceOk(s) && task in s.tasks && s.tasks[task].phase.Marked?
    ensures EvidenceOk(Acted(s, task, now, answer, applied, H))
  {
    hide Inv, Done, Owing, Acted, PhaseOk, StoreOk, VersionsOk, Contacted, Elsewhere;
    var t := s.tasks[task];
    var b := Acted(s, task, now, answer, applied, H);
    MarkedIs(s, task, now, answer, applied, H);
    ContactedIs(s.agents, t.node.id, t.rules, answer, applied);
    Here(s, task, H);
    OwnerPhase(s, t, H);
    ContactElsewhere(s, b, t.node.id, t.rules);
    if t.node.id in s.store.nodes {
      StoreVersions(s.store, H);
      ContactOwes(s, b, t, answer, applied, H);
    }
    LocalEvidence(s, b, task, H);
  }

  lemma StateEvidence(s: System, task: nat, state: NodeState, p: Phase, H: string -> string)
    requires Inv(s, H) && EvidenceOk(s) && task in s.tasks && InSection(s.tasks[task].phase) && InSection(p)
    requires (Owner(s.tasks[task].phase) <==> Owner(p)) && Reply(s.tasks[task].phase) == Reply(p)
    ensures EvidenceOk(WithPhase(s.(store := SetState(s.store, s.tasks[task].node.id, state)), task, p))
  {
    hide Inv, EvidenceOk, SetState;
    SetStateFrame(s.store, s.tasks[task].node.id, state);
    QuietEvidence(s, WithPhase(s.(store := SetState(s.store, s.tasks[task].node.id, state)), task, p), task, H);
  }

  lemma PhaseEvidence(s: System, task: nat, p: Phase, H: string -> string)
    requires Inv(s, H) && EvidenceOk(s) && task in s.tasks && InSection(s.tasks[task].phase) && InSection(p)
    requires !Owner(s.tasks[task].phase) && !Owner(p)
    ensures EvidenceOk(WithPhase(s, task, p))
  {
    hide Inv, EvidenceOk;
    QuietEvidence(s, WithPhase(s, task, p), task, H);
  }

  lemma GuardedIs(s: System, task: nat, now: Time, answer: Answer, applied: bool, H: string -> string)
    requires task in s.tasks && s.tasks[task].phase.Guarded?
    ensures var p := Acted(s, task, now, answer, applied, H).tasks[task].phase;
            InSection(p) && !Owner(p) && Acted(s, task, now, answer, applied, H) == WithPhase(s, task, p)
  {
    hide Capable, Redundant;
  }

  lemma ActedEvidence(s: System, task: nat, now: Time, answer: Answer, applied: bool, H: string -> string)
    requires Inv(s, H) && EvidenceOk(s) && task in s.tasks
    ensures EvidenceOk(Acted(s, task, now, answer, applied, H))
  {
    hide Inv, EvidenceOk, Acted;
    var t := s.tasks[task];
    match t.phase
    case Fetched => EnterEvidence(s, task, now, answer, applied, H);
    case Guarded =>
      GuardedIs(s, task, now, answer, applied, H);
      PhaseEvidence(s, task, Acted(s, task, now, answer, applied, H).tasks[task].phase, H);
    case Matched(sure) =>
      MatchedIs(s, task, now, answer, applied, H);
      var h := History(s.store, t.node.id, 1);
      PhaseEvidence(s, task, Noted(if h == [] then 0 else h[0].version, sure), H);
    case Noted(_, _) => NotedEvidence(s, task, now, answer, applied, H);
    case Approved => ApprovedEvidence(s, task, now, answer, applied, H);
    case Stored(version) =>
      StoredIs(s, task, now, answer, applied, H);
      StateEvidence(s, task, Deploying, Marked(version), H);
    case Marked(_) => MarkedEvidence(s, task, now, answer, applied, H);
    case Answered(version, a) =>
      AnsweredIs(s, task, now, answer, applied, H);
      StateEvidence(s, task, if a == Accepted then Active else Error, Settled(version, a), H);
    case Settled(_, _) => SettledEvidence(s, task, now, answer, applied, H);
    case Finishing(_, _) => ReleaseEvidence(s, task, now, answer, applied, H);
    case Finished(_) => FinishedStep(s, task, now, answer, applied, H);
  }

  // ----- the other steps -----

  /** No deployer moved, and nothing happened to what is known about the nodes that are still there. */
  lemma EvidenceFrame(a: System, b: System)
    requires EvidenceOk(a)
    requires forall n :: n in b.store.nodes ==>
               NodeEvidence(b, n)
                 || (n in a.store.nodes && SameFacts(a, b, n) && (n in a.store.deploying <==> n in b.store.deploying))
    requires forall u :: u in b.tasks ==>
               || !InSection(b.tasks[u].phase)
               || (u in a.tasks && b.tasks[u] == a.tasks[u]
                   && (b.tasks[u].node.id in b.store.nodes ==>
                         b.tasks[u].node.id in a.store.nodes && SameFacts(a, b, b.tasks[u].node.id)))
    ensures EvidenceOk(b)
  {
    hide SameFacts, Done, Owing;
    forall n ensures NodeEvidence(b, n) {
      if n in b.store.nodes && !NodeEvidence(b, n) {
        assert NodeEvidence(a, n);
        FactsFrame(a, b, n);
      }
    }
    forall u | u in b.tasks ensures TaskEvidence(b, b.tasks[u]) {
      var n := b.tasks[u].node.id;
      if n in b.store.nodes && InSection(b.tasks[u].phase) {
        assert TaskEvidence(a, a.tasks[u]);
        FactsFrame(a, b, n);
      }
    }
  }

  /** A node just registered has no versions, and its agent no rules. */
  lemma NewEvidence(a: System, b: System, id: NodeId)
    requires SeenOk(a) && id !in a.seen && b.store.versions == a.store.versions && b.agents == a.agents
    ensures NodeEvidence(b, id)
  {
  }

  lemma TasksSeen(s: System, H: string -> string)
    requires Inv(s, H)
    ensures forall u :: u in s.tasks ==> s.tasks[u].node.id in s.seen
  {
    hide StoreOk, SeenOk, NodeOk, Exclusive, TaskOk;
    forall u | u in s.tasks ensures s.tasks[u].node.id in s.seen {
      TaskSeen(s, s.tasks[u], H);
    }
  }

  lemma InvSeen(s: System, H: string -> string)
    requires Inv(s, H)
    ensures SeenOk(s)
  {
    hide StoreOk, SeenOk, NodeOk, Exclusive, TaskOk;
  }

  lemma RegisterEvidence(s: System, step: Step, H: string -> string)
    requires Inv(s, H) && EvidenceOk(s) && step.RegisterStep?
    ensures EvidenceOk(Next(s, step, H))
  {
    hide Inv, EvidenceOk, SameFacts, SeenOk, NodeEvidence;
    var b := Next(s, step, H);
    InvSeen(s, H);
    TasksSeen(s, H);
    QuietFacts(s, b);
    if step.id !in s.seen {
      NewEvidence(s, b, step.id);
      EvidenceFrame(s, b);
    }
  }

  lemma RemoveEvidence(s: System, step: Step, H: string -> string)
    requires EvidenceOk(s) && step.RemoveStep?
    ensures EvidenceOk(Next(s, step, H))
  {
    var b := Next(s, step, H);
    forall n | n != step.id ensures SameFacts(s, b, n) {
    }
    hide EvidenceOk, SameFacts, NodeEvidence;
    EvidenceFrame(s, b);
  }

  lemma OtherStepEvidence(s: System, step: Step, H: string -> string)
    requires EvidenceOk(s) && (step.HeartbeatStep? || step.ReapStep? || step.FetchStep?)
    ensures EvidenceOk(Next(s, step, H))
  {
    hide EvidenceOk, SameFacts, NodeEvidence, Harmless, Normalize;
    var b := Next(s, step, H);
    QuietFacts(s, b);
    EvidenceFrame(s, b);
  }

  lemma NextEvidence(s: System, step: Step, H: string -> string)
    requires Inv(s, H) && EvidenceOk(s)
    ensures EvidenceOk(Next(s, step, H))
  {
    hide Inv, EvidenceOk, Acted;
    match step
    case RegisterStep(_, _, _) => RegisterEvidence(s, step, H);
    case RemoveStep(_) => RemoveEvidence(s, step, H);
    case HeartbeatStep(_, _, _) => OtherStepEvidence(s, step, H);
    case ReapStep(_, _) => OtherStepEvidence(s, step, H);
    case FetchStep(_, _, _, _) => OtherStepEvidence(s, step, H);
    case TaskStep(task, now, answer, applied) =>
      if task in s.tasks {
        ActedEvidence(s, task, now, answer, applied, H);
        ActedIsNext(s, task, now, answer, applied, H);
      }
  }

  lemma {:induction false} RunEvidence(s: System, steps: seq<Step>, H: string -> string)
    requires Inv(s, H) && EvidenceOk(s)
    ensures EvidenceOk(Run(s, steps, H))
    decreases |steps|
  {
    hide Inv, EvidenceOk, Next;
    if steps != [] {
      NextKeeps(s, steps[0], H);
      NextEvidence(s, steps[0], H);
      RunEvidence(Next(s, steps[0], H), steps[1..], H);
    }
  }

  lemma EmptyEvidence()
    ensures EvidenceOk(EMPTY)
  {
  }

  lemma Reached(steps: seq<Step>, H: string -> string)
    ensures Inv(Run(EMPTY, steps, H), H) && EvidenceOk(Run(EMPTY, steps, H))
  {
    EmptyOk(H);
    EmptyEvidence();
    hide Inv, EvidenceOk, Run;
    RunKeeps(EMPTY, steps, H);
    RunEvidence(EMPTY, steps, H);
  }

  // ----- what the records tell -----

  /**
   * With the current version recorded, or none stored, every deployer at work has its record written or
   * is yet to store.
   */
  lemma DoneIfRecorded(s: System, n: NodeId, H: string -> string)
    requires Inv(s, H) && EvidenceOk(s) && n in s.store.nodes && (Size(s, n) > 0 ==> Latest(s, n).Some?)
    ensures Done(s, n)
  {
    hide StoreOk, SeenOk, TaskOk, Exclusive, Done;
    assert NodeOk(s, n) && NodeEvidence(s, n);
    if n in s.store.deploying {
      var task :| Holds(s, task, n);
      assert TaskEvidence(s, s.tasks[task]);
    }
  }

  lemma DoneIfFree(s: System, n: NodeId)
    requires EvidenceOk(s) && n in s.store.nodes && n !in s.store.deploying
    ensures Done(s, n) && (Size(s, n) > 0 ==> Latest(s, n).Some?)
  {
    hide Possible;
    assert NodeEvidence(s, n);
  }

  /**
   * In every run, whatever heartbeats report: while the guard of a registered node is free, each of its
   * versions has a first record, and its agent runs what these records leave possible.
   */
  lemma RecordsTell(steps: seq<Step>, H: string -> string, n: NodeId)
    requires var s := Run(EMPTY, steps, H); n in s.store.nodes && n !in s.store.deploying
    ensures var s := Run(EMPTY, steps, H);
            Recorded(s, n, Size(s, n)) && Runs(s, n) in MayRun(s, n, Size(s, n))
  {
    Reached(steps, H);
    hide Run, Inv, EvidenceOk;
    DoneIfFree(Run(EMPTY, steps, H), n);
  }

  /** The rules of the stored current policy. */
  function StoredRules(s: System, n: NodeId): Option<string> {
    if n in s.store.policies then Some(s.store.policies[n].rules) else None
  }

  lemma StoredIsLast(s: System, n: NodeId)
    requires VersionsOk(s.store)
    ensures StoredRules(s, n) == if Size(s, n) == 0 then None
            else Some(VersionsOf(s.store, n)[Size(s, n) - 1].policy.rules)
    ensures Agrees(s, n) <==> Size(s, n) > 0 && Runs(s, n) == StoredRules(s, n)
  {
    if n in s.store.versions {
      assert Current(s.store.versions[n], s.store.policies[n], n);
    }
  }

  lemma InvVersions(s: System, H: string -> string)
    requires Inv(s, H)
    ensures VersionsOk(s.store)
  {
    hide SeenOk, NodeOk, TaskOk, Exclusive, StoreOk;
    StoreVersions(s.store, H);
  }

  /**
   * What the first record of the current version of a registered node means. Success: the agent runs it.
   * AgentFailure: the agent runs what it may have run before this version. Unreachable or Timeout: either.
   */
  lemma LatestMeaning(steps: seq<Step>, H: string -> string, n: NodeId)
    requires var s := Run(EMPTY, steps, H); n in s.store.nodes && Size(s, n) > 0
    ensures var s := Run(EMPTY, steps, H);
            var before := MayRun(s, n, Size(s, n) - 1);
            && (Latest(s, n) == Some(Success) ==> Agrees(s, n))
            && (Latest(s, n) == Some(AgentFailure) ==>
                  Runs(s, n) in before && (StoredRules(s, n) !in before ==> !Agrees(s, n)))
            && (Latest(s, n) in {Some(AgentUnreachable), Some(Timeout)} ==> Runs(s, n) in before || Agrees(s, n))
  {
    Reached(steps, H);
    hide Run, Inv, EvidenceOk;
    var s := Run(EMPTY, steps, H);
    InvVersions(s, H);
    if Latest(s, n).Some? {
      LatestHere(s, n, H);
    }
  }

  lemma LatestHere(s: System, n: NodeId, H: string -> string)
    requires Inv(s, H) && EvidenceOk(s) && VersionsOk(s.store) && n in s.store.nodes && Size(s, n) > 0
             && Latest(s, n).Some?
    ensures var k := Size(s, n);
            && Runs(s, n) in After(MayRun(s, n, k - 1), VersionsOf(s.store, n)[k - 1].policy.rules, Latest(s, n))
            && StoredRules(s, n) == Some(VersionsOf(s.store, n)[k - 1].policy.rules)
            && (Agrees(s, n) <==> Runs(s, n) == StoredRules(s, n))
  {
    hide Inv, EvidenceOk, VersionsOk, After, First, Agrees, Runs, VersionsOf;
    DoneIfRecorded(s, n, H);
    StoredIsLast(s, n);
  }

  // ----- conclusive records -----

  /** No version after the last successful one was cut off while its agent was called. */
  predicate Conclusive(vs: seq<PolicyVersion>, ds: seq<Deployment>, n: NodeId, v: nat)
    requires v <= |vs|
  {
    v == 0 || First(ds, n, v) == Some(Success)
      || (First(ds, n, v) == Some(AgentFailure) && Conclusive(vs, ds, n, v - 1))
  }

  /** The rules of the last version recorded as a success. */
  function LastSuccess(vs: seq<PolicyVersion>, ds: seq<Deployment>, n: NodeId, v: nat): Option<string>
    requires v <= |vs|
  {
    if v == 0 then None
    else if First(ds, n, v) == Some(Success) then Some(vs[v - 1].policy.rules)
    else LastSuccess(vs, ds, n, v - 1)
  }

  lemma {:induction false} ConclusiveOne(vs: seq<PolicyVersion>, ds: seq<Deployment>, n: NodeId, v: nat)
    requires v <= |vs| && Conclusive(vs, ds, n, v)
    ensures Possible(vs, ds, n, v) == {LastSuccess(vs, ds, n, v)}
    decreases v
  {
    if v > 0 && First(ds, n, v) != Some(Success) {
      ConclusiveOne(vs, ds, n, v - 1);
    }
  }

  predicate RecordsConclude(s: System, n: NodeId) {
    Conclusive(VersionsOf(s.store, n), s.store.deployments, n, Size(s, n))
  }

  /** What the records say the agent runs. */
  function Confirmed(s: System, n: NodeId): Option<string> {
    LastSuccess(VersionsOf(s.store, n), s.store.deployments, n, Size(s, n))
  }

  lemma ConfirmedRuns(s: System, n: NodeId, H: string -> string)
    requires Inv(s, H) && EvidenceOk(s) && n in s.store.nodes && RecordsConclude(s, n)
    ensures Runs(s, n) == Confirmed(s, n)
    ensures Agrees(s, n) <==> Size(s, n) > 0 && Confirmed(s, n) == StoredRules(s, n)
  {
    InvVersions(s, H);
    DoneIfRecorded(s, n, H);
    ConclusiveOne(VersionsOf(s.store, n), s.store.deployments, n, Size(s, n));
    StoredIsLast(s, n);
    hide Inv, EvidenceOk, VersionsOk, Agrees, First, Possible, LastSuccess;
  }

  /**
   * In every run, whatever heartbeats report: when the records of a registered node are conclusive, its
   * agent runs the rules of the last version recorded as a success, and agrees with the store exactly
   * when those are the rules of the stored current policy.
   */
  lemma AgreementIff(steps: seq<Step>, H: string -> string, n: NodeId)
    requires var s := Run(EMPTY, steps, H); n in s.store.nodes && RecordsConclude(s, n)
    ensures var s := Run(EMPTY, steps, H);
            Runs(s, n) == Confirmed(s, n) && (Agrees(s, n) <==> Size(s, n) > 0 && Confirmed(s, n) == StoredRules(s, n))
  {
    Reached(steps, H);
    hide Run, Inv, EvidenceOk, RecordsConclude;
    ConfirmedRuns(Run(EMPTY, steps, H), n, H);
  }

  // ----- heartbeats -----

  /** The state an agent reports: Active exactly when it holds rules. */
  function Report(s: System, n: NodeId): NodeState {
    if n in s.agents then Active else Online
  }

  /**
   * In every run, for a registered node with a free guard and conclusive records: the heartbeat its agent
   * sends leaves the node in a state that fits exactly when no version was recorded as a success, or the
   * last one that was has the rules of the stored current policy.
   */
  lemma HeartbeatIff(steps: seq<Step>, H: string -> string, n: NodeId, now: Time)
    requires var s := Run(EMPTY, steps, H); n in s.store.nodes && n !in s.store.deploying && RecordsConclude(s, n)
    ensures var s := Run(EMPTY, steps, H);
            StateOk(Next(s, HeartbeatStep(n, Report(s, n), now), H), n)
            <==> Confirmed(s, n).None? || Confirmed(s, n) == StoredRules(s, n)
  {
    Reached(steps, H);
    var s := Run(EMPTY, steps, H);
    hide Run, Inv, EvidenceOk, RecordsConclude, Confirmed;
    ConfirmedRuns(s, n, H);
    StoredGuards(s, n, H);
    ReportedFits(s, n, now, H);
    hide StateOk, Next;
    if Size(s, n) == 0 {
      NothingConfirmed(s, n);
    }
  }

  lemma NothingConfirmed(s: System, n: NodeId)
    requires Size(s, n) == 0
    ensures Confirmed(s, n).None?
  {
  }

  lemma ReportedFits(s: System, n: NodeId, now: Time, H: string -> string)
    requires n in s.store.nodes && forall u :: !Settling(s, u, n)
    ensures StateOk(Next(s, HeartbeatStep(n, Report(s, n), now), H), n) <==> Runs(s, n).None? || Agrees(s, n)
  {
    var b := Next(s, HeartbeatStep(n, Report(s, n), now), H);
    forall u ensures !Settling(b, u, n) {
      assert !Settling(s, u, n);
    }
  }

  /**
   * What a controller can read before it writes a heartbeat of a registered node: an Active report is
   * believed when the first record of the current version is a success, or while the node is Deploying.
   */
  predicate Backed(s: System, step: Step) {
    step.HeartbeatStep? && step.id in s.store.nodes ==>
      && step.state != Deploying
      && (step.state == Active ==>
            (Size(s, step.id) > 0 && Latest(s, step.id) == Some(Success)) || s.store.nodes[step.id].state == Deploying)
  }

  ghost predicate AllBacked(s: System, steps: seq<Step>, H: string -> string)
    decreases |steps|
  {
    steps == [] || (Backed(s, steps[0]) && AllBacked(Next(s, steps[0], H), steps[1..], H))
  }

  lemma BackedHarmless(s: System, step: Step, H: string -> string)
    requires Inv(s, H) && EvidenceOk(s) && s.trusted && Backed(s, step)
    ensures Harmless(s, step)
  {
    if step.HeartbeatStep? && step.id in s.store.nodes && step.state == Active {
      assert NodeOk(s, step.id);
      hide Inv, EvidenceOk, VersionsOk, MayRun;
      if Size(s, step.id) > 0 && Latest(s, step.id) == Some(Success) {
        InvVersions(s, H);
        LatestHere(s, step.id, H);
      }
    }
  }

  lemma {:induction false} BackedTrusted(s: System, steps: seq<Step>, H: string -> string)
    requires Inv(s, H) && EvidenceOk(s) && s.trusted && AllBacked(s, steps, H)
    ensures Run(s, steps, H).trusted
    decreases |steps|
  {
    hide Inv, EvidenceOk, Next, Backed, Harmless;
    if steps != [] {
      BackedHarmless(s, steps[0], H);
      TaskTrust(s, steps[0], H);
      NextKeeps(s, steps[0], H);
      NextEvidence(s, steps[0], H);
      BackedTrusted(Next(s, steps[0], H), steps[1..], H);
    }
  }

  /**
   * In every interleaving of guarded deploys with registrations, removals, stale marking and heartbeats of
   * which the controller believes only the backed ones: a registered Active node whose guard is free has
   * an agent running exactly the rules of the stored current policy.
   */
  lemma Agreement(steps: seq<Step>, H: string -> string, n: NodeId)
    requires AllBacked(EMPTY, steps, H)
    requires var st := Run(EMPTY, steps, H).store;
             n in st.nodes && st.nodes[n].state == Active && n !in st.deploying
    ensures Agrees(Run(EMPTY, steps, H), n)
  {
    EmptyOk(H);
    EmptyEvidence();
    Reached(steps, H);
    BackedTrusted(EMPTY, steps, H);
    var s := Run(EMPTY, steps, H);
    hide Run, AllBacked, EvidenceOk;
    TrustedAgrees(s, n, H);
  }

  lemma TrustedAgrees(s: System, n: NodeId, H: string -> string)
    requires Inv(s, H) && s.trusted && n in s.store.nodes && s.store.nodes[n].state == Active && n !in s.store.deploying
    ensures Agrees(s, n)
  {
    hide StoreOk, SeenOk, TaskOk, Exclusive, Agrees;
    assert NodeOk(s, n);
    StoredGuards(s, n, H);
  }

  // ----- reported successes -----

  /**
   * In every run, whatever heartbeats report: a deployer about to release the guard of a registered node
   * with a success leaves its request as the stored current policy, recorded. If the first record of that
   * version is a success, the agent runs it; and if the records are conclusive, the success is true
   * exactly when the last version recorded as a success has the rules asked for.
   */
  lemma SuccessIff(steps: seq<Step>, H: string -> string, task: nat)
    requires var s := Run(EMPTY, steps, H);
             && task in s.tasks && s.tasks[task].node.id in s.store.nodes
             && s.tasks[task].phase.Finishing? && s.tasks[task].phase.success
    ensures var s := Run(EMPTY, steps, H);
            var t := s.tasks[task];
            var n := t.node.id;
            && n in s.store.policies && PolicyMatches(s.store.policies[n], t.rules, H(t.rules), t.options)
            && Latest(s, n).Some?
            && (Latest(s, n) == Some(Success) ==> Runs(s, n) == Some(t.rules))
            && (RecordsConclude(s, n) ==> (Runs(s, n) == Some(t.rules) <==> Confirmed(s, n) == Some(t.rules)))
  {
    Reached(steps, H);
    hide Run;
    SuccessHere(Run(EMPTY, steps, H), task, H);
  }

  lemma SuccessHere(s: System, task: nat, H: string -> string)
    requires Inv(s, H) && EvidenceOk(s) && task in s.tasks && s.tasks[task].node.id in s.store.nodes
    requires s.tasks[task].phase.Finishing? && s.tasks[task].phase.success
    ensures var t := s.tasks[task];
            var n := t.node.id;
            && n in s.store.policies && PolicyMatches(s.store.policies[n], t.rules, H(t.rules), t.options)
            && Latest(s, n).Some?
            && (Latest(s, n) == Some(Success) ==> Runs(s, n) == Some(t.rules))
            && (RecordsConclude(s, n) ==> (Runs(s, n) == Some(t.rules) <==> Confirmed(s, n) == Some(t.rules)))
  {
    hide Inv, EvidenceOk, VersionsOk, PhaseOk, VersionsOf, First, Possible, RecordsConclude, Confirmed, StoreOk;
    var t := s.tasks[task];
    ServedHere(s, task, H);
    Here(s, task, H);
    InvVersions(s, H);
    StoredIsLast(s, t.node.id);
    LatestHere(s, t.node.id, H);
    if RecordsConclude(s, t.node.id) {
      ConfirmedRuns(s, t.node.id, H);
    }
  }
}
