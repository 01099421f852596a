/** Deploying one policy to nodes, and rolling a node back: the sequential behaviour and what repeats of it do. */
module Deploys {
  import opened Core
  import opened Text
  import opened Storage
  import Engine

  /** What the agent call comes to. */
  datatype Answer = Accepted | Rejected | Unreachable | TimedOut

  function ResultOf(a: Answer): DeploymentResult {
    match a
    case Accepted => Success
    case Rejected => AgentFailure
    case Unreachable => AgentUnreachable
    case TimedOut => Timeout
  }

  function Normalize(o: Options): Options {
    o.(ports := if o.ports == 0 then 1 else o.ports,
       dynamicEntries := if o.dynamicEntries == 0 then 16 else o.dynamicEntries,
       width := if o.width == 0 then 8 else o.width,
       rssQueues := if o.rssQueues == 0 then 4 else o.rssQueues,
       target := if o.target == "" then "standalone" else o.target)
  }

  predicate HasCapability(capabilities: map<string, string>, key: string) {
    key in capabilities && AsciiLower(capabilities[key]) == "true"
  }

  /** The node advertises every capability the options need. */
  predicate Capable(c: map<string, string>, o: Options) {
    && (o.axi ==> HasCapability(c, "compile.axi"))
    && (o.ports > 1 ==> HasCapability(c, "compile.ports"))
    && (o.dynamic ==> HasCapability(c, "compile.dynamic"))
    && (o.width > 8 ==> HasCapability(c, "compile.width"))
    && (o.target != "" && o.target != "standalone" ==> HasCapability(c, "compile.target"))
    && (o.ptp ==> HasCapability(c, "compile.ptp"))
    && (o.rss ==> HasCapability(c, "compile.rss"))
    && (o.rssQueues != 4 ==> HasCapability(c, "compile.rss_queues"))
    && (o.intEnabled ==> HasCapability(c, "compile.int"))
    && (o.intSwitchId != 0 ==> HasCapability(c, "compile.int_switch_id"))
  }

  predicate PolicyMatches(p: Policy, rules: string, hash: string, o: Options) {
    p.rules == rules && p.hash == hash && p.options == o
  }

  /** `contacted` tells whether the agent was called, `noChange` whether the deploy was skipped as redundant. */
  datatype Outcome = Outcome(success: bool, result: DeploymentResult, version: nat, contacted: bool, noChange: bool)

  /** One deploy to a node, given the node as the caller fetched it. */
  function DeployToNode(
    s: Store, node: Node, rules: string, raw: Options, a: Answer, now: Time, H: string -> string): (Store, Outcome) {
    var o := Normalize(raw);
    var n := node.id;
    if !Capable(node.capabilities, o) then (s, Outcome(false, AgentFailure, 0, false, false))
    else if node.state == Active && n in s.policies && PolicyMatches(s.policies[n], rules, H(rules), o) then
      var h := History(s, n, 1);
      var version := if h == [] then 0 else h[0].version;
      (Log(s, Deployment(n, version, H(rules), now, Success)), Outcome(true, Success, version, false, true))
    else
      var (s1, version) := StorePolicy(s, Policy(n, rules, H(rules), now, o));
      var s2 := SetState(s1, n, Deploying);
      var s3 := SetState(s2, n, if a == Accepted then Active else Error);
      (Log(s3, Deployment(n, version, H(rules), now, ResultOf(a))),
        Outcome(a == Accepted, ResultOf(a), version, true, false))
  }

  method DeployNode(
    st: MemoryStorage, node: Node, rules: string, raw: Options, a: Answer, now: Time, H: string -> string)
      returns (r: Outcome)
    modifies st
    ensures (st.View(), r) == DeployToNode(old(st.View()), node, rules, raw, a, now, H)
  {
    hide Capable, Normalize;
    var options := Normalize(raw);
    if !Capable(node.capabilities, options) {
      return Outcome(false, AgentFailure, 0, false, false);
    }
    var hash := H(rules);
    var current := if node.id in st.policies then Some(st.policies[node.id]) else None;
    if node.state == Active && current.Some? && PolicyMatches(current.value, rules, hash, options) {
      var versions := st.GetPolicyHistory(node.id, 1);
      var version := if versions == [] then 0 else versions[0].version;
      st.RecordDeployment(Deployment(node.id, version, hash, now, Success));
      return Outcome(true, Success, version, false, true);
    }
    var version := st.AddPolicy(Policy(node.id, rules, hash, now, options));
    var _ := st.UpdateNodeState(node.id, Deploying);
    var _ := st.UpdateNodeState(node.id, if a == Accepted then Active else Error);
    st.RecordDeployment(Deployment(node.id, version, hash, now, ResultOf(a)));
    return Outcome(a == Accepted, ResultOf(a), version, true, false);
  }

  // ----- many nodes -----

  /** The guarded deploy of one node of a list. */
  function DeployGuarded(
    s: Store, node: Node, rules: string, raw: Options, a: Answer, now: Time, H: string -> string): (Store, bool) {
    var (s1, ok) := BeginDeploy(s, node.id);
    if !ok then (s1, false)
    else
      var (s2, r) := DeployToNode(s1, node, rules, raw, a, now, H);
      (EndDeploy(s2, node.id), r.success)
  }

  /** The nodes in turn, with the agents' answers in the same order. */
  function DeployToNodes(
    s: Store, nodes: seq<Node>, rules: string, raw: Options, answers: seq<Answer>, now: Time, H: string -> string)
    : (Store, seq<Engine.NodeResult>)
    requires |answers| == |nodes|
    decreases |nodes|
  {
    if nodes == [] then (s, [])
    else
      var last := |nodes| - 1;
      var (s1, results) := DeployToNodes(s, nodes[..last], rules, raw, answers[..last], now, H);
      var (s2, success) := DeployGuarded(s1, nodes[last], rules, raw, answers[last], now, H);
      (s2, results + [Engine.NodeResult(nodes[last].id, success)])
  }

  lemma DeployToNodesFirst(
    s: Store, nodes: seq<Node>, rules: string, raw: Options, answers: seq<Answer>, now: Time, H: string -> string)
    requires |answers| == |nodes|
    ensures DeployToNodes(s, nodes[..0], rules, raw, answers[..0], now, H) == (s, [])
  {
  }

  lemma DeployToNodesNext(
    s: Store, nodes: seq<Node>, k: nat, rules: string, raw: Options, answers: seq<Answer>, now: Time,
    H: string -> string)
    requires |answers| == |nodes| && k < |nodes|
    ensures var (s1, results) := DeployToNodes(s, nodes[..k], rules, raw, answers[..k], now, H);
            var (s2, success) := DeployGuarded(s1, nodes[k], rules, raw, answers[k], now, H);
            DeployToNodes(s, nodes[..k + 1], rules, raw, answers[..k + 1], now, H)
            == (s2, results + [Engine.NodeResult(nodes[k].id, success)])
  {
    hide DeployGuarded;
    assert nodes[..k + 1][..k] == nodes[..k] && answers[..k + 1][..k] == answers[..k];
  }

  method DeployNodes(
    st: MemoryStorage, nodes: seq<Node>, rules: string, raw: Options, answers: seq<Answer>, now: Time,
    H: string -> string)
    returns (r: Engine.ActionResult)
    requires |answers| == |nodes|
    modifies st
    ensures var (s, results) := DeployToNodes(old(st.View()), nodes, rules, raw, answers, now, H);
            st.View() == s && r == Engine.Summary(results)
  {
    hide DeployToNode, DeployToNodes, BeginDeploy, EndDeploy;
    var results: seq<Engine.NodeResult>, succeeded, failed := [], 0, 0;
    var k := 0;
    ghost var s0 := st.View();
    DeployToNodesFirst(s0, nodes, rules, raw, answers, now, H);
    while k < |nodes|
      invariant 0 <= k <= |nodes|
      invariant (st.View(), results) == DeployToNodes(s0, nodes[..k], rules, raw, answers[..k], now, H)
      invariant succeeded == Engine.Count(results, true) && failed == Engine.Count(results, false)
      invariant |results| == k
    {
      DeployToNodesNext(s0, nodes, k, rules, raw, answers, now, H);
      var guard := st.TakeGuard(nodes[k].id);
      var success := false;
      if guard {
        var outcome := DeployNode(st, nodes[k], rules, raw, answers[k], now, H);
        st.ReleaseGuard(nodes[k].id);
        success := outcome.success;
      }
      if success {
        succeeded := succeeded + 1;
      } else {
        failed := failed + 1;
      }
      assert (results + [Engine.NodeResult(nodes[k].id, success)])[..k] == results;
      results := results + [Engine.NodeResult(nodes[k].id, success)];
      k := k + 1;
    }
    assert nodes[..k] == nodes && answers[..k] == answers;
    return Engine.ActionResult(succeeded, failed, |nodes|, results);
  }

  lemma DeployKeepsGuard(s: Store, node: Node, rules: string, raw: Options, a: Answer, now: Time, H: string -> string)
    ensures DeployToNode(s, node, rules, raw, a, now, H).0.deploying == s.deploying
  {
    hide Capable, Normalize;
  }

  /** The guard set is left as it was found, and there is one result per node, in the order given. */
  lemma {:induction false} DeployNodesResults(
    s: Store, nodes: seq<Node>, rules: string, raw: Options, answers: seq<Answer>, now: Time, H: string -> string)
    requires |answers| == |nodes|
    ensures var (s1, results) := DeployToNodes(s, nodes, rules, raw, answers, now, H);
            && s1.deploying == s.deploying
            && |results| == |nodes|
            && (forall k :: 0 <= k < |nodes| ==> results[k].nodeId == nodes[k].id)
            && (forall k :: 0 <= k < |nodes| && nodes[k].id in s.deploying ==> !results[k].success)
    decreases |nodes|
  {
    hide DeployToNode;
    if nodes != [] {
      var last := |nodes| - 1;
      DeployNodesResults(s, nodes[..last], rules, raw, answers[..last], now, H);
      var s1 := DeployToNodes(s, nodes[..last], rules, raw, answers[..last], now, H).0;
      DeployKeepsGuard(BeginDeploy(s1, nodes[last].id).0, nodes[last], rules, raw, answers[last], now, H);
      assert s1.deploying + {nodes[last].id} - {nodes[last].id} == s1.deploying - {nodes[last].id};
    }
  }

  // ----- what every stored version is -----

  /** A policy as a deploy to a node with these capabilities stores it. */
  ghost predicate Deployable(p: Policy, capabilities: map<string, string>, H: string -> string) {
    p.hash == H(p.rules) && Normalize(p.options) == p.options && Capable(capabilities, p.options)
  }

  ghost predicate EachDeployable(vs: seq<PolicyVersion>, capabilities: map<string, string>, H: string -> string) {
    forall k :: 0 <= k < |vs| ==> Deployable(vs[k].policy, capabilities, H)
  }

  ghost predicate AllDeployable(s: Store, H: string -> string) {
    forall n :: n in s.nodes ==> EachDeployable(VersionsOf(s, n), s.nodes[n].capabilities, H)
  }

  ghost predicate StoreOk(s: Store, H: string -> string) {
    VersionsOk(s) && RecordsOk(s) && AllDeployable(s, H)
  }

  lemma NormalizeTwice(o: Options)
    ensures Normalize(Normalize(o)) == Normalize(o)
  {
  }

  /** The snapshot is of the registered node, at this moment or an earlier one. */
  ghost predicate SnapshotOf(node: Node, s: Store) {
    node.id in s.nodes && node.capabilities == s.nodes[node.id].capabilities
  }

  lemma SetStateFrame(s: Store, n: NodeId, state: NodeState)
    ensures var s1 := SetState(s, n, state);
            && s1.policies == s.policies && s1.versions == s.versions && s1.deployments == s.deployments
            && s1.deploying == s.deploying && s1.nodes.Keys == s.nodes.Keys
            && forall m :: m in s.nodes ==> s1.nodes[m] == s.nodes[m].(state := s1.nodes[m].state)
  {
  }

  /** The policy a deploy of this request stores. */
  function Requested(node: Node, rules: string, raw: Options, now: Time, H: string -> string): Policy {
    Policy(node.id, rules, H(rules), now, Normalize(raw))
  }

  /** A deploy changes nodes in their state only, and adds at most the requested version, to its own node. */
  lemma DeployFrame(s: Store, node: Node, rules: string, raw: Options, a: Answer, now: Time, H: string -> string)
    ensures var s1 := DeployToNode(s, node, rules, raw, a, now, H).0;
            && s1.nodes.Keys == s.nodes.Keys
            && (forall m :: m in s.nodes ==> s1.nodes[m] == s.nodes[m].(state := s1.nodes[m].state))
            && ((s1.versions == s.versions && s1.policies == s.policies)
                || (Capable(node.capabilities, Normalize(raw))
                    && (s1.versions, s1.policies) == (StorePolicy(s, Requested(node, rules, raw, now, H)).0.versions,
                                                      StorePolicy(s, Requested(node, rules, raw, now, H)).0.policies)))
  {
    hide Capable, Normalize, SetState;
    var s1 := StorePolicy(s, Requested(node, rules, raw, now, H)).0;
    SetStateFrame(s1, node.id, Deploying);
    SetStateFrame(SetState(s1, node.id, Deploying), node.id, if a == Accepted then Active else Error);
  }

  lemma DeployKeepsVersions(
    s: Store, node: Node, rules: string, raw: Options, a: Answer, now: Time, H: string -> string)
    requires VersionsOk(s)
    ensures VersionsOk(DeployToNode(s, node, rules, raw, a, now, H).0)
  {
    DeployFrame(s, node, rules, raw, a, now, H);
    hide DeployToNode, Capable, Requested;
    StoreKeepsVersions(s, Requested(node, rules, raw, now, H));
    hide StorePolicy, Current;
  }

  lemma DeployKeepsDeployable(
    s: Store, node: Node, rules: string, raw: Options, a: Answer, now: Time, H: string -> string)
    requires AllDeployable(s, H) && SnapshotOf(node, s)
    ensures AllDeployable(DeployToNode(s, node, rules, raw, a, now, H).0, H)
  {
    NormalizeTwice(raw);
    DeployFrame(s, node, rules, raw, a, now, H);
    hide DeployToNode, Capable, Normalize;
    var s1 := DeployToNode(s, node, rules, raw, a, now, H).0;
    forall n | n in s1.nodes ensures EachDeployable(VersionsOf(s1, n), s1.nodes[n].capabilities, H) {
      assert EachDeployable(VersionsOf(s, n), s.nodes[n].capabilities, H);
    }
  }

  lemma DeployKeepsRecords(s: Store, node: Node, rules: string, raw: Options, a: Answer, now: Time, H: string -> string)
    requires VersionsOk(s) && RecordsOk(s)
    ensures RecordsOk(DeployToNode(s, node, rules, raw, a, now, H).0)
  {
    hide Capable, Normalize, SetState, Log, History, RecordsOk, VersionsOk, Names, StorePolicy;
    var o := Normalize(raw);
    var n := node.id;
    if Capable(node.capabilities, o) {
      if node.state == Active && n in s.policies && PolicyMatches(s.policies[n], rules, H(rules), o) {
        var h := History(s, n, 1);
        var d := Deployment(n, if h == [] then 0 else h[0].version, H(rules), now, Success);
        NewestNamed(s, d);
        LogKeepsRecords(s, d);
      } else {
        var (s1, version) := StorePolicy(s, Policy(n, rules, H(rules), now, o));
        StoreKeepsRecords(s, Policy(n, rules, H(rules), now, o));
        var d := Deployment(n, version, H(rules), now, ResultOf(a));
        StatesKeepRecords(s1, n, Deploying, d);
        StatesKeepRecords(SetState(s1, n, Deploying), n, if a == Accepted then Active else Error, d);
        LogKeepsRecords(SetState(SetState(s1, n, Deploying), n, if a == Accepted then Active else Error), d);
      }
    }
  }

  lemma LogKeepsRecords(s: Store, d: Deployment)
    requires RecordsOk(s) && (d.nodeId in s.nodes ==> Names(s, d))
    ensures RecordsOk(Log(s, d))
  {
    hide Names;
    forall e | e in Log(s, d).deployments && e.nodeId in s.nodes ensures Names(Log(s, d), e) {
      NamesFrame(s, Log(s, d), e);
    }
  }

  lemma NamesFrame(s: Store, s1: Store, d: Deployment)
    requires s1.versions == s.versions
    ensures Names(s1, d) <==> Names(s, d)
  {
  }

  lemma StatesKeepRecords(s: Store, n: NodeId, state: NodeState, d: Deployment)
    requires RecordsOk(s)
    ensures RecordsOk(SetState(s, n, state)) && (Names(s, d) ==> Names(SetState(s, n, state), d))
  {
    var s1 := SetState(s, n, state);
    SetStateFrame(s, n, state);
    NamesFrame(s, s1, d);
    hide Names, SetState;
    forall e | e in s1.deployments && e.nodeId in s1.nodes ensures Names(s1, e) {
      NamesFrame(s, s1, e);
    }
  }

  /** Storing a policy keeps what records name, and a record of the new version names it. */
  lemma StoreKeepsRecords(s: Store, p: Policy)
    requires RecordsOk(s)
    ensures var (s1, version) := StorePolicy(s, p);
            && RecordsOk(s1)
            && forall d: Deployment :: d.nodeId == p.nodeId && d.version == version && d.hash == p.hash ==> Names(s1, d)
  {
    var s1 := StorePolicy(s, p).0;
    forall d | d in s1.deployments && d.nodeId in s1.nodes ensures Names(s1, d) {
      StoreKeepsNames(s, p, d);
    }
  }

  /** The newest version of a node carries the hash of its current policy. */
  lemma NewestNamed(s: Store, d: Deployment)
    requires VersionsOk(s) && d.nodeId in s.policies && d.hash == s.policies[d.nodeId].hash
    requires var h := History(s, d.nodeId, 1); d.version == if h == [] then 0 else h[0].version
    ensures Names(s, d)
  {
    HistoryNewest(s, d.nodeId, 1);
    assert Current(s.versions[d.nodeId], s.policies[d.nodeId], d.nodeId);
  }

  // ----- redeploying -----

  /** Repeating a successful deploy on a fresh snapshot is skipped: no agent call, no version, one Success record. */
  ghost predicate Skipped(
    s: Store, first: Outcome, n: NodeId, rules: string, raw: Options, a: Answer, now: Time, H: string -> string)
    requires n in s.nodes
  {
    var (s1, r) := DeployToNode(s, s.nodes[n], rules, raw, a, now, H);
    && r == Outcome(true, Success, first.version, false, true)
    && s1 == Log(s, Deployment(n, first.version, H(rules), now, Success))
  }

  /**
   * The first of the two deploys leaves the request as current policy, and the node Active unless it
   * could not become so.
   */
  lemma Deployed(s: Store, n: NodeId, rules: string, raw: Options, now: Time, H: string -> string)
    requires n in s.nodes && s.nodes[n].id == n
    requires DeployToNode(s, s.nodes[n], rules, raw, Accepted, now, H).1.success
    ensures var (s1, r) := DeployToNode(s, s.nodes[n], rules, raw, Accepted, now, H);
            && n in s1.nodes && s1.nodes[n] == s.nodes[n].(state := s1.nodes[n].state)
            && Capable(s.nodes[n].capabilities, Normalize(raw))
            && n in s1.policies && PolicyMatches(s1.policies[n], rules, H(rules), Normalize(raw))
            && (s1.nodes[n].state == Active <==> s.nodes[n].state !in {Registered, Offline})
  {
    hide Capable, Normalize, History;
  }

  lemma DeployedVersion(s: Store, n: NodeId, rules: string, raw: Options, now: Time, H: string -> string)
    requires VersionsOk(s) && n in s.nodes && s.nodes[n].id == n
    requires DeployToNode(s, s.nodes[n], rules, raw, Accepted, now, H).1.success
    ensures var (s1, r) := DeployToNode(s, s.nodes[n], rules, raw, Accepted, now, H);
            History(s1, n, 1) != [] && History(s1, n, 1)[0].version == r.version
  {
    DeployKeepsVersions(s, s.nodes[n], rules, raw, Accepted, now, H);
    var o := Normalize(raw);
    var p := Policy(n, rules, H(rules), now, o);
    var s1 := StorePolicy(s, p).0;
    SetStateFrame(s1, n, Deploying);
    SetStateFrame(SetState(s1, n, Deploying), n, Active);
    hide Capable, Normalize, SetState, VersionsOk;
    if s.nodes[n].state == Active && n in s.policies && PolicyMatches(s.policies[n], rules, H(rules), o) {
      assert n in s.versions by { HistoryNewest(s, n, 1); VersionsKeys(s); }
      assert Current(s.versions[n], s.policies[n], n) by { VersionsKeys(s); }
    }
  }

  lemma VersionsKeys(s: Store)
    requires VersionsOk(s)
    ensures s.policies.Keys == s.versions.Keys
    ensures forall n :: n in s.versions ==> Current(s.versions[n], s.policies[n], n)
  {
  }

  /**
   * After a deploy that succeeded, the same request on a fresh snapshot is skipped exactly when the
   * node was not in a state from which it cannot become Active.
   */
  lemma RedeployIdempotentIff(
    s: Store, n: NodeId, rules: string, raw: Options, now: Time, a: Answer, later: Time, H: string -> string)
    requires VersionsOk(s) && n in s.nodes && s.nodes[n].id == n
    requires DeployToNode(s, s.nodes[n], rules, raw, Accepted, now, H).1.success
    ensures var (s1, r) := DeployToNode(s, s.nodes[n], rules, raw, Accepted, now, H);
            n in s1.nodes &&
            (Skipped(s1, r, n, rules, raw, a, later, H) <==> s.nodes[n].state !in {Registered, Offline})
  {
    var (s1, r) := DeployToNode(s, s.nodes[n], rules, raw, Accepted, now, H);
    Deployed(s, n, rules, raw, now, H);
    DeployedVersion(s, n, rules, raw, now, H);
    SecondDeploy(s1, n, r.version, rules, raw, a, later, H);
    hide DeployToNode, Skipped, VersionsOk;
    assert Skipped(s1, r, n, rules, raw, a, later, H)
      <==> s1.nodes[n].state == Active by { SkippedVersion(s1, r, n, rules, raw, a, later, H); }
  }

  lemma SkippedVersion(
    s: Store, first: Outcome, n: NodeId, rules: string, raw: Options, a: Answer, now: Time, H: string -> string)
    requires n in s.nodes
    ensures Skipped(s, first, n, rules, raw, a, now, H)
            <==> Skipped(s, Outcome(true, Success, first.version, false, true), n, rules, raw, a, now, H)
  {
    hide DeployToNode;
  }

  lemma SecondDeploy(
    s: Store, n: NodeId, version: nat, rules: string, raw: Options, a: Answer, now: Time, H: string -> string)
    requires n in s.nodes && s.nodes[n].id == n && Capable(s.nodes[n].capabilities, Normalize(raw))
    requires n in s.policies && PolicyMatches(s.policies[n], rules, H(rules), Normalize(raw))
    requires History(s, n, 1) != [] && History(s, n, 1)[0].version == version
    ensures Skipped(s, Outcome(true, Success, version, false, true), n, rules, raw, a, now, H)
            <==> s.nodes[n].state == Active
  {
    hide Capable, Normalize, History, SetState, StorePolicy;
  }

  /** A request that asks for nothing in particular. */
  const PLAIN := Options(false, false, false, false, 0, "", false, 0, 0, false, false, 0, false, 0)

  lemma PlainCapable(capabilities: map<string, string>)
    ensures Capable(capabilities, Normalize(PLAIN))
  {
    assert Normalize(PLAIN)
           == PLAIN.(ports := 1, dynamicEntries := 16, width := 8, rssQueues := 4, target := "standalone");
    hide Normalize;
  }

  /** A node that has just registered: the accepted deploy is reported as a success, and not skipped when repeated. */
  lemma RegisteredRepeats(n: NodeId, rules: string, now: Time, a: Answer, later: Time, H: string -> string)
    ensures var s := Register(Store(map[], map[], map[], [], {}), Node(n, map[], Registered, 0));
            var (s1, r) := DeployToNode(s, s.nodes[n], rules, PLAIN, Accepted, now, H);
            r.success && n in s1.nodes && s1.nodes[n].state == Registered
            && !Skipped(s1, r, n, rules, PLAIN, a, later, H)
  {
    var s := Register(Store(map[], map[], map[], [], {}), Node(n, map[], Registered, 0));
    PlainCapable(map[]);
    hide Normalize, Capable, Skipped;
    RedeployIdempotentIff(s, n, rules, PLAIN, now, a, later, H);
  }

  // ----- rollback -----

  datatype Response = Response(success: bool, rolledBackTo: nat, noChange: bool)

  datatype RpcError = NodeNotFound | VersionNotFound | ConcurrentDeploy

  function FindVersion(vs: seq<PolicyVersion>, version: nat): Option<PolicyVersion>
    decreases |vs|
  {
    if vs == [] then None else if vs[0].version == version then Some(vs[0]) else FindVersion(vs[1..], version)
  }

  const HISTORY_LIMIT := 10

  /** The version a rollback request names: 0 stands for the one before the current. */
  function RollbackTarget(vs: seq<PolicyVersion>, requested: nat): Option<PolicyVersion> {
    if requested == 0 then if |vs| < 2 then None else Some(vs[1])
    else FindVersion(vs, requested)
  }

  function Rollback(
    s: Store, n: NodeId, requested: nat, a: Answer, now: Time, H: string -> string)
      : (Store, Result<Response, RpcError>)
  {
    if n !in s.nodes then (s, Err(NodeNotFound))
    else
      var vs := History(s, n, HISTORY_LIMIT);
      var target := RollbackTarget(vs, requested);
      if vs == [] || (requested == 0 && target.None?) then (s, Ok(Response(false, 0, false)))
      else if target.None? then (s, Err(VersionNotFound))
      else
        var (s1, ok) := BeginDeploy(s, n);
        if !ok then (s, Err(ConcurrentDeploy))
        else
          var p := target.value.policy;
          var (s2, r) := DeployToNode(s1, s.nodes[n], p.rules, p.options, a, now, H);
          (EndDeploy(s2, n),
           Ok(Response(r.success,
                       if !r.success then 0 else if r.noChange then vs[0].version else target.value.version,
                       r.noChange)))
  }

  method RollbackPolicy(st: MemoryStorage, n: NodeId, requested: nat, a: Answer, now: Time, H: string -> string)
    returns (r: Result<Response, RpcError>)
    modifies st
    ensures (st.View(), r) == Rollback(old(st.View()), n, requested, a, now, H)
  {
    hide DeployToNode;
    if n !in st.nodes {
      return Err(NodeNotFound);
    }
    var node := st.nodes[n];
    var versions := st.GetPolicyHistory(n, HISTORY_LIMIT);
    if versions == [] {
      return Ok(Response(false, 0, false));
    }
    var target: PolicyVersion;
    if requested == 0 {
      if |versions| < 2 {
        return Ok(Response(false, 0, false));
      }
      target := versions[1];
    } else {
      var k := 0;
      while k < |versions| && versions[k].version != requested
        invariant 0 <= k <= |versions|
        invariant FindVersion(versions[k..], requested) == FindVersion(versions, requested)
      {
        assert versions[k..][1..] == versions[k + 1..];
        k := k + 1;
      }
      if k == |versions| {
        return Err(VersionNotFound);
      }
      target := versions[k];
    }
    assert RollbackTarget(versions, requested) == Some(target);
    ghost var before := st.View();
    var guard := st.TakeGuard(n);
    if !guard {
      assert before.deploying + {n} == before.deploying;
      return Err(ConcurrentDeploy);
    }
    var outcome := DeployNode(st, node, target.policy.rules, target.policy.options, a, now, H);
    st.ReleaseGuard(n);
    var version := if !outcome.success then 0 else if outcome.noChange then versions[0].version else target.version;
    return Ok(Response(outcome.success, version, outcome.noChange));
  }

  lemma {:induction false} FindVersionAt(vs: seq<PolicyVersion>, top: int, version: nat)
    requires forall i :: 0 <= i < |vs| ==> vs[i].version + i == top
    ensures FindVersion(vs, version) == if 0 <= top - version < |vs| then Some(vs[top - version]) else None
    decreases |vs|
  {
    if vs != [] && vs[0].version != version {
      FindVersionAt(vs[1..], top - 1, version);
    }
  }

  /** A rollback by number reaches exactly the newest `HISTORY_LIMIT` versions. */
  lemma RollbackReaches(s: Store, n: NodeId, version: nat)
    requires VersionsOk(s) && version >= 1
    ensures var vs := VersionsOf(s, n);
            RollbackTarget(History(s, n, HISTORY_LIMIT), version)
            == if |vs| - HISTORY_LIMIT < version <= |vs| then Some(vs[version - 1]) else None
  {
    var vs := VersionsOf(s, n);
    HistoryNewest(s, n, HISTORY_LIMIT);
    FindVersionAt(History(s, n, HISTORY_LIMIT), |vs|, version);
    if vs != [] {
      assert Current(s.versions[n], s.policies[n], n);
    }
  }

  /** Two policies agree in everything but their time. */
  predicate SameContent(p: Policy, q: Policy) {
    p == q.(deployedAt := p.deployedAt)
  }

  /** Deploying a stored version to its node makes it the current content, and the former current the previous one. */
  lemma DeployStored(s: Store, n: NodeId, p: Policy, a: Answer, now: Time, H: string -> string)
    requires StoreOk(s, H) && n in s.nodes && s.nodes[n].id == n && n in s.versions
    requires p.nodeId == n && Deployable(p, s.nodes[n].capabilities, H)
    ensures var s1 := DeployToNode(s, s.nodes[n], p.rules, p.options, a, now, H).0;
            && n in s1.policies && SameContent(s1.policies[n], p) && n in s1.nodes && s1.nodes[n].id == n
            && ((s1.versions == s.versions && s1.policies == s.policies)
                || s1.versions[n] == s.versions[n] + [PolicyVersion(|s.versions[n]| + 1, s1.policies[n])])
  {
    hide Capable, RecordsOk, AllDeployable, SetState;
    var o := Normalize(p.options);
    hide Normalize;
    assert Current(s.versions[n], s.policies[n], n);
    var q := Policy(n, p.rules, H(p.rules), now, o);
    var s1 := StorePolicy(s, q).0;
    SetStateFrame(s1, n, Deploying);
    SetStateFrame(SetState(s1, n, Deploying), n, if a == Accepted then Active else Error);
    hide VersionsOk;
  }

  /** Soundness of the store does not depend on the guard. */
  lemma GuardFrame(s: Store, guard: set<NodeId>, H: string -> string)
    requires StoreOk(s, H)
    ensures StoreOk(s.(deploying := guard), H)
  {
    var s1 := s.(deploying := guard);
    hide Deployable, Current;
    forall d | d in s1.deployments && d.nodeId in s1.nodes ensures Names(s1, d) {
      assert Names(s, d);
    }
    forall n | n in s1.nodes ensures EachDeployable(VersionsOf(s1, n), s1.nodes[n].capabilities, H) {
      assert EachDeployable(VersionsOf(s, n), s.nodes[n].capabilities, H);
    }
  }

  lemma DeployKeeps(s: Store, node: Node, rules: string, raw: Options, a: Answer, now: Time, H: string -> string)
    requires StoreOk(s, H) && SnapshotOf(node, s)
    ensures StoreOk(DeployToNode(s, node, rules, raw, a, now, H).0, H)
  {
    DeployKeepsVersions(s, node, rules, raw, a, now, H);
    DeployKeepsRecords(s, node, rules, raw, a, now, H);
    DeployKeepsDeployable(s, node, rules, raw, a, now, H);
    hide DeployToNode, VersionsOk, RecordsOk, AllDeployable;
  }

  /** A node with two versions that is not being deployed to. */
  ghost predicate CanRollBack(s: Store, n: NodeId, H: string -> string) {
    && StoreOk(s, H) && n in s.nodes && s.nodes[n].id == n && n !in s.deploying
    && n in s.versions && |s.versions[n]| >= 2
  }

  /** The version before the current one. */
  ghost function Previous(s: Store, n: NodeId): Policy
    requires n in s.versions && |s.versions[n]| >= 2
  {
    s.versions[n][|s.versions[n]| - 2].policy
  }

  /**
   * A rollback to "previous" makes the previous content current whatever the agent answers, and leaves
   * the former current content as the previous one; it can be repeated.
   */
  lemma RollbackSwaps(s: Store, n: NodeId, a: Answer, now: Time, H: string -> string)
    requires CanRollBack(s, n, H)
    ensures var s1 := Rollback(s, n, 0, a, now, H).0;
            && CanRollBack(s1, n, H)
            && SameContent(s1.policies[n], Previous(s, n))
            && SameContent(Previous(s1, n), s.policies[n])
  {
    hide StoreOk, Deployable, History, Rollback, DeployToNode;
    var p := Previous(s, n);
    PreviousOk(s, n, H);
    var g := BeginDeploy(s, n).0;
    GuardFrame(s, g.deploying, H);
    DeployStored(g, n, p, a, now, H);
    DeployKeeps(g, s.nodes[n], p.rules, p.options, a, now, H);
    var s2 := DeployToNode(g, s.nodes[n], p.rules, p.options, a, now, H).0;
    GuardFrame(s2, EndDeploy(s2, n).deploying, H);
    RollbackIs(s, n, a, now, H);
    DeployKeepsGuard(g, s.nodes[n], p.rules, p.options, a, now, H);
    assert EndDeploy(s2, n).versions == s2.versions;
    StoreCurrent(g, n, H);
    StoreCurrent(s2, n, H);
  }

  lemma StoreCurrent(s: Store, n: NodeId, H: string -> string)
    requires StoreOk(s, H) && (n in s.policies || n in s.versions)
    ensures n in s.versions && n in s.policies && s.versions[n] != []
            && s.policies[n] == s.versions[n][|s.versions[n]| - 1].policy
  {
    hide RecordsOk, AllDeployable;
    assert Current(s.versions[n], s.policies[n], n);
  }

  lemma PreviousOk(s: Store, n: NodeId, H: string -> string)
    requires CanRollBack(s, n, H)
    ensures var p := Previous(s, n); p.nodeId == n && Deployable(p, s.nodes[n].capabilities, H)
  {
    hide RecordsOk, Deployable;
    assert Current(s.versions[n], s.policies[n], n);
    assert EachDeployable(VersionsOf(s, n), s.nodes[n].capabilities, H);
  }

  lemma RollbackIs(s: Store, n: NodeId, a: Answer, now: Time, H: string -> string)
    requires CanRollBack(s, n, H)
    ensures var p := Previous(s, n);
            Rollback(s, n, 0, a, now, H).0
              == EndDeploy(DeployToNode(BeginDeploy(s, n).0, s.nodes[n], p.rules, p.options, a, now, H).0, n)
  {
    hide DeployToNode, StoreOk;
    var vs := History(s, n, HISTORY_LIMIT);
    assert vs[1].policy == Previous(s, n);
  }

  /** Two rollbacks to "previous" restore the stored content, whatever the agent answers to either. */
  lemma RollbackTwice(s: Store, n: NodeId, a: Answer, b: Answer, now: Time, later: Time, H: string -> string)
    requires CanRollBack(s, n, H)
    ensures var s1 := Rollback(s, n, 0, a, now, H).0;
            var s2 := Rollback(s1, n, 0, b, later, H).0;
            n in s2.policies && SameContent(s2.policies[n], s.policies[n])
  {
    hide Rollback, RecordsOk, AllDeployable;
    RollbackSwaps(s, n, a, now, H);
    RollbackSwaps(Rollback(s, n, 0, a, now, H).0, n, b, later, H);
  }
}
