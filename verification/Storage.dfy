/** The controller's store: nodes, policy versions, deployment records and the deploy guard. */
module Storage {
  import opened Core

  datatype NodeState = Registered | Online | Deploying | Active | Error | Offline

  /** The states a node may be set to from `s`. */
  function ValidTransitions(s: NodeState): set<NodeState> {
    match s
    case Registered => {Online, Offline}
    case Online => {Deploying, Error, Offline}
    case Deploying => {Active, Error, Offline}
    case Active => {Deploying, Error, Offline}
    case Error => {Online, Deploying, Offline}
    case Offline => {Online}
  }

  predicate CanTransition(from: NodeState, to: NodeState) {
    to in ValidTransitions(from)
  }

  datatype Node = Node(id: NodeId, capabilities: map<string, string>, state: NodeState, lastHeartbeat: Time)

  datatype Options = Options(
    counters: bool,
    rateLimit: bool,
    conntrack: bool,
    axi: bool,
    ports: nat,
    target: string,
    dynamic: bool,
    dynamicEntries: nat,
    width: nat,
    ptp: bool,
    rss: bool,
    rssQueues: nat,
    intEnabled: bool,
    intSwitchId: nat)

  datatype Policy = Policy(nodeId: NodeId, rules: string, hash: string, deployedAt: Time, options: Options)

  datatype PolicyVersion = PolicyVersion(version: nat, policy: Policy)

  datatype DeploymentResult = Success | AgentFailure | AgentUnreachable | Timeout

  datatype Deployment = Deployment(nodeId: NodeId, version: nat, hash: string, deployedAt: Time,
    result: DeploymentResult)

  datatype Store = Store(
    nodes: map<NodeId, Node>,
    policies: map<NodeId, Policy>,
    versions: map<NodeId, seq<PolicyVersion>>,
    deployments: seq<Deployment>,
    deploying: set<NodeId>)

  // ----- one storage operation each -----

  function Register(s: Store, node: Node): Store {
    s.(nodes := s.nodes[node.id := node])
  }

  function RemoveNode(s: Store, n: NodeId): Store {
    s.(nodes := s.nodes - {n}, policies := s.policies - {n}, versions := s.versions - {n},
      deploying := s.deploying - {n})
  }

  /** A heartbeat writes whatever state it reports. */
  function Heartbeat(s: Store, n: NodeId, state: NodeState, now: Time): Store {
    if n in s.nodes then s.(nodes := s.nodes[n := s.nodes[n].(state := state, lastHeartbeat := now)]) else s
  }

  /** Only valid transitions are written. */
  function SetState(s: Store, n: NodeId, state: NodeState): Store {
    if n in s.nodes && CanTransition(s.nodes[n].state,
      state) then s.(nodes := s.nodes[n := s.nodes[n].(state := state)])
    else s
  }

  function VersionsOf(s: Store, n: NodeId): seq<PolicyVersion> {
    if n in s.versions then s.versions[n] else []
  }

  function StorePolicy(s: Store, p: Policy): (Store, nat) {
    var history := VersionsOf(s, p.nodeId);
    var version := |history| + 1;
    (s.(versions := s.versions[p.nodeId := history + [PolicyVersion(version, p)]],
        policies := s.policies[p.nodeId := p]), version)
  }

  function GetPolicy(s: Store, n: NodeId): Option<Policy> {
    if n in s.policies then Some(s.policies[n]) else None
  }

  /** The newest versions first, `limit` at most. */
  function History(s: Store, n: NodeId, limit: nat): seq<PolicyVersion> {
    var h := VersionsOf(s, n);
    var size := if limit < |h| then limit else |h|;
    seq(size, i requires 0 <= i < size => h[|h| - 1 - i])
  }

  function Log(s: Store, d: Deployment): Store {
    s.(deployments := s.deployments + [d])
  }

  function BeginDeploy(s: Store, n: NodeId): (Store, bool) {
    (s.(deploying := s.deploying + {n}), n !in s.deploying)
  }

  function EndDeploy(s: Store, n: NodeId): Store {
    s.(deploying := s.deploying - {n})
  }

  predicate IsStale(node: Node, now: Time, threshold: Time) {
    node.state != Offline && node.state != Registered && now - node.lastHeartbeat > threshold
  }

  function Reaped(node: Node, now: Time, threshold: Time): Node {
    if IsStale(node, now, threshold) then node.(state := Offline) else node
  }

  function MarkStale(s: Store, now: Time, threshold: Time): Store {
    s.(nodes := map n | n in s.nodes :: Reaped(s.nodes[n], now, threshold))
  }

  class MemoryStorage {
    var nodes: map<NodeId, Node>
    var policies: map<NodeId, Policy>
    var policyVersions: map<NodeId, seq<PolicyVersion>>
    var deployments: seq<Deployment>
    var deploying: set<NodeId>

    ghost function View(): Store
      reads this
    {
      Store(nodes, policies, policyVersions, deployments, deploying)
    }

    constructor ()
      ensures View() == Store(map[], map[], map[], [], {})
    {
      nodes, policies, policyVersions, deployments, deploying := map[], map[], map[], [], {};
    }

    method RegisterNode(node: Node)
      modifies this`nodes
      ensures View() == Register(old(View()), node)
    {
      nodes := nodes[node.id := node];
    }

    method Remove(n: NodeId) returns (existed: bool)
      modifies this
      ensures View() == RemoveNode(old(View()), n) && existed == (n in old(nodes))
    {
      policies := policies - {n};
      policyVersions := policyVersions - {n};
      deploying := deploying - {n};
      existed := n in nodes;
      nodes := nodes - {n};
    }

    method UpdateHeartbeat(n: NodeId, state: NodeState, now: Time) returns (known: bool)
      modifies this`nodes
      ensures View() == Heartbeat(old(View()), n, state, now) && known == (n in old(nodes))
    {
      known := n in nodes;
      if known {
        nodes := nodes[n := nodes[n].(lastHeartbeat := now, state := state)];
      }
    }

    /** `Err` when the transition is not valid, `Ok(false)` when the node is unknown. */
    method UpdateNodeState(n: NodeId, state: NodeState) returns (r: Result<bool, NodeState>)
      modifies this`nodes
      ensures View() == SetState(old(View()), n, state)
      ensures r == if n !in old(nodes) then Ok(false)
                   else if CanTransition(old(nodes)[n].state, state) then Ok(true) else Err(old(nodes)[n].state)
    {
      if n in nodes {
        if state !in ValidTransitions(nodes[n].state) {
          return Err(nodes[n].state);
        }
        nodes := nodes[n := nodes[n].(state := state)];
        return Ok(true);
      }
      return Ok(false);
    }

    method AddPolicy(p: Policy) returns (version: nat)
      modifies this`policyVersions, this`policies
      ensures (View(), version) == StorePolicy(old(View()), p)
    {
      var history := if p.nodeId in policyVersions then policyVersions[p.nodeId] else [];
      version := |history| + 1;
      policyVersions := policyVersions[p.nodeId := history + [PolicyVersion(version, p)]];
      policies := policies[p.nodeId := p];
    }

    method GetPolicyHistory(n: NodeId, limit: nat) returns (h: seq<PolicyVersion>)
      ensures h == History(View(), n, limit)
    {
      var versions := if n in policyVersions then policyVersions[n] else [];
      h := [];
      while |h| < limit && |h| < |versions|
        invariant |h| <= limit && |h| <= |versions|
        invariant forall i :: 0 <= i < |h| ==> h[i] == versions[|versions| - 1 - i]
      {
        h := h + [versions[|versions| - 1 - |h|]];
      }
    }

    method RecordDeployment(d: Deployment)
      modifies this`deployments
      ensures View() == Log(old(View()), d)
    {
      deployments := deployments + [d];
    }

    method TakeGuard(n: NodeId) returns (ok: bool)
      modifies this`deploying
      ensures (View(), ok) == BeginDeploy(old(View()), n)
    {
      ok := n !in deploying;
      deploying := deploying + {n};
    }

    method ReleaseGuard(n: NodeId)
      modifies this`deploying
      ensures View() == EndDeploy(old(View()), n)
    {
      deploying := deploying - {n};
    }

    method MarkStaleNodes(now: Time, threshold: Time) returns (stale: set<NodeId>)
      modifies this`nodes
      ensures View() == MarkStale(old(View()), now, threshold)
      ensures stale == set n | n in old(nodes) && IsStale(old(nodes)[n], now, threshold)
    {
      var todo := nodes.Keys;
      ghost var before := nodes;
      stale := {};
      while todo != {}
        invariant todo <= before.Keys == nodes.Keys
        invariant forall n :: n in before ==>
          nodes[n] == if n in todo then before[n] else Reaped(before[n], now, threshold)
        invariant forall n :: n in stale <==> n in before && n !in todo && IsStale(before[n], now, threshold)
        decreases todo
      {
        var n :| n in todo;
        if IsStale(nodes[n], now, threshold) {
          nodes := nodes[n := nodes[n].(state := Offline)];
          stale := stale + {n};
        }
        todo := todo - {n};
      }
    }
  }

  // ----- integrity of the version store -----

  /** Versions are 1, 2, ... in order, all of this node. */
  ghost predicate Numbered(vs: seq<PolicyVersion>, n: NodeId) {
    forall k :: 0 <= k < |vs| ==> vs[k].version == k + 1 && vs[k].policy.nodeId == n
  }

  /** A numbered history, and the current policy is its last version in every field. */
  ghost predicate Current(vs: seq<PolicyVersion>, p: Policy, n: NodeId) {
    Numbered(vs, n) && vs != [] && p == vs[|vs| - 1].policy
  }

  ghost predicate VersionsOk(s: Store) {
    && s.policies.Keys == s.versions.Keys
    && forall n :: n in s.versions ==> Current(s.versions[n], s.policies[n], n)
  }

  /** The record names a stored version with the same hash. */
  ghost predicate Names(s: Store, d: Deployment) {
    var vs := VersionsOf(s, d.nodeId);
    1 <= d.version <= |vs| && vs[d.version - 1].policy.hash == d.hash
  }

  ghost predicate RecordsOk(s: Store) {
    forall d :: d in s.deployments && d.nodeId in s.nodes ==> Names(s, d)
  }

  /** A history query answers the newest versions, each number once, downwards. */
  lemma HistoryNewest(s: Store, n: NodeId, limit: nat)
    requires VersionsOk(s)
    ensures var h := History(s, n, limit);
            var vs := VersionsOf(s, n);
            && |h| == (if limit < |vs| then limit else |vs|)
            && (forall i :: 0 <= i < |h| ==> h[i] == vs[|vs| - 1 - i] && h[i].version == |vs| - i)
            && (h != [] ==> s.policies[n] == h[0].policy)
  {
  }

  /** The largest version number, as `MAX(version)` answers it; 0 stands for no row. */
  function MaxVersion(vs: seq<PolicyVersion>): nat
    decreases |vs|
  {
    if vs == [] then 0
    else
      var m := MaxVersion(vs[1..]);
      if vs[0].version > m then vs[0].version else m
  }

  lemma {:induction false} MaxNumbered(vs: seq<PolicyVersion>, from: nat)
    requires forall k :: 0 <= k < |vs| ==> vs[k].version == from + k + 1
    ensures MaxVersion(vs) == if vs == [] then 0 else from + |vs|
    decreases |vs|
  {
    if vs != [] {
      MaxNumbered(vs[1..], from + 1);
    }
  }

  /** The SQL backend's `MAX + 1` is the in-memory backend's `len + 1`. */
  lemma BackendsNumberAlike(s: Store, p: Policy)
    requires VersionsOk(s)
    ensures MaxVersion(VersionsOf(s, p.nodeId)) + 1 == StorePolicy(s, p).1
  {
    MaxNumbered(VersionsOf(s, p.nodeId), 0);
  }

  lemma StoreKeepsVersions(s: Store, p: Policy)
    requires VersionsOk(s)
    ensures VersionsOk(StorePolicy(s, p).0)
  {
    var s1 := StorePolicy(s, p).0;
    forall n | n in s1.versions ensures Current(s1.versions[n], s1.policies[n], n) {
      if n != p.nodeId {
        assert n in s.versions;
      }
    }
  }

  /** Stored versions never change, so a record that named one still does. */
  lemma StoreKeepsNames(s: Store, p: Policy, d: Deployment)
    requires Names(s, d)
    ensures Names(StorePolicy(s, p).0, d)
  {
  }
}
