/** What a caller sees of one deploy and of one rollback call, spelled out in the request, the node and the store. */
module DeployCalls {
  import opened Core
  import opened Text
  import opened Storage
  import opened Deploys
  import opened Actions
  import Engine

  // ----- refusal -----

  /** Which request needs which capability; an option left at 0 or empty stands for its default. */
  predicate Asks(raw: Options, key: string) {
    || (key == "compile.axi" && raw.axi)
    || (key == "compile.ports" && raw.ports > 1)
    || (key == "compile.dynamic" && raw.dynamic)
    || (key == "compile.width" && raw.width > 8)
    || (key == "compile.target" && raw.target != "" && raw.target != "standalone")
    || (key == "compile.ptp" && raw.ptp)
    || (key == "compile.rss" && raw.rss)
    || (key == "compile.rss_queues" && raw.rssQueues != 0 && raw.rssQueues != 4)
    || (key == "compile.int" && raw.intEnabled)
    || (key == "compile.int_switch_id" && raw.intSwitchId != 0)
  }

  /** The value is "true", in capital letters or small ones. */
  predicate SaysTrue(v: string) {
    |v| == 4 && v[0] in {'t', 'T'} && v[1] in {'r', 'R'} && v[2] in {'u', 'U'} && v[3] in {'e', 'E'}
  }

  predicate Grants(capabilities: map<string, string>, key: string) {
    key in capabilities && SaysTrue(capabilities[key])
  }

  ghost predicate Refused(capabilities: map<string, string>, raw: Options) {
    exists key :: Asks(raw, key) && !Grants(capabilities, key)
  }

  lemma TrueInAnyCase(v: string)
    ensures AsciiLower(v) == "true" <==> SaysTrue(v)
  {
    if |v| == 4 {
      LowerIs(v[0], 't', 'T');
      LowerIs(v[1], 'r', 'R');
      LowerIs(v[2], 'u', 'U');
      LowerIs(v[3], 'e', 'E');
      hide Lower;
      var l := AsciiLower(v);
      assert l == "true" <==> l[0] == 't' && l[1] == 'r' && l[2] == 'u' && l[3] == 'e';
    } else {
      assert |AsciiLower(v)| == |v|;
    }
  }

  lemma HasIsGrants(capabilities: map<string, string>, key: string)
    ensures HasCapability(capabilities, key) <==> Grants(capabilities, key)
  {
    hide AsciiLower, SaysTrue;
    if key in capabilities {
      TrueInAnyCase(capabilities[key]);
    }
  }

  /** The ten questions of the gate, asked of the options after their defaults. */
  lemma AsksAre(raw: Options)
    ensures var o := Normalize(raw);
            && (o.axi <==> Asks(raw, "compile.axi"))
            && (o.ports > 1 <==> Asks(raw, "compile.ports"))
            && (o.dynamic <==> Asks(raw, "compile.dynamic"))
            && (o.width > 8 <==> Asks(raw, "compile.width"))
            && (o.target != "" && o.target != "standalone" <==> Asks(raw, "compile.target"))
            && (o.ptp <==> Asks(raw, "compile.ptp"))
            && (o.rss <==> Asks(raw, "compile.rss"))
            && (o.rssQueues != 4 <==> Asks(raw, "compile.rss_queues"))
            && (o.intEnabled <==> Asks(raw, "compile.int"))
            && (o.intSwitchId != 0 <==> Asks(raw, "compile.int_switch_id"))
  {
  }

  const KEYS := {"compile.axi", "compile.ports", "compile.dynamic", "compile.width", "compile.target", "compile.ptp",
                 "compile.rss", "compile.rss_queues", "compile.int", "compile.int_switch_id"}

  lemma AsksKnown(raw: Options, key: string)
    requires Asks(raw, key)
    ensures key in KEYS
  {
  }

  lemma NotRefused(capabilities: map<string, string>, raw: Options)
    requires !Refused(capabilities, raw)
    ensures Capable(capabilities, Normalize(raw))
  {
    hide HasCapability, Grants, Asks, Normalize;
    AsksAre(raw);
    forall key ensures HasCapability(capabilities, key) <==> Grants(capabilities, key) {
      HasIsGrants(capabilities, key);
    }
  }

  lemma RefusedOnce(capabilities: map<string, string>, raw: Options)
    requires Refused(capabilities, raw)
    ensures !Capable(capabilities, Normalize(raw))
  {
    hide HasCapability, Grants, Asks, Normalize;
    AsksAre(raw);
    var key :| Asks(raw, key) && !Grants(capabilities, key);
    AsksKnown(raw, key);
    HasIsGrants(capabilities, key);
  }

  lemma GateIff(capabilities: map<string, string>, raw: Options)
    ensures !Capable(capabilities, Normalize(raw)) <==> Refused(capabilities, raw)
  {
    hide Capable, Normalize, Refused;
    if Refused(capabilities, raw) {
      RefusedOnce(capabilities, raw);
    } else {
      NotRefused(capabilities, raw);
    }
  }

  /**
   * A deploy is refused, with nothing stored, recorded or sent, exactly when the request needs a capability
   * that the node does not advertise as "true", in any letter case.
   */
  lemma RefusedIff(
    s: Store, node: Node, rules: string, raw: Options, a: Answer, now: Time, H: string -> string)
    ensures DeployToNode(s, node, rules, raw, a, now, H) == (s, Outcome(false, AgentFailure, 0, false, false))
            <==> Refused(node.capabilities, raw)
  {
    GateIff(node.capabilities, raw);
    hide Capable, Normalize, Refused, History, StorePolicy, SetState, Log, PolicyMatches;
  }

  // ----- what is stored -----

  /** The options of the request, each with its default for 0 or empty. */
  predicate AsAsked(o: Options, raw: Options) {
    && o.counters == raw.counters && o.rateLimit == raw.rateLimit && o.conntrack == raw.conntrack
    && o.axi == raw.axi && o.dynamic == raw.dynamic && o.ptp == raw.ptp && o.rss == raw.rss
    && o.intEnabled == raw.intEnabled && o.intSwitchId == raw.intSwitchId
    && o.ports == (if raw.ports == 0 then 1 else raw.ports)
    && o.dynamicEntries == (if raw.dynamicEntries == 0 then 16 else raw.dynamicEntries)
    && o.width == (if raw.width == 0 then 8 else raw.width)
    && o.rssQueues == (if raw.rssQueues == 0 then 4 else raw.rssQueues)
    && o.target == (if raw.target == "" then "standalone" else raw.target)
  }

  lemma NormalizeIs(o: Options, raw: Options)
    ensures o == Normalize(raw) <==> AsAsked(o, raw)
  {
  }

  /** The node was fetched Active, and what is stored for it is this very request. */
  predicate AlreadyThere(s: Store, node: Node, rules: string, raw: Options, H: string -> string) {
    && node.state == Active && node.id in s.policies
    && s.policies[node.id].rules == rules && s.policies[node.id].hash == H(rules)
    && AsAsked(s.policies[node.id].options, raw)
  }

  /** How the call to the agent is reported. */
  function Reported(a: Answer): DeploymentResult {
    if a == Accepted then Success
    else if a == Rejected then AgentFailure
    else if a == TimedOut then Timeout
    else AgentUnreachable
  }

  /** The state of a node after a deploy that contacted its agent. */
  function StateAfter(from: NodeState, a: Answer): NodeState {
    if from == Registered || from == Offline then from else if a == Accepted then Active else Error
  }

  /**
   * A deploy that is not refused is skipped exactly when the node was fetched Active and the very request
   * is stored for it. It then records a success under the newest version and does nothing else.
   */
  lemma SkippedIff(
    s: Store, node: Node, rules: string, raw: Options, a: Answer, now: Time, H: string -> string)
    requires VersionsOk(s) && !Refused(node.capabilities, raw)
    ensures var (s1, r) := DeployToNode(s, node, rules, raw, a, now, H);
            && (r.noChange <==> AlreadyThere(s, node, rules, raw, H)) && r.contacted == !r.noChange
            && (r.noChange ==>
                  var newest := |VersionsOf(s, node.id)|;
                  && r == Outcome(true, Success, newest, false, true)
                  && s1 == s.(deployments := s.deployments + [Deployment(node.id, newest, H(rules), now, Success)]))
  {
    GateIff(node.capabilities, raw);
    NormalizeIs(if node.id in s.policies then s.policies[node.id].options else raw, raw);
    HistoryNewest(s, node.id, 1);
    VersionsKeys(s);
    hide Capable, Normalize, Refused, AsAsked, StorePolicy, SetState, History, VersionsOk;
  }

  /**
   * Any other deploy stores the request as the next version and current policy, calls the agent, writes
   * what its answer makes of the node's state, and records the result; it touches no other node.
   */
  lemma DeliveredIs(
    s: Store, node: Node, rules: string, raw: Options, a: Answer, now: Time, H: string -> string)
    requires !Refused(node.capabilities, raw) && !AlreadyThere(s, node, rules, raw, H)
    ensures var (s1, r) := DeployToNode(s, node, rules, raw, a, now, H);
            var n := node.id;
            var version := |VersionsOf(s, n)| + 1;
            && r == Outcome(a == Accepted, Reported(a), version, true, false)
            && n in s1.policies && AsAsked(s1.policies[n].options, raw)
            && s1.policies[n] == Policy(n, rules, H(rules), now, s1.policies[n].options)
            && s1.policies == s.policies[n := s1.policies[n]]
            && s1.versions == s.versions[n := VersionsOf(s, n) + [PolicyVersion(version, s1.policies[n])]]
            && s1.deployments == s.deployments + [Deployment(n, version, H(rules), now, Reported(a))]
            && s1.deploying == s.deploying
            && s1.nodes == (if n in s.nodes then s.nodes[n := s.nodes[n].(state := StateAfter(s.nodes[n].state, a))]
                            else s.nodes)
  {
    GateIff(node.capabilities, raw);
    NormalizeIs(if node.id in s.policies then s.policies[node.id].options else raw, raw);
    NormalizeIs(Normalize(raw), raw);
    hide Capable, Normalize, Refused, AsAsked, History, SetState;
    var p := Policy(node.id, rules, H(rules), now, Normalize(raw));
    var s1 := StorePolicy(s, p).0;
    StatesAfter(s1, node.id, a);
    StateFrame(s1, node.id, Deploying);
    StateFrame(SetState(s1, node.id, Deploying), node.id, if a == Accepted then Active else Error);
  }

  lemma StateFrame(s: Store, n: NodeId, state: NodeState)
    ensures SetState(s, n, state) == s.(nodes := SetState(s, n, state).nodes)
  {
  }

  lemma StatesAfter(s: Store, n: NodeId, a: Answer)
    ensures SetState(SetState(s, n, Deploying), n, if a == Accepted then Active else Error).nodes
            == if n in s.nodes then s.nodes[n := s.nodes[n].(state := StateAfter(s.nodes[n].state, a))] else s.nodes
  {
  }

  // ----- many nodes -----

  /** Whether deploying to this node succeeds, as far as the store and its agent's answer tell beforehand. */
  ghost predicate Succeeds(s: Store, node: Node, rules: string, raw: Options, a: Answer, H: string -> string) {
    && node.id !in s.deploying && !Refused(node.capabilities, raw)
    && (AlreadyThere(s, node, rules, raw, H) || a == Accepted)
  }

  /** The part of the store that decides about a node. */
  predicate SameFor(s: Store, s1: Store, n: NodeId) {
    GetPolicy(s1, n) == GetPolicy(s, n) && (n in s1.deploying <==> n in s.deploying)
  }

  lemma SucceedsFrame(
    s: Store, s1: Store, node: Node, rules: string, raw: Options, a: Answer, H: string -> string)
    requires SameFor(s, s1, node.id)
    ensures Succeeds(s1, node, rules, raw, a, H) <==> Succeeds(s, node, rules, raw, a, H)
  {
    hide Refused, AsAsked;
    assert GetPolicy(s1, node.id) == GetPolicy(s, node.id);
  }

  lemma PolicyElsewhere(
    s: Store, node: Node, rules: string, raw: Options, a: Answer, now: Time, H: string -> string, m: NodeId)
    requires m != node.id
    ensures GetPolicy(DeployToNode(s, node, rules, raw, a, now, H).0, m) == GetPolicy(s, m)
  {
    DeployFrame(s, node, rules, raw, a, now, H);
    hide DeployToNode, Capable, Normalize;
  }

  lemma GuardedIff(s: Store, node: Node, rules: string, raw: Options, a: Answer, now: Time, H: string -> string)
    ensures var (s1, success) := DeployGuarded(s, node, rules, raw, a, now, H);
            && success == Succeeds(s, node, rules, raw, a, H)
            && forall m :: m != node.id ==> SameFor(s, s1, m)
  {
    hide Refused, AlreadyThere, DeployToNode;
    var g := BeginDeploy(s, node.id).0;
    DeployKeepsGuard(g, node, rules, raw, a, now, H);
    SuccessOf(g, node, rules, raw, a, now, H);
    AlreadyFrame(s, g, node, rules, raw, H);
    var s2 := DeployToNode(g, node, rules, raw, a, now, H).0;
    forall m | m != node.id ensures GetPolicy(s2, m) == GetPolicy(s, m) {
      PolicyElsewhere(g, node, rules, raw, a, now, H, m);
    }
  }

  lemma AlreadyFrame(s: Store, s1: Store, node: Node, rules: string, raw: Options, H: string -> string)
    requires s1.policies == s.policies
    ensures AlreadyThere(s1, node, rules, raw, H) <==> AlreadyThere(s, node, rules, raw, H)
  {
    hide AsAsked;
  }

  lemma SuccessOf(s: Store, node: Node, rules: string, raw: Options, a: Answer, now: Time, H: string -> string)
    ensures DeployToNode(s, node, rules, raw, a, now, H).1.success
            <==> !Refused(node.capabilities, raw) && (AlreadyThere(s, node, rules, raw, H) || a == Accepted)
  {
    GateIff(node.capabilities, raw);
    NormalizeIs(if node.id in s.policies then s.policies[node.id].options else raw, raw);
    hide Capable, Normalize, Refused, AsAsked, StorePolicy, SetState, History, Log;
  }

  /**
   * Deploying to nodes with distinct ids: each succeeds exactly when its guard is free, its request is not
   * refused, and the request is there already or its agent accepts it.
   */
  lemma {:induction false} DeployNodesIff(
    s: Store, nodes: seq<Node>, rules: string, raw: Options, answers: seq<Answer>, now: Time, H: string -> string)
    requires |answers| == |nodes| && forall i, j :: 0 <= i < j < |nodes| ==> nodes[i].id != nodes[j].id
    ensures var (s1, results) := DeployToNodes(s, nodes, rules, raw, answers, now, H);
            && |results| == |nodes|
            && (forall k :: 0 <= k < |nodes| ==>
                  results[k] == Engine.NodeResult(nodes[k].id, Succeeds(s, nodes[k], rules, raw, answers[k], H)))
            && forall m :: (forall k :: 0 <= k < |nodes| ==> nodes[k].id != m) ==> SameFor(s, s1, m)
    decreases |nodes|
  {
    hide Succeeds, SameFor, DeployGuarded;
    if nodes == [] {
      forall m ensures SameFor(s, s, m) {
        SameForItself(s, m);
      }
    } else {
      var last := |nodes| - 1;
      var init, x, a := nodes[..last], nodes[last], answers[last];
      DeployNodesIff(s, init, rules, raw, answers[..last], now, H);
      var (s1, results) := DeployToNodes(s, init, rules, raw, answers[..last], now, H);
      GuardedIff(s1, x, rules, raw, a, now, H);
      assert SameFor(s, s1, x.id);
      SucceedsFrame(s, s1, x, rules, raw, a, H);
      var s2 := DeployGuarded(s1, x, rules, raw, a, now, H).0;
      forall m | forall k :: 0 <= k < |nodes| ==> nodes[k].id != m ensures SameFor(s, s2, m) {
        assert nodes[last].id != m;
        assert forall k :: 0 <= k < |init| ==> init[k].id == nodes[k].id;
        SameForBoth(s, s1, s2, m);
      }
    }
  }

  lemma SameForItself(s: Store, n: NodeId)
    ensures SameFor(s, s, n)
  {
  }

  lemma SameForBoth(s: Store, s1: Store, s2: Store, n: NodeId)
    requires SameFor(s, s1, n) && SameFor(s1, s2, n)
    ensures SameFor(s, s2, n)
  {
  }

  // ----- the rollback call -----

  /** The version a rollback request means: 0 stands for the one before the current. */
  function Meant(s: Store, n: NodeId, requested: nat): int {
    if requested == 0 then |VersionsOf(s, n)| - 1 else requested
  }

  /** The request means a version among the newest ten. */
  predicate InReach(s: Store, n: NodeId, requested: nat) {
    1 <= Meant(s, n, requested) <= |VersionsOf(s, n)| < Meant(s, n, requested) + 10
  }

  /** Every rollback call that deploys nothing leaves the store as it was; this is what it answers. */
  lemma RollbackRefused(s: Store, n: NodeId, requested: nat, a: Answer, now: Time, H: string -> string)
    requires VersionsOk(s)
    requires n !in s.nodes || n in s.deploying || !InReach(s, n, requested)
    ensures Rollback(s, n, requested, a, now, H)
            == (s, if n !in s.nodes then Err(NodeNotFound)
                   else if VersionsOf(s, n) == [] || (requested == 0 && |VersionsOf(s, n)| < 2)
                   then Ok(Response(false, 0, false))
                   else if !InReach(s, n, requested) then Err(VersionNotFound)
                   else Err(ConcurrentDeploy))
  {
    hide DeployToNode;
    HistoryNewest(s, n, HISTORY_LIMIT);
    if requested >= 1 {
      RollbackReaches(s, n, requested);
    }
    hide History, VersionsOk, FindVersion;
  }

  ghost predicate Reachable(s: Store, n: NodeId, requested: nat, H: string -> string) {
    && StoreOk(s, H) && n in s.nodes && s.nodes[n].id == n && n !in s.deploying && InReach(s, n, requested)
  }

  /** The version that a rollback call is about. */
  ghost function Target(s: Store, n: NodeId, requested: nat): Policy
    requires InReach(s, n, requested)
  {
    VersionsOf(s, n)[Meant(s, n, requested) - 1].policy
  }

  /** The node runs the target's content already, as far as the store says. */
  predicate NothingToDo(s: Store, n: NodeId, requested: nat)
    requires n in s.nodes && InReach(s, n, requested)
  {
    && s.nodes[n].state == Active && n in s.policies
    && SameContent(s.policies[n], VersionsOf(s, n)[Meant(s, n, requested) - 1].policy)
  }

  lemma VersionOk(s: Store, n: NodeId, k: nat, H: string -> string)
    requires StoreOk(s, H) && n in s.nodes && k < |VersionsOf(s, n)|
    ensures var v := VersionsOf(s, n)[k];
            && v.version == k + 1 && v.policy.nodeId == n && Deployable(v.policy, s.nodes[n].capabilities, H)
            && n in s.versions && n in s.policies
  {
    hide Deployable, RecordsOk;
    assert Current(s.versions[n], s.policies[n], n);
    assert EachDeployable(VersionsOf(s, n), s.nodes[n].capabilities, H);
  }

  lemma ReachedByNumber(s: Store, n: NodeId, requested: nat)
    requires VersionsOk(s) && InReach(s, n, requested)
    ensures RollbackTarget(History(s, n, HISTORY_LIMIT), requested)
            == Some(VersionsOf(s, n)[Meant(s, n, requested) - 1])
    ensures History(s, n, HISTORY_LIMIT) != [] && History(s, n, HISTORY_LIMIT)[0].version == |VersionsOf(s, n)|
  {
    hide VersionsOk, History, FindVersion;
    HistoryNewest(s, n, HISTORY_LIMIT);
    if requested >= 1 {
      RollbackReaches(s, n, requested);
    }
  }

  lemma TargetOk(s: Store, n: NodeId, requested: nat, H: string -> string)
    requires Reachable(s, n, requested, H)
    ensures var p := Target(s, n, requested);
            && p.nodeId == n && Deployable(p, s.nodes[n].capabilities, H)
            && RollbackTarget(History(s, n, HISTORY_LIMIT), requested) == Some(PolicyVersion(Meant(s, n, requested), p))
            && History(s, n, HISTORY_LIMIT) != []
            && History(s, n, HISTORY_LIMIT)[0].version == |VersionsOf(s, n)|
            && n in s.versions && n in s.policies
  {
    hide Deployable, History, VersionsOk, RollbackTarget, RecordsOk, AllDeployable;
    VersionOk(s, n, Meant(s, n, requested) - 1, H);
    ReachedByNumber(s, n, requested);
  }

  /**
   * Whatever the agent answers, a rollback to a version in reach makes that version's content current; its
   * answer names 0 after a failure, the newest version when there was nothing to do, and else the version
   * asked for; and the guard is free afterwards.
   */
  lemma RollbackDelivers(s: Store, n: NodeId, requested: nat, a: Answer, now: Time, H: string -> string)
    requires Reachable(s, n, requested, H)
    ensures var (s1, r) := Rollback(s, n, requested, a, now, H);
            var skip := NothingToDo(s, n, requested);
            var success := skip || a == Accepted;
            && n in s1.policies && SameContent(s1.policies[n], Target(s, n, requested))
            && StoreOk(s1, H) && s1.deploying == s.deploying
            && r == Ok(Response(success,
                                if !success then 0 else if skip then |VersionsOf(s, n)| else Meant(s, n, requested),
                                skip))
  {
    hide StoreOk, Deployable, History, RollbackTarget, DeployToNode, Target, NothingToDo, InReach;
    TargetOk(s, n, requested, H);
    var p := Target(s, n, requested);
    var g := BeginDeploy(s, n).0;
    GuardFrame(s, g.deploying, H);
    DeployStored(g, n, p, a, now, H);
    DeployKeeps(g, s.nodes[n], p.rules, p.options, a, now, H);
    var s2 := DeployToNode(g, s.nodes[n], p.rules, p.options, a, now, H).0;
    GuardFrame(s2, EndDeploy(s2, n).deploying, H);
    DeployKeepsGuard(g, s.nodes[n], p.rules, p.options, a, now, H);
    assert s.deploying + {n} - {n} == s.deploying;
    StoredDeploy(g, s, n, requested, a, now, H);
  }

  /** A stored version is what was asked for when it was deployed, so no more is needed for it than was then. */
  lemma StoredAsked(s: Store, n: NodeId, p: Policy, H: string -> string)
    requires n in s.nodes && s.nodes[n].id == n && p.nodeId == n && Deployable(p, s.nodes[n].capabilities, H)
    requires n in s.policies && s.policies[n].nodeId == n
    ensures !Refused(s.nodes[n].capabilities, p.options)
    ensures AlreadyThere(s, s.nodes[n], p.rules, p.options, H)
            <==> s.nodes[n].state == Active && SameContent(s.policies[n], p)
  {
    GateIff(s.nodes[n].capabilities, p.options);
    NormalizeIs(s.policies[n].options, p.options);
    hide Refused, Capable, Normalize, AsAsked;
  }

  /** Deploying a stored version is never refused, and skipped exactly when there is nothing to do. */
  lemma StoredDeploy(g: Store, s: Store, n: NodeId, requested: nat, a: Answer, now: Time, H: string -> string)
    requires Reachable(s, n, requested, H) && g == s.(deploying := g.deploying)
    ensures var p := Target(s, n, requested);
            var r := DeployToNode(g, s.nodes[n], p.rules, p.options, a, now, H).1;
            && r.noChange == NothingToDo(s, n, requested) && r.success == (r.noChange || a == Accepted)
  {
    hide StoreOk, DeployToNode, Deployable, History, RollbackTarget, Refused, AlreadyThere, SameContent, VersionsOf;
    TargetOk(s, n, requested, H);
    var p := Target(s, n, requested);
    PolicyIds(s, n, H);
    StoredAsked(s, n, p, H);
    AlreadyFrame(s, g, s.nodes[n], p.rules, p.options, H);
    GuardFrame(s, g.deploying, H);
    StoreVersions(g, H);
    SkippedIff(g, s.nodes[n], p.rules, p.options, a, now, H);
    SuccessOf(g, s.nodes[n], p.rules, p.options, a, now, H);
  }

  lemma PolicyIds(s: Store, n: NodeId, H: string -> string)
    requires StoreOk(s, H) && n in s.policies
    ensures s.policies[n].nodeId == n
  {
    hide RecordsOk, AllDeployable;
    assert Current(s.versions[n], s.policies[n], n);
  }

  lemma StoreVersions(s: Store, H: string -> string)
    requires StoreOk(s, H)
    ensures VersionsOk(s)
  {
    hide VersionsOk, RecordsOk, AllDeployable;
  }

  // ----- the rollback action -----

  /** Whether rolling this node back succeeds, as far as the store and its agent's answer tell beforehand. */
  predicate GoesBack(s: Store, n: NodeId, a: Answer) {
    && n in s.nodes && n in s.versions && |s.versions[n]| >= 2
    && (a == Accepted || AlreadyBack(s, n))
  }

  /** The node is Active, and its policy has the content of the version before it. */
  predicate AlreadyBack(s: Store, n: NodeId)
    requires n in s.nodes && n in s.versions && |s.versions[n]| >= 2
  {
    && s.nodes[n].state == Active && n in s.policies
    && SameContent(s.policies[n], s.versions[n][|s.versions[n]| - 2].policy)
  }

  /** Everything the store keeps of the node is as it was. */
  ghost predicate Untouched(s: Store, s1: Store, n: NodeId) {
    SameNode(s, s1, n) && (n in s.nodes && n in s1.nodes ==> s1.nodes[n] == s.nodes[n])
  }

  lemma RollBackIff(s: Store, n: NodeId, a: Answer, now: Time, H: string -> string)
    requires StoreOk(s, H) && IdsOk(s)
    ensures RollBackNode(s, n, a, now, H).1 <==> GoesBack(s, n, a)
  {
    hide StoreOk, DeployToNode, History, Target, NothingToDo;
    PreviousInHistory(s, n, H);
    if n in s.nodes && n in s.versions && |s.versions[n]| >= 2 {
      var s0 := s.(deploying := s.deploying - {n});
      GuardFrame(s, s0.deploying, H);
      StoredDeploy(s, s0, n, 0, a, now, H);
      BackIsTarget(s, s0, n);
    }
  }

  lemma PreviousInHistory(s: Store, n: NodeId, H: string -> string)
    requires StoreOk(s, H)
    ensures var h := History(s, n, 2);
            && (|h| >= 2 <==> n in s.versions && |s.versions[n]| >= 2)
            && (|h| >= 2 ==> h[1].policy == s.versions[n][|s.versions[n]| - 2].policy)
  {
  }

  lemma BackIsTarget(s: Store, s0: Store, n: NodeId)
    requires n in s.nodes && n in s.versions && |s.versions[n]| >= 2 && s0 == s.(deploying := s0.deploying)
    ensures InReach(s0, n, 0) && Target(s0, n, 0) == s.versions[n][|s.versions[n]| - 2].policy
    ensures NothingToDo(s0, n, 0) <==> AlreadyBack(s, n)
  {
  }

  lemma StatesElsewhere(s: Store, n: NodeId, m: NodeId, state: NodeState)
    requires m != n
    ensures var s1 := SetState(s, n, state);
            (m in s1.nodes <==> m in s.nodes) && (m in s.nodes ==> s1.nodes[m] == s.nodes[m])
  {
  }

  lemma NodeElsewhere(
    s: Store, node: Node, rules: string, raw: Options, a: Answer, now: Time, H: string -> string, m: NodeId)
    requires m != node.id
    ensures var s1 := DeployToNode(s, node, rules, raw, a, now, H).0;
            (m in s1.nodes <==> m in s.nodes) && (m in s.nodes ==> s1.nodes[m] == s.nodes[m])
  {
    hide Capable, Normalize, History, StorePolicy, SetState, PolicyMatches;
    var p := Policy(node.id, rules, H(rules), now, Normalize(raw));
    var s1 := StorePolicy(s, p).0;
    StorePolicyNodes(s, p);
    StatesElsewhere(s1, node.id, m, Deploying);
    StatesElsewhere(SetState(s1, node.id, Deploying), node.id, m, if a == Accepted then Active else Error);
  }

  lemma StorePolicyNodes(s: Store, p: Policy)
    ensures StorePolicy(s, p).0.nodes == s.nodes
  {
  }

  lemma RollBackElsewhere(s: Store, n: NodeId, m: NodeId, a: Answer, now: Time, H: string -> string)
    requires IdsOk(s) && m != n
    ensures Untouched(s, RollBackNode(s, n, a, now, H).0, m)
  {
    hide SameNode, DeployToNode, History;
    ElsewhereSame(s, n, m, a, now, H);
    var h := History(s, n, 2);
    if |h| >= 2 && n in s.nodes {
      NodeElsewhere(s, s.nodes[n], h[1].policy.rules, h[1].policy.options, a, now, H, m);
    }
  }

  lemma BackFrame(s: Store, s1: Store, n: NodeId, a: Answer)
    requires Untouched(s, s1, n)
    ensures GoesBack(s1, n, a) <==> GoesBack(s, n, a)
  {
    assert VersionsOf(s1, n) == VersionsOf(s, n) && GetPolicy(s1, n) == GetPolicy(s, n);
  }

  lemma UntouchedBoth(s: Store, s1: Store, s2: Store, n: NodeId)
    requires Untouched(s, s1, n) && Untouched(s1, s2, n)
    ensures Untouched(s, s2, n)
  {
    SameBoth(s, s1, s2, n);
  }

  lemma UntouchedItself(s: Store, n: NodeId)
    ensures Untouched(s, s, n)
  {
    SameItself(s, n);
  }

  /**
   * Rolling back distinct nodes: each succeeds exactly when it has a previous version and its agent accepts
   * it or runs it already, as far as the store says; no other node is touched.
   */
  lemma {:induction false} RollBackNodesIff(
    s: Store, ids: seq<NodeId>, answers: seq<Answer>, now: Time, H: string -> string)
    requires |answers| == |ids| && NoDup(ids) && StoreOk(s, H) && IdsOk(s)
    ensures var (s1, results) := RollBackNodes(s, ids, answers, now, H);
            && |results| == |ids|
            && (forall k :: 0 <= k < |ids| ==> results[k] == Engine.NodeResult(ids[k], GoesBack(s, ids[k], answers[k])))
            && forall m :: m !in ids ==> Untouched(s, s1, m)
    decreases |ids|
  {
    hide StoreOk, IdsOk, RollBackNode, Untouched, GoesBack;
    if ids == [] {
      forall m ensures Untouched(s, s, m) {
        UntouchedItself(s, m);
      }
    } else {
      var last := |ids| - 1;
      var init, x, a := ids[..last], ids[last], answers[last];
      assert ids == init + [x] && x !in init;
      RollBackNodesIff(s, init, answers[..last], now, H);
      RollBackReverts(s, init, answers[..last], now, H);
      var s1 := RollBackNodes(s, init, answers[..last], now, H).0;
      RollBackIff(s1, x, a, now, H);
      BackFrame(s, s1, x, a);
      forall m | m !in ids ensures Untouched(s, RollBackNode(s1, x, a, now, H).0, m) {
        RollBackElsewhere(s1, x, m, a, now, H);
        UntouchedBoth(s, s1, RollBackNode(s1, x, a, now, H).0, m);
      }
    }
  }
}
