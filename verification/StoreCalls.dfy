/** What the store's operations do to one another: silence, removal, the guard, and the version history. */
module StoreCalls {
  import opened Core
  import opened Storage

  /** Which states a node may be set to `to` from. */
  lemma TransitionsInto(from: NodeState, to: NodeState)
    ensures CanTransition(from, to) <==>
              match to
              case Registered => false
              case Online => from in {Registered, Error, Offline}
              case Deploying => from in {Online, Active, Error}
              case Active => from == Deploying
              case Error => from in {Online, Deploying, Active}
              case Offline => from != Offline
  {
  }

  /** The state a sweep leaves a node in that reported `state` at `at`. */
  function Swept(state: NodeState, at: Time, now: Time, threshold: Time): NodeState {
    if state != Offline && state != Registered && at + threshold < now then Offline else state
  }

  /**
   * After a heartbeat, a sweep at any time leaves the node in the state it reported, or Offline if it has
   * been silent for longer than the threshold since; every other node goes by its own last heartbeat.
   */
  lemma SilentIff(s: Store, n: NodeId, state: NodeState, at: Time, now: Time, threshold: Time)
    requires n in s.nodes
    ensures var s1 := MarkStale(Heartbeat(s, n, state, at), now, threshold);
            && s1 == s.(nodes := s1.nodes) && s1.nodes.Keys == s.nodes.Keys
            && s1.nodes[n] == s.nodes[n].(lastHeartbeat := at, state := Swept(state, at, now, threshold))
            && forall m :: m in s.nodes && m != n ==>
                 s1.nodes[m] == s.nodes[m].(state := Swept(s.nodes[m].state, s.nodes[m].lastHeartbeat, now, threshold))
  {
  }

  /** A heartbeat of an unknown node changes nothing, and a registration only that node. */
  lemma UnknownNode(s: Store, n: NodeId, state: NodeState, at: Time, node: Node)
    requires n !in s.nodes && node.id == n
    ensures Heartbeat(s, n, state, at) == s
    ensures var s1 := Register(s, node);
            && s1 == s.(nodes := s1.nodes) && s1.nodes.Keys == s.nodes.Keys + {n} && s1.nodes[n] == node
            && forall m :: m in s.nodes ==> s1.nodes[m] == s.nodes[m]
  {
  }

  /**
   * Removing a node forgets its policy, its versions and its guard: registered again it starts at
   * version 1, with its guard free. Deployment records stay, and no other node is touched.
   */
  lemma RemovalForgets(s: Store, node: Node, p: Policy)
    requires p.nodeId == node.id
    ensures var n := node.id;
            var s1 := Register(RemoveNode(s, n), node);
            && n !in s1.policies && History(s1, n, 10) == [] && BeginDeploy(s1, n).1
            && StorePolicy(s1, p).1 == 1 && History(StorePolicy(s1, p).0, n, 10) == [PolicyVersion(1, p)]
            && s1.deployments == s.deployments
            && forall m :: m != n ==>
                 && (m in s1.nodes <==> m in s.nodes) && (m in s.nodes ==> s1.nodes[m] == s.nodes[m])
                 && GetPolicy(s1, m) == GetPolicy(s, m) && VersionsOf(s1, m) == VersionsOf(s, m)
                 && (m in s1.deploying <==> m in s.deploying)
  {
  }

  /** The guard is given to one at a time: the next to ask gets it exactly when it was given back. */
  lemma GuardIs(s: Store, n: NodeId, m: NodeId)
    ensures var (s1, ok) := BeginDeploy(s, n);
            && (ok <==> n !in s.deploying)
            && s1 == s.(deploying := s1.deploying)
            && !BeginDeploy(s1, n).1 && BeginDeploy(EndDeploy(s1, n), n).1
            && (m != n ==> BeginDeploy(s1, m).1 == BeginDeploy(s, m).1 == BeginDeploy(EndDeploy(s1, n), m).1)
            && (ok ==> EndDeploy(s1, n) == s)
  {
    assert n !in s.deploying ==> s.deploying + {n} - {n} == s.deploying;
  }

  /** A stored policy is the newest version in the history, before all that were there; no other history changes. */
  lemma StoredIsNewest(s: Store, p: Policy, limit: nat, m: NodeId)
    requires limit >= 1
    ensures var (s1, version) := StorePolicy(s, p);
            && History(s1, p.nodeId, limit) == [PolicyVersion(version, p)] + History(s, p.nodeId, limit - 1)
            && GetPolicy(s1, p.nodeId) == Some(p)
            && (m != p.nodeId ==> History(s1, m, limit) == History(s, m, limit) && GetPolicy(s1, m) == GetPolicy(s, m))
            && s1 == s.(versions := s1.versions, policies := s1.policies)
  {
  }
}
