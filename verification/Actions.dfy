/** The engine's deploy and rollback actions on the store, and the answers they give the engine. */
module Actions {
  import opened Core
  import opened Storage
  import opened Deploys
  import Engine

  // ----- the rollback action -----

  /** One node: its previous version is deployed, without the guard; without one, or without the node, it fails. */
  function RollBackNode(s: Store, n: NodeId, a: Answer, now: Time, H: string -> string): (Store, bool) {
    var h := History(s, n, 2);
    if |h| < 2 || n !in s.nodes then (s, false)
    else
      var (s1, r) := DeployToNode(s, s.nodes[n], h[1].policy.rules, h[1].policy.options, a, now, H);
      (s1, r.success)
  }

  function RollBackNodes(
    s: Store, ids: seq<NodeId>, answers: seq<Answer>, now: Time, H: string -> string): (Store, seq<Engine.NodeResult>)
    requires |answers| == |ids|
    decreases |ids|
  {
    if ids == [] then (s, [])
    else
      var last := |ids| - 1;
      var (s1, results) := RollBackNodes(s, ids[..last], answers[..last], now, H);
      var (s2, success) := RollBackNode(s1, ids[last], answers[last], now, H);
      (s2, results + [Engine.NodeResult(ids[last], success)])
  }

  lemma RollBackFirst(s: Store, ids: seq<NodeId>, answers: seq<Answer>, now: Time, H: string -> string)
    requires |answers| == |ids|
    ensures RollBackNodes(s, ids[..0], answers[..0], now, H) == (s, [])
  {
  }

  lemma RollBackNext(s: Store, ids: seq<NodeId>, k: nat, answers: seq<Answer>, now: Time, H: string -> string)
    requires |answers| == |ids| && k < |ids|
    ensures var (s1, results) := RollBackNodes(s, ids[..k], answers[..k], now, H);
            var (s2, success) := RollBackNode(s1, ids[k], answers[k], now, H);
            RollBackNodes(s, ids[..k + 1], answers[..k + 1], now, H)
              == (s2, results + [Engine.NodeResult(ids[k], success)])
  {
    hide RollBackNode;
    assert ids[..k + 1][..k] == ids[..k] && answers[..k + 1][..k] == answers[..k];
  }

  method RollBackDeployed(st: MemoryStorage, ids: seq<NodeId>, answers: seq<Answer>, now: Time, H: string -> string)
    returns (r: Engine.ActionResult)
    requires |answers| == |ids|
    modifies st
    ensures var (s, results) := RollBackNodes(old(st.View()), ids, answers, now, H);
            st.View() == s && r == Engine.Summary(results)
  {
    hide DeployToNode, RollBackNodes;
    var results: seq<Engine.NodeResult>, succeeded, failed := [], 0, 0;
    var k := 0;
    ghost var s0 := st.View();
    RollBackFirst(s0, ids, answers, now, H);
    while k < |ids|
      invariant 0 <= k <= |ids|
      invariant (st.View(), results) == RollBackNodes(s0, ids[..k], answers[..k], now, H)
      invariant succeeded == Engine.Count(results, true) && failed == Engine.Count(results, false)
      invariant |results| == k
    {
      RollBackNext(s0, ids, k, answers, now, H);
      var success := false;
      var versions := st.GetPolicyHistory(ids[k], 2);
      if |versions| >= 2 && ids[k] in st.nodes {
        var outcome := DeployNode(st, st.nodes[ids[k]], versions[1].policy.rules, versions[1].policy.options,
          answers[k], now, H);
        success := outcome.success;
      }
      if success {
        succeeded := succeeded + 1;
      } else {
        failed := failed + 1;
      }
      assert (results + [Engine.NodeResult(ids[k], success)])[..k] == results;
      results := results + [Engine.NodeResult(ids[k], success)];
      k := k + 1;
    }
    assert ids[..k] == ids && answers[..k] == answers;
    return Engine.ActionResult(succeeded, failed, |ids|, results);
  }

  // ----- what it does to the store -----

  /** What a rollback of `n` needs and touches. */
  ghost predicate SameNode(s: Store, s1: Store, n: NodeId) {
    && VersionsOf(s1, n) == VersionsOf(s, n) && GetPolicy(s1, n) == GetPolicy(s, n)
    && (n in s1.nodes <==> n in s.nodes)
    && (n in s.nodes ==> s1.nodes[n] == s.nodes[n].(state := s1.nodes[n].state))
  }

  lemma ElsewhereSame(s: Store, n: NodeId, m: NodeId, a: Answer, now: Time, H: string -> string)
    requires m != n && (n in s.nodes ==> s.nodes[n].id == n)
    ensures SameNode(s, RollBackNode(s, n, a, now, H).0, m)
  {
    hide DeployToNode;
    var h := History(s, n, 2);
    if |h| >= 2 && n in s.nodes {
      DeployFrame(s, s.nodes[n], h[1].policy.rules, h[1].policy.options, a, now, H);
    }
    hide History, Normalize, Capable;
  }

  lemma RollBackKeepsStore(s: Store, n: NodeId, a: Answer, now: Time, H: string -> string)
    requires StoreOk(s, H) && (n in s.nodes ==> s.nodes[n].id == n)
    ensures StoreOk(RollBackNode(s, n, a, now, H).0, H)
  {
    hide StoreOk, DeployToNode, History;
    if n in s.nodes && |History(s, n, 2)| >= 2 {
      var p := History(s, n, 2)[1].policy;
      DeployKeeps(s, s.nodes[n], p.rules, p.options, a, now, H);
    }
  }

  /** The node can be rolled back: it is registered and has two versions. */
  ghost predicate HasPrevious(s: Store, n: NodeId) {
    n in s.nodes && n in s.versions && |s.versions[n]| >= 2
  }

  /** Its previous content becomes current, whatever the agent answers. */
  lemma RollBackOne(s: Store, n: NodeId, a: Answer, now: Time, H: string -> string)
    requires StoreOk(s, H) && HasPrevious(s, n) && s.nodes[n].id == n
    ensures var s1 := RollBackNode(s, n, a, now, H).0;
            n in s1.policies && SameContent(s1.policies[n], Previous(s, n))
  {
    var p := Previous(s, n);
    assert Current(s.versions[n], s.policies[n], n) && EachDeployable(VersionsOf(s, n), s.nodes[n].capabilities, H);
    assert History(s, n, 2)[1].policy == p;
    hide DeployToNode, StoreOk, Deployable, History;
    DeployStored(s, n, p, a, now, H);
  }

  /** The previous content of `n` has become current. */
  ghost predicate Reverted(s: Store, s1: Store, n: NodeId) {
    HasPrevious(s, n) ==> n in s1.policies && SameContent(s1.policies[n], Previous(s, n))
  }

  lemma PreviousSame(s: Store, s1: Store, n: NodeId)
    requires SameNode(s, s1, n) && HasPrevious(s, n)
    ensures HasPrevious(s1, n) && Previous(s1, n) == Previous(s, n)
  {
  }

  ghost predicate IdsOk(s: Store) {
    forall n :: n in s.nodes ==> s.nodes[n].id == n
  }

  lemma IdsKept(s: Store, n: NodeId, a: Answer, now: Time, H: string -> string)
    requires IdsOk(s)
    ensures IdsOk(RollBackNode(s, n, a, now, H).0)
  {
    hide DeployToNode;
    var h := History(s, n, 2);
    if |h| >= 2 && n in s.nodes {
      DeployFrame(s, s.nodes[n], h[1].policy.rules, h[1].policy.options, a, now, H);
    }
    hide History, Normalize, Capable;
  }

  /**
   * Rolling back distinct nodes, whatever their agents answer, keeps the store sound, makes the previous
   * content of each node that has one current, and touches no other node's versions or policy; the
   * results name each node once, in order, and a node without a previous version fails.
   */
  lemma {:induction false} RollBackReverts(
    s: Store, ids: seq<NodeId>, answers: seq<Answer>, now: Time, H: string -> string)
    requires |answers| == |ids| && NoDup(ids) && StoreOk(s, H) && IdsOk(s)
    ensures var (s1, results) := RollBackNodes(s, ids, answers, now, H);
            && StoreOk(s1, H) && IdsOk(s1)
            && (forall n :: n in ids ==> Reverted(s, s1, n))
            && (forall n :: n !in ids ==> SameNode(s, s1, n))
            && |results| == |ids|
            && (forall k :: 0 <= k < |ids| ==> results[k].nodeId == ids[k])
            && (forall k :: 0 <= k < |ids| && !HasPrevious(s, ids[k]) ==> !results[k].success)
    decreases |ids|
  {
    hide StoreOk, IdsOk, HasPrevious, Reverted, RollBackNode, SameNode;
    if ids == [] {
      forall n ensures SameNode(s, s, n) {
        SameItself(s, n);
      }
    } else {
      var last := |ids| - 1;
      var init, x, a := ids[..last], ids[last], answers[last];
      assert ids == init + [x] && x !in init;
      RollBackReverts(s, init, answers[..last], now, H);
      var s1 := RollBackNodes(s, init, answers[..last], now, H).0;
      RollBackKeeps(s1, x, a, now, H);
      forall n | n in ids ensures Reverted(s, RollBackNode(s1, x, a, now, H).0, n) {
        RevertedNext(s, s1, x, n, a, now, H);
      }
      forall n | n !in ids ensures SameNode(s, RollBackNode(s1, x, a, now, H).0, n) {
        ElsewhereKept(s1, x, n, a, now, H);
        SameBoth(s, s1, RollBackNode(s1, x, a, now, H).0, n);
      }
      if !HasPrevious(s, x) {
        NothingBack(s, s1, x, a, now, H);
      }
    }
  }

  /** Rolling back `x` as well: it was untouched until then, and the others stay reverted. */
  lemma RevertedNext(s: Store, s1: Store, x: NodeId, n: NodeId, a: Answer, now: Time, H: string -> string)
    requires StoreOk(s1, H) && IdsOk(s1) && SameNode(s, s1, x) && (n != x ==> Reverted(s, s1, n))
    ensures Reverted(s, RollBackNode(s1, x, a, now, H).0, n)
  {
    hide StoreOk, IdsOk, RollBackNode, SameNode, SameContent;
    if HasPrevious(s, n) {
      if n == x {
        PreviousSame(s, s1, x);
        RollBackCurrent(s1, x, a, now, H);
      } else {
        ElsewhereKept(s1, x, n, a, now, H);
        PolicySame(s1, RollBackNode(s1, x, a, now, H).0, n);
      }
    }
  }

  lemma SameItself(s: Store, n: NodeId)
    ensures SameNode(s, s, n)
  {
  }

  lemma SameBoth(s: Store, s1: Store, s2: Store, n: NodeId)
    requires SameNode(s, s1, n) && SameNode(s1, s2, n)
    ensures SameNode(s, s2, n)
  {
  }

  lemma PolicySame(s: Store, s1: Store, n: NodeId)
    requires SameNode(s, s1, n) && n in s.policies
    ensures n in s1.policies && s1.policies[n] == s.policies[n]
  {
    assert GetPolicy(s1, n) == GetPolicy(s, n);
  }

  lemma RollBackKeeps(s: Store, n: NodeId, a: Answer, now: Time, H: string -> string)
    requires StoreOk(s, H) && IdsOk(s)
    ensures StoreOk(RollBackNode(s, n, a, now, H).0, H) && IdsOk(RollBackNode(s, n, a, now, H).0)
  {
    hide StoreOk, RollBackNode;
    RollBackKeepsStore(s, n, a, now, H);
    IdsKept(s, n, a, now, H);
  }

  lemma ElsewhereKept(s: Store, n: NodeId, m: NodeId, a: Answer, now: Time, H: string -> string)
    requires m != n && IdsOk(s)
    ensures SameNode(s, RollBackNode(s, n, a, now, H).0, m)
  {
    hide RollBackNode, SameNode;
    ElsewhereSame(s, n, m, a, now, H);
  }

  lemma RollBackCurrent(s: Store, n: NodeId, a: Answer, now: Time, H: string -> string)
    requires StoreOk(s, H) && IdsOk(s) && HasPrevious(s, n)
    ensures var s1 := RollBackNode(s, n, a, now, H).0;
            n in s1.policies && SameContent(s1.policies[n], Previous(s, n))
  {
    hide StoreOk, RollBackNode, SameContent;
    RollBackOne(s, n, a, now, H);
  }

  lemma NothingBack(s: Store, s1: Store, n: NodeId, a: Answer, now: Time, H: string -> string)
    requires SameNode(s, s1, n) && !HasPrevious(s, n)
    ensures !RollBackNode(s1, n, a, now, H).1
  {
    assert VersionsOf(s1, n) == VersionsOf(s, n);
    hide DeployToNode;
  }

  // ----- the answers the engine works with -----

  function Ids(nodes: seq<Node>): seq<NodeId> {
    seq(|nodes|, i requires 0 <= i < |nodes| => nodes[i].id)
  }

  /** The nodes that succeeded. */
  ghost function Winners(results: seq<Engine.NodeResult>): set<NodeId> {
    set r | r in results && r.success :: r.nodeId
  }

  /** Results of distinct nodes, one each and in order, are what the engine sees when just their winners succeed. */
  lemma ResultsAre(ids: seq<NodeId>, results: seq<Engine.NodeResult>, w: Engine.World)
    requires NoDup(ids) && |results| == |ids| && forall k :: 0 <= k < |ids| ==> results[k].nodeId == ids[k]
    requires w.willSucceed == Winners(results)
    ensures results == Engine.Results(ids, w)
  {
    forall k | 0 <= k < |ids| ensures results[k] == Engine.Results(ids, w)[k] {
      assert results[k] in results;
      if ids[k] in w.willSucceed {
        var r :| r in results && r.success && r.nodeId == ids[k];
        var j :| 0 <= j < |results| && results[j] == r;
        assert ids[j] == ids[k];
      }
    }
  }

  /** Whatever a deploy of distinct nodes does to the store, the engine's deploy action sees its results. */
  lemma DeployAnswers(
    s: Store, nodes: seq<Node>, rules: string, raw: Options, answers: seq<Answer>, now: Time, H: string -> string,
    w: Engine.World)
    requires |answers| == |nodes| && NoDup(Ids(nodes))
    requires w.willSucceed == Winners(DeployToNodes(s, nodes, rules, raw, answers, now, H).1)
    ensures DeployToNodes(s, nodes, rules, raw, answers, now, H).1 == Engine.Results(Ids(nodes), w)
  {
    hide DeployToNodes;
    DeployNodesResults(s, nodes, rules, raw, answers, now, H);
    ResultsAre(Ids(nodes), DeployToNodes(s, nodes, rules, raw, answers, now, H).1, w);
  }

  /** Whatever a rollback of the deployed nodes does to the store, the engine's rollback action sees its results. */
  lemma RollbackAnswers(
    s: Store, ctx: Engine.Context, answers: seq<Answer>, now: Time, H: string -> string, w: Engine.World)
    requires |answers| == |ctx.deployedNodes| && NoDup(ctx.deployedNodes) && StoreOk(s, H) && IdsOk(s)
    requires w.willSucceed == Winners(RollBackNodes(s, ctx.deployedNodes, answers, now, H).1)
    ensures ctx.deployedNodes != [] ==>
              Engine.ExecuteRollback(ctx, w)
              == ctx.(lastResult := Some(Engine.Summary(RollBackNodes(s, ctx.deployedNodes, answers, now, H).1)))
  {
    hide RollBackNodes, StoreOk;
    RollBackReverts(s, ctx.deployedNodes, answers, now, H);
    ResultsAre(ctx.deployedNodes, RollBackNodes(s, ctx.deployedNodes, answers, now, H).1, w);
  }
}
