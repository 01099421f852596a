/** Counter snapshots: the bounded per-node cache, the log it stands for, and the rates read from it. */
module Counters {
  import opened Core
  import opened Text

  datatype RuleCounter = RuleCounter(ruleName: string, matchCount: nat, byteCount: nat)

  datatype Snapshot = Snapshot(nodeId: NodeId, collectedAt: Time, counters: seq<RuleCounter>)

  type Entries = map<NodeId, seq<Snapshot>>

  function Get(data: Entries, n: NodeId): seq<Snapshot> {
    if n in data then data[n] else []
  }

  function Newest<T>(s: seq<T>, max: nat): seq<T> {
    if |s| <= max then s else s[|s| - max..]
  }

  lemma NewestTail<T>(s: seq<T>, max: nat)
    requires |s| > max
    ensures Newest(s[1..], max) == Newest(s, max)
  {
    assert s[1..][|s| - 1 - max..] == s[|s| - max..];
  }

  /** Drops expired snapshots from the front, up to the first fresh one. */
  function DropExpired(s: seq<Snapshot>, cutoff: Time): seq<Snapshot>
    decreases |s|
  {
    if s != [] && s[0].collectedAt < cutoff then DropExpired(s[1..], cutoff) else s
  }

  function Record(data: Entries, s: Snapshot, max: nat): Entries {
    data[s.nodeId := Newest(Get(data, s.nodeId) + [s], max)]
  }

  function Evict(data: Entries, cutoff: Time): Entries {
    map n | n in data && DropExpired(data[n], cutoff) != [] :: DropExpired(data[n], cutoff)
  }

  function Latest(data: Entries, n: NodeId): Option<Snapshot> {
    var d := Get(data, n);
    if d == [] then None else Some(d[|d| - 1])
  }

  function LatestPair(data: Entries, n: NodeId): Option<(Snapshot, Snapshot)> {
    var d := Get(data, n);
    if |d| < 2 then None else Some((d[|d| - 2], d[|d| - 1]))
  }

  class CounterSnapshotCache {
    var data: Entries
    const retention: Time
    const maxPerNode: nat

    constructor (retention: Time, maxPerNode: nat)
      ensures data == map[] && this.retention == retention && this.maxPerNode == maxPerNode
    {
      data, this.retention, this.maxPerNode := map[], retention, maxPerNode;
    }

    method RecordSnapshot(s: Snapshot)
      modifies this
      ensures data == Record(old(data), s, maxPerNode)
    {
      var deque := Get(data, s.nodeId) + [s];
      ghost var full := deque;
      while |deque| > maxPerNode
        invariant data == old(data) && Newest(deque, maxPerNode) == Newest(full, maxPerNode)
      {
        NewestTail(deque, maxPerNode);
        deque := deque[1..];
      }
      data := data[s.nodeId := deque];
    }

    method EvictExpired(now: Time)
      modifies this
      ensures data == Evict(old(data), now - retention)
    {
      hide DropExpired;
      var cutoff := now - retention;
      var todo := data.Keys;
      ghost var before := data;
      while todo != {}
        invariant todo <= before.Keys && data.Keys == before.Keys
        invariant forall n :: n in before ==>
          data[n] == if n in todo then before[n] else DropExpired(before[n], cutoff)
        decreases todo
      {
        var n :| n in todo;
        var deque := PopExpired(data[n], cutoff);
        data := data[n := deque];
        todo := todo - {n};
      }
      data := map n | n in data && data[n] != [] :: data[n];
    }

    static method PopExpired(entries: seq<Snapshot>, cutoff: Time) returns (deque: seq<Snapshot>)
      ensures deque == DropExpired(entries, cutoff)
    {
      deque := entries;
      while deque != [] && deque[0].collectedAt < cutoff
        invariant DropExpired(deque, cutoff) == DropExpired(entries, cutoff)
        decreases |deque|
      {
        deque := deque[1..];
      }
    }

    method RemoveNode(n: NodeId)
      modifies this
      ensures data == old(data) - {n}
    {
      data := data - {n};
    }
  }

  // ----- the plain log -----

  datatype Op = RecordOp(s: Snapshot) | EvictOp(cutoff: Time) | RemoveOp(n: NodeId)

  function CacheStep(data: Entries, op: Op, max: nat): Entries {
    match op
    case RecordOp(s) => Record(data, s, max)
    case EvictOp(cutoff) => Evict(data, cutoff)
    case RemoveOp(n) => data - {n}
  }

  function CacheRun(data: Entries, ops: seq<Op>, max: nat): Entries
    decreases |ops|
  {
    if ops == [] then data else CacheRun(CacheStep(data, ops[0], max), ops[1..], max)
  }

  function Fresh(s: seq<Snapshot>, cutoff: Time): seq<Snapshot>
    decreases |s|
  {
    if s == [] then []
    else (if s[0].collectedAt < cutoff then [] else [s[0]]) + Fresh(s[1..], cutoff)
  }

  /** The reference for one node: every snapshot is kept, and an eviction filters out exactly the expired ones. */
  function LogStep(log: seq<Snapshot>, op: Op, n: NodeId): seq<Snapshot> {
    match op
    case RecordOp(s) => if s.nodeId == n then log + [s] else log
    case EvictOp(cutoff) => Fresh(log, cutoff)
    case RemoveOp(m) => if m == n then [] else log
  }

  function LogRun(log: seq<Snapshot>, ops: seq<Op>, n: NodeId): seq<Snapshot>
    decreases |ops|
  {
    if ops == [] then log else LogRun(LogStep(log, ops[0], n), ops[1..], n)
  }

  ghost predicate Ordered(s: seq<Snapshot>) {
    forall i, j :: 0 <= i < j < |s| ==> s[i].collectedAt <= s[j].collectedAt
  }

  predicate Records(op: Op, n: NodeId) {
    op.RecordOp? && op.s.nodeId == n
  }

  /** Later snapshots of node `n` are never dated before those already logged. */
  ghost predicate InOrder(log: seq<Snapshot>, ops: seq<Op>, n: NodeId) {
    && Ordered(log)
    && (forall i, j | 0 <= i < |log| && 0 <= j < |ops| && Records(ops[j], n) ::
          log[i].collectedAt <= ops[j].s.collectedAt)
    && (forall i, j | 0 <= i < j < |ops| && Records(ops[i], n) && Records(ops[j], n) ::
          ops[i].s.collectedAt <= ops[j].s.collectedAt)
  }

  /** No expired snapshot sits behind a fresh one. */
  ghost predicate ExpiredFirst(s: seq<Snapshot>, cutoff: Time) {
    forall i, j :: 0 <= i < j < |s| && cutoff <= s[i].collectedAt ==> cutoff <= s[j].collectedAt
  }

  lemma {:induction false} FreshAll(s: seq<Snapshot>, cutoff: Time)
    ensures Fresh(s, cutoff) == s <==> forall i :: 0 <= i < |s| ==> cutoff <= s[i].collectedAt
    ensures |Fresh(s, cutoff)| <= |s|
    ensures forall x :: x in Fresh(s, cutoff) ==> cutoff <= x.collectedAt && x in s
    decreases |s|
  {
    if s != [] {
      FreshAll(s[1..], cutoff);
      assert s == [s[0]] + s[1..];
      if Fresh(s, cutoff) == s {
        assert cutoff <= s[0].collectedAt;
        assert Fresh(s, cutoff)[1..] == Fresh(s[1..], cutoff);
        forall i | 0 <= i < |s| ensures cutoff <= s[i].collectedAt {
          if i > 0 { assert s[i] == s[1..][i - 1]; }
        }
      }
    }
  }

  lemma ExpiredFirstTail(s: seq<Snapshot>, cutoff: Time)
    requires s != [] && s[0].collectedAt < cutoff
    ensures ExpiredFirst(s, cutoff) <==> ExpiredFirst(s[1..], cutoff)
  {
    if ExpiredFirst(s[1..], cutoff) {
      forall i, j | 0 <= i < j < |s| && cutoff <= s[i].collectedAt
        ensures cutoff <= s[j].collectedAt
      {
        assert s[i] == s[1..][i - 1] && s[j] == s[1..][j - 1];
      }
    }
  }

  /** Popping from the front keeps exactly the fresh snapshots if and only if no expired one sits behind a fresh one. */
  lemma {:induction false} EvictionExactIff(s: seq<Snapshot>, cutoff: Time)
    ensures DropExpired(s, cutoff) == Fresh(s, cutoff) <==> ExpiredFirst(s, cutoff)
    decreases |s|
  {
    if s != [] {
      if s[0].collectedAt < cutoff {
        EvictionExactIff(s[1..], cutoff);
        ExpiredFirstTail(s, cutoff);
      } else {
        FreshAll(s, cutoff);
      }
    }
  }

  lemma {:induction false} DropExpiredSuffix(s: seq<Snapshot>, cutoff: Time) returns (k: nat)
    ensures k <= |s| && DropExpired(s, cutoff) == s[k..]
    ensures forall i :: 0 <= i < k ==> s[i].collectedAt < cutoff
    ensures k < |s| ==> cutoff <= s[k].collectedAt
    decreases |s|
  {
    if s != [] && s[0].collectedAt < cutoff {
      k := DropExpiredSuffix(s[1..], cutoff);
      k := k + 1;
      assert s[k..] == s[1..][k - 1..];
    } else {
      k := 0;
    }
  }

  lemma {:induction false} DropExpiredAt(s: seq<Snapshot>, cutoff: Time, k: nat)
    requires k <= |s|
    requires forall i :: 0 <= i < k ==> s[i].collectedAt < cutoff
    requires k < |s| ==> cutoff <= s[k].collectedAt
    ensures DropExpired(s, cutoff) == s[k..]
    decreases k
  {
    if k > 0 {
      DropExpiredAt(s[1..], cutoff, k - 1);
      assert s[1..][k - 1..] == s[k..];
    }
  }

  /** On snapshots in order, trimming to capacity and evicting from the front commute. */
  lemma DropNewest(s: seq<Snapshot>, cutoff: Time, max: nat)
    requires Ordered(s)
    ensures DropExpired(Newest(s, max), cutoff) == Newest(DropExpired(s, cutoff), max)
  {
    var k := DropExpiredSuffix(s, cutoff);
    var cut := if |s| <= max then 0 else |s| - max;
    var t := Newest(s, max);
    var k' := if k <= cut then 0 else k - cut;
    DropExpiredAt(t, cutoff, k');
    assert t[k'..] == Newest(s[k..], max);
  }

  lemma {:induction false} CacheFollowsLog(data: Entries, log: seq<Snapshot>, ops: seq<Op>, max: nat, n: NodeId)
    requires InOrder(log, ops, n)
    requires Get(data, n) == Newest(log, max)
    ensures Get(CacheRun(data, ops, max), n) == Newest(LogRun(log, ops, n), max)
    decreases |ops|
  {
    if ops != [] {
      var log1 := LogStep(log, ops[0], n);
      CacheStepFollows(data, log, ops[0], max, n);
      LogStepInOrder(log, ops, n);
      CacheFollowsLog(CacheStep(data, ops[0], max), log1, ops[1..], max, n);
    }
  }

  lemma NewestAppend<T>(s: seq<T>, x: T, max: nat)
    ensures Newest(Newest(s, max) + [x], max) == Newest(s + [x], max)
  {
  }

  lemma CacheStepFollows(data: Entries, log: seq<Snapshot>, op: Op, max: nat, n: NodeId)
    requires Ordered(log)
    requires Get(data, n) == Newest(log, max)
    ensures Get(CacheStep(data, op, max), n) == Newest(LogStep(log, op, n), max)
  {
    match op
    case RecordOp(s) =>
      if s.nodeId == n {
        NewestAppend(log, s, max);
      }
    case EvictOp(cutoff) =>
      DropNewest(log, cutoff, max);
      EvictionExactIff(log, cutoff);
      assert Get(Evict(data, cutoff), n) == DropExpired(Get(data, n), cutoff);
    case RemoveOp(m) =>
  }

  lemma LogStepInOrder(log: seq<Snapshot>, ops: seq<Op>, n: NodeId)
    requires ops != [] && InOrder(log, ops, n)
    ensures InOrder(LogStep(log, ops[0], n), ops[1..], n)
  {
    match ops[0]
    case EvictOp(cutoff) =>
      var k := DropExpiredSuffix(log, cutoff);
      EvictionExactIff(log, cutoff);
      SuffixInOrder(log, k, ops, n);
    case RecordOp(s) =>
      if s.nodeId == n {
        RecordedInOrder(log, s, ops, n);
      } else {
        SuffixInOrder(log, 0, ops, n);
      }
    case RemoveOp(m) =>
      SuffixInOrder(log, if m == n then |log| else 0, ops, n);
  }

  lemma SuffixInOrder(log: seq<Snapshot>, k: nat, ops: seq<Op>, n: NodeId)
    requires ops != [] && InOrder(log, ops, n) && k <= |log|
    ensures InOrder(log[k..], ops[1..], n)
  {
  }

  lemma RecordedInOrder(log: seq<Snapshot>, s: Snapshot, ops: seq<Op>, n: NodeId)
    requires ops != [] && InOrder(log, ops, n) && ops[0] == RecordOp(s) && s.nodeId == n
    ensures InOrder(log + [s], ops[1..], n)
  {
  }

  /**
   * After any run of records, evictions and removals in which each node reports in order, the cache
   * of a node is the newest `max` snapshots of its plain log, expired and removed ones left out.
   */
  lemma CacheRefinesLog(ops: seq<Op>, max: nat, n: NodeId)
    requires InOrder([], ops, n)
    ensures Get(CacheRun(map[], ops, max), n) == Newest(LogRun([], ops, n), max)
  {
    CacheFollowsLog(map[], [], ops, max, n);
  }

  /** It is a suffix of that log: all of it, as long as it is within capacity, and else as many as fit. */
  lemma CacheSize(ops: seq<Op>, max: nat, n: NodeId)
    requires InOrder([], ops, n)
    ensures var cached, log := Get(CacheRun(map[], ops, max), n), LogRun([], ops, n);
            && |cached| == (if |log| <= max then |log| else max)
            && cached == log[|log| - |cached|..]
  {
    CacheRefinesLog(ops, max, n);
    hide CacheRun, LogRun, InOrder;
  }

  /** Every snapshot ever recorded for the node, whatever was evicted or removed since. */
  function FullLog(ops: seq<Op>, n: NodeId): seq<Snapshot>
    decreases |ops|
  {
    if ops == [] then []
    else
      var last := ops[|ops| - 1];
      FullLog(ops[..|ops| - 1], n) + if Records(last, n) then [last.s] else []
  }

  ghost predicate IsSuffix<T>(a: seq<T>, b: seq<T>) {
    |a| <= |b| && a == b[|b| - |a|..]
  }

  lemma {:induction false} CacheRunSnoc(data: Entries, ops: seq<Op>, op: Op, max: nat)
    ensures CacheRun(data, ops + [op], max) == CacheStep(CacheRun(data, ops, max), op, max)
    decreases |ops|
  {
    hide CacheStep;
    if ops == [] {
      assert ([] + [op])[1..] == [];
    } else {
      assert (ops + [op])[1..] == ops[1..] + [op];
      CacheRunSnoc(CacheStep(data, ops[0], max), ops[1..], op, max);
    }
  }

  lemma SuffixAppend<T>(d: seq<T>, log: seq<T>, x: T, max: nat)
    requires IsSuffix(d, log)
    ensures IsSuffix(Newest(d + [x], max), log + [x]) && |Newest(d + [x], max)| <= max
  {
    assert IsSuffix(d + [x], log + [x]);
  }

  lemma SuffixStep(data: Entries, log: seq<Snapshot>, op: Op, max: nat, n: NodeId)
    requires IsSuffix(Get(data, n), log) && |Get(data, n)| <= max
    ensures var d := Get(CacheStep(data, op, max), n);
            IsSuffix(d, if Records(op, n) then log + [op.s] else log) && |d| <= max
  {
    hide IsSuffix, DropExpired, Newest;
    var d := Get(data, n);
    match op
    case RecordOp(s) =>
      if s.nodeId == n {
        SuffixAppend(d, log, s, max);
      }
    case EvictOp(cutoff) =>
      var k := DropExpiredSuffix(d, cutoff);
      SuffixDrop(d, log, k);
      assert Get(Evict(data, cutoff), n) == DropExpired(d, cutoff);
    case RemoveOp(m) =>
      SuffixDrop(d, log, |d|);
  }

  lemma SuffixDrop<T>(d: seq<T>, log: seq<T>, k: nat)
    requires IsSuffix(d, log) && k <= |d|
    ensures IsSuffix(d[k..], log)
  {
  }

  /** With timestamps in any order, a node's cache is still a suffix of all it ever reported, within capacity. */
  lemma {:induction false} CacheIsSuffix(ops: seq<Op>, max: nat, n: NodeId)
    ensures IsSuffix(Get(CacheRun(map[], ops, max), n), FullLog(ops, n))
    ensures |Get(CacheRun(map[], ops, max), n)| <= max
    decreases |ops|
  {
    hide CacheStep;
    if ops != [] {
      hide IsSuffix;
      var before := ops[..|ops| - 1];
      var op := ops[|ops| - 1];
      assert ops == before + [op];
      CacheIsSuffix(before, max, n);
      CacheRunSnoc(map[], before, op, max);
      SuffixStep(CacheRun(map[], before, max), FullLog(before, n), op, max, n);
      assert FullLog(before, n) + [] == FullLog(before, n);
    }
  }

  /** Whenever the cache answers with a pair, it is the last two snapshots the node ever reported. */
  lemma LatestPairFromLog(ops: seq<Op>, max: nat, n: NodeId)
    ensures var p := LatestPair(CacheRun(map[], ops, max), n);
            var log := FullLog(ops, n);
            p.Some? ==> |log| >= 2 && p.value == (log[|log| - 2], log[|log| - 1])
  {
    CacheIsSuffix(ops, max, n);
  }

  // ----- rates and totals -----

  datatype Rate = Rate(matchesPerSecond: real, bytesPerSecond: real, windowSeconds: real)

  datatype Aggregate = Any | All | Sum

  function ParseAggregate(s: string): Aggregate {
    match AsciiLower(s)
    case "all" => All
    case "sum" => Sum
    case _ => Any
  }

  /** The first counter of the rule, as the linear search finds it. */
  function Find(counters: seq<RuleCounter>, rule: string): Option<RuleCounter>
    decreases |counters|
  {
    if counters == [] then None
    else if counters[0].ruleName == rule then Some(counters[0])
    else Find(counters[1..], rule)
  }

  /** Growth of a counter; a counter that went back was reset and counts as no growth. */
  function Delta(older: nat, newer: nat): nat {
    if newer >= older then newer - older else 0
  }

  /** Whole milliseconds between two times; only its positive values matter. */
  function ElapsedMillis(older: Time, newer: Time): int {
    if newer >= older then (newer - older) / NANOS_PER_MILLI else -((older - newer) / NANOS_PER_MILLI)
  }

  function CalculateRate(older: Snapshot, newer: Snapshot, rule: string): Option<Rate> {
    var o := Find(older.counters, rule);
    var n := Find(newer.counters, rule);
    var millis := ElapsedMillis(older.collectedAt, newer.collectedAt);
    if o.None? || n.None? || millis <= 0 then None
    else
      var elapsed := millis as real / 1000.0;
      Some(Rate(Delta(o.value.matchCount, n.value.matchCount) as real / elapsed,
                Delta(o.value.byteCount, n.value.byteCount) as real / elapsed,
                elapsed))
  }

  /**
   * There is a rate exactly when both snapshots have the rule and lie a millisecond or more apart; it
   * is the growth over the window, and no growth after a reset.
   */
  lemma RateMeaning(older: Snapshot, newer: Snapshot, rule: string)
    ensures var r := CalculateRate(older, newer, rule);
            var o := Find(older.counters, rule);
            var n := Find(newer.counters, rule);
            && (r.Some? <==> o.Some? && n.Some? && newer.collectedAt - older.collectedAt >= NANOS_PER_MILLI)
            && (r.Some? ==>
                  && r.value.windowSeconds > 0.0
                  && r.value.matchesPerSecond * r.value.windowSeconds
                     == Delta(o.value.matchCount, n.value.matchCount) as real
                  && r.value.bytesPerSecond * r.value.windowSeconds
                     == Delta(o.value.byteCount, n.value.byteCount) as real)
  {
    hide Find, Delta;
  }

  function Total(s: Snapshot, rule: string, useBytes: bool): Option<nat> {
    match Find(s.counters, rule)
    case None => None
    case Some(c) => Some(if useBytes then c.byteCount else c.matchCount)
  }

  function NodeTotal(data: Entries, n: NodeId, rule: string, useBytes: bool): Option<nat> {
    match Latest(data, n)
    case None => None
    case Some(s) => Total(s, rule, useBytes)
  }

  function NodeRate(data: Entries, n: NodeId, rule: string, useBytes: bool): Option<real> {
    match LatestPair(data, n)
    case None => None
    case Some((older, newer)) =>
      match CalculateRate(older, newer, rule)
      case None => None
      case Some(r) => Some(if useBytes then r.bytesPerSecond else r.matchesPerSecond)
  }

  /** The running `u64` sum of the totals that are known. */
  function SumTotals(data: Entries, nodes: seq<NodeId>, rule: string, useBytes: bool): nat
    decreases |nodes|
  {
    if nodes == [] then 0
    else
      var last := |nodes| - 1;
      var t := NodeTotal(data, nodes[last], rule, useBytes);
      (SumTotals(data, nodes[..last], rule, useBytes) + if t.Some? then t.value else 0) % U64
  }

  predicate NodeAbove(data: Entries, n: NodeId, rule: string, threshold: nat, useBytes: bool) {
    var t := NodeTotal(data, n, rule, useBytes);
    t.Some? && t.value > threshold
  }

  predicate TotalAbove(
    data: Entries, rule: string, threshold: nat, useBytes: bool, nodes: seq<NodeId>, mode: Aggregate) {
    match mode
    case Any => exists n :: n in nodes && NodeAbove(data, n, rule, threshold, useBytes)
    case All => forall n :: n in nodes ==> NodeAbove(data, n, rule, threshold, useBytes)
    case Sum => SumTotals(data, nodes, rule, useBytes) > threshold
  }

  predicate RateMatches(rate: real, above: Option<real>, below: Option<real>) {
    && (above.Some? ==> rate > above.value)
    && (below.Some? ==> rate < below.value)
  }

  /** The rates of the nodes that have one. */
  function Rates(data: Entries, nodes: seq<NodeId>, rule: string, useBytes: bool): seq<real>
    decreases |nodes|
  {
    if nodes == [] then []
    else
      var r := NodeRate(data, nodes[0], rule, useBytes);
      (if r.Some? then [r.value] else []) + Rates(data, nodes[1..], rule, useBytes)
  }

  function SumRates(rates: seq<real>): real {
    if rates == [] then 0.0 else rates[0] + SumRates(rates[1..])
  }

  predicate RateThreshold(data: Entries, rule: string, above: Option<real>, below: Option<real>, useBytes: bool,
                          nodes: seq<NodeId>, mode: Aggregate) {
    var rates := Rates(data, nodes, rule, useBytes);
    rates != [] &&
    match mode
    case Any => exists r :: r in rates && RateMatches(r, above, below)
    case All => forall r :: r in rates ==> RateMatches(r, above, below)
    case Sum => RateMatches(SumRates(rates), above, below)
  }

  /** The nodes the cache holds a pair of snapshots for. */
  function Paired(data: Entries, nodes: seq<NodeId>): seq<NodeId>
    decreases |nodes|
  {
    if nodes == [] then []
    else (if LatestPair(data, nodes[0]).Some? then [nodes[0]] else []) + Paired(data, nodes[1..])
  }

  /** The rate of a node with a cached pair is the rate of its complete log; without one there is none. */
  lemma NodeRateFromLog(ops: seq<Op>, max: nat, log: Entries, n: NodeId, rule: string, useBytes: bool)
    requires Get(log, n) == FullLog(ops, n)
    ensures var data := CacheRun(map[], ops, max);
            NodeRate(data, n, rule, useBytes)
            == if LatestPair(data, n).Some? then NodeRate(log, n, rule, useBytes) else None
  {
    LatestPairFromLog(ops, max, n);
    hide CacheRun, FullLog, CalculateRate;
  }

  lemma {:induction false} RatesFromLog(
    ops: seq<Op>, max: nat, log: Entries, nodes: seq<NodeId>, rule: string, useBytes: bool)
    requires forall n :: n in nodes ==> Get(log, n) == FullLog(ops, n)
    ensures var data := CacheRun(map[], ops, max);
            Rates(data, nodes, rule, useBytes) == Rates(log, Paired(data, nodes), rule, useBytes)
    decreases |nodes|
  {
    hide CacheRun, FullLog, Get, LatestPair, NodeRate;
    if nodes != [] {
      var data := CacheRun(map[], ops, max);
      NodeRateFromLog(ops, max, log, nodes[0], rule, useBytes);
      RatesFromLog(ops, max, log, nodes[1..], rule, useBytes);
      RatesAppend(log, if LatestPair(data, nodes[0]).Some? then [nodes[0]]
        else [], Paired(data, nodes[1..]), rule, useBytes);
    }
  }

  lemma RatesAppend(data: Entries, a: seq<NodeId>, b: seq<NodeId>, rule: string, useBytes: bool)
    requires |a| <= 1
    ensures Rates(data, a + b, rule, useBytes) == Rates(data, a, rule, useBytes) + Rates(data, b, rule, useBytes)
  {
    hide NodeRate;
    if a == [] {
      assert a + b == b;
    } else {
      assert (a + b)[1..] == b && a[1..] == [];
    }
  }

  /**
   * A rate condition read from the cache is the same condition on the complete logs of the nodes the
   * cache holds pairs for.
   */
  lemma ConditionFromLog(ops: seq<Op>, max: nat, log: Entries, rule: string, above: Option<real>, below: Option<real>,
                         useBytes: bool, nodes: seq<NodeId>, mode: Aggregate)
    requires forall n :: n in nodes ==> Get(log, n) == FullLog(ops, n)
    ensures var data := CacheRun(map[], ops, max);
            RateThreshold(data, rule, above, below, useBytes, nodes, mode)
            <==> RateThreshold(log, rule, above, below, useBytes, Paired(data, nodes), mode)
  {
    hide CacheRun, FullLog, LatestPair, Get, Rates, RateMatches, Paired;
    RatesFromLog(ops, max, log, nodes, rule, useBytes);
  }

  /** The nodes the cache holds a snapshot for. */
  function Cached(data: Entries, nodes: seq<NodeId>): seq<NodeId>
    decreases |nodes|
  {
    if nodes == [] then []
    else
      var last := |nodes| - 1;
      Cached(data, nodes[..last]) + if Latest(data, nodes[last]).Some? then [nodes[last]] else []
  }

  lemma {:induction false} CachedMembers(data: Entries, nodes: seq<NodeId>)
    ensures forall n :: n in Cached(data, nodes) <==> n in nodes && Latest(data, n).Some?
    ensures Cached(data, nodes) == nodes <==> forall n :: n in nodes ==> Latest(data, n).Some?
    ensures |Cached(data, nodes)| <= |nodes|
    decreases |nodes|
  {
    hide Latest;
    if nodes != [] {
      var last := |nodes| - 1;
      CachedMembers(data, nodes[..last]);
      assert nodes == nodes[..last] + [nodes[last]];
      if Cached(data, nodes) == nodes {
        assert nodes[last] in Cached(data, nodes);
        assert Latest(data, nodes[last]).Some?;
        assert Cached(data, nodes)[..last] == nodes[..last];
      }
    }
  }

  /** The total of a node with a cached snapshot is that of its complete log; without one it has none. */
  lemma NodeTotalFromLog(ops: seq<Op>, max: nat, log: Entries, n: NodeId, rule: string, useBytes: bool)
    requires Get(log, n) == FullLog(ops, n)
    ensures var data := CacheRun(map[], ops, max);
            NodeTotal(data, n, rule, useBytes)
            == if Latest(data, n).Some? then NodeTotal(log, n, rule, useBytes) else None
  {
    CacheIsSuffix(ops, max, n);
    hide CacheRun, FullLog, Total;
  }

  lemma CachedNone(data: Entries)
    ensures Cached(data, []) == []
  {
  }

  lemma CachedSnoc(data: Entries, nodes: seq<NodeId>, n: NodeId)
    ensures Cached(data, nodes + [n])
            == if Latest(data, n).Some? then Cached(data, nodes) + [n] else Cached(data, nodes)
  {
    assert (nodes + [n])[..|nodes|] == nodes;
    assert Cached(data, nodes) + [] == Cached(data, nodes);
  }

  /** One more node in a sum. */
  function Plus(sum: nat, total: Option<nat>): nat {
    (sum + if total.Some? then total.value else 0) % U64
  }

  lemma SumBound(data: Entries, nodes: seq<NodeId>, rule: string, useBytes: bool)
    ensures SumTotals(data, nodes, rule, useBytes) < U64
    ensures nodes == [] ==> SumTotals(data, nodes, rule, useBytes) == 0
  {
    hide NodeTotal;
  }

  lemma PlusNothing(sum: nat)
    requires sum < U64
    ensures Plus(sum, None) == sum
  {
  }

  lemma SumSnoc(data: Entries, nodes: seq<NodeId>, n: NodeId, rule: string, useBytes: bool)
    ensures SumTotals(data, nodes + [n], rule, useBytes)
            == Plus(SumTotals(data, nodes, rule, useBytes), NodeTotal(data, n, rule, useBytes))
  {
    hide NodeTotal;
    assert (nodes + [n])[..|nodes|] == nodes;
  }

  lemma {:induction false} SumFromLog(
    ops: seq<Op>, max: nat, log: Entries, nodes: seq<NodeId>, rule: string, useBytes: bool)
    requires forall n :: n in nodes ==> Get(log, n) == FullLog(ops, n)
    ensures var data := CacheRun(map[], ops, max);
            SumTotals(data, nodes, rule, useBytes) == SumTotals(log, Cached(data, nodes), rule, useBytes)
    decreases |nodes|
  {
    hide CacheRun, FullLog, Get, Latest, NodeTotal, SumTotals, Plus, Cached;
    var data := CacheRun(map[], ops, max);
    SumBound(data, nodes, rule, useBytes);
    SumBound(log, Cached(data, nodes), rule, useBytes);
    CachedNone(data);
    if nodes != [] {
      var init, x := nodes[..|nodes| - 1], nodes[|nodes| - 1];
      assert nodes == init + [x];
      NodeTotalFromLog(ops, max, log, x, rule, useBytes);
      SumFromLog(ops, max, log, init, rule, useBytes);
      SumSnoc(data, init, x, rule, useBytes);
      CachedSnoc(data, init, x);
      SumSnoc(log, Cached(data, init), x, rule, useBytes);
      SumBound(data, init, rule, useBytes);
      PlusNothing(SumTotals(data, init, rule, useBytes));
    }
  }

  /**
   * A total condition read from the cache is the same condition on the complete logs of the nodes the
   * cache holds a snapshot for; and in the mode that asks all nodes, it holds one for each of them.
   */
  lemma TotalFromLog(ops: seq<Op>, max: nat, log: Entries, rule: string, threshold: nat, useBytes: bool,
                     nodes: seq<NodeId>, mode: Aggregate)
    requires forall n :: n in nodes ==> Get(log, n) == FullLog(ops, n)
    ensures var data := CacheRun(map[], ops, max);
            TotalAbove(data, rule, threshold, useBytes, nodes, mode)
            <==> TotalAbove(log, rule, threshold, useBytes, Cached(data, nodes), mode)
                 && (mode == All ==> Cached(data, nodes) == nodes)
  {
    hide CacheRun, FullLog, Get, Latest, NodeTotal, SumTotals, Cached;
    var data := CacheRun(map[], ops, max);
    SumFromLog(ops, max, log, nodes, rule, useBytes);
    CachedMembers(data, nodes);
    forall n | n in nodes
      ensures NodeAbove(data, n, rule, threshold, useBytes)
              <==> Latest(data, n).Some? && NodeAbove(log, n, rule, threshold, useBytes)
    {
      NodeTotalFromLog(ops, max, log, n, rule, useBytes);
    }
  }

  // ----- an eviction out of order -----

  /**
   * Two reports of one node, the later one dated earlier: evicting at a time between the two dates keeps
   * the expired snapshot, because the fresh one stands before it.
   */
  lemma EvictionKeepsExpired(n: NodeId)
    ensures var late, early := Snapshot(n, 20, []), Snapshot(n, 10, []);
            var ops := [RecordOp(late), RecordOp(early), EvictOp(15)];
            Get(CacheRun(map[], ops, 5), n) == [late, early] && LogRun([], ops, n) == [late]
  {
    var late, early := Snapshot(n, 20, []), Snapshot(n, 10, []);
    var a, b, c := RecordOp(late), RecordOp(early), EvictOp(15);
    assert [a, b, c][1..] == [b, c] && [b, c][1..] == [c] && [c][1..] == [];
    var one := Record(map[], late, 5);
    var two := Record(one, early, 5);
    assert two[n] == [late, early];
    assert Evict(two, 15)[n] == [late, early];
    calc {
      CacheRun(map[], [a, b, c], 5);
      CacheRun(one, [b, c], 5);
      CacheRun(two, [c], 5);
      CacheRun(Evict(two, 15), [], 5);
    }
    assert [late, early][1..] == [early] && [early][1..] == [];
    assert Fresh([early], 15) == Fresh([], 15) == [];
    assert [late] + [early] == [late, early];
    calc {
      LogRun([], [a, b, c], n);
      LogRun([late], [b, c], n);
      LogRun([late, early], [c], n);
      LogRun([late], [], n);
    }
  }
}
