/** When the thresholds of a counter condition are met, spelled out in the cached snapshots. */
module Readings {
  import opened Core
  import opened Text
  import opened Definitions
  import opened Counters
  import opened Engine

  // ----- one snapshot -----

  /** The first counter of the rule stands at `k`. */
  predicate FirstOf(counters: seq<RuleCounter>, rule: string, k: nat) {
    k < |counters| && counters[k].ruleName == rule && forall j :: 0 <= j < k ==> counters[j].ruleName != rule
  }

  /** The snapshot says `v` for the rule: its bytes, or its matches. */
  ghost predicate Says(s: Snapshot, rule: string, bytes: bool, v: nat) {
    exists k: nat ::
      FirstOf(s.counters, rule, k) && v == if bytes then s.counters[k].byteCount else s.counters[k].matchCount
  }

  lemma {:induction false} FindsFirst(counters: seq<RuleCounter>, rule: string) returns (k: nat)
    ensures k <= |counters| && forall j :: 0 <= j < k ==> counters[j].ruleName != rule
    ensures k < |counters| ==> counters[k].ruleName == rule
    ensures Find(counters, rule) == if k < |counters| then Some(counters[k]) else None
    decreases |counters|
  {
    if counters == [] || counters[0].ruleName == rule {
      k := 0;
    } else {
      k := FindsFirst(counters[1..], rule);
      k := k + 1;
    }
  }

  lemma SaysTotal(s: Snapshot, rule: string, bytes: bool, v: nat)
    ensures Says(s, rule, bytes, v) <==> Total(s, rule, bytes) == Some(v)
  {
    var k := FindsFirst(s.counters, rule);
    hide Find;
    if k < |s.counters| {
      assert FirstOf(s.counters, rule, k);
    }
  }

  // ----- one node -----

  /** The node's newest cached snapshot says `v`. */
  ghost predicate Shows(cache: Entries, n: NodeId, rule: string, bytes: bool, v: nat) {
    n in cache && cache[n] != [] && Says(cache[n][|cache[n]| - 1], rule, bytes, v)
  }

  /**
   * Between the node's last two cached snapshots, which lie `millis` whole milliseconds apart, at least
   * one, the counter grew by `growth`; a counter that went back was reset, and did not grow.
   */
  ghost predicate Grew(cache: Entries, n: NodeId, rule: string, bytes: bool, growth: nat, millis: nat) {
    n in cache && |cache[n]| >= 2 &&
    var older, newer := cache[n][|cache[n]| - 2], cache[n][|cache[n]| - 1];
    && millis >= 1
    && millis * 1_000_000 <= newer.collectedAt - older.collectedAt < (millis + 1) * 1_000_000
    && GrewTo(older, newer, rule, bytes, growth)
  }

  ghost predicate GrewTo(older: Snapshot, newer: Snapshot, rule: string, bytes: bool, growth: nat) {
    exists a: nat, b: nat ::
      Says(older, rule, bytes, a) && Says(newer, rule, bytes, b) && growth == if b < a then 0 else b - a
  }

  lemma ShowsTotal(cache: Entries, n: NodeId, rule: string, bytes: bool, v: nat)
    ensures Shows(cache, n, rule, bytes, v) <==> NodeTotal(cache, n, rule, bytes) == Some(v)
  {
    hide Says, Total;
    if n in cache && cache[n] != [] {
      SaysTotal(cache[n][|cache[n]| - 1], rule, bytes, v);
    }
  }

  /** The rate between two snapshots, by the field that is asked for. */
  function Chosen(r: Rate, bytes: bool): real {
    if bytes then r.bytesPerSecond else r.matchesPerSecond
  }

  lemma Quotient(x: real, millis: nat)
    requires millis >= 1
    ensures x / (millis as real / 1000.0) * millis as real == x * 1000.0
  {
    var m := millis as real;
    assert x / (m / 1000.0) * (m / 1000.0) == x;
  }

  lemma RateGrowth(older: Snapshot, newer: Snapshot, rule: string, bytes: bool)
    returns (growth: nat, millis: nat)
    requires CalculateRate(older, newer, rule).Some?
    ensures millis >= 1 && GrewTo(older, newer, rule, bytes, growth)
    ensures millis * 1_000_000 <= newer.collectedAt - older.collectedAt < (millis + 1) * 1_000_000
    ensures Chosen(CalculateRate(older, newer, rule).value, bytes) * millis as real == growth as real * 1000.0
  {
    hide Find, Says;
    var a, b := Total(older, rule, bytes).value, Total(newer, rule, bytes).value;
    SaysTotal(older, rule, bytes, a);
    SaysTotal(newer, rule, bytes, b);
    growth := if b < a then 0 else b - a;
    millis := (newer.collectedAt - older.collectedAt) / 1_000_000;
    Quotient(growth as real, millis);
  }

  lemma GrowthRate(older: Snapshot, newer: Snapshot, rule: string, bytes: bool, growth: nat)
    requires GrewTo(older, newer, rule, bytes, growth) && newer.collectedAt - older.collectedAt >= 1_000_000
    ensures CalculateRate(older, newer, rule).Some?
  {
    hide Find, Says;
    var a: nat, b: nat :|
      Says(older, rule, bytes, a) && Says(newer, rule, bytes, b) && growth == if b < a then 0 else b - a;
    SaysTotal(older, rule, bytes, a);
    SaysTotal(newer, rule, bytes, b);
  }

  lemma GrowthOnce(older: Snapshot, newer: Snapshot, rule: string, bytes: bool, g: nat, h: nat)
    requires GrewTo(older, newer, rule, bytes, g) && GrewTo(older, newer, rule, bytes, h)
    ensures g == h
  {
    hide Says;
    var a: nat, b: nat :| Says(older, rule, bytes, a) && Says(newer, rule, bytes, b) && g == if b < a then 0 else b - a;
    var c: nat, d: nat :| Says(older, rule, bytes, c) && Says(newer, rule, bytes, d) && h == if d < c then 0 else d - c;
    SaysTotal(older, rule, bytes, a);
    SaysTotal(newer, rule, bytes, b);
    SaysTotal(older, rule, bytes, c);
    SaysTotal(newer, rule, bytes, d);
  }

  ghost predicate Grows(cache: Entries, n: NodeId, rule: string, bytes: bool) {
    exists growth: nat, millis: nat :: Grew(cache, n, rule, bytes, growth, millis)
  }

  /** A node has a rate exactly when its last two snapshots show a growth, and it is that growth per second. */
  lemma RateIs(cache: Entries, n: NodeId, rule: string, bytes: bool)
    ensures NodeRate(cache, n, rule, bytes).Some? <==> Grows(cache, n, rule, bytes)
    ensures forall growth: nat, millis: nat :: Grew(cache, n, rule, bytes, growth, millis) ==>
              NodeRate(cache, n, rule, bytes).value * millis as real == growth as real * 1000.0
  {
    hide CalculateRate, GrewTo;
    forall growth: nat, millis: nat | Grew(cache, n, rule, bytes, growth, millis)
      ensures NodeRate(cache, n, rule, bytes).Some?
              && NodeRate(cache, n, rule, bytes).value * millis as real == growth as real * 1000.0
    {
      RateOfGrowth(cache[n][|cache[n]| - 2], cache[n][|cache[n]| - 1], rule, bytes, growth, millis);
    }
    if NodeRate(cache, n, rule, bytes).Some? {
      var growth, millis := RateGrowth(cache[n][|cache[n]| - 2], cache[n][|cache[n]| - 1], rule, bytes);
      assert Grew(cache, n, rule, bytes, growth, millis);
    }
  }

  lemma RateOfGrowth(older: Snapshot, newer: Snapshot, rule: string, bytes: bool, growth: nat, millis: nat)
    requires GrewTo(older, newer, rule, bytes, growth) && millis >= 1
    requires millis * 1_000_000 <= newer.collectedAt - older.collectedAt < (millis + 1) * 1_000_000
    ensures CalculateRate(older, newer, rule).Some?
    ensures Chosen(CalculateRate(older, newer, rule).value, bytes) * millis as real == growth as real * 1000.0
  {
    hide CalculateRate, GrewTo;
    GrowthRate(older, newer, rule, bytes, growth);
    var g, m := RateGrowth(older, newer, rule, bytes);
    GrowthOnce(older, newer, rule, bytes, growth, g);
    assert m == millis;
  }

  // ----- all nodes: totals -----

  /** The running sums of what the nodes show, where one without a count adds nothing. */
  ghost predicate SumsShown(sums: seq<nat>, cache: Entries, nodes: seq<NodeId>, rule: string, bytes: bool) {
    && |sums| == |nodes| + 1 && sums[0] == 0
    && forall k: nat :: k < |nodes| ==> Adds(cache, nodes[k], rule, bytes, sums[k], sums[k + 1])
  }

  ghost predicate Adds(cache: Entries, n: NodeId, rule: string, bytes: bool, before: nat, after: nat) {
    || (exists v: nat :: Shows(cache, n, rule, bytes, v) && after == before + v)
    || (after == before && forall v: nat :: !Shows(cache, n, rule, bytes, v))
  }

  /** `mode` in capital letters or small ones. */
  predicate SaysAll(mode: Option<string>) {
    mode.Some? && |mode.value| == 3
    && mode.value[0] in {'a', 'A'} && mode.value[1] in {'l', 'L'} && mode.value[2] in {'l', 'L'}
  }

  predicate SaysSum(mode: Option<string>) {
    mode.Some? && |mode.value| == 3
    && mode.value[0] in {'s', 'S'} && mode.value[1] in {'u', 'U'} && mode.value[2] in {'m', 'M'}
  }

  /** The node shows more than the threshold. */
  ghost predicate Exceeds(cache: Entries, n: NodeId, rule: string, bytes: bool, threshold: nat) {
    exists v: nat :: Shows(cache, n, rule, bytes, v) && v > threshold
  }

  ghost predicate SumExceeds(cache: Entries, nodes: seq<NodeId>, rule: string, bytes: bool, threshold: nat) {
    exists sums: seq<nat> :: SumsShown(sums, cache, nodes, rule, bytes) && sums[|nodes|] % U64 > threshold
  }

  /** "all": every node; "sum": the nodes together, as `u64` arithmetic adds; anything else: some node. */
  ghost predicate TotalPasses(
    cache: Entries, nodes: seq<NodeId>, rule: string, bytes: bool, mode: Option<string>, threshold: nat) {
    if SaysAll(mode) then forall n :: n in nodes ==> Exceeds(cache, n, rule, bytes, threshold)
    else if SaysSum(mode) then SumExceeds(cache, nodes, rule, bytes, threshold)
    else exists n :: n in nodes && Exceeds(cache, n, rule, bytes, threshold)
  }

  // ----- all nodes: rates -----

  /** `growth` in `millis` milliseconds is more per second than `above`, and less than `below`, where given. */
  predicate Within(growth: nat, millis: nat, above: Option<real>, below: Option<real>) {
    && (above.Some? ==> growth as real * 1000.0 > above.value * millis as real)
    && (below.Some? ==> growth as real * 1000.0 < below.value * millis as real)
  }

  ghost predicate SomeWithin(
    cache: Entries, n: NodeId, rule: string, bytes: bool, above: Option<real>, below: Option<real>) {
    exists growth: nat, millis: nat ::
      Grew(cache, n, rule, bytes, growth, millis) && Within(growth, millis, above, below)
  }

  /** The running sums of the rates per second, where a node without a rate adds nothing. */
  ghost predicate SumsGrown(sums: seq<real>, cache: Entries, nodes: seq<NodeId>, rule: string, bytes: bool) {
    && |sums| == |nodes| + 1 && sums[0] == 0.0
    && forall k: nat :: k < |nodes| ==> AddsRate(cache, nodes[k], rule, bytes, sums[k + 1] - sums[k])
  }

  ghost predicate AddsRate(cache: Entries, n: NodeId, rule: string, bytes: bool, x: real) {
    if Grows(cache, n, rule, bytes) then
      forall growth: nat, millis: nat ::
        Grew(cache, n, rule, bytes, growth, millis) ==> x * millis as real == growth as real * 1000.0
    else x == 0.0
  }

  ghost predicate SumWithin(
    cache: Entries, nodes: seq<NodeId>, rule: string, bytes: bool, above: Option<real>, below: Option<real>) {
    exists sums: seq<real> :: SumsGrown(sums, cache, nodes, rule, bytes)
      && (above.Some? ==> sums[|nodes|] > above.value) && (below.Some? ==> sums[|nodes|] < below.value)
  }

  /** As for totals, over the nodes whose last two snapshots show a growth, of which there is one at least. */
  ghost predicate RatePasses(cache: Entries, nodes: seq<NodeId>, rule: string, bytes: bool, mode: Option<string>,
                             above: Option<real>, below: Option<real>) {
    && (exists n :: n in nodes && Grows(cache, n, rule, bytes))
    && if SaysAll(mode) then
         forall n :: n in nodes && Grows(cache, n, rule, bytes) ==> SomeWithin(cache, n, rule, bytes, above, below)
       else if SaysSum(mode) then SumWithin(cache, nodes, rule, bytes, above, below)
       else exists n :: n in nodes && SomeWithin(cache, n, rule, bytes, above, below)
  }

  // ----- proofs -----

  lemma ModeIs(mode: Option<string>)
    requires mode.Some?
    ensures ParseAggregate(mode.value) == if SaysAll(mode) then All else if SaysSum(mode) then Sum else Any
  {
    hide Lower;
    var v := mode.value;
    var l := AsciiLower(v);
    if |v| == 3 {
      LowerIs(v[0], 'a', 'A');
      LowerIs(v[1], 'l', 'L');
      LowerIs(v[2], 'l', 'L');
      LowerIs(v[0], 's', 'S');
      LowerIs(v[1], 'u', 'U');
      LowerIs(v[2], 'm', 'M');
      assert l == "all" <==> l[0] == 'a' && l[1] == 'l' && l[2] == 'l';
      assert l == "sum" <==> l[0] == 's' && l[1] == 'u' && l[2] == 'm';
    }
  }

  lemma AboveIs(cache: Entries, n: NodeId, rule: string, bytes: bool, threshold: nat)
    ensures NodeAbove(cache, n, rule, threshold, bytes) <==> Exceeds(cache, n, rule, bytes, threshold)
  {
    hide Shows, NodeTotal;
    forall v: nat ensures Shows(cache, n, rule, bytes, v) <==> NodeTotal(cache, n, rule, bytes) == Some(v) {
      ShowsTotal(cache, n, rule, bytes, v);
    }
  }

  lemma AddsIs(cache: Entries, n: NodeId, rule: string, bytes: bool, before: nat, after: nat)
    ensures var t := NodeTotal(cache, n, rule, bytes);
            Adds(cache, n, rule, bytes, before, after) <==> after == before + if t.Some? then t.value else 0
  {
    hide Shows, NodeTotal;
    forall v: nat ensures Shows(cache, n, rule, bytes, v) <==> NodeTotal(cache, n, rule, bytes) == Some(v) {
      ShowsTotal(cache, n, rule, bytes, v);
    }
  }

  lemma {:induction false} ShownSums(cache: Entries, nodes: seq<NodeId>, rule: string, bytes: bool)
    returns (sums: seq<nat>)
    ensures SumsShown(sums, cache, nodes, rule, bytes)
    decreases |nodes|
  {
    hide Adds, NodeTotal;
    if nodes == [] {
      sums := [0];
    } else {
      var last := |nodes| - 1;
      var init := ShownSums(cache, nodes[..last], rule, bytes);
      var t := NodeTotal(cache, nodes[last], rule, bytes);
      var after := init[last] + if t.Some? then t.value else 0;
      AddsIs(cache, nodes[last], rule, bytes, init[last], after);
      sums := init + [after];
      forall k: nat | k < |nodes| ensures Adds(cache, nodes[k], rule, bytes, sums[k], sums[k + 1]) {
        if k < last {
          assert Adds(cache, nodes[..last][k], rule, bytes, init[k], init[k + 1]);
        }
      }
    }
  }

  lemma ModAdd(a: nat, b: nat)
    ensures (a % U64 + b) % U64 == (a + b) % U64
  {
  }

  lemma {:induction false} SumsShownIs(
    sums: seq<nat>, cache: Entries, nodes: seq<NodeId>, rule: string, bytes: bool)
    requires SumsShown(sums, cache, nodes, rule, bytes)
    ensures sums[|nodes|] % U64 == SumTotals(cache, nodes, rule, bytes)
    decreases |nodes|
  {
    hide Adds, NodeTotal;
    if nodes != [] {
      var last := |nodes| - 1;
      assert SumsShown(sums[..|nodes|], cache, nodes[..last], rule, bytes);
      SumsShownIs(sums[..|nodes|], cache, nodes[..last], rule, bytes);
      AddsIs(cache, nodes[last], rule, bytes, sums[last], sums[last + 1]);
      var t := NodeTotal(cache, nodes[last], rule, bytes);
      ModAdd(sums[last], if t.Some? then t.value else 0);
    }
  }

  lemma TotalIs(
    cache: Entries, nodes: seq<NodeId>, rule: string, bytes: bool, cc: CounterCondition, threshold: nat)
    ensures TotalAbove(cache, rule, threshold, bytes, nodes, Mode(cc))
            <==> TotalPasses(cache, nodes, rule, bytes, cc.aggregate, threshold)
  {
    hide NodeAbove, Exceeds, SumsShown, SumTotals, SaysAll, SaysSum, ParseAggregate;
    if cc.aggregate.Some? {
      ModeIs(cc.aggregate);
    } else {
      NoMode();
    }
    forall n ensures NodeAbove(cache, n, rule, threshold, bytes) <==> Exceeds(cache, n, rule, bytes, threshold) {
      AboveIs(cache, n, rule, bytes, threshold);
    }
    var some := ShownSums(cache, nodes, rule, bytes);
    forall sums: seq<nat> | SumsShown(sums, cache, nodes, rule, bytes)
      ensures |sums| == |nodes| + 1 && sums[|nodes|] % U64 == SumTotals(cache, nodes, rule, bytes)
    {
      SumsShownIs(sums, cache, nodes, rule, bytes);
      SumsLength(sums, cache, nodes, rule, bytes);
    }
  }

  lemma SumsLength(sums: seq<nat>, cache: Entries, nodes: seq<NodeId>, rule: string, bytes: bool)
    requires SumsShown(sums, cache, nodes, rule, bytes)
    ensures |sums| == |nodes| + 1
  {
  }

  lemma NoMode()
    ensures !SaysAll(None) && !SaysSum(None)
  {
  }

  lemma WithinIs(rate: real, growth: nat, millis: nat, above: Option<real>, below: Option<real>)
    requires millis >= 1 && rate * millis as real == growth as real * 1000.0
    ensures RateMatches(rate, above, below) <==> Within(growth, millis, above, below)
  {
    if above.Some? {
      Order(above.value, rate, millis as real);
    }
    if below.Some? {
      Order(rate, below.value, millis as real);
    }
  }

  lemma Order(x: real, y: real, m: real)
    requires m > 0.0
    ensures x < y <==> x * m < y * m
  {
    if x < y {
      assert (y - x) * m > 0.0;
    } else {
      assert (x - y) * m >= 0.0;
    }
  }

  /** A node's rate passes exactly when the growth it comes from does. */
  lemma SomeWithinIs(cache: Entries, n: NodeId, rule: string, bytes: bool, above: Option<real>, below: Option<real>)
    ensures var r := NodeRate(cache, n, rule, bytes);
            && (r.Some? <==> Grows(cache, n, rule, bytes))
            && (SomeWithin(cache, n, rule, bytes, above, below) <==> r.Some? && RateMatches(r.value, above, below))
  {
    hide NodeRate, RateMatches, Within, GrewTo;
    RateIs(cache, n, rule, bytes);
    forall growth: nat, millis: nat | Grew(cache, n, rule, bytes, growth, millis)
      ensures RateMatches(NodeRate(cache, n, rule, bytes).value, above, below)
              <==> Within(growth, millis, above, below)
    {
      WithinIs(NodeRate(cache, n, rule, bytes).value, growth, millis, above, below);
    }
    if NodeRate(cache, n, rule, bytes).Some? && RateMatches(NodeRate(cache, n, rule, bytes).value, above, below) {
      var growth: nat, millis: nat :| Grew(cache, n, rule, bytes, growth, millis);
      assert Within(growth, millis, above, below);
    }
  }

  lemma {:induction false} RatesAre(cache: Entries, nodes: seq<NodeId>, rule: string, bytes: bool)
    ensures forall r :: r in Rates(cache, nodes, rule, bytes) <==>
              exists n :: n in nodes && NodeRate(cache, n, rule, bytes) == Some(r)
    decreases |nodes|
  {
    hide NodeRate;
    if nodes != [] {
      RatesAre(cache, nodes[1..], rule, bytes);
      assert forall n :: n in nodes <==> n == nodes[0] || n in nodes[1..];
    }
  }

  lemma RatesSome(cache: Entries, nodes: seq<NodeId>, rule: string, bytes: bool)
    ensures Rates(cache, nodes, rule, bytes) != [] <==> exists n :: n in nodes && NodeRate(cache, n, rule, bytes).Some?
  {
    hide NodeRate, Rates;
    RatesAre(cache, nodes, rule, bytes);
    var rates := Rates(cache, nodes, rule, bytes);
    if rates != [] {
      var r := rates[0];
      assert r in rates;
    }
    if n :| n in nodes && NodeRate(cache, n, rule, bytes).Some? {
      var r := NodeRate(cache, n, rule, bytes).value;
      assert NodeRate(cache, n, rule, bytes) == Some(r);
      assert r in rates;
      assert |rates| > 0;
    }
  }

  /** What a node adds to the sum of rates. */
  function Part(r: Option<real>): real {
    if r.Some? then r.value else 0.0
  }

  lemma Cancel(x: real, y: real, m: real)
    requires m > 0.0 && x * m == y * m
    ensures x == y
  {
    assert (x - y) * m == 0.0;
  }

  lemma AddsRateIs(cache: Entries, n: NodeId, rule: string, bytes: bool, x: real)
    ensures AddsRate(cache, n, rule, bytes, x) <==> x == Part(NodeRate(cache, n, rule, bytes))
  {
    hide NodeRate, GrewTo;
    RateIs(cache, n, rule, bytes);
    if AddsRate(cache, n, rule, bytes, x) && Grows(cache, n, rule, bytes) {
      var growth: nat, millis: nat :| Grew(cache, n, rule, bytes, growth, millis);
      Cancel(x, NodeRate(cache, n, rule, bytes).value, millis as real);
    }
  }

  lemma {:induction false} SumSnoc(rates: seq<real>, x: real)
    ensures SumRates(rates + [x]) == SumRates(rates) + x
    decreases |rates|
  {
    if rates == [] {
      assert rates + [x] == [x] && [x][1..] == [];
    } else {
      assert (rates + [x])[1..] == rates[1..] + [x];
      SumSnoc(rates[1..], x);
    }
  }

  function RateOf(cache: Entries, n: NodeId, rule: string, bytes: bool): seq<real> {
    var r := NodeRate(cache, n, rule, bytes);
    if r.Some? then [r.value] else []
  }

  lemma RatesFirst(cache: Entries, nodes: seq<NodeId>, rule: string, bytes: bool)
    ensures Rates(cache, [], rule, bytes) == []
    ensures nodes != [] ==>
              Rates(cache, nodes, rule, bytes)
              == RateOf(cache, nodes[0], rule, bytes) + Rates(cache, nodes[1..], rule, bytes)
  {
    hide NodeRate;
  }

  lemma {:induction false} RatesSnoc(cache: Entries, nodes: seq<NodeId>, n: NodeId, rule: string, bytes: bool)
    ensures Rates(cache, nodes + [n], rule, bytes) == Rates(cache, nodes, rule, bytes) + RateOf(cache, n, rule, bytes)
    decreases |nodes|
  {
    hide RateOf, Rates;
    RatesFirst(cache, nodes, rule, bytes);
    RatesFirst(cache, nodes + [n], rule, bytes);
    if nodes == [] {
      assert nodes + [n] == [n] && [n][1..] == [];
    } else {
      assert (nodes + [n])[1..] == nodes[1..] + [n];
      RatesSnoc(cache, nodes[1..], n, rule, bytes);
    }
  }

  lemma SumRatesSnoc(cache: Entries, nodes: seq<NodeId>, n: NodeId, rule: string, bytes: bool)
    ensures SumRates(Rates(cache, nodes + [n], rule, bytes))
            == SumRates(Rates(cache, nodes, rule, bytes)) + Part(NodeRate(cache, n, rule, bytes))
  {
    hide NodeRate, Rates, SumRates;
    RatesSnoc(cache, nodes, n, rule, bytes);
    var rates, r := Rates(cache, nodes, rule, bytes), NodeRate(cache, n, rule, bytes);
    if r.Some? {
      SumSnoc(rates, r.value);
    } else {
      assert rates + [] == rates;
    }
  }

  lemma {:induction false} GrownSums(cache: Entries, nodes: seq<NodeId>, rule: string, bytes: bool)
    returns (sums: seq<real>)
    ensures SumsGrown(sums, cache, nodes, rule, bytes)
    decreases |nodes|
  {
    hide AddsRate, NodeRate;
    if nodes == [] {
      sums := [0.0];
    } else {
      var last := |nodes| - 1;
      var init := GrownSums(cache, nodes[..last], rule, bytes);
      var x := Part(NodeRate(cache, nodes[last], rule, bytes));
      AddsRateIs(cache, nodes[last], rule, bytes, x);
      sums := init + [init[last] + x];
      forall k: nat | k < |nodes| ensures AddsRate(cache, nodes[k], rule, bytes, sums[k + 1] - sums[k]) {
        if k < last {
          assert AddsRate(cache, nodes[..last][k], rule, bytes, init[k + 1] - init[k]);
        }
      }
    }
  }

  lemma {:induction false} SumsGrownIs(
    sums: seq<real>, cache: Entries, nodes: seq<NodeId>, rule: string, bytes: bool)
    requires SumsGrown(sums, cache, nodes, rule, bytes)
    ensures |sums| == |nodes| + 1 && sums[|nodes|] == SumRates(Rates(cache, nodes, rule, bytes))
    decreases |nodes|
  {
    hide AddsRate, NodeRate, Part;
    if nodes != [] {
      var last := |nodes| - 1;
      assert nodes == nodes[..last] + [nodes[last]];
      assert SumsGrown(sums[..|nodes|], cache, nodes[..last], rule, bytes);
      SumsGrownIs(sums[..|nodes|], cache, nodes[..last], rule, bytes);
      AddsRateIs(cache, nodes[last], rule, bytes, sums[last + 1] - sums[last]);
      SumRatesSnoc(cache, nodes[..last], nodes[last], rule, bytes);
    }
  }

  lemma SumWithinIs(
    cache: Entries, nodes: seq<NodeId>, rule: string, bytes: bool, above: Option<real>, below: Option<real>)
    ensures SumWithin(cache, nodes, rule, bytes, above, below)
            <==> RateMatches(SumRates(Rates(cache, nodes, rule, bytes)), above, below)
  {
    hide SumsGrown, Rates, SumRates;
    var some := GrownSums(cache, nodes, rule, bytes);
    forall sums: seq<real> | SumsGrown(sums, cache, nodes, rule, bytes)
      ensures |sums| == |nodes| + 1 && sums[|nodes|] == SumRates(Rates(cache, nodes, rule, bytes))
    {
      SumsGrownIs(sums, cache, nodes, rule, bytes);
    }
  }

  lemma RateIsPassed(cache: Entries, nodes: seq<NodeId>, rule: string, bytes: bool, cc: CounterCondition)
    ensures RateThreshold(cache, rule, cc.rateAbove, cc.rateBelow, bytes, nodes, Mode(cc))
            <==> RatePasses(cache, nodes, rule, bytes, cc.aggregate, cc.rateAbove, cc.rateBelow)
  {
    hide NodeRate, Rates, SumRates, RateMatches, SomeWithin, SumWithin, Grows, SaysAll, SaysSum, ParseAggregate;
    if cc.aggregate.Some? {
      ModeIs(cc.aggregate);
    } else {
      NoMode();
    }
    RatesAre(cache, nodes, rule, bytes);
    SumWithinIs(cache, nodes, rule, bytes, cc.rateAbove, cc.rateBelow);
    forall n
      ensures var r := NodeRate(cache, n, rule, bytes);
              && (r.Some? <==> Grows(cache, n, rule, bytes))
              && (SomeWithin(cache, n, rule, bytes, cc.rateAbove, cc.rateBelow)
                  <==> r.Some? && RateMatches(r.value, cc.rateAbove, cc.rateBelow))
    {
      SomeWithinIs(cache, n, rule, bytes, cc.rateAbove, cc.rateBelow);
    }
    RatesSome(cache, nodes, rule, bytes);
    forall n | n in nodes && NodeRate(cache, n, rule, bytes).Some?
      ensures NodeRate(cache, n, rule, bytes).value in Rates(cache, nodes, rule, bytes)
    {
    }
  }

  /** The thresholds of the condition, read off the snapshots of these nodes. */
  ghost predicate Passes(cc: CounterCondition, nodes: seq<NodeId>, cache: Entries) {
    var bytes := cc.field == Some("bytes");
    && nodes != []
    && (cc.totalAbove.Some? ==> TotalPasses(cache, nodes, cc.counter, bytes, cc.aggregate, cc.totalAbove.value))
    && (cc.rateAbove.Some? || cc.rateBelow.Some? ==>
          RatePasses(cache, nodes, cc.counter, bytes, cc.aggregate, cc.rateAbove, cc.rateBelow))
  }

  /** A counter condition is met exactly when the newest one and two snapshots of its nodes say so. */
  lemma MetIff(cc: CounterCondition, nodes: seq<NodeId>, w: World)
    ensures Met(cc, nodes, w) <==> Passes(cc, nodes, w.cache)
  {
    hide TotalAbove, TotalPasses, RateThreshold, RatePasses, Mode;
    var bytes := cc.field == Some("bytes");
    if cc.totalAbove.Some? {
      TotalIs(w.cache, nodes, cc.counter, bytes, cc, cc.totalAbove.value);
    }
    RateIsPassed(w.cache, nodes, cc.counter, bytes, cc);
  }
}
