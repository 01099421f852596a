/** One definition, one node and a few readings at which the shared clock of compound conditions shows. */
module CompoundExamples {
  import opened Core
  import opened Definitions
  import opened Counters
  import opened Engine
  import opened EngineRuns
  import opened Conditions
  import opened Compounds
  import Durations

  function Above(rule: string): CounterCondition {
    CounterCondition(rule, None, None, Some(5), Some("1s"), None, None)
  }

  /** One state that waits for `c`, and a terminal one. */
  function Watching(c: Condition): Definition {
    Definition("watching", "watch", map[
      "watch" := StateDef(None, [Transition("done", Some(c), None)], false),
      "done" := StateDef(None, [], true)])
  }

  /** At `seconds`, the one node reads `r` and `q` matches of the rules "r" and "q". */
  function At(seconds: nat, r: nat, q: nat): World {
    World(seconds * NANOS_PER_SECOND, Some([FleetNode("n", map[])]), {},
          map["n" := [Snapshot("n", seconds * NANOS_PER_SECOND, [RuleCounter("r", r, 0), RuleCounter("q", q, 0)])]],
            ["n"])
  }

  /** The node is the one target. */
  const ONLY := Scope(["n"], [])

  function Started(c: Condition): Instance {
    Launch(Watching(c), NewContext(None, ["n"]), At(0, 0, 0))
  }

  lemma OneSecond()
    ensures Durations.Parse("1s") == Ok(1) && Durations.Span(1) == NANOS_PER_SECOND
  {
    var g := Durations.Group("1", 's');
    assert "1"[..0] == "";
    assert [g][1..] == [];
    assert Durations.Print([g]) == "1s";
    Durations.PrintTrimmed([g]);
    Durations.SpelledAnswer("1s", [g]);
  }

  lemma ReadingMet(seconds: nat, r: nat, q: nat)
    ensures MetIn(Above("r"), ONLY, At(seconds, r, q)) <==> r > 5
    ensures MetIn(Above("q"), ONLY, At(seconds, r, q)) <==> q > 5
  {
    var w := At(seconds, r, q);
    var cs := [RuleCounter("r", r, 0), RuleCounter("q", q, 0)];
    assert cs[1..] == [RuleCounter("q", q, 0)];
    assert Find(cs, "r") == Some(cs[0]);
    assert Find(cs, "q") == Find(cs[1..], "q") == Some(cs[1]);
    forall rule | rule == "r" || rule == "q"
      ensures TotalAbove(w.cache, rule, 5, false, ["n"], Any) <==> NodeAbove(w.cache, "n", rule, 5, false)
    {
      assert "n" in ["n"];
    }
  }

  lemma ReadingTime(seconds: nat, r: nat, q: nat)
    ensures At(seconds, r, q).now == seconds * NANOS_PER_SECOND
  {
  }

  lemma StartedOk(c: Condition)
    requires ValidCondition(c)
    ensures var def := Watching(c);
            && Valid(def) && Entered(def, Started(c)) && Started(c).currentState == "watch"
            && ScopeOf(Started(c).context) == ONLY
            && StartAdaptive(def, None, map[], At(0, 0, 0)) == Ok(Started(c))
  {
    var def := Watching(c);
    assert def.states["done"].terminal;
    forall t | t in def.states["watch"].transitions ensures ValidTransition(def, t) {
    }
    var fleet := [FleetNode("n", map[])];
    assert fleet[1..] == [];
    assert Select(fleet, map[]) == ["n"];
  }

  lemma StartedStay(c: Condition)
    requires ValidCondition(c)
    ensures var def, i := Watching(c), Started(c);
            && Stay(def, i, [], 0, c) && |def.states[i.currentState].transitions| == 1
            && i.currentState == "watch" && "watch" in def.states && ScopeOf(i.context) == ONLY
  {
    StartedOk(c);
    hide Started, Entered, ValidCondition;
  }

  lemma PairValid()
    ensures Timed(Above("r")) && Timed(Above("q")) && Above("r").forDuration == Above("q").forDuration
    ensures Required(Above("r")) == NANOS_PER_SECOND
    ensures ValidCondition(EitherOf(Above("r"), Above("q"))) && ValidCondition(BothOf(Above("r"), Above("q")))
  {
    OneSecond();
  }

  /** A stay is one evaluation longer when nothing is enabled at it. */
  lemma LongerStay(def: Definition, i: Instance, ws: seq<World>, w: World, c: Condition)
    requires Stay(def, i, ws, 0, c) && |def.states[i.currentState].transitions| == 1
    requires StayRun(def, i, ws) == WithClocks(i, StayRun(def, i, ws).context.clocks)
    requires !Enabled(StayRun(def, i, ws), def.states[i.currentState].transitions, 0, w)
    ensures Stay(def, i, ws + [w], 0, c)
  {
    var j := StayRun(def, i, ws);
    var ts := def.states[i.currentState].transitions;
    FirstClocks(j, ts, w);
    EvalFromEnabled(j, ts, 0, w);
    assert (ws + [w])[..|ws|] == ws;
    hide EvalFrom, Enabled, ClocksBefore, StayRun;
  }

  /**
   * "r above 5 for 1s, or q above 5 for 1s": r is above 5 at readings ten seconds apart and in between,
   * q never is, and the transition is enabled at none of them.
   */
  lemma EitherStaysPut()
    ensures var c := EitherOf(Above("r"), Above("q"));
            var ws := [At(0, 9, 0), At(5, 9, 0)];
            var w := At(10, 9, 0);
            && Stay(Watching(c), Started(c), ws, 0, c)
            && HeldFrom(Above("r"), ONLY, ws + [w], 0, 10 * NANOS_PER_SECOND)
            && !Enabled(StayRun(Watching(c), Started(c), ws), Watching(c).states["watch"].transitions, 0, w)
  {
    var a, b := Above("r"), Above("q");
    var c := EitherOf(a, b);
    hide EitherOf, Timed, ValidCondition, Above, At, MetIn, Started, StayRun, Enabled, Stay, HeldFrom;
    PairValid();
    StartedStay(c);
    ReadingMet(0, 9, 0);
    ReadingMet(5, 9, 0);
    EitherStays(Watching(c), Started(c), At(0, 9, 0), At(5, 9, 0), At(10, 9, 0), a, b);
    TenSeconds();
  }

  lemma EitherStays(
    def: Definition, i: Instance, x: World, y: World, w: World, a: CounterCondition, b: CounterCondition)
    requires Stay(def, i, [], 0, EitherOf(a, b)) && |def.states[i.currentState].transitions| == 1
    requires Timed(a) && Timed(b) && !MetIn(b, ScopeOf(i.context), x) && !MetIn(b, ScopeOf(i.context), y)
    ensures Stay(def, i, [x, y], 0, EitherOf(a, b))
    ensures !Enabled(StayRun(def, i, [x, y]), def.states[i.currentState].transitions, 0, w)
  {
    hide EitherOf, Timed, MetIn, StayRun, Enabled, Entered, Quiet, ScopeOf;
    var c := EitherOf(a, b);
    EitherNeverFires(def, i, [], x, 0, a, b);
    LongerStay(def, i, [], x, c);
    assert [] + [x] == [x] && [x] + [y] == [x, y];
    EitherNeverFires(def, i, [x], y, 0, a, b);
    LongerStay(def, i, [x], y, c);
    EitherNeverFires(def, i, [x, y], w, 0, a, b);
  }

  lemma TenSeconds()
    ensures HeldFrom(Above("r"), ONLY, [At(0, 9, 0), At(5, 9, 0)] + [At(10, 9, 0)], 0, 10 * NANOS_PER_SECOND)
  {
    hide MetIn, At, Above;
    ReadingMet(0, 9, 0);
    ReadingMet(5, 9, 0);
    ReadingMet(10, 9, 0);
    ReadingTime(0, 9, 0);
    ReadingTime(10, 9, 0);
  }

  /**
   * "r above 5 for 1s, and q above 5 for 1s": q is above 5 at the last reading only, and the transition
   * is enabled there.
   */
  lemma BothFiresAtOnce()
    ensures var c := BothOf(Above("r"), Above("q"));
            var w0, w := At(0, 9, 0), At(1, 9, 9);
            && Stay(Watching(c), Started(c), [w0], 0, c) && !MetIn(Above("q"), ONLY, w0)
            && Enabled(StayRun(Watching(c), Started(c), [w0]), Watching(c).states["watch"].transitions, 0, w)
  {
    var a, b := Above("r"), Above("q");
    var c := BothOf(a, b);
    var w0, w := At(0, 9, 0), At(1, 9, 9);
    hide BothOf, Above, Timed, ValidCondition, At, MetIn, Started, StayRun, Enabled, Stay, Required, Durations.Parse;
    PairValid();
    StartedStay(c);
    ReadingMet(0, 9, 0);
    ReadingMet(1, 9, 9);
    ReadingTime(0, 9, 0);
    ReadingTime(1, 9, 9);
    BothFires(Watching(c), Started(c), w0, w, a, b);
  }

  lemma BothFires(def: Definition, i: Instance, w0: World, w: World, a: CounterCondition, b: CounterCondition)
    requires Stay(def, i, [], 0, BothOf(a, b)) && |def.states[i.currentState].transitions| == 1
    requires Timed(a) && b.forDuration == a.forDuration
    requires MetIn(a, ScopeOf(i.context), w0) && !MetIn(b, ScopeOf(i.context), w0)
    requires MetIn(a, ScopeOf(i.context), w) && MetIn(b, ScopeOf(i.context), w) && w.now - w0.now >= Required(a)
    ensures Stay(def, i, [w0], 0, BothOf(a, b))
    ensures Enabled(StayRun(def, i, [w0]), def.states[i.currentState].transitions, 0, w)
  {
    hide BothOf, MetIn, StayRun, Enabled, Entered, Required, Durations.Parse;
    BothStay(def, i, [], 0, a, b);
    BothNotYet(def, i, w0, a, b);
    LongerStay(def, i, [], w0, BothOf(a, b));
    assert [] + [w0] == [w0];
    BothFiresEarly(def, i, w0, w, 0, a, b);
  }

  lemma BothNotYet(def: Definition, i: Instance, w: World, a: CounterCondition, b: CounterCondition)
    requires Stay(def, i, [], 0, BothOf(a, b)) && Timed(a) && Timed(b)
    ensures !Enabled(StayRun(def, i, []), def.states[i.currentState].transitions, 0, w)
  {
    BothIff(def, i, [], w, 0, a, b);
    hide Enabled, StayRun, Timed, BothOf;
  }

  // ----- nothing to check in between -----

  /** No node has reported: the cache is empty. */
  function Nothing(seconds: nat): World {
    World(seconds * NANOS_PER_SECOND, Some([FleetNode("n", map[])]), {}, map[], [])
  }

  /** A deployment that has deployed to no node yet. */
  function Deploying(c: Condition): Instance {
    StartDeployment(Watching(c), "rules", At(0, 0, 0))
  }

  lemma DeployingOk(c: Condition)
    requires ValidCondition(c)
    ensures Entered(Watching(c), Deploying(c)) && Deploying(c).currentState == "watch"
    ensures ScopeOf(Deploying(c).context) == Scope([], []) && StartsDeployment(Watching(c), Deploying(c))
  {
    StartedOk(c);
  }

  lemma CachedMet(seconds: nat, r: nat, q: nat)
    ensures MetIn(Above("r"), Scope([], []), At(seconds, r, q)) <==> r > 5
  {
    ReadingMet(seconds, r, q);
    assert Checked(Scope([], []), At(seconds, r, q)) == Checked(ONLY, At(seconds, r, q));
    hide Met, Above, At;
  }

  /**
   * "r above 5 for 1s" on a deployment without nodes: r is above 5 at the first and at the last reading,
   * nothing was cached at the one between, and the transition is enabled.
   */
  lemma HeldAcrossNothing()
    ensures var c := Counter(Above("r"));
            var ws := [At(0, 9, 0), Nothing(1)];
            && Stay(Watching(c), Deploying(c), ws, 0, c) && !MetIn(Above("r"), Scope([], []), Nothing(1))
            && Enabled(StayRun(Watching(c), Deploying(c), ws), Watching(c).states["watch"].transitions, 0, At(2, 9, 0))
  {
    var cc := Above("r");
    PairValid();
    DeployingOk(Counter(cc));
    CachedMet(0, 9, 0);
    CachedMet(2, 9, 0);
    ReadingTime(0, 9, 0);
    ReadingTime(2, 9, 0);
    NoNodesUnmet(cc, Nothing(1));
    assert Blank(Scope([], []), Nothing(1));
    assert LoneSustained(Watching(Counter(cc)).states["watch"].transitions, 0, cc);
    hide Above, At, Met, MetIn, Deploying, Timed, Entered, ValidCondition, Blank, StartsDeployment;
    HeldAcross(Watching(Counter(cc)), Deploying(Counter(cc)), cc, At(0, 9, 0), Nothing(1), At(2, 9, 0));
  }

  lemma HeldAcross(def: Definition, i: Instance, cc: CounterCondition, x: World, y: World, w: World)
    requires Entered(def, i) && |def.states[i.currentState].transitions| == 1 && Timed(cc)
    requires LoneSustained(def.states[i.currentState].transitions, 0, cc)
    requires var sc := ScopeOf(i.context); MetIn(cc, sc, x) && Blank(sc, y) && MetIn(cc, sc, w)
    requires x.now <= y.now <= w.now && w.now - x.now >= Required(cc)
    ensures Stay(def, i, [x, y], 0, Counter(cc))
    ensures Enabled(StayRun(def, i, [x, y]), def.states[i.currentState].transitions, 0, w)
  {
    hide MetIn, Blank, StayRun, Enabled, Required, Entered, Quiet, Timed, HeldFrom, InTimeOrder;
    var c, sc := Counter(cc), ScopeOf(i.context);
    CounterFirst(def, i, cc, x);
    assert [] + [x] == [x] && [x] + [y] == [x, y];
    LongerStay(def, i, [], x, c);
    CounterBlank(def, i, cc, x, y);
    LongerStay(def, i, [x], y, c);
    HeldOver(cc, sc, x, y, w);
    SustainedIff(def, i, [x, y], w, 0, cc);
  }

  lemma HeldOver(cc: CounterCondition, sc: Scope, x: World, y: World, w: World)
    requires Timed(cc) && MetIn(cc, sc, x) && Blank(sc, y) && MetIn(cc, sc, w)
    requires x.now <= y.now <= w.now && w.now - x.now >= Required(cc)
    ensures InTimeOrder([x, y] + [w]) && HeldFrom(cc, sc, [x, y] + [w], 0, Required(cc))
  {
    hide MetIn, Blank, Required;
  }

  lemma CounterFirst(def: Definition, i: Instance, cc: CounterCondition, x: World)
    requires Entered(def, i) && LoneSustained(def.states[i.currentState].transitions, 0, cc) && Timed(cc)
    ensures Stay(def, i, [], 0, Counter(cc)) && StayRun(def, i, []) == WithClocks(i, StayRun(def, i, []).context.clocks)
    ensures !Enabled(StayRun(def, i, []), def.states[i.currentState].transitions, 0, x)
  {
    StayClock(def, i, [], 0, cc);
    Durations.SpanPositive(cc.forDuration.value);
    EnabledSince(StayRun(def, i, []), def.states[i.currentState].transitions, 0, cc, [], x);
    assert [] + [x] == [x] && [x][..0] == [];
    hide MetIn, Blank, Enabled, Durations.Parse, Durations.Span;
  }

  lemma CounterBlank(def: Definition, i: Instance, cc: CounterCondition, x: World, y: World)
    requires Entered(def, i) && Quiet(def, i, [x]) && LoneSustained(def.states[i.currentState].transitions, 0, cc)
    requires Blank(ScopeOf(i.context), y)
    ensures StayRun(def, i, [x]) == WithClocks(i, StayRun(def, i, [x]).context.clocks)
    ensures !Enabled(StayRun(def, i, [x]), def.states[i.currentState].transitions, 0, y)
  {
    hide MetIn, Blank, Enabled, StayRun, Quiet, HeldSince;
    StayClock(def, i, [x], 0, cc);
    EnabledSince(StayRun(def, i, [x]), def.states[i.currentState].transitions, 0, cc, [x], y);
  }
}
