/** State-machine definitions and their validation. */
module Definitions {
  import opened Core
  import Durations

  datatype CounterCondition = CounterCondition(
    counter: string,
    rateAbove: Option<real>,
    rateBelow: Option<real>,
    totalAbove: Option<nat>,
    forDuration: Option<string>,
    aggregate: Option<string>,
    field: Option<string>)

  datatype Condition =
    | Counter(cc: CounterCondition)
    | Simple(allSucceeded: Option<bool>, anyFailed: Option<bool>, manual: Option<bool>)
    | Compound(allOf: Branch, anyOf: Branch, negated: Option<Condition>)

  /** An optional list of conditions. */
  datatype Branch = Omitted | Given(items: seq<Condition>)

  datatype DeployAction = DeployAction(select: map<string, string>, limit: Option<nat>, batchPercent: Option<nat>)

  datatype RollbackTarget = Previous | Version(number: nat)

  /** At most one of the three is performed: the first that is present. */
  datatype Action = Action(deploy: Option<DeployAction>, rollback: Option<RollbackTarget>, alert: Option<string>)

  datatype Transition = Transition(to: string, when: Option<Condition>, after: Option<string>)

  datatype StateDef = StateDef(action: Option<Action>, transitions: seq<Transition>, terminal: bool)

  datatype Definition = Definition(name: string, initial: string, states: map<string, StateDef>)

  predicate ValidDuration(s: Option<string>) {
    s.Some? ==> Durations.Parse(s.value).Ok?
  }

  predicate ValidCounter(cc: CounterCondition) {
    && (cc.rateAbove.Some? || cc.rateBelow.Some? || cc.totalAbove.Some?)
    && (cc.aggregate.Some? ==> cc.aggregate.value in ["any", "all", "sum"])
    && (cc.field.Some? ==> cc.field.value in ["matches", "bytes"])
    && ValidDuration(cc.forDuration)
  }

  /** Visits every branch of a compound condition. */
  predicate ValidCondition(c: Condition) {
    match c
    case Counter(cc) => ValidCounter(cc)
    case Simple(_, _, _) => true
    case Compound(allOf, anyOf, negated) =>
      && (allOf.Given? ==> forall x | x in allOf.items :: ValidCondition(x))
      && (anyOf.Given? ==> forall x | x in anyOf.items :: ValidCondition(x))
      && (negated.Some? ==> ValidCondition(negated.value))
  }

  predicate ValidTransition(def: Definition, t: Transition) {
    t.to in def.states && ValidDuration(t.after) && (t.when.Some? ==> ValidCondition(t.when.value))
  }

  /** `validate` answers `Ok`. */
  predicate Valid(def: Definition) {
    && def.initial in def.states
    && (forall s | s in def.states :: forall t | t in def.states[s].transitions :: ValidTransition(def, t))
    && (forall s | s in def.states :: def.states[s].terminal ==> def.states[s].transitions == [])
    && exists s :: s in def.states && def.states[s].terminal
  }

  /** The definition has a transition from `a` to `b`. */
  ghost predicate Edge(def: Definition, a: string, b: string) {
    a in def.states && exists t :: t in def.states[a].transitions && t.to == b
  }

  // ----- what makes a definition invalid -----

  /** The counter condition `cc` stands somewhere in `c`, whichever branch evaluation would take. */
  ghost predicate Occurs(cc: CounterCondition, c: Condition)
    decreases c
  {
    match c
    case Counter(own) => own == cc
    case Simple(_, _, _) => false
    case Compound(allOf, anyOf, negated) =>
      || (allOf.Given? && exists x | x in allOf.items :: Occurs(cc, x))
      || (anyOf.Given? && exists x | x in anyOf.items :: Occurs(cc, x))
      || (negated.Some? && Occurs(cc, negated.value))
  }

  /** No threshold, an unknown mode or field, or a duration that does not parse. */
  predicate Faulty(cc: CounterCondition) {
    || (cc.rateAbove.None? && cc.rateBelow.None? && cc.totalAbove.None?)
    || (cc.aggregate.Some? && cc.aggregate.value != "any" && cc.aggregate.value != "all" && cc.aggregate.value != "sum")
    || (cc.field.Some? && cc.field.value != "matches" && cc.field.value != "bytes")
    || (cc.forDuration.Some? && Durations.Parse(cc.forDuration.value).Err?)
  }

  lemma {:induction false} ConditionFaults(c: Condition)
    ensures !ValidCondition(c) <==> exists cc :: Occurs(cc, c) && Faulty(cc)
    decreases c
  {
    hide Faulty, ValidCounter;
    match c
    case Counter(cc) =>
      CounterFaults(cc);
      assert Occurs(cc, c);
    case Simple(_, _, _) =>
    case Compound(allOf, anyOf, negated) =>
      if allOf.Given? {
        forall x | x in allOf.items ensures !ValidCondition(x) <==> exists cc :: Occurs(cc, x) && Faulty(cc) {
          ConditionFaults(x);
        }
      }
      if anyOf.Given? {
        forall x | x in anyOf.items ensures !ValidCondition(x) <==> exists cc :: Occurs(cc, x) && Faulty(cc) {
          ConditionFaults(x);
        }
      }
      if negated.Some? {
        ConditionFaults(negated.value);
      }
      CompoundFaults(c);
  }

  lemma CounterFaults(cc: CounterCondition)
    ensures !ValidCounter(cc) <==> Faulty(cc)
  {
    hide Durations.Parse;
  }

  /** A part of a compound condition: from either list, or the negated one. */
  ghost predicate Part(x: Condition, c: Condition)
    requires c.Compound?
  {
    || (c.allOf.Given? && x in c.allOf.items) || (c.anyOf.Given? && x in c.anyOf.items)
    || (c.negated.Some? && x == c.negated.value)
  }

  lemma BadPart(c: Condition) returns (x: Condition)
    requires c.Compound? && !ValidCondition(c)
    ensures Part(x, c) && !ValidCondition(x)
  {
    hide ValidCounter;
    if c.allOf.Given? && exists y :: y in c.allOf.items && !ValidCondition(y) {
      x :| x in c.allOf.items && !ValidCondition(x);
    } else if c.anyOf.Given? && exists y :: y in c.anyOf.items && !ValidCondition(y) {
      x :| x in c.anyOf.items && !ValidCondition(x);
    } else {
      x := c.negated.value;
    }
  }

  lemma PartWith(cc: CounterCondition, c: Condition) returns (x: Condition)
    requires c.Compound? && Occurs(cc, c)
    ensures Part(x, c) && Occurs(cc, x)
  {
    if c.allOf.Given? && exists y :: y in c.allOf.items && Occurs(cc, y) {
      x :| x in c.allOf.items && Occurs(cc, x);
    } else if c.anyOf.Given? && exists y :: y in c.anyOf.items && Occurs(cc, y) {
      x :| x in c.anyOf.items && Occurs(cc, x);
    } else {
      x := c.negated.value;
    }
  }

  lemma CompoundFaults(c: Condition)
    requires c.Compound?
    requires forall x :: Part(x, c) ==> (!ValidCondition(x) <==> exists cc :: Occurs(cc, x) && Faulty(cc))
    ensures !ValidCondition(c) <==> exists cc :: Occurs(cc, c) && Faulty(cc)
  {
    hide Faulty, ValidCounter;
    if !ValidCondition(c) {
      var x := BadPart(c);
      var cc :| Occurs(cc, x) && Faulty(cc);
      assert Occurs(cc, c);
    }
    if cc :| Occurs(cc, c) && Faulty(cc) {
      var x := PartWith(cc, c);
      assert !ValidCondition(x);
    }
  }

  /** The transition leads nowhere, waits for no duration at all, or asks a faulty counter condition somewhere. */
  ghost predicate Broken(def: Definition, t: Transition) {
    || t.to !in def.states
    || (t.after.Some? && Durations.Parse(t.after.value).Err?)
    || (t.when.Some? && exists cc :: Occurs(cc, t.when.value) && Faulty(cc))
  }

  /** A definition is rejected exactly when one of these is wrong with it. */
  lemma InvalidIff(def: Definition)
    ensures !Valid(def) <==>
              || def.initial !in def.states
              || (forall s :: s in def.states ==> !def.states[s].terminal)
              || (exists s :: s in def.states && def.states[s].terminal && def.states[s].transitions != [])
              || (exists s, t :: s in def.states && t in def.states[s].transitions && Broken(def, t))
  {
    hide Durations.Parse, ValidCondition, Faulty;
    forall t ensures !ValidTransition(def, t) <==> Broken(def, t) {
      if t.when.Some? {
        ConditionFaults(t.when.value);
      }
    }
    hide ValidTransition, Broken;
  }
}
