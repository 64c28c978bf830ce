/** The structural upper bound on a goal subject, which the planner uses to prove a goal out of
    reach without searching. */
module Bound {
  import opened Ints
  import opened Domain
  import opened Definition
  import opened Dynamics
  import opened Problems
  import opened Accounting
  import opened Safety

  // ---- What the bound is made of --------------------------------------------

  // An effect that can make a yes-or-no goal come true.
  predicate Raises(goal: GoalSpec, e: Effect) {
    e.subject == goal.subject &&
    match goal.kind
    case LinkGoal => e.kind == SetLink && e.value == 1
    case NodeGoal => e.kind == SetNode && e.value == 1
    case RestoredGoal => e.kind == MarkRestored
    case ServiceGoal => false
  }

  predicate NoneRaises(def: FabricDefinition, goal: GoalSpec) {
    forall a, e :: 0 <= a < |def.actions| && 0 <= e < |def.actions[a].effects| ==>
      !Raises(goal, def.actions[a].effects[e])
  }

  function Larger(x: nat, y: nat): nat {
    if x < y then y else x
  }

  // The highest value that the listed effects set a service to, starting from best.
  function HighestSet(effects: seq<Effect>, subject: Subject, best: nat): nat {
    if |effects| == 0 then best
    else
      var e := effects[|effects| - 1];
      var before := HighestSet(effects[..|effects| - 1], subject, best);
      if e.subject == subject && e.kind == SetService && e.value >= 0 then Larger(before, e.value) else before
  }

  // What the listed effects add to a service at most.
  function Positive(effects: seq<Effect>, subject: Subject): nat {
    if |effects| == 0 then 0
    else
      var e := effects[|effects| - 1];
      Positive(effects[..|effects| - 1], subject)
      + if e.subject == subject && e.kind == ServiceDelta && e.value > 0 then e.value else 0
  }

  function HighestOver(def: FabricDefinition, subject: Subject, best: nat, k: nat): nat
    requires k <= |def.actions|
  {
    if k == 0 then best else HighestSet(def.actions[k - 1].effects, subject, HighestOver(def, subject, best, k - 1))
  }

  function Gains(def: FabricDefinition, subject: Subject): (g: seq<nat>)
    ensures |g| == |def.actions|
    ensures forall a :: 0 <= a < |g| ==> g[a] == Positive(def.actions[a].effects, subject)
  {
    seq(|def.actions|, a requires 0 <= a < |def.actions| => Positive(def.actions[a].effects, subject))
  }

  // Where a service starts from, or could be when nothing is known about it.
  function StartingPoint(def: FabricDefinition, s: FabricState, i: nat): nat
    requires Shaped(def, s) && i < |def.services|
  {
    if s.serviceKnown[i] then s.reachable[i] else def.services[i].maximum
  }

  function ServiceBound(def: FabricDefinition, s: FabricState, subject: Subject, i: nat): nat
    requires Shaped(def, s) && i < |def.services|
  {
    var reach := HighestOver(def, subject, StartingPoint(def, s, i), |def.actions|)
                 + Weighted(OccurrenceLimits(def), Gains(def, subject));
    if reach > def.services[i].maximum then def.services[i].maximum else reach
  }

  // No sum or product behind the bound leaves 64 bits.
  predicate Derivable(def: FabricDefinition, s: FabricState, subject: Subject, i: nat)
    requires Shaped(def, s) && i < |def.services|
  {
    && (forall a :: 0 <= a < |def.actions| ==> Positive(def.actions[a].effects, subject) <= MAX_U64)
    && HighestOver(def, subject, StartingPoint(def, s, i), |def.actions|)
       + Weighted(OccurrenceLimits(def), Gains(def, subject)) <= MAX_U64
  }

  // The value of a yes-or-no goal subject, and whether it is known.
  function Flag(def: FabricDefinition, s: FabricState, goal: GoalSpec, i: nat): Option<bool>
    requires Shaped(def, s) && goal.kind != ServiceGoal && i < Size(def, GoalSubject(goal.kind))
  {
    match goal.kind
    case LinkGoal => if s.linkKnown[i] then Some(s.linkUp[i]) else None
    case NodeGoal => if s.nodeKnown[i] then Some(s.nodeUp[i]) else None
    case RestoredGoal => if s.resourceKnown[i] then Some(s.restored[i]) else None
  }

  // The bound on a goal subject, when one can be derived.
  function UpperBound(def: FabricDefinition, s: FabricState, goal: GoalSpec): Option<nat>
    requires Shaped(def, s) && TypedIndex(def, goal.subject, GoalSubject(goal.kind)).Some?
  {
    var i := SubjectIndex(def, goal.subject).value;
    if goal.kind == ServiceGoal then
      if Derivable(def, s, goal.subject, i) then Some(ServiceBound(def, s, goal.subject, i)) else None
    else
      var flag := Flag(def, s, goal, i);
      if NoneRaises(def, goal) && flag.Some? then Some(if flag.value then 1 else 0) else None
  }

  // ---- Computing it ---------------------------------------------------------

  method AnyRaises(def: FabricDefinition, goal: GoalSpec) returns (writer: bool)
    ensures writer <==> !NoneRaises(def, goal)
  {
    writer := false;
    for a := 0 to |def.actions|
      invariant writer <==> !(forall b, e :: 0 <= b < a && 0 <= e < |def.actions[b].effects| ==>
                                !Raises(goal, def.actions[b].effects[e]))
    {
      var effects := def.actions[a].effects;
      ghost var before := writer;
      for e := 0 to |effects|
        invariant writer <==> before || !(forall f :: 0 <= f < e ==> !Raises(goal, effects[f]))
      {
        if Raises(goal, effects[e]) {
          writer := true;
        }
      }
    }
  }

  /** The effects of one action on a service: the highest value set, and the sum of the
      increases unless it leaves 64 bits. */
  method ScanEffects(effects: seq<Effect>, subject: Subject, best: nat) returns (highest: nat, positive: Option<U64>)
    ensures highest == HighestSet(effects, subject, best) || positive.None?
    ensures positive.Some? <==> Positive(effects, subject) <= MAX_U64
    ensures positive.Some? ==> positive.value == Positive(effects, subject)
  {
    highest := best;
    var sum: U64 := 0;
    for e := 0 to |effects|
      invariant highest == HighestSet(effects[..e], subject, best) && sum == Positive(effects[..e], subject)
    {
      assert effects[..e + 1][..e] == effects[..e];
      if effects[e].subject == subject {
        if effects[e].kind == SetService {
          if effects[e].value >= 0 && effects[e].value > highest {
            highest := effects[e].value;
          }
        } else if effects[e].kind == ServiceDelta && effects[e].value > 0 {
          if sum + effects[e].value > MAX_U64 {
            PositiveGrows(effects, subject, e + 1);
            return highest, None;
          }
          sum := sum + effects[e].value;
        }
      }
    }
    assert effects[..|effects|] == effects;
    positive := Some(sum);
  }

  lemma {:induction false} PositiveGrows(effects: seq<Effect>, subject: Subject, k: nat)
    requires k <= |effects|
    ensures Positive(effects[..k], subject) <= Positive(effects, subject)
  {
    if k < |effects| {
      var front := effects[..|effects| - 1];
      PositiveGrows(front, subject, k);
      assert front[..k] == effects[..k];
    } else {
      assert effects[..k] == effects;
    }
  }

  // What the first actions gain is part of what all of them gain.
  lemma {:induction false} WeightedGrows(counts: seq<nat>, weights: seq<nat>, k: nat)
    requires |counts| == |weights| && k <= |counts|
    ensures Weighted(counts[..k], weights[..k]) <= Weighted(counts, weights)
    decreases |counts| - k
  {
    if k < |counts| {
      assert counts[..k + 1] == counts[..k] + [counts[k]] && weights[..k + 1] == weights[..k] + [weights[k]];
      WeightedSnoc(counts[..k], weights[..k], counts[k], weights[k]);
      assert counts[k] * weights[k] >= 0;
      WeightedGrows(counts, weights, k + 1);
    } else {
      assert counts[..k] == counts && weights[..k] == weights;
    }
  }

  lemma {:induction false} WeightedSnoc(counts: seq<nat>, weights: seq<nat>, c: nat, w: nat)
    requires |counts| == |weights|
    ensures Weighted(counts + [c], weights + [w]) == Weighted(counts, weights) + c * w
  {
    if |counts| > 0 {
      WeightedSnoc(counts[1..], weights[1..], c, w);
      assert (counts + [c])[1..] == counts[1..] + [c] && (weights + [w])[1..] == weights[1..] + [w];
    }
  }

  method ServiceUpperBound(def: FabricDefinition, s: FabricState, subject: Subject, i: nat) returns (r: Option<nat>)
    requires Shaped(def, s) && i < |def.services|
    ensures r == if Derivable(def, s, subject, i) then Some(ServiceBound(def, s, subject, i)) else None
  {
    hide HighestSet, Positive, Weighted;
    var best := StartingPoint(def, s, i);
    var total: nat := 0;
    ghost var limits, gains := OccurrenceLimits(def), Gains(def, subject);
    NoWeights();
    for a := 0 to |def.actions|
      invariant best == HighestOver(def, subject, StartingPoint(def, s, i), a)
      invariant total == Weighted(limits[..a], gains[..a])
      invariant forall b :: 0 <= b < a ==> Positive(def.actions[b].effects, subject) <= MAX_U64
    {
      var positive;
      best, positive := ScanEffects(def.actions[a].effects, subject, best);
      if positive.None? {
        return None;
      }
      var contribution := positive.value * def.actions[a].maxOccurrences;
      assert limits[..a + 1] == limits[..a] + [limits[a]] && gains[..a + 1] == gains[..a] + [gains[a]];
      WeightedSnoc(limits[..a], gains[..a], limits[a], gains[a]);
      WeightedGrows(limits, gains, a + 1);
      if contribution > MAX_U64 || total + contribution > MAX_U64 {
        return None;
      }
      total := total + contribution;
    }
    assert limits[..|def.actions|] == limits && gains[..|def.actions|] == gains;
    if best + total > MAX_U64 {
      return None;
    }
    var reach := best + total;
    r := Some(if reach > def.services[i].maximum then def.services[i].maximum else reach);
  }

  lemma NoWeights()
    ensures Weighted([], []) == 0
  {
  }

  /** Derives the bound on a goal subject: for a service unless a sum leaves 64 bits, otherwise
      when the value is known and no action can raise it. */
  method GoalUpperBound(def: FabricDefinition, s: FabricState, goal: GoalSpec) returns (r: Option<nat>)
    requires Shaped(def, s) && TypedIndex(def, goal.subject, GoalSubject(goal.kind)).Some?
    ensures r == UpperBound(def, s, goal)
  {
    hide SubjectIndex, NoneRaises, ServiceBound, Derivable;
    var i := SubjectIndex(def, goal.subject).value;
    if goal.kind == ServiceGoal {
      r := ServiceUpperBound(def, s, goal.subject, i);
      return;
    }
    var writer := AnyRaises(def, goal);
    if writer {
      return None;
    }
    match Flag(def, s, goal, i)
    case None => r := None;
    case Some(up) => r := Some(if up then 1 else 0);
  }

  // ---- Yes-or-no goals ------------------------------------------------------

  lemma SameSubject(def: FabricDefinition, goal: GoalSpec, e: Effect, i: nat)
    requires TypedIndex(def, goal.subject, GoalSubject(goal.kind)) == Some(i)
    requires TypedIndex(def, e.subject, EffectSubject(e.kind)) == Some(i)
    requires EffectSubject(e.kind) == GoalSubject(goal.kind)
    ensures e.subject == goal.subject
  {
  }

  lemma EffectKeepsFlagDown(def: FabricDefinition, s: FabricState, goal: GoalSpec, e: Effect, i: nat)
    requires Shaped(def, s) && ApplyEffect(def, s, e).Some? && ValidEffect(def, e)
    requires TypedIndex(def, goal.subject, GoalSubject(goal.kind)) == Some(i) && goal.kind != ServiceGoal
    requires !Raises(goal, e) && Flag(def, s, goal, i) == Some(false)
    ensures Flag(def, ApplyEffect(def, s, e).value, goal, i) == Some(false)
  {
    hide SubjectIndex;
    var j := TypedIndex(def, e.subject, EffectSubject(e.kind)).value;
    if j == i && EffectSubject(e.kind) == GoalSubject(goal.kind) {
      SameSubject(def, goal, e, i);
    }
  }

  lemma {:induction false} EffectsKeepFlagDown(def: FabricDefinition, s: FabricState, goal: GoalSpec,
                                               effects: seq<Effect>, i: nat)
    requires Shaped(def, s) && ApplyEffects(def, s, effects).Some?
    requires forall e :: 0 <= e < |effects| ==> ValidEffect(def, effects[e]) && !Raises(goal, effects[e])
    requires TypedIndex(def, goal.subject, GoalSubject(goal.kind)) == Some(i) && goal.kind != ServiceGoal
    requires Flag(def, s, goal, i) == Some(false)
    ensures Flag(def, ApplyEffects(def, s, effects).value, goal, i) == Some(false)
    decreases |effects|
  {
    hide ApplyEffect, ValidEffect, Raises, Flag, TypedIndex;
    if |effects| > 0 {
      EffectKeepsFlagDown(def, s, goal, effects[0], i);
      EffectsKeepFlagDown(def, ApplyEffect(def, s, effects[0]).value, goal, effects[1..], i);
    }
  }

  lemma EvolveKeepsFlagDown(def: FabricDefinition, limits: ModelLimits, s: FabricState, goal: GoalSpec, a: nat, i: nat)
    requires Shaped(def, s) && a < |def.actions| && s.occurrences[a] < def.actions[a].maxOccurrences
    requires ValidDefinition(def, limits) && NoneRaises(def, goal) && Evolve(def, s, a).Some?
    requires TypedIndex(def, goal.subject, GoalSubject(goal.kind)) == Some(i) && goal.kind != ServiceGoal
    requires Flag(def, s, goal, i) == Some(false)
    ensures Flag(def, Evolve(def, s, a).value, goal, i) == Some(false)
  {
    hide ApplyEffects, Consume, ShortfallOf, ValidEffect, Raises, TypedIndex, ValidPrecondition, ValidUse;
    hide ValidDependency, ValidReversibility, GoodIds, GroupIndex;
    assert ValidAction(def, limits, def.actions[a]);
    EffectsKeepFlagDown(def, s, goal, def.actions[a].effects, i);
  }

  lemma {:induction false} FlagStaysDown(p: Problem, limits: ModelLimits, goal: GoalSpec, i: nat, w: seq<nat>)
    requires Shaped(p.def, p.start) && ValidDefinition(p.def, limits) && NoneRaises(p.def, goal)
    requires TypedIndex(p.def, goal.subject, GoalSubject(goal.kind)) == Some(i) && goal.kind != ServiceGoal
    requires Flag(p.def, p.start, goal, i) == Some(false)
    requires Execute(p.def, p.policy, p.start, w).Some?
    ensures Flag(p.def, Execute(p.def, p.policy, p.start, w).value.state, goal, i) == Some(false)
    decreases |w|
  {
    hide Step, Held, StepCost, ValidDefinition, NoneRaises, TypedIndex, Flag, Evolve;
    if |w| > 0 {
      var u, a := w[..|w| - 1], w[|w| - 1];
      ExecuteLast(p.def, p.policy, p.start, w);
      FlagStaysDown(p, limits, goal, i, u);
      var s := Execute(p.def, p.policy, p.start, u).value.state;
      StepFacts(p.def, p.policy, s, Held(p.def, u), a);
      EvolveKeepsFlagDown(p.def, limits, s, goal, a, i);
    }
  }

  // Some admissible sequence reaches a state that meets the goal.
  ghost predicate Reachable(p: Problem, goal: GoalSpec)
    requires Shaped(p.def, p.start)
  {
    exists w :: MeetsAfter(p, goal, w)
  }

  ghost predicate MeetsAfter(p: Problem, goal: GoalSpec, w: seq<nat>)
    requires Shaped(p.def, p.start)
  {
    && Execute(p.def, p.policy, p.start, w).Some?
    && GoalMet(p.def, Execute(p.def, p.policy, p.start, w).value.state, goal)
  }

  /** A bound on a link, node or restoration goal decides it: the goal can be met exactly when
      the bound is not zero.  Declaring it out of reach because the bound lies below the goal
      value is therefore right exactly when the bound is zero, which a value of at most one
      ensures. */
  lemma FlagBoundDecides(p: Problem, limits: ModelLimits, goal: GoalSpec, i: nat, bound: nat)
    requires Shaped(p.def, p.start) && ValidDefinition(p.def, limits) && goal.kind != ServiceGoal
    requires TypedIndex(p.def, goal.subject, GoalSubject(goal.kind)) == Some(i)
    requires NoneRaises(p.def, goal) && Flag(p.def, p.start, goal, i).Some?
    requires bound == if Flag(p.def, p.start, goal, i).value then 1 else 0
    ensures Reachable(p, goal) <==> bound != 0
    ensures bound < goal.value && goal.value <= 1 ==> !Reachable(p, goal)
    ensures bound < goal.value && Reachable(p, goal) ==> bound == 1 && goal.value > 1
  {
    hide Execute, ValidDefinition, NoneRaises, SubjectIndex;
    if bound == 0 {
      forall w
        ensures !MeetsAfter(p, goal, w)
      {
        if Execute(p.def, p.policy, p.start, w).Some? {
          FlagStaysDown(p, limits, goal, i, w);
        }
      }
    } else {
      NothingIsAdmissible(p);
      assert MeetsAfter(p, goal, []);
    }
  }

  lemma NothingIsAdmissible(p: Problem)
    requires Shaped(p.def, p.start)
    ensures Execute(p.def, p.policy, p.start, []).Some?
    ensures Execute(p.def, p.policy, p.start, []).value.state == p.start
  {
  }

  // ---- Service goals --------------------------------------------------------

  lemma {:induction false} ApplySnoc(def: FabricDefinition, s: FabricState, effects: seq<Effect>, e: Effect)
    requires Shaped(def, s)
    ensures ApplyEffects(def, s, effects + [e])
         == match ApplyEffects(def, s, effects) case None => None case Some(t) => ApplyEffect(def, t, e)
    decreases |effects|
  {
    hide ApplyEffect;
    if |effects| == 0 {
      assert effects + [e] == [e] && [e][1..] == [];
    } else {
      assert (effects + [e])[1..] == effects[1..] + [e];
      if ApplyEffect(def, s, effects[0]).Some? {
        ApplySnoc(def, ApplyEffect(def, s, effects[0]).value, effects[1..], e);
      }
    }
  }

  predicate Sets(e: Effect, subject: Subject) {
    e.subject == subject && e.kind == SetService && e.value >= 0
  }

  // No effect in the list sets the service above base.
  predicate SetsWithin(effects: seq<Effect>, subject: Subject, base: nat) {
    forall e :: 0 <= e < |effects| && Sets(effects[e], subject) ==> effects[e].value <= base
  }

  predicate ServiceWithin(def: FabricDefinition, s: FabricState, i: nat, bound: nat)
    requires Shaped(def, s) && i < |def.services|
  {
    && s.reachable[i] <= def.services[i].maximum
    && (s.serviceKnown[i] ==> s.reachable[i] <= bound)
  }

  lemma EffectKeepsWithin(def: FabricDefinition, s: FabricState, e: Effect, subject: Subject, i: nat, base: nat,
                          bound: nat)
    requires Shaped(def, s) && ApplyEffect(def, s, e).Some? && ValidEffect(def, e)
    requires TypedIndex(def, subject, ServiceSubject) == Some(i) && base <= bound && ServiceWithin(def, s, i, bound)
    requires SetsWithin([e], subject, base)
    ensures ServiceWithin(def, ApplyEffect(def, s, e).value, i, bound + Positive([e], subject))
  {
    assert [e][..0] == [];
    assert SetsWithin([e], subject, base) ==>
      (Sets(e, subject) ==> e.value <= base) by {
      assert [e][0] == e;
    }
  }

  lemma {:induction false} EffectsKeepWithin(def: FabricDefinition, s: FabricState, effects: seq<Effect>,
                                             subject: Subject, i: nat, base: nat, bound: nat)
    requires Shaped(def, s) && ApplyEffects(def, s, effects).Some?
    requires forall e :: 0 <= e < |effects| ==> ValidEffect(def, effects[e])
    requires TypedIndex(def, subject, ServiceSubject) == Some(i) && base <= bound && ServiceWithin(def, s, i, bound)
    requires SetsWithin(effects, subject, base)
    ensures ServiceWithin(def, ApplyEffects(def, s, effects).value, i, bound + Positive(effects, subject))
    decreases |effects|
  {
    hide ApplyEffect, ValidEffect, TypedIndex, ServiceWithin;
    if |effects| > 0 {
      var init, e := effects[..|effects| - 1], effects[|effects| - 1];
      assert effects == init + [e];
      ApplySnoc(def, s, init, e);
      EffectsKeepWithin(def, s, init, subject, i, base, bound);
      assert SetsWithin([e], subject, base);
      PositiveOfOne(e, subject);
      EffectKeepsWithin(def, ApplyEffects(def, s, init).value, e, subject, i, base, bound + Positive(init, subject));
    }
  }

  lemma PositiveOfOne(e: Effect, subject: Subject)
    ensures Positive([e], subject)
         == if e.subject == subject && e.kind == ServiceDelta && e.value > 0 then e.value else 0
  {
    assert [e][..0] == [];
  }

  lemma {:induction false} HighestBounds(effects: seq<Effect>, subject: Subject, best: nat)
    ensures best <= HighestSet(effects, subject, best)
    ensures SetsWithin(effects, subject, HighestSet(effects, subject, best))
  {
    if |effects| > 0 {
      var init := effects[..|effects| - 1];
      HighestBounds(init, subject, best);
      forall e | 0 <= e < |effects| && Sets(effects[e], subject)
        ensures effects[e].value <= HighestSet(effects, subject, best)
      {
        assert e < |init| ==> effects[e] == init[e];
      }
    }
  }

  lemma {:induction false} HighestOverBounds(def: FabricDefinition, subject: Subject, best: nat, a: nat, k: nat)
    requires k <= |def.actions|
    ensures best <= HighestOver(def, subject, best, k)
    ensures a < k ==> SetsWithin(def.actions[a].effects, subject, HighestOver(def, subject, best, k))
    decreases k
  {
    if k > 0 {
      HighestOverBounds(def, subject, best, a, k - 1);
      HighestBounds(def.actions[k - 1].effects, subject, HighestOver(def, subject, best, k - 1));
    }
  }

  lemma EvolveKeepsWithin(def: FabricDefinition, limits: ModelLimits, s: FabricState, subject: Subject, a: nat, i: nat,
                          base: nat, bound: nat)
    requires Shaped(def, s) && a < |def.actions| && s.occurrences[a] < def.actions[a].maxOccurrences
    requires ValidDefinition(def, limits) && Evolve(def, s, a).Some?
    requires TypedIndex(def, subject, ServiceSubject) == Some(i) && base <= bound && ServiceWithin(def, s, i, bound)
    requires SetsWithin(def.actions[a].effects, subject, base)
    ensures ServiceWithin(def, Evolve(def, s, a).value, i, bound + Positive(def.actions[a].effects, subject))
  {
    hide ApplyEffects, Consume, ShortfallOf, ValidEffect, TypedIndex, ValidPrecondition, ValidUse, Positive, SetsWithin;
    hide ValidDependency, ValidReversibility, GoodIds, GroupIndex;
    assert ValidAction(def, limits, def.actions[a]);
    EffectsKeepWithin(def, s, def.actions[a].effects, subject, i, base, bound);
  }

  lemma {:induction false} ServiceStaysWithin(p: Problem, limits: ModelLimits, subject: Subject, i: nat, w: seq<nat>)
    requires Shaped(p.def, p.start) && ValidDefinition(p.def, limits) && NothingExecuted(p.start)
    requires TypedIndex(p.def, subject, ServiceSubject) == Some(i)
    requires p.start.reachable[i] <= p.def.services[i].maximum
    requires Execute(p.def, p.policy, p.start, w).Some?
    ensures var s := Execute(p.def, p.policy, p.start, w).value.state;
            var base := HighestOver(p.def, subject, StartingPoint(p.def, p.start, i), |p.def.actions|);
            ServiceWithin(p.def, s, i, base + Weighted(s.occurrences, Gains(p.def, subject)))
    decreases |w|
  {
    hide Step, Held, StepCost, ValidDefinition, TypedIndex, Evolve, SetsWithin, HighestOver, Gains, Weighted;
    var base := HighestOver(p.def, subject, StartingPoint(p.def, p.start, i), |p.def.actions|);
    HighestOverBounds(p.def, subject, StartingPoint(p.def, p.start, i), 0, |p.def.actions|);
    if |w| == 0 {
      WeightedZero(p.start.occurrences, Gains(p.def, subject));
    } else {
      var u, a := w[..|w| - 1], w[|w| - 1];
      ExecuteLast(p.def, p.policy, p.start, w);
      ServiceStaysWithin(p, limits, subject, i, u);
      var s := Execute(p.def, p.policy, p.start, u).value.state;
      StepFacts(p.def, p.policy, s, Held(p.def, u), a);
      HighestOverBounds(p.def, subject, StartingPoint(p.def, p.start, i), a, |p.def.actions|);
      WeightedIncrement(s.occurrences, Gains(p.def, subject), a);
      EvolveKeepsWithin(p.def, limits, s, subject, a, i, base, base + Weighted(s.occurrences, Gains(p.def, subject)));
    }
  }

  /** In every reachable state a known service value is at most the derived bound, so a bound
      below the goal value rules every plan out. */
  lemma ServiceBoundHolds(p: Problem, limits: ModelLimits, goal: GoalSpec, i: nat, w: seq<nat>)
    requires Shaped(p.def, p.start) && ValidDefinition(p.def, limits) && NothingExecuted(p.start)
    requires goal.kind == ServiceGoal && TypedIndex(p.def, goal.subject, ServiceSubject) == Some(i)
    requires p.start.reachable[i] <= p.def.services[i].maximum
    requires Execute(p.def, p.policy, p.start, w).Some?
    ensures var s := Execute(p.def, p.policy, p.start, w).value.state;
            s.serviceKnown[i] ==> s.reachable[i] <= ServiceBound(p.def, p.start, goal.subject, i)
    ensures ServiceBound(p.def, p.start, goal.subject, i) < goal.value ==> !MeetsAfter(p, goal, w)
  {
    hide Execute, ValidDefinition, SubjectIndex, HighestOver, Gains, Weighted;
    var s := Execute(p.def, p.policy, p.start, w).value.state;
    ServiceStaysWithin(p, limits, goal.subject, i, w);
    OccurrencesBounded(p.def, p.policy, p.start, w);
    WeightedMonotone(s.occurrences, OccurrenceLimits(p.def), Gains(p.def, goal.subject));
  }

  // ---- Where the comparison is wrong ----------------------------------------

  const UP_GOAL: GoalSpec := GoalSpec(LinkGoal, Subject(LinkSubject, 7), 2, 1)

  const UP_LINK: FabricDefinition :=
    FabricDefinition([NodeSpec(1, false), NodeSpec(2, false)], [LinkSpec(7, 1, 2)], [], [], [], [UP_GOAL], [])

  const ALREADY_UP: FabricState :=
    FabricState([false, false], [true], [], [], [], [], [false, false], [true], [], [], 0)

  lemma UpLinkIndices()
    ensures NodeIndex(UP_LINK, 1) == Some(0) && NodeIndex(UP_LINK, 2) == Some(1) && LinkIndex(UP_LINK, 7) == Some(0)
  {
    assert NodeIds(UP_LINK)[0] == 1 && NodeIds(UP_LINK)[1] == 2 && LinkIds(UP_LINK)[0] == 7;
    FindUnique(NodeIds(UP_LINK), 0);
    FindUnique(NodeIds(UP_LINK), 1);
    FindUnique(LinkIds(UP_LINK), 0);
  }

  lemma UpLinkIsValid()
    ensures ValidDefinition(UP_LINK, DEFAULT_LIMITS)
  {
    UpLinkIndices();
    assert NodeIds(UP_LINK) == [1, 2] && LinkIds(UP_LINK) == [7];
    assert ServiceIds(UP_LINK) == [] && ResourceIds(UP_LINK) == [] && GroupIds(UP_LINK) == [];
    assert ActionIds(UP_LINK) == [];
    assert ValidLink(UP_LINK, UP_LINK.links[0]) && ValidGoal(UP_LINK, UP_GOAL);
  }

  /** In a valid definition, a link that is up meets a goal of value two without any action: the
      empty sequence is a plan.  Its bound is one, so the comparison declares the goal out of
      reach. */
  lemma HighValueIsMisjudged(policy: PlanPolicy)
    ensures ValidDefinition(UP_LINK, DEFAULT_LIMITS) && UP_GOAL in UP_LINK.goals
    ensures IsPlan(UP_LINK, policy, ALREADY_UP, [])
    ensures LinkIndex(UP_LINK, 7) == Some(0)
    ensures UpperBound(UP_LINK, ALREADY_UP, UP_GOAL) == Some(1) && 1 < UP_GOAL.value
  {
    hide ValidDefinition;
    UpLinkIndices();
    UpLinkIsValid();
    NothingIsAdmissible(Problem(UP_LINK, policy, ALREADY_UP));
    assert GoalMet(UP_LINK, ALREADY_UP, UP_GOAL);
    assert |UP_LINK.goals| == 1 && UP_LINK.goals[0] == UP_GOAL;
  }
}
