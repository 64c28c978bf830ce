/** What a sequence costs, in terms of how often it runs each action: the conservation
    laws behind the objective, and the static condition under which no sum overflows. */
module Accounting {
  import opened Ints
  import opened Domain
  import opened Objectives
  import opened Dynamics
  import opened Problems

  // How often action a occurs in a sequence.
  function CountOf(w: seq<nat>, a: nat): (n: nat)
    ensures n <= |w|
  {
    if |w| == 0 then 0 else CountOf(w[..|w| - 1], a) + if w[|w| - 1] == a then 1 else 0
  }

  function Weighted(counts: seq<nat>, weights: seq<nat>): nat
    requires |counts| == |weights|
  {
    if |counts| == 0 then 0 else counts[0] * weights[0] + Weighted(counts[1..], weights[1..])
  }

  lemma {:induction false} WeightedIncrement(counts: seq<nat>, weights: seq<nat>, a: nat)
    requires |counts| == |weights| && a < |counts|
    ensures Weighted(counts[a := counts[a] + 1], weights) == Weighted(counts, weights) + weights[a]
  {
    var next := counts[a := counts[a] + 1];
    if a == 0 {
      assert next[1..] == counts[1..];
      assert next[0] * weights[0] == counts[0] * weights[0] + weights[0];
    } else {
      WeightedIncrement(counts[1..], weights[1..], a - 1);
      assert next[1..] == counts[1..][a - 1 := counts[1..][a - 1] + 1];
      assert next[0] == counts[0];
    }
  }

  lemma ProductMonotone(a: nat, b: nat, w: nat)
    requires a <= b
    ensures a * w <= b * w
  {
  }

  lemma {:induction false} WeightedMonotone(low: seq<nat>, high: seq<nat>, weights: seq<nat>)
    requires |low| == |high| == |weights| && forall i :: 0 <= i < |low| ==> low[i] <= high[i]
    ensures Weighted(low, weights) <= Weighted(high, weights)
  {
    if |low| > 0 {
      ProductMonotone(low[0], high[0], weights[0]);
      WeightedMonotone(low[1..], high[1..], weights[1..]);
    }
  }

  lemma {:induction false} WeightedZero(counts: seq<nat>, weights: seq<nat>)
    requires |counts| == |weights| && forall i :: 0 <= i < |counts| ==> counts[i] == 0
    ensures Weighted(counts, weights) == 0
  {
    if |counts| > 0 {
      WeightedZero(counts[1..], weights[1..]);
    }
  }

  // ---- The weights of the objective -----------------------------------------

  datatype Measure = Blast | Disruption | Cost | Duration

  function WeightOf(action: ActionSpec, m: Measure): nat {
    match m
    case Blast => action.blastRadius
    case Disruption => action.disruption
    case Cost => action.cost
    case Duration => action.duration
  }

  function Weights(def: FabricDefinition, m: Measure): (w: seq<nat>)
    ensures |w| == |def.actions| && forall i :: 0 <= i < |w| ==> w[i] == WeightOf(def.actions[i], m)
  {
    seq(|def.actions|, i requires 0 <= i < |def.actions| => WeightOf(def.actions[i], m))
  }

  function Component(m: Measure): nat {
    match m
    case Blast => 3
    case Disruption => 5
    case Cost => 6
    case Duration => 7
  }

  // ---- One step -------------------------------------------------------------

  lemma StepFacts(def: FabricDefinition, policy: PlanPolicy, s: FabricState, held: seq<nat>, a: nat)
    requires Shaped(def, s) && |held| == |def.resources| && Step(def, policy, s, held, a).Some?
    ensures a < |def.actions| && s.occurrences[a] < def.actions[a].maxOccurrences
    ensures Ready(def, policy, s, a) && Fits(def, a, held)
    ensures Evolve(def, s, a) == Step(def, policy, s, held, a)
    ensures var t := Step(def, policy, s, held, a).value;
            && Shaped(def, t)
            && t.occurrences == s.occurrences[a := s.occurrences[a] + 1]
            && t.tick == s.tick + def.actions[a].duration
            && FloorGap(def, t) <= FloorGap(def, s)
  {
    hide Fits;
  }

  // An executed sequence splits into its beginning and its last step.
  lemma ExecuteSnoc(def: FabricDefinition, policy: PlanPolicy, start: FabricState, w: seq<nat>, a: nat)
    requires Shaped(def, start)
    ensures Execute(def, policy, start, w + [a])
         == match Execute(def, policy, start, w)
            case None => None
            case Some(o) => Prolong(def, policy, o, Held(def, w), a)
  {
    hide Prolong, Held;
    assert (w + [a])[..|w + [a]| - 1] == w;
  }

  lemma ExecuteLast(def: FabricDefinition, policy: PlanPolicy, start: FabricState, w: seq<nat>)
    requires Shaped(def, start) && |w| > 0 && Execute(def, policy, start, w).Some?
    ensures var u, a := w[..|w| - 1], w[|w| - 1];
            && Execute(def, policy, start, u).Some?
            && var before := Execute(def, policy, start, u).value;
            && Step(def, policy, before.state, Held(def, u), a) == Some(Execute(def, policy, start, w).value.state)
            && a < |def.actions|
            && Execute(def, policy, start, w).value.cost
               == Plus(before.cost, StepCost(def, before.state, Execute(def, policy, start, w).value.state, a))
  {
    hide Step, StepCost, Held;
  }

  lemma {:induction false} Prefixes(def: FabricDefinition, policy: PlanPolicy, start: FabricState, w: seq<nat>, k: nat)
    requires Shaped(def, start) && k <= |w| && Execute(def, policy, start, w).Some?
    ensures Execute(def, policy, start, w[..k]).Some?
    decreases |w|
  {
    hide Prolong, Held;
    if k == |w| {
      assert w[..k] == w;
    } else {
      Prefixes(def, policy, start, w[..|w| - 1], k);
      assert w[..|w| - 1][..k] == w[..k];
    }
  }

  // ---- Whole sequences ------------------------------------------------------

  lemma ComponentStep(def: FabricDefinition, cost: Objective, before: FabricState, after: FabricState, a: nat,
                      m: Measure)
    requires Shaped(def, before) && Shaped(def, after) && a < |def.actions|
    ensures var sum := Plus(cost, StepCost(def, before, after, a));
            && sum[Component(m)] == cost[Component(m)] + Weights(def, m)[a]
            && sum[4] == cost[4] + 1 && sum[0] == cost[0] && sum[1] == cost[1]
  {
    hide Incompleteness;
  }

  /** The state counts executions faithfully, and the additive objective components are
      those counts weighted: they depend on the reached state and on nothing else. */
  lemma {:induction false} CostIsWeightedCount(def: FabricDefinition, policy: PlanPolicy, start: FabricState,
                                               w: seq<nat>, m: Measure)
    requires Shaped(def, start) && NothingExecuted(start) && Execute(def, policy, start, w).Some?
    ensures var o := Execute(def, policy, start, w).value;
            && o.cost[Component(m)] == Weighted(o.state.occurrences, Weights(def, m))
            && o.cost[4] == |w|
            && o.cost[0] == 0 && o.cost[1] == 0
    decreases |w|
  {
    hide Step, Held, StepCost, Plus, Weighted, Weights;
    if |w| == 0 {
      WeightedZero(start.occurrences, Weights(def, m));
    } else {
      var u, a := w[..|w| - 1], w[|w| - 1];
      ExecuteLast(def, policy, start, w);
      CostIsWeightedCount(def, policy, start, u, m);
      var before := Execute(def, policy, start, u).value.state;
      StepFacts(def, policy, before, Held(def, u), a);
      ComponentStep(def, Execute(def, policy, start, u).value.cost, before,
                    Execute(def, policy, start, w).value.state, a, m);
      WeightedIncrement(before.occurrences, Weights(def, m), a);
    }
  }

  lemma {:induction false} OccurrencesAreCounts(def: FabricDefinition, policy: PlanPolicy, start: FabricState,
                                                w: seq<nat>, a: nat)
    requires Shaped(def, start) && NothingExecuted(start) && a < |def.actions| && Execute(def, policy, start, w).Some?
    ensures Execute(def, policy, start, w).value.state.occurrences[a] == CountOf(w, a)
    decreases |w|
  {
    hide Step, Held, StepCost;
    if |w| > 0 {
      ExecuteLast(def, policy, start, w);
      OccurrencesAreCounts(def, policy, start, w[..|w| - 1], a);
      StepFacts(def, policy, Execute(def, policy, start, w[..|w| - 1]).value.state, Held(def, w[..|w| - 1]),
                w[|w| - 1]);
    }
  }

  lemma {:induction false} TickIsDuration(def: FabricDefinition, policy: PlanPolicy, start: FabricState, w: seq<nat>)
    requires Shaped(def, start) && Execute(def, policy, start, w).Some?
    ensures var o := Execute(def, policy, start, w).value; o.state.tick == start.tick + o.cost[7]
    decreases |w|
  {
    hide Step, Held, Incompleteness;
    if |w| > 0 {
      ExecuteLast(def, policy, start, w);
      TickIsDuration(def, policy, start, w[..|w| - 1]);
      StepFacts(def, policy, Execute(def, policy, start, w[..|w| - 1]).value.state, Held(def, w[..|w| - 1]),
                w[|w| - 1]);
    }
  }

  lemma {:induction false} OccurrencesBounded(def: FabricDefinition, policy: PlanPolicy, start: FabricState,
                                              w: seq<nat>)
    requires Shaped(def, start) && NothingExecuted(start) && Execute(def, policy, start, w).Some?
    ensures forall i :: 0 <= i < |def.actions| ==>
              Execute(def, policy, start, w).value.state.occurrences[i] <= OccurrenceLimits(def)[i]
    decreases |w|
  {
    hide Step, Held, StepCost;
    if |w| > 0 {
      ExecuteLast(def, policy, start, w);
      OccurrencesBounded(def, policy, start, w[..|w| - 1]);
      StepFacts(def, policy, Execute(def, policy, start, w[..|w| - 1]).value.state, Held(def, w[..|w| - 1]),
                w[|w| - 1]);
    }
  }

  function TotalTargets(def: FabricDefinition, k: nat): nat
    requires k <= |def.services|
  {
    if k == 0 then 0 else TotalTargets(def, k - 1) + def.services[k - 1].target
  }

  lemma {:induction false} IncompletenessBounded(def: FabricDefinition, s: FabricState, k: nat)
    requires Shaped(def, s) && k <= |def.services|
    ensures ShortfallOf(def, s, true, k) <= TotalTargets(def, k)
  {
    if k > 0 {
      IncompletenessBounded(def, s, k - 1);
    }
  }

  lemma {:induction false} IncompletenessCost(def: FabricDefinition, policy: PlanPolicy, start: FabricState,
                                              w: seq<nat>)
    requires Shaped(def, start) && Execute(def, policy, start, w).Some?
    ensures Execute(def, policy, start, w).value.cost[2] <= |w| * TotalTargets(def, |def.services|)
    decreases |w|
  {
    hide Step, Held;
    if |w| > 0 {
      ExecuteLast(def, policy, start, w);
      IncompletenessCost(def, policy, start, w[..|w| - 1]);
      IncompletenessBounded(def, Execute(def, policy, start, w).value.state, |def.services|);
      assert |w| * TotalTargets(def, |def.services|)
          == (|w| - 1) * TotalTargets(def, |def.services|) + TotalTargets(def, |def.services|);
    }
  }

  // ---- When nothing overflows -----------------------------------------------

  // Even running every action as often as it may keeps every sum within 64 bits.
  predicate AccountingFits(def: FabricDefinition) {
    && Weighted(OccurrenceLimits(def), Weights(def, Blast)) <= MAX_U64
    && Weighted(OccurrenceLimits(def), Weights(def, Disruption)) <= MAX_U64
    && Weighted(OccurrenceLimits(def), Weights(def, Cost)) <= MAX_U64
    && Weighted(OccurrenceLimits(def), Weights(def, Duration)) <= MAX_U64
    && OccurrenceBound(def) <= MAX_U64
    && OccurrenceBound(def) * TotalTargets(def, |def.services|) <= MAX_U64
  }

  lemma MeasureFits(def: FabricDefinition, policy: PlanPolicy, start: FabricState, w: seq<nat>, m: Measure)
    requires Shaped(def, start) && NothingExecuted(start) && Execute(def, policy, start, w).Some?
    ensures Execute(def, policy, start, w).value.cost[Component(m)] <= Weighted(OccurrenceLimits(def), Weights(def, m))
  {
    hide Execute;
    CostIsWeightedCount(def, policy, start, w, m);
    OccurrencesBounded(def, policy, start, w);
    WeightedMonotone(Execute(def, policy, start, w).value.state.occurrences, OccurrenceLimits(def), Weights(def, m));
  }

  lemma {:induction false} ExecutedTotal(def: FabricDefinition, policy: PlanPolicy, start: FabricState, w: seq<nat>)
    requires Shaped(def, start) && NothingExecuted(start) && Execute(def, policy, start, w).Some?
    ensures TotalOccurrences(Execute(def, policy, start, w).value.state.occurrences) == |w|
    decreases |w|
  {
    hide Step, Held, StepCost;
    if |w| == 0 {
      NoneExecuted(start.occurrences);
    } else {
      ExecuteLast(def, policy, start, w);
      ExecutedTotal(def, policy, start, w[..|w| - 1]);
      var before := Execute(def, policy, start, w[..|w| - 1]).value.state;
      StepFacts(def, policy, before, Held(def, w[..|w| - 1]), w[|w| - 1]);
      TotalAfterIncrement(before.occurrences, w[|w| - 1]);
    }
  }

  lemma {:induction false} NoneExecuted(counts: seq<nat>)
    requires forall i :: 0 <= i < |counts| ==> counts[i] == 0
    ensures TotalOccurrences(counts) == 0
  {
    if |counts| > 0 {
      NoneExecuted(counts[1..]);
    }
  }

  lemma AdmissibleLength(def: FabricDefinition, policy: PlanPolicy, start: FabricState, w: seq<nat>)
    requires Shaped(def, start) && NothingExecuted(start) && Execute(def, policy, start, w).Some?
    ensures |w| <= OccurrenceBound(def)
  {
    hide Execute;
    ExecutedTotal(def, policy, start, w);
    OccurrencesBounded(def, policy, start, w);
    TotalMonotone(Execute(def, policy, start, w).value.state.occurrences, OccurrenceLimits(def));
  }

  /** Under the static condition no admissible sequence overflows any component. */
  lemma CostFits(def: FabricDefinition, policy: PlanPolicy, start: FabricState, w: seq<nat>)
    requires Shaped(def, start) && NothingExecuted(start) && AccountingFits(def)
    requires Execute(def, policy, start, w).Some?
    ensures Fits64(Execute(def, policy, start, w).value.cost)
  {
    hide Execute;
    var cost := Execute(def, policy, start, w).value.cost;
    MeasureFits(def, policy, start, w, Blast);
    MeasureFits(def, policy, start, w, Disruption);
    MeasureFits(def, policy, start, w, Cost);
    MeasureFits(def, policy, start, w, Duration);
    CostIsWeightedCount(def, policy, start, w, Blast);
    AdmissibleLength(def, policy, start, w);
    IncompletenessCost(def, policy, start, w);
    ProductMonotone(|w|, OccurrenceBound(def), TotalTargets(def, |def.services|));
    forall i | 0 <= i < 8
      ensures cost[i] <= MAX_U64
    {
      assert i == 0 || i == 1 || i == 2 || i == 3 || i == 4 || i == 5 || i == 6 || i == 7;
    }
  }

  /** Under the static condition the tick never stops a step. */
  lemma TickFits(def: FabricDefinition, policy: PlanPolicy, start: FabricState, w: seq<nat>, a: nat)
    requires Shaped(def, start) && NothingExecuted(start) && start.tick == 0 && AccountingFits(def)
    requires Execute(def, policy, start, w).Some? && a < |def.actions|
    requires Execute(def, policy, start, w).value.state.occurrences[a] < def.actions[a].maxOccurrences
    ensures Execute(def, policy, start, w).value.state.tick + def.actions[a].duration <= MAX_U64
  {
    hide Execute;
    var s := Execute(def, policy, start, w).value.state;
    TickIsDuration(def, policy, start, w);
    CostIsWeightedCount(def, policy, start, w, Duration);
    OccurrencesBounded(def, policy, start, w);
    var counts: seq<nat> := s.occurrences;
    WeightedIncrement(counts, Weights(def, Duration), a);
    WeightedMonotone(counts[a := counts[a] + 1], OccurrenceLimits(def), Weights(def, Duration));
  }
}
