/** From the encoding the search reports to the steps of a plan, and why the validator agrees
    with every one of them. */
module Replaying {
  import opened Ints
  import opened Domain
  import opened Objectives
  import opened Dynamics
  import opened Definition
  import opened Evidence
  import opened Holds
  import opened Problems
  import opened Accounting
  import opened Reconcile
  import opened Requests
  import opened Transition
  import opened Validate

  // ---- Producing the steps --------------------------------------------------

  function TickAfter(p: Problem, w: seq<nat>): nat
    requires Shaped(p.def, p.start) && Execute(p.def, p.policy, p.start, w).Some?
  {
    Execute(p.def, p.policy, p.start, w).value.state.tick
  }

  // What the planner writes about step number k of an admissible sequence.
  ghost predicate Produced(p: Problem, table: ResolutionTable, w: seq<nat>, k: nat, step: PlanStep)
    requires Shaped(p.def, p.start) && k < |w| && w[k] < |p.def.actions|
  {
    var action := p.def.actions[w[k]];
    && step.index == Wrap32(k)
    && step.action == action.id
    && step.occurrence == CountOf(w[..k], w[k]) + 1
    && step.requiredDomain == action.requiredDomain
    && step.requiredLevel == action.requiredLevel
    && step.issuedLevel == Recommendation
    && step.evidence == BindingsFor(table, action.preconditions)
    && step.irreversible == (action.reversibility == Irreversible)
    && step.compensation == action.compensation
  }

  // The step runs from the tick before it to the tick after it.
  ghost predicate Timed(p: Problem, w: seq<nat>, k: nat, step: PlanStep)
    requires Shaped(p.def, p.start) && k < |w|
  {
    && Execute(p.def, p.policy, p.start, w[..k]).Some? && Execute(p.def, p.policy, p.start, w[..k + 1]).Some?
    && step.startTick == TickAfter(p, w[..k])
    && step.endTick == TickAfter(p, w[..k + 1])
  }

  ghost predicate AllProduced(p: Problem, table: ResolutionTable, w: seq<nat>, steps: seq<PlanStep>)
    requires Shaped(p.def, p.start)
  {
    && |steps| <= |w| && IsWord(p.def, w)
    && forall k :: 0 <= k < |steps| ==> Produced(p, table, w, k, steps[k]) && Timed(p, w, k, steps[k])
  }

  /** The steps of a plan follow each other without a gap, from the first tick to the stated
      duration. */
  lemma ScheduleIsContiguous(p: Problem, table: ResolutionTable, w: seq<nat>, steps: seq<PlanStep>, k: nat)
    requires Shaped(p.def, p.start) && AllProduced(p, table, w, steps) && |steps| == |w| && k < |steps|
    requires Execute(p.def, p.policy, p.start, w).Some?
    ensures k == 0 ==> steps[k].startTick == p.start.tick
    ensures k + 1 < |steps| ==> steps[k + 1].startTick == steps[k].endTick
    ensures k + 1 == |steps| ==>
              steps[k].endTick == p.start.tick + Execute(p.def, p.policy, p.start, w).value.cost[7]
  {
    hide Execute, Produced;
    assert Timed(p, w, k, steps[k]);
    TickIsDuration(p.def, p.policy, p.start, w);
    if k == 0 {
      assert w[..0] == [];
      BeginsAtStart(p);
    }
    if k + 1 < |steps| {
      assert Timed(p, w, k + 1, steps[k + 1]);
    } else {
      assert w[..k + 1] == w;
    }
  }

  lemma BeginsAtStart(p: Problem)
    requires Shaped(p.def, p.start)
    ensures Execute(p.def, p.policy, p.start, []).Some?
    ensures TickAfter(p, []) == p.start.tick
  {
  }

  lemma {:induction false} PrefixCostFits(p: Problem, w: seq<nat>, k: nat)
    requires Shaped(p.def, p.start) && Execute(p.def, p.policy, p.start, w).Some? && k <= |w|
    requires Fits64(Execute(p.def, p.policy, p.start, w).value.cost)
    ensures Execute(p.def, p.policy, p.start, w[..k]).Some?
    ensures Fits64(Execute(p.def, p.policy, p.start, w[..k]).value.cost)
    decreases |w|
  {
    hide Step, Held, StepCost;
    if k == |w| {
      assert w[..k] == w;
    } else {
      ExecuteLast(p.def, p.policy, p.start, w);
      var u := w[..|w| - 1];
      var cost := Execute(p.def, p.policy, p.start, w).value.cost;
      var before := Execute(p.def, p.policy, p.start, u).value.cost;
      assert forall i :: 0 <= i < 8 ==> before[i] <= cost[i];
      PrefixCostFits(p, u, k);
      assert u[..k] == w[..k];
    }
  }

  // The replay stands after the first k steps of w.
  ghost predicate ReplayedTo(p: Problem, w: seq<nat>, k: nat, config: Config, total: Objective)
    requires Shaped(p.def, p.start) && k <= |w|
  {
    Replay(p.def, p.policy, p.start, w[..k]) == Some(Progress(config, total))
  }

  // The replay so far is the execution of the prefix.
  lemma ReplayedPrefix(p: Problem, w: seq<nat>, k: nat, config: Config, total: Objective)
    requires Shaped(p.def, p.start) && NothingExecuted(p.start) && k < |w| && w[k] < |p.def.actions|
    requires Execute(p.def, p.policy, p.start, w[..k]).Some?
    requires Shaped(p.def, config.state) && ReplayedTo(p, w, k, config, total)
    ensures config.state.occurrences[w[k]] == CountOf(w[..k], w[k])
    ensures config.state.tick == TickAfter(p, w[..k])
  {
    hide Execute, Replay;
    ReplayIsExecute(p.def, p.policy, p.start, w[..k]);
    OccurrencesAreCounts(p.def, p.policy, p.start, w[..k], w[k]);
  }

  lemma ReplayedNext(p: Problem, w: seq<nat>, k: nat, config: Config, total: Objective)
    requires Shaped(p.def, p.start) && k < |w| && w[k] < |p.def.actions|
    requires Execute(p.def, p.policy, p.start, w[..k + 1]).Some?
    requires Shaped(p.def, config.state) && ReplayedTo(p, w, k, config, total)
    ensures Advance(p.def, p.policy, config, w[k]).Some?
    ensures var next := Advance(p.def, p.policy, config, w[k]).value;
            var sum := Plus(total, StepCost(p.def, config.state, next.state, w[k]));
            && ReplayedTo(p, w, k + 1, next, sum)
            && sum == Execute(p.def, p.policy, p.start, w[..k + 1]).value.cost
            && next.state.tick == TickAfter(p, w[..k + 1])
  {
    hide Advance, StepCost, Execute, Replay;
    ReplayIsExecute(p.def, p.policy, p.start, w[..k + 1]);
    assert w[..k + 1] == w[..k] + [w[k]];
    ReplaySnoc(p, w[..k], w[k]);
  }

  lemma NextStep(p: Problem, w: seq<nat>, k: nat, config: Config, total: Objective)
    requires Shaped(p.def, p.start) && NothingExecuted(p.start) && k < |w|
    requires Execute(p.def, p.policy, p.start, w).Some? && Fits64(Execute(p.def, p.policy, p.start, w).value.cost)
    requires Shaped(p.def, config.state) && ReplayedTo(p, w, k, config, total)
    ensures w[k] < |p.def.actions|
    ensures Advance(p.def, p.policy, config, w[k]).Some?
    ensures config.state.occurrences[w[k]] == CountOf(w[..k], w[k])
    ensures Execute(p.def, p.policy, p.start, w[..k]).Some? && config.state.tick == TickAfter(p, w[..k])
    ensures var next := Advance(p.def, p.policy, config, w[k]).value;
            var sum := Plus(total, StepCost(p.def, config.state, next.state, w[k]));
            && ReplayedTo(p, w, k + 1, next, sum) && Fits64(sum)
            && Execute(p.def, p.policy, p.start, w[..k + 1]).Some? && next.state.tick == TickAfter(p, w[..k + 1])
  {
    hide Advance, StepCost, Execute, ReplayedTo, Fits64, TickAfter, NothingExecuted;
    AdmissibleIsWord(p.def, p.policy, p.start, w);
    PrefixCostFits(p, w, k);
    PrefixCostFits(p, w, k + 1);
    ReplayedPrefix(p, w, k, config, total);
    ReplayedNext(p, w, k, config, total);
  }

  /** Replays an admissible encoding from the initial state and writes down its steps.  Neither
      of the two refusals of the replay ever happens. */
  method ReplayPlan(p: Problem, limits: ModelLimits, compiled: Compiled, table: ResolutionTable, encoding: seq<U64>,
                    ghost w: seq<nat>)
    returns (steps: seq<PlanStep>, objective: Objective)
    requires WellPosed(p) && ValidDefinition(p.def, limits) && CompiledFor(p.def, compiled)
    requires Execute(p.def, p.policy, p.start, w).Some? && encoding == Encoding(p.def, w)
    requires Fits64(Execute(p.def, p.policy, p.start, w).value.cost)
    ensures |steps| == |w| && AllProduced(p, table, w, steps)
    ensures objective == Execute(p.def, p.policy, p.start, w).value.cost
  {
    hide Execute, ValidDefinition, CompiledFor, Advance, StepCost, Produced, Timed, ReplayedTo, Fits64, Distinct;
    hide ShortfallOf, BindingsFor, ActionIndex, NothingExecuted, SizesFit;
    AdmissibleIsWord(p.def, p.policy, p.start, w);
    var config := Config(p.start, []);
    steps, objective := [], ZERO;
    var incompleteness := Shortfall(p.def, p.start, true);
    NotYetReplayed(p, w);
    for k := 0 to |encoding|
      invariant |steps| == k && AllProduced(p, table, w, steps)
      invariant Shaped(p.def, config.state) && ReplayedTo(p, w, k, config, objective)
      invariant incompleteness == Incompleteness(p.def, config.state)
    {
      ActionAt(p.def, w[k]);
      var a := ActionIndex(p.def, encoding[k]).value;
      NextStep(p, w, k, config, objective);
      var t := Apply(p.def, limits, p.policy, compiled, table, config, incompleteness, a);
      var transition := t.value;
      var action := p.def.actions[a];
      var step := PlanStep(Wrap32(k), encoding[k], transition.occurrence, transition.startTick, transition.endTick,
                           action.requiredDomain, 0, action.requiredLevel, Recommendation, transition.bindings,
                           action.reversibility == Irreversible, action.compensation);
      StepIsProduced(p, table, w, k, config, transition, step);
      var ok, sum := AddChecked(objective, transition.delta);
      config, objective, steps := transition.config, sum, steps + [step];
      incompleteness := Shortfall(p.def, config.state, true);
    }
    FullyReplayed(p, w, config, objective);
  }

  lemma ActionAt(def: FabricDefinition, a: nat)
    requires Distinct(ActionIds(def)) && a < |def.actions|
    ensures ActionIndex(def, def.actions[a].id) == Some(a)
  {
    FindUnique(ActionIds(def), a);
  }

  lemma NotYetReplayed(p: Problem, w: seq<nat>)
    requires Shaped(p.def, p.start)
    ensures ReplayedTo(p, w, 0, Config(p.start, []), ZERO)
  {
  }

  lemma FullyReplayed(p: Problem, w: seq<nat>, config: Config, total: Objective)
    requires Shaped(p.def, p.start) && ReplayedTo(p, w, |w|, config, total)
    ensures Execute(p.def, p.policy, p.start, w).Some?
    ensures total == Execute(p.def, p.policy, p.start, w).value.cost
  {
    hide Execute, Replay;
    assert w[..|w|] == w;
    ReplayIsExecute(p.def, p.policy, p.start, w);
  }

  lemma StepIsProduced(p: Problem, table: ResolutionTable, w: seq<nat>, k: nat, config: Config, t: Transition,
                       step: PlanStep)
    requires Shaped(p.def, p.start) && k < |w| && w[k] < |p.def.actions|
    requires Shaped(p.def, config.state) && Shaped(p.def, t.config.state)
    requires Advance(p.def, p.policy, config, w[k]) == Some(t.config)
    requires Reports(p.def, table, config.state, w[k], t)
    requires config.state.occurrences[w[k]] == CountOf(w[..k], w[k])
    requires Execute(p.def, p.policy, p.start, w[..k]).Some? && config.state.tick == TickAfter(p, w[..k])
    requires Execute(p.def, p.policy, p.start, w[..k + 1]).Some? && t.config.state.tick == TickAfter(p, w[..k + 1])
    requires var action := p.def.actions[w[k]];
             step.index == Wrap32(k) && step.action == action.id && step.occurrence == t.occurrence
             && step.startTick == t.startTick && step.endTick == t.endTick
             && step.requiredDomain == action.requiredDomain && step.requiredLevel == action.requiredLevel
             && step.issuedLevel == Recommendation && step.evidence == t.bindings
             && step.irreversible == (action.reversibility == Irreversible)
             && step.compensation == action.compensation
    ensures Produced(p, table, w, k, step) && Timed(p, w, k, step)
  {
    hide Execute, StepCost, BindingsFor, Step, NextHolds, HeldBy;
    AdvanceTick(p.def, p.policy, config, w[k]);
  }

  lemma AdvanceTick(def: FabricDefinition, policy: PlanPolicy, c: Config, a: nat)
    requires Shaped(def, c.state) && Advance(def, policy, c, a).Some?
    ensures a < |def.actions|
    ensures Advance(def, policy, c, a).value.state.tick == c.state.tick + def.actions[a].duration
  {
    hide Step, NextHolds, HeldBy;
  }

  // ---- Why the validator agrees ---------------------------------------------

  /** With tie-consistent evidence, the binding the planner takes from its table is the one
      the validator derives from the facts. */
  lemma BindingIsSupport(def: FabricDefinition, limits: ModelLimits, bindings: seq<AuthorityBinding>,
                         facts: seq<EvidenceFact>, table: ResolutionTable, p: Precondition)
    requires forall i :: 0 <= i < |def.services| ==> ValidService(def.services[i], limits)
    requires Tabulates(def, limits, bindings, facts, table)
    requires forall key :: TieConsistent(def, bindings, facts, key)
    ensures BindingFor(table, p) == Support(def, bindings, facts, p)
  {
    hide Fold, TieConsistent, ValidService, FindBinding, Establishes, ValueInDomain;
    var fact := PreconditionFact(p.kind);
    if fact.Some? {
      var key := EvidenceKey(fact.value, p.subject);
      var r := Fold(def, limits, bindings, facts, key);
      ConsistentAgrees(def, limits, bindings, facts, key);
      if r.state == Resolved {
        var f :| Establishes(def, bindings, facts, key, f) && r == ResolvedBy(f);
        EstablishedIsCandidate(def, bindings, facts, key, f);
      }
    }
  }

  lemma EstablishedIsCandidate(def: FabricDefinition, bindings: seq<AuthorityBinding>, facts: seq<EvidenceFact>,
                               key: EvidenceKey, f: EvidenceFact)
    requires Establishes(def, bindings, facts, key, f)
    ensures Candidate(def, bindings, facts, key, f)
    ensures FindBinding(bindings, FactDomain(key.kind)).Some?
    ensures f.generation == FindBinding(bindings, FactDomain(key.kind)).value.granted
  {
  }

  lemma BindingsAreSupports(def: FabricDefinition, limits: ModelLimits, bindings: seq<AuthorityBinding>,
                            facts: seq<EvidenceFact>, table: ResolutionTable, list: seq<Precondition>)
    requires forall i :: 0 <= i < |def.services| ==> ValidService(def.services[i], limits)
    requires Tabulates(def, limits, bindings, facts, table)
    requires forall key :: TieConsistent(def, bindings, facts, key)
    ensures BindingsFor(table, list) == Supports(def, bindings, facts, list)
  {
    hide Tabulates, TieConsistent, ValidService, BindingFor, Support;
    forall i | 0 <= i < |list|
      ensures BindingFor(table, list[i]) == Support(def, bindings, facts, list[i])
    {
      BindingIsSupport(def, limits, bindings, facts, table, list[i]);
    }
  }

  // The action's domain is current and granted at the level it asks for.
  predicate Entitled(bindings: seq<AuthorityBinding>, action: ActionSpec) {
    var binding := FindBinding(bindings, action.requiredDomain);
    && EvaluateDomain(bindings, action.requiredDomain) == Current
    && binding.Some? && LevelRank(binding.value.level) >= LevelRank(action.requiredLevel)
  }

  function Granted(bindings: seq<AuthorityBinding>, domain: AuthorityDomain): U64 {
    match FindBinding(bindings, domain) case None => 0 case Some(b) => b.granted
  }

  // Each step with the generation it is bound to.
  ghost predicate Stamped(bindings: seq<AuthorityBinding>, steps: seq<PlanStep>, stamped: seq<PlanStep>) {
    |stamped| == |steps| && forall k :: 0 <= k < |steps| ==>
      stamped[k] == steps[k].(requiredGeneration := Granted(bindings, steps[k].requiredDomain),
                              issuedLevel := Recommendation)
  }

  method StampGenerations(bindings: seq<AuthorityBinding>, steps: seq<PlanStep>) returns (stamped: seq<PlanStep>)
    ensures Stamped(bindings, steps, stamped)
  {
    stamped := [];
    for k := 0 to |steps|
      invariant |stamped| == k
      invariant forall j :: 0 <= j < k ==>
                  stamped[j] == steps[j].(requiredGeneration := Granted(bindings, steps[j].requiredDomain),
                                          issuedLevel := Recommendation)
    {
      var generation := Granted(bindings, steps[k].requiredDomain);
      stamped := stamped + [steps[k].(requiredGeneration := generation, issuedLevel := Recommendation)];
    }
  }

  lemma StampedStepOf(c: Context, table: ResolutionTable, w: seq<nat>, k: nat, step: PlanStep, stamped: PlanStep)
    requires Shaped(c.p.def, c.p.start) && k < |w| < TWO_32 && w[k] < |c.p.def.actions|
    requires Produced(c.p, table, w, k, step)
    requires stamped == step.(requiredGeneration := Granted(c.bindings, step.requiredDomain),
                              issuedLevel := Recommendation)
    requires BindingsFor(table, c.p.def.actions[w[k]].preconditions)
          == Supports(c.p.def, c.bindings, c.facts, c.p.def.actions[w[k]].preconditions)
    requires Entitled(c.bindings, c.p.def.actions[w[k]])
    requires ValidReversibility(c.p.def, c.p.def.actions[w[k]])
    ensures StepOf(c, w, k, stamped)
  {
    hide FindBinding, EvaluateDomain, BindingsFor, Supports, CountOf;
  }

  /** The stamped steps of an admissible sequence carry it out in the validator's eyes. */
  lemma StepsCarryOut(c: Context, table: ResolutionTable, w: seq<nat>, steps: seq<PlanStep>, stamped: seq<PlanStep>)
    requires Shaped(c.p.def, c.p.start) && |w| == |steps| < TWO_32 && |w| <= c.p.policy.maxPlanSteps
    requires Execute(c.p.def, c.p.policy, c.p.start, w).Some?
    requires AllProduced(c.p, table, w, steps) && Stamped(c.bindings, steps, stamped)
    requires ValidDefinition(c.p.def, c.limits)
    requires Tabulates(c.p.def, c.limits, c.bindings, c.facts, table)
    requires forall key :: TieConsistent(c.p.def, c.bindings, c.facts, key)
    requires forall a :: 0 <= a < |c.p.def.actions| ==> Entitled(c.bindings, c.p.def.actions[a])
    ensures CarriesOut(c, stamped, w)
  {
    hide Execute, Produced, Timed, Tabulates, TieConsistent, Entitled, StepOf, ValidPrecondition, ValidEffect, ValidUse;
    hide ValidDependency, ValidReversibility, GoodIds, ValidGoal, ValidLink, GroupIndex;
    forall k | 0 <= k < |w|
      ensures StepOf(c, w, k, stamped[k])
    {
      assert ValidAction(c.p.def, c.limits, c.p.def.actions[w[k]]);
      BindingsAreSupports(c.p.def, c.limits, c.bindings, c.facts, table, c.p.def.actions[w[k]].preconditions);
      StampedStepOf(c, table, w, k, steps[k], stamped[k]);
    }
  }
}
