/** The differential claim: the planner's search and the exhaustive reference solver, started
    from the same state, give the same answer whenever both of them give one. */
module Differential {
  import opened Ints
  import opened Domain
  import opened Objectives
  import opened Dynamics
  import opened Definition
  import opened Evidence
  import opened Problems
  import opened Regularity
  import opened Accounting
  import opened Reference
  import opened Enumeration
  import opened Transition
  import opened Search
  import opened SearchTheory
  import opened Crowding

  // The two optima are one plan.
  lemma OneOptimum(p: Problem, bindings: seq<AuthorityBinding>, depth: nat, found: bool, lead: Score, w: seq<nat>)
    requires Shaped(p.def, p.start) && Authorised(p.def, p.policy, bindings)
    requires IsExact(p, bindings, depth, found, lead) && IsOptimal(p.def, p.policy, p.start, w) && |w| <= depth
    ensures found && lead == PlanScore(p, w)
  {
    hide Execute, GoalsMet, Authorised, AtLeastAsGood, ScoreOf, IsPlan;
    assert Accepted(p, bindings, w);
    var v :| Accepted(p, bindings, v) && |v| <= depth && lead == PlanScore(p, v) && Leads(p, bindings, depth, v);
    OneBest(PlanScore(p, v), PlanScore(p, w));
  }

  lemma OneBest(x: Score, y: Score)
    requires AtLeastAsGood(x, y) && AtLeastAsGood(y, x)
    ensures x == y
  {
    if Better(x, y) {
      BetterAsymmetric(x, y);
    }
  }

  lemma PlanLength(p: Problem, limits: ModelLimits, w: seq<nat>)
    requires Regular(p, limits) && IsPlan(p.def, p.policy, p.start, w)
    ensures |w| <= p.policy.maxPlanSteps && |w| <= OccurrenceBound(p.def)
  {
    hide Execute, GoalsMet, ValidDefinition, AccountingFits;
    AdmissibleLength(p.def, p.policy, p.start, w);
  }

  lemma NothingOverflows(p: Problem, limits: ModelLimits)
    requires Regular(p, limits)
    ensures !CompetitorOverflows(p)
  {
    hide Execute, ValidDefinition, AccountingFits, Leading;
    forall w | Admissible(p.def, p.policy, p.start, w)
      ensures Fits64(Execute(p.def, p.policy, p.start, w).value.cost)
    {
      CostFits(p.def, p.policy, p.start, w);
    }
  }

  /** Fast refines slow.  Whenever the enumeration is complete, a plan that the search
      reports is the one the enumeration reports, objective and encoding alike, and a
      search that exhausts its frontier leaves the enumeration without a plan. */
  lemma FastRefinesSlow(p: Problem, limits: ModelLimits, bindings: seq<AuthorityBinding>, depth: nat, found: bool,
                        lead: Score)
    requires Regular(p, limits) && Authorised(p.def, p.policy, bindings)
    requires p.policy.maxPlanSteps <= depth || OccurrenceBound(p.def) <= depth
    requires IsExact(p, bindings, depth, found, lead)
    ensures forall w :: IsOptimal(p.def, p.policy, p.start, w) ==> found && lead == PlanScore(p, w)
    ensures (forall w :: !IsPlan(p.def, p.policy, p.start, w)) ==> !found
  {
    hide Execute, GoalsMet, Authorised, IsExact, PlanScore, Regular, OccurrenceBound, AtLeastAsGood, ScoreOf;
    RegularParts(p, limits);
    forall w | IsOptimal(p.def, p.policy, p.start, w)
      ensures found && lead == PlanScore(p, w)
    {
      PlanLength(p, limits, w);
      OneOptimum(p, bindings, depth, found, lead, w);
    }
    if forall w :: !IsPlan(p.def, p.policy, p.start, w) {
      NoPlanNoAnswer(p, bindings, depth, found, lead);
    }
  }

  lemma NoPlanNoAnswer(p: Problem, bindings: seq<AuthorityBinding>, depth: nat, found: bool, lead: Score)
    requires Shaped(p.def, p.start) && IsExact(p, bindings, depth, found, lead)
    requires forall w :: !IsPlan(p.def, p.policy, p.start, w)
    ensures !found
  {
    hide Execute, GoalsMet, Authorised, AtLeastAsGood, ScoreOf, IsPlan, Leads;
  }

  lemma FoundScore(p: Problem, w: seq<nat>, objective: Objective)
    requires Shaped(p.def, p.start) && IsOptimal(p.def, p.policy, p.start, w)
    requires Execute(p.def, p.policy, p.start, w).Some? ==>
               objective == Execute(p.def, p.policy, p.start, w).value.cost
    ensures IsPlan(p.def, p.policy, p.start, w)
    ensures PlanScore(p, w) == Score(objective, Encoding(p.def, w))
  {
    hide Execute, GoalsMet, AtLeastAsGood;
  }

  /** Budgets that suffice for the search: when each is at least the number of occurrence-bounded
      sequences within the step bound, the search never gives up. */
  lemma BoundedSuffices(p: Problem, all: set<seq<nat>>)
    requires WellPosed(p) && AllSequences(p.def, EffectiveBound(p), all) && !Exceeds(p.policy, |all|)
    ensures !Crowded(p)
  {
    hide Execute, Bounded, EffectiveBound, Crowded;
    forall w | Admissible(p.def, p.policy, p.start, w) && |w| <= EffectiveBound(p)
      ensures w in all
    {
      AdmissibleIsBounded(p, w);
    }
    BudgetsSuffice(p, all);
  }

  /** Runs both solvers on one problem, as the differential tests do.  Neither gives up without
      need: the search only when too many sequences compete, the enumeration only when there are
      too many to examine or it would have to go too deep. */
  method Compare(p: Problem, limits: ModelLimits, reference: ReferenceLimits, bindings: seq<AuthorityBinding>,
                 table: ResolutionTable)
    returns (search: Search, o: ReferenceOutcome)
    requires Regular(p, limits) && Authorised(p.def, p.policy, bindings)
    requires p.policy.maxPlanSteps <= reference.maxPlanSteps || OccurrenceBound(p.def) <= reference.maxPlanSteps
    ensures search.found || search.frontierEmptied || search.budgetExhausted
    ensures !search.accountingOverflow
    ensures search.budgetExhausted ==> Crowded(p)
    ensures o.kind == HitLimit ==>
              DepthFor(p, reference) > DEPTH_LIMIT || MoreThan(p.def, DepthFor(p, reference), reference.maxSequences)
    ensures o.kind == Exact && search.found ==>
              && o.planFound
              && search.planNode < |search.arena| && |search.words| == |search.arena| && search.problem == p
              && o.objective == search.arena[search.planNode].objective
              && o.encoding == Encoding(p.def, search.words[search.planNode])
    ensures o.kind == Exact && search.frontierEmptied ==> !o.planFound
  {
    hide IsOptimal, IsPlan, Execute, IsExact, Accepted, Regular, Authorised, OccurrenceBound, PlanScore;
    hide ValidDefinition;
    hide CompiledFor, WellPosed, AllSequences, Fits64, Crowded, MoreThan, DepthFor, CompetitorOverflows, AllCompete;
    RegularIsWellPosed(p, limits);
    RegularParts(p, limits);
    NothingOverflows(p, limits);
    var compiled := Compile(p.def, limits);
    search := new Search(p, limits, compiled, table);
    search.Run();
    o := Solve(p, limits, reference, bindings);
    if o.kind == Exact {
      FastRefinesSlow(p, limits, bindings, reference.maxPlanSteps, o.planFound, Score(o.objective, o.encoding));
      if search.found {
        FoundScore(p, search.words[search.planNode], search.arena[search.planNode].objective);
      }
    }
  }

  lemma RegularParts(p: Problem, limits: ModelLimits)
    requires Regular(p, limits)
    ensures Shaped(p.def, p.start) && ValidDefinition(p.def, limits)
  {
  }
}
