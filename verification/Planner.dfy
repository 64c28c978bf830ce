/** The planner's entry point: the screening of a request, the static proofs, the search, and
    the decision reported with its plan or its certificate. */
module Planner {
  import opened Ints
  import opened Domain
  import opened Objectives
  import opened Dynamics
  import opened Definition
  import opened Evidence
  import opened Problems
  import opened Safety
  import opened Regularity
  import opened Reconcile
  import opened InitialStates
  import opened Requests
  import opened Transition
  import opened Search
  import opened SearchTheory
  import opened Crowding
  import opened Validate
  import opened Replaying
  import Cycle
  import Bound

  datatype Decision =
    | PlanFound
    | ProvenInfeasible
    | IndeterminateLimit
    | IndeterminateEvidence
    | RejectedUnsupported
    | RejectedInvalid
    | RejectedStale
    | RejectedUnknown
    | RejectedConflicting
    | RejectedFenced

  datatype Certificate =
    | Exhaustive(nodesExpanded: nat, reachableStates: nat)
    | CycleProof(cycle: seq<U64>)
    | BoundProof(goal: GoalSpec, bound: nat)

  datatype PlanningResult = PlanningResult(
    decision: Decision,
    plan: Option<RecoveryPlan>,
    certificate: Option<Certificate>,
    unresolved: set<Subject>)

  predicate IsRejection(d: Decision) {
    d.RejectedUnsupported? || d.RejectedInvalid? || d.RejectedStale? || d.RejectedUnknown? || d.RejectedConflicting?
    || d.RejectedFenced?
  }

  // ---- Screening ------------------------------------------------------------

  // The authority domains that planning this request depends on.
  predicate Required(def: FabricDefinition, facts: seq<EvidenceFact>, d: AuthorityDomain) {
    || d == FabricStateDomain
    || d == PolicyDomain
    || (d == EvidenceIngest && |facts| > 0)
    || (d == ResourceLease && exists i :: 0 <= i < |facts| && (facts[i].kind == AvailableFact
                                                              || facts[i].kind == RestoredFact))
    || exists a :: 0 <= a < |def.actions| && def.actions[a].requiredDomain == d
  }

  const DOMAINS: seq<AuthorityDomain> :=
    [FabricStateDomain, RecoveryAdmission, ResourceLease, PolicyDomain, EvidenceIngest]

  /** Collects the required domains without repetition. */
  method RequiredDomains(def: FabricDefinition, facts: seq<EvidenceFact>) returns (domains: set<AuthorityDomain>)
    ensures forall d :: d in domains <==> Required(def, facts, d)
  {
    domains := {FabricStateDomain, PolicyDomain};
    if |facts| > 0 {
      domains := domains + {EvidenceIngest};
    }
    ghost var start := domains;
    for i := 0 to |facts|
      invariant forall d :: d in domains <==>
        d in start || (d == ResourceLease && exists j :: 0 <= j < i && (facts[j].kind == AvailableFact
                                                                       || facts[j].kind == RestoredFact))
    {
      if facts[i].kind == AvailableFact || facts[i].kind == RestoredFact {
        domains := domains + {ResourceLease};
      }
    }
    ghost var known := domains;
    for a := 0 to |def.actions|
      invariant forall d :: d in domains <==>
        d in known || exists b :: 0 <= b < a && def.actions[b].requiredDomain == d
    {
      domains := domains + {def.actions[a].requiredDomain};
    }
  }

  // Every domain the request depends on is current, and every action is granted its level.
  predicate AuthorityCurrent(def: FabricDefinition, facts: seq<EvidenceFact>, bindings: seq<AuthorityBinding>) {
    && (forall i :: 0 <= i < |DOMAINS| && Required(def, facts, DOMAINS[i]) ==>
          EvaluateDomain(bindings, DOMAINS[i]) == Current)
    && (forall a :: 0 <= a < |def.actions| ==> LevelGranted(bindings, def.actions[a]))
  }

  predicate LevelGranted(bindings: seq<AuthorityBinding>, action: ActionSpec) {
    var b := FindBinding(bindings, action.requiredDomain);
    b.Some? && LevelRank(b.value.level) >= LevelRank(action.requiredLevel)
  }

  function DecisionFor(state: BindingState): Decision {
    match state
    case Current => PlanFound
    case Stale => RejectedStale
    case Unknown => RejectedUnknown
    case Conflict => RejectedConflicting
    case Invalid => RejectedInvalid
  }

  // The state of the first of the domains, from the k-th on, that the request depends on and
  // that is not current.
  function FirstLapse(def: FabricDefinition, facts: seq<EvidenceFact>, bindings: seq<AuthorityBinding>, k: nat)
    : (r: Option<BindingState>)
    requires k <= |DOMAINS|
    ensures r.Some? ==> r.value != Current
    ensures r.None? <==> forall i :: k <= i < |DOMAINS| && Required(def, facts, DOMAINS[i]) ==>
                           EvaluateDomain(bindings, DOMAINS[i]) == Current
    decreases |DOMAINS| - k
  {
    hide Required, EvaluateDomain;
    if k == |DOMAINS| then None
    else if Required(def, facts, DOMAINS[k]) && EvaluateDomain(bindings, DOMAINS[k]) != Current
    then Some(EvaluateDomain(bindings, DOMAINS[k]))
    else FirstLapse(def, facts, bindings, k + 1)
  }

  // A lapsed domain decides before an insufficient level does.
  function AuthorityRefusal(def: FabricDefinition, facts: seq<EvidenceFact>, bindings: seq<AuthorityBinding>)
    : (r: Option<Decision>)
    ensures r.None? <==> AuthorityCurrent(def, facts, bindings)
    ensures r.Some? ==> IsRejection(r.value)
  {
    match FirstLapse(def, facts, bindings, 0)
    case Some(state) => Some(DecisionFor(state))
    case None => if AuthorityCurrent(def, facts, bindings) then None else Some(RejectedUnknown)
  }

  /** Decides whether the authority is current; when it is not, the first domain that lapsed
      decides how the request is refused, and an insufficient level only after all of them. */
  method ScreenAuthority(def: FabricDefinition, facts: seq<EvidenceFact>, bindings: seq<AuthorityBinding>)
    returns (r: Option<Decision>)
    ensures r == AuthorityRefusal(def, facts, bindings)
    ensures r.None? <==> AuthorityCurrent(def, facts, bindings)
  {
    hide Required, EvaluateDomain, LevelGranted;
    var domains := RequiredDomains(def, facts);
    for i := 0 to |DOMAINS|
      invariant forall j :: 0 <= j < i && Required(def, facts, DOMAINS[j]) ==>
                  EvaluateDomain(bindings, DOMAINS[j]) == Current
      invariant FirstLapse(def, facts, bindings, i) == FirstLapse(def, facts, bindings, 0)
    {
      if DOMAINS[i] in domains {
        var state := EvaluateDomain(bindings, DOMAINS[i]);
        if state != Current {
          return Some(DecisionFor(state));
        }
      }
    }
    for a := 0 to |def.actions|
      invariant forall b :: 0 <= b < a ==> LevelGranted(bindings, def.actions[b])
    {
      if !LevelGranted(bindings, def.actions[a]) {
        return Some(RejectedUnknown);
      }
    }
    return None;
  }

  predicate PolicyUsable(policy: PlanPolicy) {
    && policy.maxPlanSteps > 0 && policy.maxNodesExpanded > 0
    && policy.maxGeneratedStates > 0 && policy.maxFrontierEntries > 0
    && 0 < policy.budgetScale <= 64
  }

  predicate Unfenced(request: PlanRequest) {
    forall f :: 0 <= f < |request.fences| ==> !Revokes(request.fences[f], request.epoch, request.boot)
  }

  // What a request has to satisfy to be planned at all.
  predicate Admitted(limits: ModelLimits, request: PlanRequest) {
    && request.id != 0 && request.attempt != 0
    && PolicyUsable(request.policy)
    && ValidDefinition(request.definition, limits)
    && request.authority.epoch == request.epoch && request.authority.boot == request.boot
    && request.evidence.epoch == request.epoch && request.evidence.boot == request.boot
    && Unfenced(request)
    && (request.policy.requireCurrentAuthority ==>
          AuthorityCurrent(request.definition, request.evidence.facts, request.authority.bindings))
  }

  predicate Identified(request: PlanRequest) {
    request.id != 0 && request.attempt != 0
  }

  predicate PolicyBounded(policy: PlanPolicy) {
    policy.maxPlanSteps > 0 && policy.maxNodesExpanded > 0 && policy.maxGeneratedStates > 0
    && policy.maxFrontierEntries > 0
  }

  predicate SameIncarnation(request: PlanRequest, epoch: U64, boot: U64) {
    epoch == request.epoch && boot == request.boot
  }

  // How a request is refused: what is wrong with the request itself comes before whose evidence
  // it carries, that before the fences, and those before authority.
  function Refusal(limits: ModelLimits, request: PlanRequest): (r: Option<Decision>)
    ensures r.None? <==> Admitted(limits, request)
    ensures r.Some? ==> IsRejection(r.value)
  {
    hide ValidDefinition, AuthorityCurrent;
    if !Identified(request) || (PolicyBounded(request.policy) && !PolicyUsable(request.policy))
    then Some(RejectedUnsupported)
    else if !PolicyBounded(request.policy) || !ValidDefinition(request.definition, limits)
            || !SameIncarnation(request, request.authority.epoch, request.authority.boot)
    then Some(RejectedInvalid)
    else if !SameIncarnation(request, request.evidence.epoch, request.evidence.boot)
    then Some(if request.evidence.epoch < request.epoch then RejectedStale else RejectedInvalid)
    else if !Unfenced(request) then Some(RejectedFenced)
    else if request.policy.requireCurrentAuthority
    then AuthorityRefusal(request.definition, request.evidence.facts, request.authority.bindings)
    else None
  }

  /** The checks before any planning, in order.  Nothing is planned exactly when the request is
      not admitted, and the decision is that of the first thing found wrong. */
  method Screen(limits: ModelLimits, request: PlanRequest) returns (r: Option<Decision>)
    ensures r == Refusal(limits, request)
    ensures r.None? <==> Admitted(limits, request)
  {
    hide ValidDefinition, AuthorityCurrent;
    var policy := request.policy;
    if request.id == 0 || request.attempt == 0 {
      return Some(RejectedUnsupported);
    }
    if policy.maxPlanSteps == 0 || policy.maxNodesExpanded == 0 || policy.maxGeneratedStates == 0
       || policy.maxFrontierEntries == 0
    {
      return Some(RejectedInvalid);
    }
    if policy.budgetScale == 0 || policy.budgetScale > 64 {
      return Some(RejectedUnsupported);
    }
    var valid := ValidateDefinition(request.definition, limits);
    if !valid {
      return Some(RejectedInvalid);
    }
    if request.authority.epoch != request.epoch || request.authority.boot != request.boot {
      return Some(RejectedInvalid);
    }
    if request.evidence.epoch != request.epoch || request.evidence.boot != request.boot {
      return Some(if request.evidence.epoch < request.epoch then RejectedStale else RejectedInvalid);
    }
    for f := 0 to |request.fences|
      invariant forall g :: 0 <= g < f ==> !Revokes(request.fences[g], request.epoch, request.boot)
    {
      if Revokes(request.fences[f], request.epoch, request.boot) {
        return Some(RejectedFenced);
      }
    }
    if policy.requireCurrentAuthority {
      r := ScreenAuthority(request.definition, request.evidence.facts, request.authority.bindings);
      return;
    }
    return None;
  }

  // ---- Referenced subjects --------------------------------------------------

  predicate Referenced(def: FabricDefinition, subject: Subject) {
    || (exists a, i :: 0 <= a < |def.actions| && 0 <= i < |def.actions[a].preconditions|
                       && def.actions[a].preconditions[i].subject == subject)
    || (exists g :: 0 <= g < |def.goals| && def.goals[g].subject == subject)
  }

  method CollectReferenced(def: FabricDefinition) returns (referenced: set<Subject>)
    ensures forall s :: s in referenced <==> Referenced(def, s)
  {
    referenced := {};
    for a := 0 to |def.actions|
      invariant forall s :: s in referenced <==>
        exists b, i :: 0 <= b < a && 0 <= i < |def.actions[b].preconditions|
          && def.actions[b].preconditions[i].subject == s
    {
      ghost var before := referenced;
      var list := def.actions[a].preconditions;
      for i := 0 to |list|
        invariant forall s :: s in referenced <==> s in before || exists j :: 0 <= j < i && list[j].subject == s
      {
        referenced := referenced + {list[i].subject};
      }
    }
    ghost var before := referenced;
    for g := 0 to |def.goals|
      invariant forall s :: s in referenced <==> s in before || exists h :: 0 <= h < g && def.goals[h].subject == s
    {
      referenced := referenced + {def.goals[g].subject};
    }
  }

  // Whether the state knows a value for the subject.
  predicate Known(def: FabricDefinition, s: FabricState, subject: Subject)
    requires Shaped(def, s)
  {
    match SubjectIndex(def, subject)
    case None => true
    case Some(i) =>
      match subject.kind
      case LinkSubject => s.linkKnown[i]
      case NodeSubject => s.nodeKnown[i]
      case ServiceSubject => s.serviceKnown[i]
      case ResourceSubject => s.resourceKnown[i]
      case _ => true
  }

  // A subject that something depends on and that the evidence leaves open.
  predicate Open(def: FabricDefinition, s: FabricState, table: ResolutionTable, subject: Subject)
    requires Shaped(def, s)
  {
    Referenced(def, subject)
    && (!Known(def, s, subject)
        || exists key :: key in table && key.subject == subject && table[key].state != Resolved)
  }

  method CollectUnresolved(def: FabricDefinition, s: FabricState, table: ResolutionTable)
    returns (unresolved: set<Subject>)
    requires Shaped(def, s)
    ensures forall x :: x in unresolved <==> Open(def, s, table, x)
  {
    hide Referenced, Known;
    var referenced := CollectReferenced(def);
    unresolved := set key | key in table && table[key].state != Resolved && key.subject in referenced :: key.subject;
    unresolved := unresolved + set x | x in referenced && !Known(def, s, x);
  }

  // ---- Static proofs --------------------------------------------------------

  // Whether comparing the bound of a goal with its value is meaningful: always for services,
  // and for yes-or-no subjects when the value is at most one.
  predicate Comparable(goal: GoalSpec) {
    goal.kind == ServiceGoal || goal.value <= 1
  }

  // What a certificate proves about planning from a state.
  ghost predicate Proves(p: Problem, c: Certificate)
    requires Shaped(p.def, p.start)
  {
    match c
    case Exhaustive(_, _) => forall w :: !IsPlan(p.def, p.policy, p.start, w)
    case CycleProof(cycle) => Cycle.CertifiesCycle(p.def, cycle)
    case BoundProof(goal, bound) =>
      && bound < goal.value
      && (Comparable(goal) ==> forall w :: !IsPlan(p.def, p.policy, p.start, w))
  }

  lemma UnreachableGoal(p: Problem, g: nat)
    requires Shaped(p.def, p.start) && g < |p.def.goals| && !Bound.Reachable(p, p.def.goals[g])
    ensures forall w :: !IsPlan(p.def, p.policy, p.start, w)
  {
    hide Execute, GoalMet;
    forall w
      ensures !IsPlan(p.def, p.policy, p.start, w)
    {
      assert !Bound.MeetsAfter(p, p.def.goals[g], w);
    }
  }

  lemma BoundRulesOut(p: Problem, limits: ModelLimits, g: nat, i: nat, bound: nat)
    requires Shaped(p.def, p.start) && NothingExecuted(p.start) && ValidDefinition(p.def, limits) && g < |p.def.goals|
    requires TypedIndex(p.def, p.def.goals[g].subject, GoalSubject(p.def.goals[g].kind)) == Some(i)
    requires ServicesInRange(p.def, p.start)
    requires Bound.UpperBound(p.def, p.start, p.def.goals[g]) == Some(bound)
    requires bound < p.def.goals[g].value
    ensures Proves(p, BoundProof(p.def.goals[g], bound))
  {
    hide Execute, ValidDefinition, SubjectIndex, IsPlan, Bound.NoneRaises, Bound.Flag, Bound.ServiceBound;
    hide Bound.Derivable;
    var goal := p.def.goals[g];
    if Comparable(goal) {
      if goal.kind == ServiceGoal {
        forall w
          ensures !Bound.MeetsAfter(p, goal, w)
        {
          if Execute(p.def, p.policy, p.start, w).Some? {
            Bound.ServiceBoundHolds(p, limits, goal, i, w);
          }
        }
      } else {
        Bound.FlagBoundDecides(p, limits, goal, i, bound);
      }
      UnreachableGoal(p, g);
    }
  }

  predicate ServicesInRange(def: FabricDefinition, s: FabricState)
    requires Shaped(def, s)
  {
    forall i :: 0 <= i < |def.services| ==> s.reachable[i] <= def.services[i].maximum
  }

  // The goal has a bound, and its value lies beyond it.
  predicate Beyond(def: FabricDefinition, s: FabricState, goal: GoalSpec)
    requires Shaped(def, s)
  {
    && TypedIndex(def, goal.subject, GoalSubject(goal.kind)).Some?
    && Bound.UpperBound(def, s, goal).Some? && Bound.UpperBound(def, s, goal).value < goal.value
  }

  // What the planner takes for a static proof.
  ghost predicate Static(p: Problem)
    requires Shaped(p.def, p.start)
  {
    Cycle.HasCycle(p.def) || exists g :: 0 <= g < |p.def.goals| && Beyond(p.def, p.start, p.def.goals[g])
  }

  /** Looks for a dependency cycle, and then for the first goal beyond its structural bound.  It
      answers exactly when there is one or the other. */
  method StaticProof(p: Problem, limits: ModelLimits) returns (r: Option<Certificate>)
    requires Shaped(p.def, p.start) && NothingExecuted(p.start) && ValidDefinition(p.def, limits)
    requires ServicesInRange(p.def, p.start)
    ensures r.Some? ==> !r.value.Exhaustive? && Proves(p, r.value)
    ensures Cycle.HasCycle(p.def) ==> r.Some? && r.value.CycleProof?
    ensures r.Some? && r.value.BoundProof? ==>
              IsBoundOf(p, r.value.goal, r.value.bound) && !Cycle.HasCycle(p.def)
    ensures r.Some? <==> Static(p)
  {
    hide ValidAction, ValidGoal, ValidLink, ValidService, SubjectIndex, Cycle.HasCycle, Cycle.ClosedWalk, Proves;
    hide NothingExecuted, ServicesInRange, Bound.UpperBound, Distinct;
    var found, nodes := Cycle.FindCycle(p.def);
    if found {
      Cycle.FoundCycleIsCertified(p.def, nodes);
      CycleProves(p, Encoding(p.def, nodes));
      return Some(CycleProof(Encoding(p.def, nodes)));
    }
    for g := 0 to |p.def.goals|
      invariant forall h :: 0 <= h < g ==> !Beyond(p.def, p.start, p.def.goals[h])
    {
      GoalIsTyped(p.def, limits, g);
      var goal := p.def.goals[g];
      var bound := Bound.GoalUpperBound(p.def, p.start, goal);
      if bound.Some? && bound.value < goal.value {
        BoundRulesOut(p, limits, g, SubjectIndex(p.def, goal.subject).value, bound.value);
        return Some(BoundProof(goal, bound.value));
      }
    }
    return None;
  }

  lemma CycleProves(p: Problem, cycle: seq<U64>)
    requires Shaped(p.def, p.start) && Cycle.CertifiesCycle(p.def, cycle)
    ensures Proves(p, CycleProof(cycle))
  {
  }

  lemma GoalIsTyped(def: FabricDefinition, limits: ModelLimits, g: nat)
    requires ValidDefinition(def, limits) && g < |def.goals|
    ensures TypedIndex(def, def.goals[g].subject, GoalSubject(def.goals[g].kind))
         == Some(SubjectIndex(def, def.goals[g].subject).value)
  {
    hide ValidAction, ValidLink, ValidService, SubjectIndex;
    assert ValidGoal(def, def.goals[g]);
  }

  // ---- Planning -------------------------------------------------------------

  /** Feeds the facts to the planner's table in order and writes the state it resolves. */
  method DeriveState(def: FabricDefinition, limits: ModelLimits, bindings: seq<AuthorityBinding>,
                     facts: seq<EvidenceFact>)
    returns (table: ResolutionTable, start: FabricState)
    requires ValidDefinition(def, limits)
    ensures Tabulates(def, limits, bindings, facts, table) && Reflects(def, start, ResolvedValues(table))
    ensures Shaped(def, start) && NothingExecuted(start) && start.tick == 0 && ServicesInRange(def, start)
  {
    hide Tabulates, Reflects, ValidAction, ValidGoal, ValidLink, ValidService, TypedTable;
    var reconciler := new Reconciler(def, limits, bindings);
    for i := 0 to |facts|
      invariant reconciler.Valid() && reconciler.log == facts[..i]
      invariant reconciler.def == def && reconciler.limits == limits && reconciler.bindings == bindings
      invariant fresh(reconciler)
    {
      assert facts[..i + 1] == facts[..i] + [facts[i]];
      reconciler.Ingest(facts[i]);
    }
    assert facts[..|facts|] == facts;
    table := reconciler.table;
    TabulatedIsTyped(def, limits, bindings, facts, table);
    start := Materialise(def, table);
    StartFacts(def, start, ResolvedValues(table));
    forall i | 0 <= i < |def.services|
      ensures start.reachable[i] <= def.services[i].maximum
    {
      ServiceStartsInRange(def, limits, bindings, facts, table, start, i);
    }
  }

  lemma StartFacts(def: FabricDefinition, start: FabricState, values: Values)
    requires Reflects(def, start, values)
    ensures Shaped(def, start) && NothingExecuted(start) && start.tick == 0
  {
    hide LinkReflects, NodeReflects, ServiceReflects, ResourceReflects;
  }

  // The plan's steps run w, at its cost.
  ghost predicate Plans(p: Problem, plan: RecoveryPlan, w: seq<nat>)
    requires Shaped(p.def, p.start)
  {
    && Execute(p.def, p.policy, p.start, w).Some?
    && |plan.body.steps| == |w|
    && (forall k :: 0 <= k < |w| ==> plan.body.steps[k].action == IdOf(p.def, w[k]))
    && plan.body.objective == Execute(p.def, p.policy, p.start, w).value.cost
  }

  // What has to hold for the validator to agree with the planner.
  ghost predicate Agreeable(limits: ModelLimits, request: PlanRequest) {
    && limits == DEFAULT_LIMITS
    && request.policy.requireCurrentAuthority
    && forall key :: TieConsistent(request.definition, request.authority.bindings, request.evidence.facts, key)
  }

  lemma CurrentIsEntitled(def: FabricDefinition, facts: seq<EvidenceFact>, bindings: seq<AuthorityBinding>, a: nat)
    requires AuthorityCurrent(def, facts, bindings) && a < |def.actions|
    ensures Entitled(bindings, def.actions[a])
  {
    hide EvaluateDomain, FindBinding;
    var d := def.actions[a].requiredDomain;
    assert Required(def, facts, d);
    assert LevelGranted(bindings, def.actions[a]);
    assert d == DOMAINS[0] || d == DOMAINS[1] || d == DOMAINS[2] || d == DOMAINS[3] || d == DOMAINS[4];
  }

  lemma PlanLengthFits(p: Problem, w: seq<nat>)
    requires Shaped(p.def, p.start) && NothingExecuted(p.start) && ValidDefinition(p.def, DEFAULT_LIMITS)
    requires Execute(p.def, p.policy, p.start, w).Some?
    ensures |w| < TWO_32
  {
    hide Execute, ValidGoal, ValidLink, ValidService, ValidPrecondition, ValidEffect, ValidUse, ValidDependency;
    hide ValidReversibility, GoodIds, GroupIndex;
    Accounting.AdmissibleLength(p.def, p.policy, p.start, w);
    forall i | 0 <= i < |p.def.actions|
      ensures OccurrenceLimits(p.def)[i] <= 16
    {
      assert ValidAction(p.def, DEFAULT_LIMITS, p.def.actions[i]);
    }
    TotalAtMost(OccurrenceLimits(p.def), 16);
  }

  lemma {:induction false} TotalAtMost(counts: seq<nat>, most: nat)
    requires forall i :: 0 <= i < |counts| ==> counts[i] <= most
    ensures TotalOccurrences(counts) <= |counts| * most
  {
    if |counts| > 0 {
      TotalAtMost(counts[1..], most);
      assert |counts| * most == (|counts| - 1) * most + most;
    }
  }

  /** Producer and checker agree: under default limits, required authority, tie-consistent
      evidence and a definition whose sums fit, what the planner composes conforms. */
  lemma ProducedConforms(h: Hashing, request: PlanRequest, table: ResolutionTable, start: FabricState, w: seq<nat>,
                         steps: seq<PlanStep>, plan: RecoveryPlan)
    requires Admitted(DEFAULT_LIMITS, request) && Agreeable(DEFAULT_LIMITS, request)
    requires Tabulates(request.definition, DEFAULT_LIMITS, request.authority.bindings, request.evidence.facts, table)
    requires Reflects(request.definition, start, ResolvedValues(table)) && Shaped(request.definition, start)
    requires var p := Problem(request.definition, request.policy, start);
             && IsPlan(p.def, p.policy, p.start, w)
             && AllProduced(p, table, w, steps) && |steps| == |w|
             && plan.body.objective == Execute(p.def, p.policy, p.start, w).value.cost
    requires Stamped(request.authority.bindings, steps, plan.body.steps) && Authentic(h, request, plan)
    ensures Conforms(h, request, plan)
  {
    hide Execute, GoalsMet, ValidAction, Reflects, Tabulates, TieConsistent, AllProduced, Stamped, Fulfils, Entitled;
    hide AuthorityCurrent, EstablishedValues, ResolvedValues, CarriesOut, Authentic, Accountable, ValidGoal, ValidLink;
    var c := ContextOf(request, start);
    var def, bindings, facts := request.definition, request.authority.bindings, request.evidence.facts;
    TableIsEstablished(def, DEFAULT_LIMITS, bindings, facts, table);
    StartFacts(def, start, ResolvedValues(table));
    forall a | 0 <= a < |def.actions|
      ensures Entitled(bindings, def.actions[a])
    {
      CurrentIsEntitled(def, facts, bindings, a);
    }
    PlanLengthFits(c.p, w);
    StepsCarryOut(c, table, w, steps, plan.body.steps);
    CarriedFulfils(c, plan.body, w);
    assert StartsAt(request, start);
  }

  lemma CarriedFulfils(c: Context, body: PlanBody, w: seq<nat>)
    requires Shaped(c.p.def, c.p.start) && CarriesOut(c, body.steps, w) && IsPlan(c.p.def, c.p.policy, c.p.start, w)
    requires body.objective == Execute(c.p.def, c.p.policy, c.p.start, w).value.cost
    ensures Fulfils(c, body, w)
  {
    hide Execute, GoalsMet, StepOf;
  }

  /** Assembles the plan, binds it to the request and derives its identity from its digest. */
  method Compose(h: Hashing, request: PlanRequest, steps: seq<PlanStep>, objective: Objective)
    returns (plan: RecoveryPlan)
    requires Unfenced(request)
    ensures Authentic(h, request, plan) && plan.id != 0
    ensures Stamped(request.authority.bindings, steps, plan.body.steps) && plan.body.objective == objective
  {
    var stamped := StampGenerations(request.authority.bindings, steps);
    var body := PlanBody(request.id, request.epoch, request.boot, request.attempt, stamped, objective,
                         h.request(request), h.definition(request.definition), h.evidence(request.evidence),
                         h.authority(request.authority), h.policy(request.policy));
    var digest := h.plan(body);
    plan := RecoveryPlan(if digest.lo == 0 then 1 else digest.lo, digest, body);
  }

  // The plan is the optimum from the state the planner derived.
  ghost predicate IsOptimum(p: Problem, plan: RecoveryPlan)
    requires Shaped(p.def, p.start)
  {
    exists w :: IsOptimal(p.def, p.policy, p.start, w) && Plans(p, plan, w)
  }

  lemma ComposedPlans(p: Problem, table: ResolutionTable, bindings: seq<AuthorityBinding>, w: seq<nat>,
                      steps: seq<PlanStep>, plan: RecoveryPlan)
    requires Shaped(p.def, p.start) && Execute(p.def, p.policy, p.start, w).Some?
    requires AllProduced(p, table, w, steps) && |steps| == |w| && Stamped(bindings, steps, plan.body.steps)
    requires plan.body.objective == Execute(p.def, p.policy, p.start, w).value.cost
    ensures Plans(p, plan, w)
  {
    hide Execute, Timed;
    forall k | 0 <= k < |w|
      ensures plan.body.steps[k].action == IdOf(p.def, w[k])
    {
      assert Produced(p, table, w, k, steps[k]);
    }
  }

  lemma OptimalIsPlan(p: Problem, w: seq<nat>)
    requires Shaped(p.def, p.start) && IsOptimal(p.def, p.policy, p.start, w)
    ensures IsPlan(p.def, p.policy, p.start, w) && Execute(p.def, p.policy, p.start, w).Some?
  {
    hide Execute, GoalsMet, AtLeastAsGood;
  }

  /** Turns the node the search stopped at into a plan. */
  method ReportPlan(h: Hashing, limits: ModelLimits, request: PlanRequest, table: ResolutionTable, search: Search)
    returns (plan: RecoveryPlan)
    requires Admitted(limits, request)
    requires search.problem.def == request.definition && search.problem.policy == request.policy
    requires Reflects(request.definition, search.problem.start, ResolvedValues(table))
    requires Tabulates(request.definition, limits, request.authority.bindings, request.evidence.facts, table)
    requires WellPosed(search.problem) && CompiledFor(request.definition, search.compiled)
    requires search.ReportsOptimum()
    ensures Authentic(h, request, plan) && IsOptimum(search.problem, plan) && Fits64(plan.body.objective)
    ensures Agreeable(limits, request) ==> Conforms(h, request, plan)
  {
    hide Execute, IsOptimal, IsPlan, ValidDefinition, CompiledFor, LinksOk, Reflects, Tabulates, Conforms, Agreeable;
    hide AuthorityCurrent, Authentic, Stamped, AllProduced, Fits64, ResolvedValues, Plans;
    var p := search.problem;
    ghost var w := search.words[search.planNode];
    OptimalIsPlan(p, w);
    var encoding := search.PlanEncoding();
    var steps, objective := ReplayPlan(p, limits, search.compiled, table, encoding, w);
    plan := Compose(h, request, steps, objective);
    ComposedPlans(p, table, request.authority.bindings, w, steps, plan);
    if Agreeable(limits, request) {
      AgreeableLimits(limits, request);
      assert p == Problem(request.definition, request.policy, p.start);
      ProducedConforms(h, request, table, p.start, w, steps, plan);
    }
  }

  lemma AgreeableLimits(limits: ModelLimits, request: PlanRequest)
    requires Agreeable(limits, request)
    ensures limits == DEFAULT_LIMITS
  {
  }

  // The bound that the planner derives for one of the goals.
  predicate IsBoundOf(p: Problem, goal: GoalSpec, bound: nat)
    requires Shaped(p.def, p.start)
  {
    && goal in p.def.goals
    && TypedIndex(p.def, goal.subject, GoalSubject(goal.kind)).Some?
    && Bound.UpperBound(p.def, p.start, goal) == Some(bound)
  }

  // What a result claims about planning from the derived state.
  ghost predicate Sound(h: Hashing, limits: ModelLimits, request: PlanRequest, result: PlanningResult, p: Problem)
    requires Shaped(p.def, p.start)
  {
    && (result.plan.Some? ==> Authentic(h, request, result.plan.value) && IsOptimum(p, result.plan.value)
                              && Fits64(result.plan.value.body.objective)
                              && (Agreeable(limits, request) ==> Conforms(h, request, result.plan.value)))
    && (result.certificate.Some? ==> Proves(p, result.certificate.value))
    && (result.certificate.Some? && result.certificate.value.Exhaustive? ==>
          result.unresolved == {} && result.certificate.value.nodesExpanded > 0)
    && (result.certificate.Some? && result.certificate.value.BoundProof? ==>
          IsBoundOf(p, result.certificate.value.goal, result.certificate.value.bound))
    && (result.decision == IndeterminateEvidence ==>
          result.unresolved != {} && forall w :: !IsPlan(p.def, p.policy, p.start, w))
    && (result.decision == IndeterminateLimit ==> Crowded(p) || CompetitorOverflows(p))
  }

  // Nothing but the two static proofs can hide a plan.
  ghost predicate Decisive(result: PlanningResult, p: Problem)
    requires Shaped(p.def, p.start)
  {
    !Static(p) || (!Cycle.HasCycle(p.def) && forall g :: g in p.def.goals ==> Comparable(g)) ==>
      (result.decision == PlanFound || result.decision == IndeterminateLimit
       || forall w :: !IsPlan(p.def, p.policy, p.start, w))
  }

  lemma ProofIsDecisive(p: Problem, result: PlanningResult)
    requires Shaped(p.def, p.start) && result.certificate.Some? && Proves(p, result.certificate.value)
    requires Static(p)
    requires result.certificate.value.CycleProof? ==> Cycle.HasCycle(p.def)
    requires result.certificate.value.BoundProof? ==> result.certificate.value.goal in p.def.goals
    ensures Decisive(result, p)
  {
    hide IsPlan, Cycle.HasCycle, Comparable, Static;
  }

  lemma CertifiedHasCycle(def: FabricDefinition, cycle: seq<U64>)
    requires Cycle.CertifiesCycle(def, cycle)
    ensures Cycle.HasCycle(def)
  {
    Cycle.CertifiedIsClosed(def, cycle);
  }

  /** Searches, and reports what the search found or proved. */
  method Conclude(h: Hashing, limits: ModelLimits, request: PlanRequest, table: ResolutionTable, p: Problem,
                  unresolved: set<Subject>)
    returns (result: PlanningResult)
    requires Admitted(limits, request) && p == Problem(request.definition, request.policy, p.start)
    requires Shaped(p.def, p.start) && NothingExecuted(p.start)
    requires Reflects(p.def, p.start, ResolvedValues(table))
    requires Tabulates(p.def, limits, request.authority.bindings, request.evidence.facts, table)
    ensures !IsRejection(result.decision) && result.unresolved == unresolved
    ensures result.decision == PlanFound <==> result.plan.Some?
    ensures result.decision == ProvenInfeasible <==> result.certificate.Some?
    ensures Sound(h, limits, request, result, p) && Decisive(result, p)
    ensures result.certificate.Some? ==> result.certificate.value.Exhaustive?
  {
    hide ValidDefinition, AuthorityCurrent, Tabulates, Reflects, ResolvedValues, IsPlan, IsOptimum, Admitted;
    hide Authentic, Conforms, Agreeable, CompiledFor, NothingExecuted, IsOptimal, Cycle.HasCycle, WellPosed, Comparable;
    hide Crowded, CompetitorOverflows, Static;
    AdmittedIsWellPosed(limits, request, p.start);
    AdmittedIsValid(limits, request);
    var compiled := Compile(p.def, limits);
    var search := new Search(p, limits, compiled, table);
    search.Run();
    if search.found {
      var plan := ReportPlan(h, limits, request, table, search);
      return PlanningResult(PlanFound, Some(plan), None, unresolved);
    }
    if search.budgetExhausted {
      return PlanningResult(IndeterminateLimit, None, None, unresolved);
    }
    if unresolved != {} {
      return PlanningResult(IndeterminateEvidence, None, None, unresolved);
    }
    result := PlanningResult(ProvenInfeasible, None,
                             Some(Exhaustive(search.nodesExpanded, search.reachableStates)), unresolved);
  }

  lemma AdmittedIsValid(limits: ModelLimits, request: PlanRequest)
    requires Admitted(limits, request)
    ensures ValidDefinition(request.definition, limits)
  {
    hide ValidDefinition, AuthorityCurrent;
  }

  /** Plans a request.  It is rejected exactly when the screening says so.  Otherwise a plan
      reported is the optimum and conforms, and a certificate proves what it says of the state that
      planning starts from.  A plan that is found is reported whatever the evidence leaves open, an
      exhaustive certificate only when it leaves open no subject of a precondition or a goal. */
  method Plan(h: Hashing, limits: ModelLimits, request: PlanRequest)
    returns (result: PlanningResult, ghost p: Problem, ghost table: ResolutionTable)
    ensures IsRejection(result.decision) <==> !Admitted(limits, request)
    ensures !Admitted(limits, request) ==> Refusal(limits, request) == Some(result.decision)
    ensures result.decision == PlanFound <==> result.plan.Some?
    ensures result.decision == ProvenInfeasible <==> result.certificate.Some?
    ensures Admitted(limits, request) ==>
              && p == Problem(request.definition, request.policy, p.start) && Shaped(p.def, p.start)
              && Tabulates(p.def, limits, request.authority.bindings, request.evidence.facts, table)
              && Reflects(p.def, p.start, ResolvedValues(table))
              && (forall x :: x in result.unresolved <==> Open(p.def, p.start, table, x))
              && Sound(h, limits, request, result, p)
              && Decisive(result, p)
              && (result.certificate.Some? && !result.certificate.value.Exhaustive? <==> Static(p))
  {
    hide ValidDefinition, Tabulates, Reflects, ResolvedValues, Open, Proves, Admitted, Decisive;
    hide NothingExecuted, ServicesInRange, Static;
    var def, bindings, facts := request.definition, request.authority.bindings, request.evidence.facts;
    p, table := Problem(def, request.policy, Blank(def)), map[];
    var refusal := Screen(limits, request);
    if refusal.Some? {
      return PlanningResult(refusal.value, None, None, {}), p, table;
    }
    AdmittedIsValid(limits, request);
    var resolutions, start := DeriveState(def, limits, bindings, facts);
    var problem := Problem(def, request.policy, start);
    p, table := problem, resolutions;
    var unresolved := CollectUnresolved(def, start, resolutions);
    var proof := StaticProof(problem, limits);
    if proof.Some? {
      result := PlanningResult(ProvenInfeasible, None, proof, unresolved);
      if proof.value.CycleProof? {
        ProvesCycle(problem, proof.value);
      }
      ProofIsDecisive(problem, result);
      return;
    }
    result := Conclude(h, limits, request, resolutions, problem, unresolved);
  }

  lemma ProvesCycle(p: Problem, c: Certificate)
    requires Shaped(p.def, p.start) && Proves(p, c) && c.CycleProof?
    ensures Cycle.HasCycle(p.def)
  {
    CertifiedHasCycle(p.def, c.cycle);
  }

  lemma AdmittedIsWellPosed(limits: ModelLimits, request: PlanRequest, start: FabricState)
    requires Admitted(limits, request) && Shaped(request.definition, start) && NothingExecuted(start)
    ensures WellPosed(Problem(request.definition, request.policy, start))
  {
    hide ValidAction, ValidGoal, ValidLink, ValidService, AuthorityCurrent;
  }

  // ---- Producer and checker -------------------------------------------------

  /** Plans a request and validates what comes out, as two independent programs.  Under the default
      limits, required authority and tie-consistent evidence, in a definition where no action uses
      or overwrites a resource twice, the validator has nothing to find in any plan the planner
      reports. */
  method PlanAndValidate(h: Hashing, request: PlanRequest)
    returns (result: PlanningResult, found: seq<Finding>)
    ensures result.plan.None? ==> found == []
    ensures result.plan.Some? && Agreeable(DEFAULT_LIMITS, request) && SingleUses(request.definition) ==> found == []
    ensures result.plan.Some? && found == [] && Accountable(request.definition) ==>
              Conforms(h, request, result.plan.value)
  {
    hide Agreeable, SingleUses, Accountable, Conforms, Fits64, Admitted, Authentic, IsOptimum, Reflects, Tabulates;
    hide Decisive, Static, Open, CompetitorOverflows, Crowded;
    ghost var p;
    ghost var table;
    result, p, table := Plan(h, DEFAULT_LIMITS, request);
    found := [];
    if result.plan.Some? {
      found := ValidatePlan(h, request, result.plan.value);
    }
  }

  // ---- Where the static proofs hide a plan ----------------------------------

  /** Two valid problems with a plan that the planner declares infeasible: one whose plan keeps
      away from a dependency cycle, and one whose goal is met from the start. */
  lemma StaticProofsHidePlans()
    ensures ValidDefinition(Cycle.CYCLIC, DEFAULT_LIMITS) && ValidDefinition(Bound.UP_LINK, DEFAULT_LIMITS)
    ensures var p := Problem(Cycle.CYCLIC, Cycle.PERMISSIVE, Cycle.DOWN);
            WellPosed(p) && Static(p) && IsPlan(p.def, p.policy, p.start, [2])
    ensures var p := Problem(Bound.UP_LINK, Cycle.PERMISSIVE, Bound.ALREADY_UP);
            WellPosed(p) && !Cycle.HasCycle(p.def) && Static(p) && IsPlan(p.def, p.policy, p.start, [])
  {
    CyclicHidesPlan();
    HighValueHidesPlan();
    hide Static, Cycle.HasCycle, IsPlan, ValidDefinition, WellPosed;
  }

  lemma CyclicHidesPlan()
    ensures ValidDefinition(Cycle.CYCLIC, DEFAULT_LIMITS)
    ensures var p := Problem(Cycle.CYCLIC, Cycle.PERMISSIVE, Cycle.DOWN);
            WellPosed(p) && Static(p) && IsPlan(p.def, p.policy, p.start, [2])
  {
    hide IsPlan, Cycle.HasCycle, Beyond;
    Cycle.CycleIsNotInfeasible();
    assert ActionIds(Cycle.CYCLIC) == [1, 2, 3];
  }

  lemma HighValueHidesPlan()
    ensures ValidDefinition(Bound.UP_LINK, DEFAULT_LIMITS)
    ensures var p := Problem(Bound.UP_LINK, Cycle.PERMISSIVE, Bound.ALREADY_UP);
            WellPosed(p) && !Cycle.HasCycle(p.def) && Static(p) && IsPlan(p.def, p.policy, p.start, [])
  {
    hide IsPlan, Bound.UpperBound, ValidDefinition;
    Bound.HighValueIsMisjudged(Cycle.PERMISSIVE);
    assert ActionIds(Bound.UP_LINK) == [];
    assert Beyond(Bound.UP_LINK, Bound.ALREADY_UP, Bound.UP_LINK.goals[0]);
  }
}
