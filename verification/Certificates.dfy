/** The independent check of infeasibility certificates, and which of the planner's it accepts. */
module Certificates {
  import opened Ints
  import opened Domain
  import opened Definition
  import opened Dynamics
  import opened Evidence
  import opened Problems
  import opened Reconcile
  import opened InitialStates
  import opened Requests
  import opened Validate
  import opened Planner
  import Cycle
  import Bound
  import Search

  // ---- What is accepted -----------------------------------------------------

  // For a bound certificate the stated bound is compared with the structural maximum of a
  // service, or with zero, from goal g on.  The required value only selects the goal.
  predicate AcceptsBound(def: FabricDefinition, subject: Subject, required: nat, stated: nat, g: nat)
    requires g <= |def.goals|
    decreases |def.goals| - g
  {
    g < |def.goals| &&
    var goal := def.goals[g];
    if goal.subject != subject || goal.value != required then AcceptsBound(def, subject, required, stated, g + 1)
    else if goal.kind == ServiceGoal then
      match ServiceIndex(def, subject.id)
      case None => false
      case Some(i) =>
        stated <= def.services[i].maximum || AcceptsBound(def, subject, required, stated, g + 1)
    else stated == 0 || AcceptsBound(def, subject, required, stated, g + 1)
  }

  ghost predicate AllKnown(def: FabricDefinition, s: FabricState)
    requires Shaped(def, s)
  {
    forall x :: Referenced(def, x) ==> Known(def, s, x)
  }

  ghost predicate Accepts(request: PlanRequest, start: FabricState, c: Certificate)
    requires Shaped(request.definition, start)
  {
    match c
    case CycleProof(cycle) => Cycle.CertifiesCycle(request.definition, cycle)
    case BoundProof(goal, bound) => AcceptsBound(request.definition, goal.subject, goal.value, bound, 0)
    case Exhaustive(expanded, _) => expanded > 0 && AllKnown(request.definition, start)
  }

  // ---- Checking -------------------------------------------------------------

  method CheckBound(def: FabricDefinition, subject: Subject, required: nat, stated: nat) returns (matched: bool)
    ensures matched <==> AcceptsBound(def, subject, required, stated, 0)
  {
    hide ServiceIndex;
    matched := false;
    for g := 0 to |def.goals|
      invariant AcceptsBound(def, subject, required, stated, 0) <==>
                matched || AcceptsBound(def, subject, required, stated, g)
    {
      var goal := def.goals[g];
      if goal.subject == subject && goal.value == required {
        var bound: nat := 0;
        if goal.kind == ServiceGoal {
          var i := ServiceIndex(def, subject.id);
          if i.None? {
            return;
          }
          bound := def.services[i.value].maximum;
        }
        if stated <= bound {
          matched := true;
        }
      }
    }
  }

  method CheckExhaustive(def: FabricDefinition, s: FabricState, expanded: nat) returns (ok: bool)
    requires Shaped(def, s)
    ensures ok <==> expanded > 0 && AllKnown(def, s)
  {
    hide Known, Referenced;
    ok := expanded > 0;
    var referenced := CollectReferenced(def);
    var rest := referenced;
    while rest != {}
      invariant rest <= referenced
      invariant ok <==> expanded > 0 && forall x :: x in referenced - rest ==> Known(def, s, x)
    {
      var x :| x in rest;
      if !Known(def, s, x) {
        ok := false;
      }
      rest := rest - {x};
    }
  }

  /** Checks what a certificate claims against the request alone. */
  method CheckCertificate(request: PlanRequest, c: Certificate) returns (ok: bool, ghost start: FabricState)
    requires ValidIds(request.definition)
    ensures StartsAt(request, start) && Shaped(request.definition, start)
    ensures ok <==> Accepts(request, start, c)
  {
    hide Reflects, ValidIds, EstablishedValues, AllKnown, Cycle.CertifiesCycle;
    var def := request.definition;
    var initial := ReconcileFacts(def, request.authority.bindings, request.evidence.facts);
    start := initial;
    StartIs(request, start);
    ReflectsShape(def, start, EstablishedValues(def, request.authority.bindings, request.evidence.facts));
    match c
    case CycleProof(cycle) => ok := Cycle.CheckCycle(def, cycle);
    case BoundProof(goal, bound) => ok := CheckBound(def, goal.subject, goal.value, bound);
    case Exhaustive(expanded, _) => ok := CheckExhaustive(def, initial, expanded);
  }

  // ---- Which of the planner's certificates are accepted ---------------------

  lemma {:induction false} GoalAccepted(def: FabricDefinition, limits: ModelLimits, goal: GoalSpec, stated: nat, g: nat)
    requires ValidDefinition(def, limits) && g <= |def.goals| && goal in def.goals[g..]
    ensures AcceptsBound(def, goal.subject, goal.value, stated, g) <==>
              if goal.kind == ServiceGoal then
                stated <= def.services[ServiceIndex(def, goal.subject.id).value].maximum
              else stated == 0
    decreases |def.goals| - g
  {
    hide ServiceIndex, ValidDefinition;
    var other := def.goals[g];
    TypedGoal(def, limits, g);
    var at :| g <= at < |def.goals| && def.goals[at] == goal;
    TypedGoal(def, limits, at);
    if goal in def.goals[g + 1..] {
      GoalAccepted(def, limits, goal, stated, g + 1);
    } else {
      NoneFurther(def, limits, goal, stated, g + 1);
    }
  }

  // Further goals about the same subject and value ask for the same.
  lemma {:induction false} NoneFurther(def: FabricDefinition, limits: ModelLimits, goal: GoalSpec, stated: nat, g: nat)
    requires ValidDefinition(def, limits) && g <= |def.goals| && goal in def.goals
    ensures AcceptsBound(def, goal.subject, goal.value, stated, g) ==>
              if goal.kind == ServiceGoal then
                stated <= def.services[ServiceIndex(def, goal.subject.id).value].maximum
              else stated == 0
    decreases |def.goals| - g
  {
    hide ServiceIndex, ValidDefinition;
    var at :| 0 <= at < |def.goals| && def.goals[at] == goal;
    TypedGoal(def, limits, at);
    if g < |def.goals| {
      TypedGoal(def, limits, g);
      NoneFurther(def, limits, goal, stated, g + 1);
    }
  }

  lemma TypedGoal(def: FabricDefinition, limits: ModelLimits, g: nat)
    requires ValidDefinition(def, limits) && g < |def.goals|
    ensures def.goals[g].subject.kind == GoalSubject(def.goals[g].kind)
    ensures def.goals[g].kind == ServiceGoal ==> ServiceIndex(def, def.goals[g].subject.id).Some?
  {
    hide ValidAction, ValidLink, ValidService, ServiceIndex;
    assert ValidGoal(def, def.goals[g]);
  }

  /** The planner's bound certificates are accepted if and only if they are about a service, or
      about a subject that is known to be down. */
  lemma BoundAcceptedIff(p: Problem, limits: ModelLimits, goal: GoalSpec, bound: nat)
    requires Shaped(p.def, p.start) && ValidDefinition(p.def, limits) && IsBoundOf(p, goal, bound)
    ensures AcceptsBound(p.def, goal.subject, goal.value, bound, 0) <==> goal.kind == ServiceGoal || bound == 0
  {
    hide ValidDefinition, AcceptsBound, Bound.Derivable, Bound.NoneRaises, Bound.Flag;
    assert p.def.goals[0..] == p.def.goals;
    GoalAccepted(p.def, limits, goal, bound, 0);
  }

  /** Producer and checker of certificates.  Under tie-consistent evidence the check accepts what
      the planner reports, with one exception: the bound of a link, node or restoration goal that
      already holds, which the planner reports for a value above one. */
  lemma ReportedIsAcceptedIff(h: Hashing, limits: ModelLimits, request: PlanRequest, result: PlanningResult,
                              p: Problem, table: ResolutionTable, start: FabricState)
    requires Admitted(limits, request) && result.certificate.Some?
    requires p == Problem(request.definition, request.policy, p.start) && Shaped(p.def, p.start)
    requires Tabulates(p.def, limits, request.authority.bindings, request.evidence.facts, table)
    requires Reflects(p.def, p.start, ResolvedValues(table))
    requires forall x :: x in result.unresolved <==> Open(p.def, p.start, table, x)
    requires Sound(h, limits, request, result, p)
    requires forall key :: TieConsistent(p.def, request.authority.bindings, request.evidence.facts, key)
    requires StartsAt(request, start) && Shaped(p.def, start)
    ensures var c := result.certificate.value;
            Accepts(request, start, c) <==> (c.BoundProof? ==> c.goal.kind == ServiceGoal || c.bound == 0)
  {
    hide ValidDefinition, Reflects, Tabulates, TieConsistent, EstablishedValues, ResolvedValues, Known, Referenced;
    hide AuthorityCurrent, AcceptsBound, Cycle.CertifiesCycle, IsBoundOf, Authentic, Conforms, IsOptimum, IsPlan;
    hide Agreeable, Search.CompetitorOverflows;
    AdmittedIsValid(limits, request);
    match result.certificate.value
    case CycleProof(_) =>
    case BoundProof(goal, bound) => BoundAcceptedIff(p, limits, goal, bound);
    case Exhaustive(_, _) =>
      SameStart(limits, request, p, table, start);
      forall x | Referenced(p.def, x)
        ensures Known(p.def, p.start, x)
      {
        assert !Open(p.def, p.start, table, x);
      }
  }

  lemma SameStart(limits: ModelLimits, request: PlanRequest, p: Problem, table: ResolutionTable, start: FabricState)
    requires ValidDefinition(request.definition, limits)
    requires p == Problem(request.definition, request.policy, p.start) && Shaped(p.def, p.start)
    requires Tabulates(p.def, limits, request.authority.bindings, request.evidence.facts, table)
    requires Reflects(p.def, p.start, ResolvedValues(table))
    requires forall key :: TieConsistent(p.def, request.authority.bindings, request.evidence.facts, key)
    requires StartsAt(request, start)
    ensures start == p.start
  {
    hide Reflects, Tabulates, TieConsistent, EstablishedValues, ResolvedValues, ValidAction, ValidGoal, ValidLink;
    hide ValidService;
    TableIsEstablished(p.def, limits, request.authority.bindings, request.evidence.facts, table);
    ReflectsUnique(p.def, start, p.start, ResolvedValues(table));
  }

  // ---- When an accepted certificate is right --------------------------------

  /** What a stated bound is compared with.  Whether or not there is a plan, every bound up to the
      structural maximum is accepted about a service, and nothing but zero about anything else. */
  lemma AcceptsBoundIff(def: FabricDefinition, limits: ModelLimits, goal: GoalSpec, stated: nat)
    requires ValidDefinition(def, limits) && goal in def.goals
    ensures ServiceIndex(def, goal.subject.id).Some? || goal.kind != ServiceGoal
    ensures AcceptsBound(def, goal.subject, goal.value, stated, 0) <==>
              if goal.kind == ServiceGoal then
                stated <= def.services[ServiceIndex(def, goal.subject.id).value].maximum
              else stated == 0
  {
    hide ValidDefinition, ServiceIndex, AcceptsBound;
    var g :| 0 <= g < |def.goals| && def.goals[g] == goal;
    TypedGoal(def, limits, g);
    assert def.goals[0..] == def.goals;
    GoalAccepted(def, limits, goal, stated, 0);
  }

  /** Acceptance says something when the stated bound lies between the bound that the definition
      really has and the value of the goal: then there is no plan.  About a link, a node or a
      restoration this leaves the bound of zero, for a goal with a value of one. */
  lemma BoundBetweenIsRight(p: Problem, limits: ModelLimits, goal: GoalSpec, stated: nat, u: nat)
    requires Shaped(p.def, p.start) && NothingExecuted(p.start) && ValidDefinition(p.def, limits)
    requires ServicesInRange(p.def, p.start) && goal in p.def.goals && Comparable(goal)
    requires AcceptsBound(p.def, goal.subject, goal.value, stated, 0)
    requires Bound.UpperBound(p.def, p.start, goal) == Some(u) && u <= stated < goal.value
    ensures forall w :: !IsPlan(p.def, p.policy, p.start, w)
    ensures goal.kind != ServiceGoal ==> stated == u == 0 && goal.value == 1
  {
    hide ValidDefinition, NothingExecuted, ServicesInRange, Bound.UpperBound, IsPlan, AcceptsBound, SubjectIndex;
    hide ServiceIndex;
    AcceptsBoundIff(p.def, limits, goal, stated);
    var g :| 0 <= g < |p.def.goals| && p.def.goals[g] == goal;
    TypedGoal(p.def, limits, g);
    IndexedGoal(p.def, limits, g);
    var i := TypedIndex(p.def, goal.subject, GoalSubject(goal.kind)).value;
    BoundRulesOut(p, limits, g, i, u);
  }

  lemma IndexedGoal(def: FabricDefinition, limits: ModelLimits, g: nat)
    requires ValidDefinition(def, limits) && g < |def.goals|
    ensures TypedIndex(def, def.goals[g].subject, GoalSubject(def.goals[g].kind)).Some?
  {
    hide SubjectIndex;
    assert ValidGoal(def, def.goals[g]);
  }

  // ---- A forged certificate -------------------------------------------------

  const SERVED_GOAL: GoalSpec := GoalSpec(ServiceGoal, Subject(ServiceSubject, 4), 3, 1)

  const SERVED: FabricDefinition :=
    FabricDefinition([], [], [ServiceSpec(4, 0, 0, 5, false)], [], [], [SERVED_GOAL], [])

  const SERVING: FabricState := FabricState([], [], [], [], [5], [], [], [], [], [true], 0)

  lemma ServedIsValid()
    ensures ValidDefinition(SERVED, DEFAULT_LIMITS) && ServiceIndex(SERVED, 4) == Some(0)
  {
    assert ServiceIds(SERVED)[0] == 4;
    FindUnique(ServiceIds(SERVED), 0);
    assert NodeIds(SERVED) == [] && LinkIds(SERVED) == [] && ResourceIds(SERVED) == [] && GroupIds(SERVED) == [];
    assert ServiceIds(SERVED) == [4] && ActionIds(SERVED) == [];
    assert ValidGoal(SERVED, SERVED_GOAL);
  }

  /** The check compares a stated bound with the structural maximum and never with the value it is
      supposed to lie below, nor with a bound of its own: a service goal that is met from the start
      has a plan, and a certificate with a bound of zero against it is accepted. */
  lemma ForgedIsAccepted(policy: PlanPolicy)
    ensures ValidDefinition(SERVED, DEFAULT_LIMITS) && IsPlan(SERVED, policy, SERVING, [])
    ensures AcceptsBound(SERVED, SERVED_GOAL.subject, SERVED_GOAL.value, 0, 0)
    ensures !IsBoundOf(Problem(SERVED, policy, SERVING), SERVED_GOAL, 0)
  {
    ServedIsValid();
    hide ValidDefinition;
    assert |SERVED.goals| == 1 && SERVED.goals[0] == SERVED_GOAL;
    Bound.NothingIsAdmissible(Problem(SERVED, policy, SERVING));
    assert GoalMet(SERVED, SERVING, SERVED_GOAL);
    assert Bound.HighestOver(SERVED, SERVED_GOAL.subject, 5, 0) == 5;
  }

  /** Nor does the check of an exhaustive certificate look for a plan: for the same goal, which is
      known to be met, every certificate that states some expanded node is accepted. */
  lemma ForgedSearchIsAccepted(request: PlanRequest, expanded: nat, reached: nat)
    requires request.definition == SERVED && expanded > 0
    ensures IsPlan(SERVED, request.policy, SERVING, []) && Shaped(request.definition, SERVING)
    ensures Accepts(request, SERVING, Exhaustive(expanded, reached))
  {
    ForgedIsAccepted(request.policy);
    hide IsPlan;
    ServedIsValid();
    forall x | Referenced(SERVED, x)
      ensures Known(SERVED, SERVING, x)
    {
      assert x == SERVED_GOAL.subject;
    }
  }
}
