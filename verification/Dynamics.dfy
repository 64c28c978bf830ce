/** What a plan means: which action sequences are admissible from an initial state,
    the state they lead to and what they cost.

    This is the one definition that the planner, the independent validator and the
    reference solver are each connected to.  It is stated over the whole history of a
    sequence: a reusable resource is checked against every earlier use whose hold
    window still covers the step, with no incremental bookkeeping. */
module Dynamics {
  import opened Ints
  import opened Domain
  import opened Objectives

  // ---- Reading the state ----------------------------------------------------

  function Size(def: FabricDefinition, kind: SubjectKind): nat {
    match kind
    case NodeSubject => |def.nodes|
    case LinkSubject => |def.links|
    case ServiceSubject => |def.services|
    case ResourceSubject => |def.resources|
    case ActionSubject => |def.actions|
    case NoSubject => 0
    case FabricSubject => 0
  }

  function TypedIndex(def: FabricDefinition, subject: Subject, kind: SubjectKind): (r: Option<nat>)
    ensures r.Some? ==> r.value < Size(def, kind)
  {
    if subject.kind == kind then SubjectIndex(def, subject) else None
  }

  predicate PreconditionKnown(def: FabricDefinition, s: FabricState, p: Precondition)
    requires Shaped(def, s)
  {
    match TypedIndex(def, p.subject, PreconditionSubject(p.kind))
    case None => false
    case Some(i) =>
      match p.kind
      case LinkIsUp => s.linkKnown[i]
      case LinkIsDown => s.linkKnown[i]
      case NodeIsUp => s.nodeKnown[i]
      case NodeIsDown => s.nodeKnown[i]
      case ServiceAtLeast => s.serviceKnown[i]
      case ServiceAtMost => s.serviceKnown[i]
      case AvailableAtLeast => s.resourceKnown[i]
      case ExecutedAtLeast => true
  }

  // Being down, or at most some value, also has to be known to hold.
  predicate PreconditionHolds(def: FabricDefinition, s: FabricState, p: Precondition)
    requires Shaped(def, s)
  {
    PreconditionKnown(def, s, p) &&
    var i := TypedIndex(def, p.subject, PreconditionSubject(p.kind)).value;
    match p.kind
    case LinkIsUp => s.linkUp[i]
    case LinkIsDown => !s.linkUp[i]
    case NodeIsUp => s.nodeUp[i]
    case NodeIsDown => !s.nodeUp[i]
    case ServiceAtLeast => s.reachable[i] >= p.value
    case ServiceAtMost => s.reachable[i] <= p.value
    case AvailableAtLeast => s.available[i] >= p.value
    case ExecutedAtLeast => s.occurrences[i] >= p.value
  }

  predicate GoalMet(def: FabricDefinition, s: FabricState, goal: GoalSpec)
    requires Shaped(def, s)
  {
    match TypedIndex(def, goal.subject, GoalSubject(goal.kind))
    case None => false
    case Some(i) =>
      match goal.kind
      case LinkGoal => s.linkKnown[i] && s.linkUp[i]
      case NodeGoal => s.nodeKnown[i] && s.nodeUp[i]
      case RestoredGoal => s.resourceKnown[i] && s.restored[i]
      case ServiceGoal => s.serviceKnown[i] && s.reachable[i] >= goal.value
  }

  predicate GoalsMet(def: FabricDefinition, s: FabricState)
    requires Shaped(def, s)
  {
    forall g | 0 <= g < |def.goals| :: GoalMet(def, s, def.goals[g])
  }

  // Unknown reachability is charged at the full reference value.
  function Gap(reference: nat, known: bool, reachable: nat): nat {
    if reference == 0 then 0
    else if !known then reference
    else Rise(reachable, reference)
  }

  // The shortfall of the first k services against their floors or their targets.
  function ShortfallOf(def: FabricDefinition, s: FabricState, targets: bool, k: nat): nat
    requires Shaped(def, s) && k <= |def.services|
  {
    if k == 0 then 0
    else
      var service := def.services[k - 1];
      ShortfallOf(def, s, targets, k - 1)
      + Gap(if targets then service.target else service.required, s.serviceKnown[k - 1], s.reachable[k - 1])
  }

  function FloorGap(def: FabricDefinition, s: FabricState): nat
    requires Shaped(def, s)
  {
    ShortfallOf(def, s, false, |def.services|)
  }

  function Incompleteness(def: FabricDefinition, s: FabricState): nat
    requires Shaped(def, s)
  {
    ShortfallOf(def, s, true, |def.services|)
  }

  // ---- Guards ---------------------------------------------------------------

  predicate DependencyMet(def: FabricDefinition, s: FabricState, d: ActionDependency)
    requires Shaped(def, s)
  {
    var p := ActionIndex(def, d.predecessor);
    p.Some? && s.occurrences[p.value] >= d.minOccurrences
  }

  // How many of the first k actions have run and belong to the group.
  function Selected(def: FabricDefinition, s: FabricState, group: U64, k: nat): (r: nat)
    requires Shaped(def, s) && k <= |def.actions|
    ensures r <= k
  {
    if k == 0 then 0
    else
      Selected(def, s, group, k - 1)
      + if s.occurrences[k - 1] > 0 && group in def.actions[k - 1].groups then 1 else 0
  }

  predicate GroupOpen(def: FabricDefinition, s: FabricState, group: U64)
    requires Shaped(def, s)
  {
    var g := GroupIndex(def, group);
    g.Some? && Selected(def, s, group, |def.actions|) < def.groups[g.value].maxSelected
  }

  predicate ConsumableReady(def: FabricDefinition, s: FabricState, use: ResourceUse)
    requires Shaped(def, s)
  {
    var r := ResourceIndex(def, use.resource);
    r.Some? &&
    (def.resources[r.value].kind == Consumable ==>
       s.resourceKnown[r.value] && s.available[r.value] >= use.units)
  }

  // Everything an action needs from the state alone.
  predicate Ready(def: FabricDefinition, policy: PlanPolicy, s: FabricState, a: nat)
    requires Shaped(def, s) && a < |def.actions|
  {
    var action := def.actions[a];
    && s.occurrences[a] < action.maxOccurrences
    && (forall d | 0 <= d < |action.dependencies| :: DependencyMet(def, s, action.dependencies[d]))
    && (s.occurrences[a] == 0 ==>
          forall g | 0 <= g < |action.groups| :: GroupOpen(def, s, action.groups[g]))
    && (forall p | 0 <= p < |action.preconditions| :: PreconditionHolds(def, s, action.preconditions[p]))
    && (forall u | 0 <= u < |action.uses| :: ConsumableReady(def, s, action.uses[u]))
    && (action.reversibility == Irreversible ==> policy.allowIrreversible)
  }

  // Whether each reusable use still fits next to what is held already.
  predicate Fits(def: FabricDefinition, a: nat, held: seq<nat>)
    requires a < |def.actions| && |held| == |def.resources|
  {
    var uses := def.actions[a].uses;
    forall u | 0 <= u < |uses| ::
      var r := ResourceIndex(def, uses[u].resource);
      r.Some? &&
      (def.resources[r.value].kind == Reusable ==>
         held[r.value] + uses[u].units <= def.resources[r.value].capacity)
  }

  // ---- Evolution ------------------------------------------------------------

  function ApplyEffect(def: FabricDefinition, s: FabricState, e: Effect): (r: Option<FabricState>)
    requires Shaped(def, s)
    ensures r.Some? ==> Shaped(def, r.value)
    ensures r.Some? ==> r.value.occurrences == s.occurrences && r.value.tick == s.tick
  {
    match TypedIndex(def, e.subject, EffectSubject(e.kind))
    case None => None
    case Some(i) =>
      match e.kind
      case SetLink => Some(s.(linkUp := s.linkUp[i := e.value != 0], linkKnown := s.linkKnown[i := true]))
      case SetNode => Some(s.(nodeUp := s.nodeUp[i := e.value != 0], nodeKnown := s.nodeKnown[i := true]))
      case SetService =>
        if AsUnsigned(e.value) > def.services[i].maximum then None
        else Some(s.(reachable := s.reachable[i := AsUnsigned(e.value)], serviceKnown := s.serviceKnown[i := true]))
      case ServiceDelta =>
        if !s.serviceKnown[i] then
          if def.services[i].required > 0 then None else Some(s)
        else
          var updated := s.reachable[i] + e.value;
          if updated < 0 || updated > def.services[i].maximum then None
          else Some(s.(reachable := s.reachable[i := updated]))
      case MarkRestored =>
        Some(s.(restored := s.restored[i := true], resourceKnown := s.resourceKnown[i := true]))
      case SetAvailable =>
        if AsUnsigned(e.value) > def.resources[i].capacity then None
        else Some(s.(available := s.available[i := AsUnsigned(e.value)], resourceKnown := s.resourceKnown[i := true]))
  }

  function ApplyEffects(def: FabricDefinition, s: FabricState, effects: seq<Effect>): (r: Option<FabricState>)
    requires Shaped(def, s)
    ensures r.Some? ==> Shaped(def, r.value)
    ensures r.Some? ==> r.value.occurrences == s.occurrences && r.value.tick == s.tick
    decreases |effects|
  {
    if |effects| == 0 then Some(s)
    else
      match ApplyEffect(def, s, effects[0])
      case None => None
      case Some(next) => ApplyEffects(def, next, effects[1..])
  }

  // The subtraction is unchecked in 32 bits: only a resource used twice by one action,
  // or overwritten by one of its effects, can make it wrap.
  function ConsumeOne(def: FabricDefinition, s: FabricState, use: ResourceUse): (r: FabricState)
    requires Shaped(def, s)
    ensures Shaped(def, r) && r == s.(available := r.available)
  {
    match ResourceIndex(def, use.resource)
    case None => s
    case Some(i) =>
      if def.resources[i].kind == Consumable
      then s.(available := s.available[i := Wrap32(s.available[i] - use.units)])
      else s
  }

  function Consume(def: FabricDefinition, s: FabricState, uses: seq<ResourceUse>): (r: FabricState)
    requires Shaped(def, s)
    ensures Shaped(def, r) && r == s.(available := r.available)
    decreases |uses|
  {
    if |uses| == 0 then s else Consume(def, ConsumeOne(def, s, uses[0]), uses[1..])
  }

  // The state after an action, or None when an effect leaves its range, the total floor
  // gap would grow, or the tick would leave 64 bits.
  function Evolve(def: FabricDefinition, s: FabricState, a: nat): (r: Option<FabricState>)
    requires Shaped(def, s) && a < |def.actions| && s.occurrences[a] < def.actions[a].maxOccurrences
    ensures r.Some? ==> Shaped(def, r.value)
    ensures r.Some? ==> r.value.occurrences == s.occurrences[a := s.occurrences[a] + 1]
    ensures r.Some? ==> r.value.tick == s.tick + def.actions[a].duration
    ensures r.Some? ==> FloorGap(def, r.value) <= FloorGap(def, s)
  {
    var action := def.actions[a];
    match ApplyEffects(def, s, action.effects)
    case None => None
    case Some(changed) =>
      var spent := Consume(def, changed, action.uses);
      if FloorGap(def, spent) > FloorGap(def, s) || s.tick + action.duration > MAX_U64 then None
      else
        var next := spent.(occurrences := spent.occurrences[a := s.occurrences[a] + 1],
                           tick := s.tick + action.duration);
        SameServicesSameShortfall(def, spent, next, false, |def.services|);
        Some(next)
  }

  lemma SameServicesSameShortfall(def: FabricDefinition, s: FabricState, t: FabricState, targets: bool, k: nat)
    requires Shaped(def, s) && Shaped(def, t) && k <= |def.services|
    requires s.reachable == t.reachable && s.serviceKnown == t.serviceKnown
    ensures ShortfallOf(def, s, targets, k) == ShortfallOf(def, t, targets, k)
  {
  }

  // One step from a state in which the given units of each reusable resource are held.
  function Step(def: FabricDefinition, policy: PlanPolicy, s: FabricState, held: seq<nat>, a: nat)
    : (r: Option<FabricState>)
    requires Shaped(def, s) && |held| == |def.resources|
    ensures r.Some? ==> a < |def.actions| && Shaped(def, r.value)
    ensures r.Some? ==> s.occurrences[a] < def.actions[a].maxOccurrences
    ensures r.Some? ==> r.value.occurrences == s.occurrences[a := s.occurrences[a] + 1]
    ensures r.Some? ==> r.value.tick == s.tick + def.actions[a].duration
  {
    hide Fits;
    hide Evolve;
    if a < |def.actions| && Ready(def, policy, s, a) && Fits(def, a, held) then Evolve(def, s, a) else None
  }

  // What one step adds to the objective.
  function StepCost(def: FabricDefinition, before: FabricState, after: FabricState, a: nat): (d: Objective)
    requires Shaped(def, before) && Shaped(def, after) && a < |def.actions|
  {
    var action := def.actions[a];
    [0, 0, Rise(Incompleteness(def, before), Incompleteness(def, after)), action.blastRadius, 1,
     action.disruption, action.cost, action.duration]
  }

  // ---- Sequences ------------------------------------------------------------

  // A sequence is written as positions in the ordered action list.
  predicate IsWord(def: FabricDefinition, w: seq<nat>) {
    forall i | 0 <= i < |w| :: w[i] < |def.actions|
  }

  function IdOf(def: FabricDefinition, a: nat): U64 {
    if a < |def.actions| then def.actions[a].id else 0
  }

  function UsesOf(def: FabricDefinition, a: nat): seq<ResourceUse> {
    if a < |def.actions| then def.actions[a].uses else []
  }

  // The canonical encoding of a sequence: the identities of its actions.
  function Encoding(def: FabricDefinition, w: seq<nat>): (e: seq<U64>)
    ensures |e| == |w| && forall i :: 0 <= i < |e| ==> e[i] == IdOf(def, w[i])
  {
    seq(|w|, i requires 0 <= i < |w| => IdOf(def, w[i]))
  }

  // Units of resource r that one execution of the listed uses takes.
  function Units(def: FabricDefinition, uses: seq<ResourceUse>, r: nat): nat {
    if |uses| == 0 then 0
    else (if ResourceIndex(def, uses[0].resource) == Some(r) then uses[0].units else 0) + Units(def, uses[1..], r)
  }

  // Units of resource r still held at step |w| by the first k steps of w: a use at step i
  // covers the steps i .. i + holdSteps - 1.
  function HeldUpTo(def: FabricDefinition, w: seq<nat>, r: nat, k: nat): nat
    requires r < |def.resources| && k <= |w|
  {
    if k == 0 then 0
    else
      HeldUpTo(def, w, r, k - 1)
      + if |w| - (k - 1) < def.resources[r].holdSteps then Units(def, UsesOf(def, w[k - 1]), r) else 0
  }

  function Held(def: FabricDefinition, w: seq<nat>): (h: seq<nat>)
    ensures |h| == |def.resources|
    ensures forall r :: 0 <= r < |h| ==> h[r] == HeldUpTo(def, w, r, |w|)
  {
    seq(|def.resources|, r requires 0 <= r < |def.resources| => HeldUpTo(def, w, r, |w|))
  }

  datatype Outcome = Outcome(state: FabricState, cost: Objective)

  // One more step, with its cost.
  function Prolong(def: FabricDefinition, policy: PlanPolicy, o: Outcome, held: seq<nat>, a: nat): (r: Option<Outcome>)
    requires Shaped(def, o.state) && |held| == |def.resources|
    ensures r.Some? ==> a < |def.actions| && Shaped(def, r.value.state)
  {
    hide Step;
    hide StepCost;
    match Step(def, policy, o.state, held, a)
    case None => None
    case Some(next) => Some(Outcome(next, Plus(o.cost, StepCost(def, o.state, next, a))))
  }

  // Executing a whole sequence: None when some step of it is inadmissible.
  function Execute(def: FabricDefinition, policy: PlanPolicy, start: FabricState, w: seq<nat>): (r: Option<Outcome>)
    requires Shaped(def, start)
    ensures r.Some? ==> Shaped(def, r.value.state)
    decreases |w|
  {
    hide Prolong;
    hide Held;
    hide Shaped;
    if |w| == 0 then Some(Outcome(start, ZERO))
    else
      match Execute(def, policy, start, w[..|w| - 1])
      case None => None
      case Some(o) => Prolong(def, policy, o, Held(def, w[..|w| - 1]), w[|w| - 1])
  }

  lemma {:induction false} AdmissibleIsWord(def: FabricDefinition, policy: PlanPolicy, start: FabricState, w: seq<nat>)
    requires Shaped(def, start) && Execute(def, policy, start, w).Some?
    ensures IsWord(def, w)
    decreases |w|
  {
    hide Prolong;
    hide Held;
    if |w| > 0 {
      AdmissibleIsWord(def, policy, start, w[..|w| - 1]);
      forall i | 0 <= i < |w|
        ensures w[i] < |def.actions|
      {
        assert i < |w| - 1 ==> w[i] == w[..|w| - 1][i];
      }
    }
  }

  predicate Admissible(def: FabricDefinition, policy: PlanPolicy, start: FabricState, w: seq<nat>)
    requires Shaped(def, start)
  {
    Execute(def, policy, start, w).Some?
  }

  // An admissible sequence within the step bound that meets every goal.
  predicate IsPlan(def: FabricDefinition, policy: PlanPolicy, start: FabricState, w: seq<nat>)
    requires Shaped(def, start)
  {
    && |w| <= policy.maxPlanSteps
    && Admissible(def, policy, start, w)
    && GoalsMet(def, Execute(def, policy, start, w).value.state)
  }

  function ScoreOf(def: FabricDefinition, policy: PlanPolicy, start: FabricState, w: seq<nat>): Score
    requires Shaped(def, start) && Admissible(def, policy, start, w)
  {
    Score(Execute(def, policy, start, w).value.cost, Encoding(def, w))
  }

  // The plan that precedes every other plan.
  ghost predicate IsOptimal(def: FabricDefinition, policy: PlanPolicy, start: FabricState, w: seq<nat>)
    requires Shaped(def, start)
  {
    && IsPlan(def, policy, start, w)
    && forall v | IsPlan(def, policy, start, v) ::
         AtLeastAsGood(ScoreOf(def, policy, start, w), ScoreOf(def, policy, start, v))
  }
}
