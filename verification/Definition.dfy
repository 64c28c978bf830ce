/** Structural validation of a problem definition against the model limits. */
module Definition {
  import opened Ints
  import opened Domain

  datatype ModelLimits = ModelLimits(
    maxNodes: U32,
    maxLinks: U32,
    maxServices: U32,
    maxResources: U32,
    maxActions: U32,
    maxGoals: U32,
    maxGroups: U32,
    maxPreconditions: U32,
    maxEffects: U32,
    maxFacts: U32,
    maxBindings: U32,
    maxFences: U32,
    maxOccurrences: U32,
    maxHoldSteps: U32,
    maxEndpoints: U32,
    maxStringLength: U32)

  const DEFAULT_LIMITS: ModelLimits :=
    ModelLimits(4096, 8192, 1024, 1024, 512, 1024, 512, 32, 32, 65536, 32, 1024, 16, 64, 1000000, 128)

  // ---- What a valid definition is -------------------------------------------

  predicate GoodIds(ids: seq<U64>) {
    Distinct(ids) && 0 !in ids
  }

  predicate ValidSizes(def: FabricDefinition, limits: ModelLimits) {
    && |def.nodes| <= limits.maxNodes
    && |def.links| <= limits.maxLinks
    && |def.services| <= limits.maxServices
    && |def.resources| <= limits.maxResources
    && |def.actions| <= limits.maxActions
    && |def.goals| <= limits.maxGoals
    && |def.groups| <= limits.maxGroups
  }

  predicate ValidIds(def: FabricDefinition) {
    && GoodIds(NodeIds(def))
    && GoodIds(LinkIds(def))
    && GoodIds(ServiceIds(def))
    && GoodIds(ResourceIds(def))
    && GoodIds(GroupIds(def))
    && GoodIds(ActionIds(def))
  }

  predicate ValidLink(def: FabricDefinition, link: LinkSpec) {
    NodeIndex(def, link.endpointA).Some? && NodeIndex(def, link.endpointB).Some?
  }

  predicate ValidService(service: ServiceSpec, limits: ModelLimits) {
    service.required <= service.target <= service.maximum <= limits.maxEndpoints
  }

  predicate ValidPrecondition(def: FabricDefinition, p: Precondition) {
    p.subject.kind == PreconditionSubject(p.kind) && SubjectIndex(def, p.subject).Some?
  }

  predicate ValidEffect(def: FabricDefinition, e: Effect) {
    && e.subject.kind == EffectSubject(e.kind)
    && SubjectIndex(def, e.subject).Some?
    && match e.kind
       case SetLink => e.value == 0 || e.value == 1
       case SetNode => e.value == 0 || e.value == 1
       case MarkRestored => e.value == 1
       case SetService => 0 <= e.value <= def.services[ServiceIndex(def, e.subject.id).value].maximum
       case SetAvailable => 0 <= e.value <= def.resources[ResourceIndex(def, e.subject.id).value].capacity
       case ServiceDelta => true
  }

  predicate ValidUse(def: FabricDefinition, use: ResourceUse) {
    var r := ResourceIndex(def, use.resource);
    r.Some? && 0 < use.units <= def.resources[r.value].capacity
  }

  predicate ValidDependency(def: FabricDefinition, action: ActionSpec, d: ActionDependency) {
    var p := ActionIndex(def, d.predecessor);
    && d.predecessor != action.id
    && p.Some?
    && 0 < d.minOccurrences <= def.actions[p.value].maxOccurrences
  }

  predicate ValidReversibility(def: FabricDefinition, action: ActionSpec) {
    match action.reversibility
    case Irreversible => action.compensation == 0
    case Reversible =>
      action.compensation != 0 && action.compensation != action.id && ActionIndex(def, action.compensation).Some?
  }

  predicate ValidAction(def: FabricDefinition, limits: ModelLimits, action: ActionSpec) {
    && |action.name| <= limits.maxStringLength
    && 0 < action.maxOccurrences <= limits.maxOccurrences
    && |action.preconditions| <= limits.maxPreconditions
    && |action.effects| <= limits.maxEffects
    && ValidReversibility(def, action)
    && (forall i :: 0 <= i < |action.preconditions| ==> ValidPrecondition(def, action.preconditions[i]))
    && (forall i :: 0 <= i < |action.effects| ==> ValidEffect(def, action.effects[i]))
    && (forall i :: 0 <= i < |action.uses| ==> ValidUse(def, action.uses[i]))
    && (forall i :: 0 <= i < |action.dependencies| ==> ValidDependency(def, action, action.dependencies[i]))
    && GoodIds(action.groups)
    && (forall i :: 0 <= i < |action.groups| ==> GroupIndex(def, action.groups[i]).Some?)
  }

  predicate ValidGoal(def: FabricDefinition, goal: GoalSpec) {
    && goal.subject.kind == GoalSubject(goal.kind)
    && SubjectIndex(def, goal.subject).Some?
    && goal.weight > 0
    && (goal.kind == ServiceGoal ==>
          goal.value <= def.services[ServiceIndex(def, goal.subject.id).value].maximum)
  }

  predicate ValidDefinition(def: FabricDefinition, limits: ModelLimits) {
    && ValidSizes(def, limits)
    && ValidIds(def)
    && (forall i :: 0 <= i < |def.links| ==> ValidLink(def, def.links[i]))
    && (forall i :: 0 <= i < |def.services| ==> ValidService(def.services[i], limits))
    && (forall i :: 0 <= i < |def.resources| ==> def.resources[i].holdSteps <= limits.maxHoldSteps)
    && (forall i :: 0 <= i < |def.groups| ==> def.groups[i].maxSelected > 0)
    && (forall i :: 0 <= i < |def.actions| ==> ValidAction(def, limits, def.actions[i]))
    && (forall i :: 0 <= i < |def.goals| ==> ValidGoal(def, def.goals[i]))
  }

  // ---- Checking it ----------------------------------------------------------

  /** Rejects a zero or repeated identity, remembering the ones already seen. */
  method CheckIds(ids: seq<U64>) returns (ok: bool)
    ensures ok <==> GoodIds(ids)
  {
    var seen: set<U64> := {};
    for i := 0 to |ids|
      invariant forall x :: x in seen <==> x in ids[..i]
      invariant Distinct(ids[..i]) && 0 !in ids[..i]
    {
      if ids[i] == 0 {
        return false;
      }
      if ids[i] in seen {
        var j :| 0 <= j < i && ids[..i][j] == ids[i];
        assert ids[j] == ids[i];
        return false;
      }
      assert ids[..i + 1] == ids[..i] + [ids[i]];
      seen := seen + {ids[i]};
    }
    assert ids[..|ids|] == ids;
    return true;
  }

  method CheckPreconditions(def: FabricDefinition, list: seq<Precondition>) returns (ok: bool)
    ensures ok <==> forall i :: 0 <= i < |list| ==> ValidPrecondition(def, list[i])
  {
    for i := 0 to |list|
      invariant forall j :: 0 <= j < i ==> ValidPrecondition(def, list[j])
    {
      if list[i].subject.kind != PreconditionSubject(list[i].kind) {
        return false;
      }
      if SubjectIndex(def, list[i].subject).None? {
        return false;
      }
    }
    return true;
  }

  method CheckEffect(def: FabricDefinition, e: Effect) returns (ok: bool)
    ensures ok <==> ValidEffect(def, e)
  {
    if e.subject.kind != EffectSubject(e.kind) || SubjectIndex(def, e.subject).None? {
      return false;
    }
    match e.kind {
      case SetLink =>
        ok := e.value == 0 || e.value == 1;
      case SetNode =>
        ok := e.value == 0 || e.value == 1;
      case MarkRestored =>
        ok := e.value == 1;
      case SetService =>
        var i := ServiceIndex(def, e.subject.id).value;
        ok := e.value >= 0 && AsUnsigned(e.value) <= def.services[i].maximum;
      case SetAvailable =>
        var i := ResourceIndex(def, e.subject.id).value;
        ok := e.value >= 0 && AsUnsigned(e.value) <= def.resources[i].capacity;
      case ServiceDelta =>
        ok := true;
    }
  }

  method CheckEffects(def: FabricDefinition, list: seq<Effect>) returns (ok: bool)
    ensures ok <==> forall i :: 0 <= i < |list| ==> ValidEffect(def, list[i])
  {
    for i := 0 to |list|
      invariant forall j :: 0 <= j < i ==> ValidEffect(def, list[j])
    {
      var valid := CheckEffect(def, list[i]);
      if !valid {
        return false;
      }
    }
    return true;
  }

  method CheckUses(def: FabricDefinition, list: seq<ResourceUse>) returns (ok: bool)
    ensures ok <==> forall i :: 0 <= i < |list| ==> ValidUse(def, list[i])
  {
    for i := 0 to |list|
      invariant forall j :: 0 <= j < i ==> ValidUse(def, list[j])
    {
      var r := ResourceIndex(def, list[i].resource);
      if r.None? || list[i].units == 0 || list[i].units > def.resources[r.value].capacity {
        assert !ValidUse(def, list[i]);
        return false;
      }
    }
    return true;
  }

  method CheckDependencies(def: FabricDefinition, action: ActionSpec) returns (ok: bool)
    ensures ok <==> forall i :: 0 <= i < |action.dependencies| ==> ValidDependency(def, action, action.dependencies[i])
  {
    var list := action.dependencies;
    for i := 0 to |list|
      invariant forall j :: 0 <= j < i ==> ValidDependency(def, action, list[j])
    {
      var d := list[i];
      var p := ActionIndex(def, d.predecessor);
      if d.predecessor == action.id || p.None? || d.minOccurrences == 0
         || d.minOccurrences > def.actions[p.value].maxOccurrences
      {
        assert !ValidDependency(def, action, list[i]);
        return false;
      }
    }
    return true;
  }

  method CheckGroups(def: FabricDefinition, groups: seq<U64>) returns (ok: bool)
    ensures ok <==> GoodIds(groups) && forall i :: 0 <= i < |groups| ==> GroupIndex(def, groups[i]).Some?
  {
    ok := CheckIds(groups);
    if ok {
      for i := 0 to |groups|
        invariant forall j :: 0 <= j < i ==> GroupIndex(def, groups[j]).Some?
      {
        if GroupIndex(def, groups[i]).None? {
          return false;
        }
      }
    }
  }

  method CheckAction(def: FabricDefinition, limits: ModelLimits, action: ActionSpec) returns (ok: bool)
    ensures ok <==> ValidAction(def, limits, action)
  {
    hide ValidPrecondition, ValidEffect, ValidUse, ValidDependency, GoodIds, GroupIndex;
    if |action.name| > limits.maxStringLength || action.maxOccurrences == 0
       || action.maxOccurrences > limits.maxOccurrences
       || |action.preconditions| > limits.maxPreconditions || |action.effects| > limits.maxEffects
    {
      return false;
    }
    if action.reversibility == Reversible {
      if action.compensation == 0 || action.compensation == action.id
         || ActionIndex(def, action.compensation).None?
      {
        return false;
      }
    } else if action.compensation != 0 {
      return false;
    }
    ok := CheckPreconditions(def, action.preconditions);
    if !ok { return; }
    ok := CheckEffects(def, action.effects);
    if !ok { return; }
    ok := CheckUses(def, action.uses);
    if !ok { return; }
    ok := CheckDependencies(def, action);
    if !ok { return; }
    ok := CheckGroups(def, action.groups);
  }

  method CheckGoal(def: FabricDefinition, goal: GoalSpec) returns (ok: bool)
    ensures ok <==> ValidGoal(def, goal)
  {
    if goal.subject.kind != GoalSubject(goal.kind) || SubjectIndex(def, goal.subject).None? || goal.weight == 0 {
      return false;
    }
    if goal.kind == ServiceGoal && goal.value > def.services[ServiceIndex(def, goal.subject.id).value].maximum {
      return false;
    }
    return true;
  }

  method CheckLists(def: FabricDefinition, limits: ModelLimits) returns (ok: bool)
    ensures ok <==> && (forall i :: 0 <= i < |def.links| ==> ValidLink(def, def.links[i]))
                    && (forall i :: 0 <= i < |def.services| ==> ValidService(def.services[i], limits))
                    && (forall i :: 0 <= i < |def.resources| ==> def.resources[i].holdSteps <= limits.maxHoldSteps)
                    && (forall i :: 0 <= i < |def.groups| ==> def.groups[i].maxSelected > 0)
  {
    for i := 0 to |def.links|
      invariant forall j :: 0 <= j < i ==> ValidLink(def, def.links[j])
    {
      if NodeIndex(def, def.links[i].endpointA).None? || NodeIndex(def, def.links[i].endpointB).None? {
        assert !ValidLink(def, def.links[i]);
        return false;
      }
    }
    for i := 0 to |def.services|
      invariant forall j :: 0 <= j < i ==> ValidService(def.services[j], limits)
    {
      var service := def.services[i];
      if service.maximum > limits.maxEndpoints || service.required > service.maximum
         || service.target > service.maximum || service.target < service.required
      {
        assert !ValidService(def.services[i], limits);
        return false;
      }
    }
    for i := 0 to |def.resources|
      invariant forall j :: 0 <= j < i ==> def.resources[j].holdSteps <= limits.maxHoldSteps
    {
      if def.resources[i].holdSteps > limits.maxHoldSteps {
        return false;
      }
    }
    for i := 0 to |def.groups|
      invariant forall j :: 0 <= j < i ==> def.groups[j].maxSelected > 0
    {
      if def.groups[i].maxSelected == 0 {
        return false;
      }
    }
    return true;
  }

  method CheckAllIds(def: FabricDefinition) returns (ok: bool)
    ensures ok <==> ValidIds(def)
  {
    hide GoodIds;
    ok := CheckIds(NodeIds(def));
    if !ok { return; }
    ok := CheckIds(LinkIds(def));
    if !ok { return; }
    ok := CheckIds(ServiceIds(def));
    if !ok { return; }
    ok := CheckIds(ResourceIds(def));
    if !ok { return; }
    ok := CheckIds(GroupIds(def));
    if !ok { return; }
    ok := CheckIds(ActionIds(def));
  }

  /** Accepts exactly the valid definitions. */
  method ValidateDefinition(def: FabricDefinition, limits: ModelLimits) returns (ok: bool)
    ensures ok <==> ValidDefinition(def, limits)
  {
    hide ValidIds, ValidLink, ValidService, ValidAction, ValidGoal;
    if |def.nodes| > limits.maxNodes || |def.links| > limits.maxLinks || |def.services| > limits.maxServices
       || |def.resources| > limits.maxResources || |def.actions| > limits.maxActions
       || |def.goals| > limits.maxGoals || |def.groups| > limits.maxGroups
    {
      return false;
    }
    ok := CheckAllIds(def);
    if !ok { return; }
    ok := CheckLists(def, limits);
    if !ok { return; }
    for i := 0 to |def.actions|
      invariant forall j :: 0 <= j < i ==> ValidAction(def, limits, def.actions[j])
    {
      var valid := CheckAction(def, limits, def.actions[i]);
      if !valid {
        return false;
      }
    }
    for i := 0 to |def.goals|
      invariant forall j :: 0 <= j < i ==> ValidGoal(def, def.goals[j])
    {
      var valid := CheckGoal(def, def.goals[i]);
      if !valid {
        return false;
      }
    }
    return true;
  }
}
