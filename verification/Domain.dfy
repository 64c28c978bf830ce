/** The static problem definition, the fabric state and the policy of a request. */
module Domain {
  import opened Ints

  datatype SubjectKind =
    | NoSubject
    | NodeSubject
    | LinkSubject
    | ServiceSubject
    | ResourceSubject
    | ActionSubject
    | FabricSubject

  datatype Subject = Subject(kind: SubjectKind, id: U64)

  datatype NodeSpec = NodeSpec(id: U64, isProtected: bool)

  datatype LinkSpec = LinkSpec(id: U64, endpointA: U64, endpointB: U64)

  // required is the hard floor, target the soft objective, maximum the structural limit.
  datatype ServiceSpec = ServiceSpec(id: U64, required: U32, target: U32, maximum: U32, isProtected: bool)

  // A consumable is used up; a reusable is held for holdSteps plan steps.
  datatype ResourceKind = Consumable | Reusable

  datatype ResourceSpec = ResourceSpec(id: U64, kind: ResourceKind, capacity: U32, holdSteps: U32)

  datatype PreconditionKind =
    | LinkIsUp
    | LinkIsDown
    | NodeIsUp
    | NodeIsDown
    | ServiceAtLeast
    | ServiceAtMost
    | AvailableAtLeast
    | ExecutedAtLeast

  datatype Precondition = Precondition(kind: PreconditionKind, subject: Subject, value: U64)

  datatype EffectKind =
    | SetLink
    | SetNode
    | ServiceDelta
    | MarkRestored
    | SetService
    | SetAvailable

  datatype Effect = Effect(kind: EffectKind, subject: Subject, value: I64)

  datatype ResourceUse = ResourceUse(resource: U64, units: U32)

  datatype ActionDependency = ActionDependency(predecessor: U64, minOccurrences: U32)

  datatype ActionKind = Reroute | Replace | Restart | Drain | Isolate | Restore | Degrade

  datatype Reversibility = Reversible | Irreversible

  datatype AuthorityDomain = FabricStateDomain | RecoveryAdmission | ResourceLease | PolicyDomain | EvidenceIngest

  datatype AuthorityLevel =
    | NoAuthority
    | Observation
    | Eligibility
    | Recommendation
    | Authorization
    | Acknowledgement
    | VerifiedEffect

  datatype ActionSpec = ActionSpec(
    id: U64,
    name: seq<U8>,
    kind: ActionKind,
    reversibility: Reversibility,
    compensation: U64,
    blastRadius: U32,
    disruption: U32,
    cost: U64,
    duration: U64,
    maxOccurrences: U32,
    requiredDomain: AuthorityDomain,
    requiredLevel: AuthorityLevel,
    preconditions: seq<Precondition>,
    effects: seq<Effect>,
    uses: seq<ResourceUse>,
    dependencies: seq<ActionDependency>,
    groups: seq<U64>)

  datatype GoalKind = ServiceGoal | LinkGoal | NodeGoal | RestoredGoal

  datatype GoalSpec = GoalSpec(kind: GoalKind, subject: Subject, value: U64, weight: U32)

  datatype ExclusionGroup = ExclusionGroup(id: U64, maxSelected: U32)

  datatype FabricDefinition = FabricDefinition(
    nodes: seq<NodeSpec>,
    links: seq<LinkSpec>,
    services: seq<ServiceSpec>,
    resources: seq<ResourceSpec>,
    actions: seq<ActionSpec>,
    goals: seq<GoalSpec>,
    groups: seq<ExclusionGroup>)

  datatype PlanPolicy = PlanPolicy(
    allowIrreversible: bool,
    requireCurrentAuthority: bool,
    maxPlanSteps: U64,
    maxNodesExpanded: U64,
    maxGeneratedStates: U64,
    maxFrontierEntries: U64,
    budgetScale: U32)

  // All sequences run parallel to the ordered definition; a false known mark means the
  // value next to it is unknown, never that it is false or zero.
  datatype FabricState = FabricState(
    nodeUp: seq<bool>,
    linkUp: seq<bool>,
    restored: seq<bool>,
    available: seq<U32>,
    reachable: seq<U32>,
    occurrences: seq<U32>,
    nodeKnown: seq<bool>,
    linkKnown: seq<bool>,
    resourceKnown: seq<bool>,
    serviceKnown: seq<bool>,
    tick: U64)

  // The lengths of the ten parallel sequences of a state.
  datatype Shape = Shape(
    nodeUp: nat, nodeKnown: nat, linkUp: nat, linkKnown: nat, restored: nat, available: nat,
    resourceKnown: nat, reachable: nat, serviceKnown: nat, occurrences: nat)

  function ShapeOf(s: FabricState): Shape {
    Shape(|s.nodeUp|, |s.nodeKnown|, |s.linkUp|, |s.linkKnown|, |s.restored|, |s.available|,
          |s.resourceKnown|, |s.reachable|, |s.serviceKnown|, |s.occurrences|)
  }

  function ShapeFor(def: FabricDefinition): Shape {
    Shape(|def.nodes|, |def.nodes|, |def.links|, |def.links|, |def.resources|, |def.resources|,
          |def.resources|, |def.services|, |def.services|, |def.actions|)
  }

  predicate Shaped(def: FabricDefinition, s: FabricState) {
    ShapeOf(s) == ShapeFor(def)
  }

  // ---- Identity lookup ------------------------------------------------------

  function NodeIds(def: FabricDefinition): (ids: seq<U64>)
    ensures |ids| == |def.nodes| && forall i :: 0 <= i < |ids| ==> ids[i] == def.nodes[i].id
  {
    seq(|def.nodes|, i requires 0 <= i < |def.nodes| => def.nodes[i].id)
  }

  function LinkIds(def: FabricDefinition): (ids: seq<U64>)
    ensures |ids| == |def.links| && forall i :: 0 <= i < |ids| ==> ids[i] == def.links[i].id
  {
    seq(|def.links|, i requires 0 <= i < |def.links| => def.links[i].id)
  }

  function ServiceIds(def: FabricDefinition): (ids: seq<U64>)
    ensures |ids| == |def.services| && forall i :: 0 <= i < |ids| ==> ids[i] == def.services[i].id
  {
    seq(|def.services|, i requires 0 <= i < |def.services| => def.services[i].id)
  }

  function ResourceIds(def: FabricDefinition): (ids: seq<U64>)
    ensures |ids| == |def.resources| && forall i :: 0 <= i < |ids| ==> ids[i] == def.resources[i].id
  {
    seq(|def.resources|, i requires 0 <= i < |def.resources| => def.resources[i].id)
  }

  function ActionIds(def: FabricDefinition): (ids: seq<U64>)
    ensures |ids| == |def.actions| && forall i :: 0 <= i < |ids| ==> ids[i] == def.actions[i].id
  {
    seq(|def.actions|, i requires 0 <= i < |def.actions| => def.actions[i].id)
  }

  function GroupIds(def: FabricDefinition): (ids: seq<U64>)
    ensures |ids| == |def.groups| && forall i :: 0 <= i < |ids| ==> ids[i] == def.groups[i].id
  {
    seq(|def.groups|, i requires 0 <= i < |def.groups| => def.groups[i].id)
  }

  /** Position of the first occurrence of an identity. */
  function Find(ids: seq<U64>, id: U64): (r: Option<nat>)
    ensures r.Some? ==> r.value < |ids| && ids[r.value] == id && id !in ids[..r.value]
    ensures r.None? <==> id !in ids
  {
    if |ids| == 0 then None
    else if ids[0] == id then Some(0)
    else
      match Find(ids[1..], id)
      case None => None
      case Some(i) =>
        assert ids[..i + 1] == [ids[0]] + ids[1..][..i];
        Some(i + 1)
  }

  predicate Distinct(ids: seq<U64>) {
    forall i, j :: 0 <= i < j < |ids| ==> ids[i] != ids[j]
  }

  predicate StrictlyIncreasing(ids: seq<U64>) {
    forall i, j :: 0 <= i < j < |ids| ==> ids[i] < ids[j]
  }

  lemma FindUnique(ids: seq<U64>, i: nat)
    requires Distinct(ids) && i < |ids|
    ensures Find(ids, ids[i]) == Some(i)
  {
    var r := Find(ids, ids[i]);
    assert r.Some?;
    assert ids[r.value] == ids[i];
  }

  /** The binary search the planner indexes with agrees with a linear lookup. */
  method IndexOf(ids: seq<U64>, id: U64) returns (r: Option<nat>)
    requires StrictlyIncreasing(ids)
    ensures r == Find(ids, id)
  {
    var low, high := 0, |ids|;
    while low < high
      invariant 0 <= low <= high <= |ids|
      invariant forall k :: 0 <= k < low ==> ids[k] < id
      invariant forall k :: high <= k < |ids| ==> ids[k] >= id
    {
      var mid := (low + high) / 2;
      if ids[mid] < id {
        low := mid + 1;
      } else {
        high := mid;
      }
    }
    if low == |ids| || ids[low] != id {
      assert id !in ids;
      return None;
    }
    FindUnique(ids, low);
    return Some(low);
  }

  /** The identity tables of the validator and of the reference solver. */
  method BuildTable(ids: seq<U64>) returns (table: map<U64, nat>)
    requires Distinct(ids)
    ensures forall id: U64 :: (id in table <==> Find(ids, id).Some?)
                              && (id in table ==> Find(ids, id) == Some(table[id]))
  {
    table := map[];
    for i := 0 to |ids|
      invariant forall id: U64 :: id in table <==> id in ids[..i]
      invariant forall id: U64 :: id in table ==> table[id] < i && ids[table[id]] == id
    {
      assert ids[..i + 1] == ids[..i] + [ids[i]];
      table := table[ids[i] := i];
    }
    assert ids[..|ids|] == ids;
    forall id: U64 | id in table
      ensures Find(ids, id) == Some(table[id])
    {
      FindUnique(ids, table[id]);
    }
  }

  function NodeIndex(def: FabricDefinition, id: U64): (r: Option<nat>)
    ensures r.Some? ==> r.value < |def.nodes| && def.nodes[r.value].id == id
  {
    Find(NodeIds(def), id)
  }

  function LinkIndex(def: FabricDefinition, id: U64): (r: Option<nat>)
    ensures r.Some? ==> r.value < |def.links| && def.links[r.value].id == id
  {
    Find(LinkIds(def), id)
  }

  function ServiceIndex(def: FabricDefinition, id: U64): (r: Option<nat>)
    ensures r.Some? ==> r.value < |def.services| && def.services[r.value].id == id
  {
    Find(ServiceIds(def), id)
  }

  function ResourceIndex(def: FabricDefinition, id: U64): (r: Option<nat>)
    ensures r.Some? ==> r.value < |def.resources| && def.resources[r.value].id == id
  {
    Find(ResourceIds(def), id)
  }

  function ActionIndex(def: FabricDefinition, id: U64): (r: Option<nat>)
    ensures r.Some? ==> r.value < |def.actions| && def.actions[r.value].id == id
  {
    Find(ActionIds(def), id)
  }

  function GroupIndex(def: FabricDefinition, id: U64): (r: Option<nat>)
    ensures r.Some? ==> r.value < |def.groups| && def.groups[r.value].id == id
  {
    Find(GroupIds(def), id)
  }

  function SubjectIndex(def: FabricDefinition, subject: Subject): Option<nat> {
    match subject.kind
    case NodeSubject => NodeIndex(def, subject.id)
    case LinkSubject => LinkIndex(def, subject.id)
    case ServiceSubject => ServiceIndex(def, subject.id)
    case ResourceSubject => ResourceIndex(def, subject.id)
    case ActionSubject => ActionIndex(def, subject.id)
    case NoSubject => None
    case FabricSubject => None
  }

  function PreconditionSubject(kind: PreconditionKind): SubjectKind {
    match kind
    case LinkIsUp => LinkSubject
    case LinkIsDown => LinkSubject
    case NodeIsUp => NodeSubject
    case NodeIsDown => NodeSubject
    case ServiceAtLeast => ServiceSubject
    case ServiceAtMost => ServiceSubject
    case AvailableAtLeast => ResourceSubject
    case ExecutedAtLeast => ActionSubject
  }

  function EffectSubject(kind: EffectKind): SubjectKind {
    match kind
    case SetLink => LinkSubject
    case SetNode => NodeSubject
    case ServiceDelta => ServiceSubject
    case SetService => ServiceSubject
    case MarkRestored => ResourceSubject
    case SetAvailable => ResourceSubject
  }

  function GoalSubject(kind: GoalKind): SubjectKind {
    match kind
    case ServiceGoal => ServiceSubject
    case LinkGoal => LinkSubject
    case NodeGoal => NodeSubject
    case RestoredGoal => ResourceSubject
  }
}
