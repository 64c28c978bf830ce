/** The canonical formats of planning requests and of everything inside them. */
module Formats {
  import opened Ints
  import opened Canonical
  import opened Codecs
  import opened Domain
  import opened Definition
  import opened Evidence
  import opened Requests

  // ---- Named values ---------------------------------------------------------

  function SubjectCode(k: SubjectKind): U8 {
    match k
    case NoSubject => 0
    case NodeSubject => 1
    case LinkSubject => 2
    case ServiceSubject => 3
    case ResourceSubject => 4
    case ActionSubject => 5
    case FabricSubject => 6
  }

  function SubjectNamed(n: U8): Option<SubjectKind> {
    match n
    case 0 => Some(NoSubject)
    case 1 => Some(NodeSubject)
    case 2 => Some(LinkSubject)
    case 3 => Some(ServiceSubject)
    case 4 => Some(ResourceSubject)
    case 5 => Some(ActionSubject)
    case 6 => Some(FabricSubject)
    case _ => None
  }

  function ResourceCode(k: ResourceKind): U8 {
    match k case Consumable => 0 case Reusable => 1
  }

  function ResourceNamed(n: U8): Option<ResourceKind> {
    match n case 0 => Some(Consumable) case 1 => Some(Reusable) case _ => None
  }

  function PreconditionCode(k: PreconditionKind): U8 {
    match k
    case LinkIsUp => 0
    case LinkIsDown => 1
    case NodeIsUp => 2
    case NodeIsDown => 3
    case ServiceAtLeast => 4
    case ServiceAtMost => 5
    case AvailableAtLeast => 6
    case ExecutedAtLeast => 7
  }

  function PreconditionNamed(n: U8): Option<PreconditionKind> {
    match n
    case 0 => Some(LinkIsUp)
    case 1 => Some(LinkIsDown)
    case 2 => Some(NodeIsUp)
    case 3 => Some(NodeIsDown)
    case 4 => Some(ServiceAtLeast)
    case 5 => Some(ServiceAtMost)
    case 6 => Some(AvailableAtLeast)
    case 7 => Some(ExecutedAtLeast)
    case _ => None
  }

  function EffectCode(k: EffectKind): U8 {
    match k
    case SetLink => 0
    case SetNode => 1
    case ServiceDelta => 2
    case MarkRestored => 3
    case SetService => 4
    case SetAvailable => 5
  }

  function EffectNamed(n: U8): Option<EffectKind> {
    match n
    case 0 => Some(SetLink)
    case 1 => Some(SetNode)
    case 2 => Some(ServiceDelta)
    case 3 => Some(MarkRestored)
    case 4 => Some(SetService)
    case 5 => Some(SetAvailable)
    case _ => None
  }

  function ActionCode(k: ActionKind): U8 {
    match k
    case Reroute => 0
    case Replace => 1
    case Restart => 2
    case Drain => 3
    case Isolate => 4
    case Restore => 5
    case Degrade => 6
  }

  function ActionNamed(n: U8): Option<ActionKind> {
    match n
    case 0 => Some(Reroute)
    case 1 => Some(Replace)
    case 2 => Some(Restart)
    case 3 => Some(Drain)
    case 4 => Some(Isolate)
    case 5 => Some(Restore)
    case 6 => Some(Degrade)
    case _ => None
  }

  function ReversibilityCode(r: Reversibility): U8 {
    match r case Reversible => 0 case Irreversible => 1
  }

  function ReversibilityNamed(n: U8): Option<Reversibility> {
    match n case 0 => Some(Reversible) case 1 => Some(Irreversible) case _ => None
  }

  function DomainCode(d: AuthorityDomain): U8 {
    match d
    case FabricStateDomain => 0
    case RecoveryAdmission => 1
    case ResourceLease => 2
    case PolicyDomain => 3
    case EvidenceIngest => 4
  }

  function DomainNamed(n: U8): Option<AuthorityDomain> {
    match n
    case 0 => Some(FabricStateDomain)
    case 1 => Some(RecoveryAdmission)
    case 2 => Some(ResourceLease)
    case 3 => Some(PolicyDomain)
    case 4 => Some(EvidenceIngest)
    case _ => None
  }

  function LevelCode(l: AuthorityLevel): U8 {
    match l
    case NoAuthority => 0
    case Observation => 1
    case Eligibility => 2
    case Recommendation => 3
    case Authorization => 4
    case Acknowledgement => 5
    case VerifiedEffect => 6
  }

  function LevelNamed(n: U8): Option<AuthorityLevel> {
    match n
    case 0 => Some(NoAuthority)
    case 1 => Some(Observation)
    case 2 => Some(Eligibility)
    case 3 => Some(Recommendation)
    case 4 => Some(Authorization)
    case 5 => Some(Acknowledgement)
    case 6 => Some(VerifiedEffect)
    case _ => None
  }

  function GoalCode(k: GoalKind): U8 {
    match k
    case ServiceGoal => 0
    case LinkGoal => 1
    case NodeGoal => 2
    case RestoredGoal => 3
  }

  function GoalNamed(n: U8): Option<GoalKind> {
    match n
    case 0 => Some(ServiceGoal)
    case 1 => Some(LinkGoal)
    case 2 => Some(NodeGoal)
    case 3 => Some(RestoredGoal)
    case _ => None
  }

  function FactCode(k: EvidenceKind): U8 {
    match k
    case LinkFact => 0
    case NodeFact => 1
    case ServiceFact => 2
    case AvailableFact => 3
    case RestoredFact => 4
  }

  function FactNamed(n: U8): Option<EvidenceKind> {
    match n
    case 0 => Some(LinkFact)
    case 1 => Some(NodeFact)
    case 2 => Some(ServiceFact)
    case 3 => Some(AvailableFact)
    case 4 => Some(RestoredFact)
    case _ => None
  }

  function TrustCode(t: TrustLabel): U8 {
    match t
    case UnknownLabel => 0
    case RealLabel => 1
    case SyntheticLabel => 2
    case UnsupportedLabel => 3
  }

  function TrustNamed(n: U8): Option<TrustLabel> {
    match n
    case 0 => Some(UnknownLabel)
    case 1 => Some(RealLabel)
    case 2 => Some(SyntheticLabel)
    case 3 => Some(UnsupportedLabel)
    case _ => None
  }

  const SUBJECT_KIND: Codec<SubjectKind> := Named(SubjectCode, SubjectNamed)
  const RESOURCE_KIND: Codec<ResourceKind> := Named(ResourceCode, ResourceNamed)
  const PRECONDITION_KIND: Codec<PreconditionKind> := Named(PreconditionCode, PreconditionNamed)
  const EFFECT_KIND: Codec<EffectKind> := Named(EffectCode, EffectNamed)
  const ACTION_KIND: Codec<ActionKind> := Named(ActionCode, ActionNamed)
  const REVERSIBILITY: Codec<Reversibility> := Named(ReversibilityCode, ReversibilityNamed)
  const DOMAIN: Codec<AuthorityDomain> := Named(DomainCode, DomainNamed)
  const LEVEL: Codec<AuthorityLevel> := Named(LevelCode, LevelNamed)
  const GOAL_KIND: Codec<GoalKind> := Named(GoalCode, GoalNamed)
  const FACT_KIND: Codec<EvidenceKind> := Named(FactCode, FactNamed)
  const TRUST: Codec<TrustLabel> := Named(TrustCode, TrustNamed)

  lemma SubjectKindExact()
    ensures Exact(SUBJECT_KIND)
  {
    hide Exact;
    NamedExact(SubjectCode, SubjectNamed);
  }

  lemma ResourceKindExact()
    ensures Exact(RESOURCE_KIND)
  {
    hide Exact;
    NamedExact(ResourceCode, ResourceNamed);
  }

  lemma PreconditionKindExact()
    ensures Exact(PRECONDITION_KIND)
  {
    hide Exact;
    NamedExact(PreconditionCode, PreconditionNamed);
  }

  lemma EffectKindExact()
    ensures Exact(EFFECT_KIND)
  {
    hide Exact;
    NamedExact(EffectCode, EffectNamed);
  }

  lemma ActionKindExact()
    ensures Exact(ACTION_KIND)
  {
    hide Exact;
    NamedExact(ActionCode, ActionNamed);
  }

  lemma ReversibilityExact()
    ensures Exact(REVERSIBILITY)
  {
    hide Exact;
    NamedExact(ReversibilityCode, ReversibilityNamed);
  }

  lemma DomainExact()
    ensures Exact(DOMAIN)
  {
    hide Exact;
    NamedExact(DomainCode, DomainNamed);
  }

  lemma LevelExact()
    ensures Exact(LEVEL)
  {
    hide Exact;
    NamedExact(LevelCode, LevelNamed);
  }

  lemma GoalKindExact()
    ensures Exact(GOAL_KIND)
  {
    hide Exact;
    NamedExact(GoalCode, GoalNamed);
  }

  lemma FactKindExact()
    ensures Exact(FACT_KIND)
  {
    hide Exact;
    NamedExact(FactCode, FactNamed);
  }

  lemma TrustExact()
    ensures Exact(TRUST)
  {
    hide Exact;
    NamedExact(TrustCode, TrustNamed);
  }

  lemma KindsExact()
    ensures Exact(SUBJECT_KIND) && Exact(RESOURCE_KIND) && Exact(PRECONDITION_KIND) && Exact(EFFECT_KIND)
    ensures Exact(ACTION_KIND) && Exact(REVERSIBILITY) && Exact(DOMAIN) && Exact(LEVEL)
    ensures Exact(GOAL_KIND) && Exact(FACT_KIND) && Exact(TRUST)
  {
    hide Exact, Named;
    SubjectKindExact();
    ResourceKindExact();
    PreconditionKindExact();
    EffectKindExact();
    ActionKindExact();
    ReversibilityExact();
    DomainExact();
    LevelExact();
    GoalKindExact();
    FactKindExact();
    TrustExact();
  }

  // ---- Small records --------------------------------------------------------

  function AsSigned(x: U64): I64 {
    if x >= 0x8000_0000_0000_0000 then x - 0x1_0000_0000_0000_0000 else x
  }

  const I64_CODEC: Codec<I64> := As(U64_CODEC, AsSigned, AsUnsigned)

  function MakeSubject(p: (SubjectKind, U64)): Subject {
    Subject(p.0, p.1)
  }

  function SubjectParts(s: Subject): (SubjectKind, U64) {
    (s.kind, s.id)
  }

  predicate Addressable(s: Subject) {
    s.kind != NoSubject
  }

  // A subject without a kind is not addressable and is refused.
  const SUBJECT: Codec<Subject> := Only(As(Pair(SUBJECT_KIND, U64_CODEC), MakeSubject, SubjectParts), Addressable)

  lemma SubjectExact()
    ensures Exact(SUBJECT) && Exact(I64_CODEC)
  {
    hide Exact;
    KindsExact();
    U64Exact();
    PairExact(SUBJECT_KIND, U64_CODEC);
    AsExact(Pair(SUBJECT_KIND, U64_CODEC), MakeSubject, SubjectParts);
    OnlyExact(As(Pair(SUBJECT_KIND, U64_CODEC), MakeSubject, SubjectParts), Addressable);
    AsExact(U64_CODEC, AsSigned, AsUnsigned);
  }

  function MakeNode(p: (U64, bool)): NodeSpec {
    NodeSpec(p.0, p.1)
  }

  function NodeParts(n: NodeSpec): (U64, bool) {
    (n.id, n.isProtected)
  }

  const NODE: Codec<NodeSpec> := As(Pair(U64_CODEC, FLAG_CODEC), MakeNode, NodeParts)

  function MakeLink(p: (U64, (U64, U64))): LinkSpec {
    LinkSpec(p.0, p.1.0, p.1.1)
  }

  function LinkParts(l: LinkSpec): (U64, (U64, U64)) {
    (l.id, (l.endpointA, l.endpointB))
  }

  const LINK: Codec<LinkSpec> := As(Pair(U64_CODEC, Pair(U64_CODEC, U64_CODEC)), MakeLink, LinkParts)

  function MakeService(p: (U64, (U32, (U32, (U32, bool))))): ServiceSpec {
    ServiceSpec(p.0, p.1.0, p.1.1.0, p.1.1.1.0, p.1.1.1.1)
  }

  function ServiceParts(s: ServiceSpec): (U64, (U32, (U32, (U32, bool)))) {
    (s.id, (s.required, (s.target, (s.maximum, s.isProtected))))
  }

  const SERVICE: Codec<ServiceSpec> :=
    As(Pair(U64_CODEC, Pair(U32_CODEC, Pair(U32_CODEC, Pair(U32_CODEC, FLAG_CODEC)))), MakeService, ServiceParts)

  function MakeResource(p: (U64, (ResourceKind, (U32, U32)))): ResourceSpec {
    ResourceSpec(p.0, p.1.0, p.1.1.0, p.1.1.1)
  }

  function ResourceParts(r: ResourceSpec): (U64, (ResourceKind, (U32, U32))) {
    (r.id, (r.kind, (r.capacity, r.holdSteps)))
  }

  const RESOURCE: Codec<ResourceSpec> :=
    As(Pair(U64_CODEC, Pair(RESOURCE_KIND, Pair(U32_CODEC, U32_CODEC))), MakeResource, ResourceParts)

  function MakePrecondition(p: (PreconditionKind, (Subject, U64))): Precondition {
    Precondition(p.0, p.1.0, p.1.1)
  }

  function PreconditionParts(p: Precondition): (PreconditionKind, (Subject, U64)) {
    (p.kind, (p.subject, p.value))
  }

  const PRECONDITION: Codec<Precondition> :=
    As(Pair(PRECONDITION_KIND, Pair(SUBJECT, U64_CODEC)), MakePrecondition, PreconditionParts)

  function MakeEffect(p: (EffectKind, (Subject, I64))): Effect {
    Effect(p.0, p.1.0, p.1.1)
  }

  function EffectParts(e: Effect): (EffectKind, (Subject, I64)) {
    (e.kind, (e.subject, e.value))
  }

  const EFFECT: Codec<Effect> := As(Pair(EFFECT_KIND, Pair(SUBJECT, I64_CODEC)), MakeEffect, EffectParts)

  function MakeUse(p: (U64, U32)): ResourceUse {
    ResourceUse(p.0, p.1)
  }

  function UseParts(u: ResourceUse): (U64, U32) {
    (u.resource, u.units)
  }

  const USE: Codec<ResourceUse> := As(Pair(U64_CODEC, U32_CODEC), MakeUse, UseParts)

  function MakeDependency(p: (U64, U32)): ActionDependency {
    ActionDependency(p.0, p.1)
  }

  function DependencyParts(d: ActionDependency): (U64, U32) {
    (d.predecessor, d.minOccurrences)
  }

  const DEPENDENCY: Codec<ActionDependency> := As(Pair(U64_CODEC, U32_CODEC), MakeDependency, DependencyParts)

  function MakeGoal(p: (GoalKind, (Subject, (U64, U32)))): GoalSpec {
    GoalSpec(p.0, p.1.0, p.1.1.0, p.1.1.1)
  }

  function GoalParts(g: GoalSpec): (GoalKind, (Subject, (U64, U32))) {
    (g.kind, (g.subject, (g.value, g.weight)))
  }

  const GOAL: Codec<GoalSpec> := As(Pair(GOAL_KIND, Pair(SUBJECT, Pair(U64_CODEC, U32_CODEC))), MakeGoal, GoalParts)

  function MakeGroup(p: (U64, U32)): ExclusionGroup {
    ExclusionGroup(p.0, p.1)
  }

  function GroupParts(g: ExclusionGroup): (U64, U32) {
    (g.id, g.maxSelected)
  }

  const GROUP: Codec<ExclusionGroup> := As(Pair(U64_CODEC, U32_CODEC), MakeGroup, GroupParts)

  lemma ElementsExact()
    ensures Exact(NODE) && Exact(LINK) && Exact(SERVICE) && Exact(RESOURCE)
  {
    hide Exact;
    KindsExact();
    U64Exact();
    U32Exact();
    FlagExact();
    PairExact(U64_CODEC, FLAG_CODEC);
    AsExact(Pair(U64_CODEC, FLAG_CODEC), MakeNode, NodeParts);
    PairExact(U64_CODEC, U64_CODEC);
    PairExact(U64_CODEC, Pair(U64_CODEC, U64_CODEC));
    AsExact(Pair(U64_CODEC, Pair(U64_CODEC, U64_CODEC)), MakeLink, LinkParts);
    var reach := Pair(U32_CODEC, FLAG_CODEC);
    PairExact(U32_CODEC, FLAG_CODEC);
    PairExact(U32_CODEC, reach);
    PairExact(U32_CODEC, Pair(U32_CODEC, reach));
    PairExact(U64_CODEC, Pair(U32_CODEC, Pair(U32_CODEC, reach)));
    AsExact(Pair(U64_CODEC, Pair(U32_CODEC, Pair(U32_CODEC, reach))), MakeService, ServiceParts);
    PairExact(U32_CODEC, U32_CODEC);
    PairExact(RESOURCE_KIND, Pair(U32_CODEC, U32_CODEC));
    PairExact(U64_CODEC, Pair(RESOURCE_KIND, Pair(U32_CODEC, U32_CODEC)));
    AsExact(Pair(U64_CODEC, Pair(RESOURCE_KIND, Pair(U32_CODEC, U32_CODEC))), MakeResource, ResourceParts);
  }

  lemma PartsExact()
    ensures Exact(PRECONDITION) && Exact(EFFECT) && Exact(USE) && Exact(DEPENDENCY) && Exact(GOAL) && Exact(GROUP)
  {
    hide Exact;
    KindsExact();
    SubjectExact();
    U64Exact();
    U32Exact();
    PairExact(SUBJECT, U64_CODEC);
    PairExact(PRECONDITION_KIND, Pair(SUBJECT, U64_CODEC));
    AsExact(Pair(PRECONDITION_KIND, Pair(SUBJECT, U64_CODEC)), MakePrecondition, PreconditionParts);
    PairExact(SUBJECT, I64_CODEC);
    PairExact(EFFECT_KIND, Pair(SUBJECT, I64_CODEC));
    AsExact(Pair(EFFECT_KIND, Pair(SUBJECT, I64_CODEC)), MakeEffect, EffectParts);
    PairExact(U64_CODEC, U32_CODEC);
    AsExact(Pair(U64_CODEC, U32_CODEC), MakeUse, UseParts);
    AsExact(Pair(U64_CODEC, U32_CODEC), MakeDependency, DependencyParts);
    AsExact(Pair(U64_CODEC, U32_CODEC), MakeGroup, GroupParts);
    PairExact(SUBJECT, Pair(U64_CODEC, U32_CODEC));
    PairExact(GOAL_KIND, Pair(SUBJECT, Pair(U64_CODEC, U32_CODEC)));
    AsExact(Pair(GOAL_KIND, Pair(SUBJECT, Pair(U64_CODEC, U32_CODEC))), MakeGoal, GoalParts);
  }

  // ---- Actions and definitions ----------------------------------------------

  // The fields of an action before its lists.
  type ActionFields = (U64, (Bytes, (ActionKind, (Reversibility, (U64, (U32, (U32, (U64, (U64, (U32,
                        (AuthorityDomain, AuthorityLevel)))))))))))

  type ActionLists = (seq<Precondition>, (seq<Effect>, (seq<ResourceUse>, (seq<ActionDependency>, seq<U64>))))

  function Costs(): Codec<(U32, (U32, (U64, (U64, (U32, (AuthorityDomain, AuthorityLevel))))))> {
    Pair(U32_CODEC, Pair(U32_CODEC, Pair(U64_CODEC, Pair(U64_CODEC, Pair(U32_CODEC, Pair(DOMAIN, LEVEL))))))
  }

  function FieldsFormat(limits: ModelLimits): Codec<ActionFields> {
    Pair(U64_CODEC,
         Pair(Text(limits.maxStringLength), Pair(ACTION_KIND, Pair(REVERSIBILITY, Pair(U64_CODEC, Costs())))))
  }

  function ListsFormat(limits: ModelLimits): Codec<ActionLists> {
    Pair(ListOf(PRECONDITION, limits.maxPreconditions),
         Pair(ListOf(EFFECT, limits.maxEffects),
              Pair(ListOf(USE, limits.maxResources),
                   Pair(ListOf(DEPENDENCY, limits.maxActions), ListOf(U64_CODEC, limits.maxGroups)))))
  }

  function MakeAction(p: (ActionFields, ActionLists)): ActionSpec {
    var (f, l) := p;
    var c := f.1.1.1.1.1;
    ActionSpec(f.0, f.1.0, f.1.1.0, f.1.1.1.0, f.1.1.1.1.0, c.0, c.1.0, c.1.1.0, c.1.1.1.0, c.1.1.1.1.0,
               c.1.1.1.1.1.0, c.1.1.1.1.1.1, l.0, l.1.0, l.1.1.0, l.1.1.1.0, l.1.1.1.1)
  }

  function ActionParts(a: ActionSpec): (ActionFields, ActionLists) {
    ((a.id, (a.name, (a.kind, (a.reversibility, (a.compensation, (a.blastRadius, (a.disruption, (a.cost,
       (a.duration, (a.maxOccurrences, (a.requiredDomain, a.requiredLevel))))))))))),
     (a.preconditions, (a.effects, (a.uses, (a.dependencies, a.groups)))))
  }

  function ActionFormat(limits: ModelLimits): Codec<ActionSpec> {
    As(Pair(FieldsFormat(limits), ListsFormat(limits)), MakeAction, ActionParts)
  }

  lemma FieldsExact(limits: ModelLimits)
    ensures Exact(FieldsFormat(limits))
  {
    hide Exact;
    KindsExact();
    U64Exact();
    U32Exact();
    TextExact(limits.maxStringLength);
    PairExact(DOMAIN, LEVEL);
    PairExact(U32_CODEC, Pair(DOMAIN, LEVEL));
    PairExact(U64_CODEC, Pair(U32_CODEC, Pair(DOMAIN, LEVEL)));
    var ticks := Pair(U64_CODEC, Pair(U64_CODEC, Pair(U32_CODEC, Pair(DOMAIN, LEVEL))));
    PairExact(U64_CODEC, Pair(U64_CODEC, Pair(U32_CODEC, Pair(DOMAIN, LEVEL))));
    PairExact(U32_CODEC, ticks);
    PairExact(U32_CODEC, Pair(U32_CODEC, ticks));
    var costs := Costs();
    PairExact(U64_CODEC, costs);
    PairExact(REVERSIBILITY, Pair(U64_CODEC, costs));
    PairExact(ACTION_KIND, Pair(REVERSIBILITY, Pair(U64_CODEC, costs)));
    var named := Pair(ACTION_KIND, Pair(REVERSIBILITY, Pair(U64_CODEC, costs)));
    PairExact(Text(limits.maxStringLength), named);
    PairExact(U64_CODEC, Pair(Text(limits.maxStringLength), named));
  }

  lemma ListsExact(limits: ModelLimits)
    ensures Exact(ListsFormat(limits))
  {
    hide Exact;
    PartsExact();
    U64Exact();
    ListExact(PRECONDITION, limits.maxPreconditions);
    ListExact(EFFECT, limits.maxEffects);
    ListExact(USE, limits.maxResources);
    ListExact(DEPENDENCY, limits.maxActions);
    ListExact(U64_CODEC, limits.maxGroups);
    var last := Pair(ListOf(DEPENDENCY, limits.maxActions), ListOf(U64_CODEC, limits.maxGroups));
    PairExact(ListOf(DEPENDENCY, limits.maxActions), ListOf(U64_CODEC, limits.maxGroups));
    PairExact(ListOf(USE, limits.maxResources), last);
    PairExact(ListOf(EFFECT, limits.maxEffects), Pair(ListOf(USE, limits.maxResources), last));
    PairExact(ListOf(PRECONDITION, limits.maxPreconditions),
              Pair(ListOf(EFFECT, limits.maxEffects), Pair(ListOf(USE, limits.maxResources), last)));
  }

  lemma ActionCorresponds()
    ensures Corresponds(MakeAction, ActionParts)
  {
  }

  lemma ActionExact(limits: ModelLimits)
    ensures Exact(ActionFormat(limits))
  {
    hide Exact, FieldsFormat, ListsFormat, Corresponds;
    FieldsExact(limits);
    ListsExact(limits);
    ActionCorresponds();
    PairExact(FieldsFormat(limits), ListsFormat(limits));
    AsExact(Pair(FieldsFormat(limits), ListsFormat(limits)), MakeAction, ActionParts);
  }

  type DefinitionParts = (seq<NodeSpec>, (seq<LinkSpec>, (seq<ServiceSpec>, (seq<ResourceSpec>, (seq<ActionSpec>,
                           (seq<GoalSpec>, seq<ExclusionGroup>))))))

  function MakeDefinition(p: DefinitionParts): FabricDefinition {
    FabricDefinition(p.0, p.1.0, p.1.1.0, p.1.1.1.0, p.1.1.1.1.0, p.1.1.1.1.1.0, p.1.1.1.1.1.1)
  }

  function PartsOfDefinition(d: FabricDefinition): DefinitionParts {
    (d.nodes, (d.links, (d.services, (d.resources, (d.actions, (d.goals, d.groups))))))
  }

  function PartsFormat(limits: ModelLimits): Codec<DefinitionParts> {
    Pair(ListOf(NODE, limits.maxNodes),
         Pair(ListOf(LINK, limits.maxLinks),
              Pair(ListOf(SERVICE, limits.maxServices),
                   Pair(ListOf(RESOURCE, limits.maxResources),
                        Pair(ListOf(ActionFormat(limits), limits.maxActions),
                             Pair(ListOf(GOAL, limits.maxGoals), ListOf(GROUP, limits.maxGroups)))))))
  }

  function DefinitionFormat(limits: ModelLimits): Codec<FabricDefinition> {
    As(PartsFormat(limits), MakeDefinition, PartsOfDefinition)
  }

  lemma DefinitionExact(limits: ModelLimits)
    ensures Exact(DefinitionFormat(limits))
  {
    hide Exact, ActionFormat;
    ElementsExact();
    PartsExact();
    ActionExact(limits);
    var actions := ListOf(ActionFormat(limits), limits.maxActions);
    ListExact(NODE, limits.maxNodes);
    ListExact(LINK, limits.maxLinks);
    ListExact(SERVICE, limits.maxServices);
    ListExact(RESOURCE, limits.maxResources);
    ListExact(ActionFormat(limits), limits.maxActions);
    ListExact(GOAL, limits.maxGoals);
    ListExact(GROUP, limits.maxGroups);
    var last := Pair(ListOf(GOAL, limits.maxGoals), ListOf(GROUP, limits.maxGroups));
    PairExact(ListOf(GOAL, limits.maxGoals), ListOf(GROUP, limits.maxGroups));
    PairExact(actions, last);
    var resources := Pair(ListOf(RESOURCE, limits.maxResources), Pair(actions, last));
    PairExact(ListOf(RESOURCE, limits.maxResources), Pair(actions, last));
    PairExact(ListOf(SERVICE, limits.maxServices), resources);
    PairExact(ListOf(LINK, limits.maxLinks), Pair(ListOf(SERVICE, limits.maxServices), resources));
    PairExact(ListOf(NODE, limits.maxNodes),
              Pair(ListOf(LINK, limits.maxLinks), Pair(ListOf(SERVICE, limits.maxServices), resources)));
    AsExact(PartsFormat(limits), MakeDefinition, PartsOfDefinition);
  }

  // ---- Evidence, authority, policy, fences ----------------------------------

  type FactParts = (U64, (EvidenceKind, (Subject, (U64, (U64, (AuthorityDomain, (U64, (TrustLabel, U64))))))))

  function MakeFact(p: FactParts): EvidenceFact {
    EvidenceFact(p.0, p.1.0, p.1.1.0, p.1.1.1.0, p.1.1.1.1.0, p.1.1.1.1.1.0, p.1.1.1.1.1.1.0, p.1.1.1.1.1.1.1.0,
                 p.1.1.1.1.1.1.1.1)
  }

  function PartsOfFact(f: EvidenceFact): FactParts {
    (f.id, (f.kind, (f.subject, (f.value, (f.generation, (f.sourceDomain, (f.source, (f.trust, f.sequence))))))))
  }

  const FACT: Codec<EvidenceFact> :=
    As(Pair(U64_CODEC,
            Pair(FACT_KIND,
                 Pair(SUBJECT,
                      Pair(U64_CODEC,
                           Pair(U64_CODEC, Pair(DOMAIN, Pair(U64_CODEC, Pair(TRUST, U64_CODEC)))))))),
       MakeFact, PartsOfFact)

  lemma FactExact()
    ensures Exact(FACT)
  {
    hide Exact;
    KindsExact();
    SubjectExact();
    U64Exact();
    PairExact(TRUST, U64_CODEC);
    PairExact(U64_CODEC, Pair(TRUST, U64_CODEC));
    var origin := Pair(DOMAIN, Pair(U64_CODEC, Pair(TRUST, U64_CODEC)));
    PairExact(DOMAIN, Pair(U64_CODEC, Pair(TRUST, U64_CODEC)));
    PairExact(U64_CODEC, origin);
    PairExact(U64_CODEC, Pair(U64_CODEC, origin));
    var about := Pair(SUBJECT, Pair(U64_CODEC, Pair(U64_CODEC, origin)));
    PairExact(SUBJECT, Pair(U64_CODEC, Pair(U64_CODEC, origin)));
    PairExact(FACT_KIND, about);
    PairExact(U64_CODEC, Pair(FACT_KIND, about));
    AsExact(Pair(U64_CODEC, Pair(FACT_KIND, about)), MakeFact, PartsOfFact);
  }

  function MakeBundle(p: (U64, (U64, seq<EvidenceFact>))): EvidenceBundle {
    EvidenceBundle(p.0, p.1.0, p.1.1)
  }

  function BundleParts(b: EvidenceBundle): (U64, (U64, seq<EvidenceFact>)) {
    (b.epoch, (b.boot, b.facts))
  }

  function EvidenceFormat(limits: ModelLimits): Codec<EvidenceBundle> {
    As(Pair(U64_CODEC, Pair(U64_CODEC, ListOf(FACT, limits.maxFacts))), MakeBundle, BundleParts)
  }

  function MakeBinding(p: (AuthorityDomain, (U64, (U64, (U64, AuthorityLevel))))): AuthorityBinding {
    AuthorityBinding(p.0, p.1.0, p.1.1.0, p.1.1.1.0, p.1.1.1.1)
  }

  function BindingParts(b: AuthorityBinding): (AuthorityDomain, (U64, (U64, (U64, AuthorityLevel)))) {
    (b.domain, (b.authority, (b.required, (b.granted, b.level))))
  }

  const BINDING: Codec<AuthorityBinding> :=
    As(Pair(DOMAIN, Pair(U64_CODEC, Pair(U64_CODEC, Pair(U64_CODEC, LEVEL)))), MakeBinding, BindingParts)

  function MakeVector(p: (U64, (U64, seq<AuthorityBinding>))): AuthorityVector {
    AuthorityVector(p.0, p.1.0, p.1.1)
  }

  function VectorParts(v: AuthorityVector): (U64, (U64, seq<AuthorityBinding>)) {
    (v.epoch, (v.boot, v.bindings))
  }

  function AuthorityFormat(limits: ModelLimits): Codec<AuthorityVector> {
    As(Pair(U64_CODEC, Pair(U64_CODEC, ListOf(BINDING, limits.maxBindings))), MakeVector, VectorParts)
  }

  lemma EvidenceExact(limits: ModelLimits)
    ensures Exact(EvidenceFormat(limits)) && Exact(AuthorityFormat(limits))
  {
    hide Exact;
    FactExact();
    KindsExact();
    U64Exact();
    ListExact(FACT, limits.maxFacts);
    PairExact(U64_CODEC, ListOf(FACT, limits.maxFacts));
    PairExact(U64_CODEC, Pair(U64_CODEC, ListOf(FACT, limits.maxFacts)));
    AsExact(Pair(U64_CODEC, Pair(U64_CODEC, ListOf(FACT, limits.maxFacts))), MakeBundle, BundleParts);
    PairExact(U64_CODEC, LEVEL);
    PairExact(U64_CODEC, Pair(U64_CODEC, LEVEL));
    PairExact(U64_CODEC, Pair(U64_CODEC, Pair(U64_CODEC, LEVEL)));
    PairExact(DOMAIN, Pair(U64_CODEC, Pair(U64_CODEC, Pair(U64_CODEC, LEVEL))));
    AsExact(Pair(DOMAIN, Pair(U64_CODEC, Pair(U64_CODEC, Pair(U64_CODEC, LEVEL)))), MakeBinding, BindingParts);
    ListExact(BINDING, limits.maxBindings);
    PairExact(U64_CODEC, ListOf(BINDING, limits.maxBindings));
    PairExact(U64_CODEC, Pair(U64_CODEC, ListOf(BINDING, limits.maxBindings)));
    AsExact(Pair(U64_CODEC, Pair(U64_CODEC, ListOf(BINDING, limits.maxBindings))), MakeVector, VectorParts);
  }

  type PolicyParts = (bool, (bool, (U64, (U64, (U64, (U64, U32))))))

  function MakePolicy(p: PolicyParts): PlanPolicy {
    PlanPolicy(p.0, p.1.0, p.1.1.0, p.1.1.1.0, p.1.1.1.1.0, p.1.1.1.1.1.0, p.1.1.1.1.1.1)
  }

  function PartsOfPolicy(p: PlanPolicy): PolicyParts {
    (p.allowIrreversible, (p.requireCurrentAuthority, (p.maxPlanSteps, (p.maxNodesExpanded, (p.maxGeneratedStates,
      (p.maxFrontierEntries, p.budgetScale))))))
  }

  predicate Bounding(p: PlanPolicy) {
    p.maxPlanSteps != 0 && p.maxNodesExpanded != 0 && p.maxGeneratedStates != 0 && p.maxFrontierEntries != 0
  }

  // A policy with a bound of zero is refused when read.
  const POLICY: Codec<PlanPolicy> :=
    Only(As(Pair(FLAG_CODEC,
                 Pair(FLAG_CODEC,
                      Pair(U64_CODEC, Pair(U64_CODEC, Pair(U64_CODEC, Pair(U64_CODEC, U32_CODEC)))))),
            MakePolicy, PartsOfPolicy), Bounding)

  lemma PolicyExact()
    ensures Exact(POLICY)
  {
    hide Exact;
    FlagExact();
    U64Exact();
    U32Exact();
    PairExact(U64_CODEC, U32_CODEC);
    PairExact(U64_CODEC, Pair(U64_CODEC, U32_CODEC));
    PairExact(U64_CODEC, Pair(U64_CODEC, Pair(U64_CODEC, U32_CODEC)));
    var bounds := Pair(U64_CODEC, Pair(U64_CODEC, Pair(U64_CODEC, Pair(U64_CODEC, U32_CODEC))));
    PairExact(U64_CODEC, Pair(U64_CODEC, Pair(U64_CODEC, Pair(U64_CODEC, U32_CODEC))));
    PairExact(FLAG_CODEC, bounds);
    PairExact(FLAG_CODEC, Pair(FLAG_CODEC, bounds));
    AsExact(Pair(FLAG_CODEC, Pair(FLAG_CODEC, bounds)), MakePolicy, PartsOfPolicy);
    OnlyExact(As(Pair(FLAG_CODEC, Pair(FLAG_CODEC, bounds)), MakePolicy, PartsOfPolicy), Bounding);
  }

  const REASON_LENGTH: U32 := 128

  function MakeFence(p: (U64, (U64, (AuthorityDomain, (U64, (U64, Bytes)))))): Fence {
    Fence(p.0, p.1.0, p.1.1.0, p.1.1.1.0, p.1.1.1.1.0, p.1.1.1.1.1)
  }

  function FenceParts(f: Fence): (U64, (U64, (AuthorityDomain, (U64, (U64, Bytes))))) {
    (f.epoch, (f.boot, (f.domain, (f.minimumGeneration, (f.sequence, f.reason)))))
  }

  const FENCE: Codec<Fence> :=
    As(Pair(U64_CODEC, Pair(U64_CODEC, Pair(DOMAIN, Pair(U64_CODEC, Pair(U64_CODEC, Text(REASON_LENGTH)))))),
       MakeFence, FenceParts)

  lemma FenceExact()
    ensures Exact(FENCE)
  {
    hide Exact;
    KindsExact();
    U64Exact();
    TextExact(REASON_LENGTH);
    PairExact(U64_CODEC, Text(REASON_LENGTH));
    PairExact(U64_CODEC, Pair(U64_CODEC, Text(REASON_LENGTH)));
    var tail := Pair(DOMAIN, Pair(U64_CODEC, Pair(U64_CODEC, Text(REASON_LENGTH))));
    PairExact(DOMAIN, Pair(U64_CODEC, Pair(U64_CODEC, Text(REASON_LENGTH))));
    PairExact(U64_CODEC, tail);
    PairExact(U64_CODEC, Pair(U64_CODEC, tail));
    AsExact(Pair(U64_CODEC, Pair(U64_CODEC, tail)), MakeFence, FenceParts);
  }

  // ---- The request ----------------------------------------------------------

  type RequestParts = (U64, (U64, (U64, (U64, (FabricDefinition, (EvidenceBundle, (AuthorityVector, (PlanPolicy,
                        seq<Fence>))))))))

  function MakeRequest(p: RequestParts): PlanRequest {
    var c := p.1.1.1.1;
    PlanRequest(p.0, p.1.1.1.0, p.1.0, p.1.1.0, c.0, c.1.0, c.1.1.0, c.1.1.1.0, c.1.1.1.1)
  }

  function PartsOfRequest(r: PlanRequest): RequestParts {
    (r.id, (r.epoch, (r.boot, (r.attempt, (r.definition, (r.evidence, (r.authority, (r.policy, r.fences))))))))
  }

  function ContentsFormat(limits: ModelLimits)
    : Codec<(FabricDefinition, (EvidenceBundle, (AuthorityVector, (PlanPolicy, seq<Fence>))))>
  {
    Pair(DefinitionFormat(limits),
         Pair(EvidenceFormat(limits),
              Pair(AuthorityFormat(limits), Pair(POLICY, ListOf(FENCE, limits.maxFences)))))
  }

  function RequestFormat(limits: ModelLimits): Codec<PlanRequest> {
    As(Pair(U64_CODEC, Pair(U64_CODEC, Pair(U64_CODEC, Pair(U64_CODEC, ContentsFormat(limits))))),
       MakeRequest, PartsOfRequest)
  }

  lemma ContentsExact(limits: ModelLimits)
    ensures Exact(ContentsFormat(limits))
  {
    hide Exact, DefinitionFormat, EvidenceFormat, AuthorityFormat;
    DefinitionExact(limits);
    EvidenceExact(limits);
    PolicyExact();
    FenceExact();
    ListExact(FENCE, limits.maxFences);
    PairExact(POLICY, ListOf(FENCE, limits.maxFences));
    PairExact(AuthorityFormat(limits), Pair(POLICY, ListOf(FENCE, limits.maxFences)));
    PairExact(EvidenceFormat(limits), Pair(AuthorityFormat(limits), Pair(POLICY, ListOf(FENCE, limits.maxFences))));
    PairExact(DefinitionFormat(limits),
              Pair(EvidenceFormat(limits),
                   Pair(AuthorityFormat(limits), Pair(POLICY, ListOf(FENCE, limits.maxFences)))));
  }

  /** The format of planning requests is exact: what is written is read back, and what is read
      was written exactly so. */
  lemma RequestExact(limits: ModelLimits)
    ensures Exact(RequestFormat(limits))
  {
    hide Exact, ContentsFormat;
    ContentsExact(limits);
    U64Exact();
    var contents := ContentsFormat(limits);
    PairExact(U64_CODEC, contents);
    PairExact(U64_CODEC, Pair(U64_CODEC, contents));
    PairExact(U64_CODEC, Pair(U64_CODEC, Pair(U64_CODEC, contents)));
    PairExact(U64_CODEC, Pair(U64_CODEC, Pair(U64_CODEC, Pair(U64_CODEC, contents))));
    AsExact(Pair(U64_CODEC, Pair(U64_CODEC, Pair(U64_CODEC, Pair(U64_CODEC, contents)))), MakeRequest, PartsOfRequest);
  }

  /** A message is accepted as a request exactly when it is that request's encoding; nothing
      shorter and nothing longer is accepted. */
  lemma RequestBijection(limits: ModelLimits, request: PlanRequest, b: Bytes, more: Bytes, fewer: nat)
    ensures Accept(RequestFormat(limits), b) == Some(request)
       <==> RequestFormat(limits).valid(request) && b == RequestFormat(limits).encode(request)
    ensures RequestFormat(limits).valid(request) && |more| > 0 ==>
              Accept(RequestFormat(limits), RequestFormat(limits).encode(request) + more) == None
    ensures RequestFormat(limits).valid(request) && fewer < |RequestFormat(limits).encode(request)| ==>
              Accept(RequestFormat(limits), RequestFormat(limits).encode(request)[..fewer]) == None
  {
    hide Exact, RequestFormat, Accept;
    RequestExact(limits);
    AcceptedIsEncoded(RequestFormat(limits), b, request);
    if RequestFormat(limits).valid(request) {
      OnlyTheWhole(RequestFormat(limits), request, more, fewer);
    }
  }
}
