/** Evidence facts, authority bindings and the table of resolved subjects. */
module Evidence {
  import opened Ints
  import opened Domain

  datatype TrustLabel = UnknownLabel | RealLabel | SyntheticLabel | UnsupportedLabel

  datatype EvidenceKind =
    | LinkFact
    | NodeFact
    | ServiceFact
    | AvailableFact
    | RestoredFact

  datatype EvidenceFact = EvidenceFact(
    id: U64,
    kind: EvidenceKind,
    subject: Subject,
    value: U64,
    generation: U64,
    sourceDomain: AuthorityDomain,
    source: U64,
    trust: TrustLabel,
    sequence: U64)

  datatype EvidenceKey = EvidenceKey(kind: EvidenceKind, subject: Subject)

  datatype EvidenceBinding = EvidenceBinding(kind: EvidenceKind, subject: Subject, generation: U64)

  datatype EvidenceBundle = EvidenceBundle(epoch: U64, boot: U64, facts: seq<EvidenceFact>)

  datatype AuthorityBinding = AuthorityBinding(
    domain: AuthorityDomain,
    authority: U64,
    required: U64,
    granted: U64,
    level: AuthorityLevel)

  datatype AuthorityVector = AuthorityVector(epoch: U64, boot: U64, bindings: seq<AuthorityBinding>)

  datatype BindingState = Current | Stale | Unknown | Conflict | Invalid

  function LevelRank(level: AuthorityLevel): nat {
    match level
    case NoAuthority => 0
    case Observation => 1
    case Eligibility => 2
    case Recommendation => 3
    case Authorization => 4
    case Acknowledgement => 5
    case VerifiedEffect => 6
  }

  function Evaluate(b: AuthorityBinding): BindingState {
    if b.authority == 0 then Unknown
    else if b.granted < b.required then Stale
    else if b.granted > b.required then Invalid
    else if b.level == NoAuthority then Unknown
    else Current
  }

  // The first binding of a domain.
  function FindBinding(bindings: seq<AuthorityBinding>, domain: AuthorityDomain): (r: Option<AuthorityBinding>)
    ensures r.Some? ==> r.value in bindings && r.value.domain == domain
    ensures r.None? ==> forall b :: b in bindings ==> b.domain != domain
  {
    if |bindings| == 0 then None
    else if bindings[0].domain == domain then Some(bindings[0])
    else FindBinding(bindings[1..], domain)
  }

  // The state of a domain is that of its one binding.
  function EvaluateDomain(bindings: seq<AuthorityBinding>, domain: AuthorityDomain): BindingState {
    if |bindings| == 0 then Unknown
    else if bindings[0].domain != domain then EvaluateDomain(bindings[1..], domain)
    else if FindBinding(bindings[1..], domain).Some? then Conflict
    else Evaluate(bindings[0])
  }

  function FactSubject(kind: EvidenceKind): SubjectKind {
    match kind
    case LinkFact => LinkSubject
    case NodeFact => NodeSubject
    case ServiceFact => ServiceSubject
    case AvailableFact => ResourceSubject
    case RestoredFact => ResourceSubject
  }

  function FactDomain(kind: EvidenceKind): AuthorityDomain {
    match kind
    case LinkFact => FabricStateDomain
    case NodeFact => FabricStateDomain
    case ServiceFact => FabricStateDomain
    case AvailableFact => ResourceLease
    case RestoredFact => ResourceLease
  }

  // The evidence a precondition reads, if it reads any.
  function PreconditionFact(kind: PreconditionKind): Option<EvidenceKind> {
    match kind
    case LinkIsUp => Some(LinkFact)
    case LinkIsDown => Some(LinkFact)
    case NodeIsUp => Some(NodeFact)
    case NodeIsDown => Some(NodeFact)
    case ServiceAtLeast => Some(ServiceFact)
    case ServiceAtMost => Some(ServiceFact)
    case AvailableAtLeast => Some(AvailableFact)
    case ExecutedAtLeast => None
  }

  datatype SubjectState =
    | Resolved
    | MissingState
    | StaleState
    | AheadState
    | ConflictState
    | InvalidState
    | UnsupportedState

  datatype Resolution = Resolution(state: SubjectState, value: U64, generation: U64, sequence: U64)

  type ResolutionTable = map<EvidenceKey, Resolution>

  // The binding a precondition contributes to its step.
  function BindingFor(table: ResolutionTable, p: Precondition): Option<EvidenceBinding> {
    match PreconditionFact(p.kind)
    case None => None
    case Some(kind) =>
      var key := EvidenceKey(kind, p.subject);
      if key in table && table[key].state == Resolved
      then Some(EvidenceBinding(kind, p.subject, table[key].generation))
      else None
  }

  function BindingsFor(table: ResolutionTable, list: seq<Precondition>): set<EvidenceBinding> {
    set i | 0 <= i < |list| && BindingFor(table, list[i]).Some? :: BindingFor(table, list[i]).value
  }
}
