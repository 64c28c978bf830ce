/** Planning requests, plans, and the digests that bind one to the other. */
module Requests {
  import opened Ints
  import opened Domain
  import opened Objectives
  import opened Evidence

  datatype Digest = Digest(hi: U64, lo: U64)

  // A fence revokes what was issued under an older epoch or another boot of its epoch.
  datatype Fence = Fence(
    epoch: U64,
    boot: U64,
    domain: AuthorityDomain,
    minimumGeneration: U64,
    sequence: U64,
    reason: seq<U8>)

  // A request in canonical order.
  datatype PlanRequest = PlanRequest(
    id: U64,
    attempt: U64,
    epoch: U64,
    boot: U64,
    definition: FabricDefinition,
    evidence: EvidenceBundle,
    authority: AuthorityVector,
    policy: PlanPolicy,
    fences: seq<Fence>)

  datatype PlanStep = PlanStep(
    index: U32,
    action: U64,
    occurrence: U32,
    startTick: U64,
    endTick: U64,
    requiredDomain: AuthorityDomain,
    requiredGeneration: U64,
    requiredLevel: AuthorityLevel,
    issuedLevel: AuthorityLevel,
    evidence: set<EvidenceBinding>,
    irreversible: bool,
    compensation: U64)

  // Everything the plan digest covers.
  datatype PlanBody = PlanBody(
    request: U64,
    epoch: U64,
    boot: U64,
    attempt: U64,
    steps: seq<PlanStep>,
    objective: Objective,
    requestDigest: Digest,
    definitionDigest: Digest,
    evidenceDigest: Digest,
    authorityDigest: Digest,
    policyDigest: Digest)

  datatype RecoveryPlan = RecoveryPlan(id: U64, digest: Digest, body: PlanBody)

  // The digest of each canonical encoding, left uninterpreted.
  datatype Hashing = Hashing(
    request: PlanRequest -> Digest,
    definition: FabricDefinition -> Digest,
    evidence: EvidenceBundle -> Digest,
    authority: AuthorityVector -> Digest,
    policy: PlanPolicy -> Digest,
    plan: PlanBody -> Digest)

  predicate Revokes(fence: Fence, epoch: U64, boot: U64) {
    fence.epoch > epoch || (fence.epoch == epoch && fence.boot != boot)
  }
}
