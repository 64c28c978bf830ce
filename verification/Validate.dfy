/** The independent plan validator: a plan gets no finding exactly when it is bound to the
    request and its steps carry out an admissible sequence that meets every goal. */
module Validate {
  import opened Ints
  import opened Domain
  import opened Objectives
  import opened Dynamics
  import opened Definition
  import opened Evidence
  import opened Problems
  import opened Accounting
  import opened Safety
  import opened Histories
  import opened Regularity
  import opened Overlapping
  import opened Reconcile
  import opened InitialStates
  import opened Requests
  import opened Transition
  import Reference

  datatype FindingCode =
    | DigestMismatch
    | Fenced
    | InvalidDefinition
    | OrderingViolation
    | OccurrenceExceeded
    | ExclusionViolation
    | PreconditionUnmet
    | EvidenceMismatch
    | AuthorityMismatch
    | CompensationMissing
    | PolicyRestricted
    | ResourceViolation
    | SafetyViolation
    | GoalUnmet
    | ObjectiveMismatch

  // A finding about one step, or about the plan as a whole.
  datatype Finding = Finding(code: FindingCode, step: Option<nat>)

  // What a plan is judged against.
  datatype Context = Context(p: Problem, limits: ModelLimits, bindings: seq<AuthorityBinding>, facts: seq<EvidenceFact>)

  // ---- What a step has to say -----------------------------------------------

  ghost predicate Supported(def: FabricDefinition, bindings: seq<AuthorityBinding>, facts: seq<EvidenceFact>,
                            key: EvidenceKey)
  {
    exists f :: Candidate(def, bindings, facts, key, f)
  }

  // The evidence that a precondition rests on: the granted generation of its subject, when
  // any admissible fact speaks about it.
  ghost function Support(def: FabricDefinition, bindings: seq<AuthorityBinding>, facts: seq<EvidenceFact>,
                         p: Precondition): Option<EvidenceBinding>
  {
    match PreconditionFact(p.kind)
    case None => None
    case Some(kind) =>
      if Supported(def, bindings, facts, EvidenceKey(kind, p.subject)) && FindBinding(bindings, FactDomain(kind)).Some?
      then Some(EvidenceBinding(kind, p.subject, FindBinding(bindings, FactDomain(kind)).value.granted))
      else None
  }

  ghost function Supports(def: FabricDefinition, bindings: seq<AuthorityBinding>, facts: seq<EvidenceFact>,
                          list: seq<Precondition>): set<EvidenceBinding>
  {
    set i | 0 <= i < |list| && Support(def, bindings, facts, list[i]).Some?
      :: Support(def, bindings, facts, list[i]).value
  }

  predicate AuthorityStated(bindings: seq<AuthorityBinding>, action: ActionSpec, step: PlanStep) {
    var binding := FindBinding(bindings, step.requiredDomain);
    && binding.Some?
    && EvaluateDomain(bindings, step.requiredDomain) == Current
    && step.requiredGeneration == binding.value.granted
    && step.requiredLevel == action.requiredLevel
    && step.requiredDomain == action.requiredDomain
    && LevelRank(binding.value.level) >= LevelRank(step.requiredLevel)
    && step.issuedLevel == Recommendation
  }

  predicate CompensationStated(action: ActionSpec, step: PlanStep) {
    if action.reversibility == Irreversible then step.irreversible && step.compensation == 0
    else !step.irreversible && step.compensation == action.compensation
  }

  // Step number k of a plan describes running action a as its n-th occurrence.
  ghost predicate Describes(c: Context, k: nat, a: nat, n: nat, step: PlanStep)
    requires a < |c.p.def.actions|
  {
    var action := c.p.def.actions[a];
    && step.index == k
    && step.action == action.id
    && step.occurrence == n
    && step.evidence == Supports(c.p.def, c.bindings, c.facts, action.preconditions)
    && AuthorityStated(c.bindings, action, step)
    && CompensationStated(action, step)
  }

  ghost predicate StepOf(c: Context, w: seq<nat>, k: nat, step: PlanStep)
    requires k < |w|
  {
    w[k] < |c.p.def.actions| && Describes(c, k, w[k], CountOf(w[..k], w[k]) + 1, step)
  }

  // The steps carry out the admissible sequence w, and say so truthfully.
  ghost predicate CarriesOut(c: Context, steps: seq<PlanStep>, w: seq<nat>)
    requires Shaped(c.p.def, c.p.start)
  {
    && |w| == |steps| <= c.p.policy.maxPlanSteps
    && Execute(c.p.def, c.p.policy, c.p.start, w).Some?
    && forall k :: 0 <= k < |w| ==> StepOf(c, w, k, steps[k])
  }

  ghost predicate Authentic(h: Hashing, request: PlanRequest, plan: RecoveryPlan) {
    var body := plan.body;
    && plan.digest == h.plan(body)
    && body.requestDigest == h.request(request)
    && body.definitionDigest == h.definition(request.definition)
    && body.evidenceDigest == h.evidence(request.evidence)
    && body.authorityDigest == h.authority(request.authority)
    && body.policyDigest == h.policy(request.policy)
    && body.request == request.id && body.epoch == request.epoch
    && body.boot == request.boot && body.attempt == request.attempt
    && forall f :: 0 <= f < |request.fences| ==> !Revokes(request.fences[f], body.epoch, body.boot)
  }

  // ---- Checks that do not depend on the state -------------------------------

  method CheckBinding(h: Hashing, request: PlanRequest, plan: RecoveryPlan) returns (found: seq<Finding>)
    ensures found == [] <==> Authentic(h, request, plan)
  {
    var body := plan.body;
    found := [];
    if plan.digest != h.plan(body) {
      found := found + [Finding(DigestMismatch, None)];
    }
    if body.requestDigest != h.request(request) {
      found := found + [Finding(DigestMismatch, None)];
    }
    if body.definitionDigest != h.definition(request.definition) {
      found := found + [Finding(DigestMismatch, None)];
    }
    if body.evidenceDigest != h.evidence(request.evidence) {
      found := found + [Finding(DigestMismatch, None)];
    }
    if body.authorityDigest != h.authority(request.authority) {
      found := found + [Finding(DigestMismatch, None)];
    }
    if body.policyDigest != h.policy(request.policy) {
      found := found + [Finding(DigestMismatch, None)];
    }
    if body.request != request.id || body.epoch != request.epoch || body.boot != request.boot
       || body.attempt != request.attempt
    {
      found := found + [Finding(DigestMismatch, None)];
    }
    ghost var before := found;
    for f := 0 to |request.fences|
      invariant found == [] <==> before == []
                                 && forall g :: 0 <= g < f ==> !Revokes(request.fences[g], body.epoch, body.boot)
    {
      if Revokes(request.fences[f], body.epoch, body.boot) {
        found := found + [Finding(Fenced, None)];
      }
    }
  }

  method CheckAuthority(bindings: seq<AuthorityBinding>, action: ActionSpec, step: PlanStep, now: nat)
    returns (found: seq<Finding>)
    ensures found == [] <==> AuthorityStated(bindings, action, step)
  {
    found := [];
    var binding := FindBinding(bindings, step.requiredDomain);
    if binding.None? || EvaluateDomain(bindings, step.requiredDomain) != Current {
      found := found + [Finding(AuthorityMismatch, Some(now))];
    } else {
      if step.requiredGeneration != binding.value.granted {
        found := found + [Finding(AuthorityMismatch, Some(now))];
      }
      if step.requiredLevel != action.requiredLevel || step.requiredDomain != action.requiredDomain {
        found := found + [Finding(AuthorityMismatch, Some(now))];
      }
      if LevelRank(binding.value.level) < LevelRank(step.requiredLevel) {
        found := found + [Finding(AuthorityMismatch, Some(now))];
      }
    }
    if step.issuedLevel != Recommendation {
      found := found + [Finding(AuthorityMismatch, Some(now))];
    }
  }

  method CheckCompensation(def: FabricDefinition, policy: PlanPolicy, action: ActionSpec, step: PlanStep, now: nat)
    returns (found: seq<Finding>)
    requires ValidReversibility(def, action)
    ensures found == [] <==> CompensationStated(action, step)
                             && (action.reversibility == Irreversible ==> policy.allowIrreversible)
  {
    found := [];
    if action.reversibility == Irreversible {
      if !step.irreversible || step.compensation != 0 {
        found := found + [Finding(CompensationMissing, Some(now))];
      }
    } else {
      if step.irreversible {
        found := found + [Finding(CompensationMissing, Some(now))];
      }
      if step.compensation != action.compensation || ActionIndex(def, step.compensation).None? {
        found := found + [Finding(CompensationMissing, Some(now))];
      }
    }
    if action.reversibility == Irreversible && !policy.allowIrreversible {
      found := found + [Finding(PolicyRestricted, Some(now))];
    }
  }

  /** Derives the binding of one precondition anew from the facts. */
  method DeriveSupport(def: FabricDefinition, bindings: seq<AuthorityBinding>, facts: seq<EvidenceFact>,
                       p: Precondition)
    returns (r: Option<EvidenceBinding>)
    ensures r == Support(def, bindings, facts, p)
  {
    hide ValueInDomain, FindBinding;
    var fact := PreconditionFact(p.kind);
    if fact.None? {
      return None;
    }
    var kind := fact.value;
    ghost var key := EvidenceKey(kind, p.subject);
    var found, bestSequence: U64, generation: U64 := false, 0, 0;
    for i := 0 to |facts|
      invariant found <==> Supported(def, bindings, facts[..i], key)
      invariant found ==> FindBinding(bindings, FactDomain(kind)).Some?
                          && generation == FindBinding(bindings, FactDomain(kind)).value.granted
    {
      var f := facts[i];
      SupportedNext(def, bindings, facts, i, key);
      if f.kind != kind || f.subject != p.subject || f.subject.kind != FactSubject(f.kind) {
        continue;
      }
      if f.sourceDomain != FactDomain(f.kind) || (f.trust != RealLabel && f.trust != SyntheticLabel) {
        continue;
      }
      if !ValueInDomain(def, f) {
        continue;
      }
      var binding := FindBinding(bindings, f.sourceDomain);
      if binding.None? || f.generation != binding.value.granted {
        continue;
      }
      if !found || f.sequence > bestSequence {
        found, bestSequence, generation := true, f.sequence, f.generation;
      }
    }
    assert facts[..|facts|] == facts;
    r := if found then Some(EvidenceBinding(kind, p.subject, generation)) else None;
  }

  lemma SupportedNext(def: FabricDefinition, bindings: seq<AuthorityBinding>, facts: seq<EvidenceFact>, i: nat,
                      key: EvidenceKey)
    requires i < |facts|
    ensures Supported(def, bindings, facts[..i + 1], key)
       <==> Supported(def, bindings, facts[..i], key) || (KeyOfFact(facts[i]) == key && Usable(def, bindings, facts[i]))
    ensures i == 0 ==> !Supported(def, bindings, facts[..i], key)
  {
    hide Usable;
    assert facts[..i + 1] == facts[..i] + [facts[i]];
    NewCandidates(def, bindings, facts[..i], facts[i], key);
    if Supported(def, bindings, facts[..i], key) {
      var f :| Candidate(def, bindings, facts[..i], key, f);
      assert Candidate(def, bindings, facts[..i + 1], key, f);
    }
    if KeyOfFact(facts[i]) == key && Usable(def, bindings, facts[i]) {
      assert Candidate(def, bindings, facts[..i + 1], key, facts[i]);
    }
  }

  /** Checks the preconditions of a step and collects the evidence it has to state. */
  method CheckPreconditions(c: Context, s: FabricState, list: seq<Precondition>, now: nat)
    returns (found: seq<Finding>, expected: set<EvidenceBinding>)
    requires Shaped(c.p.def, s) && forall i :: 0 <= i < |list| ==> ValidPrecondition(c.p.def, list[i])
    ensures found == [] <==> forall i | 0 <= i < |list| :: PreconditionHolds(c.p.def, s, list[i])
    ensures found == [] ==> expected == Supports(c.p.def, c.bindings, c.facts, list)
  {
    hide ValidPrecondition, PreconditionHolds, Support;
    found, expected := [], {};
    for i := 0 to |list|
      invariant found == [] <==> forall j | 0 <= j < i :: PreconditionHolds(c.p.def, s, list[j])
      invariant found == [] ==> expected == Supports(c.p.def, c.bindings, c.facts, list[..i])
    {
      assert list[..i + 1] == list[..i] + [list[i]];
      SupportsNext(c, list, i);
      var known := PreconditionKnown(c.p.def, s, list[i]);
      KnownWhenHolds(c.p.def, s, list[i]);
      var holds := Reference.PreconditionEstablished(c.p.def, s, list[i]);
      if !known {
        found := found + [Finding(PreconditionUnmet, Some(now))];
        continue;
      }
      if !holds {
        found := found + [Finding(PreconditionUnmet, Some(now))];
      }
      var binding := DeriveSupport(c.p.def, c.bindings, c.facts, list[i]);
      if binding.Some? {
        expected := expected + {binding.value};
      }
    }
    assert list[..|list|] == list;
  }

  lemma KnownWhenHolds(def: FabricDefinition, s: FabricState, p: Precondition)
    requires Shaped(def, s)
    ensures PreconditionHolds(def, s, p) ==> PreconditionKnown(def, s, p)
  {
  }

  lemma SupportsNext(c: Context, list: seq<Precondition>, i: nat)
    requires i < |list|
    ensures Supports(c.p.def, c.bindings, c.facts, list[..i + 1])
         == Supports(c.p.def, c.bindings, c.facts, list[..i])
            + match Support(c.p.def, c.bindings, c.facts, list[i]) case None => {} case Some(b) => {b}
  {
    hide Support;
    var before := list[..i];
    var after := list[..i + 1];
    assert forall j :: 0 <= j < i ==> after[j] == before[j];
    assert after[i] == list[i];
  }

  // ---- Checks against the state ---------------------------------------------

  method CheckDependencies(def: FabricDefinition, s: FabricState, a: nat, now: nat) returns (found: seq<Finding>)
    requires Shaped(def, s) && a < |def.actions|
    ensures found == [] <==> forall d | 0 <= d < |def.actions[a].dependencies| ::
                               DependencyMet(def, s, def.actions[a].dependencies[d])
  {
    hide ActionIndex;
    found := [];
    var list := def.actions[a].dependencies;
    for i := 0 to |list|
      invariant found == [] <==> forall j :: 0 <= j < i ==> DependencyMet(def, s, list[j])
    {
      var p := ActionIndex(def, list[i].predecessor);
      if p.None? {
        assert !DependencyMet(def, s, list[i]);
        found := found + [Finding(OrderingViolation, Some(now))];
        continue;
      }
      if s.occurrences[p.value] < list[i].minOccurrences {
        assert !DependencyMet(def, s, list[i]);
        found := found + [Finding(OrderingViolation, Some(now))];
      }
    }
  }

  method CheckExclusion(def: FabricDefinition, s: FabricState, a: nat, now: nat) returns (found: seq<Finding>)
    requires Shaped(def, s) && a < |def.actions|
    ensures found == [] <==> forall g | 0 <= g < |def.actions[a].groups| :: GroupOpen(def, s, def.actions[a].groups[g])
  {
    hide GroupIndex, Selected;
    found := [];
    var list := def.actions[a].groups;
    for i := 0 to |list|
      invariant found == [] <==> forall j :: 0 <= j < i ==> GroupOpen(def, s, list[j])
    {
      var g := GroupIndex(def, list[i]);
      if g.None? {
        assert !GroupOpen(def, s, list[i]);
        found := found + [Finding(ExclusionViolation, Some(now))];
        continue;
      }
      var selected := Reference.CountSelected(def, s, list[i]);
      if selected >= def.groups[g.value].maxSelected {
        assert !GroupOpen(def, s, list[i]);
        found := found + [Finding(ExclusionViolation, Some(now))];
      }
    }
  }

  lemma RecordKeeps(history: seq<seq<PastUse>>, r: nat, now: nat, units: U32)
    requires NoLaterThan(history, now) && r < |history|
    ensures NoLaterThan(history[r := history[r] + [PastUse(now, units)]], now)
  {
    assert ListNoLater(history[r], now);
  }

  lemma LaterStill(history: seq<seq<PastUse>>, now: nat)
    requires NoLaterThan(history, now)
    ensures NoLaterThan(history, now + 1)
  {
    forall r | 0 <= r < |history|
      ensures ListNoLater(history[r], now + 1)
    {
      assert ListNoLater(history[r], now);
    }
  }

  /** Resource accounting from the recorded holds; the overlap is summed in 32 bits. */
  method CheckUses(def: FabricDefinition, s: FabricState, history: seq<seq<PastUse>>, ghost w: seq<nat>, now: nat,
                   a: nat)
    returns (found: seq<Finding>)
    requires Shaped(def, s) && |history| == |def.resources| && a < |def.actions|
    requires forall u :: 0 <= u < |def.actions[a].uses| ==> ValidUse(def, def.actions[a].uses[u])
    requires NoLaterThan(history, now)
    ensures found == [] <==>
              forall u | 0 <= u < |def.actions[a].uses| :: UsePasses(def, s, history, now, def.actions[a].uses[u])
    ensures HistoryExact(def, w, history) && now == |w| && ModestCapacities(def) && HeldFits(def, w) ==>
              (found == [] <==> UsesFit(def, s, w, a))
    ensures HistoryExact(def, w, history) && now == |w| && UsesFit(def, s, w, a) ==> found == []
  {
    hide ResourceIndex, UseFree, ConsumableReady, Fits, HistoryExact, ModestCapacities, HeldFits, Held, ValidUse;
    hide NoLaterThan;
    found := [];
    var uses := def.actions[a].uses;
    for i := 0 to |uses|
      invariant found == [] <==> forall j :: 0 <= j < i ==> UsePasses(def, s, history, now, uses[j])
    {
      UseIndexed(def, uses[i]);
      var r := ResourceIndex(def, uses[i].resource).value;
      var ok;
      if def.resources[r].kind == Consumable {
        ok := s.resourceKnown[r] && s.available[r] >= uses[i].units;
      } else {
        NoLaterIn(history, r, now);
        var total := SumOverlap(history[r], now, def.resources[r].holdSteps, uses[i].units);
        ok := total <= def.resources[r].capacity;
      }
      assert ok <==> UsePasses(def, s, history, now, uses[i]);
      if !ok {
        found := found + [Finding(ResourceViolation, Some(now))];
      }
    }
    if HistoryExact(def, w, history) && now == |w| {
      if UsesFit(def, s, w, a) {
        FitPass(def, s, history, w, a);
      }
      if ModestCapacities(def) && HeldFits(def, w) {
        AllPassAllFree(def, s, history, w, a);
      }
    }
  }

  // Every use of the action finds enough.
  predicate UsesFit(def: FabricDefinition, s: FabricState, w: seq<nat>, a: nat)
    requires Shaped(def, s) && a < |def.actions|
  {
    && (forall u | 0 <= u < |def.actions[a].uses| :: ConsumableReady(def, s, def.actions[a].uses[u]))
    && Fits(def, a, Held(def, w))
  }

  lemma FitPass(def: FabricDefinition, s: FabricState, history: seq<seq<PastUse>>, w: seq<nat>, a: nat)
    requires Shaped(def, s) && HistoryExact(def, w, history) && |history| == |def.resources|
    requires a < |def.actions| && UsesFit(def, s, w, a)
    ensures forall u :: 0 <= u < |def.actions[a].uses| ==> UsePasses(def, s, history, |w|, def.actions[a].uses[u])
  {
    hide UsePasses, UseFree, ConsumableReady, Fits, HistoryExact, Held;
    UsesFree(def, s, Held(def, w), a);
    forall u | 0 <= u < |def.actions[a].uses|
      ensures UsePasses(def, s, history, |w|, def.actions[a].uses[u])
    {
      FreePasses(def, s, history, w, def.actions[a].uses[u]);
    }
  }

  lemma UseIndexed(def: FabricDefinition, use: ResourceUse)
    requires ValidUse(def, use)
    ensures ResourceIndex(def, use.resource).Some?
  {
  }

  lemma NoLaterIn(history: seq<seq<PastUse>>, r: nat, now: nat)
    requires NoLaterThan(history, now) && r < |history|
    ensures forall i :: 0 <= i < |history[r]| ==> history[r][i].step <= now
  {
    assert ListNoLater(history[r], now);
  }

  lemma AllPassAllFree(def: FabricDefinition, s: FabricState, history: seq<seq<PastUse>>, w: seq<nat>, a: nat)
    requires Shaped(def, s) && HistoryExact(def, w, history) && a < |def.actions|
    requires ModestCapacities(def) && HeldFits(def, w)
    requires forall u :: 0 <= u < |def.actions[a].uses| ==> ValidUse(def, def.actions[a].uses[u])
    ensures (forall u | 0 <= u < |def.actions[a].uses| :: UsePasses(def, s, history, |w|, def.actions[a].uses[u]))
       <==> UsesFit(def, s, w, a)
  {
    hide UsePasses, UseFree, ConsumableReady, Fits, HistoryExact, ModestCapacities, HeldFits, Held, ValidUse;
    UsesFree(def, s, Held(def, w), a);
    HistorySized(def, w, history);
    forall u | 0 <= u < |def.actions[a].uses|
      ensures UsePasses(def, s, history, |w|, def.actions[a].uses[u])
         <==> UseFree(def, s, Held(def, w), def.actions[a].uses[u])
    {
      PassesIsFree(def, s, history, w, def.actions[a].uses[u]);
    }
  }

  lemma HistorySized(def: FabricDefinition, w: seq<nat>, history: seq<seq<PastUse>>)
    requires HistoryExact(def, w, history)
    ensures |history| == |def.resources|
  {
  }

  /** One effect; a refused one leaves the state as it is. */
  method ChangeState(def: FabricDefinition, s: FabricState, e: Effect, now: nat)
    returns (found: seq<Finding>, t: FabricState)
    requires Shaped(def, s) && ValidEffect(def, e)
    ensures ApplyEffect(def, s, e) == if found == [] then Some(t) else None
    ensures Shaped(def, t) && t.occurrences == s.occurrences && t.tick == s.tick
  {
    found, t := [], s;
    var i := SubjectIndex(def, e.subject).value;
    match e.kind {
      case SetLink =>
        t := s.(linkUp := s.linkUp[i := e.value != 0], linkKnown := s.linkKnown[i := true]);
      case SetNode =>
        t := s.(nodeUp := s.nodeUp[i := e.value != 0], nodeKnown := s.nodeKnown[i := true]);
      case SetService =>
        if AsUnsigned(e.value) > def.services[i].maximum {
          found := [Finding(SafetyViolation, Some(now))];
        } else {
          t := s.(reachable := s.reachable[i := AsUnsigned(e.value)], serviceKnown := s.serviceKnown[i := true]);
        }
      case ServiceDelta =>
        if !s.serviceKnown[i] {
          if def.services[i].required > 0 {
            found := [Finding(SafetyViolation, Some(now))];
          }
        } else {
          var updated := s.reachable[i] + e.value;
          if updated < 0 || updated > def.services[i].maximum {
            found := [Finding(SafetyViolation, Some(now))];
          } else {
            t := s.(reachable := s.reachable[i := updated]);
          }
        }
      case MarkRestored =>
        t := s.(restored := s.restored[i := true], resourceKnown := s.resourceKnown[i := true]);
      case SetAvailable =>
        if AsUnsigned(e.value) > def.resources[i].capacity {
          found := [Finding(ResourceViolation, Some(now))];
        } else {
          t := s.(available := s.available[i := AsUnsigned(e.value)], resourceKnown := s.resourceKnown[i := true]);
        }
    }
  }

  method ChangeAll(def: FabricDefinition, s: FabricState, effects: seq<Effect>, now: nat)
    returns (found: seq<Finding>, t: FabricState)
    requires Shaped(def, s) && forall e :: 0 <= e < |effects| ==> ValidEffect(def, effects[e])
    ensures ApplyEffects(def, s, effects) == if found == [] then Some(t) else None
    ensures Shaped(def, t) && t.occurrences == s.occurrences && t.tick == s.tick
  {
    hide ApplyEffect, ValidEffect;
    found, t := [], s;
    assert effects[0..] == effects;
    for i := 0 to |effects|
      invariant Shaped(def, t) && t.occurrences == s.occurrences && t.tick == s.tick
      invariant found == [] ==> ApplyEffects(def, t, effects[i..]) == ApplyEffects(def, s, effects)
      invariant found != [] ==> ApplyEffects(def, s, effects) == None
    {
      assert effects[i..][1..] == effects[i + 1..];
      var more, next := ChangeState(def, t, effects[i], now);
      found, t := found + more, next;
    }
  }

  // Taking the units of a use that are there.
  predicate Affordable(def: FabricDefinition, s: FabricState, use: ResourceUse)
    requires Shaped(def, s)
  {
    var r := ResourceIndex(def, use.resource);
    r.Some? && def.resources[r.value].kind == Consumable ==>
      s.resourceKnown[r.value] && s.available[r.value] >= use.units
  }

  // Every use finds its units at its turn.
  predicate AllAffordable(def: FabricDefinition, s: FabricState, uses: seq<ResourceUse>)
    requires Shaped(def, s)
    decreases |uses|
  {
    |uses| == 0 || (Affordable(def, s, uses[0]) && AllAffordable(def, ConsumeOne(def, s, uses[0]), uses[1..]))
  }

  /** Takes the consumables, never below zero, and records the reusable uses. */
  method SpendAndRecord(def: FabricDefinition, s: FabricState, before: seq<seq<PastUse>>, ghost w: seq<nat>, now: nat,
                        a: nat)
    returns (found: seq<Finding>, t: FabricState, history: seq<seq<PastUse>>)
    requires Shaped(def, s) && |before| == |def.resources| && a < |def.actions|
    requires forall u :: 0 <= u < |def.actions[a].uses| ==> ValidUse(def, def.actions[a].uses[u])
    requires NoLaterThan(before, now)
    ensures Shaped(def, t) && t == s.(available := t.available) && |history| == |def.resources|
    ensures NoLaterThan(history, now)
    ensures HistoryExact(def, w, before) && now == |w| ==> HistoryExact(def, w + [a], history)
    ensures AllAffordable(def, s, def.actions[a].uses) ==> found == [] && t == Consume(def, s, def.actions[a].uses)
  {
    hide ResourceIndex, UsesAt, Past, HistoryExact, PartlyRecorded, NoLaterThan, ConsumeOne, Affordable;
    found, t, history := [], s, before;
    var uses := def.actions[a].uses;
    assert uses[0..] == uses;
    NothingRecorded(def, before, uses, now);
    for i := 0 to |uses|
      invariant |history| == |def.resources| && PartlyRecorded(def, before, history, uses, i, now)
      invariant NoLaterThan(history, now)
      invariant Shaped(def, t) && t == s.(available := t.available)
      invariant AllAffordable(def, s, uses) ==>
                  && found == [] && Consume(def, t, uses[i..]) == Consume(def, s, uses)
                  && AllAffordable(def, t, uses[i..])
    {
      assert ValidUse(def, uses[i]);
      RecordNext(def, before, history, uses, i, now);
      assert uses[i..][1..] == uses[i + 1..];
      var r := ResourceIndex(def, uses[i].resource).value;
      TakenExactly(def, t, uses[i], r);
      if def.resources[r].kind == Consumable && t.resourceKnown[r] {
        if t.available[r] < uses[i].units {
          found := found + [Finding(ResourceViolation, Some(now))];
          t := t.(available := t.available[r := 0]);
        } else {
          t := t.(available := t.available[r := t.available[r] - uses[i].units]);
        }
      }
      if def.resources[r].kind == Reusable {
        RecordKeeps(history, r, now, uses[i].units);
        history := history[r := history[r] + [PastUse(now, uses[i].units)]];
      }
    }
    if HistoryExact(def, w, before) && now == |w| {
      HistorySnoc(def, w, before, history, a);
    }
  }

  lemma TakenExactly(def: FabricDefinition, s: FabricState, use: ResourceUse, r: nat)
    requires Shaped(def, s) && ResourceIndex(def, use.resource) == Some(r)
    ensures Affordable(def, s, use) && def.resources[r].kind == Consumable ==>
              && s.resourceKnown[r] && s.available[r] >= use.units
              && ConsumeOne(def, s, use) == s.(available := s.available[r := s.available[r] - use.units])
    ensures def.resources[r].kind == Reusable ==> ConsumeOne(def, s, use) == s
  {
  }

  lemma NothingRecorded(def: FabricDefinition, before: seq<seq<PastUse>>, uses: seq<ResourceUse>, now: nat)
    requires |before| == |def.resources|
    ensures PartlyRecorded(def, before, before, uses, 0, now)
  {
    assert uses[0..] == uses;
  }

  lemma {:induction false} AffordableTogether(def: FabricDefinition, s: FabricState, uses: seq<ResourceUse>)
    requires Shaped(def, s) && DistinctUses(uses)
    requires forall u :: 0 <= u < |uses| ==> Affordable(def, s, uses[u])
    ensures AllAffordable(def, s, uses)
    decreases |uses|
  {
    hide ResourceIndex, Wrap32;
    if |uses| > 0 {
      var t := ConsumeOne(def, s, uses[0]);
      forall u | 0 <= u < |uses[1..]|
        ensures Affordable(def, t, uses[1..][u])
      {
        assert uses[1..][u] == uses[u + 1];
        assert Affordable(def, s, uses[u + 1]);
      }
      AffordableTogether(def, t, uses[1..]);
    }
  }

  /** The validator's underflow finding never fires on a step that its earlier checks let pass. */
  lemma ReadyIsAffordable(def: FabricDefinition, policy: PlanPolicy, s: FabricState, a: nat)
    requires Shaped(def, s) && a < |def.actions| && SingleUse(def, def.actions[a]) && Ready(def, policy, s, a)
    requires ApplyEffects(def, s, def.actions[a].effects).Some?
    ensures AllAffordable(def, ApplyEffects(def, s, def.actions[a].effects).value, def.actions[a].uses)
  {
    hide ApplyEffects, ResourceIndex, PreconditionHolds, GroupOpen, DependencyMet;
    var action := def.actions[a];
    var changed := ApplyEffects(def, s, action.effects).value;
    EffectsKeep(def, s, action.effects);
    forall u | 0 <= u < |action.uses|
      ensures Affordable(def, changed, action.uses[u])
    {
      assert ConsumableReady(def, s, action.uses[u]);
      var r := ResourceIndex(def, action.uses[u].resource).value;
      if def.resources[r].kind == Consumable {
        UsedIsLeftAlone(def, policy, s, a, u, r);
      }
    }
    AffordableTogether(def, changed, action.uses);
  }

  // ---- One step -------------------------------------------------------------

  // The validator's records are those of the sequence w, which leads to state s.
  ghost predicate InStep(c: Context, s: FabricState, history: seq<seq<PastUse>>, w: seq<nat>, now: nat) {
    && Shaped(c.p.def, c.p.start) && now == |w|
    && Execute(c.p.def, c.p.policy, c.p.start, w).Some?
    && s == Execute(c.p.def, c.p.policy, c.p.start, w).value.state
    && HistoryExact(c.p.def, w, history)
  }

  // Everything that is checked about a step before its effects.
  ghost predicate Passes(c: Context, s: FabricState, w: seq<nat>, now: nat, a: nat, step: PlanStep)
    requires Shaped(c.p.def, s) && a < |c.p.def.actions|
  {
    && Ready(c.p.def, c.p.policy, s, a)
    && Fits(c.p.def, a, Held(c.p.def, w))
    && Describes(c, now, a, (s.occurrences[a] as nat) + 1, step)
    && now < c.p.policy.maxPlanSteps
  }

  method CheckStated(c: Context, s: FabricState, now: nat, a: nat, step: PlanStep) returns (found: seq<Finding>)
    requires Shaped(c.p.def, s) && a < |c.p.def.actions| && ValidAction(c.p.def, c.limits, c.p.def.actions[a])
    ensures found == [] <==>
              && Describes(c, now, a, Wrap32((s.occurrences[a] as int) + 1), step.(action := c.p.def.actions[a].id))
              && (forall i | 0 <= i < |c.p.def.actions[a].preconditions| ::
                    PreconditionHolds(c.p.def, s, c.p.def.actions[a].preconditions[i]))
              && (c.p.def.actions[a].reversibility == Irreversible ==> c.p.policy.allowIrreversible)
              && now < c.p.policy.maxPlanSteps
  {
    hide ValidPrecondition, ValidEffect, ValidUse, ValidDependency, ValidReversibility, GoodIds, GroupIndex;
    hide PreconditionHolds, Supports, AuthorityStated, CompensationStated;
    var action := c.p.def.actions[a];
    found := [];
    if step.index != now {
      found := found + [Finding(OrderingViolation, Some(now))];
    }
    if step.occurrence != Wrap32((s.occurrences[a] as int) + 1) {
      found := found + [Finding(OrderingViolation, Some(now))];
    }
    var more, expected := CheckPreconditions(c, s, action.preconditions, now);
    found := found + more;
    if step.evidence != expected {
      found := found + [Finding(EvidenceMismatch, Some(now))];
    }
    var authority := CheckAuthority(c.bindings, action, step, now);
    var compensation := CheckCompensation(c.p.def, c.p.policy, action, step, now);
    found := found + authority + compensation;
    StatedElsewhere(c, action, step);
    if now >= c.p.policy.maxPlanSteps {
      found := found + [Finding(OrderingViolation, Some(now))];
    }
  }

  lemma StatedElsewhere(c: Context, action: ActionSpec, step: PlanStep)
    ensures AuthorityStated(c.bindings, action, step.(action := action.id)) <==>
              AuthorityStated(c.bindings, action, step)
    ensures CompensationStated(action, step.(action := action.id)) <==> CompensationStated(action, step)
  {
  }

  method JudgeStep(c: Context, s: FabricState, history: seq<seq<PastUse>>, ghost w: seq<nat>, now: nat, a: nat,
                   step: PlanStep)
    returns (found: seq<Finding>)
    requires Shaped(c.p.def, s) && |history| == |c.p.def.resources| && NoLaterThan(history, now)
    requires ActionIndex(c.p.def, step.action) == Some(a) && ValidAction(c.p.def, c.limits, c.p.def.actions[a])
    ensures InStep(c, s, history, w, now) && ModestCapacities(c.p.def) && HeldFits(c.p.def, w) ==>
              (found == [] <==> Passes(c, s, w, now, a, step))
    ensures InStep(c, s, history, w, now) && Passes(c, s, w, now, a, step) ==> found == []
  {
    hide ValidPrecondition, ValidEffect, ValidUse, ValidDependency, ValidReversibility, GoodIds, GroupIndex;
    hide DependencyMet, GroupOpen, PreconditionHolds, ConsumableReady, Fits, HistoryExact, HeldFits, NoLaterThan;
    hide ModestCapacities, Describes, Execute;
    found := [];
    var action := c.p.def.actions[a];
    if s.occurrences[a] >= action.maxOccurrences {
      found := found + [Finding(OccurrenceExceeded, Some(now))];
    }
    var dependencies := CheckDependencies(c.p.def, s, a, now);
    found := found + dependencies;
    if s.occurrences[a] == 0 {
      var exclusion := CheckExclusion(c.p.def, s, a, now);
      found := found + exclusion;
    }
    var stated := CheckStated(c, s, now, a, step);
    assert step.(action := action.id) == step;
    var uses := CheckUses(c.p.def, s, history, w, now, a);
    found := found + stated + uses;
  }

  /** Adds a step to the recomputed objective: the first three components unchecked, the
      others left as they are when a sum would leave 64 bits. */
  method Recompute(total: Objective, delta: Objective) returns (sum: Objective)
    ensures Fits64(Plus(total, delta)) ==> sum == Plus(total, delta)
  {
    var result: seq<nat> := [];
    for i := 0 to 8
      invariant |result| == i
      invariant Fits64(Plus(total, delta)) ==> forall k :: 0 <= k < i ==> result[k] == total[k] + delta[k]
    {
      assert Fits64(Plus(total, delta)) ==> Plus(total, delta)[i] <= MAX_U64;
      if i < 3 {
        result := result + [Wrap64(total[i] + delta[i])];
      } else {
        result := result + [if total[i] + delta[i] > MAX_U64 then total[i] else total[i] + delta[i]];
      }
    }
    assert Fits64(Plus(total, delta)) ==> result == Plus(total, delta);
    return result;
  }

  // The validator's running sums belong to state s after sequence w.
  ghost predicate SumsAgree(c: Context, s: FabricState, w: seq<nat>, floor: nat, completeness: nat, total: Objective)
    requires Shaped(c.p.def, s) && Shaped(c.p.def, c.p.start)
  {
    && floor == FloorGap(c.p.def, s) && completeness == Incompleteness(c.p.def, s)
    && Execute(c.p.def, c.p.policy, c.p.start, w).Some?
    && total == Execute(c.p.def, c.p.policy, c.p.start, w).value.cost
  }

  // Step number now can be taken, and is described truthfully.
  ghost predicate Succeeds(c: Context, s: FabricState, w: seq<nat>, now: nat, a: nat, step: PlanStep)
    requires Shaped(c.p.def, s) && Shaped(c.p.def, c.p.start) && a < |c.p.def.actions|
  {
    Passes(c, s, w, now, a, step) && Execute(c.p.def, c.p.policy, c.p.start, w + [a]).Some?
  }

  // With every sum within its width, what is found does not depend on the step being right.
  lemma SumsFit(c: Context, s: FabricState, history: seq<seq<PastUse>>, w: seq<nat>, now: nat, a: nat)
    requires Regular(c.p, c.limits) && InStep(c, s, history, w, now) && Shaped(c.p.def, s) && a < |c.p.def.actions|
    requires s.occurrences[a] < c.p.def.actions[a].maxOccurrences
    ensures SingleUse(c.p.def, c.p.def.actions[a])
    ensures s.tick + c.p.def.actions[a].duration <= MAX_U64
    ensures Execute(c.p.def, c.p.policy, c.p.start, w + [a]).Some? ==>
              Fits64(Execute(c.p.def, c.p.policy, c.p.start, w + [a]).value.cost)
  {
    hide Execute, ValidDefinition, AccountingFits, ModestCapacities, SingleUse, HistoryExact, Fits64;
    RegularTick(c.p, c.limits, w, a);
    RegularUses(c.p, c.limits, a);
    if Execute(c.p.def, c.p.policy, c.p.start, w + [a]).Some? {
      CostFits(c.p.def, c.p.policy, c.p.start, w + [a]);
    }
  }

  lemma SuccessIsStep(c: Context, s: FabricState, history: seq<seq<PastUse>>, w: seq<nat>, now: nat, a: nat)
    requires InStep(c, s, history, w, now) && Shaped(c.p.def, s) && a < |c.p.def.actions|
    requires Ready(c.p.def, c.p.policy, s, a) && Fits(c.p.def, a, Held(c.p.def, w))
    ensures s.occurrences[a] < c.p.def.actions[a].maxOccurrences
    ensures Evolve(c.p.def, s, a).Some? ==> s.tick + c.p.def.actions[a].duration <= MAX_U64
    ensures Evolve(c.p.def, s, a).Some? <==> Execute(c.p.def, c.p.policy, c.p.start, w + [a]).Some?
    ensures Evolve(c.p.def, s, a).Some? ==>
              && Execute(c.p.def, c.p.policy, c.p.start, w + [a]).value.state == Evolve(c.p.def, s, a).value
              && Execute(c.p.def, c.p.policy, c.p.start, w + [a]).value.cost
                 == Plus(Execute(c.p.def, c.p.policy, c.p.start, w).value.cost,
                         StepCost(c.p.def, s, Evolve(c.p.def, s, a).value, a))
  {
    hide Execute, HistoryExact, Held, StepCost, Evolve;
    ReadyBelowLimit(c.p.def, c.p.policy, s, a);
    ExecuteSnoc(c.p.def, c.p.policy, c.p.start, w, a);
    EvolvedTick(c.p.def, s, a);
  }

  lemma EvolvedTick(def: FabricDefinition, s: FabricState, a: nat)
    requires Shaped(def, s) && a < |def.actions| && s.occurrences[a] < def.actions[a].maxOccurrences
    ensures Evolve(def, s, a).Some? ==> s.tick + def.actions[a].duration <= MAX_U64
  {
    hide ApplyEffects, Consume, FloorGap;
  }

  lemma ReadyBelowLimit(def: FabricDefinition, policy: PlanPolicy, s: FabricState, a: nat)
    requires Shaped(def, s) && a < |def.actions| && Ready(def, policy, s, a)
    ensures s.occurrences[a] < def.actions[a].maxOccurrences
  {
  }

  // The validator's records and sums are those of the sequence w, which leads to state s.
  ghost predicate Tracks(c: Context, s: FabricState, history: seq<seq<PastUse>>, w: seq<nat>, now: nat, floor: nat,
                         completeness: nat, total: Objective)
    requires Shaped(c.p.def, s) && Shaped(c.p.def, c.p.start)
  {
    InStep(c, s, history, w, now) && SumsAgree(c, s, w, floor, completeness, total)
  }

  // The step succeeds, uses no resource twice, and what it costs fits.
  ghost predicate SucceedsWithin(c: Context, s: FabricState, w: seq<nat>, now: nat, a: nat, step: PlanStep)
    requires Shaped(c.p.def, s) && Shaped(c.p.def, c.p.start) && a < |c.p.def.actions|
  {
    && Succeeds(c, s, w, now, a, step) && SingleUse(c.p.def, c.p.def.actions[a])
    && Fits64(Execute(c.p.def, c.p.policy, c.p.start, w + [a]).value.cost)
  }

  // What a step adds to the recomputed objective.
  function Added(def: FabricDefinition, a: nat, floor: nat, floorAfter: nat, completeness: nat, completenessAfter: nat)
    : (d: Objective)
    requires a < |def.actions|
  {
    var action := def.actions[a];
    [if floorAfter > floor then 1 else 0, if floorAfter > floor then floorAfter - floor else 0,
     if completenessAfter > completeness then completenessAfter - completeness else 0,
     action.blastRadius, 1, action.disruption, action.cost, action.duration]
  }

  // The state that the validator goes on with.
  function Aged(def: FabricDefinition, s: FabricState, spent: FabricState, a: nat): (t: FabricState)
    requires Shaped(def, s) && Shaped(def, spent) && a < |def.actions|
    ensures Shaped(def, t)
  {
    var duration := def.actions[a].duration;
    spent.(tick := if s.tick + duration > MAX_U64 then s.tick else s.tick + duration,
           occurrences := spent.occurrences[a := Wrap32((spent.occurrences[a] as int) + 1)])
  }

  // What the validator has made of a step before it judges the floors.
  ghost predicate Carried(c: Context, s: FabricState, history: seq<seq<PastUse>>, floor: nat, completeness: nat,
                          total: Objective, w: seq<nat>, now: nat, a: nat, changes: bool, changed: FabricState,
                          spends: bool, spent: FabricState, recorded: seq<seq<PastUse>>, sum: Objective)
    requires Shaped(c.p.def, c.p.start) && Shaped(c.p.def, s) && Shaped(c.p.def, changed) && Shaped(c.p.def, spent)
    requires a < |c.p.def.actions|
  {
    && Tracks(c, s, history, w, now, floor, completeness, total)
    && ApplyEffects(c.p.def, s, c.p.def.actions[a].effects) == (if changes then Some(changed) else None)
    && changed.occurrences == s.occurrences && changed.tick == s.tick
    && spent == changed.(available := spent.available)
    && (AllAffordable(c.p.def, changed, c.p.def.actions[a].uses) ==>
          spends && spent == Consume(c.p.def, changed, c.p.def.actions[a].uses))
    && HistoryExact(c.p.def, w + [a], recorded)
    && var delta := Added(c.p.def, a, floor, FloorGap(c.p.def, spent), completeness, Incompleteness(c.p.def, spent));
    && (Fits64(Plus(total, delta)) ==> sum == Plus(total, delta))
  }

  // A step that passes goes on, with sums that are right, exactly when the specification does.
  lemma StepEvolves(c: Context, s: FabricState, history: seq<seq<PastUse>>, floor: nat, completeness: nat,
                    total: Objective, w: seq<nat>, now: nat, a: nat, step: PlanStep, changes: bool,
                    changed: FabricState, spends: bool, spent: FabricState, recorded: seq<seq<PastUse>>, sum: Objective)
    requires Shaped(c.p.def, c.p.start) && Shaped(c.p.def, s) && Shaped(c.p.def, changed) && Shaped(c.p.def, spent)
    requires a < |c.p.def.actions| && Passes(c, s, w, now, a, step) && SingleUse(c.p.def, c.p.def.actions[a])
    requires Carried(c, s, history, floor, completeness, total, w, now, a, changes, changed, spends, spent, recorded,
                     sum)
    requires Execute(c.p.def, c.p.policy, c.p.start, w + [a]).Some? || s.tick + c.p.def.actions[a].duration <= MAX_U64
    requires Execute(c.p.def, c.p.policy, c.p.start, w + [a]).Some? ==>
               Fits64(Execute(c.p.def, c.p.policy, c.p.start, w + [a]).value.cost)
    ensures var ok := changes && spends && FloorGap(c.p.def, spent) <= floor;
            && (ok <==> Execute(c.p.def, c.p.policy, c.p.start, w + [a]).Some?)
            && (ok ==> Tracks(c, Aged(c.p.def, s, spent, a), recorded, w + [a], now + 1, FloorGap(c.p.def, spent),
                              Incompleteness(c.p.def, spent), sum))
  {
    hide Execute, SingleUse, HistoryExact, Held, Fits64, ApplyEffects, Consume, Ready, Fits, Describes, AllAffordable;
    hide ShortfallOf;
    SuccessIsStep(c, s, history, w, now, a);
    EvolutionIs(c.p.def, c.p.policy, s, a, changes, changed, spends, spent);
    ChangedCost(c.p.def, s, spent, Aged(c.p.def, s, spent, a), a);
  }

  /** Judges one step and carries the validator's records past it, finding or not.  When the sums
      fit their widths there is no finding exactly when the step succeeds; a step that succeeds
      gets none, whatever the capacities, as long as it uses no resource twice and the cost so far
      fits. */
  method CheckStep(c: Context, s: FabricState, history: seq<seq<PastUse>>, floor: nat, completeness: nat,
                   total: Objective, ghost w: seq<nat>, now: nat, a: nat, step: PlanStep)
    returns (found: seq<Finding>, t: FabricState, recorded: seq<seq<PastUse>>, floorAfter: nat,
             completenessAfter: nat, sum: Objective)
    requires Shaped(c.p.def, c.p.start) && ValidDefinition(c.p.def, c.limits) && Shaped(c.p.def, s)
    requires |history| == |c.p.def.resources| && NoLaterThan(history, now)
    requires ActionIndex(c.p.def, step.action) == Some(a)
    ensures Shaped(c.p.def, t) && |recorded| == |c.p.def.resources| && NoLaterThan(recorded, now + 1)
    ensures Regular(c.p, c.limits) && Tracks(c, s, history, w, now, floor, completeness, total) ==>
              if found == [] then
                && Succeeds(c, s, w, now, a, step)
                && Tracks(c, t, recorded, w + [a], now + 1, floorAfter, completenessAfter, sum)
              else !Succeeds(c, s, w, now, a, step)
    ensures Tracks(c, s, history, w, now, floor, completeness, total) && SucceedsWithin(c, s, w, now, a, step) ==>
              && found == []
              && Tracks(c, t, recorded, w + [a], now + 1, floorAfter, completenessAfter, sum)
  {
    hide Execute, ValidAction, ModestCapacities, HistoryExact, Fits64, ApplyEffects, Consume, HeldFits, NoLaterThan;
    hide AllAffordable, ShortfallOf, ValidUse, ValidEffect, ValidDefinition, Regular, Passes, Succeeds, SumsAgree;
    hide SucceedsWithin, SingleUse;
    var action := c.p.def.actions[a];
    ListedAction(c, a);
    found := JudgeStep(c, s, history, w, now, a, step);
    ghost var judged := found == [];
    var refused, changed := ChangeAll(c.p.def, s, action.effects, now);
    found := found + refused;
    var short, spent;
    short, spent, recorded := SpendAndRecord(c.p.def, changed, history, w, now, a);
    found := found + short;
    floorAfter := Shortfall(c.p.def, spent, false);
    completenessAfter := Shortfall(c.p.def, spent, true);
    if floorAfter > floor {
      found := found + [Finding(SafetyViolation, Some(now))];
    }
    sum := Recompute(total, Added(c.p.def, a, floor, floorAfter, completeness, completenessAfter));
    t := Aged(c.p.def, s, spent, a);
    LaterStill(recorded, now);
    if Tracks(c, s, history, w, now, floor, completeness, total) {
      if Regular(c.p, c.limits) {
        RegularHeldNow(c, w);
        OnlyPassing(c, s, w, now, a, step);
        if judged {
          RegularPasses(c, s, history, w, now, a, step, floor, completeness, total);
        }
      }
      if SucceedsWithin(c, s, w, now, a, step) {
        WithinPasses(c, s, w, now, a, step);
      }
      if judged && (Regular(c.p, c.limits) || SucceedsWithin(c, s, w, now, a, step)) {
        StepEvolves(c, s, history, floor, completeness, total, w, now, a, step, refused == [], changed, short == [],
                    spent, recorded, sum);
      }
    }
  }

  lemma RegularPasses(c: Context, s: FabricState, history: seq<seq<PastUse>>, w: seq<nat>, now: nat, a: nat,
                      step: PlanStep, floor: nat, completeness: nat, total: Objective)
    requires Regular(c.p, c.limits) && Shaped(c.p.def, s) && a < |c.p.def.actions|
    requires Tracks(c, s, history, w, now, floor, completeness, total) && Passes(c, s, w, now, a, step)
    ensures SingleUse(c.p.def, c.p.def.actions[a]) && s.tick + c.p.def.actions[a].duration <= MAX_U64
    ensures Execute(c.p.def, c.p.policy, c.p.start, w + [a]).Some? ==>
              Fits64(Execute(c.p.def, c.p.policy, c.p.start, w + [a]).value.cost)
    ensures Succeeds(c, s, w, now, a, step) <==> Execute(c.p.def, c.p.policy, c.p.start, w + [a]).Some?
  {
    hide Execute, Ready, Fits, Describes, SingleUse, HistoryExact, SumsAgree, Fits64, Regular, Held;
    ReadyBelowLimit(c.p.def, c.p.policy, s, a);
    SumsFit(c, s, history, w, now, a);
  }

  lemma WithinPasses(c: Context, s: FabricState, w: seq<nat>, now: nat, a: nat, step: PlanStep)
    requires Shaped(c.p.def, s) && Shaped(c.p.def, c.p.start) && a < |c.p.def.actions|
    requires SucceedsWithin(c, s, w, now, a, step)
    ensures Passes(c, s, w, now, a, step) && SingleUse(c.p.def, c.p.def.actions[a])
    ensures Execute(c.p.def, c.p.policy, c.p.start, w + [a]).Some?
    ensures Fits64(Execute(c.p.def, c.p.policy, c.p.start, w + [a]).value.cost)
  {
    hide Execute, Passes, SingleUse, Fits64;
  }

  lemma OnlyPassing(c: Context, s: FabricState, w: seq<nat>, now: nat, a: nat, step: PlanStep)
    requires Shaped(c.p.def, s) && Shaped(c.p.def, c.p.start) && a < |c.p.def.actions|
    ensures Succeeds(c, s, w, now, a, step) ==> Passes(c, s, w, now, a, step)
  {
    hide Execute, Passes;
  }

  lemma RegularHeldNow(c: Context, w: seq<nat>)
    requires Regular(c.p, c.limits) && Execute(c.p.def, c.p.policy, c.p.start, w).Some?
    ensures ModestCapacities(c.p.def) && HeldFits(c.p.def, w)
  {
    hide Execute, HeldFits, ValidDefinition, AccountingFits, SingleUses;
    RegularHeld(c.p, c.limits, w);
  }

  // What the validator finds while evolving the state is whether the specification evolves.
  lemma EvolutionIs(def: FabricDefinition, policy: PlanPolicy, s: FabricState, a: nat, changes: bool,
                    changed: FabricState, spends: bool, spent: FabricState)
    requires Shaped(def, s) && Shaped(def, changed) && Shaped(def, spent) && a < |def.actions|
    requires Ready(def, policy, s, a) && SingleUse(def, def.actions[a])
    requires s.occurrences[a] < def.actions[a].maxOccurrences
    requires Evolve(def, s, a).Some? || s.tick + def.actions[a].duration <= MAX_U64
    requires ApplyEffects(def, s, def.actions[a].effects) == if changes then Some(changed) else None
    requires AllAffordable(def, changed, def.actions[a].uses) ==>
               spends && spent == Consume(def, changed, def.actions[a].uses)
    ensures Evolve(def, s, a).Some? <==> changes && spends && FloorGap(def, spent) <= FloorGap(def, s)
    ensures Evolve(def, s, a).Some? ==>
              Evolve(def, s, a).value == spent.(occurrences := spent.occurrences[a := s.occurrences[a] + 1],
                                                tick := s.tick + def.actions[a].duration)
  {
    hide ApplyEffects, Consume, AllAffordable, Ready, SingleUse, ShortfallOf;
    if changes {
      ReadyIsAffordable(def, policy, s, a);
    }
  }

  lemma ChangedCost(def: FabricDefinition, s: FabricState, spent: FabricState, t: FabricState, a: nat)
    requires Shaped(def, s) && Shaped(def, spent) && Shaped(def, t) && a < |def.actions|
    requires t.reachable == spent.reachable && t.serviceKnown == spent.serviceKnown
    ensures FloorGap(def, t) == FloorGap(def, spent) && Incompleteness(def, t) == Incompleteness(def, spent)
    ensures StepCost(def, s, t, a)
         == [0, 0, Rise(Incompleteness(def, s), Incompleteness(def, spent)), def.actions[a].blastRadius, 1,
             def.actions[a].disruption, def.actions[a].cost, def.actions[a].duration]
  {
    hide ShortfallOf;
    SameServicesSameShortfall(def, spent, t, false, |def.services|);
    SameServicesSameShortfall(def, spent, t, true, |def.services|);
  }

  lemma ListedAction(c: Context, a: nat)
    requires ValidDefinition(c.p.def, c.limits) && a < |c.p.def.actions|
    ensures ValidAction(c.p.def, c.limits, c.p.def.actions[a])
    ensures forall e :: 0 <= e < |c.p.def.actions[a].effects| ==> ValidEffect(c.p.def, c.p.def.actions[a].effects[e])
    ensures forall u :: 0 <= u < |c.p.def.actions[a].uses| ==> ValidUse(c.p.def, c.p.def.actions[a].uses[u])
  {
    hide ValidPrecondition, ValidEffect, ValidUse, ValidDependency, ValidReversibility, GoodIds, GroupIndex;
  }

  // ---- The whole plan -------------------------------------------------------

  // Steps that carry out one sequence carry out no other.
  lemma SameSequence(c: Context, steps: seq<PlanStep>, now: nat, w: seq<nat>, v: seq<nat>)
    requires Shaped(c.p.def, c.p.start) && Distinct(ActionIds(c.p.def)) && now <= |steps|
    requires CarriesOut(c, steps[..now], w) && CarriesOut(c, steps, v)
    ensures v[..now] == w
    ensures now < |steps| ==>
              Execute(c.p.def, c.p.policy, c.p.start, w + [v[now]]).Some? && StepOf(c, v, now, steps[now])
  {
    hide Execute, AuthorityStated, CompensationStated, Supports;
    forall k | 0 <= k < now
      ensures v[k] == w[k]
    {
      assert StepOf(c, w, k, steps[..now][k]) && StepOf(c, v, k, steps[k]);
      assert ActionIds(c.p.def)[v[k]] == ActionIds(c.p.def)[w[k]];
    }
    assert v[..now] == w;
    if now < |steps| {
      Prefixes(c.p.def, c.p.policy, c.p.start, v, now + 1);
      assert v[..now + 1] == w + [v[now]];
    }
  }

  // One more step, when it succeeds.
  lemma CarriesOn(c: Context, steps: seq<PlanStep>, now: nat, w: seq<nat>, s: FabricState, history: seq<seq<PastUse>>,
                  a: nat)
    requires Shaped(c.p.def, c.p.start) && NothingExecuted(c.p.start)
    requires Shaped(c.p.def, s) && now < |steps| && a < |c.p.def.actions|
    requires CarriesOut(c, steps[..now], w) && InStep(c, s, history, w, now)
    requires Succeeds(c, s, w, now, a, steps[now])
    ensures CarriesOut(c, steps[..now + 1], w + [a])
  {
    hide Execute, AuthorityStated, CompensationStated, Supports, Ready, Fits, Held, HistoryExact, NothingExecuted;
    OccurrencesAreCounts(c.p.def, c.p.policy, c.p.start, w, a);
    var next, list := w + [a], steps[..now + 1];
    forall k | 0 <= k < |next|
      ensures StepOf(c, next, k, list[k])
    {
      if k < now {
        assert StepOf(c, w, k, steps[..now][k]);
        assert next[..k] == w[..k];
      } else {
        assert next[..k] == w;
      }
    }
  }

  // A step that fails rules out the whole plan.
  lemma CarriesNoFurther(c: Context, steps: seq<PlanStep>, now: nat, w: seq<nat>, s: FabricState,
                         history: seq<seq<PastUse>>)
    requires Shaped(c.p.def, c.p.start) && ValidDefinition(c.p.def, c.limits) && NothingExecuted(c.p.start)
    requires Shaped(c.p.def, s) && now < |steps|
    requires CarriesOut(c, steps[..now], w) && InStep(c, s, history, w, now)
    requires var a := ActionIndex(c.p.def, steps[now].action);
             a.None? || !Succeeds(c, s, w, now, a.value, steps[now])
    ensures forall v :: !CarriesOut(c, steps, v)
  {
    hide Execute, AuthorityStated, CompensationStated, Supports, Held, HistoryExact;
    hide Evolve, Ready, Fits, CarriesOut, ValidAction, ValidGoal, ValidLink, ValidService;
    forall v
      ensures !CarriesOut(c, steps, v)
    {
      if CarriesOut(c, steps, v) {
        SameSequence(c, steps, now, w, v);
        CarriedLength(c, steps, v);
        var a := v[now];
        FindUnique(ActionIds(c.p.def), a);
        ExecuteSnoc(c.p.def, c.p.policy, c.p.start, w, a);
        StepSplits(c.p.def, c.p.policy, s, Held(c.p.def, w), a);
        OccurrencesAreCounts(c.p.def, c.p.policy, c.p.start, w, a);
      }
    }
  }

  lemma CarriedLength(c: Context, steps: seq<PlanStep>, v: seq<nat>)
    requires Shaped(c.p.def, c.p.start) && CarriesOut(c, steps, v)
    ensures |v| == |steps| <= c.p.policy.maxPlanSteps
    ensures Execute(c.p.def, c.p.policy, c.p.start, v).Some?
  {
    hide Execute, StepOf;
  }

  lemma StepSplits(def: FabricDefinition, policy: PlanPolicy, s: FabricState, held: seq<nat>, a: nat)
    requires Shaped(def, s) && |held| == |def.resources| && a < |def.actions|
    ensures Step(def, policy, s, held, a).Some? ==> Ready(def, policy, s, a) && Fits(def, a, held)
  {
    hide Fits, Ready, Evolve;
  }

  lemma NothingCarried(c: Context, history: seq<seq<PastUse>>, steps: seq<PlanStep>)
    requires Shaped(c.p.def, c.p.start) && |history| == |c.p.def.resources|
    requires forall r :: 0 <= r < |history| ==> history[r] == []
    ensures CarriesOut(c, steps[..0], []) && NoLaterThan(history, 0)
    ensures Tracks(c, c.p.start, history, [], 0, FloorGap(c.p.def, c.p.start), Incompleteness(c.p.def, c.p.start), ZERO)
  {
  }

  // The steps carry out w, which meets every goal at exactly the stated cost.
  ghost predicate Fulfils(c: Context, body: PlanBody, w: seq<nat>)
    requires Shaped(c.p.def, c.p.start)
  {
    && CarriesOut(c, body.steps, w)
    && GoalsMet(c.p.def, Execute(c.p.def, c.p.policy, c.p.start, w).value.state)
    && body.objective == Execute(c.p.def, c.p.policy, c.p.start, w).value.cost
  }

  method CheckGoals(def: FabricDefinition, s: FabricState) returns (found: seq<Finding>)
    requires Shaped(def, s)
    requires forall g :: 0 <= g < |def.goals| ==>
               TypedIndex(def, def.goals[g].subject, GoalSubject(def.goals[g].kind)).Some?
    ensures found == [] <==> GoalsMet(def, s)
  {
    hide SubjectIndex;
    found := [];
    for g := 0 to |def.goals|
      invariant found == [] <==> forall h :: 0 <= h < g ==> GoalMet(def, s, def.goals[h])
    {
      var goal := def.goals[g];
      var i := SubjectIndex(def, goal.subject).value;
      var satisfied;
      match goal.kind {
        case LinkGoal => satisfied := s.linkKnown[i] && s.linkUp[i];
        case NodeGoal => satisfied := s.nodeKnown[i] && s.nodeUp[i];
        case RestoredGoal => satisfied := s.resourceKnown[i] && s.restored[i];
        case ServiceGoal => satisfied := s.serviceKnown[i] && s.reachable[i] >= goal.value;
      }
      if !satisfied {
        assert !GoalMet(def, s, def.goals[g]);
        found := found + [Finding(GoalUnmet, None)];
      }
    }
  }

  // A plan that the steps carry out, with no resource used twice and a cost that fits.
  ghost predicate Fair(c: Context, body: PlanBody, v: seq<nat>)
    requires Shaped(c.p.def, c.p.start)
  {
    Fulfils(c, body, v) && SingleUses(c.p.def) && Fits64(body.objective)
  }

  lemma {:induction false} PrefixCostFits(def: FabricDefinition, policy: PlanPolicy, start: FabricState, v: seq<nat>,
                                          k: nat)
    requires Shaped(def, start) && Execute(def, policy, start, v).Some? && k <= |v|
    requires Fits64(Execute(def, policy, start, v).value.cost)
    ensures Execute(def, policy, start, v[..k]).Some? && Fits64(Execute(def, policy, start, v[..k]).value.cost)
    decreases |v|
  {
    hide Step, Held, StepCost;
    if k == |v| {
      assert v[..k] == v;
    } else {
      var u := v[..|v| - 1];
      ExecuteLast(def, policy, start, v);
      PrefixCostFits(def, policy, start, u, k);
      assert u[..k] == v[..k];
    }
  }

  // The next step of a fair plan succeeds, and what it costs fits.
  lemma FairStep(c: Context, body: PlanBody, v: seq<nat>, w: seq<nat>, now: nat, s: FabricState,
                 history: seq<seq<PastUse>>)
    requires Shaped(c.p.def, c.p.start) && ValidDefinition(c.p.def, c.limits) && NothingExecuted(c.p.start)
    requires Fair(c, body, v) && now < |body.steps| && Shaped(c.p.def, s)
    requires CarriesOut(c, body.steps[..now], w) && InStep(c, s, history, w, now)
    ensures var a := ActionIndex(c.p.def, body.steps[now].action);
            a.Some? && SucceedsWithin(c, s, w, now, a.value, body.steps[now])
  {
    hide Execute, CarriesOut, AuthorityStated, CompensationStated, Supports, Held, HistoryExact, Ready, Fits, Evolve;
    hide SingleUse, ValidAction, ValidGoal, ValidLink, ValidService, GoalsMet, Fits64, NothingExecuted;
    var p := c.p;
    SameSequence(c, body.steps, now, w, v);
    CarriedLength(c, body.steps, v);
    AdmissibleIsWord(p.def, p.policy, p.start, v);
    var a := v[now];
    FindUnique(ActionIds(p.def), a);
    assert ActionIds(p.def)[a] == body.steps[now].action;
    PrefixCostFits(p.def, p.policy, p.start, v, now + 1);
    assert v[..now + 1] == w + [a];
    ExecuteSnoc(p.def, p.policy, p.start, w, a);
    StepSplits(p.def, p.policy, s, Held(p.def, w), a);
    OccurrencesAreCounts(p.def, p.policy, p.start, w, a);
  }

  /** Re-simulates the steps of a plan from the initial state.  When the sums fit their widths
      there is no finding exactly when the steps carry out a plan.  A plan that uses no resource
      twice gets none in any case, whatever the capacities and whatever other plans would cost. */
  method CheckSteps(c: Context, body: PlanBody) returns (found: seq<Finding>, objective: Objective)
    requires Shaped(c.p.def, c.p.start) && ValidDefinition(c.p.def, c.limits) && NothingExecuted(c.p.start)
    ensures Regular(c.p, c.limits) ==> (found == [] <==> exists w :: Fulfils(c, body, w))
    ensures (exists w :: Fair(c, body, w)) ==> found == []
  {
    hide Execute, HistoryExact, AccountingFits, SingleUses, ValidDefinition, GoalsMet, NoLaterThan, ShortfallOf;
    hide CarriesOut, ActionIndex, InStep, SumsAgree, Succeeds, ModestCapacities, NothingExecuted, Regular, Fair;
    hide SucceedsWithin, Tracks;
    found, objective := [], ZERO;
    var steps := body.steps;
    var s := c.p.start;
    var history := seq(|c.p.def.resources|, i => []);
    var floor := Shortfall(c.p.def, s, false);
    var completeness := Shortfall(c.p.def, s, true);
    ghost var w: seq<nat> := [];
    ghost var fair := exists v :: Fair(c, body, v);
    ghost var regular := Regular(c.p, c.limits);
    NothingCarried(c, history, steps);
    for now := 0 to |steps|
      invariant Shaped(c.p.def, s) && |history| == |c.p.def.resources| && NoLaterThan(history, now)
      invariant (regular || fair) && found == [] ==>
                  CarriesOut(c, steps[..now], w) && Tracks(c, s, history, w, now, floor, completeness, objective)
      invariant regular && found != [] ==> forall v :: !CarriesOut(c, steps, v)
      invariant fair ==> found == []
    {
      ghost var before := w;
      if fair {
        FairSteps(c, body, w, now, s, history, floor, completeness, objective);
      }
      var index := ActionIndex(c.p.def, steps[now].action);
      if index.None? {
        if regular && found == [] {
          TracksSteps(c, s, history, w, now, floor, completeness, objective);
          CarriesNoFurther(c, steps, now, w, s, history);
        }
        found := found + [Finding(OrderingViolation, Some(now))];
        LaterStill(history, now);
        continue;
      }
      var a := index.value;
      var more, t, recorded, floorAfter, completenessAfter, sum :=
        CheckStep(c, s, history, floor, completeness, objective, w, now, a, steps[now]);
      if (regular || fair) && found == [] {
        TracksSteps(c, s, history, w, now, floor, completeness, objective);
        if more == [] {
          SucceedsParts(c, s, w, now, a, steps[now]);
          CarriesOn(c, steps, now, w, s, history, a);
        } else {
          CarriesNoFurther(c, steps, now, w, s, history);
        }
      }
      found, s, history, floor, completeness, objective :=
        found + more, t, recorded, floorAfter, completenessAfter, sum;
      w := w + [a];
    }
    assert steps[..|steps|] == steps;
    if (regular || fair) && found == [] {
      Concluded(c, body, w, s, history, floor, completeness, objective);
    } else if regular {
      NeverFulfilled(c, body);
    }
    Reference.GoalsTyped(c.p.def, c.limits);
    var goals := CheckGoals(c.p.def, s);
    found := found + goals;
    if objective != body.objective {
      found := found + [Finding(ObjectiveMismatch, None)];
    }
    if fair {
      FairFulfils(c, body);
    }
  }

  lemma FulfilsFairly(c: Context, body: PlanBody)
    requires Shaped(c.p.def, c.p.start) && exists v :: Fulfils(c, body, v)
    requires SingleUses(c.p.def) && Fits64(body.objective)
    ensures exists v :: Fair(c, body, v)
  {
    hide Fulfils, SingleUses, Fits64;
    var v :| Fulfils(c, body, v);
    assert Fair(c, body, v);
  }

  lemma FairFulfils(c: Context, body: PlanBody)
    requires Shaped(c.p.def, c.p.start) && exists v :: Fair(c, body, v)
    ensures exists v :: Fulfils(c, body, v)
  {
    hide Fulfils;
  }

  lemma FairSteps(c: Context, body: PlanBody, w: seq<nat>, now: nat, s: FabricState, history: seq<seq<PastUse>>,
                  floor: nat, completeness: nat, total: Objective)
    requires Shaped(c.p.def, c.p.start) && ValidDefinition(c.p.def, c.limits) && NothingExecuted(c.p.start)
    requires (exists v :: Fair(c, body, v)) && now < |body.steps| && Shaped(c.p.def, s)
    requires CarriesOut(c, body.steps[..now], w) && Tracks(c, s, history, w, now, floor, completeness, total)
    ensures var a := ActionIndex(c.p.def, body.steps[now].action);
            a.Some? && SucceedsWithin(c, s, w, now, a.value, body.steps[now])
  {
    hide Fair, InStep, SumsAgree, CarriesOut, ValidDefinition, NothingExecuted, ActionIndex, SucceedsWithin;
    var v :| Fair(c, body, v);
    FairStep(c, body, v, w, now, s, history);
  }

  lemma TracksSteps(c: Context, s: FabricState, history: seq<seq<PastUse>>, w: seq<nat>, now: nat, floor: nat,
                    completeness: nat, total: Objective)
    requires Shaped(c.p.def, s) && Shaped(c.p.def, c.p.start)
    requires Tracks(c, s, history, w, now, floor, completeness, total)
    ensures InStep(c, s, history, w, now) && SumsAgree(c, s, w, floor, completeness, total)
  {
    hide InStep, SumsAgree;
  }

  lemma SucceedsParts(c: Context, s: FabricState, w: seq<nat>, now: nat, a: nat, step: PlanStep)
    requires Shaped(c.p.def, s) && Shaped(c.p.def, c.p.start) && a < |c.p.def.actions|
    ensures SucceedsWithin(c, s, w, now, a, step) ==> Succeeds(c, s, w, now, a, step)
  {
    hide Succeeds;
  }

  lemma Concluded(c: Context, body: PlanBody, w: seq<nat>, s: FabricState, history: seq<seq<PastUse>>, floor: nat,
                  completeness: nat, total: Objective)
    requires Shaped(c.p.def, c.p.start) && ValidDefinition(c.p.def, c.limits) && Shaped(c.p.def, s)
    requires CarriesOut(c, body.steps, w) && Tracks(c, s, history, w, |body.steps|, floor, completeness, total)
    ensures (exists v :: Fulfils(c, body, v)) <==> GoalsMet(c.p.def, s) && body.objective == total
  {
    hide Execute, HistoryExact, GoalsMet, CarriesOut, ShortfallOf, ValidAction, ValidGoal, ValidLink, ValidService;
    assert body.steps[..|body.steps|] == body.steps;
    forall v | CarriesOut(c, body.steps, v)
      ensures v == w
    {
      SameSequence(c, body.steps, |body.steps|, w, v);
      CarriedLength(c, body.steps, v);
      assert v[..|body.steps|] == v;
    }
    if GoalsMet(c.p.def, s) && body.objective == total {
      assert Fulfils(c, body, w);
    }
  }

  lemma NeverFulfilled(c: Context, body: PlanBody)
    requires Shaped(c.p.def, c.p.start) && forall v :: !CarriesOut(c, body.steps, v)
    ensures forall v :: !Fulfils(c, body, v)
  {
    hide CarriesOut, Execute, GoalsMet;
  }

  // ---- The verdict ----------------------------------------------------------

  function ContextOf(request: PlanRequest, start: FabricState): Context {
    Context(Problem(request.definition, request.policy, start), DEFAULT_LIMITS, request.authority.bindings,
            request.evidence.facts)
  }

  // The state that the evidence of a request establishes.
  ghost predicate StartsAt(request: PlanRequest, start: FabricState) {
    Reflects(request.definition, start,
             EstablishedValues(request.definition, request.authority.bindings, request.evidence.facts))
  }

  // What makes a plan a valid answer to a request.
  ghost predicate Conforms(h: Hashing, request: PlanRequest, plan: RecoveryPlan) {
    && Authentic(h, request, plan)
    && ValidDefinition(request.definition, DEFAULT_LIMITS)
    && exists start, w :: StartsAt(request, start) && Fulfils(ContextOf(request, start), plan.body, w)
  }

  // No step adds up beyond its width, and no action uses or overwrites a resource twice.
  predicate Accountable(def: FabricDefinition) {
    SingleUses(def) && ModestCapacities(def) && AccountingFits(def)
  }

  lemma StartIsRegular(request: PlanRequest, start: FabricState)
    requires StartsAt(request, start) && Accountable(request.definition)
    requires ValidDefinition(request.definition, DEFAULT_LIMITS)
    ensures Regular(ContextOf(request, start).p, DEFAULT_LIMITS)
  {
    hide ValidDefinition, SingleUses, ModestCapacities, AccountingFits, EstablishedValues;
    hide LinkReflects, NodeReflects, ServiceReflects, ResourceReflects;
  }

  lemma ConformsFrom(h: Hashing, request: PlanRequest, plan: RecoveryPlan, start: FabricState)
    requires StartsAt(request, start) && Authentic(h, request, plan)
    requires ValidDefinition(request.definition, DEFAULT_LIMITS)
    requires Shaped(request.definition, start)
    ensures Conforms(h, request, plan) <==> exists w :: Fulfils(ContextOf(request, start), plan.body, w)
  {
    hide ValidDefinition, EstablishedValues, Fulfils, Authentic, LinkReflects, NodeReflects, ServiceReflects;
    hide ResourceReflects;
    if Conforms(h, request, plan) {
      var other, w :| StartsAt(request, other) && Fulfils(ContextOf(request, other), plan.body, w);
      ReflectsUnique(request.definition, start, other,
                     EstablishedValues(request.definition, request.authority.bindings, request.evidence.facts));
    }
  }

  // No action uses or overwrites a resource twice, and the stated objective fits 64 bits, as every
  // objective that can be written down does.
  predicate Tidy(request: PlanRequest, plan: RecoveryPlan) {
    SingleUses(request.definition) && Fits64(plan.body.objective)
  }

  /** The validator's verdict.  When the sums fit their widths there is no finding exactly when the
      plan conforms.  A plan that conforms and uses no resource twice gets none in any case. */
  method ValidatePlan(h: Hashing, request: PlanRequest, plan: RecoveryPlan) returns (found: seq<Finding>)
    ensures Accountable(request.definition) ==> (found == [] <==> Conforms(h, request, plan))
    ensures Conforms(h, request, plan) && Tidy(request, plan) ==> found == []
  {
    hide Authentic, StartsAt, Fulfils, ValidDefinition, Accountable, Regular, Reflects, Conforms, SingleUses, Fits64;
    hide NothingExecuted;
    var bound := CheckBinding(h, request, plan);
    var valid := ValidateDefinition(request.definition, DEFAULT_LIMITS);
    if !valid {
      Unbound(h, request, plan);
      return bound + [Finding(InvalidDefinition, None)];
    }
    ValidHasIds(request.definition);
    var start := ReconcileFacts(request.definition, request.authority.bindings, request.evidence.facts);
    StartIs(request, start);
    if Accountable(request.definition) {
      StartIsRegular(request, start);
    }
    StartIsBlank(request, start);
    var steps, objective := CheckSteps(ContextOf(request, start), plan.body);
    Unbound(h, request, plan);
    if bound == [] {
      ConformsFrom(h, request, plan, start);
      if Conforms(h, request, plan) && Tidy(request, plan) {
        FulfilsFairly(ContextOf(request, start), plan.body);
      }
    }
    found := bound + steps;
  }

  lemma Unbound(h: Hashing, request: PlanRequest, plan: RecoveryPlan)
    ensures Conforms(h, request, plan) ==>
              Authentic(h, request, plan) && ValidDefinition(request.definition, DEFAULT_LIMITS)
  {
    hide Authentic, ValidDefinition, StartsAt, Fulfils;
  }

  lemma ValidHasIds(def: FabricDefinition)
    requires ValidDefinition(def, DEFAULT_LIMITS)
    ensures ValidIds(def)
  {
  }

  lemma StartIs(request: PlanRequest, start: FabricState)
    requires Reflects(request.definition, start,
               EstablishedValues(request.definition, request.authority.bindings, request.evidence.facts))
    ensures StartsAt(request, start)
  {
  }

  lemma StartIsBlank(request: PlanRequest, start: FabricState)
    requires StartsAt(request, start)
    ensures Shaped(request.definition, start) && NothingExecuted(start)
  {
    hide LinkReflects, NodeReflects, ServiceReflects, ResourceReflects, EstablishedValues;
  }
}
