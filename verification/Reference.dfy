/** The reference solver: a checker that runs one sequence anew on its own, and the
    exhaustive enumeration built on it. */
module Reference {
  import opened Ints
  import opened Domain
  import opened Objectives
  import opened Dynamics
  import opened Definition
  import opened Evidence
  import opened Problems
  import opened Accounting
  import opened Histories
  import opened Untimed
  import opened Safety
  import opened Regularity
  import opened Overlapping
  import opened Transition

  // ---- Guards ---------------------------------------------------------------

  method DependenciesMet(def: FabricDefinition, t: FabricState, a: nat) returns (ok: bool)
    requires Shaped(def, t) && a < |def.actions|
    ensures ok <==> forall d | 0 <= d < |def.actions[a].dependencies| ::
                      DependencyMet(def, t, def.actions[a].dependencies[d])
  {
    hide ActionIndex;
    var list := def.actions[a].dependencies;
    for i := 0 to |list|
      invariant forall j :: 0 <= j < i ==> DependencyMet(def, t, list[j])
    {
      var p := ActionIndex(def, list[i].predecessor);
      if p.None? || t.occurrences[p.value] < list[i].minOccurrences {
        assert !DependencyMet(def, t, list[i]);
        return false;
      }
    }
    return true;
  }

  /** Counts the executed actions of a group by scanning every action. */
  method CountSelected(def: FabricDefinition, t: FabricState, group: U64) returns (selected: nat)
    requires Shaped(def, t)
    ensures selected == Selected(def, t, group, |def.actions|)
  {
    selected := 0;
    for c := 0 to |def.actions|
      invariant selected == Selected(def, t, group, c)
    {
      if t.occurrences[c] != 0 && group in def.actions[c].groups {
        selected := selected + 1;
      }
    }
  }

  method GroupsHaveRoom(def: FabricDefinition, t: FabricState, a: nat) returns (ok: bool)
    requires Shaped(def, t) && a < |def.actions|
    ensures ok <==> forall g | 0 <= g < |def.actions[a].groups| :: GroupOpen(def, t, def.actions[a].groups[g])
  {
    hide GroupIndex, Selected;
    var list := def.actions[a].groups;
    for i := 0 to |list|
      invariant forall j :: 0 <= j < i ==> GroupOpen(def, t, list[j])
    {
      var g := GroupIndex(def, list[i]);
      if g.None? {
        assert !GroupOpen(def, t, list[i]);
        return false;
      }
      var selected := CountSelected(def, t, list[i]);
      if selected >= def.groups[g.value].maxSelected {
        assert !GroupOpen(def, t, list[i]);
        return false;
      }
    }
    return true;
  }

  method PreconditionEstablished(def: FabricDefinition, t: FabricState, p: Precondition) returns (ok: bool)
    requires Shaped(def, t) && ValidPrecondition(def, p)
    ensures ok <==> PreconditionHolds(def, t, p)
  {
    var i := SubjectIndex(def, p.subject).value;
    match p.kind {
      case LinkIsUp => ok := t.linkKnown[i] && t.linkUp[i];
      case LinkIsDown => ok := t.linkKnown[i] && !t.linkUp[i];
      case NodeIsUp => ok := t.nodeKnown[i] && t.nodeUp[i];
      case NodeIsDown => ok := t.nodeKnown[i] && !t.nodeUp[i];
      case ServiceAtLeast => ok := t.serviceKnown[i] && t.reachable[i] >= p.value;
      case ServiceAtMost => ok := t.serviceKnown[i] && t.reachable[i] <= p.value;
      case AvailableAtLeast => ok := t.resourceKnown[i] && t.available[i] >= p.value;
      case ExecutedAtLeast => ok := t.occurrences[i] >= p.value;
    }
  }

  method PreconditionsEstablished(def: FabricDefinition, t: FabricState, list: seq<Precondition>) returns (ok: bool)
    requires Shaped(def, t) && forall p :: 0 <= p < |list| ==> ValidPrecondition(def, list[p])
    ensures ok <==> forall p | 0 <= p < |list| :: PreconditionHolds(def, t, list[p])
  {
    hide ValidPrecondition, PreconditionHolds;
    for i := 0 to |list|
      invariant forall j :: 0 <= j < i ==> PreconditionHolds(def, t, list[j])
    {
      ok := PreconditionEstablished(def, t, list[i]);
      if !ok {
        return;
      }
    }
    return true;
  }

  /** One use against the state and the recorded holds, summed in 32 bits. */
  method UseFits(def: FabricDefinition, t: FabricState, history: seq<seq<PastUse>>, now: nat, use: ResourceUse)
    returns (ok: bool)
    requires Shaped(def, t) && |history| == |def.resources|
    requires var r := ResourceIndex(def, use.resource);
             r.Some? && def.resources[r.value].kind == Reusable ==> ListNoLater(history[r.value], now)
    ensures ok <==> UsePasses(def, t, history, now, use)
  {
    hide ResourceIndex, Overlap;
    var index := ResourceIndex(def, use.resource);
    if index.None? {
      return false;
    }
    var r := index.value;
    if def.resources[r].kind == Consumable {
      return t.resourceKnown[r] && t.available[r] >= use.units;
    }
    var total := SumOverlap(history[r], now, def.resources[r].holdSteps, use.units);
    return total <= def.resources[r].capacity;
  }

  lemma ExactIsEarlier(def: FabricDefinition, w: seq<nat>, history: seq<seq<PastUse>>, r: nat)
    requires HistoryExact(def, w, history) && r < |def.resources| && def.resources[r].kind == Reusable
    ensures |history| == |def.resources| && ListNoLater(history[r], |w|)
  {
    PastIsEarlier(def, w, r, |w|);
  }

  lemma UseRecorded(def: FabricDefinition, w: seq<nat>, history: seq<seq<PastUse>>, use: ResourceUse)
    requires HistoryExact(def, w, history)
    ensures |history| == |def.resources|
    ensures var r := ResourceIndex(def, use.resource);
            r.Some? && def.resources[r.value].kind == Reusable ==> ListNoLater(history[r.value], |w|)
  {
    hide ResourceIndex, ListNoLater, Past;
    var r := ResourceIndex(def, use.resource);
    if r.Some? && def.resources[r.value].kind == Reusable {
      ExactIsEarlier(def, w, history, r.value);
    }
  }

  method UsesFit(def: FabricDefinition, t: FabricState, history: seq<seq<PastUse>>, ghost w: seq<nat>, now: nat, a: nat)
    returns (ok: bool)
    requires Shaped(def, t) && HistoryExact(def, w, history) && now == |w|
    requires ModestCapacities(def) && HeldFits(def, w) && a < |def.actions|
    requires forall u :: 0 <= u < |def.actions[a].uses| ==> ValidUse(def, def.actions[a].uses[u])
    ensures ok <==> (forall u | 0 <= u < |def.actions[a].uses| :: ConsumableReady(def, t, def.actions[a].uses[u]))
                    && Fits(def, a, Held(def, w))
  {
    hide ValidUse, UseFree, UsePasses, ConsumableReady, Fits, HistoryExact, ModestCapacities, HeldFits, Held;
    hide ListNoLater;
    var uses := def.actions[a].uses;
    UsesFree(def, t, Held(def, w), a);
    for i := 0 to |uses|
      invariant forall j :: 0 <= j < i ==> UseFree(def, t, Held(def, w), uses[j])
    {
      UseRecorded(def, w, history, uses[i]);
      ok := UseFits(def, t, history, now, uses[i]);
      PassesIsFree(def, t, history, w, uses[i]);
      if !ok {
        return;
      }
    }
    return true;
  }

  method Admits(def: FabricDefinition, limits: ModelLimits, policy: PlanPolicy, t: FabricState,
                history: seq<seq<PastUse>>, ghost w: seq<nat>, now: nat, a: nat)
    returns (ok: bool)
    requires Shaped(def, t) && HistoryExact(def, w, history) && now == |w|
    requires ModestCapacities(def) && HeldFits(def, w)
    requires a < |def.actions| && ValidAction(def, limits, def.actions[a])
    ensures ok <==> Ready(def, policy, t, a) && Fits(def, a, Held(def, w))
  {
    hide ValidPrecondition, ValidEffect, ValidUse, ValidDependency, ValidReversibility, GoodIds, GroupIndex, Held;
    hide DependencyMet, GroupOpen, PreconditionHolds, ConsumableReady, Fits, HistoryExact, HeldFits;
    var action := def.actions[a];
    if t.occurrences[a] >= action.maxOccurrences {
      return false;
    }
    ok := DependenciesMet(def, t, a);
    if !ok {
      return;
    }
    if t.occurrences[a] == 0 {
      ok := GroupsHaveRoom(def, t, a);
      if !ok {
        return;
      }
    }
    ok := PreconditionsEstablished(def, t, action.preconditions);
    if !ok {
      return;
    }
    if action.reversibility == Irreversible && !policy.allowIrreversible {
      return false;
    }
    ok := UsesFit(def, t, history, w, now, a);
  }

  // ---- Evolution ------------------------------------------------------------

  method ChangeState(def: FabricDefinition, t: FabricState, e: Effect) returns (r: Option<FabricState>)
    requires Shaped(def, t) && ValidEffect(def, e)
    ensures r == ApplyEffect(def, t, e)
  {
    var i := SubjectIndex(def, e.subject).value;
    match e.kind {
      case SetLink =>
        r := Some(t.(linkUp := t.linkUp[i := e.value != 0], linkKnown := t.linkKnown[i := true]));
      case SetNode =>
        r := Some(t.(nodeUp := t.nodeUp[i := e.value != 0], nodeKnown := t.nodeKnown[i := true]));
      case SetService =>
        if e.value < 0 || e.value > def.services[i].maximum {
          return None;
        }
        r := Some(t.(reachable := t.reachable[i := e.value], serviceKnown := t.serviceKnown[i := true]));
      case ServiceDelta =>
        if !t.serviceKnown[i] {
          return if def.services[i].required > 0 then None else Some(t);
        }
        var updated := t.reachable[i] + e.value;
        if updated < 0 || updated > def.services[i].maximum {
          return None;
        }
        r := Some(t.(reachable := t.reachable[i := updated]));
      case MarkRestored =>
        r := Some(t.(restored := t.restored[i := true], resourceKnown := t.resourceKnown[i := true]));
      case SetAvailable =>
        if e.value < 0 || e.value > def.resources[i].capacity {
          return None;
        }
        r := Some(t.(available := t.available[i := e.value], resourceKnown := t.resourceKnown[i := true]));
    }
  }

  method ChangeAll(def: FabricDefinition, t: FabricState, effects: seq<Effect>) returns (r: Option<FabricState>)
    requires Shaped(def, t) && forall e :: 0 <= e < |effects| ==> ValidEffect(def, effects[e])
    ensures r == ApplyEffects(def, t, effects)
  {
    hide ApplyEffect, ValidEffect;
    var next := t;
    assert effects[0..] == effects;
    for i := 0 to |effects|
      invariant Shaped(def, next)
      invariant ApplyEffects(def, next, effects[i..]) == ApplyEffects(def, t, effects)
    {
      assert effects[i..][1..] == effects[i + 1..];
      var changed := ChangeState(def, next, effects[i]);
      if changed.None? {
        return None;
      }
      next := changed.value;
    }
    return Some(next);
  }

  /** Takes the consumables and records the reusable uses, in one pass. */
  method SpendAndRecord(def: FabricDefinition, t: FabricState, before: seq<seq<PastUse>>, ghost w: seq<nat>, now: nat,
                        a: nat)
    returns (next: FabricState, history: seq<seq<PastUse>>)
    requires Shaped(def, t) && HistoryExact(def, w, before) && now == |w| && a < |def.actions|
    requires forall u :: 0 <= u < |def.actions[a].uses| ==> ValidUse(def, def.actions[a].uses[u])
    ensures next == Consume(def, t, def.actions[a].uses)
    ensures HistoryExact(def, w + [a], history)
  {
    hide ResourceIndex, UsesAt, Past, Wrap32;
    next, history := t, before;
    var uses := def.actions[a].uses;
    assert uses[0..] == uses;
    for i := 0 to |uses|
      invariant PartlyRecorded(def, before, history, uses, i, now)
      invariant Shaped(def, next)
      invariant Consume(def, next, uses[i..]) == Consume(def, t, uses)
    {
      assert ValidUse(def, uses[i]);
      RecordNext(def, before, history, uses, i, now);
      assert uses[i..][1..] == uses[i + 1..];
      var r := ResourceIndex(def, uses[i].resource).value;
      if def.resources[r].kind == Consumable {
        next := next.(available := next.available[r := Wrap32(next.available[r] - uses[i].units)]);
      } else {
        history := history[r := history[r] + [PastUse(now, uses[i].units)]];
      }
    }
    HistorySnoc(def, w, before, history, a);
  }

  /** One step of the re-simulation: admissible exactly when the specification steps. */
  method Simulate(def: FabricDefinition, limits: ModelLimits, policy: PlanPolicy, t: FabricState,
                  history: seq<seq<PastUse>>, floorBefore: nat, ghost w: seq<nat>, now: nat, a: nat)
    returns (r: Option<FabricState>, recorded: seq<seq<PastUse>>)
    requires Shaped(def, t) && t.tick == 0 && HistoryExact(def, w, history) && now == |w|
    requires ModestCapacities(def) && HeldFits(def, w) && floorBefore == FloorGap(def, t)
    requires a < |def.actions| && ValidAction(def, limits, def.actions[a])
    ensures r.Some? <==> Step(def, policy, t, Held(def, w), a).Some?
    ensures r.Some? ==> r.value == WithoutTick(Step(def, policy, t, Held(def, w), a).value) && Shaped(def, r.value)
    ensures r.Some? ==> HistoryExact(def, w + [a], recorded)
  {
    hide ValidPrecondition, ValidEffect, ValidUse, ValidDependency, ValidReversibility, GoodIds, GroupIndex;
    hide Fits, HistoryExact, HeldFits, Held, ApplyEffects, Consume, ShortfallOf, Ready;
    var action := def.actions[a];
    recorded := [];
    var ok := Admits(def, limits, policy, t, history, w, now, a);
    if !ok {
      return None, [];
    }
    OccurrenceLeft(def, policy, t, a);
    var changed := ChangeAll(def, t, action.effects);
    if changed.None? {
      return None, [];
    }
    var spent;
    spent, recorded := SpendAndRecord(def, changed.value, history, w, now, a);
    var floorAfter := Shortfall(def, spent, false);
    if floorAfter > floorBefore {
      return None, [];
    }
    r := Some(spent.(occurrences := spent.occurrences[a := spent.occurrences[a] + 1]));
  }

  lemma OccurrenceLeft(def: FabricDefinition, policy: PlanPolicy, t: FabricState, a: nat)
    requires Shaped(def, t) && a < |def.actions| && Ready(def, policy, t, a)
    ensures t.occurrences[a] < def.actions[a].maxOccurrences
  {
  }

  // ---- One whole sequence ---------------------------------------------------

  // The plan that an encoding stands for.
  ghost predicate Denotes(p: Problem, enc: seq<U64>, w: seq<nat>)
    requires Shaped(p.def, p.start)
  {
    Encoding(p.def, w) == enc && IsPlan(p.def, p.policy, p.start, w)
  }

  predicate ActionAuthorised(bindings: seq<AuthorityBinding>, action: ActionSpec) {
    match FindBinding(bindings, action.requiredDomain)
    case None => false
    case Some(b) => Evaluate(b) == Current && LevelRank(b.level) >= LevelRank(action.requiredLevel)
  }

  // Every action of the definition is authorised, when the policy asks for that.
  predicate Authorised(def: FabricDefinition, policy: PlanPolicy, bindings: seq<AuthorityBinding>) {
    policy.requireCurrentAuthority ==>
      forall a :: 0 <= a < |def.actions| ==> ActionAuthorised(bindings, def.actions[a])
  }

  method CheckAuthority(def: FabricDefinition, policy: PlanPolicy, bindings: seq<AuthorityBinding>) returns (ok: bool)
    ensures ok <==> Authorised(def, policy, bindings)
  {
    if policy.requireCurrentAuthority {
      for a := 0 to |def.actions|
        invariant forall b :: 0 <= b < a ==> ActionAuthorised(bindings, def.actions[b])
      {
        if !ActionAuthorised(bindings, def.actions[a]) {
          return false;
        }
      }
    }
    return true;
  }

  /** Adds a step to the objective in unchecked 64-bit arithmetic. */
  method Accumulate(total: Objective, delta: Objective) returns (sum: Objective)
    requires Fits64(Plus(total, delta))
    ensures sum == Plus(total, delta)
  {
    var result: seq<nat> := [];
    for i := 0 to 8
      invariant |result| == i
      invariant forall k :: 0 <= k < i ==> result[k] == total[k] + delta[k]
    {
      assert Plus(total, delta)[i] <= MAX_U64;
      result := result + [Wrap64(total[i] + delta[i])];
    }
    assert result == Plus(total, delta);
    return result;
  }

  // The re-simulation has reached w.
  ghost predicate Reached(p: Problem, enc: seq<U64>, w: seq<nat>, t: FabricState, history: seq<seq<PastUse>>,
                          objective: Objective)
    requires Shaped(p.def, p.start)
  {
    && IsWord(p.def, w) && |w| <= |enc| && Encoding(p.def, w) == enc[..|w|]
    && Execute(p.def, p.policy, p.start, w).Some?
    && t == WithoutTick(Execute(p.def, p.policy, p.start, w).value.state)
    && objective == Execute(p.def, p.policy, p.start, w).value.cost
    && HistoryExact(p.def, w, history)
  }

  lemma NothingReached(p: Problem, enc: seq<U64>, history: seq<seq<PastUse>>)
    requires Shaped(p.def, p.start) && |history| == |p.def.resources|
    requires forall r :: 0 <= r < |history| ==> history[r] == []
    ensures Reached(p, enc, [], WithoutTick(p.start), history, ZERO)
  {
  }

  // A step that is refused, or that names no action, rules out the whole encoding.
  lemma Refuted(p: Problem, limits: ModelLimits, enc: seq<U64>, w: seq<nat>, t: FabricState,
                history: seq<seq<PastUse>>, objective: Objective)
    requires Regular(p, limits) && Reached(p, enc, w, t, history, objective) && |w| < |enc|
    requires var a := ActionIndex(p.def, enc[|w|]);
             a.None? || Step(p.def, p.policy, t, Held(p.def, w), a.value).None?
    ensures forall v :: !Denotes(p, enc, v)
  {
    hide Step, Execute, HistoryExact, AccountingFits, SingleUses, ValidDefinition, Distinct, GoalsMet, Held;
    RegularIsWellPosed(p, limits);
    forall v
      ensures !Denotes(p, enc, v)
    {
      if Denotes(p, enc, v) {
        EncodedPrefix(p, w, v, enc);
        var a := v[|w|];
        FindUnique(ActionIds(p.def), a);
        RegularTick(p, limits, w, a);
        StepUntimed(p.def, p.policy, Execute(p.def, p.policy, p.start, w).value.state, Held(p.def, w), a);
        RefusedStep(p, w, a);
      }
    }
  }

  lemma RefusedStep(p: Problem, w: seq<nat>, a: nat)
    requires Shaped(p.def, p.start)
    requires Execute(p.def, p.policy, p.start, w).Some? && Execute(p.def, p.policy, p.start, w + [a]).Some?
    ensures Step(p.def, p.policy, Execute(p.def, p.policy, p.start, w).value.state, Held(p.def, w), a).Some?
  {
    hide Step, Execute, StepCost;
    ExecuteSnoc(p.def, p.policy, p.start, w, a);
  }

  // An admitted step carries the re-simulation on.
  lemma Carried(p: Problem, limits: ModelLimits, enc: seq<U64>, w: seq<nat>, t: FabricState,
                history: seq<seq<PastUse>>, objective: Objective, a: nat)
    requires Regular(p, limits) && Reached(p, enc, w, t, history, objective) && |w| < |enc|
    requires Shaped(p.def, t) && ActionIndex(p.def, enc[|w|]) == Some(a)
    requires Step(p.def, p.policy, t, Held(p.def, w), a).Some?
    ensures var next := WithoutTick(Step(p.def, p.policy, t, Held(p.def, w), a).value);
            var sum := Plus(objective, StepCost(p.def, t, next, a));
            && Fits64(sum)
            && forall h :: HistoryExact(p.def, w + [a], h) ==> Reached(p, enc, w + [a], next, h, sum)
  {
    hide Step, Execute, HistoryExact, AccountingFits, SingleUses, ValidDefinition, Distinct, GoalsMet, Held, StepCost;
    hide Fits64;
    var s := Execute(p.def, p.policy, p.start, w).value.state;
    RegularTick(p, limits, w, a);
    StepUntimed(p.def, p.policy, s, Held(p.def, w), a);
    ExecuteSnoc(p.def, p.policy, p.start, w, a);
    var after := Step(p.def, p.policy, s, Held(p.def, w), a).value;
    StepCostUntimed(p.def, s, after, a);
    CostFits(p.def, p.policy, p.start, w + [a]);
    EncodingSnoc(p.def, w, a);
    assert enc[..|w| + 1] == enc[..|w|] + [enc[|w|]];
  }

  lemma Completed(p: Problem, limits: ModelLimits, enc: seq<U64>, w: seq<nat>, t: FabricState,
                  history: seq<seq<PastUse>>, objective: Objective)
    requires Regular(p, limits) && Reached(p, enc, w, t, history, objective) && |w| == |enc| <= p.policy.maxPlanSteps
    requires Shaped(p.def, t)
    ensures GoalsMet(p.def, t) <==> Denotes(p, enc, w)
    ensures forall v :: Denotes(p, enc, v) ==> v == w
  {
    hide Execute, HistoryExact, AccountingFits, SingleUses, ValidDefinition, Distinct, GoalsMet;
    RegularIsWellPosed(p, limits);
    assert enc[..|w|] == enc;
    GoalsUntimed(p.def, Execute(p.def, p.policy, p.start, w).value.state);
    forall v | Denotes(p, enc, v)
      ensures v == w
    {
      EncodedPrefix(p, w, v, enc);
      assert v[..|w|] == v;
    }
  }

  lemma ReachedCost(p: Problem, enc: seq<U64>, w: seq<nat>, t: FabricState, history: seq<seq<PastUse>>,
                    objective: Objective)
    requires Shaped(p.def, p.start) && Reached(p, enc, w, t, history, objective)
    ensures Execute(p.def, p.policy, p.start, w).Some?
    ensures objective == Execute(p.def, p.policy, p.start, w).value.cost
  {
    hide Execute, HistoryExact;
  }

  lemma ReachedHeld(p: Problem, limits: ModelLimits, enc: seq<U64>, w: seq<nat>, t: FabricState,
                    history: seq<seq<PastUse>>, objective: Objective)
    requires Regular(p, limits) && Reached(p, enc, w, t, history, objective)
    ensures HistoryExact(p.def, w, history) && HeldFits(p.def, w)
  {
    hide Execute, AccountingFits, SingleUses, ValidDefinition;
    RegularHeld(p, limits, w);
  }

  lemma CostIs(def: FabricDefinition, before: FabricState, after: FabricState, a: nat, delta: Objective)
    requires Shaped(def, before) && Shaped(def, after) && a < |def.actions|
    requires delta == [0, 0, Rise(Incompleteness(def, before), Incompleteness(def, after)), def.actions[a].blastRadius,
                       1, def.actions[a].disruption, def.actions[a].cost, def.actions[a].duration]
    ensures delta == StepCost(def, before, after, a)
  {
  }

  lemma TooLong(p: Problem, enc: seq<U64>)
    requires Shaped(p.def, p.start) && |enc| > p.policy.maxPlanSteps
    ensures forall w :: !Denotes(p, enc, w)
  {
    hide Execute, GoalsMet;
  }

  lemma GoalsTyped(def: FabricDefinition, limits: ModelLimits)
    requires ValidDefinition(def, limits)
    ensures forall g :: 0 <= g < |def.goals| ==>
              TypedIndex(def, def.goals[g].subject, GoalSubject(def.goals[g].kind)).Some?
  {
    hide ValidAction, ValidLink, ValidService, SubjectIndex;
    forall g | 0 <= g < |def.goals|
      ensures TypedIndex(def, def.goals[g].subject, GoalSubject(def.goals[g].kind)).Some?
    {
      assert ValidGoal(def, def.goals[g]);
    }
  }

  method MeetsGoals(def: FabricDefinition, t: FabricState) returns (ok: bool)
    requires Shaped(def, t)
    requires forall g :: 0 <= g < |def.goals| ==>
               TypedIndex(def, def.goals[g].subject, GoalSubject(def.goals[g].kind)).Some?
    ensures ok <==> GoalsMet(def, t)
  {
    hide SubjectIndex;
    for g := 0 to |def.goals|
      invariant forall h :: 0 <= h < g ==> GoalMet(def, t, def.goals[h])
    {
      var goal := def.goals[g];
      var i := SubjectIndex(def, goal.subject).value;
      match goal.kind {
        case LinkGoal => ok := t.linkKnown[i] && t.linkUp[i];
        case NodeGoal => ok := t.nodeKnown[i] && t.nodeUp[i];
        case RestoredGoal => ok := t.resourceKnown[i] && t.restored[i];
        case ServiceGoal => ok := t.serviceKnown[i] && t.reachable[i] >= goal.value;
      }
      if !ok {
        assert !GoalMet(def, t, def.goals[g]);
        return;
      }
    }
    return true;
  }

  /** Runs one sequence of identities anew on its own: valid exactly when it is a plan, and
      then with exactly the cost the specification gives it. */
  method EvaluateSequence(p: Problem, limits: ModelLimits, bindings: seq<AuthorityBinding>, enc: seq<U64>)
    returns (valid: bool, objective: Objective)
    requires Regular(p, limits)
    ensures valid <==> Authorised(p.def, p.policy, bindings) && exists w :: Denotes(p, enc, w)
    ensures valid ==> forall w :: Denotes(p, enc, w) ==> objective == Execute(p.def, p.policy, p.start, w).value.cost
  {
    hide Step, Execute, HistoryExact, AccountingFits, SingleUses, ValidAction, Distinct, GoalsMet, Held, StepCost;
    hide Reached, ShortfallOf, Denotes, Authorised, ActionIndex;
    objective := ZERO;
    if |enc| > p.policy.maxPlanSteps {
      TooLong(p, enc);
      return false, ZERO;
    }
    var ok := CheckAuthority(p.def, p.policy, bindings);
    if !ok {
      return false, ZERO;
    }
    var t := WithoutTick(p.start);
    var history := seq(|p.def.resources|, i => []);
    var floor := Shortfall(p.def, t, false);
    var completeness := Shortfall(p.def, t, true);
    ghost var w: seq<nat> := [];
    NothingReached(p, enc, history);
    for now := 0 to |enc|
      invariant |w| == now && Shaped(p.def, t) && t.tick == 0
      invariant Reached(p, enc, w, t, history, objective)
      invariant floor == FloorGap(p.def, t) && completeness == Incompleteness(p.def, t)
    {
      var index := ActionIndex(p.def, enc[now]);
      if index.None? {
        Refuted(p, limits, enc, w, t, history, objective);
        return false, ZERO;
      }
      var a := index.value;
      ReachedHeld(p, limits, enc, w, t, history, objective);
      var next, recorded := Simulate(p.def, limits, p.policy, t, history, floor, w, now, a);
      if next.None? {
        Refuted(p, limits, enc, w, t, history, objective);
        return false, ZERO;
      }
      Carried(p, limits, enc, w, t, history, objective, a);
      floor := Shortfall(p.def, next.value, false);
      var reached := Shortfall(p.def, next.value, true);
      var action := p.def.actions[a];
      var delta := [0, 0, if reached > completeness then reached - completeness else 0,
                    action.blastRadius, 1, action.disruption, action.cost, action.duration];
      CostIs(p.def, t, next.value, a, delta);
      objective := Accumulate(objective, delta);
      completeness, t, history, w := reached, next.value, recorded, w + [a];
    }
    GoalsTyped(p.def, limits);
    Completed(p, limits, enc, w, t, history, objective);
    valid := MeetsGoals(p.def, t);
    ReachedCost(p, enc, w, t, history, objective);
  }
}
