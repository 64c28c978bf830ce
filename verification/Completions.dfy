/** What a proof of infeasibility says about values that no evidence has established. */
module Completions {
  import opened Ints
  import opened Domain
  import opened Definition
  import opened Objectives
  import opened Dynamics
  import opened Evidence
  import opened Problems
  import opened Accounting
  import opened Safety
  import opened Reconcile
  import opened InitialStates
  import opened Requests
  import opened Planner
  import Certificates

  // ---- What a plan can depend on --------------------------------------------

  // Some action uses units of the consumable.
  predicate Spent(def: FabricDefinition, i: nat) {
    exists a, u :: 0 <= a < |def.actions| && 0 <= u < |def.actions[a].uses|
                   && Takes(def, def.actions[a].uses[u], i)
  }

  predicate Takes(def: FabricDefinition, use: ResourceUse, i: nat) {
    i < |def.resources| && def.resources[i].kind == Consumable && ResourceIndex(def, use.resource) == Some(i)
  }

  // Some precondition asks how much of the resource is available.
  predicate Asked(def: FabricDefinition, i: nat) {
    exists a, k :: 0 <= a < |def.actions| && 0 <= k < |def.actions[a].preconditions|
                   && AsksFor(def, def.actions[a].preconditions[k], i)
  }

  predicate AsksFor(def: FabricDefinition, p: Precondition, i: nat) {
    p.kind.AvailableAtLeast? && TypedIndex(def, p.subject, ResourceSubject) == Some(i)
  }

  // Some goal asks that the resource be restored.
  predicate Awaited(def: FabricDefinition, i: nat) {
    exists g :: 0 <= g < |def.goals| && Awaits(def, def.goals[g], i)
  }

  predicate Awaits(def: FabricDefinition, goal: GoalSpec, i: nat) {
    goal.kind.RestoredGoal? && TypedIndex(def, goal.subject, ResourceSubject) == Some(i)
  }

  // The service has a floor, and some action changes its value by an amount.
  predicate Shifted(def: FabricDefinition, i: nat) {
    exists a, e :: 0 <= a < |def.actions| && 0 <= e < |def.actions[a].effects|
                   && Shifts(def, def.actions[a].effects[e], i)
  }

  predicate Shifts(def: FabricDefinition, e: Effect, i: nat) {
    i < |def.services| && def.services[i].required > 0 && e.kind.ServiceDelta?
    && TypedIndex(def, e.subject, ServiceSubject) == Some(i)
  }

  // The evidence has a value for all of these.
  ghost predicate Backed(def: FabricDefinition, values: Values) {
    && (forall i :: 0 <= i < |def.resources| && (Spent(def, i) || Asked(def, i)) ==> AvailableKey(def, i) in values)
    && (forall i :: 0 <= i < |def.resources| && Awaited(def, i) ==> RestoredKey(def, i) in values)
    && (forall i :: 0 <= i < |def.services| && Shifted(def, i) ==> ServiceKey(def, i) in values)
  }

  // Everything established stays as it is, and any more may be.
  predicate Completes(values: Values, more: Values) {
    forall key :: key in values ==> key in more && more[key] == values[key]
  }

  // ---- Two states of one definition -----------------------------------------

  ghost predicate FlagsAgree(s: FabricState, t: FabricState) {
    && |s.linkKnown| == |t.linkKnown| == |s.linkUp| == |t.linkUp|
    && |s.nodeKnown| == |t.nodeKnown| == |s.nodeUp| == |t.nodeUp|
    && (forall i :: 0 <= i < |s.linkKnown| && s.linkKnown[i] ==> t.linkKnown[i] && t.linkUp[i] == s.linkUp[i])
    && (forall i :: 0 <= i < |s.nodeKnown| && s.nodeKnown[i] ==> t.nodeKnown[i] && t.nodeUp[i] == s.nodeUp[i])
  }

  ghost predicate ServicesAgree(s: FabricState, t: FabricState) {
    && |s.serviceKnown| == |t.serviceKnown| == |s.reachable| == |t.reachable|
    && forall i :: 0 <= i < |s.serviceKnown| && s.serviceKnown[i] ==>
         t.serviceKnown[i] && t.reachable[i] == s.reachable[i]
  }

  ghost predicate StockAgrees(def: FabricDefinition, s: FabricState, t: FabricState)
    requires Shaped(def, s) && Shaped(def, t)
  {
    forall i :: 0 <= i < |def.resources| ==>
      && (Spent(def, i) || Asked(def, i) ==>
            s.resourceKnown[i] && t.resourceKnown[i] && t.available[i] == s.available[i])
      && (Awaited(def, i) ==> s.resourceKnown[i] && t.resourceKnown[i] && t.restored[i] == s.restored[i])
  }

  // The second state knows what the first one knows, and what a plan can depend on is alike.
  ghost predicate Behind(def: FabricDefinition, s: FabricState, t: FabricState) {
    && Shaped(def, s) && Shaped(def, t)
    && t.occurrences == s.occurrences && t.tick == s.tick
    && FlagsAgree(s, t) && ServicesAgree(s, t) && StockAgrees(def, s, t)
  }

  // Every typed precondition and goal, and every floored service that is changed by an amount,
  // is about something known.
  ghost predicate Informed(def: FabricDefinition, s: FabricState) {
    && Shaped(def, s)
    && (forall a, k :: 0 <= a < |def.actions| && 0 <= k < |def.actions[a].preconditions| ==>
          AnswersPrecondition(def, s, def.actions[a].preconditions[k]))
    && (forall g :: 0 <= g < |def.goals| ==> AnswersGoal(def, s, def.goals[g]))
    && (forall i :: 0 <= i < |def.services| && Shifted(def, i) ==> s.serviceKnown[i])
  }

  predicate AnswersPrecondition(def: FabricDefinition, s: FabricState, p: Precondition)
    requires Shaped(def, s)
  {
    TypedIndex(def, p.subject, PreconditionSubject(p.kind)).Some? ==> PreconditionKnown(def, s, p)
  }

  predicate AnswersGoal(def: FabricDefinition, s: FabricState, goal: GoalSpec)
    requires Shaped(def, s)
  {
    match TypedIndex(def, goal.subject, GoalSubject(goal.kind))
    case None => true
    case Some(i) =>
      match goal.kind
      case LinkGoal => s.linkKnown[i]
      case NodeGoal => s.nodeKnown[i]
      case RestoredGoal => s.resourceKnown[i]
      case ServiceGoal => s.serviceKnown[i]
  }

  lemma StaysInformed(def: FabricDefinition, s: FabricState, t: FabricState)
    requires Informed(def, s) && Shaped(def, t) && MarksGrow(s, t)
    ensures Informed(def, t)
  {
    hide SubjectIndex, Shifted;
    forall a, k | 0 <= a < |def.actions| && 0 <= k < |def.actions[a].preconditions|
      ensures AnswersPrecondition(def, t, def.actions[a].preconditions[k])
    {
      assert AnswersPrecondition(def, s, def.actions[a].preconditions[k]);
    }
    forall g | 0 <= g < |def.goals|
      ensures AnswersGoal(def, t, def.goals[g])
    {
      assert AnswersGoal(def, s, def.goals[g]);
    }
  }

  // ---- One step -------------------------------------------------------------

  // A precondition that holds with more known holds as well with what is known.
  lemma PreconditionBehind(def: FabricDefinition, s: FabricState, t: FabricState, a: nat, k: nat)
    requires Behind(def, s, t) && Informed(def, s)
    requires a < |def.actions| && k < |def.actions[a].preconditions|
    requires PreconditionHolds(def, t, def.actions[a].preconditions[k])
    ensures PreconditionHolds(def, s, def.actions[a].preconditions[k])
  {
    hide SubjectIndex, Spent, Awaited;
    var p := def.actions[a].preconditions[k];
    assert AnswersPrecondition(def, s, p);
    if p.kind.AvailableAtLeast? {
      var i := TypedIndex(def, p.subject, ResourceSubject).value;
      assert AsksFor(def, p, i);
      assert Asked(def, i);
    }
  }

  lemma UseBehind(def: FabricDefinition, s: FabricState, t: FabricState, a: nat, u: nat)
    requires Behind(def, s, t) && a < |def.actions| && u < |def.actions[a].uses|
    requires ConsumableReady(def, t, def.actions[a].uses[u])
    ensures ConsumableReady(def, s, def.actions[a].uses[u])
  {
    hide Asked, Awaited, ResourceIndex;
    var use := def.actions[a].uses[u];
    var i := ResourceIndex(def, use.resource).value;
    if def.resources[i].kind == Consumable {
      assert Takes(def, use, i);
      assert Spent(def, i);
    }
  }

  lemma {:induction false} SelectedAlike(def: FabricDefinition, s: FabricState, t: FabricState, group: U64, k: nat)
    requires Shaped(def, s) && Shaped(def, t) && t.occurrences == s.occurrences && k <= |def.actions|
    ensures Selected(def, t, group, k) == Selected(def, s, group, k)
  {
    if k > 0 {
      SelectedAlike(def, s, t, group, k - 1);
    }
  }

  lemma ReadyBehind(def: FabricDefinition, policy: PlanPolicy, s: FabricState, t: FabricState, a: nat)
    requires Behind(def, s, t) && Informed(def, s) && a < |def.actions| && Ready(def, policy, t, a)
    ensures Ready(def, policy, s, a)
  {
    hide Informed, PreconditionHolds, ConsumableReady, FlagsAgree, ServicesAgree, StockAgrees, ActionIndex, Selected;
    hide GroupIndex;
    var action := def.actions[a];
    forall k | 0 <= k < |action.preconditions|
      ensures PreconditionHolds(def, s, action.preconditions[k])
    {
      PreconditionBehind(def, s, t, a, k);
    }
    forall u | 0 <= u < |action.uses|
      ensures ConsumableReady(def, s, action.uses[u])
    {
      UseBehind(def, s, t, a, u);
    }
    forall g | 0 <= g < |action.groups|
      ensures Selected(def, t, action.groups[g], |def.actions|) == Selected(def, s, action.groups[g], |def.actions|)
    {
      SelectedAlike(def, s, t, action.groups[g], |def.actions|);
    }
  }

  // What has a floor and is not known is as it was.
  ghost predicate Unmoved(def: FabricDefinition, s: FabricState, t: FabricState, earlier: FabricState)
    requires Shaped(def, s) && Shaped(def, t) && Shaped(def, earlier)
  {
    forall i :: 0 <= i < |def.services| && def.services[i].required > 0 && !s.serviceKnown[i] ==>
      t.serviceKnown[i] == earlier.serviceKnown[i] && t.reachable[i] == earlier.reachable[i]
  }

  // An amount is added only to a service without a floor, or to one that is known.
  lemma ShiftsKnown(def: FabricDefinition, s: FabricState, a: nat, e: nat)
    requires Informed(def, s) && a < |def.actions| && e < |def.actions[a].effects|
    ensures EffectCovered(def, s, def.actions[a].effects[e])
  {
    hide SubjectIndex, Informed;
    var effect := def.actions[a].effects[e];
    var index := TypedIndex(def, effect.subject, EffectSubject(effect.kind));
    if effect.kind.ServiceDelta? && index.Some? && def.services[index.value].required > 0 {
      assert Shifts(def, effect, index.value);
      assert Shifted(def, index.value);
      ShiftedIsKnown(def, s, index.value);
    }
  }

  predicate EffectCovered(def: FabricDefinition, s: FabricState, e: Effect)
    requires Shaped(def, s)
  {
    e.kind.ServiceDelta? ==>
      match TypedIndex(def, e.subject, ServiceSubject)
      case None => true
      case Some(i) => def.services[i].required > 0 ==> s.serviceKnown[i]
  }

  lemma EffectSucceeds(def: FabricDefinition, s: FabricState, t: FabricState, e: Effect)
    requires Shaped(def, s) && Shaped(def, t) && ServicesAgree(s, t) && EffectCovered(def, s, e)
    requires ApplyEffect(def, t, e).Some?
    ensures ApplyEffect(def, s, e).Some?
    ensures ServicesAgree(ApplyEffect(def, s, e).value, ApplyEffect(def, t, e).value)
  {
    hide SubjectIndex;
  }

  lemma EffectFlags(def: FabricDefinition, s: FabricState, t: FabricState, e: Effect)
    requires Shaped(def, s) && Shaped(def, t) && FlagsAgree(s, t)
    requires ApplyEffect(def, s, e).Some? && ApplyEffect(def, t, e).Some?
    ensures FlagsAgree(ApplyEffect(def, s, e).value, ApplyEffect(def, t, e).value)
  {
    hide SubjectIndex;
  }

  lemma EffectStock(def: FabricDefinition, s: FabricState, t: FabricState, e: Effect)
    requires Shaped(def, s) && Shaped(def, t) && StockAgrees(def, s, t)
    requires ApplyEffect(def, s, e).Some? && ApplyEffect(def, t, e).Some?
    ensures StockAgrees(def, ApplyEffect(def, s, e).value, ApplyEffect(def, t, e).value)
  {
    hide SubjectIndex, Spent, Asked, Awaited;
  }

  lemma EffectDisturbs(def: FabricDefinition, s: FabricState, t: FabricState, earlier: FabricState, e: Effect)
    requires Shaped(def, s) && Shaped(def, t) && Shaped(def, earlier)
    requires Unmoved(def, s, t, earlier) && EffectCovered(def, s, e)
    requires ApplyEffect(def, s, e).Some? && ApplyEffect(def, t, e).Some?
    ensures Unmoved(def, ApplyEffect(def, s, e).value, ApplyEffect(def, t, e).value, earlier)
  {
    hide SubjectIndex;
  }

  lemma EffectBehind(def: FabricDefinition, s: FabricState, t: FabricState, earlier: FabricState, a: nat, e: nat)
    requires Behind(def, s, t) && Informed(def, s) && Shaped(def, earlier) && Unmoved(def, s, t, earlier)
    requires a < |def.actions| && e < |def.actions[a].effects|
    requires ApplyEffect(def, t, def.actions[a].effects[e]).Some?
    ensures ApplyEffect(def, s, def.actions[a].effects[e]).Some?
    ensures var s', t' := ApplyEffect(def, s, def.actions[a].effects[e]).value,
                          ApplyEffect(def, t, def.actions[a].effects[e]).value;
            Behind(def, s', t') && Informed(def, s') && Unmoved(def, s', t', earlier)
  {
    hide ApplyEffect, Informed, FlagsAgree, ServicesAgree, StockAgrees, Unmoved, EffectCovered, MarksGrow;
    var effect := def.actions[a].effects[e];
    ShiftsKnown(def, s, a, e);
    EffectSucceeds(def, s, t, effect);
    EffectFlags(def, s, t, effect);
    EffectStock(def, s, t, effect);
    EffectDisturbs(def, s, t, earlier, effect);
    EffectKeeps(def, s, effect);
    StaysInformed(def, s, ApplyEffect(def, s, effect).value);
  }

  lemma ShiftedIsKnown(def: FabricDefinition, s: FabricState, i: nat)
    requires Informed(def, s) && i < |def.services| && Shifted(def, i)
    ensures s.serviceKnown[i]
  {
  }

  lemma {:induction false} EffectsBehind(def: FabricDefinition, s: FabricState, t: FabricState, earlier: FabricState,
                                         a: nat, e: nat)
    requires Behind(def, s, t) && Informed(def, s) && Shaped(def, earlier) && Unmoved(def, s, t, earlier)
    requires a < |def.actions| && e <= |def.actions[a].effects|
    requires ApplyEffects(def, t, def.actions[a].effects[e..]).Some?
    ensures ApplyEffects(def, s, def.actions[a].effects[e..]).Some?
    ensures var s', t' := ApplyEffects(def, s, def.actions[a].effects[e..]).value,
                          ApplyEffects(def, t, def.actions[a].effects[e..]).value;
            Behind(def, s', t') && Informed(def, s') && Unmoved(def, s', t', earlier)
    decreases |def.actions[a].effects| - e
  {
    hide ApplyEffect, Behind, Informed, Unmoved;
    var effects := def.actions[a].effects;
    BehindIsShaped(def, s, t);
    if e < |effects| {
      assert effects[e..][1..] == effects[e + 1..];
      EffectBehind(def, s, t, earlier, a, e);
      var s1, t1 := ApplyEffect(def, s, effects[e]).value, ApplyEffect(def, t, effects[e]).value;
      EffectsBehind(def, s1, t1, earlier, a, e + 1);
    }
  }

  lemma BehindIsShaped(def: FabricDefinition, s: FabricState, t: FabricState)
    requires Behind(def, s, t)
    ensures Shaped(def, s) && Shaped(def, t) && t.occurrences == s.occurrences && t.tick == s.tick
  {
  }

  lemma {:induction false} ConsumeBehind(def: FabricDefinition, s: FabricState, t: FabricState, a: nat, u: nat)
    requires Behind(def, s, t) && a < |def.actions| && u <= |def.actions[a].uses|
    ensures Behind(def, Consume(def, s, def.actions[a].uses[u..]), Consume(def, t, def.actions[a].uses[u..]))
    decreases |def.actions[a].uses| - u
  {
    var uses := def.actions[a].uses;
    if u < |uses| {
      assert uses[u..][1..] == uses[u + 1..];
      ConsumeOneBehind(def, s, t, a, u);
      hide Behind, ConsumeOne;
      ConsumeBehind(def, ConsumeOne(def, s, uses[u]), ConsumeOne(def, t, uses[u]), a, u + 1);
    }
  }

  lemma ConsumeOneBehind(def: FabricDefinition, s: FabricState, t: FabricState, a: nat, u: nat)
    requires Behind(def, s, t) && a < |def.actions| && u < |def.actions[a].uses|
    ensures Behind(def, ConsumeOne(def, s, def.actions[a].uses[u]), ConsumeOne(def, t, def.actions[a].uses[u]))
  {
    hide Asked, Awaited, ResourceIndex;
    var use := def.actions[a].uses[u];
    var r := ResourceIndex(def, use.resource);
    if r.Some? && def.resources[r.value].kind == Consumable {
      assert Takes(def, use, r.value);
      assert Spent(def, r.value);
      hide Spent;
    }
  }

  // With less known no gap shrinks less.
  lemma {:induction false} GapsBehind(def: FabricDefinition, s: FabricState, t: FabricState, s': FabricState,
                                      t': FabricState, k: nat)
    requires Shaped(def, s) && Shaped(def, t) && Shaped(def, s') && Shaped(def, t') && k <= |def.services|
    requires ServicesAgree(s, t) && ServicesAgree(s', t') && Unmoved(def, s', t', t)
    requires forall i :: 0 <= i < |def.services| && s.serviceKnown[i] ==> s'.serviceKnown[i]
    ensures ShortfallOf(def, s', false, k) - ShortfallOf(def, s, false, k)
         <= ShortfallOf(def, t', false, k) - ShortfallOf(def, t, false, k)
  {
    if k > 0 {
      GapsBehind(def, s, t, s', t', k - 1);
    }
  }

  lemma EvolveBehind(def: FabricDefinition, s: FabricState, t: FabricState, a: nat)
    requires Behind(def, s, t) && Informed(def, s) && a < |def.actions|
    requires s.occurrences[a] < def.actions[a].maxOccurrences && Evolve(def, t, a).Some?
    ensures Evolve(def, s, a).Some? && Behind(def, Evolve(def, s, a).value, Evolve(def, t, a).value)
  {
    hide ApplyEffects, Consume, Informed, StockAgrees, FlagsAgree, ShortfallOf;
    var action := def.actions[a];
    assert action.effects[0..] == action.effects && action.uses[0..] == action.uses;
    EffectsBehind(def, s, t, t, a, 0);
    var s1, t1 := ApplyEffects(def, s, action.effects).value, ApplyEffects(def, t, action.effects).value;
    ConsumeBehind(def, s1, t1, a, 0);
    var s2, t2 := Consume(def, s1, action.uses), Consume(def, t1, action.uses);
    EffectsKeep(def, s, action.effects);
    GapsBehind(def, s, t, s2, t2, |def.services|);
    CountedBehind(def, s2, t2, a, s.occurrences[a] + 1, s.tick + action.duration);
  }

  lemma CountedBehind(def: FabricDefinition, s: FabricState, t: FabricState, a: nat, n: U32, tick: U64)
    requires Behind(def, s, t) && a < |def.actions|
    ensures var counted := s.occurrences[a := n];
            Behind(def, s.(occurrences := counted, tick := tick), t.(occurrences := counted, tick := tick))
  {
    hide Spent, Asked, Awaited;
  }

  lemma StepBehind(def: FabricDefinition, policy: PlanPolicy, s: FabricState, t: FabricState, held: seq<nat>, a: nat)
    requires Behind(def, s, t) && Informed(def, s) && |held| == |def.resources|
    requires Step(def, policy, t, held, a).Some?
    ensures Step(def, policy, s, held, a).Some?
    ensures Behind(def, Step(def, policy, s, held, a).value, Step(def, policy, t, held, a).value)
  {
    hide Evolve, Ready, Fits, Behind, Informed;
    BehindIsShaped(def, s, t);
    ReadyBehind(def, policy, s, t, a);
    ReadyIsLimited(def, policy, s, a);
    EvolveBehind(def, s, t, a);
  }

  lemma ReadyIsLimited(def: FabricDefinition, policy: PlanPolicy, s: FabricState, a: nat)
    requires Shaped(def, s) && a < |def.actions| && Ready(def, policy, s, a)
    ensures s.occurrences[a] < def.actions[a].maxOccurrences
  {
  }

  // ---- Whole sequences ------------------------------------------------------

  lemma {:induction false} RunsBehind(def: FabricDefinition, policy: PlanPolicy, s: FabricState, t: FabricState,
                                      w: seq<nat>)
    requires Behind(def, s, t) && Informed(def, s) && Execute(def, policy, t, w).Some?
    ensures Execute(def, policy, s, w).Some?
    ensures Behind(def, Execute(def, policy, s, w).value.state, Execute(def, policy, t, w).value.state)
    decreases |w|
  {
    hide Step, Held, StepCost, Behind, Informed, MarksGrow;
    BehindIsShaped(def, s, t);
    if |w| > 0 {
      var earlier, a := w[..|w| - 1], w[|w| - 1];
      RunsBehind(def, policy, s, t, earlier);
      var s1 := Execute(def, policy, s, earlier).value.state;
      KnownMarksGrow(def, policy, s, earlier);
      StaysInformed(def, s, s1);
      StepBehind(def, policy, s1, Execute(def, policy, t, earlier).value.state, Held(def, earlier), a);
    }
  }

  lemma GoalsBehind(def: FabricDefinition, s: FabricState, t: FabricState)
    requires Behind(def, s, t) && Informed(def, s) && GoalsMet(def, t)
    ensures GoalsMet(def, s)
  {
    hide SubjectIndex, Spent, Asked;
    forall g | 0 <= g < |def.goals|
      ensures GoalMet(def, s, def.goals[g])
    {
      var goal := def.goals[g];
      assert GoalMet(def, t, goal) && AnswersGoal(def, s, goal);
      if goal.kind.RestoredGoal? {
        var i := TypedIndex(def, goal.subject, ResourceSubject).value;
        assert Awaits(def, goal, i);
        assert Awaited(def, i);
      }
    }
  }

  lemma PlansBehind(def: FabricDefinition, policy: PlanPolicy, s: FabricState, t: FabricState, w: seq<nat>)
    requires Behind(def, s, t) && Informed(def, s) && IsPlan(def, policy, t, w)
    ensures IsPlan(def, policy, s, w)
  {
    hide Execute, GoalsMet, Behind, Informed, MarksGrow;
    BehindIsShaped(def, s, t);
    RunsBehind(def, policy, s, t, w);
    var s1 := Execute(def, policy, s, w).value.state;
    KnownMarksGrow(def, policy, s, w);
    StaysInformed(def, s, s1);
    GoalsBehind(def, s1, Execute(def, policy, t, w).value.state);
  }

  // ---- From evidence --------------------------------------------------------

  lemma ReflectsBehind(def: FabricDefinition, values: Values, more: Values, s: FabricState, t: FabricState)
    requires Reflects(def, s, values) && Reflects(def, t, more) && Completes(values, more) && Backed(def, values)
    ensures Behind(def, s, t)
  {
    hide Spent, Asked, Awaited, Shifted, LinkKey, NodeKey, ServiceKey, AvailableKey, RestoredKey;
    assert t.occurrences == s.occurrences;
    forall i | 0 <= i < |def.links| && s.linkKnown[i]
      ensures t.linkKnown[i] && t.linkUp[i] == s.linkUp[i]
    {
      assert LinkReflects(def, s, values, i) && LinkReflects(def, t, more, i);
    }
    forall i | 0 <= i < |def.nodes| && s.nodeKnown[i]
      ensures t.nodeKnown[i] && t.nodeUp[i] == s.nodeUp[i]
    {
      assert NodeReflects(def, s, values, i) && NodeReflects(def, t, more, i);
    }
    forall i | 0 <= i < |def.services| && s.serviceKnown[i]
      ensures t.serviceKnown[i] && t.reachable[i] == s.reachable[i]
    {
      assert ServiceReflects(def, s, values, i) && ServiceReflects(def, t, more, i);
    }
    forall i | 0 <= i < |def.resources|
      ensures Spent(def, i) || Asked(def, i) ==>
                s.resourceKnown[i] && t.resourceKnown[i] && t.available[i] == s.available[i]
      ensures Awaited(def, i) ==> s.resourceKnown[i] && t.resourceKnown[i] && t.restored[i] == s.restored[i]
    {
      assert ResourceReflects(def, s, values, i) && ResourceReflects(def, t, more, i);
    }
  }

  lemma ReflectsInformed(def: FabricDefinition, values: Values, s: FabricState)
    requires Reflects(def, s, values) && Backed(def, values) && Certificates.AllKnown(def, s)
    ensures Informed(def, s)
  {
    hide Spent, Asked, Awaited, Shifted, LinkKey, NodeKey, ServiceKey, AvailableKey, RestoredKey;
    hide NodeIndex, LinkIndex, ServiceIndex, ResourceIndex, ActionIndex;
    forall a, k | 0 <= a < |def.actions| && 0 <= k < |def.actions[a].preconditions|
      ensures AnswersPrecondition(def, s, def.actions[a].preconditions[k])
    {
      assert Referenced(def, def.actions[a].preconditions[k].subject);
      assert Known(def, s, def.actions[a].preconditions[k].subject);
    }
    forall g | 0 <= g < |def.goals|
      ensures AnswersGoal(def, s, def.goals[g])
    {
      assert Referenced(def, def.goals[g].subject);
      assert Known(def, s, def.goals[g].subject);
    }
    forall i | 0 <= i < |def.services| && Shifted(def, i)
      ensures s.serviceKnown[i]
    {
      assert ServiceReflects(def, s, values, i);
    }
  }

  /** A proof of infeasibility for every completion.  Let everything be known that a precondition
      or a goal is about, how much there is of every consumable that is used, whether every
      resource that a goal awaits has been restored, and every service with a floor that some
      action changes by an amount.  Then whatever is a plan once more has been established was a
      plan before, and an exhaustive proof that there is none stays right. */
  lemma InfeasibleForEveryCompletion(p: Problem, values: Values, more: Values, t: FabricState, w: seq<nat>)
    requires Reflects(p.def, p.start, values) && Certificates.AllKnown(p.def, p.start) && Backed(p.def, values)
    requires Completes(values, more) && Reflects(p.def, t, more)
    ensures IsPlan(p.def, p.policy, t, w) ==> IsPlan(p.def, p.policy, p.start, w)
  {
    hide IsPlan, Behind, Informed, Backed, Reflects, Completes;
    ReflectsBehind(p.def, values, more, p.start, t);
    ReflectsInformed(p.def, values, p.start);
    BehindIsShaped(p.def, p.start, t);
    if IsPlan(p.def, p.policy, t, w) {
      PlansBehind(p.def, p.policy, p.start, t, w);
    }
  }

  /** Under these conditions an exhaustive certificate holds whatever is established later. */
  lemma ExhaustiveForEveryCompletion(h: Hashing, limits: ModelLimits, request: PlanRequest, result: PlanningResult,
                                     p: Problem, table: ResolutionTable, more: Values, t: FabricState, w: seq<nat>)
    requires p == Problem(request.definition, request.policy, p.start) && Shaped(p.def, p.start)
    requires Reflects(p.def, p.start, ResolvedValues(table))
    requires forall x :: x in result.unresolved <==> Open(p.def, p.start, table, x)
    requires Sound(h, limits, request, result, p)
    requires result.certificate.Some? && result.certificate.value.Exhaustive?
    requires Backed(p.def, ResolvedValues(table))
    requires Completes(ResolvedValues(table), more) && Reflects(p.def, t, more)
    ensures !IsPlan(p.def, p.policy, t, w)
  {
    hide IsPlan, Backed, Reflects, ResolvedValues, Completes, Known, Referenced, IsOptimum;
    hide Agreeable;
    forall x | Referenced(p.def, x)
      ensures Known(p.def, p.start, x)
    {
      assert !Open(p.def, p.start, table, x);
    }
    InfeasibleForEveryCompletion(p, ResolvedValues(table), more, t, w);
  }

  // ---- What stands behind the units that are spent --------------------------

  // The effect makes the resource known, by setting what is available or by marking it restored.
  predicate Founds(def: FabricDefinition, e: Effect, i: nat) {
    (e.kind.SetAvailable? || e.kind.MarkRestored?) && TypedIndex(def, e.subject, ResourceSubject) == Some(i)
  }

  predicate ActionFounds(def: FabricDefinition, a: nat, i: nat) {
    a < |def.actions| && exists e :: 0 <= e < |def.actions[a].effects| && Founds(def, def.actions[a].effects[e], i)
  }

  lemma {:induction false} EffectsFound(def: FabricDefinition, s: FabricState, a: nat, e: nat, i: nat)
    requires Shaped(def, s) && a < |def.actions| && e <= |def.actions[a].effects| && i < |def.resources|
    requires ApplyEffects(def, s, def.actions[a].effects[e..]).Some?
    ensures ApplyEffects(def, s, def.actions[a].effects[e..]).value.resourceKnown[i] ==>
              s.resourceKnown[i] || ActionFounds(def, a, i)
    decreases |def.actions[a].effects| - e
  {
    hide SubjectIndex;
    var effects := def.actions[a].effects;
    if e < |effects| {
      assert effects[e..][1..] == effects[e + 1..];
      EffectFounds(def, s, effects[e], i);
      if Founds(def, effects[e], i) {
        assert ActionFounds(def, a, i);
      }
      hide ApplyEffect;
      EffectsFound(def, ApplyEffect(def, s, effects[e]).value, a, e + 1, i);
    }
  }

  lemma EffectFounds(def: FabricDefinition, s: FabricState, e: Effect, i: nat)
    requires Shaped(def, s) && i < |def.resources| && ApplyEffect(def, s, e).Some?
    ensures ApplyEffect(def, s, e).value.resourceKnown[i] ==> s.resourceKnown[i] || Founds(def, e, i)
  {
    hide SubjectIndex;
  }

  lemma EvolveFounds(def: FabricDefinition, s: FabricState, a: nat, i: nat)
    requires Shaped(def, s) && a < |def.actions| && s.occurrences[a] < def.actions[a].maxOccurrences
    requires i < |def.resources| && Evolve(def, s, a).Some?
    ensures Evolve(def, s, a).value.resourceKnown[i] ==> s.resourceKnown[i] || ActionFounds(def, a, i)
  {
    hide ApplyEffects, Consume, FloorGap, ActionFounds;
    assert def.actions[a].effects[0..] == def.actions[a].effects;
    EffectsFound(def, s, a, 0, i);
  }

  // A resource is known because it was, or because a step made it known.
  lemma {:induction false} KnownSince(def: FabricDefinition, policy: PlanPolicy, start: FabricState, w: seq<nat>,
                                      i: nat)
    requires Shaped(def, start) && Execute(def, policy, start, w).Some? && i < |def.resources|
    requires Execute(def, policy, start, w).value.state.resourceKnown[i]
    ensures start.resourceKnown[i] || exists k :: 0 <= k < |w| && ActionFounds(def, w[k], i)
    decreases |w|
  {
    hide Step, Held, StepCost, Evolve, ActionFounds;
    if |w| > 0 {
      var u, a := w[..|w| - 1], w[|w| - 1];
      ExecuteLast(def, policy, start, w);
      var s := Execute(def, policy, start, u).value.state;
      StepFacts(def, policy, s, Held(def, u), a);
      EvolveFounds(def, s, a, i);
      if s.resourceKnown[i] {
        KnownSince(def, policy, start, u, i);
        if !start.resourceKnown[i] {
          var k :| 0 <= k < |u| && ActionFounds(def, u[k], i);
          assert w[k] == u[k];
        }
      } else {
        assert w[|w| - 1] == a;
      }
    }
  }

  /** What stands behind units that are spent.  Whenever an action takes from a consumable, either
      a fact has established how much of it there is, or nothing has but a fact that it was
      restored, or an earlier step has set it or marked it as restored. */
  lemma SpentHasOrigin(p: Problem, values: Values, w: seq<nat>, a: nat, u: nat, i: nat)
    requires Reflects(p.def, p.start, values) && Execute(p.def, p.policy, p.start, w + [a]).Some?
    requires a < |p.def.actions| && u < |p.def.actions[a].uses| && Takes(p.def, p.def.actions[a].uses[u], i)
    ensures || AvailableKey(p.def, i) in values || RestoredKey(p.def, i) in values
            || exists k :: 0 <= k < |w| && ActionFounds(p.def, w[k], i)
  {
    hide ActionFounds, AvailableKey, RestoredKey, Execute, Held, Fits, Evolve;
    ExecuteSnoc(p.def, p.policy, p.start, w, a);
    var s := Execute(p.def, p.policy, p.start, w).value.state;
    assert Ready(p.def, p.policy, s, a);
    assert ConsumableReady(p.def, s, p.def.actions[a].uses[u]);
    KnownSince(p.def, p.policy, p.start, w, i);
    if p.start.resourceKnown[i] {
      assert ResourceReflects(p.def, p.start, values, i);
    }
  }

  /** Where no earlier step has set or restored it, units of a consumable are spent on the strength
      of a fact about how much there is, or else the consumable is known by its restoration alone,
      and is taken to be full. */
  lemma SpentIsBacked(p: Problem, values: Values, w: seq<nat>, a: nat, u: nat, i: nat)
    requires Reflects(p.def, p.start, values) && Execute(p.def, p.policy, p.start, w + [a]).Some?
    requires a < |p.def.actions| && u < |p.def.actions[a].uses| && Takes(p.def, p.def.actions[a].uses[u], i)
    requires forall k :: 0 <= k < |w| ==> !ActionFounds(p.def, w[k], i)
    ensures AvailableKey(p.def, i) !in values ==>
              RestoredKey(p.def, i) in values && p.start.available[i] == p.def.resources[i].capacity
  {
    hide ActionFounds, AvailableKey, RestoredKey, Execute;
    SpentHasOrigin(p, values, w, a, u, i);
    assert ResourceReflects(p.def, p.start, values, i);
  }
}
