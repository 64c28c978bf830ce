/** The tick plays no part in what a step does: a simulation that keeps none, as the
    reference solver does, admits the same steps and reaches the same states. */
module Untimed {
  import opened Ints
  import opened Domain
  import opened Dynamics

  function WithoutTick(s: FabricState): FabricState {
    s.(tick := 0)
  }

  lemma {:induction false} SelectedUntimed(def: FabricDefinition, s: FabricState, group: U64, k: nat)
    requires Shaped(def, s) && k <= |def.actions|
    ensures Selected(def, WithoutTick(s), group, k) == Selected(def, s, group, k)
  {
    if k > 0 {
      SelectedUntimed(def, s, group, k - 1);
    }
  }

  lemma PreconditionUntimed(def: FabricDefinition, s: FabricState, p: Precondition)
    requires Shaped(def, s)
    ensures PreconditionHolds(def, WithoutTick(s), p) == PreconditionHolds(def, s, p)
  {
    hide TypedIndex;
  }

  lemma ReadyUntimed(def: FabricDefinition, policy: PlanPolicy, s: FabricState, a: nat)
    requires Shaped(def, s) && a < |def.actions|
    ensures Ready(def, policy, WithoutTick(s), a) == Ready(def, policy, s, a)
  {
    hide PreconditionHolds, ActionIndex, GroupIndex, ResourceIndex, Selected;
    var action, t := def.actions[a], WithoutTick(s);
    forall d | 0 <= d < |action.dependencies|
      ensures DependencyMet(def, t, action.dependencies[d]) == DependencyMet(def, s, action.dependencies[d])
    {
    }
    forall g | 0 <= g < |action.groups|
      ensures GroupOpen(def, t, action.groups[g]) == GroupOpen(def, s, action.groups[g])
    {
      SelectedUntimed(def, s, action.groups[g], |def.actions|);
    }
    forall p | 0 <= p < |action.preconditions|
      ensures PreconditionHolds(def, t, action.preconditions[p]) == PreconditionHolds(def, s, action.preconditions[p])
    {
      PreconditionUntimed(def, s, action.preconditions[p]);
    }
    forall u | 0 <= u < |action.uses|
      ensures ConsumableReady(def, t, action.uses[u]) == ConsumableReady(def, s, action.uses[u])
    {
    }
  }

  lemma EffectUntimed(def: FabricDefinition, s: FabricState, e: Effect)
    requires Shaped(def, s)
    ensures ApplyEffect(def, WithoutTick(s), e)
         == match ApplyEffect(def, s, e) case None => None case Some(t) => Some(WithoutTick(t))
  {
    hide TypedIndex, AsUnsigned;
  }

  lemma {:induction false} EffectsUntimed(def: FabricDefinition, s: FabricState, effects: seq<Effect>)
    requires Shaped(def, s)
    ensures ApplyEffects(def, WithoutTick(s), effects)
         == match ApplyEffects(def, s, effects) case None => None case Some(t) => Some(WithoutTick(t))
    decreases |effects|
  {
    hide ApplyEffect;
    if |effects| > 0 {
      EffectUntimed(def, s, effects[0]);
      if ApplyEffect(def, s, effects[0]).Some? {
        EffectsUntimed(def, ApplyEffect(def, s, effects[0]).value, effects[1..]);
      }
    }
  }

  lemma {:induction false} ConsumeUntimed(def: FabricDefinition, s: FabricState, uses: seq<ResourceUse>)
    requires Shaped(def, s)
    ensures Consume(def, WithoutTick(s), uses) == WithoutTick(Consume(def, s, uses))
    decreases |uses|
  {
    hide ResourceIndex, Wrap32;
    if |uses| > 0 {
      ConsumeUntimed(def, ConsumeOne(def, s, uses[0]), uses[1..]);
    }
  }

  lemma EvolveUntimed(def: FabricDefinition, s: FabricState, a: nat)
    requires Shaped(def, s) && a < |def.actions| && s.occurrences[a] < def.actions[a].maxOccurrences
    requires s.tick + def.actions[a].duration <= MAX_U64
    ensures Evolve(def, s, a).Some? <==> Evolve(def, WithoutTick(s), a).Some?
    ensures Evolve(def, s, a).Some? ==>
              WithoutTick(Evolve(def, s, a).value) == WithoutTick(Evolve(def, WithoutTick(s), a).value)
  {
    hide ApplyEffects, Consume, ShortfallOf;
    var action := def.actions[a];
    EffectsUntimed(def, s, action.effects);
    SameServicesSameShortfall(def, s, WithoutTick(s), false, |def.services|);
    if ApplyEffects(def, s, action.effects).Some? {
      var changed := ApplyEffects(def, s, action.effects).value;
      ConsumeUntimed(def, changed, action.uses);
      var spent := Consume(def, changed, action.uses);
      SameServicesSameShortfall(def, spent, WithoutTick(spent), false, |def.services|);
    }
  }

  /** One step with and without a tick, while the tick stays within 64 bits. */
  lemma StepUntimed(def: FabricDefinition, policy: PlanPolicy, s: FabricState, held: seq<nat>, a: nat)
    requires Shaped(def, s) && |held| == |def.resources| && a < |def.actions|
    requires s.occurrences[a] < def.actions[a].maxOccurrences ==> s.tick + def.actions[a].duration <= MAX_U64
    ensures Step(def, policy, s, held, a).Some? <==> Step(def, policy, WithoutTick(s), held, a).Some?
    ensures Step(def, policy, s, held, a).Some? ==>
              WithoutTick(Step(def, policy, s, held, a).value)
                == WithoutTick(Step(def, policy, WithoutTick(s), held, a).value)
  {
    hide Fits, Evolve;
    ReadyUntimed(def, policy, s, a);
    if s.occurrences[a] < def.actions[a].maxOccurrences {
      EvolveUntimed(def, s, a);
    }
  }

  lemma StepCostUntimed(def: FabricDefinition, s: FabricState, t: FabricState, a: nat)
    requires Shaped(def, s) && Shaped(def, t) && a < |def.actions|
    ensures StepCost(def, WithoutTick(s), WithoutTick(t), a) == StepCost(def, s, t, a)
  {
    hide ShortfallOf;
    SameServicesSameShortfall(def, s, WithoutTick(s), true, |def.services|);
    SameServicesSameShortfall(def, t, WithoutTick(t), true, |def.services|);
  }

  lemma GoalsUntimed(def: FabricDefinition, s: FabricState)
    requires Shaped(def, s)
    ensures GoalsMet(def, WithoutTick(s)) == GoalsMet(def, s)
  {
    hide TypedIndex;
  }
}
