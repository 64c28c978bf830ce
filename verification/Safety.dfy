/** What every admissible sequence keeps: the service floors, the known marks, the
    occurrence and exclusion bounds, the dependencies and the resource limits. */
module Safety {
  import opened Ints
  import opened Domain
  import opened Objectives
  import opened Dynamics
  import opened Problems
  import opened Accounting

  // ---- Floors ---------------------------------------------------------------

  /** The total floor gap never grows along an admissible sequence. */
  lemma {:induction false} FloorGapNeverGrows(def: FabricDefinition, policy: PlanPolicy, start: FabricState,
                                              w: seq<nat>, k: nat)
    requires Shaped(def, start) && k <= |w| && Execute(def, policy, start, w).Some?
    ensures Execute(def, policy, start, w[..k]).Some?
    ensures FloorGap(def, Execute(def, policy, start, w).value.state)
         <= FloorGap(def, Execute(def, policy, start, w[..k]).value.state)
    decreases |w|
  {
    hide Step, Held, StepCost, FloorGap;
    if k == |w| {
      assert w[..k] == w;
    } else {
      var u := w[..|w| - 1];
      ExecuteLast(def, policy, start, w);
      FloorGapNeverGrows(def, policy, start, u, k);
      assert u[..k] == w[..k];
      StepFacts(def, policy, Execute(def, policy, start, u).value.state, Held(def, u), w[|w| - 1]);
    }
  }

  lemma {:induction false} NoGapMeansFloorsHold(def: FabricDefinition, s: FabricState, k: nat, i: nat)
    requires Shaped(def, s) && i < k <= |def.services| && ShortfallOf(def, s, false, k) == 0
    ensures def.services[i].required > 0 ==> s.serviceKnown[i] && s.reachable[i] >= def.services[i].required
  {
    if i < k - 1 {
      NoGapMeansFloorsHold(def, s, k - 1, i);
    }
  }

  /** Starting without a floor gap, every floored service stays known and at its floor
      after every prefix of every admissible sequence. */
  lemma FloorsArePreserved(def: FabricDefinition, policy: PlanPolicy, start: FabricState, w: seq<nat>, k: nat, i: nat)
    requires Shaped(def, start) && FloorGap(def, start) == 0
    requires k <= |w| && i < |def.services| && Execute(def, policy, start, w).Some?
    ensures Execute(def, policy, start, w[..k]).Some?
    ensures var s := Execute(def, policy, start, w[..k]).value.state;
            def.services[i].required > 0 ==> s.serviceKnown[i] && s.reachable[i] >= def.services[i].required
  {
    hide Prolong, Held, ShortfallOf;
    Prefixes(def, policy, start, w, k);
    FloorGapNeverGrows(def, policy, start, w[..k], 0);
    assert w[..k][..0] == [];
    NoGapMeansFloorsHold(def, Execute(def, policy, start, w[..k]).value.state, |def.services|, i);
  }

  // ---- Known marks and ranges -----------------------------------------------

  predicate MarksGrow(s: FabricState, t: FabricState) {
    && |s.linkKnown| == |t.linkKnown| && |s.nodeKnown| == |t.nodeKnown|
    && |s.serviceKnown| == |t.serviceKnown| && |s.resourceKnown| == |t.resourceKnown|
    && (forall i :: 0 <= i < |s.linkKnown| && s.linkKnown[i] ==> t.linkKnown[i])
    && (forall i :: 0 <= i < |s.nodeKnown| && s.nodeKnown[i] ==> t.nodeKnown[i])
    && (forall i :: 0 <= i < |s.serviceKnown| && s.serviceKnown[i] ==> t.serviceKnown[i])
    && (forall i :: 0 <= i < |s.resourceKnown| && s.resourceKnown[i] ==> t.resourceKnown[i])
  }

  predicate WithinRanges(def: FabricDefinition, s: FabricState)
    requires Shaped(def, s)
  {
    && (forall i :: 0 <= i < |def.services| ==> s.reachable[i] <= def.services[i].maximum)
    && (forall i :: 0 <= i < |def.resources| ==> s.available[i] <= def.resources[i].capacity)
  }

  lemma EffectKeeps(def: FabricDefinition, s: FabricState, e: Effect)
    requires Shaped(def, s) && ApplyEffect(def, s, e).Some?
    ensures MarksGrow(s, ApplyEffect(def, s, e).value)
    ensures WithinRanges(def, s) ==> WithinRanges(def, ApplyEffect(def, s, e).value)
  {
  }

  lemma {:induction false} EffectsKeep(def: FabricDefinition, s: FabricState, effects: seq<Effect>)
    requires Shaped(def, s) && ApplyEffects(def, s, effects).Some?
    ensures MarksGrow(s, ApplyEffects(def, s, effects).value)
    ensures WithinRanges(def, s) ==> WithinRanges(def, ApplyEffects(def, s, effects).value)
    decreases |effects|
  {
    hide ApplyEffect;
    if |effects| > 0 {
      EffectKeeps(def, s, effects[0]);
      EffectsKeep(def, ApplyEffect(def, s, effects[0]).value, effects[1..]);
    }
  }

  /** What is known stays known, along every admissible sequence. */
  lemma {:induction false} KnownMarksGrow(def: FabricDefinition, policy: PlanPolicy, start: FabricState, w: seq<nat>)
    requires Shaped(def, start) && Execute(def, policy, start, w).Some?
    ensures MarksGrow(start, Execute(def, policy, start, w).value.state)
    decreases |w|
  {
    hide Step, Held, StepCost, Evolve;
    if |w| > 0 {
      var u, a := w[..|w| - 1], w[|w| - 1];
      ExecuteLast(def, policy, start, w);
      KnownMarksGrow(def, policy, start, u);
      StepFacts(def, policy, Execute(def, policy, start, u).value.state, Held(def, u), a);
      EvolveMarks(def, Execute(def, policy, start, u).value.state, a);
    }
  }

  lemma EvolveMarks(def: FabricDefinition, s: FabricState, a: nat)
    requires Shaped(def, s) && a < |def.actions| && s.occurrences[a] < def.actions[a].maxOccurrences
    requires Evolve(def, s, a).Some?
    ensures MarksGrow(s, Evolve(def, s, a).value)
  {
    hide ApplyEffects, Consume, FloorGap;
    EffectsKeep(def, s, def.actions[a].effects);
  }

  // ---- Resources ------------------------------------------------------------

  // No resource is listed twice by one action, and no action both consumes a resource and
  // overwrites what is available of it.
  predicate SingleUse(def: FabricDefinition, action: ActionSpec) {
    && (forall i, j :: 0 <= i < j < |action.uses| ==> action.uses[i].resource != action.uses[j].resource)
    && (forall e, u :: 0 <= e < |action.effects| && 0 <= u < |action.uses| ==>
          Overwrites(action.effects[e], action.uses[u]) ==> Reuses(def, action.uses[u]))
  }

  predicate Overwrites(e: Effect, use: ResourceUse) {
    e.kind == SetAvailable && e.subject.id == use.resource
  }

  predicate Reuses(def: FabricDefinition, use: ResourceUse) {
    match ResourceIndex(def, use.resource)
    case None => true
    case Some(r) => def.resources[r].kind == Reusable
  }

  predicate SingleUses(def: FabricDefinition) {
    forall a :: 0 <= a < |def.actions| ==> SingleUse(def, def.actions[a])
  }

  predicate DistinctUses(uses: seq<ResourceUse>) {
    forall i, j :: 0 <= i < j < |uses| ==> uses[i].resource != uses[j].resource
  }

  lemma {:induction false} UnlistedUnits(def: FabricDefinition, uses: seq<ResourceUse>, r: nat)
    requires r < |def.resources| && Distinct(ResourceIds(def))
    requires forall u :: 0 <= u < |uses| ==> uses[u].resource != def.resources[r].id
    ensures Units(def, uses, r) == 0
  {
    hide Distinct;
    if |uses| > 0 {
      UnlistedUnits(def, uses[1..], r);
    }
  }

  // With distinct uses the units of a resource are those of its one use.
  lemma {:induction false} UnitsOfUse(def: FabricDefinition, uses: seq<ResourceUse>, u: nat, r: nat)
    requires Distinct(ResourceIds(def)) && DistinctUses(uses)
    requires u < |uses| && ResourceIndex(def, uses[u].resource) == Some(r)
    ensures Units(def, uses, r) == uses[u].units
  {
    hide Distinct;
    if u == 0 {
      forall x | 0 <= x < |uses[1..]|
        ensures uses[1..][x].resource != def.resources[r].id
      {
        assert uses[1..][x] == uses[x + 1];
      }
      UnlistedUnits(def, uses[1..], r);
    } else {
      assert uses[1..][u - 1] == uses[u];
      assert uses[0].resource != uses[u].resource;
      UnitsOfUse(def, uses[1..], u - 1, r);
    }
  }

  // Spending takes exactly the units of each consumable and never wraps.
  lemma {:induction false} ConsumeExact(def: FabricDefinition, s: FabricState, uses: seq<ResourceUse>, r: nat)
    requires Shaped(def, s) && Distinct(ResourceIds(def)) && DistinctUses(uses) && r < |def.resources|
    requires def.resources[r].kind == Consumable ==>
               forall u :: 0 <= u < |uses| && ResourceIndex(def, uses[u].resource) == Some(r) ==>
                 uses[u].units <= s.available[r]
    ensures var spent := if def.resources[r].kind == Consumable then Units(def, uses, r) else 0;
            Consume(def, s, uses).available[r] == s.available[r] - spent
    decreases |uses|
  {
    hide Distinct;
    if |uses| > 0 {
      var next := ConsumeOne(def, s, uses[0]);
      ConsumeOneAt(def, s, uses[0], r);
      assert DistinctUses(uses[1..]);
      if ResourceIndex(def, uses[0].resource) == Some(r) {
        forall x | 0 <= x < |uses[1..]|
          ensures uses[1..][x].resource != def.resources[r].id
        {
          assert uses[1..][x] == uses[x + 1];
        }
        UnlistedUnits(def, uses[1..], r);
        NotListed(def, uses[1..], r);
      } else {
        forall u | 0 <= u < |uses[1..]| && ResourceIndex(def, uses[1..][u].resource) == Some(r)
          ensures ResourceIndex(def, uses[u + 1].resource) == Some(r)
        {
        }
      }
      ConsumeExact(def, next, uses[1..], r);
    }
  }

  lemma NotListed(def: FabricDefinition, uses: seq<ResourceUse>, r: nat)
    requires r < |def.resources|
    requires forall u :: 0 <= u < |uses| ==> uses[u].resource != def.resources[r].id
    ensures forall u :: 0 <= u < |uses| ==> ResourceIndex(def, uses[u].resource) != Some(r)
  {
  }

  lemma ConsumeOneAt(def: FabricDefinition, s: FabricState, use: ResourceUse, r: nat)
    requires Shaped(def, s) && r < |def.resources|
    requires ResourceIndex(def, use.resource) == Some(r) && def.resources[r].kind == Consumable ==>
               use.units <= s.available[r]
    ensures ConsumeOne(def, s, use).available[r]
         == if ResourceIndex(def, use.resource) == Some(r) && def.resources[r].kind == Consumable
            then s.available[r] - use.units else s.available[r]
  {
    hide ResourceIndex;
  }

  // Effects that never overwrite a resource leave what is available of it.
  lemma {:induction false} EffectsLeaveAvailable(def: FabricDefinition, s: FabricState, effects: seq<Effect>, r: nat)
    requires Shaped(def, s) && r < |def.resources| && ApplyEffects(def, s, effects).Some?
    requires forall e :: 0 <= e < |effects| && effects[e].kind == SetAvailable ==>
               effects[e].subject.id != def.resources[r].id
    ensures ApplyEffects(def, s, effects).value.available[r] == s.available[r]
    decreases |effects|
  {
    hide ApplyEffect;
    if |effects| > 0 {
      EffectLeavesAvailable(def, s, effects[0], r);
      EffectsLeaveAvailable(def, ApplyEffect(def, s, effects[0]).value, effects[1..], r);
    }
  }

  lemma EffectLeavesAvailable(def: FabricDefinition, s: FabricState, e: Effect, r: nat)
    requires Shaped(def, s) && r < |def.resources| && ApplyEffect(def, s, e).Some?
    requires e.kind == SetAvailable ==> e.subject.id != def.resources[r].id
    ensures ApplyEffect(def, s, e).value.available[r] == s.available[r]
  {
  }

  // What one step leaves of a consumable.
  lemma StepSpends(def: FabricDefinition, policy: PlanPolicy, s: FabricState, a: nat, r: nat)
    requires Shaped(def, s) && a < |def.actions| && r < |def.resources| && Distinct(ResourceIds(def))
    requires SingleUse(def, def.actions[a]) && Ready(def, policy, s, a) && Evolve(def, s, a).Some?
    ensures ApplyEffects(def, s, def.actions[a].effects).Some?
    ensures var spent := if def.resources[r].kind == Consumable then Units(def, def.actions[a].uses, r) else 0;
            Evolve(def, s, a).value.available[r]
            == ApplyEffects(def, s, def.actions[a].effects).value.available[r] - spent
  {
    hide Distinct, ApplyEffects, Consume, FloorGap, DependencyMet, GroupOpen, PreconditionHolds, Units;
    var action := def.actions[a];
    var changed := ApplyEffects(def, s, action.effects).value;
    if def.resources[r].kind == Consumable {
      forall u | 0 <= u < |action.uses| && ResourceIndex(def, action.uses[u].resource) == Some(r)
        ensures action.uses[u].units <= changed.available[r]
      {
        UsedIsLeftAlone(def, policy, s, a, u, r);
      }
    }
    ConsumeExact(def, changed, action.uses, r);
  }

  lemma UsedIsLeftAlone(def: FabricDefinition, policy: PlanPolicy, s: FabricState, a: nat, u: nat, r: nat)
    requires Shaped(def, s) && a < |def.actions| && r < |def.resources| && u < |def.actions[a].uses|
    requires SingleUse(def, def.actions[a]) && Ready(def, policy, s, a)
    requires ApplyEffects(def, s, def.actions[a].effects).Some?
    requires ResourceIndex(def, def.actions[a].uses[u].resource) == Some(r) && def.resources[r].kind == Consumable
    ensures def.actions[a].uses[u].units
         <= s.available[r] == ApplyEffects(def, s, def.actions[a].effects).value.available[r]
  {
    hide ApplyEffects, DependencyMet, GroupOpen, PreconditionHolds;
    var action := def.actions[a];
    assert ConsumableReady(def, s, action.uses[u]);
    forall e | 0 <= e < |action.effects| && action.effects[e].kind == SetAvailable
      ensures action.effects[e].subject.id != def.resources[r].id
    {
      assert !Overwrites(action.effects[e], action.uses[u]);
    }
    EffectsLeaveAvailable(def, s, action.effects, r);
  }

  lemma StepKeepsRanges(def: FabricDefinition, policy: PlanPolicy, s: FabricState, a: nat)
    requires Shaped(def, s) && a < |def.actions| && Distinct(ResourceIds(def)) && WithinRanges(def, s)
    requires SingleUse(def, def.actions[a]) && Ready(def, policy, s, a) && Evolve(def, s, a).Some?
    ensures WithinRanges(def, Evolve(def, s, a).value)
  {
    hide Distinct, ApplyEffects, Consume, SingleUse, FloorGap, DependencyMet, GroupOpen, PreconditionHolds;
    hide ConsumableReady, Units;
    EffectsKeep(def, s, def.actions[a].effects);
    var t := Evolve(def, s, a).value;
    forall r | 0 <= r < |def.resources|
      ensures t.available[r] <= def.resources[r].capacity
    {
      StepSpends(def, policy, s, a, r);
    }
  }

  /** Reachability and availability stay in range along every admissible sequence. */
  lemma {:induction false} RangesArePreserved(def: FabricDefinition, policy: PlanPolicy, start: FabricState,
                                              w: seq<nat>)
    requires Shaped(def, start) && Distinct(ResourceIds(def)) && SingleUses(def) && WithinRanges(def, start)
    requires Execute(def, policy, start, w).Some?
    ensures WithinRanges(def, Execute(def, policy, start, w).value.state)
    decreases |w|
  {
    hide Distinct, SingleUse, WithinRanges, Step, Held, StepCost, Ready, Evolve;
    if |w| > 0 {
      var u, a := w[..|w| - 1], w[|w| - 1];
      ExecuteLast(def, policy, start, w);
      RangesArePreserved(def, policy, start, u);
      var s := Execute(def, policy, start, u).value.state;
      StepFacts(def, policy, s, Held(def, u), a);
      StepKeepsRanges(def, policy, s, a);
    }
  }

  // Units of resource r that a whole sequence takes.
  function TotalUnits(def: FabricDefinition, w: seq<nat>, r: nat): nat {
    if |w| == 0 then 0 else TotalUnits(def, w[..|w| - 1], r) + Units(def, UsesOf(def, w[|w| - 1]), r)
  }

  predicate NeverOverwritten(def: FabricDefinition, r: nat)
    requires r < |def.resources|
  {
    forall a, e :: 0 <= a < |def.actions| && 0 <= e < |def.actions[a].effects| ==>
      def.actions[a].effects[e].kind == SetAvailable ==> def.actions[a].effects[e].subject.id != def.resources[r].id
  }

  /** Conservation: what a plan has taken of a consumable that no effect overwrites, plus
      what is left of it, is what there was. */
  lemma {:induction false} ConsumablesAreConserved(def: FabricDefinition, policy: PlanPolicy, start: FabricState,
                                                   w: seq<nat>, r: nat)
    requires Shaped(def, start) && Distinct(ResourceIds(def)) && SingleUses(def)
    requires r < |def.resources| && def.resources[r].kind == Consumable && NeverOverwritten(def, r)
    requires Execute(def, policy, start, w).Some?
    ensures Execute(def, policy, start, w).value.state.available[r] + TotalUnits(def, w, r) == start.available[r]
    decreases |w|
  {
    hide Distinct, SingleUse, Step, Held, StepCost, Ready, Evolve, Units, ApplyEffects;
    if |w| > 0 {
      var u, a := w[..|w| - 1], w[|w| - 1];
      ExecuteLast(def, policy, start, w);
      ConsumablesAreConserved(def, policy, start, u, r);
      var s := Execute(def, policy, start, u).value.state;
      StepFacts(def, policy, s, Held(def, u), a);
      StepSpends(def, policy, s, a, r);
      EffectsLeaveAvailable(def, s, def.actions[a].effects, r);
    }
  }

  // ---- Holds ----------------------------------------------------------------

  // Prolonging a sequence never reopens an earlier use.
  lemma {:induction false} HoldsOnlyClose(def: FabricDefinition, w: seq<nat>, a: nat, r: nat, k: nat)
    requires r < |def.resources| && k <= |w|
    ensures HeldUpTo(def, w + [a], r, k) <= HeldUpTo(def, w, r, k)
  {
    hide Units;
    if k > 0 {
      HoldsOnlyClose(def, w, a, r, k - 1);
      assert (w + [a])[k - 1] == w[k - 1];
    }
  }

  lemma {:induction false} HeldSnoc(def: FabricDefinition, w: seq<nat>, a: nat, r: nat)
    requires r < |def.resources|
    ensures HeldUpTo(def, w + [a], r, |w| + 1) <= HeldUpTo(def, w, r, |w|) + Units(def, UsesOf(def, a), r)
  {
    hide Units;
    HoldsOnlyClose(def, w, a, r, |w|);
    assert (w + [a])[|w|] == a;
  }

  // A use that fits keeps the units of its resource within capacity, counted together.
  lemma FitsTogether(def: FabricDefinition, a: nat, held: seq<nat>, r: nat)
    requires a < |def.actions| && |held| == |def.resources| && r < |def.resources|
    requires Distinct(ResourceIds(def)) && SingleUse(def, def.actions[a]) && Fits(def, a, held)
    requires def.resources[r].kind == Reusable && held[r] <= def.resources[r].capacity
    ensures held[r] + Units(def, def.actions[a].uses, r) <= def.resources[r].capacity
  {
    hide Distinct;
    var uses := def.actions[a].uses;
    if u :| 0 <= u < |uses| && ResourceIndex(def, uses[u].resource) == Some(r) {
      UnitsOfUse(def, uses, u, r);
    } else {
      forall u | 0 <= u < |uses|
        ensures uses[u].resource != def.resources[r].id
      {
        if uses[u].resource == def.resources[r].id {
          FindUnique(ResourceIds(def), r);
        }
      }
      UnlistedUnits(def, uses, r);
    }
  }

  /** At every step the units of a reusable resource that are held stay within capacity. */
  lemma {:induction false} HeldWithinCapacity(def: FabricDefinition, policy: PlanPolicy, start: FabricState,
                                              w: seq<nat>, r: nat)
    requires Shaped(def, start) && Distinct(ResourceIds(def)) && SingleUses(def)
    requires r < |def.resources| && def.resources[r].kind == Reusable && Execute(def, policy, start, w).Some?
    ensures HeldUpTo(def, w, r, |w|) <= def.resources[r].capacity
    decreases |w|
  {
    hide Distinct, SingleUse, Step, StepCost, Ready, Evolve, Units, Fits, HeldUpTo;
    if |w| == 0 {
      NothingHeld(def, w, r);
    } else {
      var u, a := w[..|w| - 1], w[|w| - 1];
      ExecuteLast(def, policy, start, w);
      HeldWithinCapacity(def, policy, start, u, r);
      StepFacts(def, policy, Execute(def, policy, start, u).value.state, Held(def, u), a);
      FitsTogether(def, a, Held(def, u), r);
      HeldSnoc(def, u, a, r);
      assert w == u + [a];
    }
  }

  lemma NothingHeld(def: FabricDefinition, w: seq<nat>, r: nat)
    requires r < |def.resources| && |w| == 0
    ensures HeldUpTo(def, w, r, |w|) == 0
  {
  }

  // ---- Dependencies and exclusion groups ------------------------------------

  /** Whenever an action runs, each of its dependencies has already run often enough. */
  lemma DependenciesWereMet(def: FabricDefinition, policy: PlanPolicy, start: FabricState, w: seq<nat>, k: nat, d: nat)
    requires Shaped(def, start) && NothingExecuted(start) && Execute(def, policy, start, w).Some?
    requires k < |w| && w[k] < |def.actions| && d < |def.actions[w[k]].dependencies|
    ensures var dependency := def.actions[w[k]].dependencies[d];
            var p := ActionIndex(def, dependency.predecessor);
            p.Some? && CountOf(w[..k], p.value) >= dependency.minOccurrences
  {
    hide Step, Held, StepCost, Prolong, Execute;
    Prefixes(def, policy, start, w, k + 1);
    var v := w[..k + 1];
    ExecuteLast(def, policy, start, v);
    assert v[..|v| - 1] == w[..k] && v[|v| - 1] == w[k];
    var s := Execute(def, policy, start, w[..k]).value.state;
    StepFacts(def, policy, s, Held(def, w[..k]), w[k]);
    MetDependency(def, policy, s, w[k], d);
    OccurrencesAreCounts(def, policy, start, w[..k],
                         ActionIndex(def, def.actions[w[k]].dependencies[d].predecessor).value);
  }

  lemma MetDependency(def: FabricDefinition, policy: PlanPolicy, s: FabricState, a: nat, d: nat)
    requires Shaped(def, s) && a < |def.actions| && Ready(def, policy, s, a)
    requires d < |def.actions[a].dependencies|
    ensures DependencyMet(def, s, def.actions[a].dependencies[d])
  {
    hide DependencyMet, GroupOpen, PreconditionHolds, ConsumableReady;
  }

  // Running an action once more selects at most one more member of a group, and only
  // when it had not run before and belongs to the group.
  lemma {:induction false} SelectedAfter(def: FabricDefinition, s: FabricState, t: FabricState, a: nat, group: U64,
                                         k: nat)
    requires Shaped(def, s) && Shaped(def, t) && a < |def.actions| && k <= |def.actions|
    requires |t.occurrences| == |s.occurrences| && t.occurrences[a] > 0
    requires forall i :: 0 <= i < |s.occurrences| && i != a ==> t.occurrences[i] == s.occurrences[i]
    ensures Selected(def, t, group, k)
         <= Selected(def, s, group, k)
            + if a < k && s.occurrences[a] == 0 && group in def.actions[a].groups then 1 else 0
  {
    if k > 0 {
      SelectedAfter(def, s, t, a, group, k - 1);
    }
  }

  lemma {:induction false} NoneSelected(def: FabricDefinition, s: FabricState, group: U64, k: nat)
    requires Shaped(def, s) && NothingExecuted(s) && k <= |def.actions|
    ensures Selected(def, s, group, k) == 0
  {
    if k > 0 {
      NoneSelected(def, s, group, k - 1);
    }
  }

  lemma OpenGroup(def: FabricDefinition, policy: PlanPolicy, s: FabricState, a: nat, g: nat)
    requires Shaped(def, s) && a < |def.actions| && Ready(def, policy, s, a) && s.occurrences[a] == 0
    requires g < |def.groups| && Distinct(GroupIds(def)) && def.groups[g].id in def.actions[a].groups
    ensures Selected(def, s, def.groups[g].id, |def.actions|) < def.groups[g].maxSelected
  {
    hide DependencyMet, PreconditionHolds, ConsumableReady, Selected;
    var i :| 0 <= i < |def.actions[a].groups| && def.actions[a].groups[i] == def.groups[g].id;
    assert GroupOpen(def, s, def.actions[a].groups[i]);
    FindUnique(GroupIds(def), g);
  }

  /** No exclusion group ever has more members selected than it allows. */
  lemma {:induction false} GroupsStayWithinBounds(def: FabricDefinition, policy: PlanPolicy, start: FabricState,
                                                  w: seq<nat>, g: nat)
    requires Shaped(def, start) && NothingExecuted(start) && Distinct(GroupIds(def)) && g < |def.groups|
    requires Execute(def, policy, start, w).Some?
    ensures Selected(def, Execute(def, policy, start, w).value.state, def.groups[g].id, |def.actions|)
         <= def.groups[g].maxSelected
    decreases |w|
  {
    hide Distinct, Step, StepCost, Ready, Held, Selected, Evolve;
    var id, n := def.groups[g].id, |def.actions|;
    if |w| == 0 {
      NoneSelected(def, start, id, n);
    } else {
      var u, a := w[..|w| - 1], w[|w| - 1];
      ExecuteLast(def, policy, start, w);
      GroupsStayWithinBounds(def, policy, start, u, g);
      var s := Execute(def, policy, start, u).value.state;
      StepFacts(def, policy, s, Held(def, u), a);
      SelectedAfter(def, s, Execute(def, policy, start, w).value.state, a, id, n);
      if s.occurrences[a] == 0 && id in def.actions[a].groups {
        OpenGroup(def, policy, s, a, g);
      }
    }
  }
}
