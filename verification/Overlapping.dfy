/** The guard on a resource use as the validator and the reference solver compute it, in 32 bits,
    when it agrees with the exact one, and a definition on which it does not. */
module Overlapping {
  import opened Ints
  import opened Domain
  import opened Definition
  import opened Dynamics
  import opened Problems
  import opened Accounting
  import opened Histories
  import opened Regularity
  import opened Transition

  // Nothing recorded is later than the current step.
  predicate NoLaterThan(history: seq<seq<PastUse>>, now: nat) {
    forall r :: 0 <= r < |history| ==> ListNoLater(history[r], now)
  }

  predicate ListNoLater(list: seq<PastUse>, now: nat) {
    forall i :: 0 <= i < |list| ==> list[i].step <= now
  }

  // What lets a use pass: the units available of a consumable, or the 32-bit sum of everything
  // that overlaps a reusable one.
  predicate UsePasses(def: FabricDefinition, s: FabricState, history: seq<seq<PastUse>>, now: nat, use: ResourceUse)
    requires Shaped(def, s) && |history| == |def.resources|
  {
    var r := ResourceIndex(def, use.resource);
    r.Some? &&
    match def.resources[r.value].kind
    case Consumable => s.resourceKnown[r.value] && s.available[r.value] >= use.units
    case Reusable =>
      Wrap32(use.units + Overlap(history[r.value], now, def.resources[r.value].holdSteps))
      <= def.resources[r.value].capacity
  }

  /** With capacities below 2^31 a use passes exactly when it is free. */
  lemma PassesIsFree(def: FabricDefinition, s: FabricState, history: seq<seq<PastUse>>, w: seq<nat>, use: ResourceUse)
    requires Shaped(def, s) && HistoryExact(def, w, history)
    requires ModestCapacities(def) && HeldFits(def, w) && ValidUse(def, use)
    ensures UsePasses(def, s, history, |w|, use) <==> UseFree(def, s, Held(def, w), use)
  {
    hide ResourceIndex, Past, HeldUpTo, Overlap;
    var r := ResourceIndex(def, use.resource).value;
    if def.resources[r].kind == Reusable {
      OverlapIsHeld(def, w, r, |w|);
      NoWrap(HeldUpTo(def, w, r, |w|), use.units, def.resources[r].capacity);
    }
  }

  /** Whatever the capacities, a use that is free passes: what fits within a capacity does not
      wrap around. */
  lemma FreePasses(def: FabricDefinition, s: FabricState, history: seq<seq<PastUse>>, w: seq<nat>, use: ResourceUse)
    requires Shaped(def, s) && HistoryExact(def, w, history) && UseFree(def, s, Held(def, w), use)
    ensures |history| == |def.resources| && UsePasses(def, s, history, |w|, use)
  {
    hide ResourceIndex, Past, HeldUpTo, Overlap;
    var r := ResourceIndex(def, use.resource).value;
    if def.resources[r].kind == Reusable {
      OverlapIsHeld(def, w, r, |w|);
    }
  }

  // ---- Where the sum wraps around -------------------------------------------

  const HALF: U32 := 0x8000_0000

  const HEAVY_USE: ResourceUse := ResourceUse(9, HALF)

  const HEAVY_ACTION: ActionSpec :=
    ActionSpec(1, [], Restore, Irreversible, 0, 0, 0, 0, 0, 2, FabricStateDomain, NoAuthority, [], [], [HEAVY_USE], [],
               [])

  const HEAVY: FabricDefinition :=
    FabricDefinition([], [], [], [ResourceSpec(9, Reusable, HALF, 2)], [HEAVY_ACTION], [], [])

  const IDLE: FabricState := FabricState([], [], [false], [HALF], [], [0], [], [], [true], [], 0)

  const ONCE: FabricState := IDLE.(occurrences := [1])

  const TWO_STEPS: PlanPolicy := PlanPolicy(true, false, 5, 100, 100, 100, 1)

  lemma NineIsFirst()
    ensures ResourceIndex(HEAVY, 9) == Some(0)
  {
    assert ResourceIds(HEAVY)[0] == 9;
    FindUnique(ResourceIds(HEAVY), 0);
  }

  lemma HeavyIsValid()
    ensures ValidDefinition(HEAVY, DEFAULT_LIMITS)
  {
    NineIsFirst();
    assert ResourceIds(HEAVY) == [9] && ActionIds(HEAVY) == [1];
    assert NodeIds(HEAVY) == [] && LinkIds(HEAVY) == [] && ServiceIds(HEAVY) == [] && GroupIds(HEAVY) == [];
    assert ValidUse(HEAVY, HEAVY_USE);
    assert ValidAction(HEAVY, DEFAULT_LIMITS, HEAVY_ACTION);
  }

  lemma HeavyUnits()
    ensures Units(HEAVY, [HEAVY_USE], 0) == HALF
    ensures UsesAt(HEAVY, [HEAVY_USE], 0, 0) == [PastUse(0, HALF)]
  {
    NineIsFirst();
    assert [HEAVY_USE][1..] == [];
    assert Units(HEAVY, [HEAVY_USE][1..], 0) == 0 && UsesAt(HEAVY, [HEAVY_USE][1..], 0, 0) == [];
  }

  lemma HeldOnce()
    ensures Held(HEAVY, [0])[0] == HALF && Held(HEAVY, [])[0] == 0
    ensures Past(HEAVY, [0], 0, 1) == [PastUse(0, HALF)]
  {
    HeavyUnits();
    assert HeldUpTo(HEAVY, [0], 0, 0) == 0;
    assert Past(HEAVY, [0], 0, 0) == [];
  }

  lemma FirstStep()
    ensures Execute(HEAVY, TWO_STEPS, IDLE, [0]).Some?
    ensures Execute(HEAVY, TWO_STEPS, IDLE, [0]).value.state == ONCE
  {
    NineIsFirst();
    HeldOnce();
    OnceEvolves();
    assert Ready(HEAVY, TWO_STEPS, IDLE, 0) && Fits(HEAVY, 0, Held(HEAVY, []));
    hide Evolve, Held, StepCost;
    var none: seq<nat> := [];
    ExecuteSnoc(HEAVY, TWO_STEPS, IDLE, none, 0);
    assert none + [0] == [0];
  }

  lemma OnceEvolves()
    ensures Evolve(HEAVY, IDLE, 0) == Some(ONCE)
  {
    NineIsFirst();
    assert ApplyEffects(HEAVY, IDLE, []) == Some(IDLE);
    assert [HEAVY_USE][1..] == [];
    assert Consume(HEAVY, IDLE, [HEAVY_USE]) == IDLE;
    assert FloorGap(HEAVY, IDLE) == 0;
    assert IDLE.occurrences[0 := 1] == [1];
  }

  /** In a valid definition, one action uses half of 2^32 units of a resource of just that capacity
      and holds them for two steps.  Running it twice in a row is not admissible, and so no plan;
      but after the first run the sum has wrapped to zero, and the second one passes. */
  lemma WrappedSumPasses()
    ensures ValidDefinition(HEAVY, DEFAULT_LIMITS)
    ensures !Admissible(HEAVY, TWO_STEPS, IDLE, [0, 0]) && !IsPlan(HEAVY, TWO_STEPS, IDLE, [0, 0])
    ensures Execute(HEAVY, TWO_STEPS, IDLE, [0]).Some?
    ensures var s := Execute(HEAVY, TWO_STEPS, IDLE, [0]).value.state;
            && Ready(HEAVY, TWO_STEPS, s, 0)
            && HistoryExact(HEAVY, [0], [[PastUse(0, HALF)]])
            && UsePasses(HEAVY, s, [[PastUse(0, HALF)]], 1, HEAVY_USE)
  {
    HeavyIsValid();
    FirstStep();
    SecondStep();
    HeldOnce();
    SecondPasses();
    hide Execute, ValidDefinition, Ready;
  }

  lemma SecondPasses()
    ensures Ready(HEAVY, TWO_STEPS, ONCE, 0) && UsePasses(HEAVY, ONCE, [[PastUse(0, HALF)]], 1, HEAVY_USE)
  {
    NineIsFirst();
    assert [PastUse(0, HALF)][1..] == [];
    assert Overlap([PastUse(0, HALF)][1..], 1, 2) == 0;
    assert Overlap([PastUse(0, HALF)], 1, 2) == HALF;
    assert ConsumableReady(HEAVY, ONCE, HEAVY_USE);
  }

  lemma SecondStep()
    ensures !Admissible(HEAVY, TWO_STEPS, IDLE, [0, 0])
  {
    NineIsFirst();
    HeldOnce();
    FirstStep();
    assert !Fits(HEAVY, 0, Held(HEAVY, [0])) by {
      assert HEAVY.actions[0].uses[0] == HEAVY_USE;
    }
    hide Evolve, Held, StepCost, Ready, Fits;
    ExecuteSnoc(HEAVY, TWO_STEPS, IDLE, [0], 0);
    assert [0] + [0] == [0, 0];
  }
}
