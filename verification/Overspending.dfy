/** What becomes of a consumable that one action lists more than once: each listed use is checked
    against what is available, and then all of them are taken. */
module Overspending {
  import opened Ints
  import opened Domain
  import opened Definition
  import opened Dynamics

  /** Whatever the uses are, spending leaves the difference as 32-bit subtraction does. */
  lemma {:induction false} ConsumeWraps(def: FabricDefinition, s: FabricState, uses: seq<ResourceUse>, r: nat)
    requires Shaped(def, s) && r < |def.resources| && def.resources[r].kind == Consumable
    ensures Consume(def, s, uses).available[r] == Wrap32(s.available[r] - Units(def, uses, r))
    decreases |uses|
  {
    hide ResourceIndex;
    if |uses| > 0 {
      var next := ConsumeOne(def, s, uses[0]);
      ConsumeWraps(def, next, uses[1..], r);
      WrapTwice(s.available[r], uses[0].units, Units(def, uses[1..], r));
    }
  }

  lemma WrapTwice(x: nat, y: nat, z: nat)
    ensures Wrap32(Wrap32(x - y) - z) == Wrap32(x - (y + z))
  {
    var q := (x - y) / TWO_32;
    assert x - y == q * TWO_32 + Wrap32(x - y);
    assert (x - (y + z)) % TWO_32 == (Wrap32(x - y) - z + q * TWO_32) % TWO_32;
  }

  /** Spending is exact if and only if what is available covers the uses of the resource taken
      together.  The guards before it look at each use alone. */
  lemma SpendingIsExactIff(def: FabricDefinition, s: FabricState, uses: seq<ResourceUse>, r: nat)
    requires Shaped(def, s) && r < |def.resources| && def.resources[r].kind == Consumable
    ensures Consume(def, s, uses).available[r] == s.available[r] - Units(def, uses, r)
       <==> Units(def, uses, r) <= s.available[r]
  {
    ConsumeWraps(def, s, uses, r);
  }

  // ---- One action that lists a consumable twice -----------------------------

  const TWICE: ActionSpec :=
    ActionSpec(1, [], Restore, Irreversible, 0, 0, 0, 0, 0, 1, FabricStateDomain, NoAuthority, [], [],
               [ResourceUse(9, 3), ResourceUse(9, 3)], [], [])

  const GREEDY: FabricDefinition :=
    FabricDefinition([], [], [], [ResourceSpec(9, Consumable, 5, 0)], [TWICE], [], [])

  const FULL: FabricState := FabricState([], [], [false], [5], [], [0], [], [], [true], [], 0)

  const PERMISSIVE: PlanPolicy := PlanPolicy(true, false, 5, 100, 100, 100, 1)

  lemma NineIsFirst()
    ensures ResourceIndex(GREEDY, 9) == Some(0)
  {
    assert ResourceIds(GREEDY)[0] == 9;
    FindUnique(ResourceIds(GREEDY), 0);
  }

  lemma GreedyIsValid()
    ensures ValidDefinition(GREEDY, DEFAULT_LIMITS)
  {
    NineIsFirst();
    assert ResourceIds(GREEDY) == [9] && ActionIds(GREEDY) == [1];
    assert NodeIds(GREEDY) == [] && LinkIds(GREEDY) == [] && ServiceIds(GREEDY) == [] && GroupIds(GREEDY) == [];
    assert ValidAction(GREEDY, DEFAULT_LIMITS, TWICE);
  }

  lemma TwiceTakesSix()
    ensures Units(GREEDY, TWICE.uses, 0) == 6
  {
    NineIsFirst();
    var one := [ResourceUse(9, 3)];
    assert TWICE.uses[1..] == one && one[1..] == [];
    assert Units(GREEDY, one, 0) == 3 + Units(GREEDY, one[1..], 0);
  }

  lemma TwiceEvolves()
    ensures Evolve(GREEDY, FULL, 0).Some?
    ensures Evolve(GREEDY, FULL, 0).value.available[0] == MAX_U32
  {
    hide Consume, Units;
    assert ApplyEffects(GREEDY, FULL, TWICE.effects) == Some(FULL);
    TwiceTakesSix();
    ConsumeWraps(GREEDY, FULL, TWICE.uses, 0);
  }

  /** In a valid definition, an action that lists a consumable twice passes every guard with five
      of the six units it takes, and leaves 2^32 - 1. */
  lemma DoubleUseWraps()
    ensures ValidDefinition(GREEDY, DEFAULT_LIMITS)
    ensures Step(GREEDY, PERMISSIVE, FULL, Held(GREEDY, []), 0).Some?
    ensures Step(GREEDY, PERMISSIVE, FULL, Held(GREEDY, []), 0).value.available[0] == MAX_U32
  {
    GreedyIsValid();
    TwiceEvolves();
    NineIsFirst();
    hide Evolve, ValidDefinition;
    assert Ready(GREEDY, PERMISSIVE, FULL, 0);
    assert Fits(GREEDY, 0, Held(GREEDY, []));
  }

  // ---- One action that overwrites what it consumes --------------------------

  const EMPTIES: ActionSpec :=
    ActionSpec(1, [], Restore, Irreversible, 0, 0, 0, 0, 0, 1, FabricStateDomain, NoAuthority, [],
               [Effect(SetAvailable, Subject(ResourceSubject, 9), 0)], [ResourceUse(9, 3)], [], [])

  const WASTEFUL: FabricDefinition :=
    FabricDefinition([], [], [], [ResourceSpec(9, Consumable, 5, 0)], [EMPTIES], [], [])

  lemma NineIsFirstThere()
    ensures ResourceIndex(WASTEFUL, 9) == Some(0)
  {
    assert ResourceIds(WASTEFUL)[0] == 9;
    FindUnique(ResourceIds(WASTEFUL), 0);
  }

  lemma WastefulIsValid()
    ensures ValidDefinition(WASTEFUL, DEFAULT_LIMITS)
  {
    NineIsFirstThere();
    assert ResourceIds(WASTEFUL) == [9] && ActionIds(WASTEFUL) == [1];
    assert NodeIds(WASTEFUL) == [] && LinkIds(WASTEFUL) == [] && ServiceIds(WASTEFUL) == [];
    assert GroupIds(WASTEFUL) == [];
    assert ValidEffect(WASTEFUL, EMPTIES.effects[0]);
    assert ValidAction(WASTEFUL, DEFAULT_LIMITS, EMPTIES);
  }

  lemma EmptiesEvolves()
    ensures Evolve(WASTEFUL, FULL, 0).Some?
    ensures Evolve(WASTEFUL, FULL, 0).value.available[0] == MAX_U32 - 2
  {
    NineIsFirstThere();
    var emptied := FULL.(available := [0]);
    assert FULL.available[0 := 0] == [0] && FULL.resourceKnown[0 := true] == [true];
    assert ApplyEffect(WASTEFUL, FULL, EMPTIES.effects[0]) == Some(emptied);
    assert EMPTIES.effects[1..] == [];
    assert ApplyEffects(WASTEFUL, FULL, EMPTIES.effects) == Some(emptied);
    assert EMPTIES.uses[1..] == [];
    assert Units(WASTEFUL, EMPTIES.uses, 0) == 3 + Units(WASTEFUL, EMPTIES.uses[1..], 0);
    hide Consume, Units;
    ConsumeWraps(WASTEFUL, emptied, EMPTIES.uses, 0);
  }

  /** In a valid definition, an action that sets to zero what it is about to consume passes every
      guard with five units available, and leaves 2^32 - 3. */
  lemma SetThenSpendWraps()
    ensures ValidDefinition(WASTEFUL, DEFAULT_LIMITS)
    ensures Step(WASTEFUL, PERMISSIVE, FULL, Held(WASTEFUL, []), 0).Some?
    ensures Step(WASTEFUL, PERMISSIVE, FULL, Held(WASTEFUL, []), 0).value.available[0] == MAX_U32 - 2
  {
    WastefulIsValid();
    EmptiesEvolves();
    NineIsFirstThere();
    hide Evolve, ValidDefinition;
    assert Ready(WASTEFUL, PERMISSIVE, FULL, 0);
    assert Fits(WASTEFUL, 0, Held(WASTEFUL, []));
  }
}
