/** Definitions whose infeasibility hangs on a value that the planner does not count as open. */
module Unestablished {
  import opened Ints
  import opened Domain
  import opened Definition
  import opened Objectives
  import opened Dynamics
  import opened Evidence
  import opened Problems
  import opened Accounting
  import opened InitialStates
  import opened Planner
  import opened Completions
  import Certificates

  const POLICY: PlanPolicy := PlanPolicy(true, false, 5, 100, 100, 100, 1)

  // Everything that the planner asks about is known and there is no plan; once more is
  // established, there is one.
  ghost predicate Misleads(def: FabricDefinition, values: Values, more: Values, s: FabricState, t: FabricState,
                           plan: seq<nat>)
  {
    && ValidDefinition(def, DEFAULT_LIMITS)
    && Reflects(def, s, values) && Reflects(def, t, more) && Completes(values, more)
    && Certificates.AllKnown(def, s)
    && (forall w :: !IsPlan(def, POLICY, s, w))
    && IsPlan(def, POLICY, t, plan)
  }

  lemma StepIsAction(def: FabricDefinition, s: FabricState, held: seq<nat>, a: nat)
    requires Shaped(def, s) && |held| == |def.resources|
    ensures Step(def, POLICY, s, held, a).Some? ==> a < |def.actions|
  {
  }

  // Where no action can be the first, nothing but the empty sequence runs.
  lemma {:induction false} NothingStarts(def: FabricDefinition, s: FabricState, w: seq<nat>)
    requires Shaped(def, s)
    requires forall a :: 0 <= a < |def.actions| ==> Step(def, POLICY, s, Held(def, []), a).None?
    ensures Execute(def, POLICY, s, w).Some? ==> w == []
    decreases |w|
  {
    hide Step, Held, StepCost;
    if |w| > 0 {
      var earlier := w[..|w| - 1];
      NothingStarts(def, s, earlier);
      if earlier == [] {
        StepIsAction(def, s, Held(def, []), w[0]);
        assert Execute(def, POLICY, s, earlier) == Some(Outcome(s, ZERO));
      }
    }
  }

  lemma NeverMet(def: FabricDefinition, s: FabricState)
    requires Shaped(def, s) && !GoalsMet(def, s)
    requires forall a :: 0 <= a < |def.actions| ==> Step(def, POLICY, s, Held(def, []), a).None?
    ensures forall w :: !IsPlan(def, POLICY, s, w)
  {
    hide Step, Held, GoalsMet;
    forall w | Execute(def, POLICY, s, w).Some?
      ensures w == []
    {
      NothingStarts(def, s, w);
    }
    assert Execute(def, POLICY, s, []).value.state == s;
  }

  // One action of a definition with one link, run once.
  lemma RunsOnce(def: FabricDefinition, t: FabricState, after: FabricState)
    requires Shaped(def, t) && Step(def, POLICY, t, Held(def, []), 0) == Some(after)
    requires GoalsMet(def, after)
    ensures IsPlan(def, POLICY, t, [0])
  {
    hide Step, Held, StepCost, GoalsMet;
    ExecuteSnoc(def, POLICY, t, [], 0);
    assert [] + [0] == [0];
  }

  const RAISE_LINK: Effect := Effect(SetLink, Subject(LinkSubject, 7), 1)
  const LINK_UP: GoalSpec := GoalSpec(LinkGoal, Subject(LinkSubject, 7), 1, 1)
  const LINK_FACT: EvidenceKey := EvidenceKey(LinkFact, Subject(LinkSubject, 7))

  function OneAction(effects: seq<Effect>, uses: seq<ResourceUse>): ActionSpec {
    ActionSpec(1, [], Restore, Irreversible, 0, 0, 0, 0, 0, 1, FabricStateDomain, NoAuthority, [], effects, uses, [],
               [])
  }

  // ---- A consumable ---------------------------------------------------------

  const THIRSTY: FabricDefinition :=
    FabricDefinition([NodeSpec(1, false), NodeSpec(2, false)], [LinkSpec(7, 1, 2)], [],
                     [ResourceSpec(9, Consumable, 5, 0)], [OneAction([RAISE_LINK], [ResourceUse(9, 3)])], [LINK_UP], [])

  const SUPPLY: EvidenceKey := EvidenceKey(AvailableFact, Subject(ResourceSubject, 9))

  function Supplied(known: bool): FabricState {
    FabricState([false, false], [false], [false], [5], [], [0], [false, false], [true], [known], [], 0)
  }

  lemma ThirstyIndices()
    ensures LinkIndex(THIRSTY, 7) == Some(0) && ResourceIndex(THIRSTY, 9) == Some(0)
    ensures NodeIndex(THIRSTY, 1) == Some(0) && NodeIndex(THIRSTY, 2) == Some(1)
  {
    assert LinkIds(THIRSTY) == [7] && ResourceIds(THIRSTY) == [9] && NodeIds(THIRSTY) == [1, 2];
  }

  lemma ThirstyIsValid()
    ensures ValidDefinition(THIRSTY, DEFAULT_LIMITS)
  {
    ThirstyIndices();
    assert ResourceIds(THIRSTY) == [9] && ActionIds(THIRSTY) == [1] && LinkIds(THIRSTY) == [7];
    assert NodeIds(THIRSTY) == [1, 2] && ServiceIds(THIRSTY) == [] && GroupIds(THIRSTY) == [];
    assert ValidEffect(THIRSTY, RAISE_LINK) && ValidUse(THIRSTY, ResourceUse(9, 3));
    assert ValidAction(THIRSTY, DEFAULT_LIMITS, THIRSTY.actions[0]);
    assert ValidGoal(THIRSTY, LINK_UP) && ValidLink(THIRSTY, THIRSTY.links[0]);
  }

  lemma ThirstyStarts()
    ensures Reflects(THIRSTY, Supplied(false), map[LINK_FACT := 0])
    ensures Reflects(THIRSTY, Supplied(true), map[LINK_FACT := 0, SUPPLY := 5])
  {
  }

  lemma ThirstyBlocked()
    ensures forall a :: 0 <= a < |THIRSTY.actions| ==>
              Step(THIRSTY, POLICY, Supplied(false), Held(THIRSTY, []), a).None?
  {
    hide Held;
    ThirstyIndices();
    assert !ConsumableReady(THIRSTY, Supplied(false), THIRSTY.actions[0].uses[0]);
  }

  lemma ThirstyEvolves()
    ensures Evolve(THIRSTY, Supplied(true), 0).Some?
    ensures Evolve(THIRSTY, Supplied(true), 0).value.linkUp == [true]
    ensures Evolve(THIRSTY, Supplied(true), 0).value.linkKnown == [true]
  {
    ThirstyIndices();
    var s := Supplied(true);
    var effects, uses := THIRSTY.actions[0].effects, THIRSTY.actions[0].uses;
    assert effects[1..] == [] && uses[1..] == [];
    assert [false][0 := true] == [true] && [true][0 := true] == [true];
    var changed := s.(linkUp := [true]);
    assert ApplyEffect(THIRSTY, s, effects[0]) == Some(changed);
    assert ApplyEffects(THIRSTY, s, effects) == Some(changed);
    assert FloorGap(THIRSTY, s) == 0;
  }

  lemma ThirstyRuns()
    ensures IsPlan(THIRSTY, POLICY, Supplied(true), [0])
  {
    hide Evolve;
    ThirstyIndices();
    ThirstyEvolves();
    var after := Evolve(THIRSTY, Supplied(true), 0).value;
    assert Ready(THIRSTY, POLICY, Supplied(true), 0) && Fits(THIRSTY, 0, Held(THIRSTY, []));
    assert GoalMet(THIRSTY, after, LINK_UP);
    RunsOnce(THIRSTY, Supplied(true), after);
  }

  /** Nothing is known of a consumable that the only action uses, and nothing asks: there is no
      plan.  It takes no more than to establish that the consumable is as full as it is taken to
      be without evidence, and there is one. */
  lemma ConsumablesMislead()
    ensures Misleads(THIRSTY, map[LINK_FACT := 0], map[LINK_FACT := 0, SUPPLY := 5], Supplied(false), Supplied(true),
                     [0])
  {
    ThirstyIsValid();
    ThirstyStarts();
    ThirstyBlocked();
    ThirstyIsKnown();
    ThirstyRuns();
    hide ValidDefinition, Reflects, IsPlan, Step, Certificates.AllKnown, GoalsMet;
    NeverMet(THIRSTY, Supplied(false));
  }

  lemma ThirstyIsKnown()
    ensures Certificates.AllKnown(THIRSTY, Supplied(false)) && !GoalsMet(THIRSTY, Supplied(false))
  {
    ThirstyIndices();
    assert !GoalMet(THIRSTY, Supplied(false), THIRSTY.goals[0]);
  }

  function Repaired(): FabricState {
    FabricState([false, false], [false], [true], [5], [], [0], [false, false], [true], [true], [], 0)
  }

  /** A fact that the consumable has been restored counts as knowing how much there is: the plan
      spends three units of it, and no fact says that there are any. */
  lemma RestoredIsSpent()
    ensures ValidDefinition(THIRSTY, DEFAULT_LIMITS)
    ensures var values := map[LINK_FACT := 0, EvidenceKey(RestoredFact, Subject(ResourceSubject, 9)) := 1];
            Reflects(THIRSTY, Repaired(), values) && AvailableKey(THIRSTY, 0) !in values
    ensures IsPlan(THIRSTY, POLICY, Repaired(), [0])
  {
    hide Evolve, ValidDefinition;
    ThirstyIsValid();
    RepairedStarts();
    hide Reflects;
    RepairedRuns();
  }

  lemma RepairedStarts()
    ensures var values := map[LINK_FACT := 0, EvidenceKey(RestoredFact, Subject(ResourceSubject, 9)) := 1];
            Reflects(THIRSTY, Repaired(), values) && AvailableKey(THIRSTY, 0) !in values
  {
  }

  lemma RepairedRuns()
    ensures IsPlan(THIRSTY, POLICY, Repaired(), [0])
  {
    hide Evolve;
    ThirstyIndices();
    RepairedEvolves();
    var after := Evolve(THIRSTY, Repaired(), 0).value;
    assert Ready(THIRSTY, POLICY, Repaired(), 0) && Fits(THIRSTY, 0, Held(THIRSTY, []));
    assert GoalMet(THIRSTY, after, LINK_UP);
    RunsOnce(THIRSTY, Repaired(), after);
  }

  lemma RepairedEvolves()
    ensures Evolve(THIRSTY, Repaired(), 0).Some?
    ensures Evolve(THIRSTY, Repaired(), 0).value.linkUp == [true]
    ensures Evolve(THIRSTY, Repaired(), 0).value.linkKnown == [true]
  {
    ThirstyIndices();
    var s := Repaired();
    var effects, uses := THIRSTY.actions[0].effects, THIRSTY.actions[0].uses;
    assert effects[1..] == [] && uses[1..] == [];
    assert [false][0 := true] == [true] && [true][0 := true] == [true];
    var changed := s.(linkUp := [true]);
    assert ApplyEffect(THIRSTY, s, effects[0]) == Some(changed);
    assert ApplyEffects(THIRSTY, s, effects) == Some(changed);
    assert FloorGap(THIRSTY, s) == 0;
  }

  // ---- A resource that has been restored ------------------------------------

  const AWAITING: FabricDefinition :=
    FabricDefinition([], [], [], [ResourceSpec(9, Reusable, 1, 0)], [],
                     [GoalSpec(RestoredGoal, Subject(ResourceSubject, 9), 1, 1)], [])

  const RESTORED: EvidenceKey := EvidenceKey(RestoredFact, Subject(ResourceSubject, 9))

  function Awaiting(restored: bool): FabricState {
    FabricState([], [], [restored], [1], [], [], [], [], [true], [], 0)
  }

  lemma AwaitingIsValid()
    ensures ValidDefinition(AWAITING, DEFAULT_LIMITS) && ResourceIndex(AWAITING, 9) == Some(0)
  {
    assert ResourceIds(AWAITING) == [9] && ActionIds(AWAITING) == [] && LinkIds(AWAITING) == [];
    assert NodeIds(AWAITING) == [] && ServiceIds(AWAITING) == [] && GroupIds(AWAITING) == [];
    assert ResourceIndex(AWAITING, 9) == Some(0);
    assert ValidGoal(AWAITING, AWAITING.goals[0]);
  }

  /** How much there is of a resource is established, which counts as knowing it, but not that it
      has been restored, which is all that the goal asks for. */
  lemma RestorationMisleads()
    ensures Misleads(AWAITING, map[SUPPLY := 1], map[SUPPLY := 1, RESTORED := 1], Awaiting(false), Awaiting(true), [])
  {
    AwaitingIsValid();
    AwaitingStarts();
    AwaitingIsKnown();
    hide ValidDefinition, Reflects, Certificates.AllKnown, GoalsMet;
    NeverMet(AWAITING, Awaiting(false));
  }

  lemma AwaitingStarts()
    ensures Reflects(AWAITING, Awaiting(false), map[SUPPLY := 1])
    ensures Reflects(AWAITING, Awaiting(true), map[SUPPLY := 1, RESTORED := 1])
  {
  }

  lemma AwaitingIsKnown()
    ensures Certificates.AllKnown(AWAITING, Awaiting(false))
    ensures !GoalsMet(AWAITING, Awaiting(false)) && GoalsMet(AWAITING, Awaiting(true))
  {
    AwaitingIsValid();
    assert !GoalMet(AWAITING, Awaiting(false), AWAITING.goals[0]);
    assert GoalMet(AWAITING, Awaiting(true), AWAITING.goals[0]);
  }

  // ---- A service with a floor -----------------------------------------------

  const STRANDED: FabricDefinition :=
    FabricDefinition([NodeSpec(1, false), NodeSpec(2, false)], [LinkSpec(7, 1, 2)], [ServiceSpec(4, 1, 1, 2, false)],
                     [], [OneAction([Effect(ServiceDelta, Subject(ServiceSubject, 4), 1), RAISE_LINK], [])],
                     [LINK_UP], [])

  const REACHED: EvidenceKey := EvidenceKey(ServiceFact, Subject(ServiceSubject, 4))

  function Serving(reachable: U32, known: bool): FabricState {
    FabricState([false, false], [false], [], [], [reachable], [0], [false, false], [true], [], [known], 0)
  }

  lemma StrandedIndices()
    ensures LinkIndex(STRANDED, 7) == Some(0) && ServiceIndex(STRANDED, 4) == Some(0)
    ensures NodeIndex(STRANDED, 1) == Some(0) && NodeIndex(STRANDED, 2) == Some(1)
  {
    assert LinkIds(STRANDED) == [7] && ServiceIds(STRANDED) == [4] && NodeIds(STRANDED) == [1, 2];
  }

  lemma StrandedActionIsValid()
    ensures ValidAction(STRANDED, DEFAULT_LIMITS, STRANDED.actions[0])
  {
    StrandedIndices();
    assert ValidEffect(STRANDED, RAISE_LINK) && ValidEffect(STRANDED, STRANDED.actions[0].effects[0]);
  }

  lemma StrandedIsValid()
    ensures ValidDefinition(STRANDED, DEFAULT_LIMITS)
  {
    StrandedIndices();
    assert ResourceIds(STRANDED) == [] && ActionIds(STRANDED) == [1] && LinkIds(STRANDED) == [7];
    assert NodeIds(STRANDED) == [1, 2] && ServiceIds(STRANDED) == [4] && GroupIds(STRANDED) == [];
    StrandedActionIsValid();
    hide ValidAction;
    assert ValidGoal(STRANDED, LINK_UP) && ValidLink(STRANDED, STRANDED.links[0]);
  }

  lemma StrandedStarts()
    ensures Reflects(STRANDED, Serving(0, false), map[LINK_FACT := 0])
    ensures Reflects(STRANDED, Serving(1, true), map[LINK_FACT := 0, REACHED := 1])
  {
  }

  lemma StrandedBlocked()
    ensures forall a :: 0 <= a < |STRANDED.actions| ==>
              Step(STRANDED, POLICY, Serving(0, false), Held(STRANDED, []), a).None?
  {
    hide Held, Ready, Fits, FloorGap;
    StrandedIndices();
    assert ApplyEffect(STRANDED, Serving(0, false), STRANDED.actions[0].effects[0]).None?;
  }

  lemma StrandedChanges()
    ensures ApplyEffects(STRANDED, Serving(1, true), STRANDED.actions[0].effects)
         == Some(Serving(2, true).(linkUp := [true]))
  {
    StrandedIndices();
    var effects := STRANDED.actions[0].effects;
    var s, s1, s2 := Serving(1, true), Serving(2, true), Serving(2, true).(linkUp := [true]);
    assert [1][0 := 2] == [2] && [false][0 := true] == [true] && [true][0 := true] == [true];
    assert ApplyEffect(STRANDED, s, effects[0]) == Some(s1);
    assert ApplyEffect(STRANDED, s1, effects[1]) == Some(s2);
    assert effects[1..][0] == effects[1] && effects[1..][1..] == [];
    assert ApplyEffects(STRANDED, s2, effects[1..][1..]) == Some(s2);
    assert ApplyEffects(STRANDED, s1, effects[1..]) == Some(s2);
  }

  lemma StrandedEvolves()
    ensures Evolve(STRANDED, Serving(1, true), 0).Some?
    ensures Evolve(STRANDED, Serving(1, true), 0).value.linkUp == [true]
    ensures Evolve(STRANDED, Serving(1, true), 0).value.linkKnown == [true]
  {
    hide ApplyEffects;
    StrandedChanges();
    var s, changed := Serving(1, true), Serving(2, true).(linkUp := [true]);
    assert ShortfallOf(STRANDED, s, false, 0) == 0 && ShortfallOf(STRANDED, changed, false, 0) == 0;
    assert FloorGap(STRANDED, s) == 0 && FloorGap(STRANDED, changed) == 0;
  }

  lemma StrandedRuns()
    ensures IsPlan(STRANDED, POLICY, Serving(1, true), [0])
  {
    hide Evolve;
    StrandedIndices();
    StrandedEvolves();
    var after := Evolve(STRANDED, Serving(1, true), 0).value;
    assert Ready(STRANDED, POLICY, Serving(1, true), 0) && Fits(STRANDED, 0, Held(STRANDED, []));
    assert GoalMet(STRANDED, after, LINK_UP);
    RunsOnce(STRANDED, Serving(1, true), after);
  }

  /** Nothing is known of a service with a floor that the only action raises, and nothing asks. */
  lemma FlooredServicesMislead()
    ensures Misleads(STRANDED, map[LINK_FACT := 0], map[LINK_FACT := 0, REACHED := 1], Serving(0, false),
                     Serving(1, true), [0])
  {
    StrandedIsValid();
    StrandedStarts();
    StrandedBlocked();
    StrandedIsKnown();
    StrandedRuns();
    hide ValidDefinition, Reflects, IsPlan, Step, Certificates.AllKnown, GoalsMet;
    NeverMet(STRANDED, Serving(0, false));
  }

  lemma StrandedIsKnown()
    ensures Certificates.AllKnown(STRANDED, Serving(0, false)) && !GoalsMet(STRANDED, Serving(0, false))
  {
    StrandedIndices();
    assert !GoalMet(STRANDED, Serving(0, false), STRANDED.goals[0]);
  }
}
