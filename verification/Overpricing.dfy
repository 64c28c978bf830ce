/** A valid definition whose plans cost more than an objective can hold. */
module Overpricing {
  import opened Ints
  import opened Domain
  import opened Definition
  import opened Objectives
  import opened Dynamics
  import opened Problems
  import opened Accounting

  const RAISE: ActionSpec :=
    ActionSpec(1, [], Restore, Irreversible, 0, 0, 0, MAX_U64, 0, 2, FabricStateDomain, NoAuthority, [],
               [Effect(ServiceDelta, Subject(ServiceSubject, 4), 1)], [], [], [])

  const RAISED_TWICE: GoalSpec := GoalSpec(ServiceGoal, Subject(ServiceSubject, 4), 2, 1)

  const PRICEY: FabricDefinition :=
    FabricDefinition([], [], [ServiceSpec(4, 0, 0, 2, false)], [], [RAISE], [RAISED_TWICE], [])

  // The service raised so far, which is as often as the action has run.
  function Raised(n: U32): FabricState {
    FabricState([], [], [], [], [n], [n], [], [], [], [true], 0)
  }

  const POLICY: PlanPolicy := PlanPolicy(true, false, 5, 100, 100, 100, 1)

  lemma FourIsFirst()
    ensures ServiceIndex(PRICEY, 4) == Some(0)
  {
    assert ServiceIds(PRICEY)[0] == 4;
    FindUnique(ServiceIds(PRICEY), 0);
  }

  lemma PriceyIsValid()
    ensures ValidDefinition(PRICEY, DEFAULT_LIMITS)
  {
    FourIsFirst();
    assert ServiceIds(PRICEY) == [4] && ActionIds(PRICEY) == [1];
    assert NodeIds(PRICEY) == [] && LinkIds(PRICEY) == [] && ResourceIds(PRICEY) == [] && GroupIds(PRICEY) == [];
    assert ValidEffect(PRICEY, RAISE.effects[0]);
    assert ValidAction(PRICEY, DEFAULT_LIMITS, RAISE);
    assert ValidGoal(PRICEY, RAISED_TWICE);
  }

  lemma RaiseEvolves(n: U32)
    requires n < 2
    ensures Evolve(PRICEY, Raised(n), 0) == Some(Raised(n + 1))
  {
    FourIsFirst();
    var s, t := Raised(n), Raised(n).(reachable := [n + 1]);
    assert [n][0 := n + 1] == [n + 1];
    assert ApplyEffect(PRICEY, s, RAISE.effects[0]) == Some(t);
    assert RAISE.effects[1..] == [];
    assert ApplyEffects(PRICEY, s, RAISE.effects) == Some(t);
    assert ShortfallOf(PRICEY, s, false, 0) == 0 && ShortfallOf(PRICEY, t, false, 0) == 0;
    assert FloorGap(PRICEY, s) == 0 && FloorGap(PRICEY, t) == 0;
  }

  lemma RaiseRuns(w: seq<nat>, n: U32)
    requires n < 2 && Execute(PRICEY, POLICY, Raised(0), w).Some?
    requires Execute(PRICEY, POLICY, Raised(0), w).value.state == Raised(n)
    ensures Execute(PRICEY, POLICY, Raised(0), w + [0]).Some?
    ensures var before := Execute(PRICEY, POLICY, Raised(0), w).value;
            var after := Execute(PRICEY, POLICY, Raised(0), w + [0]).value;
            after.state == Raised(n + 1) && after.cost[6] == before.cost[6] + MAX_U64
  {
    hide Execute, Evolve, Held;
    RaiseEvolves(n);
    ExecuteSnoc(PRICEY, POLICY, Raised(0), w, 0);
    assert Ready(PRICEY, POLICY, Raised(n), 0) && Fits(PRICEY, 0, Held(PRICEY, w));
  }

  // Every sequence that runs is a number of raises, each at the full price.
  lemma {:induction false} OnlyRaises(w: seq<nat>)
    requires Execute(PRICEY, POLICY, Raised(0), w).Some?
    ensures |w| <= 2 && Execute(PRICEY, POLICY, Raised(0), w).value.state == Raised(|w|)
    ensures Execute(PRICEY, POLICY, Raised(0), w).value.cost[6] == |w| * MAX_U64
    decreases |w|
  {
    hide Evolve, Held, Prolong;
    if |w| > 0 {
      var earlier, a := w[..|w| - 1], w[|w| - 1];
      OnlyRaises(earlier);
      OnlyAction(earlier, a);
      RaiseRuns(earlier, |earlier|);
      assert w == earlier + [0];
    }
  }

  lemma OnlyAction(w: seq<nat>, a: nat)
    requires Execute(PRICEY, POLICY, Raised(0), w).Some? && Execute(PRICEY, POLICY, Raised(0), w + [a]).Some?
    requires |w| <= 2 && Execute(PRICEY, POLICY, Raised(0), w).value.state == Raised(|w|)
    ensures a == 0 && |w| < 2
  {
    hide Execute, Evolve, Held;
    ExecuteSnoc(PRICEY, POLICY, Raised(0), w, a);
  }

  /** There is a plan, but no objective in 64 bits can hold what a plan costs. */
  lemma EveryPlanOverflows(w: seq<nat>)
    ensures ValidDefinition(PRICEY, DEFAULT_LIMITS) && WellPosed(Problem(PRICEY, POLICY, Raised(0)))
    ensures IsPlan(PRICEY, POLICY, Raised(0), [0, 0])
    ensures IsPlan(PRICEY, POLICY, Raised(0), w) ==>
              !Fits64(Execute(PRICEY, POLICY, Raised(0), w).value.cost)
  {
    hide ValidDefinition, Fits64, Execute;
    PriceyIsValid();
    TwoRaises();
    assert ActionIds(PRICEY) == [1];
    FourIsFirst();
    if Execute(PRICEY, POLICY, Raised(0), w).Some? {
      OnlyRaises(w);
      var o := Execute(PRICEY, POLICY, Raised(0), w).value;
      assert GoalMet(PRICEY, Raised(|w|), PRICEY.goals[0]) ==> |w| >= 2;
      if |w| >= 2 {
        TooCostly(o.cost);
      }
    }
  }

  lemma TwoRaises()
    ensures Execute(PRICEY, POLICY, Raised(0), [0, 0]).Some?
    ensures Execute(PRICEY, POLICY, Raised(0), [0, 0]).value.state == Raised(2)
  {
    RaiseRuns([], 0);
    assert [] + [0] == [0];
    RaiseRuns([0], 1);
    assert [0] + [0] == [0, 0];
  }

  lemma TooCostly(cost: Objective)
    requires cost[6] > MAX_U64
    ensures !Fits64(cost)
  {
  }
}
