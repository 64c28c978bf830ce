/** What a cyclic definition still means: exactly what is left of it without the actions on its
    cycles. */
module Trimming {
  import opened Ints
  import opened Domain
  import opened Definition
  import opened Objectives
  import opened Dynamics
  import opened Problems
  import opened Accounting
  import opened Cycle

  ghost predicate OnCycle(def: FabricDefinition, a: nat) {
    exists nodes :: ClosedWalk(def, nodes) && a in nodes
  }

  // The action with no other left that it waits for: it waits for itself to have run.
  function Retired(action: ActionSpec): ActionSpec {
    action.(dependencies := [], preconditions := [AfterItself(action)])
  }

  function AfterItself(action: ActionSpec): Precondition {
    Precondition(ExecutedAtLeast, Subject(ActionSubject, action.id), 1)
  }

  // The definition with every action on a cycle retired.
  ghost function Trimmed(def: FabricDefinition): (t: FabricDefinition)
    ensures t == def.(actions := t.actions) && |t.actions| == |def.actions|
    ensures forall a :: 0 <= a < |def.actions| ==>
              t.actions[a] == if OnCycle(def, a) then Retired(def.actions[a]) else def.actions[a]
  {
    def.(actions := seq(|def.actions|, a requires 0 <= a < |def.actions| =>
      if OnCycle(def, a) then Retired(def.actions[a]) else def.actions[a]))
  }

  // ---- Definitions that differ in their guards only -------------------------

  ghost predicate Alike(d: FabricDefinition, e: FabricDefinition) {
    && e == d.(actions := e.actions) && |e.actions| == |d.actions|
    && forall a :: 0 <= a < |d.actions| ==>
         e.actions[a] == d.actions[a].(preconditions := e.actions[a].preconditions,
                                       dependencies := e.actions[a].dependencies)
  }

  lemma TrimmedAlike(def: FabricDefinition)
    ensures Alike(def, Trimmed(def))
  {
  }

  lemma SameIndices(d: FabricDefinition, e: FabricDefinition)
    requires Alike(d, e)
    ensures forall s :: Shaped(d, s) <==> Shaped(e, s)
    ensures forall id :: ActionIndex(e, id) == ActionIndex(d, id)
    ensures forall id :: ResourceIndex(e, id) == ResourceIndex(d, id)
    ensures forall id :: GroupIndex(e, id) == GroupIndex(d, id)
    ensures forall subject :: SubjectIndex(e, subject) == SubjectIndex(d, subject)
  {
    hide Find;
    assert NodeIds(e) == NodeIds(d) && LinkIds(e) == LinkIds(d) && ServiceIds(e) == ServiceIds(d);
    assert ResourceIds(e) == ResourceIds(d) && GroupIds(e) == GroupIds(d);
    assert ActionIds(e) == ActionIds(d);
  }

  lemma {:induction false} SameShortfall(d: FabricDefinition, e: FabricDefinition, s: FabricState, targets: bool,
                                         k: nat)
    requires Alike(d, e) && Shaped(d, s) && Shaped(e, s) && k <= |d.services|
    ensures ShortfallOf(e, s, targets, k) == ShortfallOf(d, s, targets, k)
  {
    if k > 0 {
      SameShortfall(d, e, s, targets, k - 1);
    }
  }

  lemma {:induction false} SameSelected(d: FabricDefinition, e: FabricDefinition, s: FabricState, group: U64, k: nat)
    requires Alike(d, e) && Shaped(d, s) && Shaped(e, s) && k <= |d.actions|
    ensures Selected(e, s, group, k) == Selected(d, s, group, k)
  {
    if k > 0 {
      SameSelected(d, e, s, group, k - 1);
    }
  }

  lemma SameGroups(d: FabricDefinition, e: FabricDefinition, s: FabricState)
    requires Alike(d, e) && Shaped(d, s) && Shaped(e, s)
    ensures forall group :: GroupOpen(e, s, group) <==> GroupOpen(d, s, group)
  {
    hide GroupIndex, Selected;
    SameIndices(d, e);
    forall group: U64
      ensures Selected(e, s, group, |e.actions|) == Selected(d, s, group, |d.actions|)
    {
      SameSelected(d, e, s, group, |d.actions|);
    }
  }

  lemma SamePreconditions(d: FabricDefinition, e: FabricDefinition, s: FabricState)
    requires Alike(d, e) && Shaped(d, s) && Shaped(e, s)
    ensures forall p :: PreconditionHolds(e, s, p) <==> PreconditionHolds(d, s, p)
  {
    hide SubjectIndex;
    SameIndices(d, e);
  }

  lemma SameReady(d: FabricDefinition, e: FabricDefinition, policy: PlanPolicy, s: FabricState, a: nat)
    requires Alike(d, e) && Shaped(d, s) && Shaped(e, s) && a < |d.actions| && e.actions[a] == d.actions[a]
    ensures Ready(e, policy, s, a) <==> Ready(d, policy, s, a)
  {
    hide GroupOpen, PreconditionHolds, ActionIndex, ResourceIndex;
    SameIndices(d, e);
    SameGroups(d, e, s);
    SamePreconditions(d, e, s);
  }

  lemma {:induction false} SameEffects(d: FabricDefinition, e: FabricDefinition, s: FabricState, effects: seq<Effect>)
    requires Alike(d, e) && Shaped(d, s) && Shaped(e, s)
    ensures ApplyEffects(e, s, effects) == ApplyEffects(d, s, effects)
    decreases |effects|
  {
    hide SubjectIndex;
    SameIndices(d, e);
    if |effects| > 0 {
      var next := ApplyEffect(d, s, effects[0]);
      assert ApplyEffect(e, s, effects[0]) == next;
      if next.Some? {
        hide ApplyEffect;
        SameEffects(d, e, next.value, effects[1..]);
      }
    }
  }

  lemma {:induction false} SameConsume(d: FabricDefinition, e: FabricDefinition, s: FabricState, uses: seq<ResourceUse>)
    requires Alike(d, e) && Shaped(d, s) && Shaped(e, s)
    ensures Consume(e, s, uses) == Consume(d, s, uses)
    decreases |uses|
  {
    hide ResourceIndex;
    SameIndices(d, e);
    if |uses| > 0 {
      SameConsume(d, e, ConsumeOne(d, s, uses[0]), uses[1..]);
    }
  }

  lemma SameEvolve(d: FabricDefinition, e: FabricDefinition, s: FabricState, a: nat)
    requires Alike(d, e) && Shaped(d, s) && Shaped(e, s) && a < |d.actions| && e.actions[a] == d.actions[a]
    requires s.occurrences[a] < d.actions[a].maxOccurrences
    ensures Evolve(e, s, a) == Evolve(d, s, a)
  {
    hide ApplyEffects, Consume, ShortfallOf;
    SameIndices(d, e);
    var action := d.actions[a];
    SameEffects(d, e, s, action.effects);
    SameShortfall(d, e, s, false, |d.services|);
    var changed := ApplyEffects(d, s, action.effects);
    if changed.Some? {
      SameConsume(d, e, changed.value, action.uses);
      SameShortfall(d, e, Consume(d, changed.value, action.uses), false, |d.services|);
    }
  }

  lemma SameStep(d: FabricDefinition, e: FabricDefinition, policy: PlanPolicy, s: FabricState, held: seq<nat>, a: nat)
    requires Alike(d, e) && Shaped(d, s) && Shaped(e, s) && |held| == |d.resources|
    requires a < |d.actions| ==> e.actions[a] == d.actions[a]
    ensures Step(e, policy, s, held, a) == Step(d, policy, s, held, a)
  {
    hide Ready, Evolve, ResourceIndex;
    if a < |d.actions| {
      SameIndices(d, e);
      SameReady(d, e, policy, s, a);
      assert Fits(e, a, held) <==> Fits(d, a, held);
      if Ready(d, policy, s, a) && Fits(d, a, held) {
        ReadyIsLimited(d, policy, s, a);
        SameEvolve(d, e, s, a);
      }
    }
  }

  lemma ReadyIsLimited(d: FabricDefinition, policy: PlanPolicy, s: FabricState, a: nat)
    requires Shaped(d, s) && a < |d.actions| && Ready(d, policy, s, a)
    ensures s.occurrences[a] < d.actions[a].maxOccurrences
  {
  }

  lemma SameProlong(d: FabricDefinition, e: FabricDefinition, policy: PlanPolicy, o: Outcome, held: seq<nat>, a: nat)
    requires Alike(d, e) && Shaped(d, o.state) && Shaped(e, o.state) && |held| == |d.resources|
    requires a < |d.actions| ==> e.actions[a] == d.actions[a]
    ensures Prolong(e, policy, o, held, a) == Prolong(d, policy, o, held, a)
  {
    hide Step, ShortfallOf;
    SameStep(d, e, policy, o.state, held, a);
    var next := Step(d, policy, o.state, held, a);
    if next.Some? {
      SameIndices(d, e);
      SameShortfall(d, e, o.state, true, |d.services|);
      SameShortfall(d, e, next.value, true, |d.services|);
    }
  }

  lemma {:induction false} SameUnits(d: FabricDefinition, e: FabricDefinition, uses: seq<ResourceUse>, r: nat)
    requires Alike(d, e)
    ensures Units(e, uses, r) == Units(d, uses, r)
    decreases |uses|
  {
    hide ResourceIndex;
    SameIndices(d, e);
    if |uses| > 0 {
      SameUnits(d, e, uses[1..], r);
    }
  }

  lemma {:induction false} SameHeldUpTo(d: FabricDefinition, e: FabricDefinition, w: seq<nat>, r: nat, k: nat)
    requires Alike(d, e) && r < |d.resources| && k <= |w|
    ensures HeldUpTo(e, w, r, k) == HeldUpTo(d, w, r, k)
    decreases k
  {
    hide Units;
    if k > 0 {
      SameHeldUpTo(d, e, w, r, k - 1);
      assert UsesOf(e, w[k - 1]) == UsesOf(d, w[k - 1]);
      SameUnits(d, e, UsesOf(d, w[k - 1]), r);
    }
  }

  lemma SameHeld(d: FabricDefinition, e: FabricDefinition, w: seq<nat>)
    requires Alike(d, e)
    ensures Held(e, w) == Held(d, w)
  {
    hide HeldUpTo;
    forall r | 0 <= r < |d.resources|
      ensures HeldUpTo(e, w, r, |w|) == HeldUpTo(d, w, r, |w|)
    {
      SameHeldUpTo(d, e, w, r, |w|);
    }
  }

  // ---- Actions on a cycle ---------------------------------------------------

  lemma RetiredNeverStarts(p: Problem, limits: ModelLimits, o: Outcome, held: seq<nat>, a: nat)
    requires Shaped(Trimmed(p.def), o.state) && |held| == |p.def.resources| && ValidDefinition(p.def, limits)
    requires a < |p.def.actions| && OnCycle(p.def, a) && o.state.occurrences[a] == 0
    ensures Prolong(Trimmed(p.def), p.policy, o, held, a).None?
  {
    hide Trimmed, OnCycle, ActionIndex, ValidDefinition;
    var t := Trimmed(p.def);
    TrimmedAlike(p.def);
    SameIndices(p.def, t);
    OwnIndex(p.def, limits, a);
    assert t.actions[a] == Retired(p.def.actions[a]);
    assert !PreconditionHolds(t, o.state, t.actions[a].preconditions[0]);
  }

  lemma OwnIndex(def: FabricDefinition, limits: ModelLimits, a: nat)
    requires ValidDefinition(def, limits) && a < |def.actions|
    ensures ActionIndex(def, def.actions[a].id) == Some(a)
  {
    FindUnique(ActionIds(def), a);
  }

  // No action on a cycle has run.
  lemma CyclicHasNotRun(p: Problem, limits: ModelLimits, w: seq<nat>, a: nat)
    requires Shaped(p.def, p.start) && NothingExecuted(p.start) && ValidDefinition(p.def, limits)
    requires Execute(p.def, p.policy, p.start, w).Some? && a < |p.def.actions| && OnCycle(p.def, a)
    ensures Execute(p.def, p.policy, p.start, w).value.state.occurrences[a] == 0
  {
    hide Execute, ValidDefinition, ClosedWalk;
    OccurrencesAreCounts(p.def, p.policy, p.start, w, a);
    if CountOf(w, a) > 0 {
      var k := CountedOccurs(w, a);
      var nodes :| ClosedWalk(p.def, nodes) && a in nodes;
      CycleNeverRuns(p, limits, w, nodes, k);
      assert false;
    }
  }

  lemma CyclicNeverRuns(p: Problem, limits: ModelLimits, w: seq<nat>)
    requires Shaped(p.def, p.start) && NothingExecuted(p.start) && ValidDefinition(p.def, limits)
    requires |w| > 0 && OnCycle(p.def, w[|w| - 1])
    ensures Execute(p.def, p.policy, p.start, w).None?
  {
    hide Execute, ValidDefinition, ClosedWalk;
    if Execute(p.def, p.policy, p.start, w).Some? {
      var nodes :| ClosedWalk(p.def, nodes) && w[|w| - 1] in nodes;
      CycleNeverRuns(p, limits, w, nodes, |w| - 1);
      assert false;
    }
  }

  /** A definition with cycles means what it means without the actions on them: every sequence
      runs, or fails to run, alike in both, with the same state and cost. */
  lemma {:induction false} CyclesAreIdle(p: Problem, limits: ModelLimits, w: seq<nat>)
    requires Shaped(p.def, p.start) && NothingExecuted(p.start) && ValidDefinition(p.def, limits)
    ensures Shaped(Trimmed(p.def), p.start)
    ensures Execute(Trimmed(p.def), p.policy, p.start, w) == Execute(p.def, p.policy, p.start, w)
    decreases |w|
  {
    hide ValidDefinition, Trimmed, OnCycle, Prolong, Held, NothingExecuted, Alike;
    var t := Trimmed(p.def);
    TrimmedAlike(p.def);
    SameIndices(p.def, t);
    if |w| > 0 {
      var earlier, a := w[..|w| - 1], w[|w| - 1];
      CyclesAreIdle(p, limits, earlier);
      SameHeld(p.def, t, earlier);
      var o := Execute(p.def, p.policy, p.start, earlier);
      if o.Some? {
        if a < |p.def.actions| && OnCycle(p.def, a) {
          CyclicNeverRuns(p, limits, w);
          CyclicHasNotRun(p, limits, earlier, a);
          RetiredNeverStarts(p, limits, o.value, Held(p.def, earlier), a);
        } else {
          SameProlong(p.def, t, p.policy, o.value, Held(p.def, earlier), a);
        }
      }
    }
  }

  lemma SameGoals(d: FabricDefinition, e: FabricDefinition, s: FabricState)
    requires Alike(d, e) && Shaped(d, s) && Shaped(e, s)
    ensures GoalsMet(e, s) <==> GoalsMet(d, s)
  {
    hide SubjectIndex;
    SameIndices(d, e);
    forall g | 0 <= g < |d.goals|
      ensures GoalMet(e, s, e.goals[g]) <==> GoalMet(d, s, d.goals[g])
    {
    }
  }

  /** The plans of a definition with cycles are exactly the plans without the actions on them, and
      so is the optimum.  What is left has no cycle. */
  lemma CyclicPlans(p: Problem, limits: ModelLimits, w: seq<nat>)
    requires Shaped(p.def, p.start) && NothingExecuted(p.start) && ValidDefinition(p.def, limits)
    ensures !HasCycle(Trimmed(p.def)) && Shaped(Trimmed(p.def), p.start)
    ensures IsPlan(Trimmed(p.def), p.policy, p.start, w) <==> IsPlan(p.def, p.policy, p.start, w)
    ensures IsPlan(p.def, p.policy, p.start, w) ==>
              ScoreOf(Trimmed(p.def), p.policy, p.start, w) == ScoreOf(p.def, p.policy, p.start, w)
  {
    hide ValidDefinition, Trimmed, OnCycle, Execute, GoalsMet, NothingExecuted, Alike, HasCycle;
    var t := Trimmed(p.def);
    TrimmedAlike(p.def);
    SameIndices(p.def, t);
    TrimmedHasNoCycle(p.def);
    CyclesAreIdle(p, limits, w);
    var o := Execute(p.def, p.policy, p.start, w);
    if o.Some? {
      SameGoals(p.def, t, o.value.state);
      SameEncoding(p.def, t, w);
    }
  }

  lemma SameEncoding(d: FabricDefinition, e: FabricDefinition, w: seq<nat>)
    requires Alike(d, e)
    ensures Encoding(e, w) == Encoding(d, w)
  {
  }

  // The edges that are left lead to actions that are on no cycle.
  lemma EdgeLeft(def: FabricDefinition, from: nat, to: nat)
    ensures Edge(Trimmed(def), from, to) ==> Edge(def, from, to) && !OnCycle(def, to)
  {
    hide Trimmed, OnCycle, ActionIndex;
    var t := Trimmed(def);
    TrimmedAlike(def);
    SameIndices(def, t);
    if to < |def.actions| && OnCycle(def, to) {
      assert t.actions[to].dependencies == [];
    }
  }

  lemma NoClosedWalk(def: FabricDefinition, nodes: seq<nat>)
    ensures !ClosedWalk(Trimmed(def), nodes)
  {
    hide Trimmed, Edge;
    forall i | 0 <= i < |nodes| - 1
      ensures Edge(Trimmed(def), nodes[i], nodes[i + 1]) ==>
                Edge(def, nodes[i], nodes[i + 1]) && !OnCycle(def, nodes[i + 1])
    {
      EdgeLeft(def, nodes[i], nodes[i + 1]);
    }
    if |nodes| >= 2 && ClosedWalk(def, nodes) {
      assert OnCycle(def, nodes[0 + 1]);
      assert !Edge(Trimmed(def), nodes[0], nodes[0 + 1]);
    }
  }

  lemma TrimmedHasNoCycle(def: FabricDefinition)
    ensures !HasCycle(Trimmed(def))
  {
    hide Trimmed, ClosedWalk;
    forall nodes: seq<nat>
      ensures !ClosedWalk(Trimmed(def), nodes)
    {
      NoClosedWalk(def, nodes);
    }
  }

  // ---- What is left is valid ------------------------------------------------

  lemma SameValidity(d: FabricDefinition, e: FabricDefinition, limits: ModelLimits, action: ActionSpec)
    requires Alike(d, e) && ValidAction(d, limits, action)
    ensures ValidAction(e, limits, action)
  {
    hide NodeIndex, LinkIndex, ServiceIndex, ResourceIndex, ActionIndex, GroupIndex, SubjectIndex, GoodIds;
    SameIndices(d, e);
    SameServices(d, e);
  }

  lemma SameServices(d: FabricDefinition, e: FabricDefinition)
    requires Alike(d, e)
    ensures forall id :: ServiceIndex(e, id) == ServiceIndex(d, id)
    ensures forall id :: NodeIndex(e, id) == NodeIndex(d, id) && LinkIndex(e, id) == LinkIndex(d, id)
  {
    hide Find;
    assert NodeIds(e) == NodeIds(d) && LinkIds(e) == LinkIds(d) && ServiceIds(e) == ServiceIds(d);
  }

  lemma RetiredIsValid(def: FabricDefinition, limits: ModelLimits, a: nat)
    requires ValidDefinition(def, limits) && limits.maxPreconditions >= 1 && a < |def.actions|
    ensures ValidAction(def, limits, Retired(def.actions[a]))
  {
    hide NodeIndex, LinkIndex, ServiceIndex, ResourceIndex, ActionIndex, GroupIndex, GoodIds, ValidSizes, ValidIds;
    hide ValidEffect, ValidUse, ValidLink, ValidService, ValidGoal;
    OwnIndex(def, limits, a);
    assert ValidAction(def, limits, def.actions[a]);
    assert ValidPrecondition(def, AfterItself(def.actions[a]));
  }

  /** What is left of a valid definition is valid, as long as an action may have a precondition. */
  lemma TrimmedIsValid(def: FabricDefinition, limits: ModelLimits)
    requires ValidDefinition(def, limits) && limits.maxPreconditions >= 1
    ensures ValidDefinition(Trimmed(def), limits)
  {
    hide Trimmed, OnCycle, ValidAction, Find, ValidService;
    var t := Trimmed(def);
    TrimmedAlike(def);
    SameIndices(def, t);
    SameServices(def, t);
    forall a | 0 <= a < |t.actions|
      ensures ValidAction(t, limits, t.actions[a])
    {
      if OnCycle(def, a) {
        RetiredIsValid(def, limits, a);
      }
      SameValidity(def, t, limits, t.actions[a]);
    }
    TrimmedLists(def, limits);
    forall g | 0 <= g < |t.goals|
      ensures ValidGoal(t, t.goals[g])
    {
      assert ValidGoal(def, def.goals[g]);
    }
  }

  lemma TrimmedLists(def: FabricDefinition, limits: ModelLimits)
    requires ValidDefinition(def, limits)
    ensures ValidSizes(Trimmed(def), limits) && ValidIds(Trimmed(def))
    ensures var t := Trimmed(def); forall i :: 0 <= i < |t.links| ==> ValidLink(t, t.links[i])
  {
    hide Trimmed, Find, ValidAction, ValidGoal, ValidService, GoodIds;
    var t := Trimmed(def);
    TrimmedAlike(def);
    SameServices(def, t);
    assert NodeIds(t) == NodeIds(def) && LinkIds(t) == LinkIds(def) && ServiceIds(t) == ServiceIds(def);
    assert ResourceIds(t) == ResourceIds(def) && GroupIds(t) == GroupIds(def) && ActionIds(t) == ActionIds(def);
    forall i | 0 <= i < |t.links|
      ensures ValidLink(t, t.links[i])
    {
      assert ValidLink(def, def.links[i]);
    }
  }

  /** An answer of infeasibility for a definition with cycles is right exactly when nothing is left
      to plan with without the actions on them. */
  lemma CycleVerdict(p: Problem, limits: ModelLimits)
    requires Shaped(p.def, p.start) && NothingExecuted(p.start) && ValidDefinition(p.def, limits)
    ensures Shaped(Trimmed(p.def), p.start)
    ensures (forall w :: !IsPlan(p.def, p.policy, p.start, w))
       <==> (forall w :: !IsPlan(Trimmed(p.def), p.policy, p.start, w))
    ensures forall w :: IsOptimal(p.def, p.policy, p.start, w) <==> IsOptimal(Trimmed(p.def), p.policy, p.start, w)
  {
    hide ValidDefinition, Trimmed, Execute, GoalsMet, NothingExecuted, HasCycle, AtLeastAsGood, Encoding;
    CyclicPlans(p, limits, []);
    forall w: seq<nat>
      ensures IsPlan(Trimmed(p.def), p.policy, p.start, w) <==> IsPlan(p.def, p.policy, p.start, w)
      ensures IsPlan(p.def, p.policy, p.start, w) ==>
                ScoreOf(Trimmed(p.def), p.policy, p.start, w) == ScoreOf(p.def, p.policy, p.start, w)
    {
      CyclicPlans(p, limits, w);
    }
  }
}
