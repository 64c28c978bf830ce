/** The hypotheses under which the planner, the validator and the reference solver are
    compared, and what they give at every step of every admissible sequence. */
module Regularity {
  import opened Ints
  import opened Domain
  import opened Definition
  import opened Dynamics
  import opened Problems
  import opened Accounting
  import opened Safety

  // Below this the sum of two amounts within a reusable capacity fits in 32 bits.
  predicate ModestCapacities(def: FabricDefinition) {
    forall r :: 0 <= r < |def.resources| && def.resources[r].kind == Reusable ==>
      def.resources[r].capacity < 0x8000_0000
  }

  // A valid definition in which no action uses one resource twice or overwrites what it
  // consumes, no sum leaves its width, and planning starts at tick zero with nothing done.
  predicate Regular(p: Problem, limits: ModelLimits) {
    && Shaped(p.def, p.start)
    && NothingExecuted(p.start)
    && p.start.tick == 0
    && ValidDefinition(p.def, limits)
    && SingleUses(p.def)
    && ModestCapacities(p.def)
    && AccountingFits(p.def)
  }

  // Every reusable resource is held within its capacity after w.
  ghost predicate HeldFits(def: FabricDefinition, w: seq<nat>) {
    forall r :: 0 <= r < |def.resources| && def.resources[r].kind == Reusable ==>
      HeldUpTo(def, w, r, |w|) <= def.resources[r].capacity
  }

  lemma RegularIsWellPosed(p: Problem, limits: ModelLimits)
    requires Regular(p, limits)
    ensures WellPosed(p)
  {
    hide SingleUses, ModestCapacities, AccountingFits, ValidAction, ValidGoal, ValidLink, ValidService;
  }

  lemma RegularHeld(p: Problem, limits: ModelLimits, w: seq<nat>)
    requires Regular(p, limits) && Execute(p.def, p.policy, p.start, w).Some?
    ensures HeldFits(p.def, w)
  {
    hide AccountingFits, ValidAction, ValidGoal, ValidLink, ValidService, Execute, HeldUpTo, SingleUses;
    forall r | 0 <= r < |p.def.resources| && p.def.resources[r].kind == Reusable
      ensures HeldUpTo(p.def, w, r, |w|) <= p.def.resources[r].capacity
    {
      HeldWithinCapacity(p.def, p.policy, p.start, w, r);
    }
  }

  lemma RegularTick(p: Problem, limits: ModelLimits, w: seq<nat>, a: nat)
    requires Regular(p, limits) && Execute(p.def, p.policy, p.start, w).Some? && a < |p.def.actions|
    ensures var s := Execute(p.def, p.policy, p.start, w).value.state;
            s.occurrences[a] < p.def.actions[a].maxOccurrences ==> s.tick + p.def.actions[a].duration <= MAX_U64
  {
    hide AccountingFits, ValidDefinition, Execute, SingleUses, NothingExecuted;
    if Execute(p.def, p.policy, p.start, w).value.state.occurrences[a] < p.def.actions[a].maxOccurrences {
      TickFits(p.def, p.policy, p.start, w, a);
    }
  }

  lemma RegularUses(p: Problem, limits: ModelLimits, a: nat)
    requires Regular(p, limits) && a < |p.def.actions|
    ensures forall u :: 0 <= u < |p.def.actions[a].uses| ==> ValidUse(p.def, p.def.actions[a].uses[u])
    ensures SingleUse(p.def, p.def.actions[a])
  {
    hide AccountingFits, SingleUse, ValidUse, ValidEffect, ValidPrecondition, ValidDependency, ValidReversibility;
    hide GroupIndex;
  }

  // An admissible sequence written by its identities is determined by them.
  lemma EncodedPrefix(p: Problem, w: seq<nat>, v: seq<nat>, enc: seq<U64>)
    requires Shaped(p.def, p.start) && Distinct(ActionIds(p.def))
    requires IsWord(p.def, w) && |w| <= |enc| && Encoding(p.def, w) == enc[..|w|]
    requires Encoding(p.def, v) == enc && Execute(p.def, p.policy, p.start, v).Some?
    ensures v[..|w|] == w
    ensures Execute(p.def, p.policy, p.start, w).Some?
    ensures |w| < |enc| ==> IdOf(p.def, v[|w|]) == enc[|w|] && v[|w|] < |p.def.actions|
    ensures |w| < |enc| ==> Execute(p.def, p.policy, p.start, w + [v[|w|]]).Some?
  {
    hide Execute;
    AdmissibleIsWord(p.def, p.policy, p.start, v);
    Prefixes(p.def, p.policy, p.start, v, |w|);
    EncodingInjective(p.def, v[..|w|], w);
    if |w| < |enc| {
      Prefixes(p.def, p.policy, p.start, v, |w| + 1);
      assert v[..|w| + 1] == w + [v[|w|]];
    }
  }
}
