/** The exhaustive enumeration of the reference solver: every occurrence-bounded sequence up
    to a depth is examined exactly once, and the best valid one is kept. */
module Enumeration {
  import opened Ints
  import opened Domain
  import opened Objectives
  import Lex
  import opened Dynamics
  import opened Definition
  import opened Evidence
  import opened Problems
  import opened Accounting
  import opened Safety
  import opened Regularity
  import opened Reference
  import opened Transition

  // A sequence that runs no action more often than it may.
  ghost predicate Bounded(def: FabricDefinition, w: seq<nat>) {
    IsWord(def, w) && forall a :: 0 <= a < |def.actions| ==> CountOf(w, a) <= def.actions[a].maxOccurrences
  }

  lemma CountSnoc(w: seq<nat>, a: nat, b: nat)
    ensures CountOf(w + [a], b) == CountOf(w, b) + if a == b then 1 else 0
  {
    assert (w + [a])[..|w + [a]| - 1] == w;
  }

  lemma {:induction false} CountOfPrefix(w: seq<nat>, k: nat, a: nat)
    requires k <= |w|
    ensures CountOf(w[..k], a) <= CountOf(w, a)
    decreases |w|
  {
    if k == |w| {
      assert w[..k] == w;
    } else {
      CountOfPrefix(w[..|w| - 1], k, a);
      assert w[..|w| - 1][..k] == w[..k];
    }
  }

  /** Every admissible sequence is occurrence-bounded, so the enumeration can meet it. */
  lemma AdmissibleIsBounded(p: Problem, w: seq<nat>)
    requires Shaped(p.def, p.start) && NothingExecuted(p.start) && Execute(p.def, p.policy, p.start, w).Some?
    ensures Bounded(p.def, w)
  {
    hide Execute;
    AdmissibleIsWord(p.def, p.policy, p.start, w);
    OccurrencesBounded(p.def, p.policy, p.start, w);
    forall a | 0 <= a < |p.def.actions|
      ensures CountOf(w, a) <= p.def.actions[a].maxOccurrences
    {
      OccurrencesAreCounts(p.def, p.policy, p.start, w, a);
    }
  }

  // A plan the reference solver accepts.
  ghost predicate Accepted(p: Problem, bindings: seq<AuthorityBinding>, w: seq<nat>)
    requires Shaped(p.def, p.start)
  {
    Authorised(p.def, p.policy, bindings) && IsPlan(p.def, p.policy, p.start, w)
  }

  function PlanScore(p: Problem, w: seq<nat>): Score
    requires Shaped(p.def, p.start) && IsPlan(p.def, p.policy, p.start, w)
  {
    ScoreOf(p.def, p.policy, p.start, w)
  }

  lemma DenotedByWord(p: Problem, limits: ModelLimits, w: seq<nat>)
    requires Regular(p, limits) && IsWord(p.def, w)
    ensures IsPlan(p.def, p.policy, p.start, w) <==> exists v :: Denotes(p, Encoding(p.def, w), v)
    ensures forall v :: Denotes(p, Encoding(p.def, w), v) ==> v == w
  {
    hide Execute, GoalsMet, AccountingFits, ValidDefinition;
    RegularIsWellPosed(p, limits);
    assert IsPlan(p.def, p.policy, p.start, w) ==> Denotes(p, Encoding(p.def, w), w);
    forall v | Denotes(p, Encoding(p.def, w), v)
      ensures v == w
    {
      AdmissibleIsWord(p.def, p.policy, p.start, v);
      EncodingInjective(p.def, v, w);
    }
  }

  lemma ScoreIs(p: Problem, w: seq<nat>, objective: Objective)
    requires Shaped(p.def, p.start) && IsPlan(p.def, p.policy, p.start, w)
    requires objective == Execute(p.def, p.policy, p.start, w).value.cost
    ensures Score(objective, Encoding(p.def, w)) == PlanScore(p, w)
  {
  }

  // ---- The best plan so far -------------------------------------------------

  // What is kept leads every accepted plan among the sequences seen.
  ghost predicate Kept(p: Problem, bindings: seq<AuthorityBinding>, seen: set<seq<nat>>, found: bool, lead: Score,
                       champion: seq<nat>)
    requires Shaped(p.def, p.start)
  {
    if found then
      && champion in seen && Accepted(p, bindings, champion) && lead == PlanScore(p, champion)
      && forall v :: v in seen && Accepted(p, bindings, v) ==> AtLeastAsGood(lead, PlanScore(p, v))
    else
      forall v :: v in seen ==> !Accepted(p, bindings, v)
  }

  lemma KeptWhenRejected(p: Problem, bindings: seq<AuthorityBinding>, seen: set<seq<nat>>, found: bool, lead: Score,
                         champion: seq<nat>, w: seq<nat>)
    requires Shaped(p.def, p.start) && Kept(p, bindings, seen, found, lead, champion)
    requires Accepted(p, bindings, w) ==> found && AtLeastAsGood(lead, PlanScore(p, w))
    ensures Kept(p, bindings, seen + {w}, found, lead, champion)
  {
    hide IsPlan, Execute, PlanScore, AtLeastAsGood, Authorised;
  }

  lemma KeptWhenBetter(p: Problem, bindings: seq<AuthorityBinding>, seen: set<seq<nat>>, found: bool, lead: Score,
                       champion: seq<nat>, w: seq<nat>)
    requires Shaped(p.def, p.start) && Kept(p, bindings, seen, found, lead, champion)
    requires Accepted(p, bindings, w) && (found ==> Better(PlanScore(p, w), lead))
    ensures Kept(p, bindings, seen + {w}, true, PlanScore(p, w), w)
  {
    hide IsPlan, Execute, PlanScore, Better, Authorised;
    forall v | v in seen + {w} && Accepted(p, bindings, v)
      ensures AtLeastAsGood(PlanScore(p, w), PlanScore(p, v))
    {
      if v in seen && found {
        AtLeastAsGoodTransitive(PlanScore(p, w), lead, PlanScore(p, v));
      }
    }
  }

  // ---- What has been covered ------------------------------------------------

  predicate Extends(v: seq<nat>, w: seq<nat>) {
    |w| <= |v| && v[..|w|] == w
  }

  // Every bounded sequence that extends w has been seen.
  ghost predicate Exhausted(def: FabricDefinition, seen: set<seq<nat>>, w: seq<nat>, depth: nat) {
    forall v :: Extends(v, w) && Bounded(def, v) && |v| <= depth ==> v in seen
  }

  // So has every one that goes on with one of the first a actions.
  ghost predicate ExhaustedBelow(def: FabricDefinition, seen: set<seq<nat>>, w: seq<nat>, a: nat, depth: nat) {
    forall v :: Extends(v, w) && Bounded(def, v) && |w| < |v| <= depth && v[|w|] < a ==> v in seen
  }

  // No sequence that extends w has been seen.
  ghost predicate Untouched(seen: set<seq<nat>>, w: seq<nat>) {
    forall v :: v in seen ==> !Extends(v, w)
  }

  // What is new extends w.
  ghost predicate OnlyBelow(before: set<seq<nat>>, seen: set<seq<nat>>, w: seq<nat>) {
    before <= seen && forall v :: v in seen && v !in before ==> Extends(v, w)
  }

  ghost predicate BranchesBelow(before: set<seq<nat>>, seen: set<seq<nat>>, w: seq<nat>, a: nat) {
    before <= seen && forall v :: v in seen && v !in before ==> Extends(v, w) && (v == w || v[|w|] < a)
  }

  lemma LeafExhausted(def: FabricDefinition, seen: set<seq<nat>>, w: seq<nat>, depth: nat)
    requires |w| >= depth && w in seen
    ensures Exhausted(def, seen, w, depth)
  {
    forall v | Extends(v, w) && |v| <= depth
      ensures v == w
    {
      assert v == v[..|w|];
    }
  }

  lemma BranchExhausted(def: FabricDefinition, before: set<seq<nat>>, seen: set<seq<nat>>, w: seq<nat>, a: nat,
                        depth: nat)
    requires before <= seen && ExhaustedBelow(def, before, w, a, depth) && Exhausted(def, seen, w + [a], depth)
    ensures ExhaustedBelow(def, seen, w, a + 1, depth)
  {
    hide Bounded;
    forall v | Extends(v, w) && Bounded(def, v) && |w| < |v| <= depth && v[|w|] < a + 1
      ensures v in seen
    {
      if v[|w|] == a {
        assert v[..|w| + 1] == v[..|w|] + [v[|w|]];
        assert Extends(v, w + [a]);
      }
    }
  }

  lemma BranchClosed(def: FabricDefinition, seen: set<seq<nat>>, w: seq<nat>, a: nat, depth: nat)
    requires a < |def.actions| && CountOf(w, a) >= def.actions[a].maxOccurrences
    requires ExhaustedBelow(def, seen, w, a, depth)
    ensures ExhaustedBelow(def, seen, w, a + 1, depth)
  {
    forall v | Extends(v, w) && Bounded(def, v) && |w| < |v| <= depth && v[|w|] < a + 1
      ensures v in seen
    {
      if v[|w|] == a {
        assert v[..|w| + 1] == w + [a];
        CountSnoc(w, a, a);
        CountOfPrefix(v, |w| + 1, a);
      }
    }
  }

  lemma AllBranches(def: FabricDefinition, seen: set<seq<nat>>, w: seq<nat>, depth: nat)
    requires w in seen && ExhaustedBelow(def, seen, w, |def.actions|, depth)
    ensures Exhausted(def, seen, w, depth)
  {
    forall v | Extends(v, w) && Bounded(def, v) && |v| <= depth
      ensures v in seen
    {
      if |v| == |w| {
        assert v == v[..|w|];
      }
    }
  }

  lemma BranchUntouched(before: set<seq<nat>>, seen: set<seq<nat>>, w: seq<nat>, a: nat)
    requires Untouched(before, w) && BranchesBelow(before, seen, w, a)
    ensures Untouched(seen, w + [a])
  {
    forall v | v in seen
      ensures !Extends(v, w + [a])
    {
      ExtendsSnoc(v, w, a);
    }
  }

  lemma ExtendsSnoc(v: seq<nat>, w: seq<nat>, a: nat)
    ensures Extends(v, w + [a]) ==> Extends(v, w) && |w| < |v| && v[|w|] == a
  {
    if Extends(v, w + [a]) {
      assert v[..|w|] == v[..|w| + 1][..|w|];
      assert v[|w|] == v[..|w| + 1][|w|];
    }
  }

  lemma BranchAdded(before: set<seq<nat>>, middle: set<seq<nat>>, seen: set<seq<nat>>, w: seq<nat>, a: nat)
    requires BranchesBelow(before, middle, w, a) && OnlyBelow(middle, seen, w + [a])
    ensures BranchesBelow(before, seen, w, a + 1) && middle <= seen
  {
    forall v | v in seen && v !in before
      ensures Extends(v, w) && (v == w || v[|w|] < a + 1)
    {
      ExtendsSnoc(v, w, a);
    }
  }

  lemma BranchesAreBelow(before: set<seq<nat>>, seen: set<seq<nat>>, w: seq<nat>, a: nat)
    requires BranchesBelow(before, seen, w, a)
    ensures OnlyBelow(before, seen, w) && BranchesBelow(before, seen, w, a + 1)
  {
  }

  lemma BoundedSnoc(def: FabricDefinition, w: seq<nat>, a: nat)
    requires Bounded(def, w) && a < |def.actions| && CountOf(w, a) < def.actions[a].maxOccurrences
    ensures Bounded(def, w + [a])
  {
    forall b | 0 <= b < |def.actions|
      ensures CountOf(w + [a], b) <= def.actions[b].maxOccurrences
    {
      CountSnoc(w, a, b);
    }
  }

  lemma BoundedIsWord(def: FabricDefinition, w: seq<nat>)
    requires Bounded(def, w)
    ensures IsWord(def, w)
  {
  }

  lemma NothingCounted(def: FabricDefinition)
    ensures Bounded(def, [])
  {
  }

  ghost predicate AllBounded(def: FabricDefinition, seen: set<seq<nat>>, depth: nat) {
    forall v :: v in seen ==> Bounded(def, v) && |v| <= depth
  }

  // There are more bounded sequences of at most this length than the given number.
  ghost predicate MoreThan(def: FabricDefinition, depth: nat, most: nat) {
    exists s :: AllBounded(def, s, depth) && |s| > most
  }

  lemma AnotherBounded(def: FabricDefinition, seen: set<seq<nat>>, depth: nat, w: seq<nat>)
    requires AllBounded(def, seen, depth) && Bounded(def, w) && |w| <= depth
    ensures AllBounded(def, seen + {w}, depth)
  {
    hide Bounded;
  }

  // The counters agree with a sequence.
  ghost predicate Counted(def: FabricDefinition, counts: seq<nat>, w: seq<nat>) {
    |counts| == |def.actions| && forall a :: 0 <= a < |counts| ==> counts[a] == CountOf(w, a)
  }

  lemma CountedSnoc(def: FabricDefinition, counts: seq<nat>, w: seq<nat>, a: nat)
    requires Counted(def, counts, w) && a < |def.actions|
    ensures Counted(def, counts[a := counts[a] + 1], w + [a])
  {
    forall b | 0 <= b < |counts|
      ensures counts[a := counts[a] + 1][b] == CountOf(w + [a], b)
    {
      CountSnoc(w, a, b);
    }
  }

  // Counters that agree with one sequence are the only ones that do.
  lemma CountedUnique(def: FabricDefinition, x: seq<nat>, y: seq<nat>, w: seq<nat>)
    requires Counted(def, x, w) && Counted(def, y, w)
    ensures x == y
  {
  }

  class Enumerator {
    const p: Problem
    const limits: ModelLimits
    const bindings: seq<AuthorityBinding>
    const depthBound: nat
    const maxSequences: nat

    var current: seq<U64>
    var counts: seq<nat>
    var aborted: bool
    var found: bool
    var best: Objective
    var bestEncoding: seq<U64>
    var examined: nat
    var validPlans: nat

    ghost var seen: set<seq<nat>>
    ghost var champion: seq<nat>

    constructor (p: Problem, limits: ModelLimits, bindings: seq<AuthorityBinding>, depthBound: nat, maxSequences: nat)
      requires Regular(p, limits)
      ensures Regular(this.p, this.limits) && BestSoFar() && At([])
      ensures this.p == p && this.limits == limits && this.bindings == bindings && this.depthBound == depthBound
      ensures this.maxSequences == maxSequences && seen == {} && !aborted
    {
      hide ValidDefinition, AccountingFits, Bounded, Accepted;
      NothingCounted(p.def);
      this.p, this.limits, this.bindings := p, limits, bindings;
      this.depthBound, this.maxSequences := depthBound, maxSequences;
      current, counts := [], seq(|p.def.actions|, i => 0);
      aborted, found, best, bestEncoding, examined, validPlans := false, false, ZERO, [], 0, 0;
      seen, champion := {}, [];
    }

    // The enumeration stands at w.
    ghost predicate At(w: seq<nat>)
      reads this`current, this`counts
    {
      && Bounded(p.def, w) && |w| <= depthBound
      && current == Encoding(p.def, w)
      && Counted(p.def, counts, w)
    }

    // The best accepted plan is kept, and each bounded sequence has been examined at most once.
    ghost predicate BestSoFar()
      reads this`seen, this`found, this`best, this`bestEncoding, this`champion, this`examined
    {
      && Shaped(p.def, p.start)
      && Kept(p, bindings, seen, found, Score(best, bestEncoding), champion)
      && examined == |seen|
      && AllBounded(p.def, seen, depthBound)
    }

    // More bounded sequences than may be examined.
    ghost predicate Overfull() {
      MoreThan(p.def, depthBound, maxSequences)
    }

    /** Examines the current sequence and keeps it when it is the best so far. */
    method Visit(ghost w: seq<nat>)
      requires Regular(p, limits) && At(w) && BestSoFar() && w !in seen
      modifies this`examined, this`validPlans, this`found, this`best, this`bestEncoding, this`seen, this`champion
      ensures BestSoFar() && seen == old(seen) + {w}
    {
      hide Execute, Authorised, Denotes, Regular, Better, IsPlan, PlanScore, AtLeastAsGood, Kept, Counted;
      hide AllBounded, Bounded, Encoding;
      BoundedIsWord(p.def, w);
      AnotherBounded(p.def, seen, depthBound, w);
      var valid, objective := EvaluateSequence(p, limits, bindings, current);
      DenotedByWord(p, limits, w);
      ghost var lead := Score(best, bestEncoding);
      if valid {
        ghost var plan :| Denotes(p, current, plan);
        ScoreIs(p, w, objective);
        validPlans := validPlans + 1;
        var better := !found;
        if found {
          better := ScoredLess(Score(objective, current), Score(best, bestEncoding));
        }
        if better {
          KeptWhenBetter(p, bindings, seen, found, lead, champion, w);
          found, best, bestEncoding, champion := true, objective, current, w;
        } else {
          NotBetter(PlanScore(p, w), lead);
          KeptWhenRejected(p, bindings, seen, found, lead, champion, w);
        }
      } else {
        KeptWhenRejected(p, bindings, seen, found, lead, champion, w);
      }
      examined, seen := examined + 1, seen + {w};
    }

    lemma TooMany(w: seq<nat>)
      requires BestSoFar() && Untouched(seen, w) && Bounded(p.def, w) && |w| <= depthBound && examined >= maxSequences
      ensures Overfull()
    {
      hide Kept, Bounded, Untouched, AllBounded, MoreThan;
      OneTooMany(p.def, seen, depthBound, w, maxSequences);
    }

    /** Examines what begins with the current sequence and one more action, and comes back. */
    method Branch(ghost w: seq<nat>, a: nat)
      requires Regular(p, limits) && At(w) && BestSoFar() && !aborted && Untouched(seen, w + [a])
      requires a < |p.def.actions| && a < |counts| && |w| < depthBound && Bounded(p.def, w + [a])
      modifies this
      ensures At(w) && BestSoFar() && OnlyBelow(old(seen), seen, w + [a])
      ensures !aborted ==> Exhausted(p.def, seen, w + [a], depthBound)
      ensures aborted ==> examined >= maxSequences && Overfull()
      decreases depthBound - |w|, 0
    {
      hide Regular, BestSoFar, Bounded, Counted, Exhausted, OnlyBelow, Untouched, CountOf, Overfull;
      EncodingSnoc(p.def, w, a);
      CountedSnoc(p.def, counts, w, a);
      ghost var outer := counts;
      counts, current := counts[a := counts[a] + 1], current + [p.def.actions[a].id];
      label child:
      Descend(w + [a]);
      CountedUnique(p.def, counts, old@child(counts), w + [a]);
      current, counts := current[..|current| - 1], counts[a := counts[a] - 1];
      assert current == Encoding(p.def, w);
      assert counts == outer;
    }

    /** Examines the current sequence and, below the depth bound, every way to prolong it. */
    method Descend(ghost w: seq<nat>)
      requires Regular(p, limits) && At(w) && BestSoFar() && !aborted && Untouched(seen, w)
      modifies this
      ensures At(w) && BestSoFar() && OnlyBelow(old(seen), seen, w)
      ensures !aborted ==> Exhausted(p.def, seen, w, depthBound)
      ensures aborted ==> examined >= maxSequences && Overfull()
      decreases depthBound - |w|, 1
    {
      hide Regular, BestSoFar, Bounded, Counted, Exhausted, ExhaustedBelow, BranchesBelow, OnlyBelow, Untouched;
      hide CountOf, Overfull;
      TouchedOnce(seen, w);
      if aborted {
        return;
      }
      Visit(w);
      JustVisited(old(seen), w);
      if |current| >= depthBound {
        LeafExhausted(p.def, seen, w, depthBound);
        return;
      }
      NoBranchYet(p.def, seen, w, depthBound);
      for a := 0 to |p.def.actions|
        invariant At(w) && BestSoFar() && !aborted && w in seen
        invariant BranchesBelow(old(seen), seen, w, a)
        invariant ExhaustedBelow(p.def, seen, w, a, depthBound)
      {
        BranchesAreBelow(old(seen), seen, w, a);
        ghost var before := seen;
        CountAt(p.def, counts, w, a);
        if counts[a] >= p.def.actions[a].maxOccurrences {
          BranchClosed(p.def, seen, w, a, depthBound);
        } else {
          BoundedSnoc(p.def, w, a);
          BranchUntouched(old(seen), seen, w, a);
          if examined >= maxSequences {
            aborted := true;
            TooMany(w + [a]);
            return;
          }
          Branch(w, a);
          BranchAdded(old(seen), before, seen, w, a);
          if aborted {
            BranchesAreBelow(old(seen), seen, w, a + 1);
            return;
          }
          BranchExhausted(p.def, before, seen, w, a, depthBound);
        }
      }
      BranchesAreBelow(old(seen), seen, w, |p.def.actions|);
      AllBranches(p.def, seen, w, depthBound);
    }
  }

  lemma OneTooMany(def: FabricDefinition, seen: set<seq<nat>>, depth: nat, w: seq<nat>, most: nat)
    requires AllBounded(def, seen, depth) && Untouched(seen, w) && Bounded(def, w) && |w| <= depth && |seen| >= most
    ensures MoreThan(def, depth, most)
  {
    hide Bounded;
    TouchedOnce(seen, w);
    AnotherBounded(def, seen, depth, w);
    assert |seen + {w}| == |seen| + 1;
  }

  lemma NotBetter(x: Score, y: Score)
    requires !Better(x, y)
    ensures AtLeastAsGood(y, x)
  {
    BetterTotal(x, y);
  }

  lemma CountAt(def: FabricDefinition, counts: seq<nat>, w: seq<nat>, a: nat)
    requires Counted(def, counts, w) && a < |def.actions|
    ensures a < |counts| && counts[a] == CountOf(w, a)
  {
  }

  lemma TouchedOnce(seen: set<seq<nat>>, w: seq<nat>)
    requires Untouched(seen, w)
    ensures w !in seen
  {
    assert Extends(w, w);
  }

  lemma JustVisited(before: set<seq<nat>>, w: seq<nat>)
    ensures BranchesBelow(before, before + {w}, w, 0) && OnlyBelow(before, before + {w}, w)
  {
  }

  lemma NoBranchYet(def: FabricDefinition, seen: set<seq<nat>>, w: seq<nat>, depth: nat)
    ensures ExhaustedBelow(def, seen, w, 0, depth)
  {
  }

  // ---- Solving --------------------------------------------------------------

  const DEPTH_LIMIT: nat := 12

  datatype ReferenceLimits = ReferenceLimits(maxSequences: U64, maxPlanSteps: U64)

  datatype SolveKind = Exact | HitLimit | BadInput

  datatype ReferenceOutcome = ReferenceOutcome(
    kind: SolveKind,
    planFound: bool,
    objective: Objective,
    encoding: seq<U64>,
    examined: nat)

  // The answer is the minimum over every accepted plan of at most this length.
  ghost predicate IsExact(p: Problem, bindings: seq<AuthorityBinding>, depth: nat, found: bool, lead: Score)
    requires Shaped(p.def, p.start)
  {
    if found then
      exists w :: && Accepted(p, bindings, w) && |w| <= depth && lead == PlanScore(p, w)
                  && Leads(p, bindings, depth, w)
    else
      forall v :: Accepted(p, bindings, v) ==> |v| > depth
  }

  ghost predicate Leads(p: Problem, bindings: seq<AuthorityBinding>, depth: nat, w: seq<nat>)
    requires Shaped(p.def, p.start) && Accepted(p, bindings, w)
  {
    forall v :: Accepted(p, bindings, v) && |v| <= depth ==> AtLeastAsGood(PlanScore(p, w), PlanScore(p, v))
  }

  // Exactly the bounded sequences of at most this length.
  ghost predicate AllSequences(def: FabricDefinition, depth: nat, s: set<seq<nat>>) {
    forall v :: v in s <==> Bounded(def, v) && |v| <= depth
  }

  // How deep a solver with these limits enumerates.
  function DepthFor(p: Problem, reference: ReferenceLimits): nat {
    var asked :=
      if p.policy.maxPlanSteps < reference.maxPlanSteps then p.policy.maxPlanSteps else reference.maxPlanSteps;
    if OccurrenceBound(p.def) < asked then OccurrenceBound(p.def) else asked
  }

  /** The sum of the occurrence limits, saturating at 64 bits. */
  method OccurrenceTotal(def: FabricDefinition) returns (total: U64)
    ensures total == if OccurrenceBound(def) > MAX_U64 then MAX_U64 else OccurrenceBound(def)
  {
    total := 0;
    for a := 0 to |def.actions|
      invariant total == Limited(def, a)
    {
      LimitedSnoc(def, a);
      if total + def.actions[a].maxOccurrences > MAX_U64 {
        LimitedGrows(def, a + 1, |def.actions|);
        assert OccurrenceLimits(def)[..|def.actions|] == OccurrenceLimits(def);
        return MAX_U64;
      }
      total := total + def.actions[a].maxOccurrences;
    }
    assert OccurrenceLimits(def)[..|def.actions|] == OccurrenceLimits(def);
  }

  lemma {:induction false} LimitedGrows(def: FabricDefinition, j: nat, k: nat)
    requires j <= k <= |def.actions|
    ensures Limited(def, j) <= Limited(def, k)
    decreases k
  {
    if j < k {
      LimitedSnoc(def, k - 1);
      LimitedGrows(def, j, k - 1);
    }
  }

  lemma FullyEnumerated(p: Problem, limits: ModelLimits, bindings: seq<AuthorityBinding>, seen: set<seq<nat>>,
                        found: bool, lead: Score, champion: seq<nat>, depthBound: nat, depth: nat)
    requires Regular(p, limits) && Kept(p, bindings, seen, found, lead, champion)
    requires Exhausted(p.def, seen, [], depthBound) && AllBounded(p.def, seen, depthBound) && depthBound <= depth
    requires depthBound >= depth || depthBound >= p.policy.maxPlanSteps || depthBound >= OccurrenceBound(p.def)
    ensures AllSequences(p.def, depthBound, seen)
    ensures IsExact(p, bindings, depth, found, lead)
  {
    hide Execute, GoalsMet, Authorised, PlanScore, AtLeastAsGood, ValidDefinition, AccountingFits, Bounded;
    hide SingleUses, ModestCapacities, OccurrenceBound;
    forall v | Bounded(p.def, v) && |v| <= depthBound
      ensures v in seen
    {
      assert Extends(v, []);
    }
    forall v | Accepted(p, bindings, v) && |v| <= depth
      ensures v in seen
    {
      AdmissibleLength(p.def, p.policy, p.start, v);
      AdmissibleIsBounded(p, v);
    }
    if found {
      assert Leads(p, bindings, depth, champion);
    }
  }

  /** Enumerates every sequence within the limits.  The outcome is exact unless the depth is beyond
      what is enumerated at all, or there are more sequences than may be examined. */
  method Solve(p: Problem, limits: ModelLimits, reference: ReferenceLimits, bindings: seq<AuthorityBinding>)
    returns (o: ReferenceOutcome)
    requires Regular(p, limits)
    ensures o.kind == BadInput <==> p.policy.maxPlanSteps == 0 || reference.maxPlanSteps == 0
    ensures o.kind == Exact ==>
              IsExact(p, bindings, reference.maxPlanSteps, o.planFound, Score(o.objective, o.encoding))
    ensures o.kind == Exact ==>
              DepthFor(p, reference) <= DEPTH_LIMIT
              && exists s :: AllSequences(p.def, DepthFor(p, reference), s) && o.examined == |s|
    ensures o.kind == HitLimit ==>
              DepthFor(p, reference) > DEPTH_LIMIT
              || (o.examined >= reference.maxSequences
                  && MoreThan(p.def, DepthFor(p, reference), reference.maxSequences))
  {
    hide Regular, Kept, Exhausted, AllBounded, IsExact, AllSequences, Bounded, OccurrenceBound;
    if p.policy.maxPlanSteps == 0 || reference.maxPlanSteps == 0 {
      return ReferenceOutcome(BadInput, false, ZERO, [], 0);
    }
    var total := OccurrenceTotal(p.def);
    var depthBound := reference.maxPlanSteps;
    if p.policy.maxPlanSteps < depthBound {
      depthBound := p.policy.maxPlanSteps;
    }
    if total < depthBound {
      depthBound := total;
    }
    if depthBound > DEPTH_LIMIT {
      return ReferenceOutcome(HitLimit, false, ZERO, [], 0);
    }
    var e := new Enumerator(p, limits, bindings, depthBound, reference.maxSequences);
    NothingSeen([]);
    e.Descend([]);
    if !e.aborted {
      FullyEnumerated(p, limits, bindings, e.seen, e.found, Score(e.best, e.bestEncoding), e.champion, depthBound,
                      reference.maxPlanSteps);
    }
    o := ReferenceOutcome(if e.aborted then HitLimit else Exact, e.found, e.best, e.bestEncoding, e.examined);
  }

  lemma NothingSeen(w: seq<nat>)
    ensures Untouched({}, w)
  {
  }
}
