/** The facts about transitions that the search relies on: which configurations occur,
    how depth is determined by the state, and how scores grow. */
module Problems {
  import opened Ints
  import opened Domain
  import opened Objectives
  import opened Dynamics
  import opened Holds
  import opened Keys

  // One search: a definition, a policy and the state planning starts from.
  datatype Problem = Problem(def: FabricDefinition, policy: PlanPolicy, start: FabricState)

  predicate SizesFit(def: FabricDefinition) {
    && |def.nodes| < TWO_32 && |def.links| < TWO_32 && |def.services| < TWO_32
    && |def.resources| < TWO_32 && |def.actions| < TWO_32
  }

  // What the search is given: parallel sequences, list sizes in 32 bits, no action
  // identity used twice, and a state in which nothing has been executed yet.
  predicate WellPosed(p: Problem) {
    && Shaped(p.def, p.start)
    && SizesFit(p.def)
    && Distinct(ActionIds(p.def))
    && NothingExecuted(p.start)
  }

  predicate NothingExecuted(s: FabricState) {
    forall i :: 0 <= i < |s.occurrences| ==> s.occurrences[i] == 0
  }

  function TotalOccurrences(counts: seq<nat>): nat {
    if |counts| == 0 then 0 else counts[0] + TotalOccurrences(counts[1..])
  }

  lemma {:induction false} TotalAfterIncrement(counts: seq<nat>, a: nat)
    requires a < |counts|
    ensures TotalOccurrences(counts[a := counts[a] + 1]) == TotalOccurrences(counts) + 1
  {
    var next := counts[a := counts[a] + 1];
    if a == 0 {
      assert next[1..] == counts[1..];
    } else {
      TotalAfterIncrement(counts[1..], a - 1);
      assert next[1..] == counts[1..][a - 1 := counts[1..][a - 1] + 1];
    }
  }

  lemma {:induction false} TotalMonotone(low: seq<nat>, high: seq<nat>)
    requires |low| == |high| && forall i :: 0 <= i < |low| ==> low[i] <= high[i]
    ensures TotalOccurrences(low) <= TotalOccurrences(high)
  {
    if |low| > 0 {
      TotalMonotone(low[1..], high[1..]);
    }
  }

  function OccurrenceLimits(def: FabricDefinition): (limits: seq<nat>)
    ensures |limits| == |def.actions|
    ensures forall i :: 0 <= i < |limits| ==> limits[i] == def.actions[i].maxOccurrences
  {
    seq(|def.actions|, i requires 0 <= i < |def.actions| => def.actions[i].maxOccurrences)
  }

  // No admissible sequence is longer than all the allowed occurrences together.
  function OccurrenceBound(def: FabricDefinition): nat {
    TotalOccurrences(OccurrenceLimits(def))
  }

  lemma AdvanceFacts(def: FabricDefinition, policy: PlanPolicy, c: Config, a: nat)
    requires Shaped(def, c.state) && Advance(def, policy, c, a).Some?
    ensures a < |def.actions|
    ensures c.state.occurrences[a] < def.actions[a].maxOccurrences
    ensures var d := Advance(def, policy, c, a).value;
            && d.state.occurrences == c.state.occurrences[a := c.state.occurrences[a] + 1]
            && d.holds == NextHolds(def, c.holds, a)
  {
    hide Step;
    hide NextHolds;
  }

  // The replay of a prolonged sequence is the replay of the sequence and one more step.
  lemma ReplaySnoc(p: Problem, w: seq<nat>, a: nat)
    requires Shaped(p.def, p.start)
    ensures Replay(p.def, p.policy, p.start, w + [a])
         == match Replay(p.def, p.policy, p.start, w)
            case None => None
            case Some(progress) => AdvanceFrom(p.def, p.policy, progress, a)
  {
    hide AdvanceFrom;
    assert (w + [a])[..|w + [a]| - 1] == w;
  }

  // ---- Depth ----------------------------------------------------------------

  lemma {:induction false} DepthIsOccurrences(p: Problem, w: seq<nat>)
    requires Shaped(p.def, p.start) && Replay(p.def, p.policy, p.start, w).Some?
    ensures TotalOccurrences(Replay(p.def, p.policy, p.start, w).value.config.state.occurrences)
         == TotalOccurrences(p.start.occurrences) + |w|
    decreases |w|
  {
    hide Advance;
    hide StepCost;
    if |w| > 0 {
      var earlier, a := w[..|w| - 1], w[|w| - 1];
      DepthIsOccurrences(p, earlier);
      var before := Replay(p.def, p.policy, p.start, earlier).value;
      AdvanceFacts(p.def, p.policy, before.config, a);
      TotalAfterIncrement(before.config.state.occurrences, a);
    }
  }

  // Sequences that reach the same state have the same length.
  lemma SameStateSameLength(p: Problem, w: seq<nat>, v: seq<nat>)
    requires Shaped(p.def, p.start)
    requires Replay(p.def, p.policy, p.start, w).Some? && Replay(p.def, p.policy, p.start, v).Some?
    requires Replay(p.def, p.policy, p.start, w).value.config.state
          == Replay(p.def, p.policy, p.start, v).value.config.state
    ensures |w| == |v|
  {
    DepthIsOccurrences(p, w);
    DepthIsOccurrences(p, v);
  }

  ghost predicate WithinLimits(def: FabricDefinition, start: FabricState, s: FabricState)
    requires Shaped(def, start) && Shaped(def, s)
  {
    forall i :: 0 <= i < |def.actions| ==>
      s.occurrences[i] <= def.actions[i].maxOccurrences || s.occurrences[i] <= start.occurrences[i]
  }

  lemma {:induction false} OccurrencesStayWithinLimits(p: Problem, w: seq<nat>)
    requires Shaped(p.def, p.start) && Replay(p.def, p.policy, p.start, w).Some?
    ensures WithinLimits(p.def, p.start, Replay(p.def, p.policy, p.start, w).value.config.state)
    decreases |w|
  {
    hide Advance;
    hide StepCost;
    if |w| > 0 {
      var earlier, a := w[..|w| - 1], w[|w| - 1];
      OccurrencesStayWithinLimits(p, earlier);
      AdvanceFacts(p.def, p.policy, Replay(p.def, p.policy, p.start, earlier).value.config, a);
    }
  }

  lemma LengthBound(p: Problem, w: seq<nat>)
    requires Shaped(p.def, p.start) && Replay(p.def, p.policy, p.start, w).Some?
    requires NothingExecuted(p.start)
    ensures |w| <= OccurrenceBound(p.def)
  {
    hide Replay;
    OccurrencesStayWithinLimits(p, w);
    DepthIsOccurrences(p, w);
    TotalMonotone(Replay(p.def, p.policy, p.start, w).value.config.state.occurrences, OccurrenceLimits(p.def));
  }

  // ---- Configurations that occur --------------------------------------------

  // A configuration the search can hold: shaped, with in-range hold indices.
  predicate Proper(p: Problem, c: Config) {
    && Shaped(p.def, c.state)
    && forall i :: 0 <= i < |c.holds| ==> c.holds[i].resource < |p.def.resources|
  }

  lemma ProperKeys(p: Problem, c: Config, d: Config)
    requires SizesFit(p.def) && Proper(p, c) && Proper(p, d)
    requires KeyOf(c) == KeyOf(d)
    ensures c == d
  {
    hide KeyOf;
    KeyInjective(c, d);
  }

  predicate InRange(holds: seq<Hold>, n: nat) {
    forall i :: 0 <= i < |holds| ==> holds[i].resource < n
  }

  lemma {:induction false} DecayInRange(holds: seq<Hold>, n: nat)
    requires InRange(holds, n)
    ensures InRange(Decay(holds), n)
  {
    if |holds| > 0 {
      DecayInRange(holds[1..], n);
    }
  }

  lemma {:induction false} NewHoldsInRange(def: FabricDefinition, uses: seq<ResourceUse>, age: nat)
    ensures InRange(HoldsOfAge(def, uses, age), |def.resources|)
  {
    if |uses| > 0 {
      NewHoldsInRange(def, uses[1..], age);
    }
  }

  lemma SortInRange(holds: seq<Hold>, n: nat)
    requires InRange(holds, n)
    ensures InRange(Sort(holds), n)
  {
    SortSorts(holds);
    var sorted := Sort(holds);
    forall i | 0 <= i < |sorted|
      ensures sorted[i].resource < n
    {
      assert sorted[i] in multiset(holds);
      assert sorted[i] in holds;
    }
  }

  lemma AdvanceProper(p: Problem, c: Config, a: nat)
    requires Proper(p, c) && Advance(p.def, p.policy, c, a).Some?
    ensures Proper(p, Advance(p.def, p.policy, c, a).value)
  {
    hide Advance;
    hide HoldsOfAge;
    AdvanceFacts(p.def, p.policy, c, a);
    var uses := UsesOf(p.def, a);
    DecayInRange(c.holds, |p.def.resources|);
    NewHoldsInRange(p.def, uses, 1);
    SortInRange(Decay(c.holds) + HoldsOfAge(p.def, uses, 1), |p.def.resources|);
  }

  lemma {:induction false} ReplayProper(p: Problem, w: seq<nat>)
    requires Shaped(p.def, p.start) && Replay(p.def, p.policy, p.start, w).Some?
    ensures Proper(p, Replay(p.def, p.policy, p.start, w).value.config)
    decreases |w|
  {
    hide Advance;
    hide StepCost;
    if |w| > 0 {
      ReplayProper(p, w[..|w| - 1]);
      AdvanceProper(p, Replay(p.def, p.policy, p.start, w[..|w| - 1]).value.config, w[|w| - 1]);
    }
  }

  // ---- Encodings ------------------------------------------------------------

  lemma EncodingSnoc(def: FabricDefinition, w: seq<nat>, a: nat)
    ensures Encoding(def, w + [a]) == Encoding(def, w) + [IdOf(def, a)]
  {
  }

  // With distinct identities an encoding names one sequence.
  lemma EncodingInjective(def: FabricDefinition, w: seq<nat>, v: seq<nat>)
    requires Distinct(ActionIds(def)) && IsWord(def, w) && IsWord(def, v)
    requires Encoding(def, w) == Encoding(def, v)
    ensures w == v
  {
    assert |w| == |v|;
    forall i | 0 <= i < |w|
      ensures w[i] == v[i]
    {
      assert Encoding(def, w)[i] == Encoding(def, v)[i];
      assert ActionIds(def)[w[i]] == ActionIds(def)[v[i]];
    }
  }
}
