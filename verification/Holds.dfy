/** The planner's decaying hold profile, and its equivalence with the use history.

    The planner never looks back: each expanded node carries the active holds with the
    number of future steps they still cover.  The theorem of this module is that after
    any sequence the profile is exactly the earlier uses whose window is still open, so
    the incremental check admits the same sequences as the history-based definition. */
module Holds {
  import opened Ints
  import opened Domain
  import opened Objectives
  import opened Dynamics

  datatype Hold = Hold(resource: nat, units: U32, remaining: U32)

  // The profile order: resource, then remaining steps, then units.
  predicate Before(x: Hold, y: Hold) {
    || x.resource < y.resource
    || (x.resource == y.resource && x.remaining < y.remaining)
    || (x.resource == y.resource && x.remaining == y.remaining && x.units <= y.units)
  }

  predicate Sorted(holds: seq<Hold>) {
    forall i, j :: 0 <= i < j < |holds| ==> Before(holds[i], holds[j])
  }

  function Insert(h: Hold, holds: seq<Hold>): seq<Hold> {
    if |holds| == 0 || Before(h, holds[0]) then [h] + holds
    else [holds[0]] + Insert(h, holds[1..])
  }

  function Sort(holds: seq<Hold>): seq<Hold> {
    if |holds| == 0 then [] else Insert(holds[0], Sort(holds[1..]))
  }

  lemma {:induction false} InsertKeepsOrder(h: Hold, holds: seq<Hold>)
    requires Sorted(holds)
    ensures Sorted(Insert(h, holds))
    ensures forall x :: x in Insert(h, holds) ==> x == h || x in holds
  {
    if |holds| > 0 && !Before(h, holds[0]) {
      InsertKeepsOrder(h, holds[1..]);
      var rest := Insert(h, holds[1..]);
      forall k | 0 <= k < |rest|
        ensures Before(holds[0], rest[k])
      {
        assert rest[k] in rest;
      }
    }
  }

  lemma {:induction false} InsertPermutes(h: Hold, holds: seq<Hold>)
    ensures multiset(Insert(h, holds)) == multiset{h} + multiset(holds)
  {
    if |holds| > 0 && !Before(h, holds[0]) {
      InsertPermutes(h, holds[1..]);
      assert holds == [holds[0]] + holds[1..];
    }
  }

  lemma {:induction false} SortSorts(holds: seq<Hold>)
    ensures Sorted(Sort(holds))
    ensures multiset(Sort(holds)) == multiset(holds)
  {
    if |holds| > 0 {
      SortSorts(holds[1..]);
      InsertKeepsOrder(holds[0], Sort(holds[1..]));
      InsertPermutes(holds[0], Sort(holds[1..]));
      assert holds == [holds[0]] + holds[1..];
    }
  }

  lemma SortedFirst(x: seq<Hold>, h: Hold)
    requires Sorted(x) && h in x
    ensures Before(x[0], h)
  {
    var i :| 0 <= i < |x| && x[i] == h;
    assert i > 0 ==> Before(x[0], x[i]);
  }

  lemma TailOf(x: seq<Hold>)
    requires |x| > 0
    ensures multiset(x[1..]) == multiset(x) - multiset{x[0]}
  {
    assert x == [x[0]] + x[1..];
  }

  // Two sorted profiles with the same holds are the same profile.
  lemma {:induction false} SortedUnique(x: seq<Hold>, y: seq<Hold>)
    requires Sorted(x) && Sorted(y) && multiset(x) == multiset(y)
    ensures x == y
    decreases |x|
  {
    if |x| == 0 {
      assert |multiset(y)| == 0;
    } else {
      assert x[0] in multiset(y);
      assert y[0] in multiset(x);
      SortedFirst(x, y[0]);
      SortedFirst(y, x[0]);
      TailOf(x);
      TailOf(y);
      SortedUnique(x[1..], y[1..]);
      assert x == [x[0]] + x[1..] && y == [y[0]] + y[1..];
    }
  }

  // One step passes: holds that would reach zero are dropped.
  function Decay(holds: seq<Hold>): seq<Hold> {
    if |holds| == 0 then []
    else
      (if holds[0].remaining > 1 then [holds[0].(remaining := holds[0].remaining - 1)] else [])
      + Decay(holds[1..])
  }

  // The hold that a use made age steps ago still exerts, if any.
  function HoldOfAge(def: FabricDefinition, use: ResourceUse, age: nat): seq<Hold> {
    match ResourceIndex(def, use.resource)
    case None => []
    case Some(r) =>
      if def.resources[r].kind == Reusable && age < def.resources[r].holdSteps
      then [Hold(r, use.units, def.resources[r].holdSteps - age)] else []
  }

  function HoldsOfAge(def: FabricDefinition, uses: seq<ResourceUse>, age: nat): seq<Hold> {
    if |uses| == 0 then [] else HoldOfAge(def, uses[0], age) + HoldsOfAge(def, uses[1..], age)
  }

  // The profile after an action: what is left of the old holds, and the new ones.
  function NextHolds(def: FabricDefinition, holds: seq<Hold>, a: nat): seq<Hold> {
    Sort(Decay(holds) + HoldsOfAge(def, UsesOf(def, a), 1))
  }

  function SumOf(holds: seq<Hold>, r: nat): nat {
    if |holds| == 0 then 0
    else (if holds[0].resource == r then holds[0].units else 0) + SumOf(holds[1..], r)
  }

  function HeldBy(def: FabricDefinition, holds: seq<Hold>): (h: seq<nat>)
    ensures |h| == |def.resources|
    ensures forall r :: 0 <= r < |h| ==> h[r] == SumOf(holds, r)
  {
    seq(|def.resources|, r requires 0 <= r < |def.resources| => SumOf(holds, r))
  }

  // What the planner carries from node to node.
  datatype Config = Config(state: FabricState, holds: seq<Hold>)

  // One planner step on a configuration.
  function Advance(def: FabricDefinition, policy: PlanPolicy, c: Config, a: nat): (r: Option<Config>)
    requires Shaped(def, c.state)
    ensures r.Some? ==> a < |def.actions| && Shaped(def, r.value.state)
  {
    hide Step;
    hide HeldBy;
    hide NextHolds;
    match Step(def, policy, c.state, HeldBy(def, c.holds), a)
    case None => None
    case Some(next) => Some(Config(next, NextHolds(def, c.holds, a)))
  }

  datatype Progress = Progress(config: Config, cost: Objective)

  // One more planner step, with its cost.
  function AdvanceFrom(def: FabricDefinition, policy: PlanPolicy, p: Progress, a: nat): (r: Option<Progress>)
    requires Shaped(def, p.config.state)
    ensures r.Some? ==> a < |def.actions| && Shaped(def, r.value.config.state)
  {
    hide Advance;
    hide StepCost;
    match Advance(def, policy, p.config, a)
    case None => None
    case Some(next) => Some(Progress(next, Plus(p.cost, StepCost(def, p.config.state, next.state, a))))
  }

  // Replaying a sequence with the planner's own transition.
  function Replay(def: FabricDefinition, policy: PlanPolicy, start: FabricState, w: seq<nat>): (r: Option<Progress>)
    requires Shaped(def, start)
    ensures r.Some? ==> Shaped(def, r.value.config.state)
    decreases |w|
  {
    hide AdvanceFrom;
    hide Shaped;
    if |w| == 0 then Some(Progress(Config(start, []), ZERO))
    else
      match Replay(def, policy, start, w[..|w| - 1])
      case None => None
      case Some(p) => AdvanceFrom(def, policy, p, w[|w| - 1])
  }

  // The open uses of the first k steps of w, seen from step |w|.
  function OpenUses(def: FabricDefinition, w: seq<nat>, k: nat): seq<Hold>
    requires k <= |w|
  {
    if k == 0 then []
    else OpenUses(def, w, k - 1) + HoldsOfAge(def, UsesOf(def, w[k - 1]), |w| - (k - 1))
  }

  // ---- Algebra of profiles --------------------------------------------------

  lemma {:induction false} DecayAppend(x: seq<Hold>, y: seq<Hold>)
    ensures Decay(x + y) == Decay(x) + Decay(y)
  {
    if |x| == 0 {
      assert x + y == y;
    } else {
      assert (x + y)[1..] == x[1..] + y;
      DecayAppend(x[1..], y);
    }
  }

  lemma {:induction false} SumAppend(x: seq<Hold>, y: seq<Hold>, r: nat)
    ensures SumOf(x + y, r) == SumOf(x, r) + SumOf(y, r)
  {
    if |x| == 0 {
      assert x + y == y;
    } else {
      assert (x + y)[1..] == x[1..] + y;
      SumAppend(x[1..], y, r);
    }
  }

  // A profile with one hold taken out of the middle.
  lemma SplitAt(y: seq<Hold>, h: Hold) returns (i: nat)
    requires h in y
    ensures i < |y| && y[i] == h
    ensures y == y[..i] + [h] + y[i + 1..]
    ensures multiset(y[..i] + y[i + 1..]) == multiset(y) - multiset{h}
  {
    i :| 0 <= i < |y| && y[i] == h;
    assert y == y[..i] + [h] + y[i + 1..];
  }

  // Neither the sum nor the decay of a profile depends on its order.
  lemma {:induction false} OrderIrrelevant(x: seq<Hold>, y: seq<Hold>, r: nat)
    requires multiset(x) == multiset(y)
    ensures SumOf(x, r) == SumOf(y, r)
    ensures multiset(Decay(x)) == multiset(Decay(y))
    decreases |x|
  {
    if |x| == 0 {
      assert |multiset(y)| == 0;
      assert y == [];
    } else {
      var h, t := x[0], x[1..];
      assert x == [] + [h] + t;
      assert h in multiset(y);
      var i := SplitAt(y, h);
      OrderIrrelevant(t, y[..i] + y[i + 1..], r);
      TakeOut([], h, t, r);
      TakeOut(y[..i], h, y[i + 1..], r);
      assert [] + t == t;
    }
  }

  // What one hold contributes to a profile, wherever it stands.
  lemma TakeOut(front: seq<Hold>, h: Hold, back: seq<Hold>, r: nat)
    ensures SumOf(front + [h] + back, r) == SumOf([h], r) + SumOf(front + back, r)
    ensures multiset(Decay(front + [h] + back)) == multiset(Decay([h])) + multiset(Decay(front + back))
  {
    SumAppend(front + [h], back, r);
    SumAppend(front, [h], r);
    SumAppend(front, back, r);
    DecayAppend(front + [h], back);
    DecayAppend(front, [h]);
    DecayAppend(front, back);
  }

  lemma NoHoldsDecay()
    ensures Decay([]) == []
  {
  }

  lemma {:induction false} DecayAges(def: FabricDefinition, uses: seq<ResourceUse>, age: nat)
    ensures Decay(HoldsOfAge(def, uses, age)) == HoldsOfAge(def, uses, age + 1)
  {
    if |uses| > 0 {
      DecayAges(def, uses[1..], age);
      DecayAppend(HoldOfAge(def, uses[0], age), HoldsOfAge(def, uses[1..], age));
    }
  }

  lemma {:induction false} SumOfAge(def: FabricDefinition, uses: seq<ResourceUse>, age: nat, r: nat)
    requires r < |def.resources| && def.resources[r].kind == Reusable
    ensures SumOf(HoldsOfAge(def, uses, age), r)
         == if age < def.resources[r].holdSteps then Units(def, uses, r) else 0
  {
    if |uses| > 0 {
      SumOfAge(def, uses[1..], age, r);
      SumAppend(HoldOfAge(def, uses[0], age), HoldsOfAge(def, uses[1..], age), r);
    }
  }

  lemma {:induction false} SumOfOpenUses(def: FabricDefinition, w: seq<nat>, k: nat, r: nat)
    requires k <= |w|
    requires r < |def.resources| && def.resources[r].kind == Reusable
    ensures SumOf(OpenUses(def, w, k), r) == HeldUpTo(def, w, r, k)
  {
    hide HoldsOfAge;
    hide Units;
    if k > 0 {
      SumOfOpenUses(def, w, k - 1, r);
      var last := HoldsOfAge(def, UsesOf(def, w[k - 1]), |w| - (k - 1));
      SumAppend(OpenUses(def, w, k - 1), last, r);
      SumOfAge(def, UsesOf(def, w[k - 1]), |w| - (k - 1), r);
    }
  }

  // Prolonging a sequence ages every open use by one.
  lemma {:induction false} OpenUsesDecay(def: FabricDefinition, w: seq<nat>, a: nat, k: nat)
    requires k <= |w|
    ensures OpenUses(def, w + [a], k) == Decay(OpenUses(def, w, k))
  {
    hide HoldsOfAge;
    hide Decay;
    if k == 0 {
      NoHoldsDecay();
    } else {
      OpenUsesDecay(def, w, a, k - 1);
      var uses := UsesOf(def, w[k - 1]);
      assert (w + [a])[k - 1] == w[k - 1];
      DecayAppend(OpenUses(def, w, k - 1), HoldsOfAge(def, uses, |w| - (k - 1)));
      DecayAges(def, uses, |w| - (k - 1));
    }
  }

  // ---- The equivalence ------------------------------------------------------

  // The carried profile is the sorted list of open uses: a use of step i is there exactly
  // while i + holdSteps lies beyond the current step, with that many steps remaining.
  ghost predicate ProfileExact(def: FabricDefinition, w: seq<nat>, holds: seq<Hold>) {
    Sorted(holds) && multiset(holds) == multiset(OpenUses(def, w, |w|))
  }

  lemma StepAgrees(def: FabricDefinition, policy: PlanPolicy, s: FabricState, w: seq<nat>, holds: seq<Hold>, a: nat)
    requires Shaped(def, s) && ProfileExact(def, w, holds)
    ensures Step(def, policy, s, HeldBy(def, holds), a) == Step(def, policy, s, Held(def, w), a)
  {
    hide Ready;
    hide Evolve;
    forall r: nat | r < |def.resources| && def.resources[r].kind == Reusable
      ensures HeldBy(def, holds)[r] == Held(def, w)[r]
    {
      OrderIrrelevant(holds, OpenUses(def, w, |w|), r);
      SumOfOpenUses(def, w, |w|, r);
    }
  }

  lemma EmptyProfile(def: FabricDefinition)
    ensures ProfileExact(def, [], [])
  {
  }

  lemma {:induction false} OpenUsesSnoc(def: FabricDefinition, w: seq<nat>, a: nat)
    ensures OpenUses(def, w + [a], |w| + 1)
         == OpenUses(def, w + [a], |w|) + HoldsOfAge(def, UsesOf(def, a), 1)
  {
    assert (w + [a])[|w|] == a;
  }

  lemma ProfileStep(def: FabricDefinition, w: seq<nat>, holds: seq<Hold>, a: nat)
    requires ProfileExact(def, w, holds)
    ensures ProfileExact(def, w + [a], NextHolds(def, holds, a))
  {
    hide HoldsOfAge;
    hide OpenUses;
    OpenUsesSnoc(def, w, a);
    OpenUsesDecay(def, w, a, |w|);
    OrderIrrelevant(holds, OpenUses(def, w, |w|), 0);
    SortSorts(Decay(holds) + HoldsOfAge(def, UsesOf(def, a), 1));
  }

  /** The planner's incremental transition admits exactly the admissible sequences, with
      the same states and costs, and its profile is exactly the open uses. */
  lemma {:induction false} ReplayIsExecute(def: FabricDefinition, policy: PlanPolicy, start: FabricState, w: seq<nat>)
    requires Shaped(def, start)
    ensures Replay(def, policy, start, w).Some? <==> Execute(def, policy, start, w).Some?
    ensures Execute(def, policy, start, w).Some? ==>
              var p := Replay(def, policy, start, w).value;
              && Execute(def, policy, start, w).value == Outcome(p.config.state, p.cost)
              && ProfileExact(def, w, p.config.holds)
    decreases |w|
  {
    hide Step;
    hide NextHolds;
    hide StepCost;
    hide ProfileExact;
    if |w| == 0 {
      EmptyProfile(def);
    } else {
      var earlier, a := w[..|w| - 1], w[|w| - 1];
      ReplayIsExecute(def, policy, start, earlier);
      assert w == earlier + [a];
      if Replay(def, policy, start, earlier).Some? {
        var p := Replay(def, policy, start, earlier).value;
        StepAgrees(def, policy, p.config.state, earlier, p.config.holds, a);
        ProfileStep(def, earlier, p.config.holds, a);
      }
    }
  }
}
