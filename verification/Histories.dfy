/** The hold history that the validator and the reference solver keep instead of a decaying
    profile, and the 32-bit sum both of them compare with a capacity. */
module Histories {
  import opened Ints
  import opened Domain
  import opened Dynamics

  // One use of a reusable resource, with the step that made it.
  datatype PastUse = PastUse(step: nat, units: U32)

  // The uses of resource r in a list, all made at one step.
  function UsesAt(def: FabricDefinition, uses: seq<ResourceUse>, r: nat, step: nat): seq<PastUse> {
    if |uses| == 0 then []
    else (if ResourceIndex(def, uses[0].resource) == Some(r) then [PastUse(step, uses[0].units)] else [])
         + UsesAt(def, uses[1..], r, step)
  }

  // Every use of resource r by the first k steps of a sequence, oldest first.
  function Past(def: FabricDefinition, w: seq<nat>, r: nat, k: nat): seq<PastUse>
    requires k <= |w|
  {
    if k == 0 then [] else Past(def, w, r, k - 1) + UsesAt(def, UsesOf(def, w[k - 1]), r, k - 1)
  }

  // Whether a past use still covers the current step.
  predicate Covers(u: PastUse, now: nat, holdSteps: nat) {
    now >= u.step && (now - u.step < holdSteps || (holdSteps == 0 && now == u.step))
  }

  function Overlap(past: seq<PastUse>, now: nat, holdSteps: nat): nat {
    if |past| == 0 then 0
    else (if Covers(past[0], now, holdSteps) then past[0].units else 0) + Overlap(past[1..], now, holdSteps)
  }

  lemma {:induction false} OverlapAppend(x: seq<PastUse>, y: seq<PastUse>, now: nat, holdSteps: nat)
    ensures Overlap(x + y, now, holdSteps) == Overlap(x, now, holdSteps) + Overlap(y, now, holdSteps)
  {
    if |x| == 0 {
      assert x + y == y;
    } else {
      assert (x + y)[1..] == x[1..] + y;
      OverlapAppend(x[1..], y, now, holdSteps);
    }
  }

  lemma {:induction false} OverlapOfUses(def: FabricDefinition, uses: seq<ResourceUse>, r: nat, step: nat, now: nat,
                                         holdSteps: nat)
    requires step < now
    ensures Overlap(UsesAt(def, uses, r, step), now, holdSteps)
         == if now - step < holdSteps then Units(def, uses, r) else 0
  {
    if |uses| > 0 {
      hide ResourceIndex;
      OverlapOfUses(def, uses[1..], r, step, now, holdSteps);
      var first := if ResourceIndex(def, uses[0].resource) == Some(r) then [PastUse(step, uses[0].units)] else [];
      OverlapAppend(first, UsesAt(def, uses[1..], r, step), now, holdSteps);
    }
  }

  /** The overlapping part of the history is what the specification counts as held. */
  lemma {:induction false} OverlapIsHeld(def: FabricDefinition, w: seq<nat>, r: nat, k: nat)
    requires r < |def.resources| && k <= |w|
    ensures Overlap(Past(def, w, r, k), |w|, def.resources[r].holdSteps) == HeldUpTo(def, w, r, k)
  {
    hide Units, UsesAt;
    if k > 0 {
      OverlapIsHeld(def, w, r, k - 1);
      var last := UsesAt(def, UsesOf(def, w[k - 1]), r, k - 1);
      OverlapAppend(Past(def, w, r, k - 1), last, |w|, def.resources[r].holdSteps);
      OverlapOfUses(def, UsesOf(def, w[k - 1]), r, k - 1, |w|, def.resources[r].holdSteps);
    }
  }

  lemma {:induction false} PastPrefix(def: FabricDefinition, w: seq<nat>, a: nat, r: nat, k: nat)
    requires k <= |w|
    ensures Past(def, w + [a], r, k) == Past(def, w, r, k)
  {
    if k > 0 {
      PastPrefix(def, w, a, r, k - 1);
      assert (w + [a])[k - 1] == w[k - 1];
    }
  }

  lemma PastSnoc(def: FabricDefinition, w: seq<nat>, a: nat, r: nat)
    ensures Past(def, w + [a], r, |w| + 1) == Past(def, w, r, |w|) + UsesAt(def, UsesOf(def, a), r, |w|)
  {
    PastPrefix(def, w, a, r, |w|);
    assert (w + [a])[|w|] == a;
  }

  // ---- The 32-bit comparison ------------------------------------------------

  lemma WrapAdds(x: nat, y: nat)
    ensures Wrap32(Wrap32(x) + y) == Wrap32(x + y)
  {
    var q := x / TWO_32;
    assert x == q * TWO_32 + Wrap32(x);
    assert (x + y) % TWO_32 == (Wrap32(x) + y + q * TWO_32) % TWO_32;
  }

  /** The sum of a new use and of everything it overlaps, in unchecked 32-bit arithmetic. */
  method SumOverlap(past: seq<PastUse>, now: nat, holdSteps: U32, units: U32) returns (total: U32)
    requires forall i :: 0 <= i < |past| ==> past[i].step <= now
    ensures total == Wrap32(units + Overlap(past, now, holdSteps))
  {
    total := units;
    for i := 0 to |past|
      invariant Wrap32(total + Overlap(past[i..], now, holdSteps)) == Wrap32(units + Overlap(past, now, holdSteps))
    {
      ghost var rest := Overlap(past[i + 1..], now, holdSteps);
      assert past[i..][1..] == past[i + 1..];
      var distance := now - past[i].step;
      if distance < holdSteps || (holdSteps == 0 && distance == 0) {
        WrapAdds(total + past[i].units, rest);
        total := Wrap32(total + past[i].units);
      }
    }
  }

  predicate WrapAgrees(held: nat, units: nat, capacity: U32) {
    Wrap32(units + held) <= capacity <==> held + units <= capacity
  }

  /** For which capacities the 32-bit comparison decides what the exact one does: exactly
      those below 2^31, given that neither side alone exceeds the capacity. */
  lemma WrapAgreesBelowHalf(capacity: U32)
    ensures (forall held: nat, units: nat :: held <= capacity && units <= capacity ==>
               WrapAgrees(held, units, capacity))
       <==> capacity < 0x8000_0000
  {
    if capacity >= 0x8000_0000 {
      var held: nat, units: nat := 0x8000_0000, 0x8000_0000;
      assert Wrap32(units + held) == 0;
      assert !WrapAgrees(held, units, capacity);
    }
  }

  lemma NoWrap(held: nat, units: nat, capacity: nat)
    requires held <= capacity && units <= capacity < 0x8000_0000
    ensures Wrap32(units + held) == units + held
  {
  }

  // ---- Keeping the history --------------------------------------------------

  // The whole history after a sequence, one list per resource; lists of consumables stay empty.
  predicate HistoryExact(def: FabricDefinition, w: seq<nat>, history: seq<seq<PastUse>>) {
    |history| == |def.resources|
    && forall r :: 0 <= r < |history| && def.resources[r].kind == Reusable ==> history[r] == Past(def, w, r, |w|)
  }

  lemma {:induction false} StepsBelow(def: FabricDefinition, uses: seq<ResourceUse>, r: nat, step: nat)
    ensures forall i :: 0 <= i < |UsesAt(def, uses, r, step)| ==> UsesAt(def, uses, r, step)[i].step == step
  {
    if |uses| > 0 {
      hide ResourceIndex;
      StepsBelow(def, uses[1..], r, step);
    }
  }

  lemma {:induction false} PastIsEarlier(def: FabricDefinition, w: seq<nat>, r: nat, k: nat)
    requires k <= |w|
    ensures forall i :: 0 <= i < |Past(def, w, r, k)| ==> Past(def, w, r, k)[i].step < k
  {
    if k > 0 {
      PastIsEarlier(def, w, r, k - 1);
      StepsBelow(def, UsesOf(def, w[k - 1]), r, k - 1);
    }
  }

  predicate PartlyRecorded(def: FabricDefinition, before: seq<seq<PastUse>>, history: seq<seq<PastUse>>,
                           uses: seq<ResourceUse>, i: nat, now: nat)
    requires i <= |uses|
  {
    |before| == |history| == |def.resources|
    && forall r :: 0 <= r < |history| && def.resources[r].kind == Reusable ==>
         history[r] + UsesAt(def, uses[i..], r, now) == before[r] + UsesAt(def, uses, r, now)
  }

  lemma RecordNext(def: FabricDefinition, before: seq<seq<PastUse>>, history: seq<seq<PastUse>>, uses: seq<ResourceUse>,
                   i: nat, now: nat)
    requires i < |uses| && PartlyRecorded(def, before, history, uses, i, now)
    requires ResourceIndex(def, uses[i].resource).Some?
    ensures var r := ResourceIndex(def, uses[i].resource).value;
            var next := if def.resources[r].kind == Reusable
                        then history[r := history[r] + [PastUse(now, uses[i].units)]] else history;
            PartlyRecorded(def, before, next, uses, i + 1, now)
  {
    var r := ResourceIndex(def, uses[i].resource).value;
    var next := if def.resources[r].kind == Reusable
                then history[r := history[r] + [PastUse(now, uses[i].units)]] else history;
    hide UsesAt;
    forall q | 0 <= q < |next| && def.resources[q].kind == Reusable
      ensures next[q] + UsesAt(def, uses[i + 1..], q, now) == before[q] + UsesAt(def, uses, q, now)
    {
      hide ResourceIndex;
      FirstUseAt(def, uses, i, q, now);
      Regroup(history[q], if q == r then [PastUse(now, uses[i].units)] else [], UsesAt(def, uses[i + 1..], q, now));
    }
  }

  lemma FirstUseAt(def: FabricDefinition, uses: seq<ResourceUse>, i: nat, r: nat, now: nat)
    requires i < |uses|
    ensures UsesAt(def, uses[i..], r, now)
         == (if ResourceIndex(def, uses[i].resource) == Some(r) then [PastUse(now, uses[i].units)] else [])
            + UsesAt(def, uses[i + 1..], r, now)
  {
    assert uses[i..][1..] == uses[i + 1..];
  }

  lemma Regroup(x: seq<PastUse>, y: seq<PastUse>, z: seq<PastUse>)
    ensures x + (y + z) == (x + y) + z
    ensures x + [] == x
  {
  }

  lemma HistorySnoc(def: FabricDefinition, w: seq<nat>, before: seq<seq<PastUse>>, history: seq<seq<PastUse>>, a: nat)
    requires HistoryExact(def, w, before) && a < |def.actions|
    requires PartlyRecorded(def, before, history, def.actions[a].uses, |def.actions[a].uses|, |w|)
    ensures HistoryExact(def, w + [a], history)
  {
    var uses := def.actions[a].uses;
    forall r | 0 <= r < |history| && def.resources[r].kind == Reusable
      ensures history[r] == Past(def, w + [a], r, |w + [a]|)
    {
      PastSnoc(def, w, a, r);
      assert uses[|uses|..] == [];
      assert history[r] + UsesAt(def, uses[|uses|..], r, |w|) == before[r] + UsesAt(def, uses, r, |w|);
    }
  }
}
