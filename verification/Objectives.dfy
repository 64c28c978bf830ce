/** The eight-component objective, and the total order over (objective, encoding)
    that decides which plan is reported. */
module Objectives {
  import opened Ints
  import Lex

  const COMPONENTS: nat := 8

  // Components: 0 safety violations, 1 preservation gap, 2 recovery incompleteness,
  // 3 blast radius, 4 action count, 5 disruption, 6 cost units, 7 duration ticks.
  type Objective = o: seq<nat> | |o| == 8 witness [0, 0, 0, 0, 0, 0, 0, 0]

  const ZERO: Objective := [0, 0, 0, 0, 0, 0, 0, 0]

  predicate Fits64(o: Objective) {
    forall i | 0 <= i < 8 :: o[i] <= MAX_U64
  }

  function Plus(a: Objective, b: Objective): (r: Objective)
    ensures forall i :: 0 <= i < 8 ==> r[i] == a[i] + b[i]
  {
    Lex.Plus(a, b)
  }

  /** Component-wise sum that refuses as soon as one component leaves 64 bits. */
  method AddChecked(a: Objective, b: Objective) returns (ok: bool, sum: Objective)
    ensures ok <==> Fits64(Plus(a, b))
    ensures ok ==> sum == Plus(a, b)
  {
    var result: seq<nat> := [];
    sum := ZERO;
    for i := 0 to 8
      invariant |result| == i
      invariant forall k :: 0 <= k < i ==> result[k] == a[k] + b[k] <= MAX_U64
    {
      if a[i] + b[i] > MAX_U64 {
        assert Plus(a, b)[i] > MAX_U64;
        return false, ZERO;
      }
      result := result + [a[i] + b[i]];
    }
    assert result == Plus(a, b);
    return true, result;
  }

  datatype Score = Score(objective: Objective, encoding: seq<nat>)

  predicate Better(x: Score, y: Score) {
    Lex.Less(x.objective, y.objective)
    || (x.objective == y.objective && Lex.Less(x.encoding, y.encoding))
  }

  predicate AtLeastAsGood(x: Score, y: Score) {
    x == y || Better(x, y)
  }

  // The score of a plan prolonged by one action of a given identity.
  function Extend(x: Score, delta: Objective, id: nat): Score {
    Score(Plus(x.objective, delta), x.encoding + [id])
  }

  /** The order of the reported plan: objective first, then encoding. */
  method ScoredLess(x: Score, y: Score) returns (less: bool)
    ensures less <==> Better(x, y)
  {
    var order := Lex.Compare(x.objective, y.objective);
    if order != 0 {
      if order > 0 {
        Lex.LessAsymmetric(y.objective, x.objective);
      } else {
        Lex.LessAsymmetric(x.objective, y.objective);
      }
      return order < 0;
    }
    Lex.LessIrreflexive(x.objective);
    var tie := Lex.Compare(x.encoding, y.encoding);
    return tie < 0;
  }

  lemma BetterTransitive(x: Score, y: Score, z: Score)
    requires Better(x, y) && Better(y, z)
    ensures Better(x, z)
  {
    if Lex.Less(x.objective, y.objective) && Lex.Less(y.objective, z.objective) {
      Lex.LessTransitive(x.objective, y.objective, z.objective);
    } else if x.objective == y.objective == z.objective {
      Lex.LessIrreflexive(x.objective);
      Lex.LessTransitive(x.encoding, y.encoding, z.encoding);
    }
  }

  lemma AtLeastAsGoodTransitive(x: Score, y: Score, z: Score)
    requires AtLeastAsGood(x, y) && AtLeastAsGood(y, z)
    ensures AtLeastAsGood(x, z)
    ensures Better(x, y) || Better(y, z) ==> Better(x, z)
  {
    if Better(x, y) && Better(y, z) {
      BetterTransitive(x, y, z);
    }
  }

  lemma BetterAsymmetric(x: Score, y: Score)
    requires Better(x, y)
    ensures !Better(y, x) && x != y
  {
    if Lex.Less(x.objective, y.objective) {
      Lex.LessAsymmetric(x.objective, y.objective);
    } else {
      Lex.LessIrreflexive(x.objective);
      Lex.LessAsymmetric(x.encoding, y.encoding);
    }
  }

  // Any two scores are comparable, and only a score itself ties with it.
  lemma BetterTotal(x: Score, y: Score)
    ensures x == y || Better(x, y) || Better(y, x)
  {
    Lex.LessTotal(x.objective, y.objective);
    Lex.LessTotal(x.encoding, y.encoding);
  }

  // One more action is strictly worse, because it adds one to the action count.
  lemma ExtensionIsWorse(x: Score, delta: Objective, id: nat)
    requires delta[4] > 0
    ensures Better(x, Extend(x, delta, id))
  {
    Lex.PlusIncreases(x.objective, delta, 4);
  }

  // Two plans of one length that reach one state keep their order under the same next step.
  lemma ExtensionPreservesOrder(x: Score, y: Score, delta: Objective, id: nat)
    requires |x.encoding| == |y.encoding|
    ensures Better(x, y) ==> Better(Extend(x, delta, id), Extend(y, delta, id))
    ensures AtLeastAsGood(x, y) ==> AtLeastAsGood(Extend(x, delta, id), Extend(y, delta, id))
  {
    if Better(x, y) {
      if Lex.Less(x.objective, y.objective) {
        Lex.LessTranslates(x.objective, y.objective, delta);
      } else {
        Lex.LessExtends(x.encoding, y.encoding, [id], [id]);
      }
    }
  }
}
