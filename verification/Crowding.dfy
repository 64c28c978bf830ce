/** Why a search may give up: there are more sequences that compete with the optimum than one
    of the policy's bounds allows. */
module Crowding {
  import opened Ints
  import opened Domain
  import opened Objectives
  import opened Dynamics
  import opened Holds
  import opened Keys
  import opened Problems
  import opened SearchTheory

  // An admissible sequence that is at least as good as every plan.
  ghost predicate Leading(p: Problem, w: seq<nat>) {
    && Shaped(p.def, p.start)
    && Admissible(p.def, p.policy, p.start, w)
    && forall v | IsPlan(p.def, p.policy, p.start, v) ::
         AtLeastAsGood(ScoreOf(p.def, p.policy, p.start, w), ScoreOf(p.def, p.policy, p.start, v))
  }

  // An admissible sequence within the bound that prolongs a leading one by one action, or is
  // empty.  A search for the optimum cannot do without looking at it.
  ghost predicate Competes(p: Problem, w: seq<nat>) {
    && Shaped(p.def, p.start)
    && Admissible(p.def, p.policy, p.start, w) && |w| <= EffectiveBound(p)
    && (w != [] ==> Leading(p, w[..|w| - 1]))
  }

  ghost predicate AllCompete(p: Problem, s: set<seq<nat>>) {
    forall w :: w in s ==> Competes(p, w)
  }

  predicate Exceeds(policy: PlanPolicy, n: nat) {
    n > policy.maxNodesExpanded || n > policy.maxGeneratedStates || n > policy.maxFrontierEntries
  }

  // There are more competing sequences than one of the policy's bounds.
  ghost predicate Crowded(p: Problem) {
    exists s :: AllCompete(p, s) && Exceeds(p.policy, |s|)
  }

  lemma CrowdedBy(p: Problem, s: set<seq<nat>>)
    requires AllCompete(p, s) && Exceeds(p.policy, |s|)
    ensures Crowded(p)
  {
  }

  /** Budgets that suffice: when each of them is at least the number of admissible sequences
      within the bound, nothing is crowded. */
  lemma BudgetsSuffice(p: Problem, all: set<seq<nat>>)
    requires Shaped(p.def, p.start)
    requires forall w :: Admissible(p.def, p.policy, p.start, w) && |w| <= EffectiveBound(p) ==> w in all
    requires !Exceeds(p.policy, |all|)
    ensures !Crowded(p)
  {
    hide Admissible, EffectiveBound, Leading;
    forall s | AllCompete(p, s)
      ensures !Exceeds(p.policy, |s|)
    {
      forall w | w in s
        ensures w in all
      {
        assert Competes(p, w);
      }
      Fewer(s, all);
    }
  }

  lemma {:induction false} Fewer<T>(s: set<T>, t: set<T>)
    requires s <= t
    ensures |s| <= |t|
  {
    if s != {} {
      var x :| x in s;
      Fewer(s - {x}, t - {x});
    }
  }

  // ---- What has been generated ----------------------------------------------

  // The sequence prolongs that of an expanded node, and while node c is being expanded, by
  // one of its first k actions.
  ghost predicate Offspring(words: seq<seq<nat>>, closed: set<nat>, t: seq<nat>, c: nat, k: nat) {
    |t| > 0
    && exists i :: i in closed && i < |words| && words[i] == t[..|t| - 1] && (i == c ==> t[|t| - 1] < k)
  }

  // What has been generated competes, stems from expanded nodes and includes every node.
  ghost predicate Tally(p: Problem, words: seq<seq<nat>>, closed: set<nat>, tried: set<seq<nat>>, c: nat, k: nat) {
    && AllCompete(p, tried)
    && (forall t :: t in tried ==> Offspring(words, closed, t, c, k))
    && (forall i :: 0 <= i < |words| ==> words[i] == [] || words[i] in tried)
  }

  lemma TallyBegins(p: Problem)
    ensures Tally(p, [[]], {}, {}, 1, 0)
  {
  }

  lemma TallyMeasures(p: Problem, words: seq<seq<nat>>, closed: set<nat>, tried: set<seq<nat>>, c: nat, k: nat)
    requires Tally(p, words, closed, tried, c, k)
    ensures AllCompete(p, tried)
  {
  }

  lemma TriedCompetes(p: Problem, words: seq<seq<nat>>, closed: set<nat>, tried: set<seq<nat>>, c: nat, k: nat,
                      t: seq<nat>)
    requires Tally(p, words, closed, tried, c, k) && t in tried
    ensures Competes(p, t)
  {
    hide Competes;
  }

  lemma NothingCompetes(p: Problem)
    requires Shaped(p.def, p.start)
    ensures Competes(p, [])
  {
  }

  lemma TallyCloses(p: Problem, words: seq<seq<nat>>, closed: set<nat>, tried: set<seq<nat>>, c: nat)
    requires Tally(p, words, closed, tried, |words|, 0) && c < |words| && c !in closed
    ensures Tally(p, words, closed + {c}, tried, c, 0) && Tally(p, words, closed + {c}, tried, |words|, 0)
  {
    hide Competes;
    forall t | t in tried
      ensures Offspring(words, closed + {c}, t, c, 0) && Offspring(words, closed + {c}, t, |words|, 0)
    {
      assert Offspring(words, closed, t, |words|, 0);
    }
  }

  lemma TallySkips(p: Problem, words: seq<seq<nat>>, closed: set<nat>, tried: set<seq<nat>>, c: nat, k: nat)
    requires Tally(p, words, closed, tried, c, k)
    ensures Tally(p, words, closed, tried, c, k + 1)
  {
    hide Competes;
    forall t | t in tried
      ensures Offspring(words, closed, t, c, k + 1)
    {
      assert Offspring(words, closed, t, c, k);
    }
  }

  lemma TallyFinishes(p: Problem, words: seq<seq<nat>>, closed: set<nat>, tried: set<seq<nat>>, c: nat, k: nat)
    requires Tally(p, words, closed, tried, c, k)
    ensures Tally(p, words, closed, tried, |words|, 0)
  {
    hide Competes;
    forall t | t in tried
      ensures Offspring(words, closed, t, |words|, 0)
    {
      assert Offspring(words, closed, t, c, k);
    }
  }

  lemma TallyFiles(p: Problem, words: seq<seq<nat>>, closed: set<nat>, tried: set<seq<nat>>, c: nat, k: nat,
                   t: seq<nat>)
    requires Tally(p, words, closed, tried, c, k) && t in tried
    ensures Tally(p, words + [t], closed, tried, c, k)
  {
    hide Competes;
    forall u | u in tried
      ensures Offspring(words + [t], closed, u, c, k)
    {
      assert Offspring(words, closed, u, c, k);
      var i :| i in closed && i < |words| && words[i] == u[..|u| - 1] && (i == c ==> u[|u| - 1] < k);
      assert (words + [t])[i] == words[i];
    }
  }

  ghost predicate AllDistinct(words: seq<seq<nat>>) {
    forall i, j :: 0 <= i < j < |words| ==> words[i] != words[j]
  }

  /** A newly generated sequence has not been generated before. */
  lemma TallyGrows(p: Problem, words: seq<seq<nat>>, closed: set<nat>, tried: set<seq<nat>>, c: nat, k: nat)
    requires Tally(p, words, closed, tried, c, k) && c in closed && c < |words| && AllDistinct(words)
    requires Competes(p, words[c] + [k])
    ensures words[c] + [k] !in tried && |tried + {words[c] + [k]}| == |tried| + 1
    ensures Tally(p, words, closed, tried + {words[c] + [k]}, c, k + 1)
  {
    hide Competes;
    var t := words[c] + [k];
    assert t[..|t| - 1] == words[c] && t[|t| - 1] == k;
    if t in tried {
      var i :| i in closed && i < |words| && words[i] == t[..|t| - 1] && (i == c ==> t[|t| - 1] < k);
    }
    forall u | u in tried + {t}
      ensures Offspring(words, closed, u, c, k + 1)
    {
      if u != t {
        assert Offspring(words, closed, u, c, k);
      }
    }
  }

  // ---- The first waiting node leads -----------------------------------------

  lemma NodeScore(p: Problem, v: View, i: nat)
    requires WellPosed(p) && NodesOk(p, v) && i < |v.arena|
    ensures Admissible(p.def, p.policy, p.start, v.words[i]) && |v.words[i]| <= EffectiveBound(p)
    ensures ScoreOf(p.def, p.policy, p.start, v.words[i]) == ScoreAt(p, v, i)
  {
    hide Replay, Execute;
    assert NodeOk(p, v.arena[i], v.words[i]);
    ReplayIsExecute(p.def, p.policy, p.start, v.words[i]);
  }

  lemma SettledParts(p: Problem, v: View)
    requires Settled(p, v)
    ensures WellPosed(p) && Shaped(p.def, p.start) && NodesOk(p, v) && Indexed(v) && FrontierOk(p, v) && LinksOk(v)
    ensures forall x :: 0 <= x < |v.frontier| ==> v.frontier[x] < |v.arena| && v.frontier[x] !in v.closed
    ensures forall i :: i in v.closed ==> i < |v.words|
  {
    hide Better, ScoreAt, NodeOk, LinkOk, CoverageOk, VisitedOk, Represented, KeyOf, GoalsMet;
  }

  /** Before a plan is found, the first waiting node is at least as good as every plan. */
  lemma FirstLeads(p: Problem, v: View)
    requires Settled(p, v) && |v.frontier| > 0
    ensures v.frontier[0] < |v.words| && Leading(p, v.words[v.frontier[0]])
  {
    hide Better, AtLeastAsGood, ScoreAt, ScoreOf, GoalsMet, Execute, Settled, NodesOk, FrontierOk, EffectiveBound;
    var c := v.frontier[0];
    SettledParts(p, v);
    NodeScore(p, v, c);
    forall w | IsPlan(p.def, p.policy, p.start, w)
      ensures AtLeastAsGood(ScoreAt(p, v, c), ScoreOf(p.def, p.policy, p.start, w))
    {
      PlanIsAhead(p, v, w);
      FirstIsBest(p, v, ScoreOf(p.def, p.policy, p.start, w));
    }
  }

  // A successor of a leading node competes.
  lemma SuccessorCompetes(p: Problem, v: View, c: nat, k: nat, d: Config)
    requires WellPosed(p) && Shaped(p.def, p.start) && IsSuccessor(p, v, c, k, d)
    requires v.arena[c].depth < EffectiveBound(p) && Leading(p, v.words[c])
    ensures Competes(p, v.words[c] + [k])
  {
    hide Advance, NodeOk, Leading;
    var w := v.words[c] + [k];
    assert w[..|w| - 1] == v.words[c];
    NextIsAdmissible(p, v, c, k, d);
  }

  lemma NextIsAdmissible(p: Problem, v: View, c: nat, k: nat, d: Config)
    requires Shaped(p.def, p.start) && IsSuccessor(p, v, c, k, d)
    ensures Admissible(p.def, p.policy, p.start, v.words[c] + [k]) && |v.words[c]| == v.arena[c].depth
  {
    hide Advance, Replay, Execute;
    assert NodeOk(p, v.arena[c], v.words[c]);
    ReplaySnoc(p, v.words[c], k);
    ReplayIsExecute(p.def, p.policy, p.start, v.words[c] + [k]);
  }

  // ---- Too many -------------------------------------------------------------

  function WordsOf(words: seq<seq<nat>>, s: set<nat>): set<seq<nat>>
    requires forall i :: i in s ==> i < |words|
  {
    set i | i in s :: words[i]
  }

  lemma {:induction false} AsManyWords(words: seq<seq<nat>>, s: set<nat>)
    requires AllDistinct(words) && forall i :: i in s ==> i < |words|
    ensures |WordsOf(words, s)| == |s|
  {
    if s != {} {
      var x :| x in s;
      var rest := s - {x};
      AsManyWords(words, rest);
      forall i | i in rest
        ensures words[i] != words[x]
      {
        assert if i < x then words[i] != words[x] else words[x] != words[i];
      }
      assert WordsOf(words, s) == WordsOf(words, rest) + {words[x]};
    }
  }

  lemma NodesCompete(p: Problem, words: seq<seq<nat>>, closed: set<nat>, tried: set<seq<nat>>, c: nat, k: nat,
                     s: set<nat>)
    requires Shaped(p.def, p.start) && Tally(p, words, closed, tried, c, k) && AllDistinct(words)
    requires forall i :: i in s ==> i < |words|
    ensures AllCompete(p, WordsOf(words, s)) && |WordsOf(words, s)| == |s|
  {
    hide Competes, Offspring;
    NothingCompetes(p);
    AsManyWords(words, s);
  }

  function Entries(list: seq<nat>): set<nat> {
    set i | i in list
  }

  lemma {:induction false} AsManyEntries(list: seq<nat>)
    requires forall x, y :: 0 <= x < y < |list| ==> list[x] != list[y]
    ensures |Entries(list)| == |list|
  {
    if |list| > 0 {
      var front, last := list[..|list| - 1], list[|list| - 1];
      AsManyEntries(front);
      assert list == front + [last];
      assert Entries(list) == Entries(front) + {last};
      assert last !in front;
    }
  }

  /** One more node to expand than the policy allows. */
  lemma TooManyExpanded(p: Problem, v: View, tried: set<seq<nat>>, c: nat)
    requires Shaped(p.def, p.start) && Indexed(v) && LinksOk(v)
    requires Tally(p, v.words, v.closed, tried, |v.words|, 0)
    requires (forall i :: i in v.closed ==> i < |v.words|) && c < |v.words| && c !in v.closed
    requires |v.closed| >= p.policy.maxNodesExpanded
    ensures Crowded(p)
  {
    hide Tally, AllCompete, LinkOk;
    NodesCompete(p, v.words, v.closed, tried, |v.words|, 0, v.closed + {c});
    CrowdedBy(p, WordsOf(v.words, v.closed + {c}));
  }

  /** One more sequence generated than the policy allows. */
  lemma TooManyGenerated(p: Problem, words: seq<seq<nat>>, closed: set<nat>, tried: set<seq<nat>>, c: nat, k: nat)
    requires Tally(p, words, closed, tried, c, k) && c in closed && c < |words| && AllDistinct(words)
    requires Competes(p, words[c] + [k]) && |tried| >= p.policy.maxGeneratedStates
    ensures Crowded(p)
  {
    hide Competes, Offspring;
    TallyGrows(p, words, closed, tried, c, k);
    CrowdedBy(p, tried + {words[c] + [k]});
  }

  /** More nodes waiting than the policy allows. */
  lemma TooManyWaiting(p: Problem, v: View, tried: set<seq<nat>>, c: nat, k: nat)
    requires Shaped(p.def, p.start) && Indexed(v) && LinksOk(v) && FrontierOk(p, v)
    requires Tally(p, v.words, v.closed, tried, c, k)
    requires |v.frontier| > p.policy.maxFrontierEntries
    ensures Crowded(p)
  {
    hide Tally, AllCompete, LinkOk, ScoreAt;
    forall x, y | 0 <= x < y < |v.frontier|
      ensures v.frontier[x] != v.frontier[y]
    {
      BetterAsymmetric(ScoreAt(p, v, v.frontier[x]), ScoreAt(p, v, v.frontier[y]));
    }
    AsManyEntries(v.frontier);
    var waiting := Entries(v.frontier);
    NodesCompete(p, v.words, v.closed, tried, c, k, waiting);
    CrowdedBy(p, WordsOf(v.words, waiting));
  }
}
