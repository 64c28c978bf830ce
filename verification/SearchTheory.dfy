/** The invariant of the uniform-cost search and what it implies.

    A snapshot holds what the search keeps (arena, visited map, ordered frontier) plus
    two ghost companions: the action sequence of every arena node and the set of nodes
    that have been expanded.  The lemmas show that each kind of loop step keeps the
    invariant, that under it some frontier node is at least as good as any sequence not
    yet accounted for, and hence that the first goal node popped is optimal and an empty
    frontier means there is no plan. */
module SearchTheory {
  import opened Ints
  import opened Domain
  import opened Objectives
  import opened Dynamics
  import opened Holds
  import opened Canonical
  import opened Keys
  import opened Problems

  datatype Node = Node(
    config: Config,
    parent: Option<nat>,
    action: nat,
    depth: nat,
    incompleteness: nat,
    objective: Objective)

  datatype View = View(
    arena: seq<Node>,
    words: seq<seq<nat>>,
    visited: map<Bytes, nat>,
    frontier: seq<nat>,
    closed: set<nat>)

  function EffectiveBound(p: Problem): nat {
    if OccurrenceBound(p.def) < p.policy.maxPlanSteps then OccurrenceBound(p.def) else p.policy.maxPlanSteps
  }

  // ---- Scores ---------------------------------------------------------------

  predicate Indexed(v: View) {
    |v.arena| == |v.words| > 0
  }

  function ScoreAt(p: Problem, v: View, i: nat): Score
    requires Indexed(v) && i < |v.arena|
  {
    Score(v.arena[i].objective, Encoding(p.def, v.words[i]))
  }

  // The score a child of node i would have through action a into configuration d.
  function ChildScore(p: Problem, v: View, i: nat, a: nat, d: Config): Score
    requires Indexed(v) && i < |v.arena| && a < |p.def.actions|
    requires Shaped(p.def, v.arena[i].config.state) && Shaped(p.def, d.state)
  {
    Extend(ScoreAt(p, v, i), StepCost(p.def, v.arena[i].config.state, d.state, a), IdOf(p.def, a))
  }

  // ---- The invariant --------------------------------------------------------

  // A node is the replay of its word.
  ghost predicate NodeOk(p: Problem, n: Node, w: seq<nat>)
    requires Shaped(p.def, p.start)
  {
    && Replay(p.def, p.policy, p.start, w) == Some(Progress(n.config, n.objective))
    && n.depth == |w| <= EffectiveBound(p)
    && n.incompleteness == Incompleteness(p.def, n.config.state)
  }

  ghost predicate NodesOk(p: Problem, v: View)
    requires Shaped(p.def, p.start)
  {
    && Indexed(v)
    && (forall i :: 0 <= i < |v.arena| ==> NodeOk(p, v.arena[i], v.words[i]))
  }

  ghost predicate LinkOk(v: View, i: nat)
    requires Indexed(v) && i < |v.arena|
  {
    match v.arena[i].parent
    case None => v.words[i] == []
    case Some(q) => q < i && v.words[i] == v.words[q] + [v.arena[i].action] && q in v.closed
  }

  ghost predicate LinksOk(v: View)
    requires Indexed(v)
  {
    && v.arena[0].parent.None?
    && (forall i :: 0 <= i < |v.arena| ==> LinkOk(v, i))
    && (forall i, j :: 0 <= i < j < |v.arena| ==> v.words[i] != v.words[j])
  }

  ghost predicate VisitedOk(v: View)
    requires Indexed(v)
  {
    && (forall k :: k in v.visited ==> v.visited[k] < |v.arena|)
    && (forall k :: k in v.visited ==> KeyOf(v.arena[v.visited[k]].config) == k)
    && (forall k :: k in v.visited ==> v.visited[k] in v.frontier || v.visited[k] in v.closed)
    && (forall i :: 0 <= i < |v.arena| ==> KeyOf(v.arena[i].config) in v.visited)
  }

  // The node that represents the configuration of node i is at least as good as node i.
  ghost predicate Represented(p: Problem, v: View, i: nat)
    requires Indexed(v) && i < |v.arena|
  {
    var key := KeyOf(v.arena[i].config);
    key in v.visited && v.visited[key] < |v.arena| && AtLeastAsGood(ScoreAt(p, v, v.visited[key]), ScoreAt(p, v, i))
  }

  ghost predicate FrontierOk(p: Problem, v: View)
    requires Indexed(v)
  {
    && (forall x :: 0 <= x < |v.frontier| ==> v.frontier[x] < |v.arena| && v.frontier[x] !in v.closed)
    && (forall x, y :: 0 <= x < y < |v.frontier| ==>
          Better(ScoreAt(p, v, v.frontier[x]), ScoreAt(p, v, v.frontier[y])))
  }

  // Expanded nodes are not goals, still represent their configuration, and come before
  // everything that waits.
  ghost predicate ClosedOk(p: Problem, v: View)
    requires Indexed(v)
  {
    && (forall i :: i in v.closed ==> i < |v.arena|)
    && (forall i :: i in v.closed ==> Shaped(p.def, v.arena[i].config.state))
    && (forall i :: i in v.closed ==> !GoalsMet(p.def, v.arena[i].config.state))
    && (forall i :: i in v.closed ==>
          KeyOf(v.arena[i].config) in v.visited && v.visited[KeyOf(v.arena[i].config)] == i)
    && (forall i, x :: i in v.closed && 0 <= x < |v.frontier| && v.frontier[x] < |v.arena| ==>
          Better(ScoreAt(p, v, i), ScoreAt(p, v, v.frontier[x])))
  }

  // The successor of node i through action a is represented at least as well as through i.
  ghost predicate Covered(p: Problem, v: View, i: nat, a: nat)
    requires Indexed(v) && i < |v.arena| && Shaped(p.def, v.arena[i].config.state)
  {
    match Advance(p.def, p.policy, v.arena[i].config, a)
    case None => true
    case Some(d) =>
      && KeyOf(d) in v.visited
      && v.visited[KeyOf(d)] < |v.arena|
      && AtLeastAsGood(ScoreAt(p, v, v.visited[KeyOf(d)]), ChildScore(p, v, i, a, d))
  }

  // While node c is being expanded, only its first k actions have been tried.
  ghost predicate CoverageOk(p: Problem, v: View, c: nat, k: nat)
    requires Indexed(v)
  {
    && (forall i: nat, a: nat ::
          (i in v.closed && i < |v.arena| && Shaped(p.def, v.arena[i].config.state)
           && v.arena[i].depth < EffectiveBound(p) && (i == c ==> a < k))
          ==> Covered(p, v, i, a))
    && (forall j :: 0 <= j < |v.arena| && v.arena[j].parent == Some(c) ==> v.arena[j].action < k)
  }

  ghost predicate Core(p: Problem, v: View) {
    && WellPosed(p)
    && NodesOk(p, v)
    && v.arena[0].config == Config(p.start, []) && v.arena[0].objective == ZERO
    && LinksOk(v)
    && VisitedOk(v)
    && Represented(p, v, 0)
    && FrontierOk(p, v)
    && ClosedOk(p, v)
  }

  // Between two expansions: every expanded node is fully covered.
  ghost predicate Settled(p: Problem, v: View) {
    && Core(p, v)
    && CoverageOk(p, v, |v.arena|, |p.def.actions|)
  }

  ghost predicate Expanding(p: Problem, v: View, c: nat, k: nat) {
    && Core(p, v)
    && c in v.closed
    && v.arena[c].depth < EffectiveBound(p)
    && CoverageOk(p, v, c, k)
  }

  // ---- Start ----------------------------------------------------------------

  function RootNode(p: Problem): Node
    requires Shaped(p.def, p.start)
  {
    Node(Config(p.start, []), None, 0, 0, Incompleteness(p.def, p.start), ZERO)
  }

  function InitialView(p: Problem): View
    requires Shaped(p.def, p.start)
  {
    View([RootNode(p)], [[]], map[KeyOf(Config(p.start, [])) := 0], [0], {})
  }

  lemma InitiallySettled(p: Problem)
    requires WellPosed(p)
    ensures Settled(p, InitialView(p))
  {
    hide KeyOf;
  }

  // ---- Node facts -----------------------------------------------------------

  lemma NodeProper(p: Problem, v: View, i: nat)
    requires WellPosed(p) && NodesOk(p, v) && i < |v.arena|
    ensures Proper(p, v.arena[i].config)
  {
    hide Replay;
    assert NodeOk(p, v.arena[i], v.words[i]);
    ReplayProper(p, v.words[i]);
  }

  // Nodes that share a key share their configuration, so their encodings are equally long.
  lemma SameKeyNodes(p: Problem, v: View, i: nat, j: nat)
    requires WellPosed(p) && NodesOk(p, v) && i < |v.arena| && j < |v.arena|
    requires KeyOf(v.arena[i].config) == KeyOf(v.arena[j].config)
    ensures v.arena[i].config == v.arena[j].config
    ensures |v.words[i]| == |v.words[j]|
  {
    hide Replay;
    hide KeyOf;
    NodeProper(p, v, i);
    NodeProper(p, v, j);
    ProperKeys(p, v.arena[i].config, v.arena[j].config);
    assert NodeOk(p, v.arena[i], v.words[i]) && NodeOk(p, v.arena[j], v.words[j]);
    SameStateSameLength(p, v.words[i], v.words[j]);
  }

  // Different nodes have different scores: no two sequences share an encoding.
  lemma ScoresDistinct(p: Problem, v: View, i: nat, j: nat)
    requires WellPosed(p) && NodesOk(p, v) && LinksOk(v) && i < |v.arena| && j < |v.arena| && i != j
    ensures ScoreAt(p, v, i) != ScoreAt(p, v, j)
  {
    hide Replay;
    assert NodeOk(p, v.arena[i], v.words[i]) && NodeOk(p, v.arena[j], v.words[j]);
    ReplayIsExecute(p.def, p.policy, p.start, v.words[i]);
    ReplayIsExecute(p.def, p.policy, p.start, v.words[j]);
    AdmissibleIsWord(p.def, p.policy, p.start, v.words[i]);
    AdmissibleIsWord(p.def, p.policy, p.start, v.words[j]);
    if i < j {
      assert v.words[i] != v.words[j];
    } else {
      assert v.words[j] != v.words[i];
    }
    if Encoding(p.def, v.words[i]) == Encoding(p.def, v.words[j]) {
      EncodingInjective(p.def, v.words[i], v.words[j]);
    }
  }

  // ---- Taking the first frontier node ---------------------------------------

  function PopView(v: View): View
    requires |v.frontier| > 0
  {
    v.(frontier := v.frontier[1..])
  }

  function CloseView(v: View): View
    requires |v.frontier| > 0
  {
    v.(frontier := v.frontier[1..], closed := v.closed + {v.frontier[0]})
  }

  lemma KeepNodes(p: Problem, v: View, t: View)
    requires Shaped(p.def, p.start) && NodesOk(p, v)
    requires t.arena == v.arena && t.words == v.words
    ensures NodesOk(p, t)
  {
    hide NodeOk;
  }

  lemma KeepLinks(v: View, t: View)
    requires Indexed(v) && LinksOk(v)
    requires t.arena == v.arena && t.words == v.words && v.closed <= t.closed
    ensures LinksOk(t)
  {
    forall i | 0 <= i < |t.arena|
      ensures LinkOk(t, i)
    {
      assert LinkOk(v, i);
    }
  }

  lemma PopFrontier(p: Problem, v: View, t: View)
    requires Indexed(v) && FrontierOk(p, v) && |v.frontier| > 0
    requires t == PopView(v) || t == CloseView(v)
    ensures FrontierOk(p, t)
    ensures v.frontier[0] !in t.frontier
    ensures forall x :: 0 <= x < |t.frontier| ==>
              t.frontier[x] < |v.arena| && Better(ScoreAt(p, v, v.frontier[0]), ScoreAt(p, v, t.frontier[x]))
  {
    hide Better;
    forall x | 0 <= x < |t.frontier|
      ensures t.frontier[x] < |t.arena| && t.frontier[x] !in v.closed
      ensures Better(ScoreAt(p, v, v.frontier[0]), ScoreAt(p, v, t.frontier[x]))
      ensures t.frontier[x] != v.frontier[0]
    {
      assert t.frontier[x] == v.frontier[x + 1];
      assert 0 < x + 1 < |v.frontier|;
      if t.frontier[x] == v.frontier[0] {
        BetterAsymmetric(ScoreAt(p, v, v.frontier[0]), ScoreAt(p, v, v.frontier[x + 1]));
      }
    }
    forall x, y | 0 <= x < y < |t.frontier|
      ensures Better(ScoreAt(p, t, t.frontier[x]), ScoreAt(p, t, t.frontier[y]))
    {
      assert t.frontier[x] == v.frontier[x + 1] && t.frontier[y] == v.frontier[y + 1];
      assert 0 <= x + 1 < y + 1 < |v.frontier|;
    }
  }

  lemma PopVisited(p: Problem, v: View, t: View)
    requires Indexed(v) && VisitedOk(v) && FrontierOk(p, v) && |v.frontier| > 0
    requires t == PopView(v) || t == CloseView(v)
    requires t == PopView(v) ==> v.visited[KeyOf(v.arena[v.frontier[0]].config)] != v.frontier[0]
    ensures VisitedOk(t)
  {
    hide KeyOf, Better;
    forall k | k in t.visited
      ensures t.visited[k] in t.frontier || t.visited[k] in t.closed
    {
      assert KeyOf(v.arena[v.visited[k]].config) == k;
      assert v.frontier == [v.frontier[0]] + t.frontier;
    }
  }

  lemma PopClosed(p: Problem, v: View)
    requires Indexed(v) && ClosedOk(p, v) && |v.frontier| > 0
    ensures ClosedOk(p, PopView(v))
  {
    hide KeyOf;
    hide GoalsMet;
    hide Better;
    var t := PopView(v);
    forall i, x | i in t.closed && 0 <= x < |t.frontier| && t.frontier[x] < |t.arena|
      ensures Better(ScoreAt(p, t, i), ScoreAt(p, t, t.frontier[x]))
    {
      assert t.frontier[x] == v.frontier[x + 1];
    }
  }

  // A node that no longer represents its configuration is dropped.
  lemma DropStale(p: Problem, v: View)
    requires Settled(p, v) && |v.frontier| > 0
    requires v.visited[KeyOf(v.arena[v.frontier[0]].config)] != v.frontier[0]
    ensures Settled(p, PopView(v))
  {
    hide KeyOf, NodeOk, LinksOk, VisitedOk, FrontierOk, ClosedOk, CoverageOk;
    var t := PopView(v);
    KeepNodes(p, v, t);
    KeepLinks(v, t);
    PopFrontier(p, v, t);
    PopVisited(p, v, t);
    PopClosed(p, v);
    SameCoverage(p, v, t, |v.arena|, |p.def.actions|);
  }

  // Coverage only looks at the arena, the words, the visited map and the closed set.
  lemma SameCoverage(p: Problem, v: View, t: View, c: nat, k: nat)
    requires Indexed(v) && CoverageOk(p, v, c, k)
    requires t == v.(frontier := t.frontier)
    ensures CoverageOk(p, t, c, k)
  {
    hide KeyOf;
    hide Advance;
    hide AtLeastAsGood;
    forall i: nat, a: nat |
      i in t.closed && i < |t.arena| && Shaped(p.def, t.arena[i].config.state)
      && t.arena[i].depth < EffectiveBound(p) && (i == c ==> a < k)
      ensures Covered(p, t, i, a)
    {
      assert Covered(p, v, i, a);
    }
  }

  // While c is expanded, every closed node is at least as good as c.
  ghost predicate LastClosed(p: Problem, v: View, c: nat)
    requires Indexed(v)
  {
    c < |v.arena| && forall i :: i in v.closed && i < |v.arena| ==> AtLeastAsGood(ScoreAt(p, v, i), ScoreAt(p, v, c))
  }

  lemma CloseClosed(p: Problem, v: View)
    requires Indexed(v) && ClosedOk(p, v) && FrontierOk(p, v) && |v.frontier| > 0
    requires var c := v.frontier[0];
             && Shaped(p.def, v.arena[c].config.state)
             && !GoalsMet(p.def, v.arena[c].config.state)
             && KeyOf(v.arena[c].config) in v.visited
             && v.visited[KeyOf(v.arena[c].config)] == c
    ensures ClosedOk(p, CloseView(v))
    ensures LastClosed(p, CloseView(v), v.frontier[0])
  {
    hide KeyOf, GoalsMet, Better;
    var c, t := v.frontier[0], CloseView(v);
    PopFrontier(p, v, t);
    forall i, x | i in t.closed && 0 <= x < |t.frontier| && t.frontier[x] < |t.arena|
      ensures Better(ScoreAt(p, t, i), ScoreAt(p, t, t.frontier[x]))
    {
      assert t.frontier[x] == v.frontier[x + 1];
    }
    assert v.frontier[0] == c;
  }

  // Moving c to the closed set leaves c itself to be covered, from its first action on.
  lemma CloseCoverage(p: Problem, v: View)
    requires Indexed(v) && FrontierOk(p, v) && LinksOk(v) && |v.frontier| > 0
    requires CoverageOk(p, v, |v.arena|, |p.def.actions|)
    ensures CoverageOk(p, CloseView(v), v.frontier[0], 0)
    ensures v.arena[v.frontier[0]].depth >= EffectiveBound(p) ==>
              CoverageOk(p, CloseView(v), |v.arena|, |p.def.actions|)
  {
    hide KeyOf, Advance, AtLeastAsGood, Better;
    var c, t := v.frontier[0], CloseView(v);
    forall i: nat, a: nat |
      i in v.closed && i < |t.arena| && Shaped(p.def, t.arena[i].config.state)
      && t.arena[i].depth < EffectiveBound(p)
      ensures Covered(p, t, i, a)
    {
      assert Covered(p, v, i, a);
    }
    forall j | 0 <= j < |v.arena|
      ensures v.arena[j].parent != Some(c)
      ensures v.arena[j].parent != Some(|v.arena|)
    {
      assert LinkOk(v, j);
    }
  }

  /** The best waiting node, when it is current and not a goal, becomes expanded. */
  lemma Close(p: Problem, v: View)
    requires Settled(p, v) && |v.frontier| > 0
    requires v.visited[KeyOf(v.arena[v.frontier[0]].config)] == v.frontier[0]
    requires Shaped(p.def, v.arena[v.frontier[0]].config.state)
    requires !GoalsMet(p.def, v.arena[v.frontier[0]].config.state)
    ensures Core(p, CloseView(v)) && LastClosed(p, CloseView(v), v.frontier[0])
    ensures v.arena[v.frontier[0]].depth >= EffectiveBound(p) ==> Settled(p, CloseView(v))
    ensures v.arena[v.frontier[0]].depth < EffectiveBound(p) ==> Expanding(p, CloseView(v), v.frontier[0], 0)
  {
    hide KeyOf, NodeOk, GoalsMet, LinkOk, CoverageOk;
    var t := CloseView(v);
    KeepNodes(p, v, t);
    KeepLinks(v, t);
    PopFrontier(p, v, t);
    PopVisited(p, v, t);
    CloseClosed(p, v);
    CloseCoverage(p, v);
    CloseParts(p, v, t);
  }

  lemma CloseParts(p: Problem, v: View, t: View)
    requires Core(p, v) && |v.frontier| > 0 && t == CloseView(v)
    requires NodesOk(p, t) && LinksOk(t) && FrontierOk(p, t) && VisitedOk(t) && ClosedOk(p, t)
    ensures Core(p, t) && v.frontier[0] in t.closed
  {
    hide KeyOf, NodeOk, LinksOk, FrontierOk, VisitedOk, ClosedOk, WellPosed;
  }

  // ---- Trying one action ----------------------------------------------------

  lemma NextAction(p: Problem, v: View, c: nat, k: nat)
    requires Indexed(v) && CoverageOk(p, v, c, k)
    requires c < |v.arena| && Shaped(p.def, v.arena[c].config.state) && Covered(p, v, c, k)
    ensures CoverageOk(p, v, c, k + 1)
  {
    hide Covered;
  }

  /** An action that the transition refuses needs nothing. */
  lemma RefusedAction(p: Problem, v: View, c: nat, k: nat)
    requires Expanding(p, v, c, k) && Shaped(p.def, v.arena[c].config.state)
    requires Advance(p.def, p.policy, v.arena[c].config, k).None?
    ensures Expanding(p, v, c, k + 1)
  {
    hide CoverageOk, Advance, LinksOk, VisitedOk, FrontierOk, NodeOk, GoalsMet, KeyOf;
    NextAction(p, v, c, k);
  }

  /** A successor that is known at least as well already is dropped. */
  lemma DominatedChild(p: Problem, v: View, c: nat, k: nat)
    requires Expanding(p, v, c, k) && Shaped(p.def, v.arena[c].config.state)
    requires Advance(p.def, p.policy, v.arena[c].config, k).Some?
    requires var d := Advance(p.def, p.policy, v.arena[c].config, k).value;
             && k < |p.def.actions|
             && KeyOf(d) in v.visited
             && v.visited[KeyOf(d)] < |v.arena|
             && AtLeastAsGood(ScoreAt(p, v, v.visited[KeyOf(d)]), ChildScore(p, v, c, k, d))
    ensures Expanding(p, v, c, k + 1)
  {
    hide CoverageOk, Advance, AtLeastAsGood, KeyOf, LinksOk, VisitedOk, FrontierOk, NodeOk, GoalsMet;
    NextAction(p, v, c, k);
  }

  // ---- Adding a child -------------------------------------------------------

  function ChildNode(p: Problem, v: View, c: nat, k: nat, d: Config): Node
    requires Indexed(v) && c < |v.arena| && k < |p.def.actions|
    requires Shaped(p.def, v.arena[c].config.state) && Shaped(p.def, d.state)
  {
    Node(d, Some(c), k, v.arena[c].depth + 1, Incompleteness(p.def, d.state),
         Plus(v.arena[c].objective, StepCost(p.def, v.arena[c].config.state, d.state, k)))
  }

  // The snapshot after the successor d of c through action k is filed and queued at pos.
  function AddView(p: Problem, v: View, c: nat, k: nat, d: Config, pos: nat): View
    requires Indexed(v) && c < |v.arena| && k < |p.def.actions| && pos <= |v.frontier|
    requires Shaped(p.def, v.arena[c].config.state) && Shaped(p.def, d.state)
  {
    View(v.arena + [ChildNode(p, v, c, k, d)],
         v.words + [v.words[c] + [k]],
         v.visited[KeyOf(d) := |v.arena|],
         v.frontier[..pos] + [|v.arena|] + v.frontier[pos..],
         v.closed)
  }

  ghost predicate IsSuccessor(p: Problem, v: View, c: nat, k: nat, d: Config)
    requires Shaped(p.def, p.start)
  {
    && NodesOk(p, v)
    && c < |v.arena| && k < |p.def.actions|
    && Shaped(p.def, v.arena[c].config.state) && Shaped(p.def, d.state)
    && Advance(p.def, p.policy, v.arena[c].config, k) == Some(d)
  }

  // The successor is new, or strictly better than what represents its configuration.
  ghost predicate Improves(p: Problem, v: View, d: Config, score: Score)
    requires Indexed(v)
  {
    KeyOf(d) in v.visited ==>
      v.visited[KeyOf(d)] < |v.arena| && Better(score, ScoreAt(p, v, v.visited[KeyOf(d)]))
  }

  ghost predicate QueuedAt(p: Problem, v: View, score: Score, pos: nat)
    requires Indexed(v)
  {
    && pos <= |v.frontier|
    && (forall x :: 0 <= x < |v.frontier| ==> v.frontier[x] < |v.arena|)
    && (forall x :: 0 <= x < pos ==> Better(ScoreAt(p, v, v.frontier[x]), score))
    && (forall x :: pos <= x < |v.frontier| ==> Better(score, ScoreAt(p, v, v.frontier[x])))
  }

  lemma ChildIsWorse(p: Problem, v: View, c: nat, k: nat, d: Config)
    requires Indexed(v) && c < |v.arena| && k < |p.def.actions|
    requires Shaped(p.def, v.arena[c].config.state) && Shaped(p.def, d.state)
    ensures Better(ScoreAt(p, v, c), ChildScore(p, v, c, k, d))
  {
    hide Better, Extend;
    ExtensionIsWorse(ScoreAt(p, v, c), StepCost(p.def, v.arena[c].config.state, d.state, k), IdOf(p.def, k));
  }

  lemma AddScores(p: Problem, v: View, c: nat, k: nat, d: Config, pos: nat)
    requires Indexed(v) && c < |v.arena| && k < |p.def.actions| && pos <= |v.frontier|
    requires Shaped(p.def, v.arena[c].config.state) && Shaped(p.def, d.state)
    ensures var t := AddView(p, v, c, k, d, pos);
            && Indexed(t)
            && (forall i: nat :: i < |v.arena| ==> ScoreAt(p, t, i) == ScoreAt(p, v, i))
            && ScoreAt(p, t, |v.arena|) == ChildScore(p, v, c, k, d)
  {
    hide KeyOf, StepCost, Incompleteness;
    EncodingSnoc(p.def, v.words[c], k);
  }

  lemma AddNodes(p: Problem, v: View, c: nat, k: nat, d: Config, pos: nat)
    requires Shaped(p.def, p.start) && IsSuccessor(p, v, c, k, d) && pos <= |v.frontier|
    requires v.arena[c].depth < EffectiveBound(p)
    ensures NodesOk(p, AddView(p, v, c, k, d, pos))
  {
    hide KeyOf, StepCost, Incompleteness, Advance, Replay;
    var t := AddView(p, v, c, k, d, pos);
    assert NodeOk(p, v.arena[c], v.words[c]);
    ReplaySnoc(p, v.words[c], k);
    forall i | 0 <= i < |t.arena|
      ensures NodeOk(p, t.arena[i], t.words[i])
    {
      if i < |v.arena| {
        assert NodeOk(p, v.arena[i], v.words[i]);
      }
    }
  }

  // The word of the child is new, because only this expansion makes children of c and it
  // has not tried action k before.
  lemma WordIsNew(p: Problem, v: View, c: nat, k: nat, j: nat)
    requires Indexed(v) && LinksOk(v) && CoverageOk(p, v, c, k) && c < |v.arena| && j < |v.arena|
    ensures v.words[j] != v.words[c] + [k]
  {
    hide Covered;
    assert LinkOk(v, j);
    if v.arena[j].parent.Some? {
      var q := v.arena[j].parent.value;
      LastParts(v.words[q], v.arena[j].action, v.words[c], k);
      if q < c {
        assert v.words[q] != v.words[c];
      } else if c < q {
        assert v.words[c] != v.words[q];
      }
    }
  }

  lemma LastParts(x: seq<nat>, a: nat, y: seq<nat>, b: nat)
    ensures x + [a] == y + [b] ==> x == y && a == b
  {
    assert (x + [a])[..|x|] == x && (y + [b])[..|y|] == y;
    assert (x + [a])[|x|] == a && (y + [b])[|y|] == b;
  }

  lemma AddLinks(p: Problem, v: View, c: nat, k: nat, d: Config, pos: nat)
    requires Shaped(p.def, p.start) && IsSuccessor(p, v, c, k, d) && pos <= |v.frontier|
    requires LinksOk(v) && CoverageOk(p, v, c, k) && c in v.closed
    ensures LinksOk(AddView(p, v, c, k, d, pos))
  {
    hide KeyOf, StepCost, Incompleteness, Advance, NodeOk, CoverageOk;
    var t := AddView(p, v, c, k, d, pos);
    forall i | 0 <= i < |t.arena|
      ensures LinkOk(t, i)
    {
      if i < |v.arena| {
        assert LinkOk(v, i);
      }
    }
    forall i, j | 0 <= i < j < |t.arena|
      ensures t.words[i] != t.words[j]
    {
      if j == |v.arena| {
        WordIsNew(p, v, c, k, i);
      }
    }
  }

  lemma AddVisited(p: Problem, v: View, c: nat, k: nat, d: Config, pos: nat)
    requires Shaped(p.def, p.start) && IsSuccessor(p, v, c, k, d) && pos <= |v.frontier|
    requires VisitedOk(v)
    ensures VisitedOk(AddView(p, v, c, k, d, pos))
  {
    hide KeyOf, StepCost, Incompleteness, Advance, NodeOk;
    var t := AddView(p, v, c, k, d, pos);
    assert t.arena[|v.arena|].config == d;
    forall x | x in v.frontier
      ensures x in t.frontier
    {
      assert v.frontier == v.frontier[..pos] + v.frontier[pos..];
    }
    assert t.frontier[pos] == |v.arena|;
    forall i | 0 <= i < |t.arena|
      ensures KeyOf(t.arena[i].config) in t.visited
    {
      if i < |v.arena| {
        assert t.arena[i] == v.arena[i];
      }
    }
  }

  lemma AddFrontier(p: Problem, v: View, c: nat, k: nat, d: Config, pos: nat)
    requires Shaped(p.def, p.start) && IsSuccessor(p, v, c, k, d) && pos <= |v.frontier|
    requires FrontierOk(p, v) && QueuedAt(p, v, ChildScore(p, v, c, k, d), pos)
    requires forall i :: i in v.closed ==> i < |v.arena|
    ensures FrontierOk(p, AddView(p, v, c, k, d, pos))
  {
    var t := AddView(p, v, c, k, d, pos);
    AddScores(p, v, c, k, d, pos);
    QueueOrder(p, v, t, pos);
  }

  lemma QueueOrder(p: Problem, v: View, t: View, pos: nat)
    requires Indexed(v) && Indexed(t) && |t.arena| == |v.arena| + 1 && t.closed == v.closed
    requires forall i: nat :: i < |v.arena| ==> ScoreAt(p, t, i) == ScoreAt(p, v, i)
    requires pos <= |v.frontier| && t.frontier == v.frontier[..pos] + [|v.arena|] + v.frontier[pos..]
    requires FrontierOk(p, v) && QueuedAt(p, v, ScoreAt(p, t, |v.arena|), pos)
    requires forall i :: i in v.closed ==> i < |v.arena|
    ensures FrontierOk(p, t)
  {
    hide Better, ScoreAt;
    var n := |v.arena|;
    forall x | 0 <= x < |t.frontier|
      ensures t.frontier[x] < |t.arena| && t.frontier[x] !in t.closed
    {
      assert t.frontier[x] == if x < pos then v.frontier[x] else if x == pos then n else v.frontier[x - 1];
    }
    forall x, y | 0 <= x < y < |t.frontier|
      ensures Better(ScoreAt(p, t, t.frontier[x]), ScoreAt(p, t, t.frontier[y]))
    {
      assert t.frontier[x] == if x < pos then v.frontier[x] else if x == pos then n else v.frontier[x - 1];
      assert t.frontier[y] == if y < pos then v.frontier[y] else if y == pos then n else v.frontier[y - 1];
    }
  }

  // Expanded nodes precede the child, so the child never displaces one of them.
  lemma ClosedBeforeChild(p: Problem, v: View, c: nat, k: nat, d: Config, i: nat)
    requires Shaped(p.def, p.start) && IsSuccessor(p, v, c, k, d)
    requires LastClosed(p, v, c) && i in v.closed && i < |v.arena|
    ensures Better(ScoreAt(p, v, i), ChildScore(p, v, c, k, d))
  {
    hide Better, KeyOf, Advance, ScoreAt, ChildScore;
    ChildIsWorse(p, v, c, k, d);
    AtLeastAsGoodTransitive(ScoreAt(p, v, i), ScoreAt(p, v, c), ChildScore(p, v, c, k, d));
  }

  // An expanded node goes on representing its configuration.
  lemma ClosedKeepsKey(p: Problem, v: View, c: nat, k: nat, d: Config, pos: nat, i: nat)
    requires Shaped(p.def, p.start) && IsSuccessor(p, v, c, k, d) && pos <= |v.frontier|
    requires LastClosed(p, v, c) && i in v.closed && i < |v.arena|
    requires Improves(p, v, d, ChildScore(p, v, c, k, d))
    requires KeyOf(v.arena[i].config) in v.visited && v.visited[KeyOf(v.arena[i].config)] == i
    ensures var t := AddView(p, v, c, k, d, pos);
            && KeyOf(t.arena[i].config) in t.visited
            && t.visited[KeyOf(t.arena[i].config)] == i
  {
    hide KeyOf, StepCost, Incompleteness, Advance, NodeOk, Better, ChildScore, LastClosed;
    var t := AddView(p, v, c, k, d, pos);
    assert t.arena[i] == v.arena[i];
    ClosedBeforeChild(p, v, c, k, d, i);
    if KeyOf(v.arena[i].config) == KeyOf(d) {
      BetterAsymmetric(ScoreAt(p, v, i), ChildScore(p, v, c, k, d));
    }
  }

  lemma ClosedPrecedes(p: Problem, v: View, c: nat, k: nat, d: Config, pos: nat, i: nat, x: nat)
    requires Shaped(p.def, p.start) && IsSuccessor(p, v, c, k, d) && pos <= |v.frontier|
    requires LastClosed(p, v, c) && i in v.closed && i < |v.arena|
    requires forall y :: 0 <= y < |v.frontier| ==>
               v.frontier[y] < |v.arena| && Better(ScoreAt(p, v, i), ScoreAt(p, v, v.frontier[y]))
    requires x <= |v.frontier|
    ensures var t := AddView(p, v, c, k, d, pos);
            && Indexed(t)
            && t.frontier[x] < |t.arena|
            && Better(ScoreAt(p, t, i), ScoreAt(p, t, t.frontier[x]))
  {
    hide KeyOf, StepCost, Incompleteness, Advance, NodeOk, Better, ChildScore, LastClosed, ScoreAt;
    var t, n := AddView(p, v, c, k, d, pos), |v.arena|;
    AddScores(p, v, c, k, d, pos);
    ClosedBeforeChild(p, v, c, k, d, i);
    assert t.frontier[x] == if x < pos then v.frontier[x] else if x == pos then n else v.frontier[x - 1];
  }

  lemma AddClosed(p: Problem, v: View, c: nat, k: nat, d: Config, pos: nat)
    requires Shaped(p.def, p.start) && IsSuccessor(p, v, c, k, d)
    requires pos <= |v.frontier| && forall y :: 0 <= y < |v.frontier| ==> v.frontier[y] < |v.arena|
    requires ClosedOk(p, v) && LastClosed(p, v, c)
    requires Improves(p, v, d, ChildScore(p, v, c, k, d))
    ensures ClosedOk(p, AddView(p, v, c, k, d, pos))
  {
    hide KeyOf, StepCost, Incompleteness, Advance, NodeOk, Better, ChildScore, GoalsMet, ScoreAt, LastClosed;
    hide Improves;
    var t := AddView(p, v, c, k, d, pos);
    forall i | i in v.closed
      ensures KeyOf(t.arena[i].config) in t.visited && t.visited[KeyOf(t.arena[i].config)] == i
    {
      ClosedKeepsKey(p, v, c, k, d, pos, i);
    }
    forall i, x | i in t.closed && 0 <= x < |t.frontier| && t.frontier[x] < |t.arena|
      ensures Better(ScoreAt(p, t, i), ScoreAt(p, t, t.frontier[x]))
    {
      ClosedPrecedes(p, v, c, k, d, pos, i, x);
    }
  }

  lemma AddLastClosed(p: Problem, v: View, c: nat, k: nat, d: Config, pos: nat)
    requires Shaped(p.def, p.start) && IsSuccessor(p, v, c, k, d) && pos <= |v.frontier|
    requires LastClosed(p, v, c) && forall i :: i in v.closed ==> i < |v.arena|
    ensures LastClosed(p, AddView(p, v, c, k, d, pos), c)
  {
    hide KeyOf, StepCost, Incompleteness, Advance, NodeOk, AtLeastAsGood, ChildScore, ScoreAt;
    AddScores(p, v, c, k, d, pos);
  }

  // What represented a configuration is only ever replaced by something better.
  lemma StillRepresented(p: Problem, v: View, t: View, key: Bytes, new_key: Bytes, target: Score)
    requires Indexed(v) && Indexed(t) && |t.arena| == |v.arena| + 1
    requires forall i: nat :: i < |v.arena| ==> ScoreAt(p, t, i) == ScoreAt(p, v, i)
    requires key in v.visited && v.visited[key] < |v.arena|
    requires t.visited == v.visited[new_key := |v.arena|]
    requires key == new_key ==> Better(ScoreAt(p, t, |v.arena|), ScoreAt(p, v, v.visited[key]))
    requires AtLeastAsGood(ScoreAt(p, v, v.visited[key]), target)
    ensures key in t.visited && t.visited[key] < |t.arena|
    ensures AtLeastAsGood(ScoreAt(p, t, t.visited[key]), target)
  {
    hide Better, ScoreAt;
    if key == new_key {
      AtLeastAsGoodTransitive(ScoreAt(p, t, |v.arena|), ScoreAt(p, v, v.visited[key]), target);
    }
  }

  lemma AddCovered(p: Problem, v: View, c: nat, k: nat, d: Config, pos: nat, i: nat, a: nat)
    requires Shaped(p.def, p.start) && IsSuccessor(p, v, c, k, d) && pos <= |v.frontier|
    requires Improves(p, v, d, ChildScore(p, v, c, k, d))
    requires i < |v.arena| && Shaped(p.def, v.arena[i].config.state) && Covered(p, v, i, a)
    ensures Covered(p, AddView(p, v, c, k, d, pos), i, a)
  {
    hide KeyOf, StepCost, Incompleteness, Advance, NodeOk, Better, AtLeastAsGood, Extend;
    var t := AddView(p, v, c, k, d, pos);
    AddScores(p, v, c, k, d, pos);
    assert t.arena[i] == v.arena[i];
    match Advance(p.def, p.policy, v.arena[i].config, a) {
      case None =>
      case Some(e) =>
        StillRepresented(p, v, t, KeyOf(e), KeyOf(d), ChildScore(p, v, i, a, e));
    }
  }

  lemma CoveredByChild(p: Problem, v: View, c: nat, k: nat, d: Config, pos: nat)
    requires Shaped(p.def, p.start) && IsSuccessor(p, v, c, k, d) && pos <= |v.frontier|
    ensures Covered(p, AddView(p, v, c, k, d, pos), c, k)
  {
    hide KeyOf, StepCost, Incompleteness, Advance, NodeOk, Better, Extend;
    var t := AddView(p, v, c, k, d, pos);
    AddScores(p, v, c, k, d, pos);
    assert t.arena[c] == v.arena[c];
  }

  lemma AddCoverage(p: Problem, v: View, c: nat, k: nat, d: Config, pos: nat)
    requires Shaped(p.def, p.start) && IsSuccessor(p, v, c, k, d) && pos <= |v.frontier|
    requires Improves(p, v, d, ChildScore(p, v, c, k, d))
    requires CoverageOk(p, v, c, k) && forall i :: i in v.closed ==> i < |v.arena|
    ensures CoverageOk(p, AddView(p, v, c, k, d, pos), c, k + 1)
  {
    hide KeyOf, StepCost, Incompleteness, Advance, NodeOk, Improves, ChildScore, Covered;
    var t := AddView(p, v, c, k, d, pos);
    CoveredByChild(p, v, c, k, d, pos);
    forall i: nat, a: nat |
      (i in t.closed && i < |t.arena| && Shaped(p.def, t.arena[i].config.state)
       && t.arena[i].depth < EffectiveBound(p) && (i == c ==> a < k + 1))
      ensures Covered(p, t, i, a)
    {
      assert t.arena[i] == v.arena[i];
      if i != c || a < k {
        assert Covered(p, v, i, a);
        AddCovered(p, v, c, k, d, pos, i, a);
      }
    }
  }

  lemma RootStillRepresented(p: Problem, v: View, c: nat, k: nat, d: Config, pos: nat)
    requires Shaped(p.def, p.start) && IsSuccessor(p, v, c, k, d) && pos <= |v.frontier|
    requires Improves(p, v, d, ChildScore(p, v, c, k, d)) && Represented(p, v, 0)
    ensures Represented(p, AddView(p, v, c, k, d, pos), 0)
  {
    hide KeyOf, StepCost, Incompleteness, Advance, NodeOk, Better, AtLeastAsGood, ChildScore;
    var t := AddView(p, v, c, k, d, pos);
    AddScores(p, v, c, k, d, pos);
    assert t.arena[0] == v.arena[0];
    StillRepresented(p, v, t, KeyOf(v.arena[0].config), KeyOf(d), ScoreAt(p, v, 0));
  }

  /** Filing and queueing an improving successor keeps the invariant. */
  lemma AddChild(p: Problem, v: View, c: nat, k: nat, d: Config, pos: nat)
    requires Expanding(p, v, c, k) && LastClosed(p, v, c) && IsSuccessor(p, v, c, k, d)
    requires Improves(p, v, d, ChildScore(p, v, c, k, d))
    requires QueuedAt(p, v, ChildScore(p, v, c, k, d), pos)
    ensures Expanding(p, AddView(p, v, c, k, d, pos), c, k + 1)
    ensures LastClosed(p, AddView(p, v, c, k, d, pos), c)
  {
    hide KeyOf, StepCost, Incompleteness, Advance, NodeOk, Better, ChildScore, LinksOk, Improves, CoverageOk;
    hide GoalsMet, LastClosed, Represented;
    AddNodes(p, v, c, k, d, pos);
    AddLinks(p, v, c, k, d, pos);
    AddVisited(p, v, c, k, d, pos);
    AddFrontier(p, v, c, k, d, pos);
    AddClosed(p, v, c, k, d, pos);
    AddLastClosed(p, v, c, k, d, pos);
    AddCoverage(p, v, c, k, d, pos);
    RootStillRepresented(p, v, c, k, d, pos);
    AddParts(p, v, c, k, d, pos, AddView(p, v, c, k, d, pos));
  }

  lemma AddParts(p: Problem, v: View, c: nat, k: nat, d: Config, pos: nat, t: View)
    requires Expanding(p, v, c, k) && IsSuccessor(p, v, c, k, d) && pos <= |v.frontier|
    requires t == AddView(p, v, c, k, d, pos)
    requires NodesOk(p, t) && LinksOk(t) && VisitedOk(t) && Represented(p, t, 0)
    requires FrontierOk(p, t) && ClosedOk(p, t) && CoverageOk(p, t, c, k + 1)
    ensures Expanding(p, t, c, k + 1)
  {
    hide KeyOf, StepCost, Incompleteness, Advance, NodeOk, LinksOk, VisitedOk, Represented, FrontierOk, ClosedOk;
    hide CoverageOk, WellPosed;
    assert t.arena[c] == v.arena[c] && t.arena[0] == v.arena[0];
  }

  /** When every action of c has been tried, c is covered like any other expanded node. */
  lemma FinishExpansion(p: Problem, v: View, c: nat)
    requires Expanding(p, v, c, |p.def.actions|)
    ensures Settled(p, v)
  {
    hide Covered, LinkOk, VisitedOk, FrontierOk, Represented, NodeOk, GoalsMet, KeyOf;
    forall i: nat, a: nat |
      (i in v.closed && i < |v.arena| && Shaped(p.def, v.arena[i].config.state)
       && v.arena[i].depth < EffectiveBound(p) && (i == |v.arena| ==> a < |p.def.actions|))
      ensures Covered(p, v, i, a)
    {
      if i == c && a >= |p.def.actions| {
        NoSuchAction(p, v, i, a);
      }
    }
    forall j | 0 <= j < |v.arena|
      ensures v.arena[j].parent != Some(|v.arena|)
    {
      LinkBelow(v, j);
    }
  }

  lemma NoSuchAction(p: Problem, v: View, i: nat, a: nat)
    requires Indexed(v) && i < |v.arena| && Shaped(p.def, v.arena[i].config.state) && a >= |p.def.actions|
    ensures Covered(p, v, i, a)
  {
    hide KeyOf;
  }

  lemma LinkBelow(v: View, j: nat)
    requires Indexed(v) && LinksOk(v) && j < |v.arena|
    ensures v.arena[j].parent != Some(|v.arena|)
  {
    assert LinkOk(v, j);
  }

  lemma NodeIsWord(p: Problem, v: View, i: nat)
    requires WellPosed(p) && NodesOk(p, v) && i < |v.arena|
    ensures IsWord(p.def, v.words[i])
  {
    hide Replay, Execute;
    assert NodeOk(p, v.arena[i], v.words[i]);
    ReplayIsExecute(p.def, p.policy, p.start, v.words[i]);
    AdmissibleIsWord(p.def, p.policy, p.start, v.words[i]);
  }

  /** No frontier entry ever compares equal to a new child, so the ordered set never
      drops an insertion. */
  lemma ChildNeverTies(p: Problem, v: View, c: nat, k: nat, d: Config, j: nat)
    requires Expanding(p, v, c, k) && IsSuccessor(p, v, c, k, d) && j < |v.arena|
    ensures ScoreAt(p, v, j) != ChildScore(p, v, c, k, d)
  {
    hide KeyOf, Advance, NodeOk, LinksOk, VisitedOk, FrontierOk, CoverageOk, Represented, StepCost;
    WordIsNew(p, v, c, k, j);
    NodeIsWord(p, v, j);
    NodeIsWord(p, v, c);
    EncodingSnoc(p.def, v.words[c], k);
    if Encoding(p.def, v.words[j]) == Encoding(p.def, v.words[c] + [k]) {
      EncodingInjective(p.def, v.words[j], v.words[c] + [k]);
    }
  }

  // ---- What the invariant implies -------------------------------------------

  // Some waiting node is at least as good as the score.
  ghost predicate Ahead(p: Problem, v: View, score: Score)
    requires Indexed(v)
  {
    exists x :: 0 <= x < |v.frontier| && v.frontier[x] < |v.arena| && AtLeastAsGood(ScoreAt(p, v, v.frontier[x]), score)
  }

  // The key is represented by an expanded node at least as good as the score.
  ghost predicate Expanded(p: Problem, v: View, key: Bytes, score: Score)
    requires Indexed(v)
  {
    && key in v.visited
    && v.visited[key] < |v.arena|
    && v.visited[key] in v.closed
    && AtLeastAsGood(ScoreAt(p, v, v.visited[key]), score)
  }

  function WordScore(p: Problem, w: seq<nat>): Score
    requires Shaped(p.def, p.start) && Replay(p.def, p.policy, p.start, w).Some?
  {
    Score(Replay(p.def, p.policy, p.start, w).value.cost, Encoding(p.def, w))
  }

  ghost predicate Accounted(p: Problem, v: View, w: seq<nat>)
    requires Shaped(p.def, p.start) && Indexed(v) && Replay(p.def, p.policy, p.start, w).Some?
  {
    || Ahead(p, v, WordScore(p, w))
    || Expanded(p, v, KeyOf(Replay(p.def, p.policy, p.start, w).value.config), WordScore(p, w))
  }

  lemma WaitingOrExpanded(p: Problem, v: View, key: Bytes, score: Score)
    requires Indexed(v) && VisitedOk(v) && FrontierOk(p, v)
    requires key in v.visited && v.visited[key] < |v.arena|
    requires AtLeastAsGood(ScoreAt(p, v, v.visited[key]), score)
    ensures Ahead(p, v, score) || Expanded(p, v, key, score)
  {
    hide KeyOf, AtLeastAsGood, Better, ScoreAt;
    if v.visited[key] in v.frontier {
      var x :| 0 <= x < |v.frontier| && v.frontier[x] == v.visited[key];
    }
  }

  lemma AheadOfExtension(p: Problem, v: View, score: Score, later: Score)
    requires Indexed(v) && Ahead(p, v, score) && Better(score, later)
    ensures Ahead(p, v, later)
  {
    hide Better, ScoreAt;
    var x :| 0 <= x < |v.frontier| && v.frontier[x] < |v.arena| && AtLeastAsGood(ScoreAt(p, v, v.frontier[x]), score);
    AtLeastAsGoodTransitive(ScoreAt(p, v, v.frontier[x]), score, later);
  }

  // The score of a prolonged sequence is the score of the sequence, extended.
  lemma WordScoreSnoc(p: Problem, w: seq<nat>, a: nat)
    requires Shaped(p.def, p.start) && Replay(p.def, p.policy, p.start, w + [a]).Some?
    ensures Replay(p.def, p.policy, p.start, w).Some? && a < |p.def.actions|
    ensures var before := Replay(p.def, p.policy, p.start, w).value;
            var after := Replay(p.def, p.policy, p.start, w + [a]).value;
            && Advance(p.def, p.policy, before.config, a) == Some(after.config)
            && WordScore(p, w + [a])
               == Extend(WordScore(p, w), StepCost(p.def, before.config.state, after.config.state, a), IdOf(p.def, a))
            && Better(WordScore(p, w), WordScore(p, w + [a]))
  {
    hide Advance, StepCost, Replay;
    ReplaySnoc(p, w, a);
    EncodingSnoc(p.def, w, a);
    var before := Replay(p.def, p.policy, p.start, w).value;
    var after := Replay(p.def, p.policy, p.start, w + [a]).value;
    StepCounts(p.def, before.config.state, after.config.state, a);
    ExtensionIsWorse(WordScore(p, w), StepCost(p.def, before.config.state, after.config.state, a), IdOf(p.def, a));
  }

  lemma StepCounts(def: FabricDefinition, before: FabricState, after: FabricState, a: nat)
    requires Shaped(def, before) && Shaped(def, after) && a < |def.actions|
    ensures StepCost(def, before, after, a)[4] == 1
  {
  }

  lemma SettledCovers(p: Problem, v: View, i: nat, a: nat)
    requires Settled(p, v) && i in v.closed && i < |v.arena| && v.arena[i].depth < EffectiveBound(p)
    requires Shaped(p.def, v.arena[i].config.state) && a < |p.def.actions|
    ensures Covered(p, v, i, a)
  {
    hide Covered, LinksOk, VisitedOk, FrontierOk, Represented, NodeOk, ClosedOk, KeyOf;
  }

  // One more step after an expanded node is accounted for.
  lemma AccountStep(p: Problem, v: View, w: seq<nat>, a: nat)
    requires Settled(p, v) && Replay(p.def, p.policy, p.start, w + [a]).Some?
    requires |w| < EffectiveBound(p)
    requires Replay(p.def, p.policy, p.start, w).Some?
    requires Expanded(p, v, KeyOf(Replay(p.def, p.policy, p.start, w).value.config), WordScore(p, w))
    ensures Accounted(p, v, w + [a])
  {
    hide KeyOf, Advance, StepCost, Replay, AtLeastAsGood, Better, Extend, LinksOk, ClosedOk, CoverageOk;
    hide WordScore, ScoreAt;
    var before := Replay(p.def, p.policy, p.start, w).value;
    var j := v.visited[KeyOf(before.config)];
    RepresentativeOf(p, v, w);
    WordScoreSnoc(p, w, a);
    var after := Replay(p.def, p.policy, p.start, w + [a]).value;
    SettledCovers(p, v, j, a);
    var cost := StepCost(p.def, before.config.state, after.config.state, a);
    LengthsAgree(p, v, j, w);
    ExtensionPreservesOrder(ScoreAt(p, v, j), WordScore(p, w), cost, IdOf(p.def, a));
    var m := v.visited[KeyOf(after.config)];
    AtLeastAsGoodTransitive(ScoreAt(p, v, m), ChildScore(p, v, j, a, after.config), WordScore(p, w + [a]));
    WaitingOrExpanded(p, v, KeyOf(after.config), WordScore(p, w + [a]));
  }

  lemma LengthsAgree(p: Problem, v: View, j: nat, w: seq<nat>)
    requires Shaped(p.def, p.start) && NodesOk(p, v) && j < |v.arena| && |v.words[j]| == |w|
    requires Replay(p.def, p.policy, p.start, w).Some?
    ensures |ScoreAt(p, v, j).encoding| == |WordScore(p, w).encoding|
  {
  }

  // The node that represents where w leads has that configuration and the depth of w.
  lemma RepresentativeOf(p: Problem, v: View, w: seq<nat>)
    requires WellPosed(p) && NodesOk(p, v) && VisitedOk(v) && Replay(p.def, p.policy, p.start, w).Some?
    requires KeyOf(Replay(p.def, p.policy, p.start, w).value.config) in v.visited
    ensures var c := Replay(p.def, p.policy, p.start, w).value.config;
            var j := v.visited[KeyOf(c)];
            j < |v.arena| && v.arena[j].config == c && v.arena[j].depth == |w| == |v.words[j]|
  {
    hide KeyOf, Replay;
    var c := Replay(p.def, p.policy, p.start, w).value.config;
    var j := v.visited[KeyOf(c)];
    NodeProper(p, v, j);
    ReplayProper(p, w);
    ProperKeys(p, v.arena[j].config, c);
    assert NodeOk(p, v.arena[j], v.words[j]);
    SameStateSameLength(p, v.words[j], w);
  }

  /** Every admissible sequence within the bound is accounted for: a waiting node is at
      least as good, or the configuration it leads to was expanded at least as well. */
  lemma {:induction false} Account(p: Problem, v: View, w: seq<nat>)
    requires Settled(p, v) && Replay(p.def, p.policy, p.start, w).Some? && |w| <= EffectiveBound(p)
    ensures Accounted(p, v, w)
    decreases |w|
  {
    hide KeyOf, Replay, Better, AtLeastAsGood, LinksOk, ClosedOk, CoverageOk, VisitedOk, FrontierOk;
    if |w| == 0 {
      AccountRoot(p, v);
      assert w == [];
    } else {
      var u, a := w[..|w| - 1], w[|w| - 1];
      assert w == u + [a];
      WordScoreSnoc(p, u, a);
      Account(p, v, u);
      if Ahead(p, v, WordScore(p, u)) {
        AheadOfExtension(p, v, WordScore(p, u), WordScore(p, w));
      } else {
        AccountStep(p, v, u, a);
      }
    }
  }

  lemma AccountRoot(p: Problem, v: View)
    requires Settled(p, v)
    ensures Replay(p.def, p.policy, p.start, []).Some? && Accounted(p, v, [])
  {
    hide KeyOf, Better, AtLeastAsGood, LinksOk, ClosedOk, CoverageOk, NodeOk;
    RootScore(p, v);
    WaitingOrExpanded(p, v, KeyOf(v.arena[0].config), ScoreAt(p, v, 0));
  }

  lemma RootScore(p: Problem, v: View)
    requires Shaped(p.def, p.start) && NodesOk(p, v) && LinksOk(v)
    requires v.arena[0].config == Config(p.start, []) && v.arena[0].objective == ZERO
    ensures Replay(p.def, p.policy, p.start, []) == Some(Progress(v.arena[0].config, ZERO))
    ensures WordScore(p, []) == ScoreAt(p, v, 0)
  {
    assert LinkOk(v, 0);
    assert v.words[0] == [];
  }

  // A plan, in terms of the planner's own replay; the occurrence bound costs nothing.
  lemma PlanReplays(p: Problem, w: seq<nat>)
    requires WellPosed(p) && IsPlan(p.def, p.policy, p.start, w)
    ensures Replay(p.def, p.policy, p.start, w).Some? && |w| <= EffectiveBound(p)
    ensures WordScore(p, w) == ScoreOf(p.def, p.policy, p.start, w)
    ensures GoalsMet(p.def, Replay(p.def, p.policy, p.start, w).value.config.state)
  {
    hide Replay, Execute, GoalsMet;
    ReplayIsExecute(p.def, p.policy, p.start, w);
    LengthBound(p, w);
  }

  lemma NodeIsPlan(p: Problem, v: View, c: nat)
    requires WellPosed(p) && NodesOk(p, v) && c < |v.arena|
    requires Shaped(p.def, v.arena[c].config.state) && GoalsMet(p.def, v.arena[c].config.state)
    ensures IsPlan(p.def, p.policy, p.start, v.words[c])
    ensures ScoreOf(p.def, p.policy, p.start, v.words[c]) == ScoreAt(p, v, c)
  {
    hide Replay, Execute, GoalsMet;
    assert NodeOk(p, v.arena[c], v.words[c]);
    ReplayIsExecute(p.def, p.policy, p.start, v.words[c]);
  }

  // A plan is never hidden behind an expanded node, because no expanded node is a goal.
  lemma PlanIsAhead(p: Problem, v: View, w: seq<nat>)
    requires Settled(p, v) && IsPlan(p.def, p.policy, p.start, w)
    ensures Ahead(p, v, ScoreOf(p.def, p.policy, p.start, w))
  {
    hide KeyOf, Replay, Better, AtLeastAsGood, LinksOk, CoverageOk, FrontierOk, GoalsMet, ScoreAt, Execute, ScoreOf;
    hide WordScore, IsPlan;
    PlanReplays(p, w);
    Account(p, v, w);
    var c := Replay(p.def, p.policy, p.start, w).value.config;
    if Expanded(p, v, KeyOf(c), WordScore(p, w)) {
      RepresentativeOf(p, v, w);
    }
  }

  lemma FirstIsBest(p: Problem, v: View, score: Score)
    requires Indexed(v) && FrontierOk(p, v) && Ahead(p, v, score)
    ensures |v.frontier| > 0 && v.frontier[0] < |v.arena|
    ensures AtLeastAsGood(ScoreAt(p, v, v.frontier[0]), score)
  {
    hide Better, ScoreAt;
    var x :| 0 <= x < |v.frontier| && v.frontier[x] < |v.arena| && AtLeastAsGood(ScoreAt(p, v, v.frontier[x]), score);
    if x > 0 {
      AtLeastAsGoodTransitive(ScoreAt(p, v, v.frontier[0]), ScoreAt(p, v, v.frontier[x]), score);
    }
  }

  /** The first waiting node, when it meets every goal, is the optimal plan: over all
      admissible sequences within the policy bound, pruned or not. */
  lemma FirstGoalIsOptimal(p: Problem, v: View)
    requires Settled(p, v) && |v.frontier| > 0
    requires Shaped(p.def, v.arena[v.frontier[0]].config.state)
    requires GoalsMet(p.def, v.arena[v.frontier[0]].config.state)
    ensures IsOptimal(p.def, p.policy, p.start, v.words[v.frontier[0]])
    ensures ScoreOf(p.def, p.policy, p.start, v.words[v.frontier[0]]) == ScoreAt(p, v, v.frontier[0])
  {
    hide Better, AtLeastAsGood, ScoreAt, ScoreOf, Execute, GoalsMet, CoverageOk, LinksOk, ClosedOk, NodeOk, KeyOf;
    var c := v.frontier[0];
    NodeIsPlan(p, v, c);
    forall w | IsPlan(p.def, p.policy, p.start, w)
      ensures AtLeastAsGood(ScoreAt(p, v, c), ScoreOf(p.def, p.policy, p.start, w))
    {
      PlanIsAhead(p, v, w);
      FirstIsBest(p, v, ScoreOf(p.def, p.policy, p.start, w));
    }
  }

  /** An empty frontier proves that no plan exists. */
  lemma EmptyFrontierIsProof(p: Problem, v: View, w: seq<nat>)
    requires Settled(p, v) && |v.frontier| == 0
    ensures !IsPlan(p.def, p.policy, p.start, w)
  {
    hide IsPlan, CoverageOk, LinksOk, ClosedOk, NodeOk, KeyOf;
    if IsPlan(p.def, p.policy, p.start, w) {
      PlanIsAhead(p, v, w);
    }
  }
}
