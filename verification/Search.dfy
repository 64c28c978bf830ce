/** The planner's uniform-cost search as it runs: an arena that only grows, a visited map
    keyed by encoded configurations and an ordered frontier. */
module Search {
  import opened Ints
  import opened Domain
  import opened Objectives
  import Lex
  import opened Dynamics
  import opened Definition
  import opened Evidence
  import opened Holds
  import opened Canonical
  import opened Keys
  import opened Problems
  import opened SearchTheory
  import opened Crowding
  import opened Transition

  class Search {
    const problem: Problem
    const limits: ModelLimits
    const compiled: Compiled
    const table: ResolutionTable
    const effectiveStepBound: nat
    const stepBoundBinding: bool

    var arena: seq<Node>
    var visited: map<Bytes, nat>
    var frontier: seq<nat>

    var found: bool
    var budgetExhausted: bool
    var frontierEmptied: bool
    var accountingOverflow: bool
    var planNode: nat
    var nodesExpanded: nat
    var nodesGenerated: nat
    var reachableStates: nat

    ghost var words: seq<seq<nat>>
    ghost var closed: set<nat>
    ghost var tried: set<seq<nat>>

    ghost function Snapshot(): View
      reads this
    {
      View(arena, words, visited, frontier, closed)
    }

    ghost predicate Ready() {
      && WellPosed(problem)
      && ValidDefinition(problem.def, limits)
      && CompiledFor(problem.def, compiled)
      && effectiveStepBound == EffectiveBound(problem)
    }

    constructor (problem: Problem, limits: ModelLimits, compiled: Compiled, table: ResolutionTable)
      requires WellPosed(problem) && ValidDefinition(problem.def, limits) && CompiledFor(problem.def, compiled)
      ensures Ready()
      ensures this.problem == problem && this.table == table
      ensures stepBoundBinding ==> problem.policy.maxPlanSteps < OccurrenceBound(problem.def)
      ensures problem.policy.maxPlanSteps < OccurrenceBound(problem.def) && problem.policy.maxPlanSteps < MAX_U64 ==>
                stepBoundBinding
      ensures arena == [] && visited == map[] && frontier == [] && words == [] && closed == {}
      ensures !found && !budgetExhausted && !frontierEmptied && !accountingOverflow
      ensures nodesExpanded == 0 && nodesGenerated == 0 && tried == {}
    {
      this.problem := problem;
      this.limits := limits;
      this.compiled := compiled;
      this.table := table;
      arena, visited, frontier := [], map[], [];
      found, budgetExhausted, frontierEmptied, accountingOverflow := false, false, false, false;
      planNode, nodesExpanded, nodesGenerated, reachableStates := 0, 0, 0, 0;
      words, closed, tried := [], {}, {};
      var absolute := if compiled.overflows then MAX_U64 else compiled.stepBound;
      var limit := problem.policy.maxPlanSteps;
      effectiveStepBound := if absolute < limit then absolute else limit;
      stepBoundBinding := limit < absolute;
    }

    // ---- Encodings ----------------------------------------------------------

    /** Follows the parents back to the root and reverses what it collected. */
    method EncodingAt(node: nat) returns (encoding: seq<U64>)
      requires Indexed(Snapshot()) && LinksOk(Snapshot()) && node < |arena|
      ensures encoding == Encoding(problem.def, words[node])
    {
      hide LinksOk;
      ghost var v := Snapshot();
      encoding := [];
      var i: nat := node;
      LinkAt(v, i);
      while arena[i].parent.Some?
        invariant i < |arena|
        invariant Encoding(problem.def, words[i]) + encoding == Encoding(problem.def, words[node])
        decreases i
      {
        LinkAt(v, i);
        LinkAt(v, arena[i].parent.value);
        EncodingSnoc(problem.def, words[arena[i].parent.value], arena[i].action);
        encoding := [IdOf(problem.def, arena[i].action)] + encoding;
        i := arena[i].parent.value;
      }
      LinkAt(v, i);
    }

    method PlanEncoding() returns (encoding: seq<U64>)
      requires Indexed(Snapshot()) && LinksOk(Snapshot()) && planNode < |arena|
      ensures encoding == Encoding(problem.def, words[planNode])
    {
      encoding := EncodingAt(planNode);
    }

    method ScoreOfNode(node: nat) returns (score: Score)
      requires Indexed(Snapshot()) && LinksOk(Snapshot()) && node < |arena|
      ensures score == ScoreAt(problem, Snapshot(), node)
    {
      var encoding := EncodingAt(node);
      score := Score(arena[node].objective, encoding);
    }

    // ---- The frontier -------------------------------------------------------

    /** Where a score belongs in the ordered frontier, and whether an entry ties with it. */
    method FindSlot(score: Score) returns (pos: nat, tie: bool)
      requires Indexed(Snapshot()) && LinksOk(Snapshot()) && FrontierOk(problem, Snapshot())
      requires forall x :: 0 <= x < |frontier| ==> ScoreAt(problem, Snapshot(), frontier[x]) != score
      ensures !tie && pos <= |frontier| && QueuedAt(problem, Snapshot(), score, pos)
    {
      hide Better, ScoreAt, LinksOk;
      ghost var v := Snapshot();
      pos := 0;
      while pos < |frontier|
        invariant pos <= |frontier|
        invariant forall x :: 0 <= x < pos ==> Better(ScoreAt(problem, v, frontier[x]), score)
      {
        var other := ScoreOfNode(frontier[pos]);
        var less := ScoredLess(other, score);
        if !less {
          break;
        }
        pos := pos + 1;
      }
      tie := false;
      if pos < |frontier| {
        var other := ScoreOfNode(frontier[pos]);
        var less := ScoredLess(score, other);
        tie := !less;
        BetterTotal(score, other);
        forall x | pos <= x < |frontier|
          ensures Better(score, ScoreAt(problem, v, frontier[x]))
        {
          if x > pos {
            BetterTransitive(score, ScoreAt(problem, v, frontier[pos]), ScoreAt(problem, v, frontier[x]));
          }
        }
      }
    }

    // ---- Expanding one node -------------------------------------------------

    // No objective in the arena has left 64 bits.
    ghost predicate Fitting()
      reads this`arena
    {
      forall i :: 0 <= i < |arena| ==> Fits64(arena[i].objective)
    }

    // Every sequence generated is another one, and competes with the optimum.
    ghost predicate Tallied(c: nat, k: nat)
      reads this
    {
      nodesGenerated == |tried| && Tally(problem, words, closed, tried, c, k)
    }

    // What nodesGenerated counts: sequences that are all different and all compete.
    ghost predicate Measured()
      reads this
    {
      nodesGenerated == |tried| && AllCompete(problem, tried)
    }

    ghost predicate HasTried(c: nat, a: nat)
      reads this`words, this`tried
    {
      c < |words| && words[c] + [a] in tried
    }

    ghost predicate Promising(c: nat)
      reads this`words
    {
      c < |words| && Leading(problem, words[c])
    }

    // Why a search may stop without an answer.
    ghost predicate LimitReached()
      reads this
      requires Shaped(problem.def, problem.start)
    {
      || nodesExpanded >= problem.policy.maxNodesExpanded
      || nodesGenerated >= problem.policy.maxGeneratedStates
      || |frontier| > problem.policy.maxFrontierEntries
      || (accountingOverflow && CompetitorOverflows(problem))
    }

    ghost predicate GivesUp()
      reads this
    {
      && Shaped(problem.def, problem.start) && LimitReached()
      && (Crowded(problem) || (accountingOverflow && CompetitorOverflows(problem)))
    }

    /** The dominance test: objective first, encodings only to break a tie. */
    method ChildIsBetter(c: nat, a: nat, ghost d: Config, objective: Objective, incumbent: nat) returns (better: bool)
      requires Indexed(Snapshot()) && LinksOk(Snapshot()) && c < |arena| && incumbent < |arena|
      requires a < |problem.def.actions|
      requires Shaped(problem.def, arena[c].config.state) && Shaped(problem.def, d.state)
      requires objective == Plus(arena[c].objective, StepCost(problem.def, arena[c].config.state, d.state, a))
      ensures better <==> Better(ChildScore(problem, Snapshot(), c, a, d), ScoreAt(problem, Snapshot(), incumbent))
    {
      hide StepCost, LinksOk;
      var order := Lex.Compare(objective, arena[incumbent].objective);
      better := order < 0;
      if order == 0 {
        Lex.LessIrreflexive(objective);
        var before := EncodingAt(c);
        var other := EncodingAt(incumbent);
        var tie := Lex.Compare(before + [IdOf(problem.def, a)], other);
        better := tie < 0;
      }
    }

    ghost predicate Trying(c: nat, k: nat)
      reads this
    {
      && Expanding(problem, Snapshot(), c, k)
      && LastClosed(problem, Snapshot(), c)
      && Shaped(problem.def, arena[c].config.state)
    }

    /** Appends the child, files it under its key and queues it. */
    method FileChild(c: nat, a: nat, child: Node, key: Bytes)
      requires Ready() && Trying(c, a) && Fitting() && Fits64(child.objective)
      requires IsSuccessor(problem, Snapshot(), c, a, child.config)
      requires child == ChildNode(problem, Snapshot(), c, a, child.config)
      requires key == KeyOf(child.config)
      requires Improves(problem, Snapshot(), child.config, ChildScore(problem, Snapshot(), c, a, child.config))
      requires Tallied(c, a + 1) && HasTried(c, a) && Promising(c)
      modifies this`arena, this`words, this`visited, this`frontier
      ensures Trying(c, a + 1) && Fitting() && Tallied(c, a + 1) && Promising(c)
    {
      hide Expanding, LastClosed, Advance, StepCost, KeyOf, Better, AtLeastAsGood, WellPosed, ValidDefinition;
      hide CompiledFor, ChildScore, Improves, QueuedAt, NodesOk, ScoreAt, FrontierOk, Incompleteness, Tally, Leading;
      TallyFiles(problem, words, closed, tried, c, a + 1, words[c] + [a]);
      ghost var v, d := Snapshot(), child.config;
      ExpandingNode(problem, v, c, a);
      NoTies(problem, v, c, a, d);
      var encoding := EncodingAt(c);
      ChildScoreIs(problem, v, c, a, d, child.objective, encoding + [IdOf(problem.def, a)]);
      var pos, tie := FindSlot(Score(child.objective, encoding + [IdOf(problem.def, a)]));
      AddChild(problem, v, c, a, d, pos);
      AddKeepsNode(problem, v, c, a, d, pos);
      var index := |arena|;
      arena, words := arena + [child], words + [words[c] + [a]];
      visited := visited[key := index];
      // The ordered set drops an entry that ties with one it holds.
      if !tie {
        frontier := frontier[..pos] + [index] + frontier[pos..];
      }
      assert Snapshot() == AddView(problem, v, c, a, d, pos);
    }

    /** Counts one more generated sequence, unless as many have been as the policy allows. */
    method CountChild(c: nat, a: nat, ghost d: Config) returns (halt: bool)
      requires Shaped(problem.def, problem.start) && IsSuccessor(problem, Snapshot(), c, a, d)
      requires Trying(c, a) && Tallied(c, a) && Promising(c)
      modifies this`nodesGenerated, this`tried, this`budgetExhausted
      ensures !halt ==> Tallied(c, a + 1) && HasTried(c, a) && budgetExhausted == old(budgetExhausted)
      ensures halt ==> budgetExhausted && GivesUp()
      ensures Measured()
    {
      hide Expanding, LastClosed, WellPosed, ValidDefinition, CompiledFor, IsSuccessor, Tally, Leading, Crowded;
      hide Competes, AllCompete;
      TallyMeasures(problem, words, closed, tried, c, a);
      ghost var v := Snapshot();
      ExpandingNode(problem, v, c, a);
      ExpandingPosed(problem, v, c, a);
      SuccessorCompetes(problem, v, c, a, d);
      ExpandingDistinct(problem, v, c, a);
      if nodesGenerated >= problem.policy.maxGeneratedStates {
        budgetExhausted := true;
        TooManyGenerated(problem, words, closed, tried, c, a);
        return true;
      }
      TallyGrows(problem, words, closed, tried, c, a);
      nodesGenerated, tried := nodesGenerated + 1, tried + {words[c] + [a]};
      TallyMeasures(problem, words, closed, tried, c, a + 1);
      halt := false;
    }

    /** Whether a known node for the child's configuration is at least as good as the child. */
    method Dominated(c: nat, a: nat, ghost d: Config, objective: Objective, key: Bytes) returns (dominated: bool)
      requires Shaped(problem.def, problem.start) && IsSuccessor(problem, Snapshot(), c, a, d)
      requires Trying(c, a) && key == KeyOf(d)
      requires objective == Plus(arena[c].objective, StepCost(problem.def, arena[c].config.state, d.state, a))
      ensures dominated ==> Trying(c, a + 1)
      ensures !dominated ==> Improves(problem, Snapshot(), d, ChildScore(problem, Snapshot(), c, a, d))
    {
      hide Expanding, LastClosed, Advance, StepCost, KeyOf, Better, AtLeastAsGood, ChildScore, Improves, ScoreAt;
      hide FrontierOk, NodesOk;
      ghost var v := Snapshot();
      ExpandingNode(problem, v, c, a);
      if key in visited {
        ExpandingIncumbent(problem, v, c, a, key);
        var better := ChildIsBetter(c, a, d, objective, visited[key]);
        if !better {
          NotBetter(ChildScore(problem, v, c, a, d), ScoreAt(problem, v, visited[key]));
          DominatedChild(problem, v, c, a);
          return true;
        }
      }
      ImprovesIntro(problem, v, c, a, d);
      dominated := false;
    }

    /** Files the child, and stops when more is waiting than the policy allows. */
    method QueueChild(c: nat, a: nat, child: Node, key: Bytes) returns (halt: bool)
      requires Ready() && Trying(c, a) && Fitting() && Fits64(child.objective)
      requires IsSuccessor(problem, Snapshot(), c, a, child.config)
      requires child == ChildNode(problem, Snapshot(), c, a, child.config)
      requires key == KeyOf(child.config)
      requires Improves(problem, Snapshot(), child.config, ChildScore(problem, Snapshot(), c, a, child.config))
      requires Tallied(c, a + 1) && HasTried(c, a) && Promising(c)
      modifies this`arena, this`words, this`visited, this`frontier, this`budgetExhausted
      ensures Trying(c, a + 1) && Fitting() && Tallied(c, a + 1) && Promising(c)
      ensures !halt ==> budgetExhausted == old(budgetExhausted)
      ensures halt ==> budgetExhausted && GivesUp()
      ensures Measured()
    {
      hide Expanding, LastClosed, StepCost, KeyOf, WellPosed, ValidDefinition, CompiledFor, ChildScore, Improves;
      hide IsSuccessor, ScoreAt, FrontierOk, Tally, Leading, Crowded, ChildNode, AllCompete;
      TallyMeasures(problem, words, closed, tried, c, a + 1);
      FileChild(c, a, child, key);
      if |frontier| > problem.policy.maxFrontierEntries {
        budgetExhausted := true;
        ExpandingNode(problem, Snapshot(), c, a + 1);
        TooManyWaiting(problem, Snapshot(), tried, c, a + 1);
        return true;
      }
      halt := false;
    }

    // The child that has just been counted costs too much.
    lemma Overflows(c: nat, a: nat, d: Config)
      requires Shaped(problem.def, problem.start) && IsSuccessor(problem, Snapshot(), c, a, d)
      requires Tallied(c, a + 1) && HasTried(c, a)
      requires !Fits64(Plus(arena[c].objective, StepCost(problem.def, arena[c].config.state, d.state, a)))
      ensures CompetitorOverflows(problem)
    {
      hide Tally, Competes, AllCompete, StepCost, IsSuccessor;
      TriedCompetes(problem, words, closed, tried, c, a + 1, words[c] + [a]);
      OverflowingWord(problem, Snapshot(), c, a, d);
    }

    method TryAction(c: nat, a: nat) returns (halt: bool)
      requires Ready() && Trying(c, a) && a < |problem.def.actions| && Fitting() && Tallied(c, a) && Promising(c)
      requires !found && !budgetExhausted && !accountingOverflow
      modifies this
      ensures nodesExpanded == old(nodesExpanded) && closed == old(closed)
      ensures found == old(found) && frontierEmptied == old(frontierEmptied)
      ensures !halt ==> Trying(c, a + 1) && !budgetExhausted && !accountingOverflow && Fitting()
      ensures !halt ==> Tallied(c, a + 1) && Promising(c)
      ensures halt ==> budgetExhausted && GivesUp()
      ensures Measured()
      ensures accountingOverflow ==> CompetitorOverflows(problem)
    {
      hide Expanding, LastClosed, Advance, StepCost, KeyOf, Better, AtLeastAsGood, WellPosed, ValidDefinition;
      hide CompiledFor, ChildScore, Improves, IsSuccessor, ScoreAt, FrontierOk, Tally, Leading, Crowded, Competes;
      hide AllCompete;
      TallyMeasures(problem, words, closed, tried, c, a);
      halt := false;
      ghost var v := Snapshot();
      ExpandingNode(problem, v, c, a);
      var current := arena[c];
      var t := Apply(problem.def, limits, problem.policy, compiled, table, current.config, current.incompleteness, a);
      if t.None? {
        RefusedAction(problem, v, c, a);
        TallySkips(problem, words, closed, tried, c, a);
        return;
      }
      var d := t.value.config;
      ExpandingSuccessor(problem, v, c, a, d);
      halt := CountChild(c, a, d);
      if halt {
        return;
      }
      var ok, summed := AddChecked(current.objective, t.value.delta);
      if !ok {
        Overflows(c, a, d);
        accountingOverflow, budgetExhausted := true, true;
        return true;
      }
      var completeness := Shortfall(problem.def, d.state, true);
      var child := Node(d, Some(c), a, current.depth + 1, completeness, summed);
      var key := ComputeKey(d);
      var dominated := Dominated(c, a, d, summed, key);
      if dominated {
        return;
      }
      halt := QueueChild(c, a, child, key);
    }

    /** Tries every action from a node that has just been taken off the frontier. */
    method Expand(c: nat) returns (halt: bool)
      requires Ready() && Trying(c, 0) && Fitting() && Tallied(c, 0) && Promising(c)
      requires !found && !budgetExhausted && !accountingOverflow
      modifies this
      ensures nodesExpanded == old(nodesExpanded) && closed == old(closed)
      ensures found == old(found) && frontierEmptied == old(frontierEmptied)
      ensures !halt ==> Settled(problem, Snapshot()) && !budgetExhausted && !accountingOverflow && Fitting()
      ensures !halt ==> Tallied(|words|, 0)
      ensures halt ==> budgetExhausted && GivesUp()
      ensures Measured()
      ensures accountingOverflow ==> CompetitorOverflows(problem)
    {
      hide Expanding, LastClosed, Settled, WellPosed, ValidDefinition, CompiledFor, Tally, Leading, Crowded;
      hide AllCompete;
      TallyMeasures(problem, words, closed, tried, c, 0);
      for a := 0 to |problem.def.actions|
        invariant Trying(c, a) && Fitting() && Tallied(c, a) && Promising(c) && Measured()
        invariant nodesExpanded == old(nodesExpanded) && closed == old(closed)
        invariant found == old(found) && frontierEmptied == old(frontierEmptied)
        invariant !found && !budgetExhausted && !accountingOverflow
      {
        halt := TryAction(c, a);
        if halt {
          return;
        }
      }
      FinishExpansion(problem, Snapshot(), c);
      TallyFinishes(problem, words, closed, tried, c, |problem.def.actions|);
      halt := false;
    }

    method Finalise()
      modifies this`reachableStates
      ensures reachableStates == |visited|
    {
      reachableStates := |visited|;
    }

    // ---- The search ---------------------------------------------------------

    ghost predicate Unstarted()
      reads this
    {
      && arena == [] && visited == map[] && frontier == [] && words == [] && closed == {}
      && !found && !budgetExhausted && !frontierEmptied && !accountingOverflow
      && nodesExpanded == 0 && nodesGenerated == 0 && tried == {}
    }

    // The plan reported is the optimum over every admissible sequence within the bound.
    ghost predicate ReportsOptimum()
      reads this
      requires Shaped(problem.def, problem.start)
    {
      && Indexed(Snapshot()) && LinksOk(Snapshot()) && planNode < |arena|
      && IsOptimal(problem.def, problem.policy, problem.start, words[planNode])
      && arena[planNode].objective
         == Execute(problem.def, problem.policy, problem.start, words[planNode]).value.cost
      && Fits64(arena[planNode].objective)
    }

    /** Puts the root, with nothing executed and nothing held, on the frontier. */
    method Start()
      requires Ready() && Unstarted()
      modifies this`arena, this`words, this`visited, this`frontier
      ensures Settled(problem, Snapshot()) && Fitting() && Tallied(|words|, 0)
    {
      TallyBegins(problem);
      hide Tally;
      hide ValidDefinition, CompiledFor, Settled, KeyOf, ShortfallOf;
      var incompleteness := Shortfall(problem.def, problem.start, true);
      arena, words := [Node(Config(problem.start, []), None, 0, 0, incompleteness, ZERO)], [[]];
      var rootKey := ComputeKey(arena[0].config);
      visited := map[rootKey := 0];
      frontier := [0];
      InitiallySettled(problem);
      assert Snapshot() == InitialView(problem);
    }

    ghost predicate Undecided()
      reads this
    {
      && !found && !budgetExhausted && !accountingOverflow && !frontierEmptied
      && nodesExpanded == |closed| <= problem.policy.maxNodesExpanded
    }

    /** Closes the node that was first in the frontier and, below the step bound, expands it. */
    method CloseFirst(c: nat, ghost v: View) returns (stop: bool)
      requires Ready() && Undecided() && Fitting() && Tallied(|words|, 0) && Promising(c)
      requires Settled(problem, v) && |v.frontier| > 0 && c == v.frontier[0] < |v.arena| && c !in v.closed
      requires Snapshot() == PopView(v)
      requires KeyOf(v.arena[c].config) in v.visited && v.visited[KeyOf(v.arena[c].config)] == c
      requires Shaped(problem.def, v.arena[c].config.state) && !GoalsMet(problem.def, v.arena[c].config.state)
      requires nodesExpanded < problem.policy.maxNodesExpanded
      modifies this
      ensures nodesExpanded == |closed| == old(nodesExpanded) + 1 && !frontierEmptied && !found
      ensures !stop ==> Settled(problem, Snapshot()) && Undecided() && Fitting() && Tallied(|words|, 0)
      ensures stop ==> budgetExhausted && GivesUp()
      ensures Measured()
      ensures accountingOverflow ==> Shaped(problem.def, problem.start) && CompetitorOverflows(problem)
    {
      hide ValidDefinition, CompiledFor, Settled, KeyOf, GoalsMet, Expanding, LastClosed, Tally, Leading, Crowded;
      hide AllCompete, Distinct, NothingExecuted, SizesFit, Core, EffectiveBound;
      TallyMeasures(problem, words, closed, tried, |words|, 0);
      TallyCloses(problem, words, closed, tried, c);
      nodesExpanded, closed := nodesExpanded + 1, closed + {c};
      Close(problem, v);
      assert Snapshot() == CloseView(v);
      if arena[c].depth >= effectiveStepBound {
        return false;
      }
      stop := Expand(c);
    }

    /** One turn of the search: takes the best waiting node and drops it when stale,
        reports it when it meets every goal, and expands it otherwise. */
    method Turn() returns (stop: bool)
      requires Ready()
      requires Settled(problem, Snapshot()) && |frontier| > 0 && Undecided() && Fitting() && Tallied(|words|, 0)
      modifies this
      ensures nodesExpanded == |closed| <= problem.policy.maxNodesExpanded && !frontierEmptied
      ensures !stop ==> Settled(problem, Snapshot()) && Undecided() && Fitting() && Tallied(|words|, 0)
      ensures !stop ==> nodesExpanded > old(nodesExpanded)
                        || (nodesExpanded == old(nodesExpanded) && |frontier| < old(|frontier|))
      ensures stop && !budgetExhausted ==> found && Shaped(problem.def, problem.start) && ReportsOptimum()
      ensures stop && budgetExhausted ==> !found && GivesUp()
      ensures Measured()
      ensures accountingOverflow ==> Shaped(problem.def, problem.start) && CompetitorOverflows(problem)
    {
      hide ValidDefinition, CompiledFor, Settled, KeyOf, GoalsMet, IsOptimal, Expanding, LastClosed, LinksOk;
      hide Distinct, NothingExecuted, SizesFit, ScoreAt, ScoreOf, Core, Execute, EffectiveBound, Tally, Leading;
      hide Crowded, AllCompete;
      TallyMeasures(problem, words, closed, tried, |words|, 0);
      ghost var v := Snapshot();
      var c := frontier[0];
      SettledFirst(problem, v);
      FirstLeads(problem, v);
      frontier := frontier[1..];
      assert Snapshot() == PopView(v);
      var key := ComputeKey(arena[c].config);
      if visited[key] != c {
        DropStale(problem, v);
        return false;
      }
      var goal := GoalsSatisfied(problem.def, arena[c].config.state);
      if goal {
        GoalReported(problem, v);
        found, planNode := true, c;
        return true;
      }
      if nodesExpanded >= problem.policy.maxNodesExpanded {
        budgetExhausted := true;
        TooManyToExpand(problem, v, tried);
        return true;
      }
      stop := CloseFirst(c, v);
    }

    /** Runs to an answer or to a limit.  A plan found is the optimum, an emptied frontier
        proves that there is no plan, and a limit never passes for either.  The search gives up
        only when more sequences compete with the optimum than a bound of the policy allows, or
        when the cost of one leaves 64 bits. */
    method Run()
      requires Ready() && Unstarted()
      modifies this
      ensures Shaped(problem.def, problem.start)
      ensures found ==> ReportsOptimum()
      ensures frontierEmptied ==> forall w :: !IsPlan(problem.def, problem.policy, problem.start, w)
      ensures frontierEmptied ==> nodesExpanded > 0
      ensures budgetExhausted ==> GivesUp()
      ensures Measured()
      ensures accountingOverflow ==> CompetitorOverflows(problem)
      ensures found || frontierEmptied || budgetExhausted
      ensures !(found && frontierEmptied) && !(found && budgetExhausted) && !(frontierEmptied && budgetExhausted)
      ensures nodesExpanded == |closed| <= problem.policy.maxNodesExpanded
      ensures reachableStates == |visited|
    {
      hide ValidDefinition, CompiledFor, Settled, KeyOf, GoalsMet, IsOptimal, IsPlan, Tally, Crowded;
      hide AllCompete;
      Start();
      TallyMeasures(problem, words, closed, tried, |words|, 0);
      while |frontier| > 0
        invariant Settled(problem, Snapshot()) && Undecided() && Fitting() && Tallied(|words|, 0)
        invariant Measured()
        decreases problem.policy.maxNodesExpanded - nodesExpanded, |frontier|
      {
        var stop := Turn();
        if stop {
          Finalise();
          return;
        }
      }
      frontierEmptied := true;
      SomeoneClosed(problem, Snapshot());
      forall w
        ensures !IsPlan(problem.def, problem.policy, problem.start, w)
      {
        EmptyFrontierIsProof(problem, Snapshot(), w);
      }
      Finalise();
    }
  }

  /** The goal test, goal by goal. */
  method GoalsSatisfied(def: FabricDefinition, s: FabricState) returns (ok: bool)
    requires Shaped(def, s)
    ensures ok <==> GoalsMet(def, s)
  {
    hide GoalMet;
    for g := 0 to |def.goals|
      invariant forall h :: 0 <= h < g ==> GoalMet(def, s, def.goals[h])
    {
      if !GoalMet(def, s, def.goals[g]) {
        return false;
      }
    }
    return true;
  }

  lemma LinkAt(v: View, i: nat)
    requires Indexed(v) && LinksOk(v) && i < |v.arena|
    ensures match v.arena[i].parent
            case None => v.words[i] == []
            case Some(q) => q < i && v.words[i] == v.words[q] + [v.arena[i].action]
  {
    assert LinkOk(v, i);
  }

  // ---- Bridges between the running search and its invariant -----------------

  // What a competing sequence costs leaves 64 bits.
  ghost predicate CompetitorOverflows(p: Problem)
    requires Shaped(p.def, p.start)
  {
    exists w :: Competes(p, w) && !Fits64(Execute(p.def, p.policy, p.start, w).value.cost)
  }

  lemma ExpandingNode(p: Problem, v: View, c: nat, k: nat)
    requires Expanding(p, v, c, k)
    ensures Indexed(v) && LinksOk(v) && FrontierOk(p, v) && c < |v.arena|
    ensures Shaped(p.def, p.start) && Shaped(p.def, v.arena[c].config.state)
    ensures v.arena[c].incompleteness == Incompleteness(p.def, v.arena[c].config.state)
    ensures v.arena[c].depth < EffectiveBound(p)
  {
    hide LinkOk, VisitedOk, FrontierOk, CoverageOk, Represented, KeyOf, GoalsMet, Better, Replay;
    assert NodeOk(p, v.arena[c], v.words[c]);
  }

  lemma ExpandingPosed(p: Problem, v: View, c: nat, k: nat)
    requires Expanding(p, v, c, k)
    ensures WellPosed(p)
  {
    hide Core, WellPosed;
    CoreIsPosed(p, v);
  }

  lemma CoreIsPosed(p: Problem, v: View)
    requires Core(p, v)
    ensures WellPosed(p)
  {
  }

  lemma ExpandingDistinct(p: Problem, v: View, c: nat, k: nat)
    requires Expanding(p, v, c, k)
    ensures AllDistinct(v.words) && c in v.closed && c < |v.words| && |v.words| == |v.arena|
  {
    hide LinkOk, VisitedOk, FrontierOk, CoverageOk, Represented, KeyOf, GoalsMet, Better, NodeOk;
  }

  lemma ExpandingSuccessor(p: Problem, v: View, c: nat, k: nat, d: Config)
    requires Expanding(p, v, c, k) && c < |v.arena| && Shaped(p.def, v.arena[c].config.state)
    requires Advance(p.def, p.policy, v.arena[c].config, k) == Some(d)
    ensures Shaped(p.def, p.start) && IsSuccessor(p, v, c, k, d)
  {
    hide LinkOk, VisitedOk, FrontierOk, CoverageOk, Represented, KeyOf, GoalsMet, Better, NodeOk, ClosedOk;
  }

  lemma ExpandingIncumbent(p: Problem, v: View, c: nat, k: nat, key: Bytes)
    requires Expanding(p, v, c, k) && key in v.visited
    ensures v.visited[key] < |v.arena|
  {
    hide LinkOk, FrontierOk, CoverageOk, Represented, KeyOf, GoalsMet, Better, NodeOk, ClosedOk;
  }

  lemma NotBetter(x: Score, y: Score)
    requires !Better(x, y)
    ensures AtLeastAsGood(y, x)
  {
    BetterTotal(x, y);
  }

  lemma ImprovesIntro(p: Problem, v: View, c: nat, k: nat, d: Config)
    requires Expanding(p, v, c, k) && Shaped(p.def, p.start) && IsSuccessor(p, v, c, k, d)
    requires KeyOf(d) in v.visited && v.visited[KeyOf(d)] < |v.arena| ==>
               Better(ChildScore(p, v, c, k, d), ScoreAt(p, v, v.visited[KeyOf(d)]))
    ensures Improves(p, v, d, ChildScore(p, v, c, k, d))
  {
    hide LinkOk, FrontierOk, CoverageOk, Represented, KeyOf, GoalsMet, Better, NodeOk, ClosedOk, Advance, StepCost;
  }

  lemma NoTies(p: Problem, v: View, c: nat, k: nat, d: Config)
    requires Expanding(p, v, c, k) && Shaped(p.def, p.start) && IsSuccessor(p, v, c, k, d)
    ensures forall x :: 0 <= x < |v.frontier| ==>
              v.frontier[x] < |v.arena| && ScoreAt(p, v, v.frontier[x]) != ChildScore(p, v, c, k, d)
  {
    hide LinkOk, VisitedOk, CoverageOk, Represented, KeyOf, GoalsMet, Better, NodeOk, ClosedOk, Advance, StepCost;
    forall x | 0 <= x < |v.frontier|
      ensures v.frontier[x] < |v.arena| && ScoreAt(p, v, v.frontier[x]) != ChildScore(p, v, c, k, d)
    {
      ChildNeverTies(p, v, c, k, d, v.frontier[x]);
    }
  }

  lemma ChildScoreIs(p: Problem, v: View, c: nat, k: nat, d: Config, objective: Objective, encoding: seq<U64>)
    requires Shaped(p.def, p.start) && IsSuccessor(p, v, c, k, d)
    requires objective == Plus(v.arena[c].objective, StepCost(p.def, v.arena[c].config.state, d.state, k))
    requires encoding == Encoding(p.def, v.words[c]) + [IdOf(p.def, k)]
    ensures Score(objective, encoding) == ChildScore(p, v, c, k, d)
  {
    hide StepCost, Advance, NodeOk;
  }

  lemma AddKeepsNode(p: Problem, v: View, c: nat, k: nat, d: Config, pos: nat)
    requires Shaped(p.def, p.start) && IsSuccessor(p, v, c, k, d) && pos <= |v.frontier|
    ensures AddView(p, v, c, k, d, pos).arena[c] == v.arena[c]
  {
    hide KeyOf, StepCost, Incompleteness, Advance, NodeOk;
  }

  // The accounting only overflows when a competing sequence really costs that much.
  lemma OverflowingWord(p: Problem, v: View, c: nat, k: nat, d: Config)
    requires Shaped(p.def, p.start) && IsSuccessor(p, v, c, k, d) && Competes(p, v.words[c] + [k])
    requires !Fits64(Plus(v.arena[c].objective, StepCost(p.def, v.arena[c].config.state, d.state, k)))
    ensures CompetitorOverflows(p)
  {
    hide StepCost, Advance, Replay, Execute, Plus, Leading;
    assert NodeOk(p, v.arena[c], v.words[c]);
    ReplaySnoc(p, v.words[c], k);
    ReplayIsExecute(p.def, p.policy, p.start, v.words[c] + [k]);
  }

  lemma SettledFirst(p: Problem, v: View)
    requires Settled(p, v) && |v.frontier| > 0
    ensures var c := v.frontier[0];
            && Indexed(v) && LinksOk(v)
            && c < |v.arena| && c !in v.closed
            && Shaped(p.def, v.arena[c].config.state)
            && KeyOf(v.arena[c].config) in v.visited
  {
    hide LinkOk, CoverageOk, Represented, KeyOf, GoalsMet, Better, Replay;
    assert NodeOk(p, v.arena[v.frontier[0]], v.words[v.frontier[0]]);
  }

  lemma OptimumScore(p: Problem, v: View, c: nat)
    requires Shaped(p.def, p.start) && Indexed(v) && c < |v.arena|
    requires IsOptimal(p.def, p.policy, p.start, v.words[c])
    requires ScoreOf(p.def, p.policy, p.start, v.words[c]) == ScoreAt(p, v, c)
    ensures v.arena[c].objective == Execute(p.def, p.policy, p.start, v.words[c]).value.cost
  {
    hide Execute;
  }

  // When nothing waits, the root at least has been expanded.
  lemma SomeoneClosed(p: Problem, v: View)
    requires Settled(p, v) && |v.frontier| == 0
    ensures |v.closed| > 0
  {
    hide CoverageOk, LinksOk, ClosedOk, NodeOk, KeyOf, ScoreAt, AtLeastAsGood, FrontierOk, WellPosed;
    assert v.visited[KeyOf(v.arena[0].config)] in v.closed;
  }

  lemma GoalReported(p: Problem, v: View)
    requires Settled(p, v) && |v.frontier| > 0 && v.frontier[0] < |v.arena|
    requires Shaped(p.def, v.arena[v.frontier[0]].config.state)
    requires GoalsMet(p.def, v.arena[v.frontier[0]].config.state)
    ensures Shaped(p.def, p.start) && Indexed(PopView(v)) && LinksOk(PopView(v))
    ensures var c := v.frontier[0];
            && IsOptimal(p.def, p.policy, p.start, v.words[c])
            && v.arena[c].objective == Execute(p.def, p.policy, p.start, v.words[c]).value.cost
  {
    hide Settled, IsOptimal, GoalsMet, ScoreAt, ScoreOf, LinkOk, NodesOk, FrontierOk;
    SettledParts(p, v);
    FirstGoalIsOptimal(p, v);
    OptimumScore(p, v, v.frontier[0]);
    KeepLinks(v, PopView(v));
  }

  lemma TooManyToExpand(p: Problem, v: View, tried: set<seq<nat>>)
    requires Settled(p, v) && |v.frontier| > 0
    requires Tally(p, v.words, v.closed, tried, |v.words|, 0)
    requires |v.closed| >= p.policy.maxNodesExpanded
    ensures Crowded(p)
  {
    hide Settled, Tally, Crowded, LinkOk, NodesOk, FrontierOk;
    SettledParts(p, v);
    TooManyExpanded(p, v, tried, v.frontier[0]);
  }
}
