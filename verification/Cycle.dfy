/** The dependency relation between actions: the planner's iterative three-colour search for a
    cycle, the certificate check that re-derives one, and what a cycle means for plans. */
module Cycle {
  import opened Ints
  import opened Domain
  import opened Definition
  import opened Dynamics
  import opened Problems
  import opened Accounting
  import opened Safety

  // ---- Walks ----------------------------------------------------------------

  // Action `to` depends on action `from`.
  predicate Edge(def: FabricDefinition, from: nat, to: nat) {
    to < |def.actions| &&
    exists d :: 0 <= d < |def.actions[to].dependencies|
                && ActionIndex(def, def.actions[to].dependencies[d].predecessor) == Some(from)
  }

  predicate Walk(def: FabricDefinition, nodes: seq<nat>) {
    forall i :: 0 <= i < |nodes| - 1 ==> Edge(def, nodes[i], nodes[i + 1])
  }

  // A walk along dependencies that comes back to where it began.
  predicate ClosedWalk(def: FabricDefinition, nodes: seq<nat>) {
    && |nodes| >= 2
    && (forall i :: 0 <= i < |nodes| ==> nodes[i] < |def.actions|)
    && Walk(def, nodes)
    && nodes[0] == nodes[|nodes| - 1]
  }

  ghost predicate HasCycle(def: FabricDefinition) {
    exists nodes :: ClosedWalk(def, nodes)
  }

  // ---- Successor lists ------------------------------------------------------

  ghost predicate Successors(def: FabricDefinition, successors: seq<seq<nat>>) {
    |successors| == |def.actions|
    && forall p :: 0 <= p < |successors| ==> ListsSuccessors(def, p, successors[p], |def.actions|)
  }

  // Exactly the dependents of p among the first n actions.
  ghost predicate ListsSuccessors(def: FabricDefinition, p: nat, list: seq<nat>, n: nat) {
    forall i: nat :: i in list <==> i < n && Edge(def, p, i)
  }

  ghost predicate PartlyListed(def: FabricDefinition, p: nat, list: seq<nat>, n: nat, k: nat)
    requires n < |def.actions| && k <= |def.actions[n].dependencies|
  {
    forall i: nat :: i in list <==>
      (i < n && Edge(def, p, i))
      || (i == n && exists d :: 0 <= d < k
                                && ActionIndex(def, def.actions[n].dependencies[d].predecessor) == Some(p))
  }

  method ListSuccessors(def: FabricDefinition) returns (successors: seq<seq<nat>>)
    ensures Successors(def, successors)
  {
    hide ActionIndex;
    successors := seq(|def.actions|, i => []);
    for n := 0 to |def.actions|
      invariant |successors| == |def.actions|
      invariant forall p :: 0 <= p < |successors| ==> ListsSuccessors(def, p, successors[p], n)
    {
      var list := def.actions[n].dependencies;
      for k := 0 to |list|
        invariant |successors| == |def.actions|
        invariant forall p :: 0 <= p < |successors| ==> PartlyListed(def, p, successors[p], n, k)
      {
        var predecessor := ActionIndex(def, list[k].predecessor);
        ghost var before := successors;
        if predecessor.Some? {
          var p := predecessor.value;
          successors := successors[p := successors[p] + [n]];
        }
        forall p | 0 <= p < |successors|
          ensures PartlyListed(def, p, successors[p], n, k + 1)
        {
          assert PartlyListed(def, p, before[p], n, k);
          ListedNext(def, p, before[p], n, k);
        }
      }
    }
  }

  lemma ListedNext(def: FabricDefinition, p: nat, list: seq<nat>, n: nat, k: nat)
    requires n < |def.actions| && k < |def.actions[n].dependencies| && PartlyListed(def, p, list, n, k)
    ensures PartlyListed(def, p,
              if ActionIndex(def, def.actions[n].dependencies[k].predecessor) == Some(p) then list + [n] else list,
              n, k + 1)
  {
    hide ActionIndex, Edge;
  }

  // ---- The search -----------------------------------------------------------

  datatype Colour = White | Grey | Black

  // A node on the current path, with the number of its successors already tried.
  datatype Frame = Frame(node: nat, next: nat)

  // The path is the chain of the frames, and the grey nodes are the nodes on it.
  ghost predicate OnPath(def: FabricDefinition, colour: seq<Colour>, frames: seq<Frame>) {
    && |colour| == |def.actions|
    && (forall i :: 0 <= i < |frames| ==> frames[i].node < |colour| && colour[frames[i].node] == Grey)
    && (forall i, j :: 0 <= i < j < |frames| ==> frames[i].node != frames[j].node)
    && (forall v :: 0 <= v < |colour| && colour[v] == Grey ==> exists i :: 0 <= i < |frames| && frames[i].node == v)
    && (forall i :: 0 <= i < |frames| - 1 ==> Edge(def, frames[i].node, frames[i + 1].node))
  }

  // Every tried successor of a frame is finished, or is the frame that follows.
  ghost predicate TriedAt(successors: seq<seq<nat>>, colour: seq<Colour>, frames: seq<Frame>, i: nat)
    requires i < |frames| && |successors| == |colour| && frames[i].node < |colour|
  {
    var list := successors[frames[i].node];
    && frames[i].next <= |list|
    && forall j :: 0 <= j < frames[i].next && list[j] < |colour| ==>
         colour[list[j]] == Black || (i + 1 < |frames| && frames[i + 1].node == list[j])
  }

  ghost predicate Tried(successors: seq<seq<nat>>, colour: seq<Colour>, frames: seq<Frame>) {
    |successors| == |colour| && forall i :: 0 <= i < |frames| ==>
      frames[i].node < |colour| && TriedAt(successors, colour, frames, i)
  }

  // The finished nodes, each after all of its successors.
  ghost predicate Finished(def: FabricDefinition, colour: seq<Colour>, finished: seq<nat>) {
    && |colour| == |def.actions|
    && (forall v :: 0 <= v < |colour| ==> (colour[v] == Black <==> v in finished))
    && (forall k :: 0 <= k < |finished| ==> ClosedAt(def, finished, k))
  }

  ghost predicate ClosedAt(def: FabricDefinition, finished: seq<nat>, k: nat)
    requires k < |finished|
  {
    forall w: nat :: Edge(def, finished[k], w) ==> w in finished[..k]
  }

  // Steps left: the untried successors of the frames, and the frames themselves.
  ghost function Work(successors: seq<seq<nat>>, frames: seq<Frame>): nat {
    if |frames| == 0 then 0
    else
      var f := frames[|frames| - 1];
      Work(successors, frames[..|frames| - 1])
      + 1 + if f.node < |successors| && f.next <= |successors[f.node]| then |successors[f.node]| - f.next else 0
  }

  ghost function Whites(colour: seq<Colour>): nat {
    if |colour| == 0 then 0 else (if colour[0] == White then 1 else 0) + Whites(colour[1..])
  }

  lemma {:induction false} WhitesAfter(colour: seq<Colour>, v: nat, c: Colour)
    requires v < |colour| && c != White
    ensures colour[v] == White ==> Whites(colour[v := c]) < Whites(colour)
    ensures colour[v] != White ==> Whites(colour[v := c]) == Whites(colour)
  {
    var next := colour[v := c];
    if v == 0 {
      assert next[1..] == colour[1..];
    } else {
      WhitesAfter(colour[1..], v - 1, c);
      assert next[1..] == colour[1..][v - 1 := c];
    }
  }

  // An order in which every node follows its successors leaves no room for a cycle.
  lemma {:induction false} RanksDescend(def: FabricDefinition, finished: seq<nat>, nodes: seq<nat>, k: nat)
    returns (r: nat)
    requires forall i :: 0 <= i < |finished| ==> ClosedAt(def, finished, i)
    requires Walk(def, nodes) && |nodes| > 0 && k < |finished| && finished[k] == nodes[0]
    ensures r <= k && finished[r] == nodes[|nodes| - 1] && (|nodes| > 1 ==> r < k)
    decreases |nodes|
  {
    if |nodes| == 1 {
      r := k;
    } else {
      assert Edge(def, nodes[0], nodes[1]);
      assert ClosedAt(def, finished, k);
      var j :| 0 <= j < k && finished[..k][j] == nodes[1];
      assert Walk(def, nodes[1..]) by {
        forall i | 0 <= i < |nodes[1..]| - 1
          ensures Edge(def, nodes[1..][i], nodes[1..][i + 1])
        {
          assert Edge(def, nodes[i + 1], nodes[i + 2]);
        }
      }
      r := RanksDescend(def, finished, nodes[1..], j);
    }
  }

  lemma NoCycleAmongFinished(def: FabricDefinition, colour: seq<Colour>, finished: seq<nat>)
    requires Finished(def, colour, finished)
    requires forall v :: 0 <= v < |colour| ==> colour[v] == Black
    ensures !HasCycle(def)
  {
    if HasCycle(def) {
      var nodes :| ClosedWalk(def, nodes);
      assert nodes[0] in finished;
      var k :| 0 <= k < |finished| && finished[k] == nodes[0];
      var first := FirstIndex(finished, nodes[0], k);
      var r := RanksDescend(def, finished, nodes, first);
    }
  }

  lemma {:induction false} FirstIndex(list: seq<nat>, v: nat, k: nat) returns (first: nat)
    requires k < |list| && list[k] == v
    ensures first <= k && list[first] == v && v !in list[..first]
    decreases k
  {
    if v in list[..k] {
      var j :| 0 <= j < k && list[..k][j] == v;
      first := FirstIndex(list, v, j);
    } else {
      first := k;
    }
  }

  ghost predicate Searching(def: FabricDefinition, successors: seq<seq<nat>>, colour: seq<Colour>, frames: seq<Frame>,
                            finished: seq<nat>)
  {
    OnPath(def, colour, frames) && Tried(successors, colour, frames) && Finished(def, colour, finished)
  }

  lemma Begin(def: FabricDefinition, successors: seq<seq<nat>>, colour: seq<Colour>, finished: seq<nat>, v: nat)
    requires Successors(def, successors) && Searching(def, successors, colour, [], finished)
    requires v < |colour| && colour[v] == White
    ensures Searching(def, successors, colour[v := Grey], [Frame(v, 0)], finished)
  {
    var next, grey := [Frame(v, 0)], colour[v := Grey];
    forall u | 0 <= u < |grey| && grey[u] == Grey
      ensures exists i :: 0 <= i < |next| && next[i].node == u
    {
      assert next[0].node == v;
    }
  }

  // A successor not seen before goes on top of the path.
  lemma Push(def: FabricDefinition, successors: seq<seq<nat>>, colour: seq<Colour>, frames: seq<Frame>,
             finished: seq<nat>, v: nat)
    requires Successors(def, successors) && Searching(def, successors, colour, frames, finished) && |frames| > 0
    requires var f := frames[|frames| - 1];
             f.next < |successors[f.node]| && successors[f.node][f.next] == v
    requires v < |colour| && colour[v] == White
    ensures var top := |frames| - 1;
            Searching(def, successors, colour[v := Grey],
                      frames[top := frames[top].(next := frames[top].next + 1)] + [Frame(v, 0)], finished)
  {
    hide Edge, ListsSuccessors;
    var top := |frames| - 1;
    var grey := colour[v := Grey];
    var next := frames[top := frames[top].(next := frames[top].next + 1)] + [Frame(v, 0)];
    ListedEdge(def, successors, frames[top].node, v);
    forall i | 0 <= i < |next|
      ensures TriedAt(successors, grey, next, i)
    {
      if i <= top {
        assert TriedAt(successors, colour, frames, i);
      }
    }
    forall u | 0 <= u < |grey| && grey[u] == Grey
      ensures exists i :: 0 <= i < |next| && next[i].node == u
    {
      if u == v {
        assert next[top + 1].node == u;
      } else {
        var i :| 0 <= i < |frames| && frames[i].node == u;
        assert next[i].node == u;
      }
    }
  }

  lemma ListedEdge(def: FabricDefinition, successors: seq<seq<nat>>, p: nat, v: nat)
    requires Successors(def, successors) && p < |successors|
    ensures v in successors[p] <==> Edge(def, p, v)
  {
    hide Edge;
    assert ListsSuccessors(def, p, successors[p], |def.actions|);
    EdgeInRange(def, p, v);
  }

  lemma EdgeInRange(def: FabricDefinition, p: nat, v: nat)
    ensures Edge(def, p, v) ==> v < |def.actions|
  {
  }

  // A finished successor is passed over.
  lemma Skip(def: FabricDefinition, successors: seq<seq<nat>>, colour: seq<Colour>, frames: seq<Frame>,
             finished: seq<nat>, v: nat)
    requires Searching(def, successors, colour, frames, finished) && |frames| > 0
    requires var f := frames[|frames| - 1];
             f.next < |successors[f.node]| && successors[f.node][f.next] == v
    requires v < |colour| && colour[v] == Black
    ensures var top := |frames| - 1;
            Searching(def, successors, colour, frames[top := frames[top].(next := frames[top].next + 1)], finished)
  {
    hide Edge;
    var top := |frames| - 1;
    var next := frames[top := frames[top].(next := frames[top].next + 1)];
    forall i | 0 <= i < |next|
      ensures TriedAt(successors, colour, next, i)
    {
      assert TriedAt(successors, colour, frames, i);
    }
    forall u | 0 <= u < |colour| && colour[u] == Grey
      ensures exists i :: 0 <= i < |next| && next[i].node == u
    {
      var i :| 0 <= i < |frames| && frames[i].node == u;
      assert next[i].node == u;
    }
  }

  // A node all of whose successors are finished is finished.
  lemma Pop(def: FabricDefinition, successors: seq<seq<nat>>, colour: seq<Colour>, frames: seq<Frame>,
            finished: seq<nat>)
    requires Successors(def, successors) && Searching(def, successors, colour, frames, finished) && |frames| > 0
    requires var f := frames[|frames| - 1]; f.next == |successors[f.node]|
    ensures var f := frames[|frames| - 1];
            Searching(def, successors, colour[f.node := Black], frames[..|frames| - 1], finished + [f.node])
  {
    hide Edge, ClosedAt, Successors, Finished;
    var top := |frames| - 1;
    var f := frames[top];
    var black, next := colour[f.node := Black], frames[..top];
    PopFinishes(def, successors, colour, frames, finished);
    forall i | 0 <= i < |next|
      ensures TriedAt(successors, black, next, i)
    {
      assert TriedAt(successors, colour, frames, i);
    }
    forall u | 0 <= u < |black| && black[u] == Grey
      ensures exists i :: 0 <= i < |next| && next[i].node == u
    {
      var i :| 0 <= i < |frames| && frames[i].node == u;
      assert next[i].node == u;
    }
  }

  lemma PopFinishes(def: FabricDefinition, successors: seq<seq<nat>>, colour: seq<Colour>, frames: seq<Frame>,
                    finished: seq<nat>)
    requires Successors(def, successors) && Tried(successors, colour, frames) && Finished(def, colour, finished)
    requires |frames| > 0 && frames[|frames| - 1].node < |colour|
    requires var f := frames[|frames| - 1]; f.next == |successors[f.node]|
    ensures var f := frames[|frames| - 1]; Finished(def, colour[f.node := Black], finished + [f.node])
  {
    hide Edge, ListsSuccessors;
    var f := frames[|frames| - 1];
    var after := finished + [f.node];
    assert TriedAt(successors, colour, frames, |frames| - 1);
    forall w: nat | Edge(def, f.node, w)
      ensures w in finished
    {
      ListedEdge(def, successors, f.node, w);
      EdgeInRange(def, f.node, w);
      var j :| 0 <= j < |successors[f.node]| && successors[f.node][j] == w;
    }
    forall k | 0 <= k < |after|
      ensures ClosedAt(def, after, k)
    {
      if k < |finished| {
        assert ClosedAt(def, finished, k);
        assert after[..k] == finished[..k];
      } else {
        assert after[..k] == finished;
      }
    }
  }

  // A successor that is on the path closes a walk.
  lemma Close(def: FabricDefinition, successors: seq<seq<nat>>, colour: seq<Colour>, frames: seq<Frame>,
              finished: seq<nat>, path: seq<nat>, v: nat, at: nat)
    requires Successors(def, successors) && Searching(def, successors, colour, frames, finished) && |frames| > 0
    requires |path| == |frames| && forall i :: 0 <= i < |path| ==> path[i] == frames[i].node
    requires v in successors[frames[|frames| - 1].node] && at < |path| && path[at] == v
    ensures ClosedWalk(def, path[at..] + [v])
  {
    hide Edge, ListsSuccessors;
    ListedEdge(def, successors, path[|path| - 1], v);
    var nodes := path[at..] + [v];
    forall i | 0 <= i < |nodes| - 1
      ensures Edge(def, nodes[i], nodes[i + 1])
    {
      if i < |nodes| - 2 {
        assert Edge(def, frames[at + i].node, frames[at + i + 1].node);
      }
    }
  }

  method IndexOnPath(path: seq<nat>, v: nat) returns (at: nat)
    requires v in path
    ensures at < |path| && path[at] == v
  {
    at := 0;
    while path[at] != v
      invariant at < |path| && v in path[at..]
      decreases |path| - at
    {
      assert path[at..] == [path[at]] + path[at + 1..];
      at := at + 1;
    }
  }

  /** Finds a closed walk of the dependency relation if and only if there is one. */
  method FindCycle(def: FabricDefinition) returns (found: bool, nodes: seq<nat>)
    ensures found <==> HasCycle(def)
    ensures found ==> ClosedWalk(def, nodes)
  {
    hide Searching, Edge, Walk;
    var successors := ListSuccessors(def);
    var colour := seq(|def.actions|, i => White);
    ghost var finished: seq<nat> := [];
    NothingSearched(def, successors, colour);
    for start := 0 to |def.actions|
      invariant |colour| == |def.actions|
      invariant Searching(def, successors, colour, [], finished)
      invariant forall v :: 0 <= v < start ==> colour[v] == Black
    {
      if colour[start] != White {
        NoneGrey(def, successors, colour, finished, start);
        continue;
      }
      Begin(def, successors, colour, finished, start);
      var frames, path := [Frame(start, 0)], [start];
      ghost var whites := Whites(colour);
      WhitesAfter(colour, start, Grey);
      colour := colour[start := Grey];
      while |frames| > 0
        invariant |colour| == |def.actions| && colour[start] != White
        invariant Searching(def, successors, colour, frames, finished)
        invariant |path| == |frames| && forall i :: 0 <= i < |path| ==> path[i] == frames[i].node
        invariant forall v :: 0 <= v < start ==> colour[v] == Black
        decreases Whites(colour), Work(successors, frames)
      {
        var top := |frames| - 1;
        var frame := frames[top];
        TopOfPath(def, successors, colour, frames, finished);
        assert frames[..top] + [frame] == frames;
        if frame.next < |successors[frame.node]| {
          var next := successors[frame.node][frame.next];
          ListedInRange(def, successors, frame.node, frame.next);
          var moved := frames[top := frame.(next := frame.next + 1)];
          assert moved[..top] == frames[..top];
          if colour[next] == Grey {
            GreyOnPath(def, successors, colour, frames, finished, path, next);
            var at := IndexOnPath(path, next);
            Close(def, successors, colour, frames, finished, path, next, at);
            return true, path[at..] + [next];
          }
          if colour[next] == White {
            Push(def, successors, colour, frames, finished, next);
            WhitesAfter(colour, next, Grey);
            colour, path, frames := colour[next := Grey], path + [next], moved + [Frame(next, 0)];
          } else {
            Skip(def, successors, colour, frames, finished, next);
            frames := moved;
          }
        } else {
          Pop(def, successors, colour, frames, finished);
          WhitesAfter(colour, frame.node, Black);
          finished := finished + [frame.node];
          colour, path, frames := colour[frame.node := Black], path[..|path| - 1], frames[..top];
        }
      }
      NoneGrey(def, successors, colour, finished, start);
    }
    AllFinished(def, successors, colour, finished);
    return false, [];
  }

  lemma NothingSearched(def: FabricDefinition, successors: seq<seq<nat>>, colour: seq<Colour>)
    requires Successors(def, successors) && |colour| == |def.actions|
    requires forall v :: 0 <= v < |colour| ==> colour[v] == White
    ensures Searching(def, successors, colour, [], [])
  {
  }

  lemma NoneGrey(def: FabricDefinition, successors: seq<seq<nat>>, colour: seq<Colour>, finished: seq<nat>, v: nat)
    requires Searching(def, successors, colour, [], finished) && v < |colour| && colour[v] != White
    ensures colour[v] == Black
  {
  }

  lemma TopOfPath(def: FabricDefinition, successors: seq<seq<nat>>, colour: seq<Colour>, frames: seq<Frame>,
                  finished: seq<nat>)
    requires Searching(def, successors, colour, frames, finished) && |frames| > 0
    ensures var f := frames[|frames| - 1];
            f.node < |colour| == |successors| && f.next <= |successors[f.node]| && colour[f.node] == Grey
  {
    assert TriedAt(successors, colour, frames, |frames| - 1);
  }

  lemma ListedInRange(def: FabricDefinition, successors: seq<seq<nat>>, p: nat, j: nat)
    requires Successors(def, successors) && p < |successors| && j < |successors[p]|
    ensures successors[p][j] < |def.actions|
  {
    ListedEdge(def, successors, p, successors[p][j]);
  }

  lemma GreyOnPath(def: FabricDefinition, successors: seq<seq<nat>>, colour: seq<Colour>, frames: seq<Frame>,
                   finished: seq<nat>, path: seq<nat>, v: nat)
    requires Searching(def, successors, colour, frames, finished)
    requires |path| == |frames| && forall i :: 0 <= i < |path| ==> path[i] == frames[i].node
    requires v < |colour| && colour[v] == Grey
    ensures v in path
  {
    var i :| 0 <= i < |frames| && frames[i].node == v;
    assert path[i] == v;
  }

  lemma AllFinished(def: FabricDefinition, successors: seq<seq<nat>>, colour: seq<Colour>, finished: seq<nat>)
    requires Searching(def, successors, colour, [], finished)
    requires forall v :: 0 <= v < |colour| ==> colour[v] == Black
    ensures !HasCycle(def)
  {
    NoCycleAmongFinished(def, colour, finished);
  }

  // ---- The certificate ------------------------------------------------------

  // What a cycle certificate has to show: each action after the first depends on the one
  // before it, and the last is the first again.
  predicate CertifiesCycle(def: FabricDefinition, cycle: seq<U64>) {
    && |cycle| >= 2
    && (forall i :: 0 <= i < |cycle| - 1 ==> DependsOn(def, cycle[i + 1], cycle[i]))
    && cycle[0] == cycle[|cycle| - 1]
  }

  predicate DependsOn(def: FabricDefinition, to: U64, from: U64) {
    var a := ActionIndex(def, to);
    a.Some? && exists d :: 0 <= d < |def.actions[a.value].dependencies|
                           && def.actions[a.value].dependencies[d].predecessor == from
  }

  /** Re-derives every step of a stated cycle from the definition. */
  method CheckCycle(def: FabricDefinition, cycle: seq<U64>) returns (ok: bool)
    ensures ok <==> CertifiesCycle(def, cycle)
  {
    hide ActionIndex;
    if |cycle| < 2 {
      return false;
    }
    ok := true;
    var i := 0;
    while i + 1 < |cycle|
      invariant i <= |cycle| - 1 && ok
      invariant forall j :: 0 <= j < i ==> DependsOn(def, cycle[j + 1], cycle[j])
    {
      var to := ActionIndex(def, cycle[i + 1]);
      if to.None? {
        assert !DependsOn(def, cycle[i + 1], cycle[i]);
        return false;
      }
      var edge := false;
      var list := def.actions[to.value].dependencies;
      for d := 0 to |list|
        invariant edge <==> exists e :: 0 <= e < d && list[e].predecessor == cycle[i]
      {
        if list[d].predecessor == cycle[i] {
          edge := true;
        }
      }
      if !edge {
        assert !DependsOn(def, cycle[i + 1], cycle[i]);
        return false;
      }
      i := i + 1;
    }
    ok := cycle[0] == cycle[|cycle| - 1];
  }

  /** What the planner's search reports is a certificate that the validator accepts. */
  lemma FoundCycleIsCertified(def: FabricDefinition, nodes: seq<nat>)
    requires Distinct(ActionIds(def)) && ClosedWalk(def, nodes)
    ensures CertifiesCycle(def, Encoding(def, nodes))
  {
    hide ActionIndex;
    var cycle := Encoding(def, nodes);
    forall i | 0 <= i < |cycle| - 1
      ensures DependsOn(def, cycle[i + 1], cycle[i])
    {
      assert Edge(def, nodes[i], nodes[i + 1]);
      IndexOfAction(def, nodes[i + 1]);
    }
  }

  lemma IndexOfAction(def: FabricDefinition, a: nat)
    requires Distinct(ActionIds(def)) && a < |def.actions|
    ensures ActionIndex(def, def.actions[a].id) == Some(a)
  {
    FindUnique(ActionIds(def), a);
  }

  /** Certificates of cycles exist exactly when there is a cycle. */
  lemma CertifiedIffCyclic(def: FabricDefinition)
    requires Distinct(ActionIds(def))
    ensures HasCycle(def) <==> exists cycle :: CertifiesCycle(def, cycle)
  {
    hide ActionIndex, ClosedWalk;
    if HasCycle(def) {
      var nodes :| ClosedWalk(def, nodes);
      FoundCycleIsCertified(def, nodes);
    }
    if cycle :| CertifiesCycle(def, cycle) {
      CertifiedIsClosed(def, cycle);
    }
  }

  lemma CertifiedIsClosed(def: FabricDefinition, cycle: seq<U64>)
    requires CertifiesCycle(def, cycle)
    ensures HasCycle(def)
  {
    hide ActionIndex;
    forall i | 0 <= i < |cycle|
      ensures ActionIndex(def, cycle[i]).Some?
    {
      var j := if i == 0 then |cycle| - 1 else i;
      assert DependsOn(def, cycle[j - 1 + 1], cycle[j - 1]);
    }
    var nodes: seq<nat> := seq(|cycle|, i requires 0 <= i < |cycle| => ActionIndex(def, cycle[i]).value);
    forall i | 0 <= i < |nodes| - 1
      ensures Edge(def, nodes[i], nodes[i + 1])
    {
      assert DependsOn(def, cycle[i + 1], cycle[i]);
    }
    assert ClosedWalk(def, nodes);
  }

  // ---- What a cycle means ---------------------------------------------------

  lemma {:induction false} CountedOccurs(w: seq<nat>, a: nat) returns (j: nat)
    requires CountOf(w, a) > 0
    ensures j < |w| && w[j] == a
    decreases |w|
  {
    if w[|w| - 1] == a {
      j := |w| - 1;
    } else {
      j := CountedOccurs(w[..|w| - 1], a);
    }
  }

  /** No action on a cycle is ever run: each would need another one of them to have run
      before it. */
  lemma {:induction false} CycleNeverRuns(p: Problem, limits: ModelLimits, w: seq<nat>, nodes: seq<nat>, k: nat)
    requires Shaped(p.def, p.start) && NothingExecuted(p.start) && ValidDefinition(p.def, limits)
    requires Execute(p.def, p.policy, p.start, w).Some? && ClosedWalk(p.def, nodes) && k < |w|
    ensures w[k] !in nodes
    decreases k
  {
    hide Execute, ValidPrecondition, ValidEffect, ValidUse, ActionIndex, ValidGoal, ValidLink, ValidService;
    if w[k] in nodes {
      var i :| 0 <= i < |nodes| && nodes[i] == w[k];
      var at := if i == 0 then |nodes| - 1 else i;
      assert Edge(p.def, nodes[at - 1], nodes[at - 1 + 1]);
      var list := p.def.actions[w[k]].dependencies;
      var d :| 0 <= d < |list| && ActionIndex(p.def, list[d].predecessor) == Some(nodes[at - 1]);
      assert ValidDependency(p.def, p.def.actions[w[k]], list[d]);
      DependenciesWereMet(p.def, p.policy, p.start, w, k, d);
      var j := CountedOccurs(w[..k], nodes[at - 1]);
      CycleNeverRuns(p, limits, w, nodes, j);
    }
  }

  // ---- What a cycle does not mean -------------------------------------------

  function SmallAction(id: U64, effects: seq<Effect>, dependencies: seq<ActionDependency>): ActionSpec {
    ActionSpec(id, [], Restore, Irreversible, 0, 0, 0, 0, 0, 1, FabricStateDomain, NoAuthority, [], effects, [],
               dependencies, [])
  }

  // Actions 1 and 2 wait for each other; action 3 brings the link up on its own.
  const CYCLIC: FabricDefinition :=
    FabricDefinition(
      [NodeSpec(1, false), NodeSpec(2, false)], [LinkSpec(7, 1, 2)], [], [],
      [SmallAction(1, [], [ActionDependency(2, 1)]),
       SmallAction(2, [], [ActionDependency(1, 1)]),
       SmallAction(3, [Effect(SetLink, Subject(LinkSubject, 7), 1)], [])],
      [GoalSpec(LinkGoal, Subject(LinkSubject, 7), 1, 1)], [])

  const PERMISSIVE: PlanPolicy := PlanPolicy(true, false, 5, 100, 100, 100, 1)

  const DOWN: FabricState :=
    FabricState([false, false], [false], [], [], [], [0, 0, 0], [true, true], [true], [], [], 0)

  lemma CyclicIsCyclic()
    ensures HasCycle(CYCLIC)
  {
    assert ActionIds(CYCLIC)[0] == 1 && ActionIds(CYCLIC)[1] == 2 && ActionIds(CYCLIC)[2] == 3;
    FindUnique(ActionIds(CYCLIC), 0);
    FindUnique(ActionIds(CYCLIC), 1);
    assert CYCLIC.actions[1].dependencies[0].predecessor == 1;
    assert CYCLIC.actions[0].dependencies[0].predecessor == 2;
    assert Edge(CYCLIC, 0, 1) && Edge(CYCLIC, 1, 0);
    assert ClosedWalk(CYCLIC, [0, 1, 0]);
  }

  lemma ActionsAreThere()
    ensures ActionIndex(CYCLIC, 1) == Some(0) && ActionIndex(CYCLIC, 2) == Some(1)
  {
    assert ActionIds(CYCLIC)[0] == 1 && ActionIds(CYCLIC)[1] == 2 && ActionIds(CYCLIC)[2] == 3;
    FindUnique(ActionIds(CYCLIC), 0);
    FindUnique(ActionIds(CYCLIC), 1);
  }

  lemma CyclicActionsAreValid(a: nat)
    requires a < |CYCLIC.actions|
    ensures ValidAction(CYCLIC, DEFAULT_LIMITS, CYCLIC.actions[a])
  {
    LinkIsThere();
    ActionsAreThere();
    hide ActionIndex, LinkIndex;
    if a < 2 {
      assert ValidDependency(CYCLIC, CYCLIC.actions[a], CYCLIC.actions[a].dependencies[0]);
    } else {
      assert ValidEffect(CYCLIC, CYCLIC.actions[2].effects[0]);
    }
  }

  lemma CyclicIdsAreValid()
    ensures ValidIds(CYCLIC)
  {
    assert NodeIds(CYCLIC) == [1, 2] && LinkIds(CYCLIC) == [7] && ActionIds(CYCLIC) == [1, 2, 3];
    assert ServiceIds(CYCLIC) == [] && ResourceIds(CYCLIC) == [] && GroupIds(CYCLIC) == [];
  }

  lemma CyclicIsValid()
    ensures ValidDefinition(CYCLIC, DEFAULT_LIMITS)
  {
    LinkIsThere();
    NodesAreThere();
    CyclicIdsAreValid();
    forall a | 0 <= a < |CYCLIC.actions|
      ensures ValidAction(CYCLIC, DEFAULT_LIMITS, CYCLIC.actions[a])
    {
      CyclicActionsAreValid(a);
    }
    hide ValidAction, ValidIds, NodeIndex, LinkIndex;
    assert ValidLink(CYCLIC, CYCLIC.links[0]) && ValidGoal(CYCLIC, CYCLIC.goals[0]);
  }

  lemma NodesAreThere()
    ensures NodeIndex(CYCLIC, 1).Some? && NodeIndex(CYCLIC, 2).Some?
  {
    assert NodeIds(CYCLIC)[0] == 1 && NodeIds(CYCLIC)[1] == 2;
    FindUnique(NodeIds(CYCLIC), 0);
    FindUnique(NodeIds(CYCLIC), 1);
  }

  lemma LinkIsThere()
    ensures LinkIndex(CYCLIC, 7) == Some(0)
  {
    assert LinkIds(CYCLIC)[0] == 7;
    FindUnique(LinkIds(CYCLIC), 0);
  }

  const UP: FabricState :=
    FabricState([false, false], [true], [], [], [], [0, 0, 1], [true, true], [true], [], [], 0)

  lemma EffectRuns()
    ensures ApplyEffects(CYCLIC, DOWN, CYCLIC.actions[2].effects) == Some(UP.(occurrences := [0, 0, 0]))
  {
    var effects := CYCLIC.actions[2].effects;
    LinkIsThere();
    assert DOWN.linkUp[0 := true] == [true] && DOWN.linkKnown[0 := true] == [true];
    assert ApplyEffect(CYCLIC, DOWN, effects[0]) == Some(UP.(occurrences := [0, 0, 0]));
    assert effects[1..] == [];
  }

  lemma ThirdEvolves()
    ensures Evolve(CYCLIC, DOWN, 2) == Some(UP)
  {
    EffectRuns();
    var action, changed := CYCLIC.actions[2], UP.(occurrences := [0, 0, 0]);
    assert Consume(CYCLIC, changed, action.uses) == changed;
    assert FloorGap(CYCLIC, changed) == 0 && FloorGap(CYCLIC, DOWN) == 0;
    assert changed.occurrences[2 := 1] == [0, 0, 1];
  }

  lemma ThirdRuns()
    ensures Step(CYCLIC, PERMISSIVE, DOWN, Held(CYCLIC, []), 2) == Some(UP)
  {
    hide Evolve;
    ThirdEvolves();
    assert Ready(CYCLIC, PERMISSIVE, DOWN, 2);
    assert Fits(CYCLIC, 2, Held(CYCLIC, []));
  }

  /** The planner declares a request with a dependency cycle infeasible, although a plan that
      keeps away from the cycle may exist: this one does. */
  lemma CycleIsNotInfeasible()
    ensures ValidDefinition(CYCLIC, DEFAULT_LIMITS)
    ensures HasCycle(CYCLIC) && IsPlan(CYCLIC, PERMISSIVE, DOWN, [2])
  {
    CyclicIsValid();
    hide HasCycle, ValidDefinition;
    CyclicIsCyclic();
    UpIsReached();
    UpIsGoal();
    hide Execute, GoalsMet;
  }

  lemma UpIsReached()
    ensures Execute(CYCLIC, PERMISSIVE, DOWN, [2]).Some?
    ensures Execute(CYCLIC, PERMISSIVE, DOWN, [2]).value.state == UP
  {
    hide Step, Held, StepCost;
    ThirdRuns();
    var none: seq<nat> := [];
    ExecuteSnoc(CYCLIC, PERMISSIVE, DOWN, none, 2);
    assert none + [2] == [2];
  }

  lemma UpIsGoal()
    ensures GoalsMet(CYCLIC, UP)
  {
    LinkIsThere();
    assert |CYCLIC.goals| == 1;
    assert GoalMet(CYCLIC, UP, CYCLIC.goals[0]);
  }
}
