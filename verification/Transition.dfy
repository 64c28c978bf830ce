/** The planner's compiled view of a definition and its step-by-step transition. */
module Transition {
  import opened Ints
  import opened Domain
  import opened Objectives
  import opened Dynamics
  import opened Definition
  import opened Evidence
  import opened Holds
  import opened Problems

  // ---- Compiled view --------------------------------------------------------

  // Index lists that replace per-step lookups.
  datatype Compiled = Compiled(
    dependencies: seq<seq<nat>>,
    groups: seq<seq<nat>>,
    resources: seq<seq<nat>>,
    members: seq<seq<nat>>,
    stepBound: U64,
    overflows: bool)

  // Which of the first k actions belong to the group, in order.
  function MembersOf(def: FabricDefinition, group: U64, k: nat): (m: seq<nat>)
    requires k <= |def.actions|
    ensures forall i :: 0 <= i < |m| ==> m[i] < k
  {
    if k == 0 then []
    else MembersOf(def, group, k - 1) + if group in def.actions[k - 1].groups then [k - 1] else []
  }

  predicate DependenciesCompiled(def: FabricDefinition, a: nat, indices: seq<nat>)
    requires a < |def.actions|
  {
    var list := def.actions[a].dependencies;
    |indices| == |list| && forall i :: 0 <= i < |list| ==> ActionIndex(def, list[i].predecessor) == Some(indices[i])
  }

  predicate ResourcesCompiled(def: FabricDefinition, a: nat, indices: seq<nat>)
    requires a < |def.actions|
  {
    var list := def.actions[a].uses;
    |indices| == |list| && forall i :: 0 <= i < |list| ==> ResourceIndex(def, list[i].resource) == Some(indices[i])
  }

  predicate GroupsCompiled(def: FabricDefinition, a: nat, indices: seq<nat>)
    requires a < |def.actions|
  {
    var list := def.actions[a].groups;
    |indices| == |list| && forall i :: 0 <= i < |list| ==> GroupIndex(def, list[i]) == Some(indices[i])
  }

  predicate CompiledFor(def: FabricDefinition, c: Compiled) {
    && |c.dependencies| == |c.groups| == |c.resources| == |def.actions|
    && |c.members| == |def.groups|
    && (forall a :: 0 <= a < |def.actions| ==> DependenciesCompiled(def, a, c.dependencies[a]))
    && (forall a :: 0 <= a < |def.actions| ==> ResourcesCompiled(def, a, c.resources[a]))
    && (forall a :: 0 <= a < |def.actions| ==> GroupsCompiled(def, a, c.groups[a]))
    && (forall g :: 0 <= g < |def.groups| ==> c.members[g] == MembersOf(def, def.groups[g].id, |def.actions|))
    && (c.overflows <==> OccurrenceBound(def) > MAX_U64)
    && (!c.overflows ==> c.stepBound == OccurrenceBound(def))
  }

  method CompileDependencies(def: FabricDefinition, limits: ModelLimits, a: nat) returns (indices: seq<nat>)
    requires a < |def.actions| && ValidAction(def, limits, def.actions[a])
    ensures DependenciesCompiled(def, a, indices)
  {
    hide ActionIndex;
    indices := [];
    var list := def.actions[a].dependencies;
    for i := 0 to |list|
      invariant |indices| == i
      invariant forall j :: 0 <= j < i ==> ActionIndex(def, list[j].predecessor) == Some(indices[j])
    {
      assert ValidDependency(def, def.actions[a], list[i]);
      indices := indices + [ActionIndex(def, list[i].predecessor).value];
    }
  }

  method CompileResources(def: FabricDefinition, limits: ModelLimits, a: nat) returns (indices: seq<nat>)
    requires a < |def.actions| && ValidAction(def, limits, def.actions[a])
    ensures ResourcesCompiled(def, a, indices)
  {
    hide ResourceIndex;
    indices := [];
    var list := def.actions[a].uses;
    for i := 0 to |list|
      invariant |indices| == i
      invariant forall j :: 0 <= j < i ==> ResourceIndex(def, list[j].resource) == Some(indices[j])
    {
      assert ValidUse(def, list[i]);
      indices := indices + [ResourceIndex(def, list[i].resource).value];
    }
  }

  /** Scans the declared groups for each listed one and files the action under it. */
  method CompileGroups(def: FabricDefinition, limits: ModelLimits, a: nat, members: seq<seq<nat>>)
    returns (indices: seq<nat>, filed: seq<seq<nat>>)
    requires a < |def.actions| && ValidAction(def, limits, def.actions[a])
    requires Distinct(GroupIds(def))
    requires |members| == |def.groups|
    requires forall g :: 0 <= g < |def.groups| ==> members[g] == MembersOf(def, def.groups[g].id, a)
    ensures GroupsCompiled(def, a, indices)
    ensures |filed| == |def.groups|
    ensures forall g :: 0 <= g < |def.groups| ==> filed[g] == MembersOf(def, def.groups[g].id, a + 1)
  {
    hide GroupIndex, MembersOf, Distinct;
    indices, filed := [], members;
    var list := def.actions[a].groups;
    for i := 0 to |list|
      invariant |indices| == i && |filed| == |def.groups|
      invariant forall j :: 0 <= j < i ==> GroupIndex(def, list[j]) == Some(indices[j])
      invariant forall g :: 0 <= g < |def.groups| ==>
                  filed[g] == members[g] + if def.groups[g].id in list[..i] then [a] else []
    {
      assert GroupIndex(def, list[i]).Some?;
      var g := 0;
      while def.groups[g].id != list[i]
        invariant g < |def.groups|
        invariant forall h :: 0 <= h < g ==> def.groups[h].id != list[i]
        decreases |def.groups| - g
      {
        AnotherGroup(def, list[i], g);
        g := g + 1;
      }
      GroupAt(def, list[i], g);
      ListedOnce(list, i);
      indices := indices + [g];
      FileGroup(def, filed, members, list, i, g, a);
      filed := filed[g := filed[g] + [a]];
    }
    assert list[..|list|] == list;
    forall g | 0 <= g < |def.groups|
      ensures filed[g] == MembersOf(def, def.groups[g].id, a + 1)
    {
      MembersSnoc(def, def.groups[g].id, a);
    }
  }

  lemma AnotherGroup(def: FabricDefinition, id: U64, g: nat)
    requires GroupIndex(def, id).Some? && g < |def.groups|
    requires forall h :: 0 <= h <= g ==> def.groups[h].id != id
    ensures g + 1 < |def.groups|
  {
  }

  lemma GroupAt(def: FabricDefinition, id: U64, g: nat)
    requires Distinct(GroupIds(def)) && g < |def.groups| && def.groups[g].id == id
    ensures GroupIndex(def, id) == Some(g)
  {
    FindUnique(GroupIds(def), g);
  }

  lemma ListedOnce(list: seq<U64>, i: nat)
    requires GoodIds(list) && i < |list|
    ensures list[i] !in list[..i]
    ensures list[..i + 1] == list[..i] + [list[i]]
  {
  }

  lemma FileGroup(def: FabricDefinition, filed: seq<seq<nat>>, members: seq<seq<nat>>, list: seq<U64>, i: nat, g: nat,
                  a: nat)
    requires |filed| == |members| == |def.groups| && i < |list| && g < |def.groups| && Distinct(GroupIds(def))
    requires def.groups[g].id == list[i] && list[i] !in list[..i] && list[..i + 1] == list[..i] + [list[i]]
    requires forall h :: 0 <= h < |def.groups| ==>
               filed[h] == members[h] + if def.groups[h].id in list[..i] then [a] else []
    ensures forall h :: 0 <= h < |def.groups| ==>
              filed[g := filed[g] + [a]][h] == members[h] + if def.groups[h].id in list[..i + 1] then [a] else []
  {
    forall h | 0 <= h < |def.groups|
      ensures filed[g := filed[g] + [a]][h] == members[h] + if def.groups[h].id in list[..i + 1] then [a] else []
    {
      if h != g {
        assert GroupIds(def)[h] != GroupIds(def)[g];
      }
    }
  }

  lemma MembersSnoc(def: FabricDefinition, group: U64, a: nat)
    requires a < |def.actions|
    ensures MembersOf(def, group, a + 1)
         == MembersOf(def, group, a) + if group in def.actions[a].groups then [a] else []
  {
  }

  function Limited(def: FabricDefinition, k: nat): nat
    requires k <= |def.actions|
  {
    TotalOccurrences(OccurrenceLimits(def)[..k])
  }

  lemma {:induction false} TotalSnoc(counts: seq<nat>, x: nat)
    ensures TotalOccurrences(counts + [x]) == TotalOccurrences(counts) + x
  {
    if |counts| > 0 {
      TotalSnoc(counts[1..], x);
      assert (counts + [x])[1..] == counts[1..] + [x];
    }
  }

  lemma LimitedSnoc(def: FabricDefinition, a: nat)
    requires a < |def.actions|
    ensures Limited(def, a + 1) == Limited(def, a) + def.actions[a].maxOccurrences
  {
    var limits := OccurrenceLimits(def);
    assert limits[..a + 1] == limits[..a] + [limits[a]];
    TotalSnoc(limits[..a], limits[a]);
  }

  /** The checked sum of the occurrence limits, with a sticky overflow mark. */
  method CompileBound(def: FabricDefinition) returns (stepBound: U64, overflows: bool)
    ensures overflows <==> OccurrenceBound(def) > MAX_U64
    ensures !overflows ==> stepBound == OccurrenceBound(def)
  {
    stepBound, overflows := 0, false;
    for a := 0 to |def.actions|
      invariant overflows <==> Limited(def, a) > MAX_U64
      invariant !overflows ==> stepBound == Limited(def, a)
    {
      LimitedSnoc(def, a);
      if stepBound + def.actions[a].maxOccurrences > MAX_U64 {
        overflows := true;
      } else {
        stepBound := stepBound + def.actions[a].maxOccurrences;
      }
    }
    assert OccurrenceLimits(def)[..|def.actions|] == OccurrenceLimits(def);
  }

  method Compile(def: FabricDefinition, limits: ModelLimits) returns (c: Compiled)
    requires ValidDefinition(def, limits)
    ensures CompiledFor(def, c)
  {
    hide ValidAction, DependenciesCompiled, ResourcesCompiled, GroupsCompiled, Distinct, ValidSizes;
    var dependencies: seq<seq<nat>>, groups: seq<seq<nat>>, resources: seq<seq<nat>> := [], [], [];
    var members := seq(|def.groups|, i => []);
    for a := 0 to |def.actions|
      invariant |dependencies| == |groups| == |resources| == a && |members| == |def.groups|
      invariant forall b :: 0 <= b < a ==> DependenciesCompiled(def, b, dependencies[b])
      invariant forall b :: 0 <= b < a ==> ResourcesCompiled(def, b, resources[b])
      invariant forall b :: 0 <= b < a ==> GroupsCompiled(def, b, groups[b])
      invariant forall g :: 0 <= g < |def.groups| ==> members[g] == MembersOf(def, def.groups[g].id, a)
    {
      var d := CompileDependencies(def, limits, a);
      var r := CompileResources(def, limits, a);
      var g, filed := CompileGroups(def, limits, a, members);
      dependencies, resources, groups, members := dependencies + [d], resources + [r], groups + [g], filed;
    }
    var stepBound, overflows := CompileBound(def);
    c := Compiled(dependencies, groups, resources, members, stepBound, overflows);
  }

  // ---- Guards, one loop each ------------------------------------------------

  method DependenciesHold(def: FabricDefinition, c: Compiled, s: FabricState, a: nat) returns (ok: bool)
    requires CompiledFor(def, c) && Shaped(def, s) && a < |def.actions|
    ensures ok <==> forall d | 0 <= d < |def.actions[a].dependencies| ::
                      DependencyMet(def, s, def.actions[a].dependencies[d])
  {
    hide ActionIndex;
    var list, indices := def.actions[a].dependencies, c.dependencies[a];
    assert DependenciesCompiled(def, a, indices);
    for i := 0 to |list|
      invariant forall j :: 0 <= j < i ==> DependencyMet(def, s, list[j])
    {
      assert ActionIndex(def, list[i].predecessor) == Some(indices[i]);
      if s.occurrences[indices[i]] < list[i].minOccurrences {
        assert !DependencyMet(def, s, list[i]);
        return false;
      }
    }
    return true;
  }

  function Active(s: FabricState, members: seq<nat>): nat
    requires forall i :: 0 <= i < |members| ==> members[i] < |s.occurrences|
  {
    if |members| == 0 then 0
    else Active(s, members[..|members| - 1]) + if s.occurrences[members[|members| - 1]] > 0 then 1 else 0
  }

  // Counting the executed members of a group is counting the executed actions in it.
  lemma {:induction false} ActiveMembers(def: FabricDefinition, s: FabricState, group: U64, k: nat)
    requires Shaped(def, s) && k <= |def.actions|
    ensures Active(s, MembersOf(def, group, k)) == Selected(def, s, group, k)
  {
    if k > 0 {
      ActiveMembers(def, s, group, k - 1);
      var m := MembersOf(def, group, k);
      if group in def.actions[k - 1].groups {
        assert m[..|m| - 1] == MembersOf(def, group, k - 1);
      } else {
        assert m == MembersOf(def, group, k - 1);
      }
    }
  }

  method CountActive(s: FabricState, members: seq<nat>) returns (selected: nat)
    requires forall i :: 0 <= i < |members| ==> members[i] < |s.occurrences|
    ensures selected == Active(s, members)
  {
    selected := 0;
    for i := 0 to |members|
      invariant selected == Active(s, members[..i])
    {
      assert members[..i + 1][..i] == members[..i];
      if s.occurrences[members[i]] > 0 {
        selected := selected + 1;
      }
    }
    assert members[..|members|] == members;
  }

  method GroupsOpen(def: FabricDefinition, c: Compiled, s: FabricState, a: nat) returns (ok: bool)
    requires CompiledFor(def, c) && Shaped(def, s) && a < |def.actions|
    ensures ok <==> forall g | 0 <= g < |def.actions[a].groups| :: GroupOpen(def, s, def.actions[a].groups[g])
  {
    hide GroupIndex, MembersOf;
    var list, indices := def.actions[a].groups, c.groups[a];
    assert GroupsCompiled(def, a, indices);
    for i := 0 to |list|
      invariant forall j :: 0 <= j < i ==> GroupOpen(def, s, list[j])
    {
      var g := indices[i];
      assert GroupIndex(def, list[i]) == Some(g);
      assert c.members[g] == MembersOf(def, list[i], |def.actions|);
      ActiveMembers(def, s, list[i], |def.actions|);
      var selected := CountActive(s, c.members[g]);
      if selected >= def.groups[g].maxSelected {
        assert !GroupOpen(def, s, list[i]);
        return false;
      }
    }
    return true;
  }

  /** Checks the preconditions in order and collects the evidence they rest on. */
  method EstablishPreconditions(def: FabricDefinition, table: ResolutionTable, s: FabricState, list: seq<Precondition>)
    returns (ok: bool, bindings: set<EvidenceBinding>)
    requires Shaped(def, s)
    ensures ok <==> forall p | 0 <= p < |list| :: PreconditionHolds(def, s, list[p])
    ensures ok ==> bindings == BindingsFor(table, list)
  {
    hide PreconditionKnown;
    bindings := {};
    for i := 0 to |list|
      invariant forall j :: 0 <= j < i ==> PreconditionHolds(def, s, list[j])
      invariant bindings == set j | 0 <= j < i && BindingFor(table, list[j]).Some? :: BindingFor(table, list[j]).value
    {
      // What is not known is refused before its value is looked at.
      if !PreconditionKnown(def, s, list[i]) || !PreconditionHolds(def, s, list[i]) {
        return false, {};
      }
      match BindingFor(table, list[i]) {
        case None =>
        case Some(binding) => bindings := bindings + {binding};
      }
    }
    return true, bindings;
  }

  method SumHolds(holds: seq<Hold>, r: nat) returns (held: nat)
    ensures held == SumOf(holds, r)
  {
    held := 0;
    for i := 0 to |holds|
      invariant held + SumOf(holds[i..], r) == SumOf(holds, r)
    {
      assert holds[i..][1..] == holds[i + 1..];
      if holds[i].resource == r {
        held := held + holds[i].units;
      }
    }
  }

  // One use against the state and the carried holds.
  predicate UseFree(def: FabricDefinition, s: FabricState, held: seq<nat>, use: ResourceUse)
    requires Shaped(def, s) && |held| == |def.resources|
  {
    var r := ResourceIndex(def, use.resource);
    r.Some? &&
    match def.resources[r.value].kind
    case Consumable => s.resourceKnown[r.value] && s.available[r.value] >= use.units
    case Reusable => held[r.value] + use.units <= def.resources[r.value].capacity
  }

  lemma UsesFree(def: FabricDefinition, s: FabricState, held: seq<nat>, a: nat)
    requires Shaped(def, s) && |held| == |def.resources| && a < |def.actions|
    ensures (forall u :: 0 <= u < |def.actions[a].uses| ==> UseFree(def, s, held, def.actions[a].uses[u]))
       <==> (forall u | 0 <= u < |def.actions[a].uses| :: ConsumableReady(def, s, def.actions[a].uses[u]))
            && Fits(def, a, held)
  {
    hide ResourceIndex;
    var uses := def.actions[a].uses;
    if forall u :: 0 <= u < |uses| ==> UseFree(def, s, held, uses[u]) {
      forall u | 0 <= u < |uses|
        ensures ConsumableReady(def, s, uses[u])
      {
        assert UseFree(def, s, held, uses[u]);
      }
      forall u | 0 <= u < |uses|
        ensures var r := ResourceIndex(def, uses[u].resource);
                r.Some? && (def.resources[r.value].kind == Reusable ==>
                  held[r.value] + uses[u].units <= def.resources[r.value].capacity)
      {
        assert UseFree(def, s, held, uses[u]);
      }
    } else {
      var u :| 0 <= u < |uses| && !UseFree(def, s, held, uses[u]);
      if ConsumableReady(def, s, uses[u]) {
        assert !Fits(def, a, held);
      }
    }
  }

  method ResourcesFree(def: FabricDefinition, c: Compiled, config: Config, a: nat) returns (ok: bool)
    requires CompiledFor(def, c) && Shaped(def, config.state) && a < |def.actions|
    ensures ok <==> (forall u | 0 <= u < |def.actions[a].uses| ::
                       ConsumableReady(def, config.state, def.actions[a].uses[u]))
                    && Fits(def, a, HeldBy(def, config.holds))
  {
    hide ResourceIndex, Fits, ConsumableReady;
    var uses, indices, s := def.actions[a].uses, c.resources[a], config.state;
    ghost var held := HeldBy(def, config.holds);
    assert ResourcesCompiled(def, a, indices);
    UsesFree(def, s, held, a);
    for i := 0 to |uses|
      invariant forall j :: 0 <= j < i ==> UseFree(def, s, held, uses[j])
    {
      var r := indices[i];
      assert ResourceIndex(def, uses[i].resource) == Some(r);
      if def.resources[r].kind == Consumable {
        if !s.resourceKnown[r] || s.available[r] < uses[i].units {
          assert !UseFree(def, s, held, uses[i]);
          return false;
        }
      } else {
        var sum := SumHolds(config.holds, r);
        if sum + uses[i].units > def.resources[r].capacity {
          assert !UseFree(def, s, held, uses[i]);
          return false;
        }
      }
    }
    return true;
  }

  // ---- Evolution, one loop each ---------------------------------------------

  method Shortfall(def: FabricDefinition, s: FabricState, targets: bool) returns (total: nat)
    requires Shaped(def, s)
    ensures total == ShortfallOf(def, s, targets, |def.services|)
  {
    total := 0;
    for i := 0 to |def.services|
      invariant total == ShortfallOf(def, s, targets, i)
    {
      var reference := if targets then def.services[i].target else def.services[i].required;
      if reference != 0 {
        if !s.serviceKnown[i] {
          total := total + reference;
        } else if s.reachable[i] < reference {
          total := total + (reference - s.reachable[i]);
        }
      }
    }
  }

  method RunEffects(def: FabricDefinition, s: FabricState, effects: seq<Effect>) returns (r: Option<FabricState>)
    requires Shaped(def, s)
    ensures r == ApplyEffects(def, s, effects)
  {
    hide ApplyEffect;
    var next := s;
    assert effects[0..] == effects;
    for i := 0 to |effects|
      invariant Shaped(def, next)
      invariant ApplyEffects(def, next, effects[i..]) == ApplyEffects(def, s, effects)
    {
      assert effects[i..][1..] == effects[i + 1..];
      match ApplyEffect(def, next, effects[i]) {
        case None => return None;
        case Some(changed) => next := changed;
      }
    }
    return Some(next);
  }

  method SpendUnits(def: FabricDefinition, c: Compiled, s: FabricState, a: nat) returns (next: FabricState)
    requires CompiledFor(def, c) && Shaped(def, s) && a < |def.actions|
    ensures next == Consume(def, s, def.actions[a].uses)
  {
    hide ResourceIndex, Wrap32;
    var uses, indices := def.actions[a].uses, c.resources[a];
    assert ResourcesCompiled(def, a, indices);
    next := s;
    assert uses[0..] == uses;
    for i := 0 to |uses|
      invariant Shaped(def, next)
      invariant Consume(def, next, uses[i..]) == Consume(def, s, uses)
    {
      assert uses[i..][1..] == uses[i + 1..];
      var r := indices[i];
      assert ResourceIndex(def, uses[i].resource) == Some(r);
      if def.resources[r].kind == Consumable {
        next := next.(available := next.available[r := Wrap32(next.available[r] - uses[i].units)]);
      }
    }
  }

  method AgeHolds(holds: seq<Hold>) returns (carried: seq<Hold>)
    ensures carried == Decay(holds)
  {
    carried := [];
    for i := 0 to |holds|
      invariant carried + Decay(holds[i..]) == Decay(holds)
    {
      assert holds[i..][1..] == holds[i + 1..];
      // Decay keeps exactly the holds with a later step still to cover.
      if holds[i].remaining > 1 {
        carried := carried + [holds[i].(remaining := holds[i].remaining - 1)];
      }
    }
  }

  lemma Regroup(x: seq<Hold>, y: seq<Hold>, z: seq<Hold>)
    ensures (x + y) + z == x + (y + z)
  {
  }

  lemma FirstUse(def: FabricDefinition, uses: seq<ResourceUse>, i: nat)
    requires i < |uses|
    ensures HoldsOfAge(def, uses[i..], 1) == HoldOfAge(def, uses[i], 1) + HoldsOfAge(def, uses[i + 1..], 1)
  {
    assert uses[i..][1..] == uses[i + 1..];
  }

  // With a window of one step there is nothing left to hold afterwards.
  method NewHold(def: FabricDefinition, use: ResourceUse, r: nat) returns (made: seq<Hold>)
    requires ResourceIndex(def, use.resource) == Some(r)
    ensures made == HoldOfAge(def, use, 1)
  {
    if def.resources[r].kind == Reusable && def.resources[r].holdSteps > 1 {
      made := [Hold(r, use.units, def.resources[r].holdSteps - 1)];
    } else {
      made := [];
    }
  }

  method NewHolds(def: FabricDefinition, c: Compiled, a: nat) returns (made: seq<Hold>)
    requires CompiledFor(def, c) && a < |def.actions|
    ensures made == HoldsOfAge(def, def.actions[a].uses, 1)
  {
    hide ResourceIndex, HoldOfAge, HoldsOfAge;
    var uses, indices := def.actions[a].uses, c.resources[a];
    assert ResourcesCompiled(def, a, indices);
    made := [];
    assert uses[0..] == uses;
    for i := 0 to |uses|
      invariant made + HoldsOfAge(def, uses[i..], 1) == HoldsOfAge(def, uses, 1)
    {
      assert ResourceIndex(def, uses[i].resource) == Some(indices[i]);
      var hold := NewHold(def, uses[i], indices[i]);
      FirstUse(def, uses, i);
      Regroup(made, hold, HoldsOfAge(def, uses[i + 1..], 1));
      made := made + hold;
    }
    NoUses(def, uses[|uses|..]);
  }

  lemma NoUses(def: FabricDefinition, uses: seq<ResourceUse>)
    requires |uses| == 0
    ensures HoldsOfAge(def, uses, 1) == []
  {
  }

  /** Ages the carried holds, adds the new ones and restores the profile order. */
  method CarryHolds(def: FabricDefinition, c: Compiled, holds: seq<Hold>, a: nat) returns (next: seq<Hold>)
    requires CompiledFor(def, c) && a < |def.actions|
    ensures next == NextHolds(def, holds, a)
  {
    hide Sort, Decay, HoldsOfAge, CompiledFor;
    var carried := AgeHolds(holds);
    var made := NewHolds(def, c, a);
    next := Sort(carried + made);
  }

  // ---- The transition -------------------------------------------------------

  datatype Transition = Transition(
    config: Config,
    delta: Objective,
    bindings: set<EvidenceBinding>,
    occurrence: U32,
    startTick: U64,
    endTick: U64)

  // What an admissible transition reports about itself.
  predicate Reports(def: FabricDefinition, table: ResolutionTable, before: FabricState, a: nat, t: Transition)
    requires Shaped(def, before) && Shaped(def, t.config.state) && a < |def.actions|
  {
    && t.delta == StepCost(def, before, t.config.state, a)
    && t.bindings == BindingsFor(table, def.actions[a].preconditions)
    && t.occurrence == (before.occurrences[a] as nat) + 1
    && t.startTick == before.tick
    && t.endTick == (before.tick as nat) + def.actions[a].duration
  }

  /** One transition of the planner: the guards in order, the effects, the spending, the
      floor, the holds, the policy and the tick.  It is admissible exactly when the
      specification advances, and then it yields the specified configuration. */
  method Apply(def: FabricDefinition, limits: ModelLimits, policy: PlanPolicy, c: Compiled, table: ResolutionTable,
               config: Config, incompletenessNow: nat, a: nat)
    returns (r: Option<Transition>)
    requires ValidDefinition(def, limits) && CompiledFor(def, c)
    requires Shaped(def, config.state) && a < |def.actions|
    requires incompletenessNow == Incompleteness(def, config.state)
    ensures r.Some? <==> Advance(def, policy, config, a).Some?
    ensures r.Some? ==> Some(r.value.config) == Advance(def, policy, config, a)
    ensures r.Some? ==> Shaped(def, r.value.config.state) && Reports(def, table, config.state, a, r.value)
  {
    hide ValidDefinition, CompiledFor, DependencyMet, GroupOpen, PreconditionHolds, ConsumableReady, Fits, HeldBy;
    hide ApplyEffects, Consume, NextHolds, BindingsFor, ShortfallOf;
    var action, s := def.actions[a], config.state;
    var executed := s.occurrences[a];
    if executed >= action.maxOccurrences {
      return None;
    }
    var ok := DependenciesHold(def, c, s, a);
    if !ok {
      return None;
    }
    if executed == 0 {
      ok := GroupsOpen(def, c, s, a);
      if !ok {
        return None;
      }
    }
    var bindings;
    ok, bindings := EstablishPreconditions(def, table, s, action.preconditions);
    if !ok {
      return None;
    }
    ok := ResourcesFree(def, c, config, a);
    if !ok {
      return None;
    }
    var before := Shortfall(def, s, false);
    var changed := RunEffects(def, s, action.effects);
    if changed.None? {
      return None;
    }
    var spent := SpendUnits(def, c, changed.value, a);
    var after := Shortfall(def, spent, false);
    if after > before {
      return None;
    }
    var holds := CarryHolds(def, c, config.holds, a);
    if action.reversibility == Irreversible && !policy.allowIrreversible {
      return None;
    }
    if s.tick + action.duration > MAX_U64 {
      return None;
    }
    var next := spent.(occurrences := spent.occurrences[a := executed + 1], tick := s.tick + action.duration);
    var completeness := Shortfall(def, next, true);
    var delta := [0, 0, if completeness > incompletenessNow then completeness - incompletenessNow else 0,
                  action.blastRadius, 1, action.disruption, action.cost, action.duration];
    r := Some(Transition(Config(next, holds), delta, bindings, executed + 1, s.tick, s.tick + action.duration));
  }
}
