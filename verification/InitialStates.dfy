/** The state that planning starts from, built three times: from the planner's table, by the
    validator from the grouped facts, and by the reference solver from the raw facts. */
module InitialStates {
  import opened Ints
  import opened Domain
  import opened Definition
  import opened Dynamics
  import opened Evidence
  import opened Reconcile

  type Values = map<EvidenceKey, U64>

  // ---- One cell per subject -------------------------------------------------

  function LinkKey(def: FabricDefinition, i: nat): EvidenceKey
    requires i < |def.links|
  {
    EvidenceKey(LinkFact, Subject(LinkSubject, def.links[i].id))
  }

  function NodeKey(def: FabricDefinition, i: nat): EvidenceKey
    requires i < |def.nodes|
  {
    EvidenceKey(NodeFact, Subject(NodeSubject, def.nodes[i].id))
  }

  function ServiceKey(def: FabricDefinition, i: nat): EvidenceKey
    requires i < |def.services|
  {
    EvidenceKey(ServiceFact, Subject(ServiceSubject, def.services[i].id))
  }

  function AvailableKey(def: FabricDefinition, i: nat): EvidenceKey
    requires i < |def.resources|
  {
    EvidenceKey(AvailableFact, Subject(ResourceSubject, def.resources[i].id))
  }

  function RestoredKey(def: FabricDefinition, i: nat): EvidenceKey
    requires i < |def.resources|
  {
    EvidenceKey(RestoredFact, Subject(ResourceSubject, def.resources[i].id))
  }

  function Lookup(values: Values, key: EvidenceKey, otherwise: U64): U64 {
    if key in values then values[key] else otherwise
  }

  predicate LinkReflects(def: FabricDefinition, s: FabricState, values: Values, i: nat)
    requires Shaped(def, s) && i < |def.links|
  {
    var key := LinkKey(def, i);
    s.linkKnown[i] == (key in values) && s.linkUp[i] == (Lookup(values, key, 0) != 0)
  }

  predicate NodeReflects(def: FabricDefinition, s: FabricState, values: Values, i: nat)
    requires Shaped(def, s) && i < |def.nodes|
  {
    var key := NodeKey(def, i);
    s.nodeKnown[i] == (key in values) && s.nodeUp[i] == (Lookup(values, key, 0) != 0)
  }

  predicate ServiceReflects(def: FabricDefinition, s: FabricState, values: Values, i: nat)
    requires Shaped(def, s) && i < |def.services|
  {
    var key := ServiceKey(def, i);
    s.serviceKnown[i] == (key in values) && s.reachable[i] == Wrap32(Lookup(values, key, 0))
  }

  // Without evidence a resource is taken to be at its capacity, but not known to be.
  predicate ResourceReflects(def: FabricDefinition, s: FabricState, values: Values, i: nat)
    requires Shaped(def, s) && i < |def.resources|
  {
    var available, restored := AvailableKey(def, i), RestoredKey(def, i);
    && s.resourceKnown[i] == (available in values || restored in values)
    && s.available[i] == Wrap32(Lookup(values, available, def.resources[i].capacity))
    && s.restored[i] == (Lookup(values, restored, 0) != 0)
  }

  // The state in which exactly these values are known and nothing has been executed.
  predicate Reflects(def: FabricDefinition, s: FabricState, values: Values) {
    && Shaped(def, s)
    && s.tick == 0
    && (forall a :: 0 <= a < |def.actions| ==> s.occurrences[a] == 0)
    && (forall i :: 0 <= i < |def.links| ==> LinkReflects(def, s, values, i))
    && (forall i :: 0 <= i < |def.nodes| ==> NodeReflects(def, s, values, i))
    && (forall i :: 0 <= i < |def.services| ==> ServiceReflects(def, s, values, i))
    && (forall i :: 0 <= i < |def.resources| ==> ResourceReflects(def, s, values, i))
  }

  /** The known values determine the state. */
  lemma ReflectsUnique(def: FabricDefinition, s: FabricState, t: FabricState, values: Values)
    requires Reflects(def, s, values) && Reflects(def, t, values)
    ensures s == t
  {
    hide LinkKey, NodeKey, ServiceKey, AvailableKey, RestoredKey, Lookup, Wrap32;
    forall i | 0 <= i < |def.links|
      ensures s.linkKnown[i] == t.linkKnown[i] && s.linkUp[i] == t.linkUp[i]
    {
      assert LinkReflects(def, s, values, i) && LinkReflects(def, t, values, i);
    }
    forall i | 0 <= i < |def.nodes|
      ensures s.nodeKnown[i] == t.nodeKnown[i] && s.nodeUp[i] == t.nodeUp[i]
    {
      assert NodeReflects(def, s, values, i) && NodeReflects(def, t, values, i);
    }
    forall i | 0 <= i < |def.services|
      ensures s.serviceKnown[i] == t.serviceKnown[i] && s.reachable[i] == t.reachable[i]
    {
      assert ServiceReflects(def, s, values, i) && ServiceReflects(def, t, values, i);
    }
    forall i | 0 <= i < |def.resources|
      ensures s.resourceKnown[i] == t.resourceKnown[i] && s.available[i] == t.available[i]
      ensures s.restored[i] == t.restored[i]
    {
      assert ResourceReflects(def, s, values, i) && ResourceReflects(def, t, values, i);
    }
    assert s.linkKnown == t.linkKnown && s.linkUp == t.linkUp && s.nodeKnown == t.nodeKnown && s.nodeUp == t.nodeUp;
    assert s.serviceKnown == t.serviceKnown && s.reachable == t.reachable && s.occurrences == t.occurrences;
    assert s.resourceKnown == t.resourceKnown && s.available == t.available && s.restored == t.restored;
  }

  // A key about a defined subject of the kind that its evidence is about.
  predicate TypedKey(def: FabricDefinition, key: EvidenceKey) {
    key.subject.kind == FactSubject(key.kind) && SubjectIndex(def, key.subject).Some?
  }

  // Nothing known, nothing executed, every resource at its capacity.
  function Blank(def: FabricDefinition): FabricState {
    FabricState(
      seq(|def.nodes|, i => false), seq(|def.links|, i => false), seq(|def.resources|, i => false),
      seq(|def.resources|, i requires 0 <= i < |def.resources| => def.resources[i].capacity),
      seq(|def.services|, i => 0), seq(|def.actions|, i => 0), seq(|def.nodes|, i => false),
      seq(|def.links|, i => false), seq(|def.resources|, i => false), seq(|def.services|, i => false), 0)
  }

  lemma BlankReflects(def: FabricDefinition)
    ensures Reflects(def, Blank(def), map[])
  {
  }

  // Cells of another kind keep what they reflect.
  lemma Unwritten(def: FabricDefinition, s: FabricState, t: FabricState, values: Values, next: Values,
                  key: EvidenceKey, value: U64)
    requires Reflects(def, s, values) && Shaped(def, t) && next == values[key := value]
    ensures key.kind != LinkFact && t.linkUp == s.linkUp && t.linkKnown == s.linkKnown ==>
              forall i :: 0 <= i < |def.links| ==> LinkReflects(def, t, next, i)
    ensures key.kind != NodeFact && t.nodeUp == s.nodeUp && t.nodeKnown == s.nodeKnown ==>
              forall i :: 0 <= i < |def.nodes| ==> NodeReflects(def, t, next, i)
    ensures key.kind != ServiceFact && t.reachable == s.reachable && t.serviceKnown == s.serviceKnown ==>
              forall i :: 0 <= i < |def.services| ==> ServiceReflects(def, t, next, i)
    ensures key.kind != AvailableFact && key.kind != RestoredFact && t.available == s.available
            && t.resourceKnown == s.resourceKnown && t.restored == s.restored ==>
              forall i :: 0 <= i < |def.resources| ==> ResourceReflects(def, t, next, i)
  {
    hide Wrap32;
    forall i | 0 <= i < |def.links| && key.kind != LinkFact && t.linkUp == s.linkUp && t.linkKnown == s.linkKnown
      ensures LinkReflects(def, t, next, i)
    {
      assert LinkReflects(def, s, values, i);
    }
    forall i | 0 <= i < |def.nodes| && key.kind != NodeFact && t.nodeUp == s.nodeUp && t.nodeKnown == s.nodeKnown
      ensures NodeReflects(def, t, next, i)
    {
      assert NodeReflects(def, s, values, i);
    }
    forall i | 0 <= i < |def.services| && key.kind != ServiceFact && t.reachable == s.reachable
               && t.serviceKnown == s.serviceKnown
      ensures ServiceReflects(def, t, next, i)
    {
      assert ServiceReflects(def, s, values, i);
    }
    forall i | 0 <= i < |def.resources| && key.kind != AvailableFact && key.kind != RestoredFact
               && t.available == s.available && t.resourceKnown == s.resourceKnown && t.restored == s.restored
      ensures ResourceReflects(def, t, next, i)
    {
      assert ResourceReflects(def, s, values, i);
    }
  }

  lemma WriteLink(def: FabricDefinition, s: FabricState, values: Values, i: nat, value: U64)
    requires Reflects(def, s, values) && i < |def.links| && Distinct(LinkIds(def))
    ensures Reflects(def, s.(linkUp := s.linkUp[i := value != 0], linkKnown := s.linkKnown[i := true]),
                     values[LinkKey(def, i) := value])
  {
    hide Wrap32;
    var t, next := s.(linkUp := s.linkUp[i := value != 0], linkKnown := s.linkKnown[i := true]),
      values[LinkKey(def, i) := value];
    forall j | 0 <= j < |def.links|
      ensures LinkReflects(def, t, next, j)
    {
      assert LinkReflects(def, s, values, j);
      assert j != i ==> LinkIds(def)[i] != LinkIds(def)[j];
    }
    Unwritten(def, s, t, values, next, LinkKey(def, i), value);
  }

  lemma WriteNode(def: FabricDefinition, s: FabricState, values: Values, i: nat, value: U64)
    requires Reflects(def, s, values) && i < |def.nodes| && Distinct(NodeIds(def))
    ensures Reflects(def, s.(nodeUp := s.nodeUp[i := value != 0], nodeKnown := s.nodeKnown[i := true]),
                     values[NodeKey(def, i) := value])
  {
    hide Wrap32;
    var t, next := s.(nodeUp := s.nodeUp[i := value != 0], nodeKnown := s.nodeKnown[i := true]),
      values[NodeKey(def, i) := value];
    forall j | 0 <= j < |def.nodes|
      ensures NodeReflects(def, t, next, j)
    {
      assert NodeReflects(def, s, values, j);
      assert j != i ==> NodeIds(def)[i] != NodeIds(def)[j];
    }
    Unwritten(def, s, t, values, next, NodeKey(def, i), value);
  }

  lemma WriteService(def: FabricDefinition, s: FabricState, values: Values, i: nat, value: U64)
    requires Reflects(def, s, values) && i < |def.services| && Distinct(ServiceIds(def))
    ensures Reflects(def, s.(reachable := s.reachable[i := Wrap32(value)], serviceKnown := s.serviceKnown[i := true]),
                     values[ServiceKey(def, i) := value])
  {
    hide Wrap32;
    var t, next := s.(reachable := s.reachable[i := Wrap32(value)], serviceKnown := s.serviceKnown[i := true]),
      values[ServiceKey(def, i) := value];
    forall j | 0 <= j < |def.services|
      ensures ServiceReflects(def, t, next, j)
    {
      assert ServiceReflects(def, s, values, j);
      assert j != i ==> ServiceIds(def)[i] != ServiceIds(def)[j];
    }
    Unwritten(def, s, t, values, next, ServiceKey(def, i), value);
  }

  lemma WriteAvailable(def: FabricDefinition, s: FabricState, values: Values, i: nat, value: U64)
    requires Reflects(def, s, values) && i < |def.resources| && Distinct(ResourceIds(def))
    ensures Reflects(def, s.(available := s.available[i := Wrap32(value)], resourceKnown := s.resourceKnown[i := true]),
                     values[AvailableKey(def, i) := value])
  {
    hide Wrap32;
    var t, next := s.(available := s.available[i := Wrap32(value)], resourceKnown := s.resourceKnown[i := true]),
      values[AvailableKey(def, i) := value];
    forall j | 0 <= j < |def.resources|
      ensures ResourceReflects(def, t, next, j)
    {
      assert ResourceReflects(def, s, values, j);
      assert j != i ==> ResourceIds(def)[i] != ResourceIds(def)[j];
    }
    Unwritten(def, s, t, values, next, AvailableKey(def, i), value);
  }

  lemma WriteRestored(def: FabricDefinition, s: FabricState, values: Values, i: nat, value: U64)
    requires Reflects(def, s, values) && i < |def.resources| && Distinct(ResourceIds(def))
    ensures Reflects(def, s.(restored := s.restored[i := value != 0], resourceKnown := s.resourceKnown[i := true]),
                     values[RestoredKey(def, i) := value])
  {
    hide Wrap32;
    var t, next := s.(restored := s.restored[i := value != 0], resourceKnown := s.resourceKnown[i := true]),
      values[RestoredKey(def, i) := value];
    forall j | 0 <= j < |def.resources|
      ensures ResourceReflects(def, t, next, j)
    {
      assert ResourceReflects(def, s, values, j);
      assert j != i ==> ResourceIds(def)[i] != ResourceIds(def)[j];
    }
    Unwritten(def, s, t, values, next, RestoredKey(def, i), value);
  }

  lemma KeyAt(def: FabricDefinition, key: EvidenceKey)
    requires TypedKey(def, key)
    ensures SubjectIndex(def, key.subject).Some?
    ensures var i := SubjectIndex(def, key.subject).value;
            match key.kind
            case LinkFact => i < |def.links| && key == LinkKey(def, i)
            case NodeFact => i < |def.nodes| && key == NodeKey(def, i)
            case ServiceFact => i < |def.services| && key == ServiceKey(def, i)
            case AvailableFact => i < |def.resources| && key == AvailableKey(def, i)
            case RestoredFact => i < |def.resources| && key == RestoredKey(def, i)
  {
  }

  /** Records one established value in the cell of its subject. */
  method Write(def: FabricDefinition, s: FabricState, ghost values: Values, key: EvidenceKey, value: U64)
    returns (t: FabricState)
    requires Reflects(def, s, values) && TypedKey(def, key) && ValidIds(def)
    ensures Reflects(def, t, values[key := value])
  {
    hide Reflects, TypedKey, SubjectIndex, Wrap32;
    KeyAt(def, key);
    ReflectsShape(def, s, values);
    var i := SubjectIndex(def, key.subject).value;
    match key.kind {
      case LinkFact =>
        WriteLink(def, s, values, i, value);
        t := s.(linkUp := s.linkUp[i := value != 0], linkKnown := s.linkKnown[i := true]);
      case NodeFact =>
        WriteNode(def, s, values, i, value);
        t := s.(nodeUp := s.nodeUp[i := value != 0], nodeKnown := s.nodeKnown[i := true]);
      case ServiceFact =>
        WriteService(def, s, values, i, value);
        t := s.(reachable := s.reachable[i := Wrap32(value)], serviceKnown := s.serviceKnown[i := true]);
      case AvailableFact =>
        WriteAvailable(def, s, values, i, value);
        t := s.(available := s.available[i := Wrap32(value)], resourceKnown := s.resourceKnown[i := true]);
      case RestoredFact =>
        WriteRestored(def, s, values, i, value);
        t := s.(restored := s.restored[i := value != 0], resourceKnown := s.resourceKnown[i := true]);
    }
  }

  lemma ReflectsShape(def: FabricDefinition, s: FabricState, values: Values)
    requires Reflects(def, s, values)
    ensures Shaped(def, s)
  {
  }

  // ---- The planner's state --------------------------------------------------

  function ResolvedValues(table: ResolutionTable): Values {
    map key | key in table && table[key].state == Resolved :: table[key].value
  }

  predicate TypedTable(def: FabricDefinition, table: ResolutionTable) {
    forall key :: key in table && table[key].state == Resolved ==> TypedKey(def, key)
  }

  /** The planner writes every resolved entry of its table, in whatever order. */
  method Materialise(def: FabricDefinition, table: ResolutionTable) returns (s: FabricState)
    requires ValidIds(def) && TypedTable(def, table)
    ensures Reflects(def, s, ResolvedValues(table))
  {
    hide Reflects, TypedKey, ValidIds;
    BlankReflects(def);
    s := Blank(def);
    var keys := table.Keys;
    ghost var values: Values := map[];
    while keys != {}
      invariant keys <= table.Keys
      invariant Reflects(def, s, values)
      invariant values == map key | key in table && key !in keys && table[key].state == Resolved :: table[key].value
      decreases keys
    {
      var key :| key in keys;
      keys := keys - {key};
      if table[key].state == Resolved {
        s := Write(def, s, values, key, table[key].value);
        values := values[key := table[key].value];
      }
    }
    assert values == ResolvedValues(table);
  }

  // ---- The validator's state ------------------------------------------------

  function FactsAbout(facts: seq<EvidenceFact>, key: EvidenceKey): seq<EvidenceFact> {
    if |facts| == 0 then []
    else
      FactsAbout(facts[..|facts| - 1], key)
      + if KeyOfFact(facts[|facts| - 1]) == key then [facts[|facts| - 1]] else []
  }

  lemma {:induction false} AboutIsFiltered(facts: seq<EvidenceFact>, key: EvidenceKey)
    ensures forall f :: f in FactsAbout(facts, key) <==> f in facts && KeyOfFact(f) == key
    decreases |facts|
  {
    if |facts| > 0 {
      AboutIsFiltered(facts[..|facts| - 1], key);
      assert facts == facts[..|facts| - 1] + [facts[|facts| - 1]];
    }
  }

  lemma AboutNothing()
    ensures forall key :: FactsAbout([], key) == []
  {
  }

  lemma AboutSnoc(facts: seq<EvidenceFact>, i: nat)
    requires i < |facts|
    ensures forall key :: FactsAbout(facts[..i + 1], key)
                       == FactsAbout(facts[..i], key) + if KeyOfFact(facts[i]) == key then [facts[i]] else []
  {
    assert facts[..i + 1][..i] == facts[..i];
  }

  method GroupFacts(facts: seq<EvidenceFact>) returns (grouped: map<EvidenceKey, seq<EvidenceFact>>)
    ensures forall key :: key in grouped ==> grouped[key] == FactsAbout(facts, key)
    ensures forall f :: f in facts ==> KeyOfFact(f) in grouped
  {
    hide FactsAbout;
    grouped := map[];
    AboutNothing();
    for i := 0 to |facts|
      invariant forall key :: key in grouped ==> grouped[key] == FactsAbout(facts[..i], key)
      invariant forall key :: key !in grouped ==> FactsAbout(facts[..i], key) == []
      invariant forall j :: 0 <= j < i ==> KeyOfFact(facts[j]) in grouped
    {
      AboutSnoc(facts, i);
      var key := KeyOfFact(facts[i]);
      grouped := grouped[key := (if key in grouped then grouped[key] else []) + [facts[i]]];
    }
    assert facts[..|facts|] == facts;
  }

  // What the validator's scan of a list has kept.
  ghost predicate Scanned(def: FabricDefinition, bindings: seq<AuthorityBinding>, list: seq<EvidenceFact>,
                          key: EvidenceKey, found: bool, best: EvidenceFact, conflict: bool)
  {
    && (found ==> Candidate(def, bindings, list, key, best))
    && (forall g :: Candidate(def, bindings, list, key, g) ==> found && g.sequence <= best.sequence)
    && (conflict <==> exists g :: Candidate(def, bindings, list, key, g) && g.sequence == best.sequence
                                  && g.value != best.value)
  }

  lemma ScannedNext(def: FabricDefinition, bindings: seq<AuthorityBinding>, list: seq<EvidenceFact>, f: EvidenceFact,
                    key: EvidenceKey, found: bool, best: EvidenceFact, conflict: bool)
    requires Scanned(def, bindings, list, key, found, best, conflict) && KeyOfFact(f) == key
    ensures !Usable(def, bindings, f) ==> Scanned(def, bindings, list + [f], key, found, best, conflict)
    ensures Usable(def, bindings, f) ==>
              if !found || f.sequence > best.sequence then Scanned(def, bindings, list + [f], key, true, f, false)
              else Scanned(def, bindings, list + [f], key, found, best,
                           conflict || (f.sequence == best.sequence && f.value != best.value))
  {
    hide Usable;
    NewCandidates(def, bindings, list, f, key);
    if conflict {
      var g :| Candidate(def, bindings, list, key, g) && g.sequence == best.sequence && g.value != best.value;
      assert Candidate(def, bindings, list + [f], key, g);
    }
    if Usable(def, bindings, f) {
      assert Candidate(def, bindings, list + [f], key, f);
    }
  }

  /** The validator's fold over the facts of one subject. */
  method Scan(def: FabricDefinition, bindings: seq<AuthorityBinding>, list: seq<EvidenceFact>, key: EvidenceKey)
    returns (r: Option<U64>)
    requires forall f :: f in list ==> KeyOfFact(f) == key
    ensures r == Established(def, bindings, list, key)
  {
    hide Scanned;
    var found, conflict, bestSequence: U64, bestValue: U64 := false, false, 0, 0;
    ghost var best := EvidenceFact(0, key.kind, key.subject, 0, 0, FabricStateDomain, 0, RealLabel, 0);
    NothingScanned(def, bindings, key, best);
    for i := 0 to |list|
      invariant found ==> bestSequence == best.sequence && bestValue == best.value
      invariant Scanned(def, bindings, list[..i], key, found, best, conflict)
    {
      hide FactSubject, FactDomain, ValueInDomain, FindBinding;
      var f := list[i];
      assert list[..i + 1] == list[..i] + [f];
      ScannedNext(def, bindings, list[..i], f, key, found, best, conflict);
      if f.subject.kind != FactSubject(f.kind) || f.sourceDomain != FactDomain(f.kind) || !ValueInDomain(def, f) {
        continue;
      }
      var binding := FindBinding(bindings, f.sourceDomain);
      if binding.None? || f.generation != binding.value.granted {
        continue;
      }
      if f.trust == UnsupportedLabel || f.trust == UnknownLabel {
        continue;
      }
      if !found || f.sequence > bestSequence {
        found, bestSequence, bestValue, conflict := true, f.sequence, f.value, false;
        best := f;
      } else if f.sequence == bestSequence && f.value != bestValue {
        conflict := true;
      }
    }
    assert list[..|list|] == list;
    ScannedIs(def, bindings, list, key, found, best, conflict);
    r := if !found || conflict then None else Some(bestValue);
  }

  lemma NothingScanned(def: FabricDefinition, bindings: seq<AuthorityBinding>, key: EvidenceKey, best: EvidenceFact)
    ensures Scanned(def, bindings, [], key, false, best, false)
  {
  }

  lemma ScannedIs(def: FabricDefinition, bindings: seq<AuthorityBinding>, list: seq<EvidenceFact>,
                  key: EvidenceKey, found: bool, best: EvidenceFact, conflict: bool)
    requires Scanned(def, bindings, list, key, found, best, conflict)
    ensures Established(def, bindings, list, key) == if !found || conflict then None else Some(best.value)
  {
    hide Candidate;
    if found && !conflict {
      assert Establishes(def, bindings, list, key, best);
      EstablishedIs(def, bindings, list, key, best);
    }
  }

  // Facts about other subjects play no part.
  lemma EstablishedAbout(def: FabricDefinition, bindings: seq<AuthorityBinding>, facts: seq<EvidenceFact>,
                         key: EvidenceKey)
    ensures Established(def, bindings, FactsAbout(facts, key), key) == Established(def, bindings, facts, key)
  {
    hide Usable;
    AboutIsFiltered(facts, key);
    var list := FactsAbout(facts, key);
    assert forall f :: Candidate(def, bindings, list, key, f) <==> Candidate(def, bindings, facts, key, f);
    assert forall f :: Establishes(def, bindings, list, key, f) <==> Establishes(def, bindings, facts, key, f);
    if f :| Establishes(def, bindings, list, key, f) {
      EstablishedIs(def, bindings, list, key, f);
      EstablishedIs(def, bindings, facts, key, f);
    }
  }

  // Every value that the facts establish.
  ghost function EstablishedValues(def: FabricDefinition, bindings: seq<AuthorityBinding>, facts: seq<EvidenceFact>)
    : Values
  {
    map key | key in (set f | f in facts :: KeyOfFact(f)) && Established(def, bindings, facts, key).Some?
      :: Established(def, bindings, facts, key).value
  }

  lemma EstablishedIsTyped(def: FabricDefinition, bindings: seq<AuthorityBinding>, facts: seq<EvidenceFact>,
                           key: EvidenceKey)
    requires Established(def, bindings, facts, key).Some?
    ensures TypedKey(def, key) && exists f :: f in facts && KeyOfFact(f) == key
  {
    var f := EstablishedWitness(def, bindings, facts, key);
  }

  /** The validator groups the facts by subject and writes what each group establishes. */
  method ReconcileFacts(def: FabricDefinition, bindings: seq<AuthorityBinding>, facts: seq<EvidenceFact>)
    returns (s: FabricState)
    requires ValidIds(def)
    ensures Reflects(def, s, EstablishedValues(def, bindings, facts))
  {
    hide Reflects, TypedKey, ValidIds, Established;
    BlankReflects(def);
    s := Blank(def);
    var grouped := GroupFacts(facts);
    var keys := grouped.Keys;
    ghost var values: Values := map[];
    while keys != {}
      invariant keys <= grouped.Keys
      invariant Reflects(def, s, values)
      invariant forall key :: key in values <==>
                  key in grouped && key !in keys && Established(def, bindings, facts, key).Some?
      invariant forall key :: key in values ==> Some(values[key]) == Established(def, bindings, facts, key)
      decreases keys
    {
      var key :| key in keys;
      keys := keys - {key};
      AboutIsFiltered(facts, key);
      EstablishedAbout(def, bindings, facts, key);
      if Established(def, bindings, facts, key).Some? {
        EstablishedIsTyped(def, bindings, facts, key);
      }
      if SubjectIndex(def, key.subject).Some? {
        var r := Scan(def, bindings, grouped[key], key);
        if r.Some? {
          s := Write(def, s, values, key, r.value);
          values := values[key := r.value];
        }
      } else {
        UntypedUnknown(def, bindings, facts, key);
      }
    }
    forall key | Established(def, bindings, facts, key).Some?
      ensures key in grouped && exists f :: f in facts && KeyOfFact(f) == key
    {
      EstablishedIsTyped(def, bindings, facts, key);
    }
    SameValues(def, bindings, facts, values);
  }

  lemma UntypedUnknown(def: FabricDefinition, bindings: seq<AuthorityBinding>, facts: seq<EvidenceFact>,
                       key: EvidenceKey)
    requires SubjectIndex(def, key.subject).None?
    ensures Established(def, bindings, facts, key).None?
  {
    if Established(def, bindings, facts, key).Some? {
      EstablishedIsTyped(def, bindings, facts, key);
    }
  }

  lemma SameValues(def: FabricDefinition, bindings: seq<AuthorityBinding>, facts: seq<EvidenceFact>, values: Values)
    requires forall key :: key in values <==> Established(def, bindings, facts, key).Some?
    requires forall key :: key in values ==> Some(values[key]) == Established(def, bindings, facts, key)
    ensures values == EstablishedValues(def, bindings, facts)
  {
    hide Established;
    forall key | key in values
      ensures exists f :: f in facts && KeyOfFact(f) == key
    {
      EstablishedIsTyped(def, bindings, facts, key);
    }
  }

  // ---- The three states agree -----------------------------------------------

  lemma {:induction false} ResolvedIsTyped(def: FabricDefinition, limits: ModelLimits, bindings: seq<AuthorityBinding>,
                                           facts: seq<EvidenceFact>, key: EvidenceKey)
    requires Fold(def, limits, bindings, facts, key).state == Resolved
    ensures TypedKey(def, key)
    decreases |facts|
  {
    if |facts| > 0 && Fold(def, limits, bindings, facts[..|facts| - 1], key).state == Resolved {
      ResolvedIsTyped(def, limits, bindings, facts[..|facts| - 1], key);
    }
  }

  // A resolved or disputed entry holds the value of a fact in range.
  lemma {:induction false} ResolvedInRange(def: FabricDefinition, limits: ModelLimits, bindings: seq<AuthorityBinding>,
                                           facts: seq<EvidenceFact>, key: EvidenceKey)
    ensures var r := Fold(def, limits, bindings, facts, key);
            r.state == Resolved ==>
              exists f :: f in facts && KeyOfFact(f) == key && ValueInDomain(def, f) && f.value == r.value
    decreases |facts|
  {
    hide ValueInDomain;
    if |facts| > 0 {
      ResolvedInRange(def, limits, bindings, facts[..|facts| - 1], key);
      assert facts[|facts| - 1] in facts;
    }
  }

  /** Every service starts within its structural maximum. */
  lemma ServiceStartsInRange(def: FabricDefinition, limits: ModelLimits, bindings: seq<AuthorityBinding>,
                             facts: seq<EvidenceFact>, table: ResolutionTable, s: FabricState, i: nat)
    requires Tabulates(def, limits, bindings, facts, table) && Reflects(def, s, ResolvedValues(table))
    requires i < |def.services| && Distinct(ServiceIds(def))
    ensures s.reachable[i] <= def.services[i].maximum
  {
    hide Fold, Tabulates, LinkReflects, NodeReflects, ResourceReflects;
    var key := ServiceKey(def, i);
    assert ServiceReflects(def, s, ResolvedValues(table), i);
    if key in table && table[key].state == Resolved {
      EntryIsFold(def, limits, bindings, facts, table, key);
      ResolvedInRange(def, limits, bindings, facts, key);
      FindUnique(ServiceIds(def), i);
    }
  }

  lemma EntryIsFold(def: FabricDefinition, limits: ModelLimits, bindings: seq<AuthorityBinding>,
                    facts: seq<EvidenceFact>, table: ResolutionTable, key: EvidenceKey)
    requires Tabulates(def, limits, bindings, facts, table) && key in table
    ensures table[key] == Fold(def, limits, bindings, facts, key)
  {
    hide Fold;
  }

  lemma TabulatedIsTyped(def: FabricDefinition, limits: ModelLimits, bindings: seq<AuthorityBinding>,
                         facts: seq<EvidenceFact>, table: ResolutionTable)
    requires Tabulates(def, limits, bindings, facts, table)
    ensures TypedTable(def, table)
  {
    hide Fold, TypedKey;
    forall key | key in table && table[key].state == Resolved
      ensures TypedKey(def, key)
    {
      ResolvedIsTyped(def, limits, bindings, facts, key);
    }
  }

  /** With tie-consistent evidence the planner's table holds exactly the established values. */
  lemma TableIsEstablished(def: FabricDefinition, limits: ModelLimits, bindings: seq<AuthorityBinding>,
                           facts: seq<EvidenceFact>, table: ResolutionTable)
    requires forall i :: 0 <= i < |def.services| ==> ValidService(def.services[i], limits)
    requires Tabulates(def, limits, bindings, facts, table)
    requires forall key :: TieConsistent(def, bindings, facts, key)
    ensures ResolvedValues(table) == EstablishedValues(def, bindings, facts)
  {
    hide Fold, Established, TieConsistent, ValidService, Describes;
    forall key: EvidenceKey
      ensures ValueOf(if key in table then table[key] else FRESH) == Established(def, bindings, facts, key)
    {
      ConsistentAgrees(def, limits, bindings, facts, key);
    }
    SameValues(def, bindings, facts, ResolvedValues(table));
  }

  // The reference solver skips a fact as soon as any other fact about the subject, whether
  // admissible or not, is newer or disagrees with it at the same age.
  predicate Unrivalled(facts: seq<EvidenceFact>, f: EvidenceFact) {
    forall i :: 0 <= i < |facts| && KeyOfFact(facts[i]) == KeyOfFact(f) ==>
      facts[i].sequence < f.sequence || (facts[i].sequence == f.sequence && facts[i].value == f.value)
  }

  method CheckRivals(facts: seq<EvidenceFact>, f: EvidenceFact) returns (ok: bool)
    ensures ok <==> Unrivalled(facts, f)
  {
    var superseded, conflicting := false, false;
    for i := 0 to |facts|
      invariant !superseded && !conflicting <==> Unrivalled(facts[..i], f)
    {
      assert facts[..i + 1] == facts[..i] + [facts[i]];
      var other := facts[i];
      assert Unrivalled(facts[..i + 1], f) <==>
        Unrivalled(facts[..i], f)
        && (KeyOfFact(other) == KeyOfFact(f) ==>
              other.sequence < f.sequence || (other.sequence == f.sequence && other.value == f.value));
      if KeyOfFact(other) == KeyOfFact(f) {
        if other.sequence > f.sequence {
          superseded := true;
        }
        if other.sequence == f.sequence && other.value != f.value {
          conflicting := true;
        }
      }
    }
    assert facts[..|facts|] == facts;
    return !superseded && !conflicting;
  }

  // What the reference solver takes for known.
  ghost predicate ReferenceKnows(def: FabricDefinition, bindings: seq<AuthorityBinding>, facts: seq<EvidenceFact>,
                                 key: EvidenceKey, value: U64)
  {
    exists f :: Candidate(def, bindings, facts, key, f) && Unrivalled(facts, f) && f.value == value
  }

  lemma Rivals(def: FabricDefinition, bindings: seq<AuthorityBinding>, facts: seq<EvidenceFact>, key: EvidenceKey,
               f: EvidenceFact, g: EvidenceFact)
    requires Candidate(def, bindings, facts, key, f) && Unrivalled(facts, f)
    requires Candidate(def, bindings, facts, key, g)
    ensures g.sequence < f.sequence || (g.sequence == f.sequence && g.value == f.value)
  {
    hide Usable;
    var i :| 0 <= i < |facts| && facts[i] == g;
  }

  /** What the reference solver knows is established.  Everything established is known to it
      exactly when no inadmissible fact outdates or contradicts an established one. */
  lemma ReferenceKnowsIff(def: FabricDefinition, bindings: seq<AuthorityBinding>, facts: seq<EvidenceFact>,
                          key: EvidenceKey)
    ensures forall v: U64 :: ReferenceKnows(def, bindings, facts, key, v) ==>
              Established(def, bindings, facts, key) == Some(v)
    ensures (forall v: U64 :: ReferenceKnows(def, bindings, facts, key, v) <==>
               Established(def, bindings, facts, key) == Some(v))
       <==> forall f :: Establishes(def, bindings, facts, key, f) ==> Unrivalled(facts, f)
  {
    hide Usable, Unrivalled, Established;
    forall v: U64 | ReferenceKnows(def, bindings, facts, key, v)
      ensures Established(def, bindings, facts, key) == Some(v)
    {
      var f :| Candidate(def, bindings, facts, key, f) && Unrivalled(facts, f) && f.value == v;
      forall g | Candidate(def, bindings, facts, key, g)
        ensures g.sequence < f.sequence || (g.sequence == f.sequence && g.value == f.value)
      {
        Rivals(def, bindings, facts, key, f, g);
      }
      EstablishedIs(def, bindings, facts, key, f);
    }
    forall f | Establishes(def, bindings, facts, key, f)
      ensures Established(def, bindings, facts, key) == Some(f.value)
      ensures ReferenceKnows(def, bindings, facts, key, f.value) <==> Unrivalled(facts, f)
    {
      EstablishedIs(def, bindings, facts, key, f);
      if ReferenceKnows(def, bindings, facts, key, f.value) {
        var g :| Candidate(def, bindings, facts, key, g) && Unrivalled(facts, g) && g.value == f.value;
        Rivals(def, bindings, facts, key, g, f);
        SameRivals(facts, f, g);
      }
    }
    if Established(def, bindings, facts, key).Some? {
      var f := EstablishedWitness(def, bindings, facts, key);
    }
  }

  /** A newer observation of a link, from a generation that has been superseded, is admissible to
      none of the three programs.  It still makes the reference solver forget what is established. */
  lemma StaleRivalHides()
    ensures ValidDefinition(ONE_LINK, DEFAULT_LIMITS)
    ensures var newest := Reconcile.Observation(1, 1, 5);
            var stale := Reconcile.Observation(2, 0, 6).(generation := 2);
            var key := EvidenceKey(LinkFact, Subject(LinkSubject, 7));
            && !Usable(ONE_LINK, ONE_BINDING, stale)
            && Established(ONE_LINK, ONE_BINDING, [newest, stale], key) == Some(1)
            && !ReferenceKnows(ONE_LINK, ONE_BINDING, [newest, stale], key, 1)
  {
    OneLinkIsValid();
    var newest := Reconcile.Observation(1, 1, 5);
    var stale := Reconcile.Observation(2, 0, 6).(generation := 2);
    var facts, key := [newest, stale], EvidenceKey(LinkFact, Subject(LinkSubject, 7));
    ObservationUsable(1, 1, 5);
    hide ValidDefinition, Established, FindBinding;
    assert FindBinding(ONE_BINDING, FabricStateDomain) == Some(ONE_BINDING[0]) by {
      OneBindingFound();
    }
    assert Candidate(ONE_LINK, ONE_BINDING, facts, key, newest);
    EstablishedIs(ONE_LINK, ONE_BINDING, facts, key, newest);
    assert !Unrivalled(facts, newest) by {
      assert facts[1] == stale;
    }
  }

  lemma OneBindingFound()
    ensures FindBinding(ONE_BINDING, FabricStateDomain) == Some(ONE_BINDING[0])
  {
  }

  lemma SameRivals(facts: seq<EvidenceFact>, f: EvidenceFact, g: EvidenceFact)
    requires KeyOfFact(f) == KeyOfFact(g) && f.value == g.value && Unrivalled(facts, g) && g in facts
    requires f.sequence >= g.sequence
    ensures Unrivalled(facts, f)
  {
  }

  predicate Says(values: Values, key: EvidenceKey, v: U64) {
    key in values && values[key] == v
  }

  // An unrivalled admissible fact among the first n gives the subject this value.
  ghost predicate KnownFrom(def: FabricDefinition, bindings: seq<AuthorityBinding>, facts: seq<EvidenceFact>, n: nat,
                            key: EvidenceKey, v: U64)
    requires n <= |facts|
  {
    exists i :: && 0 <= i < n && KeyOfFact(facts[i]) == key && Usable(def, bindings, facts[i])
                && Unrivalled(facts, facts[i]) && facts[i].value == v
  }

  ghost predicate KnownSoFar(def: FabricDefinition, bindings: seq<AuthorityBinding>, facts: seq<EvidenceFact>, n: nat,
                             values: Values)
    requires n <= |facts|
  {
    forall key, v: U64 :: Says(values, key, v) <==> KnownFrom(def, bindings, facts, n, key, v)
  }

  lemma KnownNext(def: FabricDefinition, bindings: seq<AuthorityBinding>, facts: seq<EvidenceFact>, n: nat,
                  values: Values)
    requires n < |facts| && KnownSoFar(def, bindings, facts, n, values)
    ensures var f := facts[n];
            KnownSoFar(def, bindings, facts, n + 1,
                       if Usable(def, bindings, f) && Unrivalled(facts, f) then values[KeyOfFact(f) := f.value]
                       else values)
  {
    hide Usable, Unrivalled, KeyOfFact;
    var f := facts[n];
    var key := KeyOfFact(f);
    var counts := Usable(def, bindings, f) && Unrivalled(facts, f);
    var next := if counts then values[key := f.value] else values;
    forall k, v: U64
      ensures Says(next, k, v) <==> KnownFrom(def, bindings, facts, n + 1, k, v)
    {
      assert KnownFrom(def, bindings, facts, n + 1, k, v) <==>
        KnownFrom(def, bindings, facts, n, k, v) || (counts && k == key && v == f.value);
      assert Says(values, k, v) <==> KnownFrom(def, bindings, facts, n, k, v);
      if counts && k == key && KnownFrom(def, bindings, facts, n, k, v) {
        var i :| 0 <= i < n && KeyOfFact(facts[i]) == key && Usable(def, bindings, facts[i])
                 && Unrivalled(facts, facts[i]) && facts[i].value == v;
        Rivals(def, bindings, facts, key, f, facts[i]);
        Rivals(def, bindings, facts, key, facts[i], f);
      }
    }
  }

  lemma KnownToReference(def: FabricDefinition, bindings: seq<AuthorityBinding>, facts: seq<EvidenceFact>,
                         values: Values)
    requires KnownSoFar(def, bindings, facts, |facts|, values)
    ensures forall key, v: U64 :: Says(values, key, v) <==> ReferenceKnows(def, bindings, facts, key, v)
  {
    hide Usable, Unrivalled, KeyOfFact, Says;
    forall key, v: U64
      ensures Says(values, key, v) <==> ReferenceKnows(def, bindings, facts, key, v)
    {
      assert Says(values, key, v) <==> KnownFrom(def, bindings, facts, |facts|, key, v);
      if ReferenceKnows(def, bindings, facts, key, v) {
        var f :| Candidate(def, bindings, facts, key, f) && Unrivalled(facts, f) && f.value == v;
        var i :| 0 <= i < |facts| && facts[i] == f;
      }
    }
  }

  /** The reference solver reads the facts one by one.  It knows exactly the unrivalled ones. */
  method DeriveInitial(def: FabricDefinition, bindings: seq<AuthorityBinding>, facts: seq<EvidenceFact>)
    returns (s: FabricState, ghost values: Values)
    requires ValidIds(def)
    ensures Reflects(def, s, values)
    ensures forall key, v: U64 :: Says(values, key, v) <==> ReferenceKnows(def, bindings, facts, key, v)
  {
    hide Reflects, TypedKey, ValidIds, KnownSoFar, Unrivalled, FindBinding, ValueInDomain, FactSubject, FactDomain;
    BlankReflects(def);
    s, values := Blank(def), map[];
    NothingKnown(def, bindings, facts);
    for n := 0 to |facts|
      invariant Reflects(def, s, values) && KnownSoFar(def, bindings, facts, n, values)
    {
      var f := facts[n];
      KnownNext(def, bindings, facts, n, values);
      if f.subject.kind != FactSubject(f.kind) || f.sourceDomain != FactDomain(f.kind) {
        continue;
      }
      if f.trust != RealLabel && f.trust != SyntheticLabel {
        continue;
      }
      var binding := FindBinding(bindings, f.sourceDomain);
      if binding.None? || f.generation != binding.value.granted {
        continue;
      }
      if !ValueInDomain(def, f) {
        continue;
      }
      var ok := CheckRivals(facts, f);
      if ok {
        UsableIsTyped(def, bindings, f);
        s := Write(def, s, values, KeyOfFact(f), f.value);
        values := values[KeyOfFact(f) := f.value];
      }
    }
    KnownToReference(def, bindings, facts, values);
  }

  lemma NothingKnown(def: FabricDefinition, bindings: seq<AuthorityBinding>, facts: seq<EvidenceFact>)
    ensures KnownSoFar(def, bindings, facts, 0, map[])
  {
  }

  lemma UsableIsTyped(def: FabricDefinition, bindings: seq<AuthorityBinding>, f: EvidenceFact)
    requires Usable(def, bindings, f)
    ensures TypedKey(def, KeyOfFact(f))
  {
  }

  /** All three start from one state when the evidence is tie-consistent and no inadmissible
      fact outdates or contradicts an established one. */
  lemma OneInitialState(def: FabricDefinition, limits: ModelLimits, bindings: seq<AuthorityBinding>,
                        facts: seq<EvidenceFact>, table: ResolutionTable, planner: FabricState,
                        validator: FabricState, reference: FabricState, known: Values)
    requires forall i :: 0 <= i < |def.services| ==> ValidService(def.services[i], limits)
    requires Tabulates(def, limits, bindings, facts, table)
    requires forall key :: TieConsistent(def, bindings, facts, key)
    requires forall key, f :: Establishes(def, bindings, facts, key, f) ==> Unrivalled(facts, f)
    requires Reflects(def, planner, ResolvedValues(table))
    requires Reflects(def, validator, EstablishedValues(def, bindings, facts))
    requires Reflects(def, reference, known)
    requires forall key, v: U64 :: Says(known, key, v) <==> ReferenceKnows(def, bindings, facts, key, v)
    ensures planner == validator == reference
  {
    hide Reflects, Establishes, Unrivalled, Established, ReferenceKnows, TieConsistent, ResolvedValues, ValidService;
    TableIsEstablished(def, limits, bindings, facts, table);
    forall key
      ensures key in known <==> Established(def, bindings, facts, key).Some?
      ensures key in known ==> Some(known[key]) == Established(def, bindings, facts, key)
    {
      ReferenceKnowsIff(def, bindings, facts, key);
      if Established(def, bindings, facts, key).Some? {
        assert ReferenceKnows(def, bindings, facts, key, Established(def, bindings, facts, key).value);
      }
      if key in known {
        assert ReferenceKnows(def, bindings, facts, key, known[key]);
      }
    }
    SameValues(def, bindings, facts, known);
    ReflectsUnique(def, planner, validator, ResolvedValues(table));
    ReflectsUnique(def, validator, reference, known);
  }
}
