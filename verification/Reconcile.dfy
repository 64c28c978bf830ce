/** What the evidence establishes, and the two folds that compute it: the planner's table,
    filled fact by fact, and the validator's scan of the facts of each subject. */
module Reconcile {
  import opened Ints
  import opened Domain
  import opened Definition
  import opened Evidence

  // ---- Which facts count ----------------------------------------------------

  predicate ValueInDomain(def: FabricDefinition, f: EvidenceFact) {
    match f.kind
    case LinkFact => LinkIndex(def, f.subject.id).Some? && f.value <= 1
    case NodeFact => NodeIndex(def, f.subject.id).Some? && f.value <= 1
    case ServiceFact =>
      var i := ServiceIndex(def, f.subject.id);
      i.Some? && f.value <= def.services[i.value].maximum
    case AvailableFact =>
      var i := ResourceIndex(def, f.subject.id);
      i.Some? && f.value <= def.resources[i.value].capacity
    case RestoredFact => ResourceIndex(def, f.subject.id).Some? && f.value <= 1
  }

  function KeyOfFact(f: EvidenceFact): EvidenceKey {
    EvidenceKey(f.kind, f.subject)
  }

  predicate Labelled(f: EvidenceFact) {
    f.trust == RealLabel || f.trust == SyntheticLabel
  }

  // An admissible fact: about a defined subject of its kind, from the owning domain, in
  // range, labelled, and made at exactly the granted generation.
  predicate Usable(def: FabricDefinition, bindings: seq<AuthorityBinding>, f: EvidenceFact) {
    && f.subject.kind == FactSubject(f.kind)
    && f.sourceDomain == FactDomain(f.kind)
    && ValueInDomain(def, f)
    && Labelled(f)
    && var b := FindBinding(bindings, f.sourceDomain); b.Some? && f.generation == b.value.granted
  }

  // ---- What they establish --------------------------------------------------

  ghost predicate Candidate(def: FabricDefinition, bindings: seq<AuthorityBinding>, facts: seq<EvidenceFact>,
                            key: EvidenceKey, f: EvidenceFact)
  {
    f in facts && KeyOfFact(f) == key && Usable(def, bindings, f)
  }

  // No admissible fact about the subject is newer, and none of the same age disagrees.
  ghost predicate Establishes(def: FabricDefinition, bindings: seq<AuthorityBinding>, facts: seq<EvidenceFact>,
                              key: EvidenceKey, f: EvidenceFact)
  {
    && Candidate(def, bindings, facts, key, f)
    && forall g :: Candidate(def, bindings, facts, key, g) ==>
         g.sequence < f.sequence || (g.sequence == f.sequence && g.value == f.value)
  }

  // The value at the greatest admissible sequence, unknown when two values share it.  The
  // order of the facts plays no part.
  ghost function Established(def: FabricDefinition, bindings: seq<AuthorityBinding>, facts: seq<EvidenceFact>,
                             key: EvidenceKey): Option<U64>
  {
    if f :| Establishes(def, bindings, facts, key, f) then Some(f.value) else None
  }

  lemma EstablishedIs(def: FabricDefinition, bindings: seq<AuthorityBinding>, facts: seq<EvidenceFact>,
                      key: EvidenceKey, f: EvidenceFact)
    requires Establishes(def, bindings, facts, key, f)
    ensures Established(def, bindings, facts, key) == Some(f.value)
  {
    hide Candidate;
  }

  // A usable fact about the subject than which none is newer.
  ghost predicate Newest(def: FabricDefinition, bindings: seq<AuthorityBinding>, facts: seq<EvidenceFact>,
                         key: EvidenceKey, f: EvidenceFact)
  {
    Candidate(def, bindings, facts, key, f)
    && forall g :: Candidate(def, bindings, facts, key, g) ==> g.sequence <= f.sequence
  }

  lemma FindNewest(def: FabricDefinition, bindings: seq<AuthorityBinding>, facts: seq<EvidenceFact>, key: EvidenceKey,
                   some: EvidenceFact)
    returns (best: EvidenceFact)
    requires Candidate(def, bindings, facts, key, some)
    ensures Newest(def, bindings, facts, key, best)
  {
    hide Usable;
    best := some;
    for i := 0 to |facts|
      invariant Candidate(def, bindings, facts, key, best)
      invariant forall j :: 0 <= j < i && Candidate(def, bindings, facts, key, facts[j]) ==>
                  facts[j].sequence <= best.sequence
    {
      if Candidate(def, bindings, facts, key, facts[i]) && facts[i].sequence > best.sequence {
        best := facts[i];
      }
    }
  }

  /** The established value is the one at the greatest admissible sequence.  There is none exactly
      when no fact is admissible, or when two values share that sequence. */
  lemma EstablishedIff(def: FabricDefinition, bindings: seq<AuthorityBinding>, facts: seq<EvidenceFact>,
                       key: EvidenceKey)
    ensures Established(def, bindings, facts, key).None? <==>
              || (forall f :: !Candidate(def, bindings, facts, key, f))
              || (exists f, g :: Newest(def, bindings, facts, key, f) && Newest(def, bindings, facts, key, g)
                                 && f.value != g.value)
    ensures forall f :: Newest(def, bindings, facts, key, f) && Established(def, bindings, facts, key).Some? ==>
              Established(def, bindings, facts, key) == Some(f.value)
  {
    hide Candidate;
    if Established(def, bindings, facts, key).Some? {
      var f := EstablishedWitness(def, bindings, facts, key);
      assert Newest(def, bindings, facts, key, f);
    } else if some :| Candidate(def, bindings, facts, key, some) {
      var best := FindNewest(def, bindings, facts, key, some);
      assert !Establishes(def, bindings, facts, key, best);
      var rival :| Candidate(def, bindings, facts, key, rival)
        && !(rival.sequence < best.sequence || (rival.sequence == best.sequence && rival.value == best.value));
      assert Newest(def, bindings, facts, key, rival);
    }
  }

  lemma EstablishedWitness(def: FabricDefinition, bindings: seq<AuthorityBinding>, facts: seq<EvidenceFact>,
                           key: EvidenceKey) returns (f: EvidenceFact)
    requires Established(def, bindings, facts, key).Some?
    ensures Establishes(def, bindings, facts, key, f) && Established(def, bindings, facts, key) == Some(f.value)
  {
    hide Candidate;
    f :| Establishes(def, bindings, facts, key, f);
    EstablishedIs(def, bindings, facts, key, f);
  }

  // Two values share the greatest admissible sequence.
  ghost predicate Disputed(def: FabricDefinition, bindings: seq<AuthorityBinding>, facts: seq<EvidenceFact>,
                           key: EvidenceKey)
  {
    && (exists f :: Candidate(def, bindings, facts, key, f))
    && Established(def, bindings, facts, key).None?
  }

  // No two admissible facts about the subject are of one age and disagree.
  ghost predicate TieConsistent(def: FabricDefinition, bindings: seq<AuthorityBinding>, facts: seq<EvidenceFact>,
                                key: EvidenceKey)
  {
    forall f, g ::
      (Candidate(def, bindings, facts, key, f) && Candidate(def, bindings, facts, key, g)
       && f.sequence == g.sequence) ==> f.value == g.value
  }

  // ---- The planner's fold ---------------------------------------------------

  function Priority(state: SubjectState): nat {
    match state
    case ConflictState => 6
    case StaleState => 5
    case AheadState => 4
    case InvalidState => 3
    case UnsupportedState => 2
    case MissingState => 1
    case Resolved => 0
  }

  // Why the planner sets a fact aside, or Resolved when it does not.
  function Verdict(def: FabricDefinition, limits: ModelLimits, bindings: seq<AuthorityBinding>, f: EvidenceFact)
    : SubjectState
  {
    if f.subject.kind != FactSubject(f.kind) || SubjectIndex(def, f.subject).None?
       || f.sourceDomain != FactDomain(f.kind) || f.trust == UnknownLabel || !ValueInDomain(def, f)
       || (f.kind == ServiceFact && f.value > limits.maxEndpoints)
    then InvalidState
    else if f.trust == UnsupportedLabel then UnsupportedState
    else
      match FindBinding(bindings, f.sourceDomain)
      case None => MissingState
      case Some(b) =>
        if f.generation < b.granted then StaleState
        else if f.generation > b.granted then AheadState
        else Resolved
  }

  lemma VerdictIsUsable(def: FabricDefinition, limits: ModelLimits, bindings: seq<AuthorityBinding>, f: EvidenceFact)
    requires forall i :: 0 <= i < |def.services| ==> ValidService(def.services[i], limits)
    ensures Verdict(def, limits, bindings, f) == Resolved <==> Usable(def, bindings, f)
  {
  }

  const FRESH: Resolution := Resolution(MissingState, 0, 0, 0)

  function ResolvedBy(f: EvidenceFact): Resolution {
    Resolution(Resolved, f.value, f.generation, f.sequence)
  }

  // What one more fact about a subject does to its entry.
  function Folded(r: Resolution, verdict: SubjectState, f: EvidenceFact): Resolution {
    if verdict != Resolved then
      if r.state != Resolved && Priority(verdict) > Priority(r.state) then r.(state := verdict) else r
    else if r.state != Resolved || f.sequence > r.sequence then ResolvedBy(f)
    else if f.sequence == r.sequence && f.value != r.value then r.(state := ConflictState)
    else r
  }

  // The entry of a subject after a list of facts.
  function Fold(def: FabricDefinition, limits: ModelLimits, bindings: seq<AuthorityBinding>, facts: seq<EvidenceFact>,
                key: EvidenceKey): Resolution
  {
    if |facts| == 0 then FRESH
    else
      var f := facts[|facts| - 1];
      var before := Fold(def, limits, bindings, facts[..|facts| - 1], key);
      if KeyOfFact(f) == key then Folded(before, Verdict(def, limits, bindings, f), f) else before
  }

  function ValueOf(r: Resolution): Option<U64> {
    if r.state == Resolved then Some(r.value) else None
  }

  class Reconciler {
    const def: FabricDefinition
    const limits: ModelLimits
    const bindings: seq<AuthorityBinding>

    var table: ResolutionTable
    ghost var log: seq<EvidenceFact>

    constructor (def: FabricDefinition, limits: ModelLimits, bindings: seq<AuthorityBinding>)
      ensures Valid() && log == []
      ensures this.def == def && this.limits == limits && this.bindings == bindings
    {
      this.def, this.limits, this.bindings := def, limits, bindings;
      table, log := map[], [];
    }

    // Every subject heard of has an entry, and the entry is the fold of what was heard.
    ghost predicate Valid()
      reads this
    {
      Tabulates(def, limits, bindings, log, table)
    }

    /** Takes one more fact into the table. */
    method Ingest(f: EvidenceFact)
      requires Valid()
      modifies this
      ensures Valid() && log == old(log) + [f]
    {
      hide Verdict, Folded;
      var key := KeyOfFact(f);
      var resolution := if key in table then table[key] else FRESH;
      ghost var before := table;
      var verdict := Verdict(def, limits, bindings, f);
      if verdict != Resolved {
        if resolution.state != Resolved && Priority(verdict) > Priority(resolution.state) {
          resolution := resolution.(state := verdict);
        }
      } else if resolution.state == Resolved {
        if f.sequence > resolution.sequence {
          resolution := ResolvedBy(f);
        } else if f.sequence == resolution.sequence && f.value != resolution.value {
          resolution := resolution.(state := ConflictState);
        }
      } else {
        resolution := ResolvedBy(f);
      }
      FoldedIs(if key in table then table[key] else FRESH, verdict, f, resolution);
      table := table[key := resolution];
      TabulatesNext(def, limits, bindings, log, before, f);
      log := log + [f];
    }
  }

  ghost predicate Tabulates(def: FabricDefinition, limits: ModelLimits, bindings: seq<AuthorityBinding>,
                            log: seq<EvidenceFact>, table: ResolutionTable)
  {
    forall key: EvidenceKey ::
      (if key in table then table[key] else FRESH) == Fold(def, limits, bindings, log, key)
  }

  lemma FoldedIs(r: Resolution, verdict: SubjectState, f: EvidenceFact, next: Resolution)
    requires next == if verdict != Resolved
                     then
                       if r.state != Resolved && Priority(verdict) > Priority(r.state) then r.(state := verdict)
                       else r
                     else if r.state != Resolved || f.sequence > r.sequence then ResolvedBy(f)
                     else if f.sequence == r.sequence && f.value != r.value then r.(state := ConflictState)
                     else r
    ensures next == Folded(r, verdict, f)
  {
  }

  lemma FoldSnoc(def: FabricDefinition, limits: ModelLimits, bindings: seq<AuthorityBinding>, log: seq<EvidenceFact>,
                 f: EvidenceFact, key: EvidenceKey)
    ensures Fold(def, limits, bindings, log + [f], key)
         == if KeyOfFact(f) == key
            then Folded(Fold(def, limits, bindings, log, key), Verdict(def, limits, bindings, f), f)
            else Fold(def, limits, bindings, log, key)
  {
    hide Folded, Verdict;
    assert (log + [f])[..|log + [f]| - 1] == log;
  }

  lemma TabulatesNext(def: FabricDefinition, limits: ModelLimits, bindings: seq<AuthorityBinding>,
                      log: seq<EvidenceFact>, table: ResolutionTable, f: EvidenceFact)
    requires Tabulates(def, limits, bindings, log, table)
    ensures var key := KeyOfFact(f);
            var r := if key in table then table[key] else FRESH;
            Tabulates(def, limits, bindings, log + [f],
                      table[key := Folded(r, Verdict(def, limits, bindings, f), f)])
  {
    hide Folded, Verdict, Fold;
    forall key: EvidenceKey
      ensures Fold(def, limits, bindings, log + [f], key)
           == if KeyOfFact(f) == key
              then Folded(Fold(def, limits, bindings, log, key), Verdict(def, limits, bindings, f), f)
              else Fold(def, limits, bindings, log, key)
    {
      FoldSnoc(def, limits, bindings, log, f, key);
    }
  }

  // ---- When the planner's fold is right -------------------------------------

  lemma CandidateSnoc(def: FabricDefinition, bindings: seq<AuthorityBinding>, facts: seq<EvidenceFact>,
                      f: EvidenceFact, key: EvidenceKey, g: EvidenceFact)
    ensures Candidate(def, bindings, facts + [f], key, g)
       <==> Candidate(def, bindings, facts, key, g) || (g == f && KeyOfFact(f) == key && Usable(def, bindings, f))
  {
    hide Usable, KeyOfFact;
  }

  // What an entry says about the facts behind it.
  ghost predicate Describes(def: FabricDefinition, bindings: seq<AuthorityBinding>, facts: seq<EvidenceFact>,
                            key: EvidenceKey, r: Resolution)
  {
    match r.state
    case Resolved =>
      exists f :: Establishes(def, bindings, facts, key, f) && r == ResolvedBy(f)
    case ConflictState => Disputed(def, bindings, facts, key)
    case _ => forall f :: !Candidate(def, bindings, facts, key, f)
  }

  // A dispute, if there is one, has not been followed by anything but newer facts.
  ghost predicate SupersedesDispute(def: FabricDefinition, bindings: seq<AuthorityBinding>, facts: seq<EvidenceFact>,
                                    key: EvidenceKey, f: EvidenceFact)
  {
    Disputed(def, bindings, facts, key) && KeyOfFact(f) == key && Usable(def, bindings, f) ==>
      forall g :: Candidate(def, bindings, facts, key, g) ==> g.sequence < f.sequence
  }

  // No admissible fact arrives behind a dispute: each one that follows it is newer.
  ghost predicate Undisturbed(def: FabricDefinition, bindings: seq<AuthorityBinding>, facts: seq<EvidenceFact>,
                              key: EvidenceKey)
  {
    forall n :: 0 <= n < |facts| ==> SupersedesDispute(def, bindings, facts[..n], key, facts[n])
  }

  lemma NewCandidates(def: FabricDefinition, bindings: seq<AuthorityBinding>, facts: seq<EvidenceFact>,
                      f: EvidenceFact, key: EvidenceKey)
    ensures forall g :: Candidate(def, bindings, facts + [f], key, g)
                   <==> Candidate(def, bindings, facts, key, g) || (g == f && Candidate(def, bindings, [f], key, f))
  {
    hide Usable, KeyOfFact;
  }

  // A fact that does not count changes nothing.
  lemma SameEstablished(def: FabricDefinition, bindings: seq<AuthorityBinding>, facts: seq<EvidenceFact>,
                        f: EvidenceFact, key: EvidenceKey)
    requires !Candidate(def, bindings, [f], key, f)
    ensures forall g :: Candidate(def, bindings, facts + [f], key, g) <==> Candidate(def, bindings, facts, key, g)
    ensures forall g :: Establishes(def, bindings, facts + [f], key, g) <==> Establishes(def, bindings, facts, key, g)
    ensures Established(def, bindings, facts + [f], key) == Established(def, bindings, facts, key)
  {
    hide Candidate;
    NewCandidates(def, bindings, facts, f, key);
    if g :| Establishes(def, bindings, facts, key, g) {
      EstablishedIs(def, bindings, facts, key, g);
      EstablishedIs(def, bindings, facts + [f], key, g);
    }
  }

  lemma NewerEstablishes(def: FabricDefinition, bindings: seq<AuthorityBinding>, facts: seq<EvidenceFact>,
                         f: EvidenceFact, key: EvidenceKey)
    requires Candidate(def, bindings, [f], key, f)
    requires forall g :: Candidate(def, bindings, facts, key, g) ==> g.sequence < f.sequence
    ensures Establishes(def, bindings, facts + [f], key, f)
  {
    hide Candidate;
    NewCandidates(def, bindings, facts, f, key);
  }

  lemma OlderStands(def: FabricDefinition, bindings: seq<AuthorityBinding>, facts: seq<EvidenceFact>,
                    e: EvidenceFact, f: EvidenceFact, key: EvidenceKey)
    requires Establishes(def, bindings, facts, key, e)
    requires f.sequence < e.sequence || (f.sequence == e.sequence && f.value == e.value)
    ensures Establishes(def, bindings, facts + [f], key, e)
  {
    hide Candidate;
    NewCandidates(def, bindings, facts, f, key);
  }

  lemma RivalDisputes(def: FabricDefinition, bindings: seq<AuthorityBinding>, facts: seq<EvidenceFact>,
                      e: EvidenceFact, f: EvidenceFact, key: EvidenceKey)
    requires Establishes(def, bindings, facts, key, e) && Candidate(def, bindings, [f], key, f)
    requires f.sequence == e.sequence && f.value != e.value
    ensures Disputed(def, bindings, facts + [f], key)
  {
    hide Candidate;
    NewCandidates(def, bindings, facts, f, key);
    assert Candidate(def, bindings, facts + [f], key, e);
  }

  lemma UnresolvedVerdict(def: FabricDefinition, limits: ModelLimits, bindings: seq<AuthorityBinding>, f: EvidenceFact,
                          r: Resolution)
    requires Verdict(def, limits, bindings, f) != Resolved
    ensures var next := Folded(r, Verdict(def, limits, bindings, f), f);
            if r.state == Resolved || r.state == ConflictState then next == r
            else next.state != Resolved && next.state != ConflictState
  {
  }

  lemma DescribesSnoc(def: FabricDefinition, limits: ModelLimits, bindings: seq<AuthorityBinding>,
                      facts: seq<EvidenceFact>, f: EvidenceFact, key: EvidenceKey, r: Resolution)
    requires forall i :: 0 <= i < |def.services| ==> ValidService(def.services[i], limits)
    requires Describes(def, bindings, facts, key, r) && SupersedesDispute(def, bindings, facts, key, f)
    ensures Describes(def, bindings, facts + [f], key,
                      if KeyOfFact(f) == key then Folded(r, Verdict(def, limits, bindings, f), f) else r)
  {
    hide Verdict, Establishes, Usable, ValidService;
    var next := if KeyOfFact(f) == key then Folded(r, Verdict(def, limits, bindings, f), f) else r;
    VerdictIsUsable(def, limits, bindings, f);
    if !Candidate(def, bindings, [f], key, f) {
      SameEstablished(def, bindings, facts, f, key);
      if KeyOfFact(f) == key {
        UnresolvedVerdict(def, limits, bindings, f, r);
      }
    } else if r.state == Resolved {
      var e :| Establishes(def, bindings, facts, key, e) && r == ResolvedBy(e);
      if f.sequence > e.sequence {
        NewestBeats(def, bindings, facts, e, f, key);
        NewerEstablishes(def, bindings, facts, f, key);
      } else if f.sequence == e.sequence && f.value != e.value {
        RivalDisputes(def, bindings, facts, e, f, key);
      } else {
        OlderStands(def, bindings, facts, e, f, key);
      }
    } else {
      NewerEstablishes(def, bindings, facts, f, key);
    }
  }

  lemma NewestBeats(def: FabricDefinition, bindings: seq<AuthorityBinding>, facts: seq<EvidenceFact>,
                    e: EvidenceFact, f: EvidenceFact, key: EvidenceKey)
    requires Establishes(def, bindings, facts, key, e) && f.sequence > e.sequence
    ensures forall g :: Candidate(def, bindings, facts, key, g) ==> g.sequence < f.sequence
  {
    hide Candidate;
  }

  lemma {:induction false} UndisturbedDescribes(def: FabricDefinition, limits: ModelLimits,
                                                bindings: seq<AuthorityBinding>, facts: seq<EvidenceFact>,
                                                key: EvidenceKey)
    requires forall i :: 0 <= i < |def.services| ==> ValidService(def.services[i], limits)
    requires Undisturbed(def, bindings, facts, key)
    ensures Describes(def, bindings, facts, key, Fold(def, limits, bindings, facts, key))
    decreases |facts|
  {
    hide Verdict, Folded, Establishes, Disputed, ValidService;
    if |facts| > 0 {
      var init, f := facts[..|facts| - 1], facts[|facts| - 1];
      UndisturbedPrefix(def, bindings, facts, key, |facts| - 1);
      UndisturbedDescribes(def, limits, bindings, init, key);
      DescribesSnoc(def, limits, bindings, init, f, key, Fold(def, limits, bindings, init, key));
      assert facts == init + [f];
    }
  }

  lemma UndisturbedPrefix(def: FabricDefinition, bindings: seq<AuthorityBinding>, facts: seq<EvidenceFact>,
                          key: EvidenceKey, k: nat)
    requires Undisturbed(def, bindings, facts, key) && k <= |facts|
    ensures Undisturbed(def, bindings, facts[..k], key)
  {
    hide SupersedesDispute;
    forall n | 0 <= n < k
      ensures SupersedesDispute(def, bindings, facts[..k][..n], key, facts[..k][n])
    {
      assert facts[..k][..n] == facts[..n];
    }
  }

  lemma DescribesValue(def: FabricDefinition, bindings: seq<AuthorityBinding>, facts: seq<EvidenceFact>,
                       key: EvidenceKey, r: Resolution)
    requires Describes(def, bindings, facts, key, r)
    ensures ValueOf(r) == Established(def, bindings, facts, key)
  {
    hide Candidate;
    if r.state == Resolved {
      var f :| Establishes(def, bindings, facts, key, f) && r == ResolvedBy(f);
      EstablishedIs(def, bindings, facts, key, f);
    }
  }

  // A fact that follows a dispute without being newer makes the planner resolve what is
  // still unknown.
  lemma DisturbedDiffers(def: FabricDefinition, limits: ModelLimits, bindings: seq<AuthorityBinding>,
                         facts: seq<EvidenceFact>, f: EvidenceFact, key: EvidenceKey)
    requires forall i :: 0 <= i < |def.services| ==> ValidService(def.services[i], limits)
    requires !SupersedesDispute(def, bindings, facts, key, f)
    requires ValueOf(Fold(def, limits, bindings, facts, key)) == Established(def, bindings, facts, key)
    ensures ValueOf(Fold(def, limits, bindings, facts + [f], key)) == Some(f.value)
    ensures Established(def, bindings, facts + [f], key) == None
  {
    hide Verdict, Fold, Candidate, Usable, ValidService;
    VerdictIsUsable(def, limits, bindings, f);
    FoldSnoc(def, limits, bindings, facts, f, key);
    NewCandidates(def, bindings, facts, f, key);
    var g :| Candidate(def, bindings, facts, key, g) && g.sequence >= f.sequence;
    if h :| Establishes(def, bindings, facts + [f], key, h) {
      StillEstablished(def, bindings, facts, f, key, g, h);
      assert false;
    }
  }

  lemma StillEstablished(def: FabricDefinition, bindings: seq<AuthorityBinding>, facts: seq<EvidenceFact>,
                         f: EvidenceFact, key: EvidenceKey, g: EvidenceFact, h: EvidenceFact)
    requires Candidate(def, bindings, facts, key, g) && g.sequence >= f.sequence
    requires Establishes(def, bindings, facts + [f], key, h)
    ensures Established(def, bindings, facts, key).Some?
  {
    hide Candidate;
    NewCandidates(def, bindings, facts, f, key);
    if h == f {
      assert Establishes(def, bindings, facts, key, g);
    } else {
      assert Establishes(def, bindings, facts, key, h);
    }
  }

  /** Exactly when the planner's table says, after every fact it takes, what the facts so far
      establish: when no admissible fact comes behind a dispute without being newer. */
  lemma PlannerAgreesIff(def: FabricDefinition, limits: ModelLimits, bindings: seq<AuthorityBinding>,
                         facts: seq<EvidenceFact>, key: EvidenceKey)
    requires forall i :: 0 <= i < |def.services| ==> ValidService(def.services[i], limits)
    ensures Undisturbed(def, bindings, facts, key)
       <==> forall n :: 0 <= n <= |facts| ==>
              ValueOf(Fold(def, limits, bindings, facts[..n], key)) == Established(def, bindings, facts[..n], key)
  {
    hide Fold, Describes, Established, SupersedesDispute, ValueOf, ValidService;
    if Undisturbed(def, bindings, facts, key) {
      forall n | 0 <= n <= |facts|
        ensures ValueOf(Fold(def, limits, bindings, facts[..n], key)) == Established(def, bindings, facts[..n], key)
      {
        UndisturbedPrefix(def, bindings, facts, key, n);
        UndisturbedDescribes(def, limits, bindings, facts[..n], key);
        DescribesValue(def, bindings, facts[..n], key, Fold(def, limits, bindings, facts[..n], key));
      }
    } else {
      var n :| 0 <= n < |facts| && !SupersedesDispute(def, bindings, facts[..n], key, facts[n]);
      assert facts[..n + 1] == facts[..n] + [facts[n]];
      if ValueOf(Fold(def, limits, bindings, facts[..n], key)) == Established(def, bindings, facts[..n], key) {
        DisturbedDiffers(def, limits, bindings, facts[..n], facts[n], key);
        assert ValueOf(Fold(def, limits, bindings, facts[..n + 1], key))
            != Established(def, bindings, facts[..n + 1], key);
      }
    }
  }

  // Where the facts begin that the table still remembers: an admissible fact that finds those
  // before it in dispute begins anew.
  ghost function Remembered(def: FabricDefinition, bindings: seq<AuthorityBinding>, facts: seq<EvidenceFact>,
                            key: EvidenceKey): (m: nat)
    ensures m <= |facts|
  {
    hide Candidate, Disputed;
    if |facts| == 0 then 0
    else
      var init, f := facts[..|facts| - 1], facts[|facts| - 1];
      var m := Remembered(def, bindings, init, key);
      if Disputed(def, bindings, init[m..], key) && Candidate(def, bindings, [f], key, f) then |init| else m
  }

  /** The planner's table says, whatever the evidence, what the facts since the last settled
      dispute establish. */
  lemma {:induction false} TableRemembers(def: FabricDefinition, limits: ModelLimits, bindings: seq<AuthorityBinding>,
                                          facts: seq<EvidenceFact>, key: EvidenceKey)
    requires forall i :: 0 <= i < |def.services| ==> ValidService(def.services[i], limits)
    ensures var recent := facts[Remembered(def, bindings, facts, key)..];
            && Describes(def, bindings, recent, key, Fold(def, limits, bindings, facts, key))
            && ValueOf(Fold(def, limits, bindings, facts, key)) == Established(def, bindings, recent, key)
    decreases |facts|
  {
    hide Candidate, Disputed, Verdict, Folded, ValidService, Describes, ValueOf, Established;
    var m := Remembered(def, bindings, facts, key);
    if |facts| == 0 {
      NothingDescribed(def, limits, bindings, key);
      assert facts == [] && facts[m..] == [];
    } else {
      var init, f := facts[..|facts| - 1], facts[|facts| - 1];
      var before := Remembered(def, bindings, init, key);
      TableRemembers(def, limits, bindings, init, key);
      var r := Fold(def, limits, bindings, init, key);
      if Disputed(def, bindings, init[before..], key) && Candidate(def, bindings, [f], key, f) {
        DisputeForgotten(def, limits, bindings, init[before..], f, key, r);
        assert facts[m..] == [f];
      } else {
        NotForgotten(def, bindings, init[before..], f, key);
        DescribesSnoc(def, limits, bindings, init[before..], f, key, r);
        assert facts[m..] == init[before..] + [f];
      }
    }
    DescribesValue(def, bindings, facts[m..], key, Fold(def, limits, bindings, facts, key));
  }

  lemma NothingDescribed(def: FabricDefinition, limits: ModelLimits, bindings: seq<AuthorityBinding>, key: EvidenceKey)
    ensures Describes(def, bindings, [], key, Fold(def, limits, bindings, [], key))
  {
  }

  lemma NotForgotten(def: FabricDefinition, bindings: seq<AuthorityBinding>, facts: seq<EvidenceFact>, f: EvidenceFact,
                     key: EvidenceKey)
    requires !Disputed(def, bindings, facts, key) || !Candidate(def, bindings, [f], key, f)
    ensures SupersedesDispute(def, bindings, facts, key, f)
  {
    hide Disputed, Usable;
  }

  lemma DisputeForgotten(def: FabricDefinition, limits: ModelLimits, bindings: seq<AuthorityBinding>,
                         facts: seq<EvidenceFact>, f: EvidenceFact, key: EvidenceKey, r: Resolution)
    requires forall i :: 0 <= i < |def.services| ==> ValidService(def.services[i], limits)
    requires Describes(def, bindings, facts, key, r) && Disputed(def, bindings, facts, key)
    requires Candidate(def, bindings, [f], key, f)
    ensures KeyOfFact(f) == key
    ensures Describes(def, bindings, [f], key, Folded(r, Verdict(def, limits, bindings, f), f))
  {
    hide Verdict, Usable, ValidService;
    VerdictIsUsable(def, limits, bindings, f);
    if r.state == Resolved {
      var e :| Establishes(def, bindings, facts, key, e) && r == ResolvedBy(e);
      EstablishedIs(def, bindings, facts, key, e);
      assert false;
    }
    assert Establishes(def, bindings, [f], key, f);
  }

  /** Exactly when the table that the planner goes on with says what all the facts establish: when
      the newest of them carry the value that those since the last settled dispute establish, or,
      where these establish nothing, when there are none or the newest disagree. */
  lemma FinalTableAgreesIff(def: FabricDefinition, limits: ModelLimits, bindings: seq<AuthorityBinding>,
                            facts: seq<EvidenceFact>, key: EvidenceKey)
    requires forall i :: 0 <= i < |def.services| ==> ValidService(def.services[i], limits)
    ensures var recent := facts[Remembered(def, bindings, facts, key)..];
            ValueOf(Fold(def, limits, bindings, facts, key)) == Established(def, bindings, facts, key) <==>
              if exists e :: Establishes(def, bindings, recent, key, e)
              then forall e, g :: Establishes(def, bindings, recent, key, e) && Newest(def, bindings, facts, key, g) ==>
                     g.value == e.value
              else
                || (forall f :: !Candidate(def, bindings, facts, key, f))
                || exists f, g :: Newest(def, bindings, facts, key, f) && Newest(def, bindings, facts, key, g)
                                  && f.value != g.value
  {
    hide Candidate, Fold, ValueOf, ValidService, Describes, Remembered, Newest;
    var recent := facts[Remembered(def, bindings, facts, key)..];
    TableRemembers(def, limits, bindings, facts, key);
    EstablishedIff(def, bindings, facts, key);
    if e :| Establishes(def, bindings, recent, key, e) {
      EstablishedIs(def, bindings, recent, key, e);
      RecentStands(def, bindings, facts, recent, key, e);
    }
  }

  lemma RecentStands(def: FabricDefinition, bindings: seq<AuthorityBinding>, facts: seq<EvidenceFact>,
                     recent: seq<EvidenceFact>, key: EvidenceKey, e: EvidenceFact)
    requires Establishes(def, bindings, recent, key, e) && forall g :: g in recent ==> g in facts
    ensures Established(def, bindings, facts, key) == Some(e.value) <==>
              forall d, g :: Establishes(def, bindings, recent, key, d) && Newest(def, bindings, facts, key, g) ==>
                g.value == d.value
  {
    hide Established, Usable;
    assert Candidate(def, bindings, facts, key, e);
    EstablishedIff(def, bindings, facts, key);
    hide Candidate;
    var best := FindNewest(def, bindings, facts, key, e);
    forall d | Establishes(def, bindings, recent, key, d)
      ensures d.value == e.value
    {
      EstablishedIs(def, bindings, recent, key, d);
      EstablishedIs(def, bindings, recent, key, e);
    }
  }

  /** Tie-consistent evidence is never disputed, whatever its order. */
  lemma {:induction false} ConsistentIsUndisputed(def: FabricDefinition, bindings: seq<AuthorityBinding>,
                                                  facts: seq<EvidenceFact>, key: EvidenceKey)
    requires TieConsistent(def, bindings, facts, key)
    ensures !Disputed(def, bindings, facts, key)
    decreases |facts|
  {
    hide Candidate;
    if |facts| == 0 {
      NoFacts(def, bindings, facts, key);
    } else {
      var init, f := facts[..|facts| - 1], facts[|facts| - 1];
      assert facts == init + [f];
      NewCandidates(def, bindings, init, f, key);
      ConsistentIsUndisputed(def, bindings, init, key);
      if !Candidate(def, bindings, [f], key, f) {
        SameEstablished(def, bindings, init, f, key);
      } else if e :| Establishes(def, bindings, init, key, e) {
        if f.sequence > e.sequence {
          NewestBeats(def, bindings, init, e, f, key);
          NewerEstablishes(def, bindings, init, f, key);
        } else {
          assert Candidate(def, bindings, facts, key, e) && Candidate(def, bindings, facts, key, f);
          OlderStands(def, bindings, init, e, f, key);
        }
      } else {
        NewerEstablishes(def, bindings, init, f, key);
      }
    }
  }

  lemma NoFacts(def: FabricDefinition, bindings: seq<AuthorityBinding>, facts: seq<EvidenceFact>, key: EvidenceKey)
    requires |facts| == 0
    ensures forall f :: !Candidate(def, bindings, facts, key, f)
  {
  }

  lemma ConsistentPrefix(def: FabricDefinition, bindings: seq<AuthorityBinding>, facts: seq<EvidenceFact>,
                         key: EvidenceKey, k: nat)
    requires TieConsistent(def, bindings, facts, key) && k <= |facts|
    ensures TieConsistent(def, bindings, facts[..k], key)
  {
    forall f | Candidate(def, bindings, facts[..k], key, f)
      ensures Candidate(def, bindings, facts, key, f)
    {
    }
  }

  /** Under tie-consistent evidence the planner's table is right. */
  lemma ConsistentAgrees(def: FabricDefinition, limits: ModelLimits, bindings: seq<AuthorityBinding>,
                         facts: seq<EvidenceFact>, key: EvidenceKey)
    requires forall i :: 0 <= i < |def.services| ==> ValidService(def.services[i], limits)
    requires TieConsistent(def, bindings, facts, key)
    ensures Describes(def, bindings, facts, key, Fold(def, limits, bindings, facts, key))
    ensures Fold(def, limits, bindings, facts, key).state != ConflictState
    ensures ValueOf(Fold(def, limits, bindings, facts, key)) == Established(def, bindings, facts, key)
  {
    hide Candidate, Fold, ValidService, TieConsistent, Disputed, Established;
    forall n | 0 <= n < |facts|
      ensures SupersedesDispute(def, bindings, facts[..n], key, facts[n])
    {
      ConsistentPrefix(def, bindings, facts, key, n);
      ConsistentIsUndisputed(def, bindings, facts[..n], key);
    }
    UndisturbedDescribes(def, limits, bindings, facts, key);
    ConsistentIsUndisputed(def, bindings, facts, key);
    DescribesValue(def, bindings, facts, key, Fold(def, limits, bindings, facts, key));
  }

  // ---- Where it is wrong ----------------------------------------------------

  const ONE_LINK: FabricDefinition :=
    FabricDefinition([NodeSpec(1, false), NodeSpec(2, false)], [LinkSpec(7, 1, 2)], [], [], [], [], [])

  lemma OneLinkIsValid()
    ensures ValidDefinition(ONE_LINK, DEFAULT_LIMITS)
  {
    assert NodeIds(ONE_LINK) == [1, 2] && LinkIds(ONE_LINK) == [7];
    assert ServiceIds(ONE_LINK) == [] && ResourceIds(ONE_LINK) == [] && GroupIds(ONE_LINK) == [];
    assert ActionIds(ONE_LINK) == [];
    FindUnique(NodeIds(ONE_LINK), 0);
    FindUnique(NodeIds(ONE_LINK), 1);
    assert ValidLink(ONE_LINK, ONE_LINK.links[0]);
  }

  const ONE_BINDING: seq<AuthorityBinding> := [AuthorityBinding(FabricStateDomain, 1, 3, 3, Recommendation)]

  function Observation(source: U64, value: U64, sequence: U64): EvidenceFact {
    EvidenceFact(source, LinkFact, Subject(LinkSubject, 7), value, 3, FabricStateDomain, source, RealLabel, sequence)
  }

  /** Two sources disagree about a link at sequence 5 and a third, older observation follows
      them: the planner takes the oldest value for established, although nothing is. */
  lemma OldFactSettlesDispute(limits: ModelLimits)
    ensures ValidDefinition(ONE_LINK, DEFAULT_LIMITS)
    ensures var facts := [Observation(1, 0, 5), Observation(2, 1, 5), Observation(3, 1, 4)];
            var key := EvidenceKey(LinkFact, Subject(LinkSubject, 7));
            && ValueOf(Fold(ONE_LINK, limits, ONE_BINDING, facts, key)) == Some(1)
            && Established(ONE_LINK, ONE_BINDING, facts, key) == None
            && !Undisturbed(ONE_LINK, ONE_BINDING, facts, key)
  {
    OneLinkIsValid();
    hide Established, Undisturbed, Fold, Verdict, Usable, FindBinding, ValidDefinition;
    var a, b, c := Observation(1, 0, 5), Observation(2, 1, 5), Observation(3, 1, 4);
    var facts := [a, b, c];
    var key := EvidenceKey(LinkFact, Subject(LinkSubject, 7));
    ObservationUsable(1, 0, 5);
    ObservationUsable(2, 1, 5);
    ObservationUsable(3, 1, 4);
    VerdictIsUsable(ONE_LINK, limits, ONE_BINDING, a);
    VerdictIsUsable(ONE_LINK, limits, ONE_BINDING, b);
    VerdictIsUsable(ONE_LINK, limits, ONE_BINDING, c);
    FoldOfNone(ONE_LINK, limits, ONE_BINDING, key);
    FoldSnoc(ONE_LINK, limits, ONE_BINDING, [], a, key);
    FoldSnoc(ONE_LINK, limits, ONE_BINDING, [a], b, key);
    FoldSnoc(ONE_LINK, limits, ONE_BINDING, [a, b], c, key);
    assert [] + [a] == [a] && [a] + [b] == [a, b] && [a, b] + [c] == facts;
    NothingEstablished(facts, key, a, b);
    PlannerAgreesIff(ONE_LINK, limits, ONE_BINDING, facts, key);
    assert facts[..3] == facts;
  }

  lemma FoldOfNone(def: FabricDefinition, limits: ModelLimits, bindings: seq<AuthorityBinding>, key: EvidenceKey)
    ensures Fold(def, limits, bindings, [], key) == FRESH
  {
  }

  lemma ObservationUsable(source: U64, value: U64, sequence: U64)
    requires value <= 1
    ensures Usable(ONE_LINK, ONE_BINDING, Observation(source, value, sequence))
  {
    assert LinkIds(ONE_LINK)[0] == 7;
  }

  lemma NothingEstablished(facts: seq<EvidenceFact>, key: EvidenceKey, a: EvidenceFact, b: EvidenceFact)
    requires Candidate(ONE_LINK, ONE_BINDING, facts, key, a) && Candidate(ONE_LINK, ONE_BINDING, facts, key, b)
    requires a.sequence == b.sequence && a.value != b.value
    requires forall f :: f in facts ==> f.sequence <= a.sequence
    ensures Established(ONE_LINK, ONE_BINDING, facts, key) == None
  {
    hide Usable;
  }
}
