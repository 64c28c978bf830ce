/** The encoders of requests as they run: field after field, list after list, appended to one
    writer.  Each writes exactly what its format says. */
module Encoding {
  import opened Ints
  import opened Canonical
  import opened Codecs
  import opened Domain
  import opened Definition
  import opened Evidence
  import opened Requests
  import opened Formats
  import opened Decoding

  // What has been written is the encoding of a value, after what was there before.
  ghost predicate Wrote<T>(c: Codec<T>, before: Bytes, after: Bytes, x: T) {
    after == before + c.encode(x)
  }

  lemma WrotePair<A, B>(a: Codec<A>, b: Codec<B>, s0: Bytes, s1: Bytes, s2: Bytes, x: A, y: B)
    requires Wrote(a, s0, s1, x) && Wrote(b, s1, s2, y)
    ensures Wrote(Pair(a, b), s0, s2, (x, y))
  {
    Reassociate(s0, a.encode(x), b.encode(y));
  }

  lemma WroteAs<S, T>(c: Codec<S>, make: S -> T, parts: T -> S, s0: Bytes, s1: Bytes, x: T)
    requires Wrote(c, s0, s1, parts(x))
    ensures Wrote(As(c, make, parts), s0, s1, x)
  {
  }

  lemma WroteOnly<T>(c: Codec<T>, accepts: T -> bool, s0: Bytes, s1: Bytes, x: T)
    requires Wrote(c, s0, s1, x)
    ensures Wrote(Only(c, accepts), s0, s1, x)
  {
  }

  lemma {:induction false} EncodeAllSnoc<T>(c: Codec<T>, list: seq<T>, x: T)
    ensures EncodeAll(c, list + [x]) == EncodeAll(c, list) + c.encode(x)
  {
    if |list| == 0 {
      assert EncodeAll(c, [x][1..]) == [];
      assert c.encode(x) + [] == c.encode(x);
      assert list + [x] == [x];
    } else {
      assert (list + [x])[1..] == list[1..] + [x];
      EncodeAllSnoc(c, list[1..], x);
      Reassociate(c.encode(list[0]), EncodeAll(c, list[1..]), c.encode(x));
    }
  }

  lemma NothingWritten<T>(c: Codec<T>, list: seq<T>, before: Bytes)
    ensures before + EncodeAll(c, list[..0]) == before
  {
  }

  lemma OneMore<T>(c: Codec<T>, list: seq<T>, i: nat, front: Bytes, before: Bytes, after: Bytes)
    requires i < |list| && before == front + EncodeAll(c, list[..i]) && Wrote(c, before, after, list[i])
    ensures after == front + EncodeAll(c, list[..i + 1])
  {
    hide EncodeAll;
    assert list[..i + 1] == list[..i] + [list[i]];
    EncodeAllSnoc(c, list[..i], list[i]);
    Reassociate(front, EncodeAll(c, list[..i]), c.encode(list[i]));
  }

  lemma WroteList<T>(c: Codec<T>, max: U32, s0: Bytes, s1: Bytes, list: seq<T>)
    requires s1 == s0 + U32Bytes(Count(|list|)) + EncodeAll(c, list[..|list|])
    ensures Wrote(ListOf(c, max), s0, s1, list)
  {
    hide EncodeAll, U32Bytes;
    assert list[..|list|] == list;
    Reassociate(s0, U32Bytes(Count(|list|)), EncodeAll(c, list));
  }

  // ---- Single values --------------------------------------------------------

  method PutU64(w: CanonicalWriter, x: U64)
    modifies w
    ensures Wrote(U64_CODEC, old(w.buffer), w.buffer, x)
  {
    w.WriteU64(x);
  }

  method PutU32(w: CanonicalWriter, x: U32)
    modifies w
    ensures Wrote(U32_CODEC, old(w.buffer), w.buffer, x)
  {
    w.WriteU32(x);
  }

  method PutI64(w: CanonicalWriter, x: I64)
    modifies w
    ensures Wrote(I64_CODEC, old(w.buffer), w.buffer, x)
  {
    w.WriteI64(x);
  }

  method PutFlag(w: CanonicalWriter, x: bool)
    modifies w
    ensures Wrote(FLAG_CODEC, old(w.buffer), w.buffer, x)
  {
    w.WriteBool(x);
  }

  method PutNamed<E>(w: CanonicalWriter, code: E -> U8, ghost named: U8 -> Option<E>, x: E)
    modifies w
    ensures Wrote(Named(code, named), old(w.buffer), w.buffer, x)
  {
    w.WriteU8(code(x));
  }

  method PutText(w: CanonicalWriter, x: Bytes, ghost max: U32)
    modifies w
    ensures Wrote(Text(max), old(w.buffer), w.buffer, x)
  {
    hide U32Bytes;
    ghost var before := w.buffer;
    w.WriteBytes(x);
    Reassociate(before, U32Bytes(Count(|x|)), x);
  }

  method PutSubject(w: CanonicalWriter, x: Subject)
    modifies w
    ensures Wrote(SUBJECT, old(w.buffer), w.buffer, x)
  {
    hide Wrote, Named, U64_CODEC, SubjectCode, SubjectNamed;
    ghost var s0 := w.buffer;
    PutNamed(w, SubjectCode, SubjectNamed, x.kind);
    ghost var s1 := w.buffer;
    PutU64(w, x.id);
    WrotePair(SUBJECT_KIND, U64_CODEC, s0, s1, w.buffer, x.kind, x.id);
    WroteAs(Pair(SUBJECT_KIND, U64_CODEC), MakeSubject, SubjectParts, s0, w.buffer, x);
    WroteOnly(As(Pair(SUBJECT_KIND, U64_CODEC), MakeSubject, SubjectParts), Addressable, s0, w.buffer, x);
  }

  // ---- Records, field by field ----------------------------------------------

  method EncodeNode(w: CanonicalWriter, x: NodeSpec)
    modifies w
    ensures Wrote(NODE, old(w.buffer), w.buffer, x)
  {
    hide Wrote, Named, U64_CODEC, FLAG_CODEC;
    ghost var s0 := w.buffer;
    PutU64(w, x.id);
    ghost var s1 := w.buffer;
    PutFlag(w, x.isProtected);
    ghost var s2 := w.buffer;
    WrotePair(U64_CODEC, FLAG_CODEC, s0, s1, s2, x.id, x.isProtected);
    WroteAs(Pair(U64_CODEC, FLAG_CODEC), MakeNode, NodeParts, s0, s2, x);
  }

  method EncodeLink(w: CanonicalWriter, x: LinkSpec)
    modifies w
    ensures Wrote(LINK, old(w.buffer), w.buffer, x)
  {
    hide Wrote, Named, U64_CODEC;
    ghost var s0 := w.buffer;
    PutU64(w, x.id);
    ghost var s1 := w.buffer;
    PutU64(w, x.endpointA);
    ghost var s2 := w.buffer;
    PutU64(w, x.endpointB);
    ghost var s3 := w.buffer;
    WrotePair(U64_CODEC, U64_CODEC, s1, s2, s3, x.endpointA, x.endpointB);
    ghost var c1 := Pair(U64_CODEC, U64_CODEC);
    ghost var v1 := (x.endpointA, x.endpointB);
    WrotePair(U64_CODEC, c1, s0, s1, s3, x.id, v1);
    ghost var c0 := Pair(U64_CODEC, c1);
    ghost var v0 := (x.id, v1);
    WroteAs(c0, MakeLink, LinkParts, s0, s3, x);
  }

  method EncodeService(w: CanonicalWriter, x: ServiceSpec)
    modifies w
    ensures Wrote(SERVICE, old(w.buffer), w.buffer, x)
  {
    hide Wrote, Named, U64_CODEC, U32_CODEC, FLAG_CODEC;
    ghost var s0 := w.buffer;
    PutU64(w, x.id);
    ghost var s1 := w.buffer;
    PutU32(w, x.required);
    ghost var s2 := w.buffer;
    PutU32(w, x.target);
    ghost var s3 := w.buffer;
    PutU32(w, x.maximum);
    ghost var s4 := w.buffer;
    PutFlag(w, x.isProtected);
    ghost var s5 := w.buffer;
    WrotePair(U32_CODEC, FLAG_CODEC, s3, s4, s5, x.maximum, x.isProtected);
    ghost var c3 := Pair(U32_CODEC, FLAG_CODEC);
    ghost var v3 := (x.maximum, x.isProtected);
    WrotePair(U32_CODEC, c3, s2, s3, s5, x.target, v3);
    ghost var c2 := Pair(U32_CODEC, c3);
    ghost var v2 := (x.target, v3);
    WrotePair(U32_CODEC, c2, s1, s2, s5, x.required, v2);
    ghost var c1 := Pair(U32_CODEC, c2);
    ghost var v1 := (x.required, v2);
    WrotePair(U64_CODEC, c1, s0, s1, s5, x.id, v1);
    ghost var c0 := Pair(U64_CODEC, c1);
    ghost var v0 := (x.id, v1);
    WroteAs(c0, MakeService, ServiceParts, s0, s5, x);
  }

  method EncodeResource(w: CanonicalWriter, x: ResourceSpec)
    modifies w
    ensures Wrote(RESOURCE, old(w.buffer), w.buffer, x)
  {
    hide Wrote, Named, U64_CODEC, ResourceCode, ResourceNamed, U32_CODEC;
    ghost var s0 := w.buffer;
    PutU64(w, x.id);
    ghost var s1 := w.buffer;
    PutNamed(w, ResourceCode, ResourceNamed, x.kind);
    ghost var s2 := w.buffer;
    PutU32(w, x.capacity);
    ghost var s3 := w.buffer;
    PutU32(w, x.holdSteps);
    ghost var s4 := w.buffer;
    WrotePair(U32_CODEC, U32_CODEC, s2, s3, s4, x.capacity, x.holdSteps);
    ghost var c2 := Pair(U32_CODEC, U32_CODEC);
    ghost var v2 := (x.capacity, x.holdSteps);
    WrotePair(RESOURCE_KIND, c2, s1, s2, s4, x.kind, v2);
    ghost var c1 := Pair(RESOURCE_KIND, c2);
    ghost var v1 := (x.kind, v2);
    WrotePair(U64_CODEC, c1, s0, s1, s4, x.id, v1);
    ghost var c0 := Pair(U64_CODEC, c1);
    ghost var v0 := (x.id, v1);
    WroteAs(c0, MakeResource, ResourceParts, s0, s4, x);
  }

  method EncodePrecondition(w: CanonicalWriter, x: Precondition)
    modifies w
    ensures Wrote(PRECONDITION, old(w.buffer), w.buffer, x)
  {
    hide Wrote, Named, PreconditionCode, PreconditionNamed, SUBJECT, U64_CODEC;
    ghost var s0 := w.buffer;
    PutNamed(w, PreconditionCode, PreconditionNamed, x.kind);
    ghost var s1 := w.buffer;
    PutSubject(w, x.subject);
    ghost var s2 := w.buffer;
    PutU64(w, x.value);
    ghost var s3 := w.buffer;
    WrotePair(SUBJECT, U64_CODEC, s1, s2, s3, x.subject, x.value);
    ghost var c1 := Pair(SUBJECT, U64_CODEC);
    ghost var v1 := (x.subject, x.value);
    WrotePair(PRECONDITION_KIND, c1, s0, s1, s3, x.kind, v1);
    ghost var c0 := Pair(PRECONDITION_KIND, c1);
    ghost var v0 := (x.kind, v1);
    WroteAs(c0, MakePrecondition, PreconditionParts, s0, s3, x);
  }

  method EncodeEffect(w: CanonicalWriter, x: Effect)
    modifies w
    ensures Wrote(EFFECT, old(w.buffer), w.buffer, x)
  {
    hide Wrote, Named, EffectCode, EffectNamed, SUBJECT, I64_CODEC;
    ghost var s0 := w.buffer;
    PutNamed(w, EffectCode, EffectNamed, x.kind);
    ghost var s1 := w.buffer;
    PutSubject(w, x.subject);
    ghost var s2 := w.buffer;
    PutI64(w, x.value);
    ghost var s3 := w.buffer;
    WrotePair(SUBJECT, I64_CODEC, s1, s2, s3, x.subject, x.value);
    ghost var c1 := Pair(SUBJECT, I64_CODEC);
    ghost var v1 := (x.subject, x.value);
    WrotePair(EFFECT_KIND, c1, s0, s1, s3, x.kind, v1);
    ghost var c0 := Pair(EFFECT_KIND, c1);
    ghost var v0 := (x.kind, v1);
    WroteAs(c0, MakeEffect, EffectParts, s0, s3, x);
  }

  method EncodeUse(w: CanonicalWriter, x: ResourceUse)
    modifies w
    ensures Wrote(USE, old(w.buffer), w.buffer, x)
  {
    hide Wrote, Named, U64_CODEC, U32_CODEC;
    ghost var s0 := w.buffer;
    PutU64(w, x.resource);
    ghost var s1 := w.buffer;
    PutU32(w, x.units);
    ghost var s2 := w.buffer;
    WrotePair(U64_CODEC, U32_CODEC, s0, s1, s2, x.resource, x.units);
    WroteAs(Pair(U64_CODEC, U32_CODEC), MakeUse, UseParts, s0, s2, x);
  }

  method EncodeDependency(w: CanonicalWriter, x: ActionDependency)
    modifies w
    ensures Wrote(DEPENDENCY, old(w.buffer), w.buffer, x)
  {
    hide Wrote, Named, U64_CODEC, U32_CODEC;
    ghost var s0 := w.buffer;
    PutU64(w, x.predecessor);
    ghost var s1 := w.buffer;
    PutU32(w, x.minOccurrences);
    ghost var s2 := w.buffer;
    WrotePair(U64_CODEC, U32_CODEC, s0, s1, s2, x.predecessor, x.minOccurrences);
    WroteAs(Pair(U64_CODEC, U32_CODEC), MakeDependency, DependencyParts, s0, s2, x);
  }

  method EncodeGoal(w: CanonicalWriter, x: GoalSpec)
    modifies w
    ensures Wrote(GOAL, old(w.buffer), w.buffer, x)
  {
    hide Wrote, Named, GoalCode, GoalNamed, SUBJECT, U64_CODEC, U32_CODEC;
    ghost var s0 := w.buffer;
    PutNamed(w, GoalCode, GoalNamed, x.kind);
    ghost var s1 := w.buffer;
    PutSubject(w, x.subject);
    ghost var s2 := w.buffer;
    PutU64(w, x.value);
    ghost var s3 := w.buffer;
    PutU32(w, x.weight);
    ghost var s4 := w.buffer;
    WrotePair(U64_CODEC, U32_CODEC, s2, s3, s4, x.value, x.weight);
    ghost var c2 := Pair(U64_CODEC, U32_CODEC);
    ghost var v2 := (x.value, x.weight);
    WrotePair(SUBJECT, c2, s1, s2, s4, x.subject, v2);
    ghost var c1 := Pair(SUBJECT, c2);
    ghost var v1 := (x.subject, v2);
    WrotePair(GOAL_KIND, c1, s0, s1, s4, x.kind, v1);
    ghost var c0 := Pair(GOAL_KIND, c1);
    ghost var v0 := (x.kind, v1);
    WroteAs(c0, MakeGoal, GoalParts, s0, s4, x);
  }

  method EncodeGroup(w: CanonicalWriter, x: ExclusionGroup)
    modifies w
    ensures Wrote(GROUP, old(w.buffer), w.buffer, x)
  {
    hide Wrote, Named, U64_CODEC, U32_CODEC;
    ghost var s0 := w.buffer;
    PutU64(w, x.id);
    ghost var s1 := w.buffer;
    PutU32(w, x.maxSelected);
    ghost var s2 := w.buffer;
    WrotePair(U64_CODEC, U32_CODEC, s0, s1, s2, x.id, x.maxSelected);
    WroteAs(Pair(U64_CODEC, U32_CODEC), MakeGroup, GroupParts, s0, s2, x);
  }

  method EncodeFact(w: CanonicalWriter, x: EvidenceFact)
    modifies w
    ensures Wrote(FACT, old(w.buffer), w.buffer, x)
  {
    hide Wrote, Named, U64_CODEC, FactCode, FactNamed, SUBJECT, DomainCode, DomainNamed, TrustCode, TrustNamed;
    ghost var s0 := w.buffer;
    PutU64(w, x.id);
    ghost var s1 := w.buffer;
    PutNamed(w, FactCode, FactNamed, x.kind);
    ghost var s2 := w.buffer;
    PutSubject(w, x.subject);
    ghost var s3 := w.buffer;
    PutU64(w, x.value);
    ghost var s4 := w.buffer;
    PutU64(w, x.generation);
    ghost var s5 := w.buffer;
    PutNamed(w, DomainCode, DomainNamed, x.sourceDomain);
    ghost var s6 := w.buffer;
    PutU64(w, x.source);
    ghost var s7 := w.buffer;
    PutNamed(w, TrustCode, TrustNamed, x.trust);
    ghost var s8 := w.buffer;
    PutU64(w, x.sequence);
    ghost var s9 := w.buffer;
    WrotePair(TRUST, U64_CODEC, s7, s8, s9, x.trust, x.sequence);
    ghost var c7 := Pair(TRUST, U64_CODEC);
    ghost var v7 := (x.trust, x.sequence);
    WrotePair(U64_CODEC, c7, s6, s7, s9, x.source, v7);
    ghost var c6 := Pair(U64_CODEC, c7);
    ghost var v6 := (x.source, v7);
    WrotePair(DOMAIN, c6, s5, s6, s9, x.sourceDomain, v6);
    ghost var c5 := Pair(DOMAIN, c6);
    ghost var v5 := (x.sourceDomain, v6);
    WrotePair(U64_CODEC, c5, s4, s5, s9, x.generation, v5);
    ghost var c4 := Pair(U64_CODEC, c5);
    ghost var v4 := (x.generation, v5);
    WrotePair(U64_CODEC, c4, s3, s4, s9, x.value, v4);
    ghost var c3 := Pair(U64_CODEC, c4);
    ghost var v3 := (x.value, v4);
    WrotePair(SUBJECT, c3, s2, s3, s9, x.subject, v3);
    ghost var c2 := Pair(SUBJECT, c3);
    ghost var v2 := (x.subject, v3);
    WrotePair(FACT_KIND, c2, s1, s2, s9, x.kind, v2);
    ghost var c1 := Pair(FACT_KIND, c2);
    ghost var v1 := (x.kind, v2);
    WrotePair(U64_CODEC, c1, s0, s1, s9, x.id, v1);
    ghost var c0 := Pair(U64_CODEC, c1);
    ghost var v0 := (x.id, v1);
    WroteAs(c0, MakeFact, PartsOfFact, s0, s9, x);
  }

  method EncodeBinding(w: CanonicalWriter, x: AuthorityBinding)
    modifies w
    ensures Wrote(BINDING, old(w.buffer), w.buffer, x)
  {
    hide Wrote, Named, DomainCode, DomainNamed, U64_CODEC, LevelCode, LevelNamed;
    ghost var s0 := w.buffer;
    PutNamed(w, DomainCode, DomainNamed, x.domain);
    ghost var s1 := w.buffer;
    PutU64(w, x.authority);
    ghost var s2 := w.buffer;
    PutU64(w, x.required);
    ghost var s3 := w.buffer;
    PutU64(w, x.granted);
    ghost var s4 := w.buffer;
    PutNamed(w, LevelCode, LevelNamed, x.level);
    ghost var s5 := w.buffer;
    WrotePair(U64_CODEC, LEVEL, s3, s4, s5, x.granted, x.level);
    ghost var c3 := Pair(U64_CODEC, LEVEL);
    ghost var v3 := (x.granted, x.level);
    WrotePair(U64_CODEC, c3, s2, s3, s5, x.required, v3);
    ghost var c2 := Pair(U64_CODEC, c3);
    ghost var v2 := (x.required, v3);
    WrotePair(U64_CODEC, c2, s1, s2, s5, x.authority, v2);
    ghost var c1 := Pair(U64_CODEC, c2);
    ghost var v1 := (x.authority, v2);
    WrotePair(DOMAIN, c1, s0, s1, s5, x.domain, v1);
    ghost var c0 := Pair(DOMAIN, c1);
    ghost var v0 := (x.domain, v1);
    WroteAs(c0, MakeBinding, BindingParts, s0, s5, x);
  }

  method EncodeFence(w: CanonicalWriter, x: Fence)
    modifies w
    ensures Wrote(FENCE, old(w.buffer), w.buffer, x)
  {
    hide Wrote, Named, U64_CODEC, DomainCode, DomainNamed, Text;
    ghost var s0 := w.buffer;
    PutU64(w, x.epoch);
    ghost var s1 := w.buffer;
    PutU64(w, x.boot);
    ghost var s2 := w.buffer;
    PutNamed(w, DomainCode, DomainNamed, x.domain);
    ghost var s3 := w.buffer;
    PutU64(w, x.minimumGeneration);
    ghost var s4 := w.buffer;
    PutU64(w, x.sequence);
    ghost var s5 := w.buffer;
    PutText(w, x.reason, REASON_LENGTH);
    ghost var s6 := w.buffer;
    WrotePair(U64_CODEC, Text(REASON_LENGTH), s4, s5, s6, x.sequence, x.reason);
    ghost var c4 := Pair(U64_CODEC, Text(REASON_LENGTH));
    ghost var v4 := (x.sequence, x.reason);
    WrotePair(U64_CODEC, c4, s3, s4, s6, x.minimumGeneration, v4);
    ghost var c3 := Pair(U64_CODEC, c4);
    ghost var v3 := (x.minimumGeneration, v4);
    WrotePair(DOMAIN, c3, s2, s3, s6, x.domain, v3);
    ghost var c2 := Pair(DOMAIN, c3);
    ghost var v2 := (x.domain, v3);
    WrotePair(U64_CODEC, c2, s1, s2, s6, x.boot, v2);
    ghost var c1 := Pair(U64_CODEC, c2);
    ghost var v1 := (x.boot, v2);
    WrotePair(U64_CODEC, c1, s0, s1, s6, x.epoch, v1);
    ghost var c0 := Pair(U64_CODEC, c1);
    ghost var v0 := (x.epoch, v1);
    WroteAs(c0, MakeFence, FenceParts, s0, s6, x);
  }

  method EncodePolicy(w: CanonicalWriter, x: PlanPolicy)
    modifies w
    ensures Wrote(POLICY, old(w.buffer), w.buffer, x)
  {
    hide Wrote, Named, FLAG_CODEC, U64_CODEC, U32_CODEC;
    ghost var s0 := w.buffer;
    PutFlag(w, x.allowIrreversible);
    ghost var s1 := w.buffer;
    PutFlag(w, x.requireCurrentAuthority);
    ghost var s2 := w.buffer;
    PutU64(w, x.maxPlanSteps);
    ghost var s3 := w.buffer;
    PutU64(w, x.maxNodesExpanded);
    ghost var s4 := w.buffer;
    PutU64(w, x.maxGeneratedStates);
    ghost var s5 := w.buffer;
    PutU64(w, x.maxFrontierEntries);
    ghost var s6 := w.buffer;
    PutU32(w, x.budgetScale);
    ghost var s7 := w.buffer;
    WrotePair(U64_CODEC, U32_CODEC, s5, s6, s7, x.maxFrontierEntries, x.budgetScale);
    ghost var c5 := Pair(U64_CODEC, U32_CODEC);
    ghost var v5 := (x.maxFrontierEntries, x.budgetScale);
    WrotePair(U64_CODEC, c5, s4, s5, s7, x.maxGeneratedStates, v5);
    ghost var c4 := Pair(U64_CODEC, c5);
    ghost var v4 := (x.maxGeneratedStates, v5);
    WrotePair(U64_CODEC, c4, s3, s4, s7, x.maxNodesExpanded, v4);
    ghost var c3 := Pair(U64_CODEC, c4);
    ghost var v3 := (x.maxNodesExpanded, v4);
    WrotePair(U64_CODEC, c3, s2, s3, s7, x.maxPlanSteps, v3);
    ghost var c2 := Pair(U64_CODEC, c3);
    ghost var v2 := (x.maxPlanSteps, v3);
    WrotePair(FLAG_CODEC, c2, s1, s2, s7, x.requireCurrentAuthority, v2);
    ghost var c1 := Pair(FLAG_CODEC, c2);
    ghost var v1 := (x.requireCurrentAuthority, v2);
    WrotePair(FLAG_CODEC, c1, s0, s1, s7, x.allowIrreversible, v1);
    ghost var c0 := Pair(FLAG_CODEC, c1);
    ghost var v0 := (x.allowIrreversible, v1);
    WroteAs(c0, MakePolicy, PartsOfPolicy, s0, s7, x);
    WroteOnly(As(c0, MakePolicy, PartsOfPolicy), Bounding, s0, s7, x);
  }

  // ---- Lists, one loop each -------------------------------------------------

  method EncodeNodes(w: CanonicalWriter, list: seq<NodeSpec>, ghost max: U32)
    modifies w
    ensures Wrote(ListOf(NODE, max), old(w.buffer), w.buffer, list)
  {
    hide NODE, EncodeAll, U32Bytes;
    ghost var s0 := w.buffer;
    w.WriteU32(Count(|list|));
    NothingWritten(NODE, list, w.buffer);
    for i := 0 to |list|
      invariant w.buffer == s0 + U32Bytes(Count(|list|)) + EncodeAll(NODE, list[..i])
    {
      ghost var before := w.buffer;
      EncodeNode(w, list[i]);
      OneMore(NODE, list, i, s0 + U32Bytes(Count(|list|)), before, w.buffer);
    }
    WroteList(NODE, max, s0, w.buffer, list);
  }

  method EncodeLinks(w: CanonicalWriter, list: seq<LinkSpec>, ghost max: U32)
    modifies w
    ensures Wrote(ListOf(LINK, max), old(w.buffer), w.buffer, list)
  {
    hide LINK, EncodeAll, U32Bytes;
    ghost var s0 := w.buffer;
    w.WriteU32(Count(|list|));
    NothingWritten(LINK, list, w.buffer);
    for i := 0 to |list|
      invariant w.buffer == s0 + U32Bytes(Count(|list|)) + EncodeAll(LINK, list[..i])
    {
      ghost var before := w.buffer;
      EncodeLink(w, list[i]);
      OneMore(LINK, list, i, s0 + U32Bytes(Count(|list|)), before, w.buffer);
    }
    WroteList(LINK, max, s0, w.buffer, list);
  }

  method EncodeServices(w: CanonicalWriter, list: seq<ServiceSpec>, ghost max: U32)
    modifies w
    ensures Wrote(ListOf(SERVICE, max), old(w.buffer), w.buffer, list)
  {
    hide SERVICE, EncodeAll, U32Bytes;
    ghost var s0 := w.buffer;
    w.WriteU32(Count(|list|));
    NothingWritten(SERVICE, list, w.buffer);
    for i := 0 to |list|
      invariant w.buffer == s0 + U32Bytes(Count(|list|)) + EncodeAll(SERVICE, list[..i])
    {
      ghost var before := w.buffer;
      EncodeService(w, list[i]);
      OneMore(SERVICE, list, i, s0 + U32Bytes(Count(|list|)), before, w.buffer);
    }
    WroteList(SERVICE, max, s0, w.buffer, list);
  }

  method EncodeResources(w: CanonicalWriter, list: seq<ResourceSpec>, ghost max: U32)
    modifies w
    ensures Wrote(ListOf(RESOURCE, max), old(w.buffer), w.buffer, list)
  {
    hide RESOURCE, EncodeAll, U32Bytes;
    ghost var s0 := w.buffer;
    w.WriteU32(Count(|list|));
    NothingWritten(RESOURCE, list, w.buffer);
    for i := 0 to |list|
      invariant w.buffer == s0 + U32Bytes(Count(|list|)) + EncodeAll(RESOURCE, list[..i])
    {
      ghost var before := w.buffer;
      EncodeResource(w, list[i]);
      OneMore(RESOURCE, list, i, s0 + U32Bytes(Count(|list|)), before, w.buffer);
    }
    WroteList(RESOURCE, max, s0, w.buffer, list);
  }

  method EncodePreconditions(w: CanonicalWriter, list: seq<Precondition>, ghost max: U32)
    modifies w
    ensures Wrote(ListOf(PRECONDITION, max), old(w.buffer), w.buffer, list)
  {
    hide PRECONDITION, EncodeAll, U32Bytes;
    ghost var s0 := w.buffer;
    w.WriteU32(Count(|list|));
    NothingWritten(PRECONDITION, list, w.buffer);
    for i := 0 to |list|
      invariant w.buffer == s0 + U32Bytes(Count(|list|)) + EncodeAll(PRECONDITION, list[..i])
    {
      ghost var before := w.buffer;
      EncodePrecondition(w, list[i]);
      OneMore(PRECONDITION, list, i, s0 + U32Bytes(Count(|list|)), before, w.buffer);
    }
    WroteList(PRECONDITION, max, s0, w.buffer, list);
  }

  method EncodeEffects(w: CanonicalWriter, list: seq<Effect>, ghost max: U32)
    modifies w
    ensures Wrote(ListOf(EFFECT, max), old(w.buffer), w.buffer, list)
  {
    hide EFFECT, EncodeAll, U32Bytes;
    ghost var s0 := w.buffer;
    w.WriteU32(Count(|list|));
    NothingWritten(EFFECT, list, w.buffer);
    for i := 0 to |list|
      invariant w.buffer == s0 + U32Bytes(Count(|list|)) + EncodeAll(EFFECT, list[..i])
    {
      ghost var before := w.buffer;
      EncodeEffect(w, list[i]);
      OneMore(EFFECT, list, i, s0 + U32Bytes(Count(|list|)), before, w.buffer);
    }
    WroteList(EFFECT, max, s0, w.buffer, list);
  }

  method EncodeUses(w: CanonicalWriter, list: seq<ResourceUse>, ghost max: U32)
    modifies w
    ensures Wrote(ListOf(USE, max), old(w.buffer), w.buffer, list)
  {
    hide USE, EncodeAll, U32Bytes;
    ghost var s0 := w.buffer;
    w.WriteU32(Count(|list|));
    NothingWritten(USE, list, w.buffer);
    for i := 0 to |list|
      invariant w.buffer == s0 + U32Bytes(Count(|list|)) + EncodeAll(USE, list[..i])
    {
      ghost var before := w.buffer;
      EncodeUse(w, list[i]);
      OneMore(USE, list, i, s0 + U32Bytes(Count(|list|)), before, w.buffer);
    }
    WroteList(USE, max, s0, w.buffer, list);
  }

  method EncodeDependencies(w: CanonicalWriter, list: seq<ActionDependency>, ghost max: U32)
    modifies w
    ensures Wrote(ListOf(DEPENDENCY, max), old(w.buffer), w.buffer, list)
  {
    hide DEPENDENCY, EncodeAll, U32Bytes;
    ghost var s0 := w.buffer;
    w.WriteU32(Count(|list|));
    NothingWritten(DEPENDENCY, list, w.buffer);
    for i := 0 to |list|
      invariant w.buffer == s0 + U32Bytes(Count(|list|)) + EncodeAll(DEPENDENCY, list[..i])
    {
      ghost var before := w.buffer;
      EncodeDependency(w, list[i]);
      OneMore(DEPENDENCY, list, i, s0 + U32Bytes(Count(|list|)), before, w.buffer);
    }
    WroteList(DEPENDENCY, max, s0, w.buffer, list);
  }

  method EncodeIds(w: CanonicalWriter, list: seq<U64>, ghost max: U32)
    modifies w
    ensures Wrote(ListOf(U64_CODEC, max), old(w.buffer), w.buffer, list)
  {
    hide U64_CODEC, EncodeAll, U32Bytes;
    ghost var s0 := w.buffer;
    w.WriteU32(Count(|list|));
    NothingWritten(U64_CODEC, list, w.buffer);
    for i := 0 to |list|
      invariant w.buffer == s0 + U32Bytes(Count(|list|)) + EncodeAll(U64_CODEC, list[..i])
    {
      ghost var before := w.buffer;
      PutU64(w, list[i]);
      OneMore(U64_CODEC, list, i, s0 + U32Bytes(Count(|list|)), before, w.buffer);
    }
    WroteList(U64_CODEC, max, s0, w.buffer, list);
  }

  method EncodeGoals(w: CanonicalWriter, list: seq<GoalSpec>, ghost max: U32)
    modifies w
    ensures Wrote(ListOf(GOAL, max), old(w.buffer), w.buffer, list)
  {
    hide GOAL, EncodeAll, U32Bytes;
    ghost var s0 := w.buffer;
    w.WriteU32(Count(|list|));
    NothingWritten(GOAL, list, w.buffer);
    for i := 0 to |list|
      invariant w.buffer == s0 + U32Bytes(Count(|list|)) + EncodeAll(GOAL, list[..i])
    {
      ghost var before := w.buffer;
      EncodeGoal(w, list[i]);
      OneMore(GOAL, list, i, s0 + U32Bytes(Count(|list|)), before, w.buffer);
    }
    WroteList(GOAL, max, s0, w.buffer, list);
  }

  method EncodeGroups(w: CanonicalWriter, list: seq<ExclusionGroup>, ghost max: U32)
    modifies w
    ensures Wrote(ListOf(GROUP, max), old(w.buffer), w.buffer, list)
  {
    hide GROUP, EncodeAll, U32Bytes;
    ghost var s0 := w.buffer;
    w.WriteU32(Count(|list|));
    NothingWritten(GROUP, list, w.buffer);
    for i := 0 to |list|
      invariant w.buffer == s0 + U32Bytes(Count(|list|)) + EncodeAll(GROUP, list[..i])
    {
      ghost var before := w.buffer;
      EncodeGroup(w, list[i]);
      OneMore(GROUP, list, i, s0 + U32Bytes(Count(|list|)), before, w.buffer);
    }
    WroteList(GROUP, max, s0, w.buffer, list);
  }

  method EncodeFacts(w: CanonicalWriter, list: seq<EvidenceFact>, ghost max: U32)
    modifies w
    ensures Wrote(ListOf(FACT, max), old(w.buffer), w.buffer, list)
  {
    hide FACT, EncodeAll, U32Bytes;
    ghost var s0 := w.buffer;
    w.WriteU32(Count(|list|));
    NothingWritten(FACT, list, w.buffer);
    for i := 0 to |list|
      invariant w.buffer == s0 + U32Bytes(Count(|list|)) + EncodeAll(FACT, list[..i])
    {
      ghost var before := w.buffer;
      EncodeFact(w, list[i]);
      OneMore(FACT, list, i, s0 + U32Bytes(Count(|list|)), before, w.buffer);
    }
    WroteList(FACT, max, s0, w.buffer, list);
  }

  method EncodeBindings(w: CanonicalWriter, list: seq<AuthorityBinding>, ghost max: U32)
    modifies w
    ensures Wrote(ListOf(BINDING, max), old(w.buffer), w.buffer, list)
  {
    hide BINDING, EncodeAll, U32Bytes;
    ghost var s0 := w.buffer;
    w.WriteU32(Count(|list|));
    NothingWritten(BINDING, list, w.buffer);
    for i := 0 to |list|
      invariant w.buffer == s0 + U32Bytes(Count(|list|)) + EncodeAll(BINDING, list[..i])
    {
      ghost var before := w.buffer;
      EncodeBinding(w, list[i]);
      OneMore(BINDING, list, i, s0 + U32Bytes(Count(|list|)), before, w.buffer);
    }
    WroteList(BINDING, max, s0, w.buffer, list);
  }

  method EncodeFences(w: CanonicalWriter, list: seq<Fence>, ghost max: U32)
    modifies w
    ensures Wrote(ListOf(FENCE, max), old(w.buffer), w.buffer, list)
  {
    hide FENCE, EncodeAll, U32Bytes;
    ghost var s0 := w.buffer;
    w.WriteU32(Count(|list|));
    NothingWritten(FENCE, list, w.buffer);
    for i := 0 to |list|
      invariant w.buffer == s0 + U32Bytes(Count(|list|)) + EncodeAll(FENCE, list[..i])
    {
      ghost var before := w.buffer;
      EncodeFence(w, list[i]);
      OneMore(FENCE, list, i, s0 + U32Bytes(Count(|list|)), before, w.buffer);
    }
    WroteList(FENCE, max, s0, w.buffer, list);
  }

  // ---- Actions, definitions, requests ---------------------------------------

  method PutFields(w: CanonicalWriter, x: ActionSpec, ghost limits: ModelLimits)
    modifies w
    ensures Wrote(FieldsFormat(limits), old(w.buffer), w.buffer, ActionParts(x).0)
  {
    hide Wrote, Named, U64_CODEC, U32_CODEC, Text, ActionCode, ActionNamed, ReversibilityCode, ReversibilityNamed;
    hide DomainCode, DomainNamed, LevelCode, LevelNamed;
    ghost var text := Text(limits.maxStringLength);
    ghost var s0 := w.buffer;
    PutU64(w, x.id);
    ghost var s1 := w.buffer;
    PutText(w, x.name, limits.maxStringLength);
    ghost var s2 := w.buffer;
    PutNamed(w, ActionCode, ActionNamed, x.kind);
    ghost var s3 := w.buffer;
    PutNamed(w, ReversibilityCode, ReversibilityNamed, x.reversibility);
    ghost var s4 := w.buffer;
    PutU64(w, x.compensation);
    ghost var s5 := w.buffer;
    PutU32(w, x.blastRadius);
    ghost var s6 := w.buffer;
    PutU32(w, x.disruption);
    ghost var s7 := w.buffer;
    PutU64(w, x.cost);
    ghost var s8 := w.buffer;
    PutU64(w, x.duration);
    ghost var s9 := w.buffer;
    PutU32(w, x.maxOccurrences);
    ghost var s10 := w.buffer;
    PutNamed(w, DomainCode, DomainNamed, x.requiredDomain);
    ghost var s11 := w.buffer;
    PutNamed(w, LevelCode, LevelNamed, x.requiredLevel);
    ghost var s12 := w.buffer;
    WrotePair(DOMAIN, LEVEL, s10, s11, s12, x.requiredDomain, x.requiredLevel);
    ghost var c10 := Pair(DOMAIN, LEVEL);
    ghost var v10 := (x.requiredDomain, x.requiredLevel);
    WrotePair(U32_CODEC, c10, s9, s10, s12, x.maxOccurrences, v10);
    ghost var c9 := Pair(U32_CODEC, c10);
    ghost var v9 := (x.maxOccurrences, v10);
    WrotePair(U64_CODEC, c9, s8, s9, s12, x.duration, v9);
    ghost var c8 := Pair(U64_CODEC, c9);
    ghost var v8 := (x.duration, v9);
    WrotePair(U64_CODEC, c8, s7, s8, s12, x.cost, v8);
    ghost var c7 := Pair(U64_CODEC, c8);
    ghost var v7 := (x.cost, v8);
    WrotePair(U32_CODEC, c7, s6, s7, s12, x.disruption, v7);
    ghost var c6 := Pair(U32_CODEC, c7);
    ghost var v6 := (x.disruption, v7);
    WrotePair(U32_CODEC, c6, s5, s6, s12, x.blastRadius, v6);
    ghost var c5 := Pair(U32_CODEC, c6);
    ghost var v5 := (x.blastRadius, v6);
    WrotePair(U64_CODEC, c5, s4, s5, s12, x.compensation, v5);
    ghost var c4 := Pair(U64_CODEC, c5);
    ghost var v4 := (x.compensation, v5);
    WrotePair(REVERSIBILITY, c4, s3, s4, s12, x.reversibility, v4);
    ghost var c3 := Pair(REVERSIBILITY, c4);
    ghost var v3 := (x.reversibility, v4);
    WrotePair(ACTION_KIND, c3, s2, s3, s12, x.kind, v3);
    ghost var c2 := Pair(ACTION_KIND, c3);
    ghost var v2 := (x.kind, v3);
    WrotePair(text, c2, s1, s2, s12, x.name, v2);
    ghost var c1 := Pair(text, c2);
    ghost var v1 := (x.name, v2);
    WrotePair(U64_CODEC, c1, s0, s1, s12, x.id, v1);
    ghost var c0 := Pair(U64_CODEC, c1);
    ghost var v0 := (x.id, v1);
  }

  method PutLists(w: CanonicalWriter, x: ActionSpec, ghost limits: ModelLimits)
    modifies w
    ensures Wrote(ListsFormat(limits), old(w.buffer), w.buffer, ActionParts(x).1)
  {
    hide Wrote, ListOf, PRECONDITION, EFFECT, USE, DEPENDENCY, U64_CODEC;
    ghost var s0 := w.buffer;
    EncodePreconditions(w, x.preconditions, limits.maxPreconditions);
    ghost var s1 := w.buffer;
    EncodeEffects(w, x.effects, limits.maxEffects);
    ghost var s2 := w.buffer;
    EncodeUses(w, x.uses, limits.maxResources);
    ghost var s3 := w.buffer;
    EncodeDependencies(w, x.dependencies, limits.maxActions);
    ghost var s4 := w.buffer;
    EncodeIds(w, x.groups, limits.maxGroups);
    ghost var s5 := w.buffer;
    WrotePair(ListOf(DEPENDENCY, limits.maxActions), ListOf(U64_CODEC, limits.maxGroups), s3, s4, s5, x.dependencies,
              x.groups);
    ghost var c3 := Pair(ListOf(DEPENDENCY, limits.maxActions), ListOf(U64_CODEC, limits.maxGroups));
    ghost var v3 := (x.dependencies, x.groups);
    WrotePair(ListOf(USE, limits.maxResources), c3, s2, s3, s5, x.uses, v3);
    ghost var c2 := Pair(ListOf(USE, limits.maxResources), c3);
    ghost var v2 := (x.uses, v3);
    WrotePair(ListOf(EFFECT, limits.maxEffects), c2, s1, s2, s5, x.effects, v2);
    ghost var c1 := Pair(ListOf(EFFECT, limits.maxEffects), c2);
    ghost var v1 := (x.effects, v2);
    WrotePair(ListOf(PRECONDITION, limits.maxPreconditions), c1, s0, s1, s5, x.preconditions, v1);
    ghost var c0 := Pair(ListOf(PRECONDITION, limits.maxPreconditions), c1);
    ghost var v0 := (x.preconditions, v1);
  }

  method EncodeAction(w: CanonicalWriter, x: ActionSpec, ghost limits: ModelLimits)
    modifies w
    ensures Wrote(ActionFormat(limits), old(w.buffer), w.buffer, x)
  {
    hide Wrote, FieldsFormat, ListsFormat, ActionParts;
    ghost var s0 := w.buffer;
    PutFields(w, x, limits);
    ghost var s1 := w.buffer;
    PutLists(w, x, limits);
    WrotePair(FieldsFormat(limits), ListsFormat(limits), s0, s1, w.buffer, ActionParts(x).0, ActionParts(x).1);
    WroteAs(Pair(FieldsFormat(limits), ListsFormat(limits)), MakeAction, ActionParts, s0, w.buffer, x);
  }

  method EncodeActions(w: CanonicalWriter, list: seq<ActionSpec>, ghost limits: ModelLimits, ghost max: U32)
    modifies w
    ensures Wrote(ListOf(ActionFormat(limits), max), old(w.buffer), w.buffer, list)
  {
    hide ActionFormat, EncodeAll, U32Bytes;
    ghost var s0 := w.buffer;
    w.WriteU32(Count(|list|));
    NothingWritten(ActionFormat(limits), list, w.buffer);
    for i := 0 to |list|
      invariant w.buffer == s0 + U32Bytes(Count(|list|)) + EncodeAll(ActionFormat(limits), list[..i])
    {
      ghost var before := w.buffer;
      EncodeAction(w, list[i], limits);
      OneMore(ActionFormat(limits), list, i, s0 + U32Bytes(Count(|list|)), before, w.buffer);
    }
    WroteList(ActionFormat(limits), max, s0, w.buffer, list);
  }

  /** Writes a definition: each list with its count in front, each record field by field. */
  method EncodeDefinition(w: CanonicalWriter, x: FabricDefinition, ghost limits: ModelLimits)
    modifies w
    ensures Wrote(DefinitionFormat(limits), old(w.buffer), w.buffer, x)
  {
    hide Wrote, ListOf, NODE, LINK, SERVICE, RESOURCE, ActionFormat, GOAL, GROUP;
    ghost var s0 := w.buffer;
    EncodeNodes(w, x.nodes, limits.maxNodes);
    ghost var s1 := w.buffer;
    EncodeLinks(w, x.links, limits.maxLinks);
    ghost var s2 := w.buffer;
    EncodeServices(w, x.services, limits.maxServices);
    ghost var s3 := w.buffer;
    EncodeResources(w, x.resources, limits.maxResources);
    ghost var s4 := w.buffer;
    EncodeActions(w, x.actions, limits, limits.maxActions);
    ghost var s5 := w.buffer;
    EncodeGoals(w, x.goals, limits.maxGoals);
    ghost var s6 := w.buffer;
    EncodeGroups(w, x.groups, limits.maxGroups);
    ghost var s7 := w.buffer;
    WrotePair(ListOf(GOAL, limits.maxGoals), ListOf(GROUP, limits.maxGroups), s5, s6, s7, x.goals, x.groups);
    ghost var c5 := Pair(ListOf(GOAL, limits.maxGoals), ListOf(GROUP, limits.maxGroups));
    ghost var v5 := (x.goals, x.groups);
    WrotePair(ListOf(ActionFormat(limits), limits.maxActions), c5, s4, s5, s7, x.actions, v5);
    ghost var c4 := Pair(ListOf(ActionFormat(limits), limits.maxActions), c5);
    ghost var v4 := (x.actions, v5);
    WrotePair(ListOf(RESOURCE, limits.maxResources), c4, s3, s4, s7, x.resources, v4);
    ghost var c3 := Pair(ListOf(RESOURCE, limits.maxResources), c4);
    ghost var v3 := (x.resources, v4);
    WrotePair(ListOf(SERVICE, limits.maxServices), c3, s2, s3, s7, x.services, v3);
    ghost var c2 := Pair(ListOf(SERVICE, limits.maxServices), c3);
    ghost var v2 := (x.services, v3);
    WrotePair(ListOf(LINK, limits.maxLinks), c2, s1, s2, s7, x.links, v2);
    ghost var c1 := Pair(ListOf(LINK, limits.maxLinks), c2);
    ghost var v1 := (x.links, v2);
    WrotePair(ListOf(NODE, limits.maxNodes), c1, s0, s1, s7, x.nodes, v1);
    ghost var c0 := Pair(ListOf(NODE, limits.maxNodes), c1);
    ghost var v0 := (x.nodes, v1);
    WroteAs(c0, MakeDefinition, PartsOfDefinition, s0, s7, x);
  }

  method EncodeEvidence(w: CanonicalWriter, x: EvidenceBundle, ghost limits: ModelLimits)
    modifies w
    ensures Wrote(EvidenceFormat(limits), old(w.buffer), w.buffer, x)
  {
    hide Wrote, ListOf, FACT, U64_CODEC;
    ghost var s0 := w.buffer;
    PutU64(w, x.epoch);
    ghost var s1 := w.buffer;
    PutU64(w, x.boot);
    ghost var s2 := w.buffer;
    EncodeFacts(w, x.facts, limits.maxFacts);
    ghost var s3 := w.buffer;
    WrotePair(U64_CODEC, ListOf(FACT, limits.maxFacts), s1, s2, s3, x.boot, x.facts);
    ghost var c1 := Pair(U64_CODEC, ListOf(FACT, limits.maxFacts));
    ghost var v1 := (x.boot, x.facts);
    WrotePair(U64_CODEC, c1, s0, s1, s3, x.epoch, v1);
    ghost var c0 := Pair(U64_CODEC, c1);
    ghost var v0 := (x.epoch, v1);
    WroteAs(c0, MakeBundle, BundleParts, s0, s3, x);
  }

  method EncodeAuthority(w: CanonicalWriter, x: AuthorityVector, ghost limits: ModelLimits)
    modifies w
    ensures Wrote(AuthorityFormat(limits), old(w.buffer), w.buffer, x)
  {
    hide Wrote, ListOf, BINDING, U64_CODEC;
    ghost var s0 := w.buffer;
    PutU64(w, x.epoch);
    ghost var s1 := w.buffer;
    PutU64(w, x.boot);
    ghost var s2 := w.buffer;
    EncodeBindings(w, x.bindings, limits.maxBindings);
    ghost var s3 := w.buffer;
    WrotePair(U64_CODEC, ListOf(BINDING, limits.maxBindings), s1, s2, s3, x.boot, x.bindings);
    ghost var c1 := Pair(U64_CODEC, ListOf(BINDING, limits.maxBindings));
    ghost var v1 := (x.boot, x.bindings);
    WrotePair(U64_CODEC, c1, s0, s1, s3, x.epoch, v1);
    ghost var c0 := Pair(U64_CODEC, c1);
    ghost var v0 := (x.epoch, v1);
    WroteAs(c0, MakeVector, VectorParts, s0, s3, x);
  }

  /** Writes a whole request. */
  method EncodeRequest(w: CanonicalWriter, x: PlanRequest, ghost limits: ModelLimits)
    modifies w
    ensures Wrote(RequestFormat(limits), old(w.buffer), w.buffer, x)
  {
    hide Wrote, ListOf, DefinitionFormat, EvidenceFormat, AuthorityFormat, POLICY, FENCE, U64_CODEC;
    ghost var s0 := w.buffer;
    PutU64(w, x.id);
    ghost var s1 := w.buffer;
    PutU64(w, x.epoch);
    ghost var s2 := w.buffer;
    PutU64(w, x.boot);
    ghost var s3 := w.buffer;
    PutU64(w, x.attempt);
    ghost var s4 := w.buffer;
    EncodeDefinition(w, x.definition, limits);
    ghost var s5 := w.buffer;
    EncodeEvidence(w, x.evidence, limits);
    ghost var s6 := w.buffer;
    EncodeAuthority(w, x.authority, limits);
    ghost var s7 := w.buffer;
    EncodePolicy(w, x.policy);
    ghost var s8 := w.buffer;
    EncodeFences(w, x.fences, limits.maxFences);
    ghost var s9 := w.buffer;
    WrotePair(POLICY, ListOf(FENCE, limits.maxFences), s7, s8, s9, x.policy, x.fences);
    ghost var c7 := Pair(POLICY, ListOf(FENCE, limits.maxFences));
    ghost var v7 := (x.policy, x.fences);
    WrotePair(AuthorityFormat(limits), c7, s6, s7, s9, x.authority, v7);
    ghost var c6 := Pair(AuthorityFormat(limits), c7);
    ghost var v6 := (x.authority, v7);
    WrotePair(EvidenceFormat(limits), c6, s5, s6, s9, x.evidence, v6);
    ghost var c5 := Pair(EvidenceFormat(limits), c6);
    ghost var v5 := (x.evidence, v6);
    WrotePair(DefinitionFormat(limits), c5, s4, s5, s9, x.definition, v5);
    ghost var c4 := Pair(DefinitionFormat(limits), c5);
    ghost var v4 := (x.definition, v5);
    WrotePair(U64_CODEC, c4, s3, s4, s9, x.attempt, v4);
    ghost var c3 := Pair(U64_CODEC, c4);
    ghost var v3 := (x.attempt, v4);
    WrotePair(U64_CODEC, c3, s2, s3, s9, x.boot, v3);
    ghost var c2 := Pair(U64_CODEC, c3);
    ghost var v2 := (x.boot, v3);
    WrotePair(U64_CODEC, c2, s1, s2, s9, x.epoch, v2);
    ghost var c1 := Pair(U64_CODEC, c2);
    ghost var v1 := (x.epoch, v2);
    WrotePair(U64_CODEC, c1, s0, s1, s9, x.id, v1);
    ghost var c0 := Pair(U64_CODEC, c1);
    ghost var v0 := (x.id, v1);
    WroteAs(c0, MakeRequest, PartsOfRequest, s0, s9, x);
  }

  /** The round trip as both programs run: a request within the limits is decoded to itself. */
  method SendAndReceive(request: PlanRequest, limits: ModelLimits) returns (received: Option<PlanRequest>)
    ensures RequestFormat(limits).valid(request) ==> received == Some(request)
  {
    hide RequestFormat, Wrote;
    var w := new CanonicalWriter();
    EncodeRequest(w, request, limits);
    received := DecodePlanRequest(w.buffer, limits);
    RoundTrip(request, limits, w.buffer);
  }

  lemma RoundTrip(request: PlanRequest, limits: ModelLimits, b: Bytes)
    requires Wrote(RequestFormat(limits), [], b, request)
    ensures RequestFormat(limits).valid(request) ==> Accept(RequestFormat(limits), b) == Some(request)
  {
    hide RequestFormat, Exact;
    RequestExact(limits);
    assert [] + RequestFormat(limits).encode(request) == RequestFormat(limits).encode(request);
    AcceptedIsEncoded(RequestFormat(limits), b, request);
  }
}
