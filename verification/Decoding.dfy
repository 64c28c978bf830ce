/** The decoders of definitions, authority vectors and whole requests, each reading its fields
    in order and its lists in a loop. */
module Decoding {
  import opened Ints
  import opened Canonical
  import opened Codecs
  import opened Domain
  import opened Definition
  import opened Evidence
  import opened Requests
  import opened Formats
  import opened Reading

  method ReadI64(r: CanonicalReader) returns (value: I64)
    requires r.Valid()
    modifies r`offset, r`failed
    ensures r.Valid() && Took(I64_CODEC, old(r.State()), r.State(), value)
  {
    hide Took, U64_CODEC;
    ghost var s0 := r.State();
    var raw := r.ReadU64();
    value := AsSigned(raw);
    TookAs(U64_CODEC, AsSigned, AsUnsigned, s0, r.State(), raw);
  }

  // ---- Records, field by field ----------------------------------------------

  method DecodeNode(r: CanonicalReader) returns (x: NodeSpec)
    requires r.Valid()
    modifies r`offset, r`failed
    ensures r.Valid() && Took(NODE, old(r.State()), r.State(), x)
  {
    hide Took, Named, U64_CODEC, FLAG_CODEC;
    ghost var s0 := r.State();
    var id := r.ReadU64();
    ghost var s1 := r.State();
    var flag := r.ReadFlag();
    ghost var s2 := r.State();
    TookPair(U64_CODEC, FLAG_CODEC, s0, s1, s2, id, flag);
    x := NodeSpec(id, flag);
    TookAs(Pair(U64_CODEC, FLAG_CODEC), MakeNode, NodeParts, s0, s2, (id, flag));
  }

  method DecodeLink(r: CanonicalReader) returns (x: LinkSpec)
    requires r.Valid()
    modifies r`offset, r`failed
    ensures r.Valid() && Took(LINK, old(r.State()), r.State(), x)
  {
    hide Took, Named, U64_CODEC;
    ghost var s0 := r.State();
    var id := r.ReadU64();
    ghost var s1 := r.State();
    var a := r.ReadU64();
    ghost var s2 := r.State();
    var b := r.ReadU64();
    ghost var s3 := r.State();
    TookPair(U64_CODEC, U64_CODEC, s1, s2, s3, a, b);
    var c1 := Pair(U64_CODEC, U64_CODEC);
    var v1 := (a, b);
    TookPair(U64_CODEC, c1, s0, s1, s3, id, v1);
    var c0 := Pair(U64_CODEC, c1);
    var v0 := (id, v1);
    x := LinkSpec(id, a, b);
    TookAs(c0, MakeLink, LinkParts, s0, s3, v0);
  }

  method DecodeService(r: CanonicalReader) returns (x: ServiceSpec)
    requires r.Valid()
    modifies r`offset, r`failed
    ensures r.Valid() && Took(SERVICE, old(r.State()), r.State(), x)
  {
    hide Took, Named, U64_CODEC, U32_CODEC, FLAG_CODEC;
    ghost var s0 := r.State();
    var id := r.ReadU64();
    ghost var s1 := r.State();
    var required := r.ReadU32();
    ghost var s2 := r.State();
    var target := r.ReadU32();
    ghost var s3 := r.State();
    var maximum := r.ReadU32();
    ghost var s4 := r.State();
    var flag := r.ReadFlag();
    ghost var s5 := r.State();
    TookPair(U32_CODEC, FLAG_CODEC, s3, s4, s5, maximum, flag);
    var c3 := Pair(U32_CODEC, FLAG_CODEC);
    var v3 := (maximum, flag);
    TookPair(U32_CODEC, c3, s2, s3, s5, target, v3);
    var c2 := Pair(U32_CODEC, c3);
    var v2 := (target, v3);
    TookPair(U32_CODEC, c2, s1, s2, s5, required, v2);
    var c1 := Pair(U32_CODEC, c2);
    var v1 := (required, v2);
    TookPair(U64_CODEC, c1, s0, s1, s5, id, v1);
    var c0 := Pair(U64_CODEC, c1);
    var v0 := (id, v1);
    x := ServiceSpec(id, required, target, maximum, flag);
    TookAs(c0, MakeService, ServiceParts, s0, s5, v0);
  }

  method DecodeResource(r: CanonicalReader) returns (x: ResourceSpec)
    requires r.Valid()
    modifies r`offset, r`failed
    ensures r.Valid() && Took(RESOURCE, old(r.State()), r.State(), x)
  {
    hide Took, Named, U64_CODEC, ResourceCode, ResourceNamed, U32_CODEC;
    ghost var s0 := r.State();
    var id := r.ReadU64();
    ghost var s1 := r.State();
    var kind := r.ReadNamed(ResourceCode, ResourceNamed, Consumable);
    ghost var s2 := r.State();
    var capacity := r.ReadU32();
    ghost var s3 := r.State();
    var holdSteps := r.ReadU32();
    ghost var s4 := r.State();
    TookPair(U32_CODEC, U32_CODEC, s2, s3, s4, capacity, holdSteps);
    var c2 := Pair(U32_CODEC, U32_CODEC);
    var v2 := (capacity, holdSteps);
    TookPair(RESOURCE_KIND, c2, s1, s2, s4, kind, v2);
    var c1 := Pair(RESOURCE_KIND, c2);
    var v1 := (kind, v2);
    TookPair(U64_CODEC, c1, s0, s1, s4, id, v1);
    var c0 := Pair(U64_CODEC, c1);
    var v0 := (id, v1);
    x := ResourceSpec(id, kind, capacity, holdSteps);
    TookAs(c0, MakeResource, ResourceParts, s0, s4, v0);
  }

  method DecodePrecondition(r: CanonicalReader) returns (x: Precondition)
    requires r.Valid()
    modifies r`offset, r`failed
    ensures r.Valid() && Took(PRECONDITION, old(r.State()), r.State(), x)
  {
    hide Took, Named, PreconditionCode, PreconditionNamed, SUBJECT, U64_CODEC;
    ghost var s0 := r.State();
    var kind := r.ReadNamed(PreconditionCode, PreconditionNamed, LinkIsUp);
    ghost var s1 := r.State();
    var subject := ReadSubject(r);
    ghost var s2 := r.State();
    var value := r.ReadU64();
    ghost var s3 := r.State();
    TookPair(SUBJECT, U64_CODEC, s1, s2, s3, subject, value);
    var c1 := Pair(SUBJECT, U64_CODEC);
    var v1 := (subject, value);
    TookPair(PRECONDITION_KIND, c1, s0, s1, s3, kind, v1);
    var c0 := Pair(PRECONDITION_KIND, c1);
    var v0 := (kind, v1);
    x := Precondition(kind, subject, value);
    TookAs(c0, MakePrecondition, PreconditionParts, s0, s3, v0);
  }

  method DecodeEffect(r: CanonicalReader) returns (x: Effect)
    requires r.Valid()
    modifies r`offset, r`failed
    ensures r.Valid() && Took(EFFECT, old(r.State()), r.State(), x)
  {
    hide Took, Named, EffectCode, EffectNamed, SUBJECT, I64_CODEC;
    ghost var s0 := r.State();
    var kind := r.ReadNamed(EffectCode, EffectNamed, SetLink);
    ghost var s1 := r.State();
    var subject := ReadSubject(r);
    ghost var s2 := r.State();
    var value := ReadI64(r);
    ghost var s3 := r.State();
    TookPair(SUBJECT, I64_CODEC, s1, s2, s3, subject, value);
    var c1 := Pair(SUBJECT, I64_CODEC);
    var v1 := (subject, value);
    TookPair(EFFECT_KIND, c1, s0, s1, s3, kind, v1);
    var c0 := Pair(EFFECT_KIND, c1);
    var v0 := (kind, v1);
    x := Effect(kind, subject, value);
    TookAs(c0, MakeEffect, EffectParts, s0, s3, v0);
  }

  method DecodeUse(r: CanonicalReader) returns (x: ResourceUse)
    requires r.Valid()
    modifies r`offset, r`failed
    ensures r.Valid() && Took(USE, old(r.State()), r.State(), x)
  {
    hide Took, Named, U64_CODEC, U32_CODEC;
    ghost var s0 := r.State();
    var resource := r.ReadU64();
    ghost var s1 := r.State();
    var units := r.ReadU32();
    ghost var s2 := r.State();
    TookPair(U64_CODEC, U32_CODEC, s0, s1, s2, resource, units);
    x := ResourceUse(resource, units);
    TookAs(Pair(U64_CODEC, U32_CODEC), MakeUse, UseParts, s0, s2, (resource, units));
  }

  method DecodeDependency(r: CanonicalReader) returns (x: ActionDependency)
    requires r.Valid()
    modifies r`offset, r`failed
    ensures r.Valid() && Took(DEPENDENCY, old(r.State()), r.State(), x)
  {
    hide Took, Named, U64_CODEC, U32_CODEC;
    ghost var s0 := r.State();
    var predecessor := r.ReadU64();
    ghost var s1 := r.State();
    var minimum := r.ReadU32();
    ghost var s2 := r.State();
    TookPair(U64_CODEC, U32_CODEC, s0, s1, s2, predecessor, minimum);
    x := ActionDependency(predecessor, minimum);
    TookAs(Pair(U64_CODEC, U32_CODEC), MakeDependency, DependencyParts, s0, s2, (predecessor, minimum));
  }

  method DecodeGoal(r: CanonicalReader) returns (x: GoalSpec)
    requires r.Valid()
    modifies r`offset, r`failed
    ensures r.Valid() && Took(GOAL, old(r.State()), r.State(), x)
  {
    hide Took, Named, GoalCode, GoalNamed, SUBJECT, U64_CODEC, U32_CODEC;
    ghost var s0 := r.State();
    var kind := r.ReadNamed(GoalCode, GoalNamed, ServiceGoal);
    ghost var s1 := r.State();
    var subject := ReadSubject(r);
    ghost var s2 := r.State();
    var value := r.ReadU64();
    ghost var s3 := r.State();
    var weight := r.ReadU32();
    ghost var s4 := r.State();
    TookPair(U64_CODEC, U32_CODEC, s2, s3, s4, value, weight);
    var c2 := Pair(U64_CODEC, U32_CODEC);
    var v2 := (value, weight);
    TookPair(SUBJECT, c2, s1, s2, s4, subject, v2);
    var c1 := Pair(SUBJECT, c2);
    var v1 := (subject, v2);
    TookPair(GOAL_KIND, c1, s0, s1, s4, kind, v1);
    var c0 := Pair(GOAL_KIND, c1);
    var v0 := (kind, v1);
    x := GoalSpec(kind, subject, value, weight);
    TookAs(c0, MakeGoal, GoalParts, s0, s4, v0);
  }

  method DecodeGroup(r: CanonicalReader) returns (x: ExclusionGroup)
    requires r.Valid()
    modifies r`offset, r`failed
    ensures r.Valid() && Took(GROUP, old(r.State()), r.State(), x)
  {
    hide Took, Named, U64_CODEC, U32_CODEC;
    ghost var s0 := r.State();
    var id := r.ReadU64();
    ghost var s1 := r.State();
    var maxSelected := r.ReadU32();
    ghost var s2 := r.State();
    TookPair(U64_CODEC, U32_CODEC, s0, s1, s2, id, maxSelected);
    x := ExclusionGroup(id, maxSelected);
    TookAs(Pair(U64_CODEC, U32_CODEC), MakeGroup, GroupParts, s0, s2, (id, maxSelected));
  }

  method DecodeBinding(r: CanonicalReader) returns (x: AuthorityBinding)
    requires r.Valid()
    modifies r`offset, r`failed
    ensures r.Valid() && Took(BINDING, old(r.State()), r.State(), x)
  {
    hide Took, Named, DomainCode, DomainNamed, U64_CODEC, LevelCode, LevelNamed;
    ghost var s0 := r.State();
    var domain := r.ReadNamed(DomainCode, DomainNamed, FabricStateDomain);
    ghost var s1 := r.State();
    var authority := r.ReadU64();
    ghost var s2 := r.State();
    var required := r.ReadU64();
    ghost var s3 := r.State();
    var granted := r.ReadU64();
    ghost var s4 := r.State();
    var level := r.ReadNamed(LevelCode, LevelNamed, NoAuthority);
    ghost var s5 := r.State();
    TookPair(U64_CODEC, LEVEL, s3, s4, s5, granted, level);
    var c3 := Pair(U64_CODEC, LEVEL);
    var v3 := (granted, level);
    TookPair(U64_CODEC, c3, s2, s3, s5, required, v3);
    var c2 := Pair(U64_CODEC, c3);
    var v2 := (required, v3);
    TookPair(U64_CODEC, c2, s1, s2, s5, authority, v2);
    var c1 := Pair(U64_CODEC, c2);
    var v1 := (authority, v2);
    TookPair(DOMAIN, c1, s0, s1, s5, domain, v1);
    var c0 := Pair(DOMAIN, c1);
    var v0 := (domain, v1);
    x := AuthorityBinding(domain, authority, required, granted, level);
    TookAs(c0, MakeBinding, BindingParts, s0, s5, v0);
  }

  // ---- Lists, one loop each -------------------------------------------------

  method DecodeNodes(r: CanonicalReader, max: U32) returns (list: seq<NodeSpec>)
    requires r.Valid()
    modifies r`offset, r`failed
    ensures r.Valid() && Took(ListOf(NODE, max), old(r.State()), r.State(), list)
  {
    hide Took, NODE, Underway, Bounded, ListOf;
    list := [];
    ghost var s0 := r.State();
    var count := r.ReadCount(max);
    ghost var s1 := r.State();
    if r.failed {
      TookList(NODE, max, s0, s1, count, s1, list);
      return;
    }
    UnderwayBegins(NODE, count, s1.value);
    for i := 0 to count
      invariant r.Valid() && !r.failed && |list| == i
      invariant Underway(NODE, count, s1.value, list, r.State())
    {
      ghost var before := r.State();
      var x := DecodeNode(r);
      UnderwayNext(NODE, count, s1.value, list, before, r.State(), x);
      if r.failed {
        TookList(NODE, max, s0, s1, count, r.State(), list);
        return;
      }
      list := list + [x];
    }
    TookList(NODE, max, s0, s1, count, r.State(), list);
  }

  method DecodeLinks(r: CanonicalReader, max: U32) returns (list: seq<LinkSpec>)
    requires r.Valid()
    modifies r`offset, r`failed
    ensures r.Valid() && Took(ListOf(LINK, max), old(r.State()), r.State(), list)
  {
    hide Took, LINK, Underway, Bounded, ListOf;
    list := [];
    ghost var s0 := r.State();
    var count := r.ReadCount(max);
    ghost var s1 := r.State();
    if r.failed {
      TookList(LINK, max, s0, s1, count, s1, list);
      return;
    }
    UnderwayBegins(LINK, count, s1.value);
    for i := 0 to count
      invariant r.Valid() && !r.failed && |list| == i
      invariant Underway(LINK, count, s1.value, list, r.State())
    {
      ghost var before := r.State();
      var x := DecodeLink(r);
      UnderwayNext(LINK, count, s1.value, list, before, r.State(), x);
      if r.failed {
        TookList(LINK, max, s0, s1, count, r.State(), list);
        return;
      }
      list := list + [x];
    }
    TookList(LINK, max, s0, s1, count, r.State(), list);
  }

  method DecodeServices(r: CanonicalReader, max: U32) returns (list: seq<ServiceSpec>)
    requires r.Valid()
    modifies r`offset, r`failed
    ensures r.Valid() && Took(ListOf(SERVICE, max), old(r.State()), r.State(), list)
  {
    hide Took, SERVICE, Underway, Bounded, ListOf;
    list := [];
    ghost var s0 := r.State();
    var count := r.ReadCount(max);
    ghost var s1 := r.State();
    if r.failed {
      TookList(SERVICE, max, s0, s1, count, s1, list);
      return;
    }
    UnderwayBegins(SERVICE, count, s1.value);
    for i := 0 to count
      invariant r.Valid() && !r.failed && |list| == i
      invariant Underway(SERVICE, count, s1.value, list, r.State())
    {
      ghost var before := r.State();
      var x := DecodeService(r);
      UnderwayNext(SERVICE, count, s1.value, list, before, r.State(), x);
      if r.failed {
        TookList(SERVICE, max, s0, s1, count, r.State(), list);
        return;
      }
      list := list + [x];
    }
    TookList(SERVICE, max, s0, s1, count, r.State(), list);
  }

  method DecodeResources(r: CanonicalReader, max: U32) returns (list: seq<ResourceSpec>)
    requires r.Valid()
    modifies r`offset, r`failed
    ensures r.Valid() && Took(ListOf(RESOURCE, max), old(r.State()), r.State(), list)
  {
    hide Took, RESOURCE, Underway, Bounded, ListOf;
    list := [];
    ghost var s0 := r.State();
    var count := r.ReadCount(max);
    ghost var s1 := r.State();
    if r.failed {
      TookList(RESOURCE, max, s0, s1, count, s1, list);
      return;
    }
    UnderwayBegins(RESOURCE, count, s1.value);
    for i := 0 to count
      invariant r.Valid() && !r.failed && |list| == i
      invariant Underway(RESOURCE, count, s1.value, list, r.State())
    {
      ghost var before := r.State();
      var x := DecodeResource(r);
      UnderwayNext(RESOURCE, count, s1.value, list, before, r.State(), x);
      if r.failed {
        TookList(RESOURCE, max, s0, s1, count, r.State(), list);
        return;
      }
      list := list + [x];
    }
    TookList(RESOURCE, max, s0, s1, count, r.State(), list);
  }

  method DecodePreconditions(r: CanonicalReader, max: U32) returns (list: seq<Precondition>)
    requires r.Valid()
    modifies r`offset, r`failed
    ensures r.Valid() && Took(ListOf(PRECONDITION, max), old(r.State()), r.State(), list)
  {
    hide Took, PRECONDITION, Underway, Bounded, ListOf;
    list := [];
    ghost var s0 := r.State();
    var count := r.ReadCount(max);
    ghost var s1 := r.State();
    if r.failed {
      TookList(PRECONDITION, max, s0, s1, count, s1, list);
      return;
    }
    UnderwayBegins(PRECONDITION, count, s1.value);
    for i := 0 to count
      invariant r.Valid() && !r.failed && |list| == i
      invariant Underway(PRECONDITION, count, s1.value, list, r.State())
    {
      ghost var before := r.State();
      var x := DecodePrecondition(r);
      UnderwayNext(PRECONDITION, count, s1.value, list, before, r.State(), x);
      if r.failed {
        TookList(PRECONDITION, max, s0, s1, count, r.State(), list);
        return;
      }
      list := list + [x];
    }
    TookList(PRECONDITION, max, s0, s1, count, r.State(), list);
  }

  method DecodeEffects(r: CanonicalReader, max: U32) returns (list: seq<Effect>)
    requires r.Valid()
    modifies r`offset, r`failed
    ensures r.Valid() && Took(ListOf(EFFECT, max), old(r.State()), r.State(), list)
  {
    hide Took, EFFECT, Underway, Bounded, ListOf;
    list := [];
    ghost var s0 := r.State();
    var count := r.ReadCount(max);
    ghost var s1 := r.State();
    if r.failed {
      TookList(EFFECT, max, s0, s1, count, s1, list);
      return;
    }
    UnderwayBegins(EFFECT, count, s1.value);
    for i := 0 to count
      invariant r.Valid() && !r.failed && |list| == i
      invariant Underway(EFFECT, count, s1.value, list, r.State())
    {
      ghost var before := r.State();
      var x := DecodeEffect(r);
      UnderwayNext(EFFECT, count, s1.value, list, before, r.State(), x);
      if r.failed {
        TookList(EFFECT, max, s0, s1, count, r.State(), list);
        return;
      }
      list := list + [x];
    }
    TookList(EFFECT, max, s0, s1, count, r.State(), list);
  }

  method DecodeUses(r: CanonicalReader, max: U32) returns (list: seq<ResourceUse>)
    requires r.Valid()
    modifies r`offset, r`failed
    ensures r.Valid() && Took(ListOf(USE, max), old(r.State()), r.State(), list)
  {
    hide Took, USE, Underway, Bounded, ListOf;
    list := [];
    ghost var s0 := r.State();
    var count := r.ReadCount(max);
    ghost var s1 := r.State();
    if r.failed {
      TookList(USE, max, s0, s1, count, s1, list);
      return;
    }
    UnderwayBegins(USE, count, s1.value);
    for i := 0 to count
      invariant r.Valid() && !r.failed && |list| == i
      invariant Underway(USE, count, s1.value, list, r.State())
    {
      ghost var before := r.State();
      var x := DecodeUse(r);
      UnderwayNext(USE, count, s1.value, list, before, r.State(), x);
      if r.failed {
        TookList(USE, max, s0, s1, count, r.State(), list);
        return;
      }
      list := list + [x];
    }
    TookList(USE, max, s0, s1, count, r.State(), list);
  }

  method DecodeDependencies(r: CanonicalReader, max: U32) returns (list: seq<ActionDependency>)
    requires r.Valid()
    modifies r`offset, r`failed
    ensures r.Valid() && Took(ListOf(DEPENDENCY, max), old(r.State()), r.State(), list)
  {
    hide Took, DEPENDENCY, Underway, Bounded, ListOf;
    list := [];
    ghost var s0 := r.State();
    var count := r.ReadCount(max);
    ghost var s1 := r.State();
    if r.failed {
      TookList(DEPENDENCY, max, s0, s1, count, s1, list);
      return;
    }
    UnderwayBegins(DEPENDENCY, count, s1.value);
    for i := 0 to count
      invariant r.Valid() && !r.failed && |list| == i
      invariant Underway(DEPENDENCY, count, s1.value, list, r.State())
    {
      ghost var before := r.State();
      var x := DecodeDependency(r);
      UnderwayNext(DEPENDENCY, count, s1.value, list, before, r.State(), x);
      if r.failed {
        TookList(DEPENDENCY, max, s0, s1, count, r.State(), list);
        return;
      }
      list := list + [x];
    }
    TookList(DEPENDENCY, max, s0, s1, count, r.State(), list);
  }

  method DecodeIds(r: CanonicalReader, max: U32) returns (list: seq<U64>)
    requires r.Valid()
    modifies r`offset, r`failed
    ensures r.Valid() && Took(ListOf(U64_CODEC, max), old(r.State()), r.State(), list)
  {
    hide Took, U64_CODEC, Underway, Bounded, ListOf;
    list := [];
    ghost var s0 := r.State();
    var count := r.ReadCount(max);
    ghost var s1 := r.State();
    if r.failed {
      TookList(U64_CODEC, max, s0, s1, count, s1, list);
      return;
    }
    UnderwayBegins(U64_CODEC, count, s1.value);
    for i := 0 to count
      invariant r.Valid() && !r.failed && |list| == i
      invariant Underway(U64_CODEC, count, s1.value, list, r.State())
    {
      ghost var before := r.State();
      var x := r.ReadU64();
      UnderwayNext(U64_CODEC, count, s1.value, list, before, r.State(), x);
      if r.failed {
        TookList(U64_CODEC, max, s0, s1, count, r.State(), list);
        return;
      }
      list := list + [x];
    }
    TookList(U64_CODEC, max, s0, s1, count, r.State(), list);
  }

  method DecodeGoals(r: CanonicalReader, max: U32) returns (list: seq<GoalSpec>)
    requires r.Valid()
    modifies r`offset, r`failed
    ensures r.Valid() && Took(ListOf(GOAL, max), old(r.State()), r.State(), list)
  {
    hide Took, GOAL, Underway, Bounded, ListOf;
    list := [];
    ghost var s0 := r.State();
    var count := r.ReadCount(max);
    ghost var s1 := r.State();
    if r.failed {
      TookList(GOAL, max, s0, s1, count, s1, list);
      return;
    }
    UnderwayBegins(GOAL, count, s1.value);
    for i := 0 to count
      invariant r.Valid() && !r.failed && |list| == i
      invariant Underway(GOAL, count, s1.value, list, r.State())
    {
      ghost var before := r.State();
      var x := DecodeGoal(r);
      UnderwayNext(GOAL, count, s1.value, list, before, r.State(), x);
      if r.failed {
        TookList(GOAL, max, s0, s1, count, r.State(), list);
        return;
      }
      list := list + [x];
    }
    TookList(GOAL, max, s0, s1, count, r.State(), list);
  }

  method DecodeGroups(r: CanonicalReader, max: U32) returns (list: seq<ExclusionGroup>)
    requires r.Valid()
    modifies r`offset, r`failed
    ensures r.Valid() && Took(ListOf(GROUP, max), old(r.State()), r.State(), list)
  {
    hide Took, GROUP, Underway, Bounded, ListOf;
    list := [];
    ghost var s0 := r.State();
    var count := r.ReadCount(max);
    ghost var s1 := r.State();
    if r.failed {
      TookList(GROUP, max, s0, s1, count, s1, list);
      return;
    }
    UnderwayBegins(GROUP, count, s1.value);
    for i := 0 to count
      invariant r.Valid() && !r.failed && |list| == i
      invariant Underway(GROUP, count, s1.value, list, r.State())
    {
      ghost var before := r.State();
      var x := DecodeGroup(r);
      UnderwayNext(GROUP, count, s1.value, list, before, r.State(), x);
      if r.failed {
        TookList(GROUP, max, s0, s1, count, r.State(), list);
        return;
      }
      list := list + [x];
    }
    TookList(GROUP, max, s0, s1, count, r.State(), list);
  }

  method DecodeBindings(r: CanonicalReader, max: U32) returns (list: seq<AuthorityBinding>)
    requires r.Valid()
    modifies r`offset, r`failed
    ensures r.Valid() && Took(ListOf(BINDING, max), old(r.State()), r.State(), list)
  {
    hide Took, BINDING, Underway, Bounded, ListOf;
    list := [];
    ghost var s0 := r.State();
    var count := r.ReadCount(max);
    ghost var s1 := r.State();
    if r.failed {
      TookList(BINDING, max, s0, s1, count, s1, list);
      return;
    }
    UnderwayBegins(BINDING, count, s1.value);
    for i := 0 to count
      invariant r.Valid() && !r.failed && |list| == i
      invariant Underway(BINDING, count, s1.value, list, r.State())
    {
      ghost var before := r.State();
      var x := DecodeBinding(r);
      UnderwayNext(BINDING, count, s1.value, list, before, r.State(), x);
      if r.failed {
        TookList(BINDING, max, s0, s1, count, r.State(), list);
        return;
      }
      list := list + [x];
    }
    TookList(BINDING, max, s0, s1, count, r.State(), list);
  }

  method DecodeFences(r: CanonicalReader, max: U32) returns (list: seq<Fence>)
    requires r.Valid()
    modifies r`offset, r`failed
    ensures r.Valid() && Took(ListOf(FENCE, max), old(r.State()), r.State(), list)
  {
    hide Took, FENCE, Underway, Bounded, ListOf;
    list := [];
    ghost var s0 := r.State();
    var count := r.ReadCount(max);
    ghost var s1 := r.State();
    if r.failed {
      TookList(FENCE, max, s0, s1, count, s1, list);
      return;
    }
    UnderwayBegins(FENCE, count, s1.value);
    for i := 0 to count
      invariant r.Valid() && !r.failed && |list| == i
      invariant Underway(FENCE, count, s1.value, list, r.State())
    {
      ghost var before := r.State();
      var x := DecodeFence(r);
      UnderwayNext(FENCE, count, s1.value, list, before, r.State(), x);
      if r.failed {
        TookList(FENCE, max, s0, s1, count, r.State(), list);
        return;
      }
      list := list + [x];
    }
    TookList(FENCE, max, s0, s1, count, r.State(), list);
  }

  // ---- Actions, definitions, requests ---------------------------------------

  method DecodeFields(r: CanonicalReader, limits: ModelLimits) returns (x: ActionFields)
    requires r.Valid()
    modifies r`offset, r`failed
    ensures r.Valid() && Took(FieldsFormat(limits), old(r.State()), r.State(), x)
  {
    hide Took, Named, U64_CODEC, U32_CODEC, Text, ActionCode, ActionNamed, ReversibilityCode, ReversibilityNamed;
    hide DomainCode, DomainNamed, LevelCode, LevelNamed;
    var text := Text(limits.maxStringLength);
    ghost var s0 := r.State();
    var id := r.ReadU64();
    ghost var s1 := r.State();
    var name := r.ReadText(limits.maxStringLength);
    ghost var s2 := r.State();
    var kind := r.ReadNamed(ActionCode, ActionNamed, Reroute);
    ghost var s3 := r.State();
    var reversibility := r.ReadNamed(ReversibilityCode, ReversibilityNamed, Reversible);
    ghost var s4 := r.State();
    var compensation := r.ReadU64();
    ghost var s5 := r.State();
    var blast := r.ReadU32();
    ghost var s6 := r.State();
    var disruption := r.ReadU32();
    ghost var s7 := r.State();
    var cost := r.ReadU64();
    ghost var s8 := r.State();
    var duration := r.ReadU64();
    ghost var s9 := r.State();
    var occurrences := r.ReadU32();
    ghost var s10 := r.State();
    var domain := r.ReadNamed(DomainCode, DomainNamed, FabricStateDomain);
    ghost var s11 := r.State();
    var level := r.ReadNamed(LevelCode, LevelNamed, NoAuthority);
    ghost var s12 := r.State();
    TookPair(DOMAIN, LEVEL, s10, s11, s12, domain, level);
    var c10 := Pair(DOMAIN, LEVEL);
    var v10 := (domain, level);
    TookPair(U32_CODEC, c10, s9, s10, s12, occurrences, v10);
    var c9 := Pair(U32_CODEC, c10);
    var v9 := (occurrences, v10);
    TookPair(U64_CODEC, c9, s8, s9, s12, duration, v9);
    var c8 := Pair(U64_CODEC, c9);
    var v8 := (duration, v9);
    TookPair(U64_CODEC, c8, s7, s8, s12, cost, v8);
    var c7 := Pair(U64_CODEC, c8);
    var v7 := (cost, v8);
    TookPair(U32_CODEC, c7, s6, s7, s12, disruption, v7);
    var c6 := Pair(U32_CODEC, c7);
    var v6 := (disruption, v7);
    TookPair(U32_CODEC, c6, s5, s6, s12, blast, v6);
    var c5 := Pair(U32_CODEC, c6);
    var v5 := (blast, v6);
    TookPair(U64_CODEC, c5, s4, s5, s12, compensation, v5);
    var c4 := Pair(U64_CODEC, c5);
    var v4 := (compensation, v5);
    TookPair(REVERSIBILITY, c4, s3, s4, s12, reversibility, v4);
    var c3 := Pair(REVERSIBILITY, c4);
    var v3 := (reversibility, v4);
    TookPair(ACTION_KIND, c3, s2, s3, s12, kind, v3);
    var c2 := Pair(ACTION_KIND, c3);
    var v2 := (kind, v3);
    TookPair(text, c2, s1, s2, s12, name, v2);
    var c1 := Pair(text, c2);
    var v1 := (name, v2);
    TookPair(U64_CODEC, c1, s0, s1, s12, id, v1);
    var c0 := Pair(U64_CODEC, c1);
    var v0 := (id, v1);
    x := v0;
  }

  method DecodeLists(r: CanonicalReader, limits: ModelLimits) returns (x: ActionLists)
    requires r.Valid()
    modifies r`offset, r`failed
    ensures r.Valid() && Took(ListsFormat(limits), old(r.State()), r.State(), x)
  {
    hide Took, ListOf, PRECONDITION, EFFECT, USE, DEPENDENCY, U64_CODEC;
    ghost var s0 := r.State();
    var preconditions := DecodePreconditions(r, limits.maxPreconditions);
    ghost var s1 := r.State();
    var effects := DecodeEffects(r, limits.maxEffects);
    ghost var s2 := r.State();
    var uses := DecodeUses(r, limits.maxResources);
    ghost var s3 := r.State();
    var dependencies := DecodeDependencies(r, limits.maxActions);
    ghost var s4 := r.State();
    var groups := DecodeIds(r, limits.maxGroups);
    ghost var s5 := r.State();
    TookPair(ListOf(DEPENDENCY, limits.maxActions), ListOf(U64_CODEC, limits.maxGroups), s3, s4, s5, dependencies,
             groups);
    var c3 := Pair(ListOf(DEPENDENCY, limits.maxActions), ListOf(U64_CODEC, limits.maxGroups));
    var v3 := (dependencies, groups);
    TookPair(ListOf(USE, limits.maxResources), c3, s2, s3, s5, uses, v3);
    var c2 := Pair(ListOf(USE, limits.maxResources), c3);
    var v2 := (uses, v3);
    TookPair(ListOf(EFFECT, limits.maxEffects), c2, s1, s2, s5, effects, v2);
    var c1 := Pair(ListOf(EFFECT, limits.maxEffects), c2);
    var v1 := (effects, v2);
    TookPair(ListOf(PRECONDITION, limits.maxPreconditions), c1, s0, s1, s5, preconditions, v1);
    var c0 := Pair(ListOf(PRECONDITION, limits.maxPreconditions), c1);
    var v0 := (preconditions, v1);
    x := v0;
  }

  method DecodeAction(r: CanonicalReader, limits: ModelLimits) returns (x: ActionSpec)
    requires r.Valid()
    modifies r`offset, r`failed
    ensures r.Valid() && Took(ActionFormat(limits), old(r.State()), r.State(), x)
  {
    hide Took, FieldsFormat, ListsFormat;
    ghost var s0 := r.State();
    var fields := DecodeFields(r, limits);
    ghost var s1 := r.State();
    var lists := DecodeLists(r, limits);
    ghost var s2 := r.State();
    x := MakeAction((fields, lists));
    TookPair(FieldsFormat(limits), ListsFormat(limits), s0, s1, s2, fields, lists);
    TookAs(Pair(FieldsFormat(limits), ListsFormat(limits)), MakeAction, ActionParts, s0, s2, (fields, lists));
  }

  method DecodeActions(r: CanonicalReader, limits: ModelLimits, max: U32) returns (list: seq<ActionSpec>)
    requires r.Valid()
    modifies r`offset, r`failed
    ensures r.Valid() && Took(ListOf(ActionFormat(limits), max), old(r.State()), r.State(), list)
  {
    hide Took, ActionFormat, Underway, Bounded, ListOf;
    list := [];
    ghost var s0 := r.State();
    var count := r.ReadCount(max);
    ghost var s1 := r.State();
    if r.failed {
      TookList(ActionFormat(limits), max, s0, s1, count, s1, list);
      return;
    }
    UnderwayBegins(ActionFormat(limits), count, s1.value);
    for i := 0 to count
      invariant r.Valid() && !r.failed && |list| == i
      invariant Underway(ActionFormat(limits), count, s1.value, list, r.State())
    {
      ghost var before := r.State();
      var x := DecodeAction(r, limits);
      UnderwayNext(ActionFormat(limits), count, s1.value, list, before, r.State(), x);
      if r.failed {
        TookList(ActionFormat(limits), max, s0, s1, count, r.State(), list);
        return;
      }
      list := list + [x];
    }
    TookList(ActionFormat(limits), max, s0, s1, count, r.State(), list);
  }

  method DecodeDefinition(r: CanonicalReader, limits: ModelLimits) returns (x: FabricDefinition)
    requires r.Valid()
    modifies r`offset, r`failed
    ensures r.Valid() && Took(DefinitionFormat(limits), old(r.State()), r.State(), x)
  {
    hide Took, ListOf, NODE, LINK, SERVICE, RESOURCE, ActionFormat, GOAL, GROUP;
    ghost var s0 := r.State();
    var nodes := DecodeNodes(r, limits.maxNodes);
    ghost var s1 := r.State();
    var links := DecodeLinks(r, limits.maxLinks);
    ghost var s2 := r.State();
    var services := DecodeServices(r, limits.maxServices);
    ghost var s3 := r.State();
    var resources := DecodeResources(r, limits.maxResources);
    ghost var s4 := r.State();
    var actions := DecodeActions(r, limits, limits.maxActions);
    ghost var s5 := r.State();
    var goals := DecodeGoals(r, limits.maxGoals);
    ghost var s6 := r.State();
    var groups := DecodeGroups(r, limits.maxGroups);
    ghost var s7 := r.State();
    TookPair(ListOf(GOAL, limits.maxGoals), ListOf(GROUP, limits.maxGroups), s5, s6, s7, goals, groups);
    var c5 := Pair(ListOf(GOAL, limits.maxGoals), ListOf(GROUP, limits.maxGroups));
    var v5 := (goals, groups);
    TookPair(ListOf(ActionFormat(limits), limits.maxActions), c5, s4, s5, s7, actions, v5);
    var c4 := Pair(ListOf(ActionFormat(limits), limits.maxActions), c5);
    var v4 := (actions, v5);
    TookPair(ListOf(RESOURCE, limits.maxResources), c4, s3, s4, s7, resources, v4);
    var c3 := Pair(ListOf(RESOURCE, limits.maxResources), c4);
    var v3 := (resources, v4);
    TookPair(ListOf(SERVICE, limits.maxServices), c3, s2, s3, s7, services, v3);
    var c2 := Pair(ListOf(SERVICE, limits.maxServices), c3);
    var v2 := (services, v3);
    TookPair(ListOf(LINK, limits.maxLinks), c2, s1, s2, s7, links, v2);
    var c1 := Pair(ListOf(LINK, limits.maxLinks), c2);
    var v1 := (links, v2);
    TookPair(ListOf(NODE, limits.maxNodes), c1, s0, s1, s7, nodes, v1);
    var c0 := Pair(ListOf(NODE, limits.maxNodes), c1);
    var v0 := (nodes, v1);
    x := FabricDefinition(nodes, links, services, resources, actions, goals, groups);
    TookAs(c0, MakeDefinition, PartsOfDefinition, s0, s7, v0);
  }

  method DecodeAuthority(r: CanonicalReader, limits: ModelLimits) returns (x: AuthorityVector)
    requires r.Valid()
    modifies r`offset, r`failed
    ensures r.Valid() && Took(AuthorityFormat(limits), old(r.State()), r.State(), x)
  {
    hide Took, ListOf, BINDING, U64_CODEC;
    ghost var s0 := r.State();
    var epoch := r.ReadU64();
    ghost var s1 := r.State();
    var boot := r.ReadU64();
    ghost var s2 := r.State();
    var bindings := DecodeBindings(r, limits.maxBindings);
    ghost var s3 := r.State();
    TookPair(U64_CODEC, ListOf(BINDING, limits.maxBindings), s1, s2, s3, boot, bindings);
    var c1 := Pair(U64_CODEC, ListOf(BINDING, limits.maxBindings));
    var v1 := (boot, bindings);
    TookPair(U64_CODEC, c1, s0, s1, s3, epoch, v1);
    var c0 := Pair(U64_CODEC, c1);
    var v0 := (epoch, v1);
    x := AuthorityVector(epoch, boot, bindings);
    TookAs(c0, MakeVector, VectorParts, s0, s3, v0);
  }

  // What decoding the contents of a request comes to, when the policy may be refused.
  ghost predicate Refuses<T(!new)>(c: Codec<T>, before: Option<Bytes>) {
    match before case None => true case Some(b) => c.decode(b).None?
  }

  lemma RefusesFirst<A(!new), B(!new)>(a: Codec<A>, b: Codec<B>, s0: Option<Bytes>, s1: Option<Bytes>, x: A)
    requires Took(a, s0, s1, x) && Refuses(b, s1)
    ensures Refuses(Pair(a, b), s0)
  {
  }

  lemma RefusesPair<A(!new), B(!new)>(a: Codec<A>, b: Codec<B>, s0: Option<Bytes>)
    requires Refuses(a, s0)
    ensures Refuses(Pair(a, b), s0)
  {
  }

  lemma RefusesAs<S(!new), T(!new)>(c: Codec<S>, make: S -> T, parts: T -> S, s0: Option<Bytes>)
    requires Refuses(c, s0)
    ensures Refuses(As(c, make, parts), s0)
  {
  }

  lemma Accepted<T(!new)>(c: Codec<T>, bytes: Bytes, after: Option<Bytes>, x: T)
    requires Took(c, Some(bytes), after, x)
    ensures Accept(c, bytes) == if after == Some([]) then Some(x) else None
  {
  }

  lemma NotAccepted<T(!new)>(c: Codec<T>, bytes: Bytes)
    requires Refuses(c, Some(bytes))
    ensures Accept(c, bytes) == None
  {
  }

  /** Decodes a whole request: accepted exactly when the format accepts all of the bytes. */
  method DecodePlanRequest(bytes: Bytes, limits: ModelLimits) returns (request: Option<PlanRequest>)
    ensures request == Accept(RequestFormat(limits), bytes)
  {
    hide Took, Refuses, Accept, U64_CODEC, DefinitionFormat, EvidenceFormat, AuthorityFormat, POLICY, FENCE, ListOf;
    var r := new CanonicalReader(bytes);
    ghost var s0 := r.State();
    var id := r.ReadU64();
    ghost var s1 := r.State();
    var epoch := r.ReadU64();
    ghost var s2 := r.State();
    var boot := r.ReadU64();
    ghost var s3 := r.State();
    var attempt := r.ReadU64();
    ghost var s4 := r.State();
    var definition := DecodeDefinition(r, limits);
    ghost var s5 := r.State();
    var evidence := DecodeEvidence(r, limits);
    ghost var s6 := r.State();
    var authority := DecodeAuthority(r, limits);
    ghost var s7 := r.State();
    var policy := DecodePolicy(r);
    ghost var s8 := r.State();
    var fencesFormat := ListOf(FENCE, limits.maxFences);
    var c7 := Pair(POLICY, fencesFormat);
    var c6 := Pair(AuthorityFormat(limits), c7);
    var c5 := Pair(EvidenceFormat(limits), c6);
    var c4 := Pair(DefinitionFormat(limits), c5);
    var c3 := Pair(U64_CODEC, c4);
    var c2 := Pair(U64_CODEC, c3);
    var c1 := Pair(U64_CODEC, c2);
    var c0 := Pair(U64_CODEC, c1);
    if policy.None? {
      PolicyRefuses(s7);
      RefusesPair(POLICY, fencesFormat, s7);
      RefusesFirst(AuthorityFormat(limits), c7, s6, s7, authority);
      RefusesFirst(EvidenceFormat(limits), c6, s5, s6, evidence);
      RefusesFirst(DefinitionFormat(limits), c5, s4, s5, definition);
      RefusesFirst(U64_CODEC, c4, s3, s4, attempt);
      RefusesFirst(U64_CODEC, c3, s2, s3, boot);
      RefusesFirst(U64_CODEC, c2, s1, s2, epoch);
      RefusesFirst(U64_CODEC, c1, s0, s1, id);
      RefusesAs(c0, MakeRequest, PartsOfRequest, s0);
      NotAccepted(RequestFormat(limits), bytes);
      return None;
    }
    var fences := DecodeFences(r, limits.maxFences);
    ghost var s9 := r.State();
    TookPair(POLICY, fencesFormat, s7, s8, s9, policy.value, fences);
    TookPair(AuthorityFormat(limits), c7, s6, s7, s9, authority, (policy.value, fences));
    ghost var v6 := (authority, (policy.value, fences));
    TookPair(EvidenceFormat(limits), c6, s5, s6, s9, evidence, v6);
    TookPair(DefinitionFormat(limits), c5, s4, s5, s9, definition, (evidence, v6));
    ghost var v4 := (definition, (evidence, v6));
    TookPair(U64_CODEC, c4, s3, s4, s9, attempt, v4);
    TookPair(U64_CODEC, c3, s2, s3, s9, boot, (attempt, v4));
    TookPair(U64_CODEC, c2, s1, s2, s9, epoch, (boot, (attempt, v4)));
    TookPair(U64_CODEC, c1, s0, s1, s9, id, (epoch, (boot, (attempt, v4))));
    TookAs(c0, MakeRequest, PartsOfRequest, s0, s9, (id, (epoch, (boot, (attempt, v4)))));
    var decoded := PlanRequest(id, attempt, epoch, boot, definition, evidence, authority, policy.value, fences);
    Accepted(RequestFormat(limits), bytes, s9, decoded);
    var ended := r.RequireEnd();
    return if ended then Some(decoded) else None;
  }

  lemma PolicyRefuses(s: Option<Bytes>)
    requires match s case None => true case Some(b) => POLICY.decode(b).None?
    ensures Refuses(POLICY, s)
  {
  }
}
