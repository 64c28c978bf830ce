/** The canonical reader: bounds-checked, with one sticky failure, and the decoders that run
    on it.  Each of them reads exactly what its format says. */
module Reading {
  import opened Ints
  import opened Canonical
  import opened Codecs
  import opened Domain
  import opened Definition
  import opened Evidence
  import opened Requests
  import opened Formats

  // One read: nothing happens after a failure, what the format refuses fails, and otherwise
  // the value and the rest are those of the format.
  ghost predicate Took<T(!new)>(c: Codec<T>, before: Option<Bytes>, after: Option<Bytes>, x: T) {
    match before
    case None => after == None
    case Some(b) =>
      match c.decode(b)
      case None => after == None
      case Some(r) => after == Some(r.1) && x == r.0
  }

  // Two reads in a row are one read of a pair.
  lemma TookPair<A(!new), B(!new)>(a: Codec<A>, b: Codec<B>, s0: Option<Bytes>, s1: Option<Bytes>, s2: Option<Bytes>,
                                   x: A, y: B)
    requires Took(a, s0, s1, x) && Took(b, s1, s2, y)
    ensures Took(Pair(a, b), s0, s2, (x, y))
  {
  }

  lemma TookAs<S(!new), T(!new)>(c: Codec<S>, make: S -> T, parts: T -> S, s0: Option<Bytes>, s1: Option<Bytes>, x: S)
    requires Took(c, s0, s1, x)
    ensures Took(As(c, make, parts), s0, s1, make(x))
  {
  }

  lemma TookOnly<T(!new)>(c: Codec<T>, accepts: T -> bool, s0: Option<Bytes>, s1: Option<Bytes>, x: T)
    requires Took(c, s0, s1, x)
    ensures s1.Some? ==> Took(Only(c, accepts), s0, if accepts(x) then s1 else None, x)
    ensures s1.None? ==> Took(Only(c, accepts), s0, None, x)
  {
  }

  predicate AtMost(max: U32, n: U32) {
    n <= max
  }

  function Bounded(max: U32): Codec<U32> {
    Only(U32_CODEC, (n: U32) => AtMost(max, n))
  }

  class CanonicalReader {
    const data: Bytes
    var offset: nat
    var failed: bool

    constructor (data: Bytes)
      ensures Valid() && State() == Some(data)
    {
      this.data := data;
      offset, failed := 0, false;
      new;
      assert data[0..] == data;
    }

    ghost predicate Valid()
      reads this
    {
      offset <= |data|
    }

    // What is left to read, unless a read has failed.
    ghost function State(): Option<Bytes>
      requires Valid()
      reads this
    {
      if failed then None else Some(data[offset..])
    }

    method Fail()
      requires Valid()
      modifies this`failed
      ensures Valid() && State() == None
    {
      failed := true;
    }

    /** Whether this many bytes are left; a shortage is a failure. */
    method Need(count: nat) returns (ok: bool)
      requires Valid()
      modifies this`failed
      ensures Valid()
      ensures ok ==> !failed && !old(failed) && offset + count <= |data|
      ensures !ok ==> failed && (old(failed) || count > |data| - offset)
    {
      if failed {
        return false;
      }
      if count > |data| - offset {
        failed := true;
        return false;
      }
      return true;
    }

    /** Reads an integer byte by byte, least significant first. */
    method ReadInteger(width: nat) returns (value: nat)
      requires Valid()
      modifies this`offset, this`failed
      ensures Valid() && value < Pow256(width)
      ensures old(State()).None? ==> State().None?
      ensures old(State()).Some? ==>
                var b := old(State()).value;
                if |b| < width then State().None? else State() == Some(b[width..]) && value == Value(b[..width])
    {
      var ok := Need(width);
      if !ok {
        return 0;
      }
      value := Assemble(data[offset..offset + width]);
      ghost var b := data[offset..];
      assert data[offset..offset + width] == b[..width];
      LittleEndianOfValue(b[..width]);
      offset := offset + width;
      assert data[offset..] == b[width..];
    }

    method ReadU8() returns (value: U8)
      requires Valid()
      modifies this`offset, this`failed
      ensures Valid() && (old(failed) ==> failed)
      ensures old(State()).Some? ==>
                var b := old(State()).value;
                if |b| == 0 then State().None? else State() == Some(b[1..]) && value == b[0]
    {
      var ok := Need(1);
      if !ok {
        return 0;
      }
      value := data[offset];
      offset := offset + 1;
    }

    method ReadU32() returns (value: U32)
      requires Valid()
      modifies this`offset, this`failed
      ensures Valid() && Took(U32_CODEC, old(State()), State(), value)
    {
      Widths();
      value := ReadInteger(4);
    }

    method ReadU64() returns (value: U64)
      requires Valid()
      modifies this`offset, this`failed
      ensures Valid() && Took(U64_CODEC, old(State()), State(), value)
    {
      Widths();
      value := ReadInteger(8);
    }

    method ReadFlag() returns (value: bool)
      requires Valid()
      modifies this`offset, this`failed
      ensures Valid() && Took(FLAG_CODEC, old(State()), State(), value)
    {
      var raw := ReadU8();
      if failed {
        return false;
      }
      if raw > 1 {
        Fail();
        return false;
      }
      return raw == 1;
    }

    /** Reads a named value; a byte that names none fails. */
    method ReadNamed<E(!new)>(ghost code: E -> U8, named: U8 -> Option<E>, first: E) returns (value: E)
      requires Valid()
      modifies this`offset, this`failed
      ensures Valid() && Took(Named(code, named), old(State()), State(), value)
    {
      var raw := ReadU8();
      if failed {
        return first;
      }
      match named(raw) {
        case None =>
          Fail();
          return first;
        case Some(x) =>
          return x;
      }
    }

    method ReadCount(max: U32) returns (count: U32)
      requires Valid()
      modifies this`offset, this`failed
      ensures Valid() && Took(Bounded(max), old(State()), State(), count)
      ensures State().Some? ==> count <= max
    {
      count := ReadU32();
      if failed {
        return;
      }
      if count > max {
        Fail();
        return;
      }
    }

    method ReadText(max: U32) returns (text: Bytes)
      requires Valid()
      modifies this`offset, this`failed
      ensures Valid() && Took(Text(max), old(State()), State(), text)
    {
      hide DecodeU32;
      text := [];
      var length := ReadU32();
      if failed {
        return;
      }
      if length > max {
        Fail();
        return;
      }
      ghost var b := data[offset..];
      var ok := Need(length);
      if !ok {
        return;
      }
      text := data[offset..offset + length];
      assert text == b[..length];
      offset := offset + length;
      assert data[offset..] == b[length..];
    }

    /** Succeeds when nothing failed and nothing is left. */
    method RequireEnd() returns (ok: bool)
      requires Valid()
      ensures ok <==> State() == Some([])
    {
      ok := !failed && offset == |data|;
      assert |data[offset..]| == |data| - offset;
    }
  }

  /** Puts an integer together from its bytes, least significant first. */
  method Assemble(bytes: Bytes) returns (value: nat)
    ensures value == Value(bytes)
  {
    value := 0;
    var weight: nat := 1;
    assert bytes[0..] == bytes;
    assert Value([]) == 0;
    hide Value;
    for i := 0 to |bytes|
      invariant value + weight * Value(bytes[i..]) == Value(bytes)
    {
      NextDigit(bytes, i);
      TakeDigit(weight, bytes[i], Value(bytes[i + 1..]));
      value := value + weight * bytes[i];
      weight := 256 * weight;
    }
  }

  lemma NextDigit(bytes: Bytes, i: nat)
    requires i < |bytes|
    ensures Value(bytes[i..]) == bytes[i] + 256 * Value(bytes[i + 1..])
  {
    assert bytes[i..][1..] == bytes[i + 1..];
  }

  lemma TakeDigit(weight: nat, digit: nat, rest: nat)
    ensures weight * (digit + 256 * rest) == weight * digit + (256 * weight) * rest
  {
  }

  // ---- Decoders -------------------------------------------------------------

  method ReadSubject(r: CanonicalReader) returns (s: Subject)
    requires r.Valid()
    modifies r`offset, r`failed
    ensures r.Valid() && Took(SUBJECT, old(r.State()), r.State(), s)
  {
    hide Took, Named, U64_CODEC, SubjectCode, SubjectNamed;
    ghost var s0 := r.State();
    var kind := r.ReadNamed(SubjectCode, SubjectNamed, NoSubject);
    ghost var s1 := r.State();
    var id := r.ReadU64();
    ghost var s2 := r.State();
    s := Subject(kind, id);
    TookPair(SUBJECT_KIND, U64_CODEC, s0, s1, s2, kind, id);
    TookAs(Pair(SUBJECT_KIND, U64_CODEC), MakeSubject, SubjectParts, s0, s2, (kind, id));
    TookOnly(As(Pair(SUBJECT_KIND, U64_CODEC), MakeSubject, SubjectParts), Addressable, s0, s2, s);
    if !r.failed && s.kind == NoSubject {
      r.Fail();
    }
  }

  method DecodeFence(r: CanonicalReader) returns (f: Fence)
    requires r.Valid()
    modifies r`offset, r`failed
    ensures r.Valid() && Took(FENCE, old(r.State()), r.State(), f)
  {
    hide Took, Named, U64_CODEC, Text, DomainCode, DomainNamed;
    ghost var s0 := r.State();
    var epoch := r.ReadU64();
    ghost var s1 := r.State();
    var boot := r.ReadU64();
    ghost var s2 := r.State();
    var domain := r.ReadNamed(DomainCode, DomainNamed, FabricStateDomain);
    ghost var s3 := r.State();
    var minimum := r.ReadU64();
    ghost var s4 := r.State();
    var sequence := r.ReadU64();
    ghost var s5 := r.State();
    var reason := r.ReadText(REASON_LENGTH);
    ghost var s6 := r.State();
    var tail := Pair(U64_CODEC, Text(REASON_LENGTH));
    TookPair(U64_CODEC, Text(REASON_LENGTH), s4, s5, s6, sequence, reason);
    TookPair(U64_CODEC, tail, s3, s4, s6, minimum, (sequence, reason));
    TookPair(DOMAIN, Pair(U64_CODEC, tail), s2, s3, s6, domain, (minimum, (sequence, reason)));
    var rest := Pair(DOMAIN, Pair(U64_CODEC, tail));
    TookPair(U64_CODEC, rest, s1, s2, s6, boot, (domain, (minimum, (sequence, reason))));
    TookPair(U64_CODEC, Pair(U64_CODEC, rest), s0, s1, s6, epoch, (boot, (domain, (minimum, (sequence, reason)))));
    f := Fence(epoch, boot, domain, minimum, sequence, reason);
    TookAs(Pair(U64_CODEC, Pair(U64_CODEC, rest)), MakeFence, FenceParts, s0, s6,
           (epoch, (boot, (domain, (minimum, (sequence, reason))))));
  }

  method DecodeFact(r: CanonicalReader) returns (f: EvidenceFact)
    requires r.Valid()
    modifies r`offset, r`failed
    ensures r.Valid() && Took(FACT, old(r.State()), r.State(), f)
  {
    hide Took, Named, U64_CODEC, SUBJECT, DomainCode, DomainNamed, FactCode, FactNamed, TrustCode, TrustNamed;
    ghost var s0 := r.State();
    var id := r.ReadU64();
    ghost var s1 := r.State();
    var kind := r.ReadNamed(FactCode, FactNamed, LinkFact);
    ghost var s2 := r.State();
    var subject := ReadSubject(r);
    ghost var s3 := r.State();
    var value := r.ReadU64();
    ghost var s4 := r.State();
    var generation := r.ReadU64();
    ghost var s5 := r.State();
    var domain := r.ReadNamed(DomainCode, DomainNamed, FabricStateDomain);
    ghost var s6 := r.State();
    var source := r.ReadU64();
    ghost var s7 := r.State();
    var trust := r.ReadNamed(TrustCode, TrustNamed, UnknownLabel);
    ghost var s8 := r.State();
    var sequence := r.ReadU64();
    ghost var s9 := r.State();
    var labelled := Pair(TRUST, U64_CODEC);
    TookPair(TRUST, U64_CODEC, s7, s8, s9, trust, sequence);
    TookPair(U64_CODEC, labelled, s6, s7, s9, source, (trust, sequence));
    var origin := Pair(DOMAIN, Pair(U64_CODEC, labelled));
    TookPair(DOMAIN, Pair(U64_CODEC, labelled), s5, s6, s9, domain, (source, (trust, sequence)));
    ghost var x := (domain, (source, (trust, sequence)));
    TookPair(U64_CODEC, origin, s4, s5, s9, generation, x);
    TookPair(U64_CODEC, Pair(U64_CODEC, origin), s3, s4, s9, value, (generation, x));
    var about := Pair(SUBJECT, Pair(U64_CODEC, Pair(U64_CODEC, origin)));
    TookPair(SUBJECT, Pair(U64_CODEC, Pair(U64_CODEC, origin)), s2, s3, s9, subject, (value, (generation, x)));
    TookPair(FACT_KIND, about, s1, s2, s9, kind, (subject, (value, (generation, x))));
    TookPair(U64_CODEC, Pair(FACT_KIND, about), s0, s1, s9, id, (kind, (subject, (value, (generation, x)))));
    f := EvidenceFact(id, kind, subject, value, generation, domain, source, trust, sequence);
    TookAs(Pair(U64_CODEC, Pair(FACT_KIND, about)), MakeFact, PartsOfFact, s0, s9,
           (id, (kind, (subject, (value, (generation, x))))));
  }

  // ---- Lists ----------------------------------------------------------------

  // Elements put in front of what is still to be read.
  function Prefixed<T>(list: seq<T>, rest: Option<(seq<T>, Bytes)>): Option<(seq<T>, Bytes)> {
    match rest case None => None case Some(r) => Some((list + r.0, r.1))
  }

  // Of n elements from some bytes, the given ones have been read and the rest is left.
  ghost predicate Underway<T(!new)>(c: Codec<T>, n: nat, b: Bytes, list: seq<T>, state: Option<Bytes>) {
    && |list| <= n && state.Some?
    && DecodeMany(c, n, b) == Prefixed(list, DecodeMany(c, n - |list|, state.value))
  }

  lemma UnderwayNext<T(!new)>(c: Codec<T>, n: nat, b: Bytes, list: seq<T>, s0: Option<Bytes>, s1: Option<Bytes>, x: T)
    requires Underway(c, n, b, list, s0) && |list| < n && Took(c, s0, s1, x)
    ensures s1.None? ==> DecodeMany(c, n, b).None?
    ensures s1.Some? ==> Underway(c, n, b, list + [x], s1)
  {
    if s1.Some? {
      var rest := DecodeMany(c, n - |list| - 1, s1.value);
      if rest.Some? {
        assert list + ([x] + rest.value.0) == (list + [x]) + rest.value.0;
      }
    }
  }

  lemma UnderwayBegins<T(!new)>(c: Codec<T>, n: nat, b: Bytes)
    ensures Underway(c, n, b, [], Some(b))
  {
    var rest := DecodeMany(c, n, b);
    if rest.Some? {
      assert [] + rest.value.0 == rest.value.0;
    }
  }

  // A bounded count and then that many elements are a list.
  lemma TookList<T(!new)>(c: Codec<T>, max: U32, s0: Option<Bytes>, s1: Option<Bytes>, n: U32, s2: Option<Bytes>,
                          list: seq<T>)
    requires Took(Bounded(max), s0, s1, n)
    requires s1.None? ==> s2.None?
    requires s1.Some? ==>
               if s2.None? then DecodeMany(c, n, s1.value).None?
               else |list| == n && Underway(c, n, s1.value, list, s2)
    ensures Took(ListOf(c, max), s0, s2, list)
  {
    hide DecodeU32;
    if s1.Some? && s2.Some? {
      assert list + [] == list;
    }
  }

  method DecodeEvidence(r: CanonicalReader, limits: ModelLimits) returns (bundle: EvidenceBundle)
    requires r.Valid()
    modifies r`offset, r`failed
    ensures r.Valid() && Took(EvidenceFormat(limits), old(r.State()), r.State(), bundle)
  {
    hide Took, U64_CODEC, FACT, Underway, Bounded, ListOf;
    ghost var s0 := r.State();
    var epoch := r.ReadU64();
    ghost var s1 := r.State();
    var boot := r.ReadU64();
    ghost var s2 := r.State();
    var facts := DecodeFacts(r, limits.maxFacts);
    ghost var s3 := r.State();
    bundle := EvidenceBundle(epoch, boot, facts);
    TookPair(U64_CODEC, ListOf(FACT, limits.maxFacts), s1, s2, s3, boot, facts);
    TookPair(U64_CODEC, Pair(U64_CODEC, ListOf(FACT, limits.maxFacts)), s0, s1, s3, epoch, (boot, facts));
    TookAs(Pair(U64_CODEC, Pair(U64_CODEC, ListOf(FACT, limits.maxFacts))), MakeBundle, BundleParts, s0, s3,
           (epoch, (boot, facts)));
  }

  method DecodeFacts(r: CanonicalReader, max: U32) returns (facts: seq<EvidenceFact>)
    requires r.Valid()
    modifies r`offset, r`failed
    ensures r.Valid() && Took(ListOf(FACT, max), old(r.State()), r.State(), facts)
  {
    hide Took, FACT, Underway, Bounded, ListOf;
    facts := [];
    ghost var s0 := r.State();
    var count := r.ReadCount(max);
    ghost var s1 := r.State();
    if r.failed {
      TookList(FACT, max, s0, s1, count, s1, facts);
      return;
    }
    UnderwayBegins(FACT, count, s1.value);
    for i := 0 to count
      invariant r.Valid() && !r.failed && |facts| == i
      invariant Underway(FACT, count, s1.value, facts, r.State())
    {
      ghost var before := r.State();
      var fact := DecodeFact(r);
      UnderwayNext(FACT, count, s1.value, facts, before, r.State(), fact);
      if r.failed {
        TookList(FACT, max, s0, s1, count, r.State(), facts);
        return;
      }
      facts := facts + [fact];
    }
    TookList(FACT, max, s0, s1, count, r.State(), facts);
  }

  method DecodePolicy(r: CanonicalReader) returns (policy: Option<PlanPolicy>)
    requires r.Valid()
    modifies r`offset, r`failed
    ensures r.Valid()
    ensures policy.Some? ==> Took(POLICY, old(r.State()), r.State(), policy.value) && r.State().Some?
    ensures policy.None? ==>
              match old(r.State()) case None => true case Some(b) => POLICY.decode(b).None?
  {
    hide Took, U64_CODEC, U32_CODEC, FLAG_CODEC;
    ghost var s0 := r.State();
    var irreversible := r.ReadFlag();
    ghost var s1 := r.State();
    var current := r.ReadFlag();
    ghost var s2 := r.State();
    var steps := r.ReadU64();
    ghost var s3 := r.State();
    var expanded := r.ReadU64();
    ghost var s4 := r.State();
    var generated := r.ReadU64();
    ghost var s5 := r.State();
    var frontier := r.ReadU64();
    ghost var s6 := r.State();
    var scale := r.ReadU32();
    ghost var s7 := r.State();
    var read := PlanPolicy(irreversible, current, steps, expanded, generated, frontier, scale);
    TookPair(U64_CODEC, U32_CODEC, s5, s6, s7, frontier, scale);
    TookPair(U64_CODEC, Pair(U64_CODEC, U32_CODEC), s4, s5, s7, generated, (frontier, scale));
    var bounds := Pair(U64_CODEC, Pair(U64_CODEC, U32_CODEC));
    TookPair(U64_CODEC, bounds, s3, s4, s7, expanded, (generated, (frontier, scale)));
    TookPair(U64_CODEC, Pair(U64_CODEC, bounds), s2, s3, s7, steps, (expanded, (generated, (frontier, scale))));
    var all := Pair(U64_CODEC, Pair(U64_CODEC, bounds));
    ghost var x := (steps, (expanded, (generated, (frontier, scale))));
    TookPair(FLAG_CODEC, all, s1, s2, s7, current, x);
    TookPair(FLAG_CODEC, Pair(FLAG_CODEC, all), s0, s1, s7, irreversible, (current, x));
    TookAs(Pair(FLAG_CODEC, Pair(FLAG_CODEC, all)), MakePolicy, PartsOfPolicy, s0, s7, (irreversible, (current, x)));
    var format := As(Pair(FLAG_CODEC, Pair(FLAG_CODEC, all)), MakePolicy, PartsOfPolicy);
    TookOnly(format, Bounding, s0, s7, read);
    PolicyOutcome(s0, s7, read);
    if r.failed {
      return None;
    }
    if steps == 0 || expanded == 0 || generated == 0 || frontier == 0 {
      return None;
    }
    return Some(read);
  }

  lemma PolicyOutcome(s0: Option<Bytes>, s1: Option<Bytes>, x: PlanPolicy)
    requires Took(POLICY, s0, if s1.Some? && Bounding(x) then s1 else None, x)
    ensures s1.None? || !Bounding(x) ==> match s0 case None => true case Some(b) => POLICY.decode(b).None?
  {
  }
}
