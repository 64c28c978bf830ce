/** What a store's records say of the processes that held it: its boots, its fences, and what
    the next opening writes. */
module Incarnations {
  import opened Ints
  import opened Canonical
  import opened Codecs
  import opened Domain
  import opened Requests
  import opened Formats
  import opened Framing
  import opened Recovery

  datatype Incarnation = Incarnation(epoch: U64, boot: U64)

  const NOBODY: Incarnation := Incarnation(0, 0)

  predicate Above(now: Incarnation, before: Incarnation) {
    now.epoch > before.epoch && now.boot > before.boot
  }

  predicate AtLeast(now: Incarnation, before: Incarnation) {
    now.epoch >= before.epoch && now.boot >= before.boot
  }

  // ---- Boot and fence records -----------------------------------------------

  type BootParts = (U32, (U64, (U64, (U64, U64))))

  const BOOT: Codec<BootParts> :=
    Pair(U32_CODEC, Pair(U64_CODEC, Pair(U64_CODEC, Pair(U64_CODEC, U64_CODEC))))

  lemma BootExact()
    ensures Exact(BOOT)
  {
    hide Exact;
    U32Exact();
    U64Exact();
    PairExact(U64_CODEC, U64_CODEC);
    PairExact(U64_CODEC, Pair(U64_CODEC, U64_CODEC));
    PairExact(U64_CODEC, Pair(U64_CODEC, Pair(U64_CODEC, U64_CODEC)));
    PairExact(U32_CODEC, Pair(U64_CODEC, Pair(U64_CODEC, Pair(U64_CODEC, U64_CODEC))));
  }

  function BootPayload(before: Incarnation, now: Incarnation): Bytes {
    BOOT.encode((FORMAT_VERSION, (before.epoch, (before.boot, (now.epoch, now.boot)))))
  }

  // Only the incarnation that booted is read, and nothing is required of what follows.
  function ReadBoot(payload: Bytes): Option<Incarnation> {
    match BOOT.decode(payload)
    case None => None
    case Some(r) => Some(Incarnation(r.0.1.1.1.0, r.0.1.1.1.1))
  }

  function ReadFence(payload: Bytes): Option<Fence> {
    match FENCE.decode(payload) case None => None case Some(r) => Some(r.0)
  }

  lemma BootIsRead(before: Incarnation, now: Incarnation)
    ensures ReadBoot(BootPayload(before, now)) == Some(now)
  {
    hide BOOT, Exact;
    BootExact();
    var parts: BootParts := (FORMAT_VERSION, (before.epoch, (before.boot, (now.epoch, now.boot))));
    AnyBoot(parts);
    ExactReads(BOOT, parts, []);
    assert BootPayload(before, now) + [] == BootPayload(before, now);
  }

  lemma PairParts<A, B>(a: Codec<A>, b: Codec<B>, x: A, y: B)
    ensures Pair(a, b).valid((x, y)) <==> a.valid(x) && b.valid(y)
    ensures Pair(a, b).encode((x, y)) == a.encode(x) + b.encode(y)
  {
  }

  lemma AnyBoot(parts: BootParts)
    ensures BOOT.valid(parts)
  {
    hide Pair;
    var tail := Pair(U64_CODEC, Pair(U64_CODEC, U64_CODEC));
    PairParts(U32_CODEC, Pair(U64_CODEC, tail), parts.0, parts.1);
    PairParts(U64_CODEC, tail, parts.1.0, parts.1.1);
    PairParts(U64_CODEC, Pair(U64_CODEC, U64_CODEC), parts.1.1.0, parts.1.1.1);
    PairParts(U64_CODEC, U64_CODEC, parts.1.1.1.0, parts.1.1.1.1);
  }

  /** A fence record is read back exactly when its reason is within the length that reading
      insists on; writing one insists on nothing. */
  lemma FenceIsRead(fence: Fence)
    requires |fence.reason| < TWO_32
    ensures ReadFence(FENCE.encode(fence)) == if |fence.reason| <= REASON_LENGTH then Some(fence) else None
  {
    hide FENCE, Exact;
    FenceExact();
    FenceIs(fence);
    var payload := FENCE.encode(fence);
    assert payload + [] == payload;
    if |fence.reason| <= REASON_LENGTH {
      ExactReads(FENCE, fence, []);
    } else {
      LongReasonFails(fence);
    }
  }

  type FenceTail = (U64, (U64, Bytes))

  const FENCE_TAIL: Codec<FenceTail> := Pair(U64_CODEC, Pair(U64_CODEC, Text(REASON_LENGTH)))

  lemma AsParts<S, T>(c: Codec<S>, make: S -> T, parts: T -> S, x: T)
    ensures As(c, make, parts).valid(x) <==> c.valid(parts(x))
    ensures As(c, make, parts).encode(x) == c.encode(parts(x))
  {
  }

  lemma FenceTailIs(fence: Fence)
    ensures var tail: FenceTail := (fence.minimumGeneration, (fence.sequence, fence.reason));
            && (FENCE_TAIL.valid(tail) <==> |fence.reason| <= REASON_LENGTH)
            && FENCE_TAIL.encode(tail)
               == U64_CODEC.encode(fence.minimumGeneration)
                  + (U64_CODEC.encode(fence.sequence) + EncodeText(fence.reason))
  {
    hide Pair, EncodeText, LittleEndian;
    var text := Text(REASON_LENGTH);
    PairParts(U64_CODEC, text, fence.sequence, fence.reason);
    PairParts(U64_CODEC, Pair(U64_CODEC, text), fence.minimumGeneration, (fence.sequence, fence.reason));
  }

  lemma FenceIs(fence: Fence)
    ensures FENCE.valid(fence) <==> |fence.reason| <= REASON_LENGTH
    ensures FENCE.encode(fence)
         == U64_CODEC.encode(fence.epoch)
            + (U64_CODEC.encode(fence.boot)
               + (DOMAIN.encode(fence.domain)
                  + (U64_CODEC.encode(fence.minimumGeneration)
                     + (U64_CODEC.encode(fence.sequence) + EncodeText(fence.reason)))))
  {
    hide Pair, As, FENCE_TAIL, EncodeText, LittleEndian;
    var tail: FenceTail := (fence.minimumGeneration, (fence.sequence, fence.reason));
    FenceTailIs(fence);
    PairParts(DOMAIN, FENCE_TAIL, fence.domain, tail);
    PairParts(U64_CODEC, Pair(DOMAIN, FENCE_TAIL), fence.boot, (fence.domain, tail));
    PairParts(U64_CODEC, Pair(U64_CODEC, Pair(DOMAIN, FENCE_TAIL)), fence.epoch, (fence.boot, (fence.domain, tail)));
    FenceFormat();
    AsParts(Pair(U64_CODEC, Pair(U64_CODEC, Pair(DOMAIN, FENCE_TAIL))), MakeFence, FenceParts, fence);
  }

  lemma FenceFormat()
    ensures FENCE == As(Pair(U64_CODEC, Pair(U64_CODEC, Pair(DOMAIN, FENCE_TAIL))), MakeFence, FenceParts)
  {
    hide Pair, As;
  }

  // A pair is refused when its second part is.
  lemma PairRefused<A(!new), B>(a: Codec<A>, b: Codec<B>, x: A, rest: Bytes)
    requires Exact(a) && a.valid(x) && b.decode(rest) == None
    ensures Pair(a, b).decode(a.encode(x) + rest) == None
  {
    ExactReads(a, x, rest);
  }

  lemma LongReasonFails(fence: Fence)
    requires REASON_LENGTH < |fence.reason| < TWO_32
    ensures FENCE.decode(FENCE.encode(fence)) == None
  {
    hide Exact, DecodeU32, DecodeU64, U64Bytes, U32Bytes, Pair;
    U64Exact();
    U32Exact();
    KindsExact();
    var text := EncodeText(fence.reason);
    ExactReads(U32_CODEC, |fence.reason|, fence.reason);
    var b4 := U64_CODEC.encode(fence.sequence) + text;
    var b3 := U64_CODEC.encode(fence.minimumGeneration) + b4;
    var b2 := DOMAIN.encode(fence.domain) + b3;
    PairRefused(U64_CODEC, Text(REASON_LENGTH), fence.sequence, text);
    PairRefused(U64_CODEC, Pair(U64_CODEC, Text(REASON_LENGTH)), fence.minimumGeneration, b4);
    PairRefused(DOMAIN, FENCE_TAIL, fence.domain, b3);
    PairRefused(U64_CODEC, Pair(DOMAIN, FENCE_TAIL), fence.boot, b2);
    PairRefused(U64_CODEC, Pair(U64_CODEC, Pair(DOMAIN, FENCE_TAIL)), fence.epoch,
                U64_CODEC.encode(fence.boot) + b2);
    FenceIs(fence);
  }

  // ---- What the records say -------------------------------------------------

  predicate IsDynamic(kind: RecordType) {
    kind.Attempt? || kind.EvidenceLineage?
  }

  predicate Legible(r: Record) {
    (r.kind.Boot? ==> ReadBoot(r.payload).Some?) && (r.kind.FenceRecord? ==> ReadFence(r.payload).Some?)
  }

  predicate AllLegible(records: seq<Record>) {
    forall i :: 0 <= i < |records| ==> Legible(records[i])
  }

  // The last incarnation that booted.
  function LastBoot(records: seq<Record>): Incarnation {
    if |records| == 0 then NOBODY
    else
      var last := records[|records| - 1];
      if last.kind.Boot? && ReadBoot(last.payload).Some? then ReadBoot(last.payload).value
      else LastBoot(records[..|records| - 1])
  }

  function FencesIn(records: seq<Record>): seq<Fence> {
    if |records| == 0 then []
    else
      var last := records[|records| - 1];
      var fences := FencesIn(records[..|records| - 1]);
      if last.kind.FenceRecord? && ReadFence(last.payload).Some? then fences + [ReadFence(last.payload).value]
      else fences
  }

  function Dynamics(records: seq<Record>): seq<Record> {
    if |records| == 0 then []
    else
      var last := records[|records| - 1];
      var dynamics := Dynamics(records[..|records| - 1]);
      if IsDynamic(last.kind) then dynamics + [last] else dynamics
  }

  lemma {:induction false} DynamicsAre(records: seq<Record>, i: nat)
    requires i < |records| && IsDynamic(records[i].kind)
    ensures records[i] in Dynamics(records)
  {
    if i < |records| - 1 {
      DynamicsAre(records[..|records| - 1], i);
    }
  }

  // ---- What an opening writes -----------------------------------------------

  function Digits(n: nat): (d: Bytes)
    ensures |d| > 0
  {
    if n < 10 then [48 + n] else Digits(n / 10) + [48 + n % 10]
  }

  lemma DigitsBounded(n: U64)
    ensures |Digits(n)| <= 20
  {
    assert Pow10(4) == 10 * Pow10(3);
    Pow10Sum(4, 4);
    Pow10Sum(8, 8);
    Pow10Sum(16, 4);
    DigitsWithin(n, 20);
  }

  function Pow10(k: nat): nat {
    if k == 0 then 1 else 10 * Pow10(k - 1)
  }

  lemma {:induction false} Pow10Sum(j: nat, k: nat)
    ensures Pow10(j + k) == Pow10(j) * Pow10(k)
    decreases k
  {
    if k > 0 {
      Pow10Sum(j, k - 1);
      assert 10 * (Pow10(j) * Pow10(k - 1)) == Pow10(j) * (10 * Pow10(k - 1));
    }
  }

  lemma {:induction false} DigitsWithin(n: nat, k: nat)
    requires k > 0 && n < Pow10(k)
    ensures |Digits(n)| <= k
  {
    if n >= 10 {
      DigitsWithin(n / 10, k - 1);
    }
  }

  function Ascii(text: string): (b: Bytes)
    ensures |b| == |text|
  {
    seq(|text|, i requires 0 <= i < |text| => (text[i] as int) % 256)
  }

  const RESTARTED: string := "process restart fenced a dynamic record recovered from sequence "

  function RestartFence(sequence: U64, before: Incarnation): Fence {
    Fence(before.epoch, before.boot, FabricStateDomain, sequence, sequence, Ascii(RESTARTED) + Digits(sequence))
  }

  lemma RestartFenceIsRead(sequence: U64, before: Incarnation)
    ensures ReadFence(FENCE.encode(RestartFence(sequence, before))) == Some(RestartFence(sequence, before))
  {
    hide FENCE, ReadFence;
    DigitsBounded(sequence);
    assert |RESTARTED| == 64;
    FenceIsRead(RestartFence(sequence, before));
  }

  // A record appended after the others.
  function Appended(records: seq<Record>, kind: RecordType, payload: Bytes): seq<Record> {
    records + [Record(kind, Wrap64(LastSequence(records) + 1), payload)]
  }

  // The records after a fence has been appended for each of some dynamic ones.
  function Refenced(records: seq<Record>, dynamics: seq<Record>, before: Incarnation): (r: seq<Record>)
    ensures |r| == |records| + |dynamics|
    decreases |dynamics|
  {
    if |dynamics| == 0 then records
    else
      Refenced(Appended(records, FenceRecord, FENCE.encode(RestartFence(dynamics[0].sequence, before))),
               dynamics[1..], before)
  }

  function Successor(before: Incarnation, advance: bool): Incarnation {
    if advance then Incarnation(Wrap64(before.epoch + 1), Wrap64(before.boot + 1)) else before
  }

  // What the store holds once an opening has returned, given what it found.
  function Booted(found: seq<Record>, advance: bool): seq<Record> {
    var before := LastBoot(found);
    Appended(Refenced(found, Dynamics(found), before), Boot, BootPayload(before, Successor(before, advance)))
  }

  lemma {:induction false} RefencedExtends(records: seq<Record>, dynamics: seq<Record>, before: Incarnation)
    ensures records <= Refenced(records, dynamics, before)
    decreases |dynamics|
  {
    if |dynamics| > 0 {
      hide FENCE;
      var next := Appended(records, FenceRecord, FENCE.encode(RestartFence(dynamics[0].sequence, before)));
      assert records <= next;
      RefencedExtends(next, dynamics[1..], before);
    }
  }

  lemma {:induction false} RefencedHas(records: seq<Record>, dynamics: seq<Record>, before: Incarnation, i: nat)
    requires i < |dynamics|
    ensures var r := Refenced(records, dynamics, before)[|records| + i];
            r.kind.FenceRecord? && r.payload == FENCE.encode(RestartFence(dynamics[i].sequence, before))
    decreases |dynamics|
  {
    hide FENCE, RestartFence;
    var next := Appended(records, FenceRecord, FENCE.encode(RestartFence(dynamics[0].sequence, before)));
    if i == 0 {
      RefencedExtends(next, dynamics[1..], before);
    } else {
      RefencedHas(next, dynamics[1..], before, i - 1);
    }
  }

  lemma BootedAt(found: seq<Record>, advance: bool, m: nat)
    requires |found| <= m < |found| + |Dynamics(found)|
    ensures |Booted(found, advance)| == |found| + |Dynamics(found)| + 1
    ensures Booted(found, advance)[m] == Refenced(found, Dynamics(found), LastBoot(found))[m]
  {
    hide Refenced, Dynamics, LastBoot, BootPayload, LastSequence, Successor;
  }

  /** Nothing dynamic survives a restart as live: once an opening has returned, every attempt
      and every piece of evidence it recovered has a later fence that carries its sequence and
      names the incarnation before. */
  lemma DynamicsAreFenced(found: seq<Record>, advance: bool, i: nat) returns (j: nat)
    requires i < |found| && IsDynamic(found[i].kind)
    ensures |found| <= j < |Booted(found, advance)| && Booted(found, advance)[j].kind.FenceRecord?
    ensures ReadFence(Booted(found, advance)[j].payload)
         == Some(RestartFence(found[i].sequence, LastBoot(found)))
  {
    hide FENCE, RestartFence, ReadFence, LastBoot, Dynamics, Booted, Refenced;
    var before := LastBoot(found);
    DynamicsAre(found, i);
    var k :| 0 <= k < |Dynamics(found)| && Dynamics(found)[k] == found[i];
    RefencedHas(found, Dynamics(found), before, k);
    RestartFenceIsRead(found[i].sequence, before);
    j := |found| + k;
    BootedAt(found, advance, j);
  }

  // ---- Orderly records ------------------------------------------------------

  // Every boot goes on from the one before it, and every fence can be read.
  predicate Orderly(records: seq<Record>) {
    |records| == 0
    || (Orderly(records[..|records| - 1])
        && Follows(records[|records| - 1], LastBoot(records[..|records| - 1])))
  }

  predicate Follows(r: Record, before: Incarnation) {
    && Legible(r)
    && (r.kind.Boot? ==>
          var now := ReadBoot(r.payload).value;
          now == before || (now.epoch == before.epoch + 1 && now.boot == before.boot + 1))
  }

  lemma {:induction false} OrderlyPrefix(records: seq<Record>, k: nat)
    requires Orderly(records) && k <= |records|
    ensures Orderly(records[..k])
  {
    hide Follows;
    if k < |records| {
      OrderlyPrefix(records[..|records| - 1], k);
      assert records[..|records| - 1][..k] == records[..k];
    } else {
      assert records[..k] == records;
    }
  }

  lemma {:induction false} OrderlyLegible(records: seq<Record>)
    requires Orderly(records)
    ensures AllLegible(records)
  {
    hide ReadBoot, ReadFence, LastBoot;
    if |records| > 0 {
      var front := records[..|records| - 1];
      OrderlyLegible(front);
      forall i | 0 <= i < |records|
        ensures Legible(records[i])
      {
        assert i < |front| ==> records[i] == front[i];
      }
    }
  }

  // No more boots than records.
  lemma {:induction false} LastBootBounded(records: seq<Record>)
    requires Orderly(records)
    ensures LastBoot(records).epoch <= |records| && LastBoot(records).boot <= |records|
  {
    hide ReadBoot, ReadFence;
    if |records| > 0 {
      LastBootBounded(records[..|records| - 1]);
    }
  }

  lemma {:induction false} LastBootGrows(records: seq<Record>, k: nat)
    requires Orderly(records) && k <= |records|
    ensures AtLeast(LastBoot(records), LastBoot(records[..k]))
  {
    hide ReadBoot, ReadFence;
    if k < |records| {
      var front := records[..|records| - 1];
      LastBootGrows(front, k);
      assert front[..k] == records[..k];
    } else {
      assert records[..k] == records;
    }
  }

  /** Incarnations over a whole history: a boot that advanced is strictly above every earlier
      boot, in its epoch and in its number. */
  lemma BootsIncrease(records: seq<Record>, i: nat, j: nat)
    requires Orderly(records) && i < j < |records|
    requires records[i].kind.Boot? && records[j].kind.Boot?
    ensures ReadBoot(records[i].payload).Some? && ReadBoot(records[j].payload).Some?
    ensures ReadBoot(records[j].payload).value != LastBoot(records[..j])
            ==> Above(ReadBoot(records[j].payload).value, ReadBoot(records[i].payload).value)
  {
    hide ReadBoot, ReadFence;
    OrderlyPrefix(records, j + 1);
    var upTo := records[..j + 1];
    assert upTo[..j] == records[..j];
    LastBootGrows(records[..j], i + 1);
    assert records[..j][..i + 1] == records[..i + 1];
    assert records[..i + 1][i] == records[i];
    OrderlyLegible(records);
  }

  lemma AppendedOrderly(records: seq<Record>, kind: RecordType, payload: Bytes)
    requires Orderly(records) && Follows(Record(kind, Wrap64(LastSequence(records) + 1), payload), LastBoot(records))
    ensures Orderly(Appended(records, kind, payload))
  {
    hide Follows, LastBoot;
    var r := Record(kind, Wrap64(LastSequence(records) + 1), payload);
    assert (records + [r])[..|records|] == records;
  }

  lemma AppendedBoot(records: seq<Record>, kind: RecordType, payload: Bytes)
    ensures LastBoot(Appended(records, kind, payload))
         == if kind.Boot? && ReadBoot(payload).Some? then ReadBoot(payload).value else LastBoot(records)
    ensures FencesIn(Appended(records, kind, payload))
         == if kind.FenceRecord? && ReadFence(payload).Some? then FencesIn(records) + [ReadFence(payload).value]
            else FencesIn(records)
  {
    hide ReadBoot, ReadFence;
    var r := Record(kind, Wrap64(LastSequence(records) + 1), payload);
    assert (records + [r])[..|records|] == records;
  }

  lemma {:induction false} RefencedOrderly(records: seq<Record>, dynamics: seq<Record>, before: Incarnation)
    requires Orderly(records) && LastBoot(records) == before
    ensures Orderly(Refenced(records, dynamics, before)) && LastBoot(Refenced(records, dynamics, before)) == before
    decreases |dynamics|
  {
    if |dynamics| > 0 {
      hide FENCE, ReadFence, ReadBoot, RestartFence, Orderly, LastBoot;
      var payload := FENCE.encode(RestartFence(dynamics[0].sequence, before));
      RestartFenceIsRead(dynamics[0].sequence, before);
      AppendedOrderly(records, FenceRecord, payload);
      AppendedBoot(records, FenceRecord, payload);
      RefencedOrderly(Appended(records, FenceRecord, payload), dynamics[1..], before);
    }
  }

  /** An opening keeps the records orderly, and the incarnation it leaves behind, when it is to
      advance, is strictly above every earlier one. */
  lemma BootedIsAbove(found: seq<Record>, advance: bool)
    requires Orderly(found) && |found| < TWO_32
    ensures Orderly(Booted(found, advance))
    ensures LastBoot(Booted(found, advance)) == Successor(LastBoot(found), advance)
    ensures advance ==> Above(LastBoot(Booted(found, advance)), LastBoot(found))
  {
    hide ReadFence, ReadBoot, Orderly, LastBoot, Dynamics, Refenced, Appended, BootPayload;
    var before := LastBoot(found);
    var now := Successor(before, advance);
    var fenced := Refenced(found, Dynamics(found), before);
    RefencedOrderly(found, Dynamics(found), before);
    LastBootBounded(found);
    BootIsRead(before, now);
    AppendedOrderly(fenced, Boot, BootPayload(before, now));
    AppendedBoot(fenced, Boot, BootPayload(before, now));
  }

  // What the records say does not depend on more than the records before.
  lemma {:induction false} FencesGrow(records: seq<Record>, k: nat)
    requires k <= |records|
    ensures FencesIn(records[..k]) <= FencesIn(records)
  {
    hide ReadFence;
    if k < |records| {
      var front := records[..|records| - 1];
      FencesGrow(front, k);
      assert front[..k] == records[..k];
    } else {
      assert records[..k] == records;
    }
  }
}
