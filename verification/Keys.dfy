/** The byte key under which the search files a configuration, and its injectivity. */
module Keys {
  import opened Ints
  import opened Domain
  import opened Holds
  import opened Canonical

  function FlagBytes(flags: seq<bool>): Bytes {
    if |flags| == 0 then [] else [BoolByte(flags[0])] + FlagBytes(flags[1..])
  }

  function WordBytes(words: seq<U32>): Bytes {
    if |words| == 0 then [] else U32Bytes(words[0]) + WordBytes(words[1..])
  }

  function Flags(flags: seq<bool>): Bytes {
    U32Bytes(Count(|flags|)) + FlagBytes(flags)
  }

  function Words(words: seq<U32>): Bytes {
    U32Bytes(Count(|words|)) + WordBytes(words)
  }

  function HoldRecord(hold: Hold): Bytes {
    U32Bytes(Count(hold.resource)) + U32Bytes(hold.units) + U32Bytes(hold.remaining)
  }

  function HoldBytes(holds: seq<Hold>): Bytes {
    if |holds| == 0 then [] else HoldRecord(holds[0]) + HoldBytes(holds[1..])
  }

  // The flags, the amounts and the known marks of a state, in the order they are written.
  function FlagPart(s: FabricState): Bytes {
    Flags(s.nodeUp) + Flags(s.linkUp) + Flags(s.restored)
  }

  function AmountPart(s: FabricState): Bytes {
    Words(s.available) + Words(s.reachable) + Words(s.occurrences)
  }

  function KnownPart(s: FabricState): Bytes {
    Flags(s.nodeKnown) + Flags(s.linkKnown) + Flags(s.resourceKnown) + Flags(s.serviceKnown)
  }

  function StateBytes(s: FabricState): Bytes {
    FlagPart(s) + AmountPart(s) + KnownPart(s) + U64Bytes(s.tick)
  }

  function KeyOf(c: Config): Bytes {
    StateBytes(c.state) + (U32Bytes(Count(|c.holds|)) + HoldBytes(c.holds))
  }

  // ---- Writing keys ---------------------------------------------------------

  method WriteFlags(writer: CanonicalWriter, flags: seq<bool>)
    modifies writer
    ensures writer.buffer == old(writer.buffer) + Flags(flags)
  {
    hide U32Bytes;
    writer.WriteU32(Count(|flags|));
    ghost var start := writer.buffer;
    for i := 0 to |flags|
      invariant writer.buffer + FlagBytes(flags[i..]) == start + FlagBytes(flags)
    {
      assert flags[i..][1..] == flags[i + 1..];
      Reassociate(writer.buffer, [BoolByte(flags[i])], FlagBytes(flags[i + 1..]));
      writer.WriteBool(flags[i]);
    }
    assert writer.buffer == writer.buffer + FlagBytes(flags[|flags|..]);
  }

  method WriteWords(writer: CanonicalWriter, words: seq<U32>)
    modifies writer
    ensures writer.buffer == old(writer.buffer) + Words(words)
  {
    hide U32Bytes;
    writer.WriteU32(Count(|words|));
    ghost var start := writer.buffer;
    for i := 0 to |words|
      invariant writer.buffer + WordBytes(words[i..]) == start + WordBytes(words)
    {
      assert words[i..][1..] == words[i + 1..];
      Reassociate(writer.buffer, U32Bytes(words[i]), WordBytes(words[i + 1..]));
      writer.WriteU32(words[i]);
    }
    assert writer.buffer == writer.buffer + WordBytes(words[|words|..]);
  }

  method WriteHold(writer: CanonicalWriter, hold: Hold)
    modifies writer
    ensures writer.buffer == old(writer.buffer) + HoldRecord(hold)
  {
    hide U32Bytes;
    writer.WriteU32(Count(hold.resource));
    writer.WriteU32(hold.units);
    writer.WriteU32(hold.remaining);
  }

  method WriteHolds(writer: CanonicalWriter, holds: seq<Hold>)
    modifies writer
    ensures writer.buffer == old(writer.buffer) + (U32Bytes(Count(|holds|)) + HoldBytes(holds))
  {
    hide U32Bytes;
    hide HoldRecord;
    writer.WriteU32(Count(|holds|));
    ghost var start := writer.buffer;
    for i := 0 to |holds|
      invariant writer.buffer + HoldBytes(holds[i..]) == start + HoldBytes(holds)
    {
      assert holds[i..][1..] == holds[i + 1..];
      Reassociate(writer.buffer, HoldRecord(holds[i]), HoldBytes(holds[i + 1..]));
      WriteHold(writer, holds[i]);
    }
    assert writer.buffer == writer.buffer + HoldBytes(holds[|holds|..]);
  }

  method WriteFlagPart(writer: CanonicalWriter, s: FabricState)
    modifies writer
    ensures writer.buffer == old(writer.buffer) + FlagPart(s)
  {
    hide Flags;
    WriteFlags(writer, s.nodeUp);
    WriteFlags(writer, s.linkUp);
    WriteFlags(writer, s.restored);
  }

  method WriteAmountPart(writer: CanonicalWriter, s: FabricState)
    modifies writer
    ensures writer.buffer == old(writer.buffer) + AmountPart(s)
  {
    hide Words;
    WriteWords(writer, s.available);
    WriteWords(writer, s.reachable);
    WriteWords(writer, s.occurrences);
  }

  method WriteKnownPart(writer: CanonicalWriter, s: FabricState)
    modifies writer
    ensures writer.buffer == old(writer.buffer) + KnownPart(s)
  {
    hide Flags;
    WriteFlags(writer, s.nodeKnown);
    WriteFlags(writer, s.linkKnown);
    WriteFlags(writer, s.resourceKnown);
    WriteFlags(writer, s.serviceKnown);
  }

  /** The key the search computes for a node: its state, then its hold profile. */
  method ComputeKey(c: Config) returns (key: Bytes)
    ensures key == KeyOf(c)
  {
    hide FlagPart;
    hide AmountPart;
    hide KnownPart;
    hide U64Bytes;
    hide U32Bytes;
    hide HoldBytes;
    var writer := new CanonicalWriter();
    WriteFlagPart(writer, c.state);
    WriteAmountPart(writer, c.state);
    WriteKnownPart(writer, c.state);
    writer.WriteU64(c.state.tick);
    WriteHolds(writer, c.holds);
    key := writer.buffer;
  }

  // ---- Injectivity ----------------------------------------------------------

  lemma {:induction false} FlagBytesInjective(a: seq<bool>, b: seq<bool>, r: Bytes, s: Bytes)
    requires |a| == |b| && FlagBytes(a) + r == FlagBytes(b) + s
    ensures a == b && r == s
  {
    if |a| == 0 {
      assert FlagBytes(a) + r == r && FlagBytes(b) + s == s;
    } else {
      Reassociate([BoolByte(a[0])], FlagBytes(a[1..]), r);
      Reassociate([BoolByte(b[0])], FlagBytes(b[1..]), s);
      StripSame([BoolByte(a[0])], [BoolByte(b[0])], FlagBytes(a[1..]) + r, FlagBytes(b[1..]) + s);
      FlagBytesInjective(a[1..], b[1..], r, s);
      assert a == [a[0]] + a[1..] && b == [b[0]] + b[1..];
    }
  }

  lemma {:induction false} WordBytesInjective(a: seq<U32>, b: seq<U32>, r: Bytes, s: Bytes)
    requires |a| == |b| && WordBytes(a) + r == WordBytes(b) + s
    ensures a == b && r == s
  {
    hide U32Bytes;
    if |a| == 0 {
      assert WordBytes(a) + r == r && WordBytes(b) + s == s;
    } else {
      Reassociate(U32Bytes(a[0]), WordBytes(a[1..]), r);
      Reassociate(U32Bytes(b[0]), WordBytes(b[1..]), s);
      StripU32(a[0], b[0], WordBytes(a[1..]) + r, WordBytes(b[1..]) + s);
      WordBytesInjective(a[1..], b[1..], r, s);
      assert a == [a[0]] + a[1..] && b == [b[0]] + b[1..];
    }
  }

  lemma StripCount(m: nat, n: nat, r: Bytes, s: Bytes)
    requires m < TWO_32 && n < TWO_32
    requires U32Bytes(Count(m)) + r == U32Bytes(Count(n)) + s
    ensures m == n && r == s
  {
    hide U32Bytes;
    StripU32(Count(m), Count(n), r, s);
  }

  lemma StripFlags(a: seq<bool>, b: seq<bool>, r: Bytes, s: Bytes)
    requires |a| < TWO_32 && |b| < TWO_32
    requires Flags(a) + r == Flags(b) + s
    ensures a == b && r == s
  {
    hide U32Bytes;
    hide FlagBytes;
    Reassociate(U32Bytes(Count(|a|)), FlagBytes(a), r);
    Reassociate(U32Bytes(Count(|b|)), FlagBytes(b), s);
    StripCount(|a|, |b|, FlagBytes(a) + r, FlagBytes(b) + s);
    FlagBytesInjective(a, b, r, s);
  }

  lemma StripWords(a: seq<U32>, b: seq<U32>, r: Bytes, s: Bytes)
    requires |a| < TWO_32 && |b| < TWO_32
    requires Words(a) + r == Words(b) + s
    ensures a == b && r == s
  {
    hide U32Bytes;
    hide WordBytes;
    Reassociate(U32Bytes(Count(|a|)), WordBytes(a), r);
    Reassociate(U32Bytes(Count(|b|)), WordBytes(b), s);
    StripCount(|a|, |b|, WordBytes(a) + r, WordBytes(b) + s);
    WordBytesInjective(a, b, r, s);
  }

  lemma StripHold(g: Hold, h: Hold, r: Bytes, s: Bytes)
    requires g.resource < TWO_32 && h.resource < TWO_32
    requires HoldRecord(g) + r == HoldRecord(h) + s
    ensures g == h && r == s
  {
    hide U32Bytes;
    var gr, hr := U32Bytes(g.remaining) + r, U32Bytes(h.remaining) + s;
    var gu, hu := U32Bytes(g.units) + gr, U32Bytes(h.units) + hr;
    assert HoldRecord(g) + r == U32Bytes(Count(g.resource)) + gu;
    assert HoldRecord(h) + s == U32Bytes(Count(h.resource)) + hu;
    StripCount(g.resource, h.resource, gu, hu);
    StripU32(g.units, h.units, gr, hr);
    StripU32(g.remaining, h.remaining, r, s);
  }

  lemma {:induction false} HoldBytesInjective(a: seq<Hold>, b: seq<Hold>)
    requires HoldBytes(a) == HoldBytes(b)
    requires forall i :: 0 <= i < |a| ==> a[i].resource < TWO_32
    requires forall i :: 0 <= i < |b| ==> b[i].resource < TWO_32
    ensures a == b
  {
    hide HoldRecord;
    if |a| > 0 && |b| > 0 {
      StripHold(a[0], b[0], HoldBytes(a[1..]), HoldBytes(b[1..]));
      HoldBytesInjective(a[1..], b[1..]);
      assert a == [a[0]] + a[1..] && b == [b[0]] + b[1..];
    } else {
      HoldRecordSize(a);
      HoldRecordSize(b);
    }
  }

  lemma HoldRecordSize(holds: seq<Hold>)
    ensures |holds| > 0 ==> |HoldBytes(holds)| >= 12
  {
    hide U32Bytes;
    if |holds| > 0 {
      assert |HoldRecord(holds[0])| == 12;
    }
  }

  // Every index and every list length the key writes is within 32 bits.  The number of
  // holds needs no such bound: the length of the key gives it away.
  predicate Representable(c: Config) {
    && ListsFit(c.state)
    && forall i :: 0 <= i < |c.holds| ==> c.holds[i].resource < TWO_32
  }

  predicate ListsFit(s: FabricState) {
    && |s.nodeUp| < TWO_32 && |s.linkUp| < TWO_32 && |s.restored| < TWO_32
    && |s.available| < TWO_32 && |s.reachable| < TWO_32 && |s.occurrences| < TWO_32
    && |s.nodeKnown| < TWO_32 && |s.linkKnown| < TWO_32 && |s.resourceKnown| < TWO_32
    && |s.serviceKnown| < TWO_32
  }

  lemma StripFlagPart(x: FabricState, y: FabricState, r: Bytes, q: Bytes)
    requires ListsFit(x) && ListsFit(y)
    requires FlagPart(x) + r == FlagPart(y) + q
    ensures x.nodeUp == y.nodeUp && x.linkUp == y.linkUp && x.restored == y.restored && r == q
  {
    hide Flags;
    var x2, y2 := Flags(x.restored) + r, Flags(y.restored) + q;
    var x1, y1 := Flags(x.linkUp) + x2, Flags(y.linkUp) + y2;
    assert FlagPart(x) + r == Flags(x.nodeUp) + x1;
    assert FlagPart(y) + q == Flags(y.nodeUp) + y1;
    StripFlags(x.nodeUp, y.nodeUp, x1, y1);
    StripFlags(x.linkUp, y.linkUp, x2, y2);
    StripFlags(x.restored, y.restored, r, q);
  }

  lemma StripAmountPart(x: FabricState, y: FabricState, r: Bytes, q: Bytes)
    requires ListsFit(x) && ListsFit(y)
    requires AmountPart(x) + r == AmountPart(y) + q
    ensures x.available == y.available && x.reachable == y.reachable && x.occurrences == y.occurrences && r == q
  {
    hide Words;
    var x2, y2 := Words(x.occurrences) + r, Words(y.occurrences) + q;
    var x1, y1 := Words(x.reachable) + x2, Words(y.reachable) + y2;
    assert AmountPart(x) + r == Words(x.available) + x1;
    assert AmountPart(y) + q == Words(y.available) + y1;
    StripWords(x.available, y.available, x1, y1);
    StripWords(x.reachable, y.reachable, x2, y2);
    StripWords(x.occurrences, y.occurrences, r, q);
  }

  lemma StripKnownPart(x: FabricState, y: FabricState, r: Bytes, q: Bytes)
    requires ListsFit(x) && ListsFit(y)
    requires KnownPart(x) + r == KnownPart(y) + q
    ensures x.nodeKnown == y.nodeKnown && x.linkKnown == y.linkKnown
    ensures x.resourceKnown == y.resourceKnown && x.serviceKnown == y.serviceKnown && r == q
  {
    hide Flags;
    var x3, y3 := Flags(x.serviceKnown) + r, Flags(y.serviceKnown) + q;
    var x2, y2 := Flags(x.resourceKnown) + x3, Flags(y.resourceKnown) + y3;
    var x1, y1 := Flags(x.linkKnown) + x2, Flags(y.linkKnown) + y2;
    assert KnownPart(x) + r == Flags(x.nodeKnown) + x1;
    assert KnownPart(y) + q == Flags(y.nodeKnown) + y1;
    StripFlags(x.nodeKnown, y.nodeKnown, x1, y1);
    StripFlags(x.linkKnown, y.linkKnown, x2, y2);
    StripFlags(x.resourceKnown, y.resourceKnown, x3, y3);
    StripFlags(x.serviceKnown, y.serviceKnown, r, q);
  }

  lemma StripState(x: FabricState, y: FabricState, r: Bytes, q: Bytes)
    requires ListsFit(x) && ListsFit(y)
    requires StateBytes(x) + r == StateBytes(y) + q
    ensures x == y && r == q
  {
    hide FlagPart;
    hide AmountPart;
    hide KnownPart;
    hide U64Bytes;
    var x3, y3 := U64Bytes(x.tick) + r, U64Bytes(y.tick) + q;
    var x2, y2 := KnownPart(x) + x3, KnownPart(y) + y3;
    var x1, y1 := AmountPart(x) + x2, AmountPart(y) + y2;
    assert StateBytes(x) + r == FlagPart(x) + x1;
    assert StateBytes(y) + q == FlagPart(y) + y1;
    StripFlagPart(x, y, x1, y1);
    StripAmountPart(x, y, x2, y2);
    StripKnownPart(x, y, x3, y3);
    StripU64(x.tick, y.tick, r, q);
  }

  /** Two configurations share a key only when they are the same configuration. */
  lemma KeyInjective(c: Config, d: Config)
    requires Representable(c) && Representable(d)
    requires KeyOf(c) == KeyOf(d)
    ensures c == d
  {
    hide StateBytes;
    hide U32Bytes;
    hide HoldBytes;
    StripState(c.state, d.state, U32Bytes(Count(|c.holds|)) + HoldBytes(c.holds),
               U32Bytes(Count(|d.holds|)) + HoldBytes(d.holds));
    StripSame(U32Bytes(Count(|c.holds|)), U32Bytes(Count(|d.holds|)), HoldBytes(c.holds), HoldBytes(d.holds));
    HoldBytesInjective(c.holds, d.holds);
  }
}
