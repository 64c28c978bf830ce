/** The canonical byte encoding: fixed-width little-endian integers, length-prefixed
    lists, an append-only writer and a bounds-checked reader with sticky failure. */
module Canonical {
  import opened Ints

  type Bytes = seq<U8>

  function Pow256(n: nat): (p: nat)
    ensures p > 0
  {
    if n == 0 then 1 else 256 * Pow256(n - 1)
  }

  lemma Widths()
    ensures Pow256(1) == 256
    ensures Pow256(2) == 0x1_0000
    ensures Pow256(4) == 0x1_0000_0000
    ensures Pow256(8) == 0x1_0000_0000_0000_0000
  {
    assert Pow256(1) == 256 * Pow256(0);
    assert Pow256(3) == 256 * Pow256(2);
    assert Pow256(5) == 256 * Pow256(4);
    assert Pow256(6) == 256 * Pow256(5);
    assert Pow256(7) == 256 * Pow256(6);
  }

  // The n low bytes of x, least significant first.
  function LittleEndian(x: nat, n: nat): (b: Bytes)
    ensures |b| == n
    decreases n
  {
    if n == 0 then [] else [x % 256] + LittleEndian(x / 256, n - 1)
  }

  function Value(b: Bytes): nat {
    if |b| == 0 then 0 else b[0] + 256 * Value(b[1..])
  }

  lemma {:induction false} ValueOfLittleEndian(x: nat, n: nat)
    requires x < Pow256(n)
    ensures Value(LittleEndian(x, n)) == x
    decreases n
  {
    if n > 0 {
      assert x / 256 < Pow256(n - 1);
      ValueOfLittleEndian(x / 256, n - 1);
      assert LittleEndian(x, n)[1..] == LittleEndian(x / 256, n - 1);
    }
  }

  lemma {:induction false} LittleEndianOfValue(b: Bytes)
    ensures Value(b) < Pow256(|b|)
    ensures LittleEndian(Value(b), |b|) == b
  {
    if |b| > 0 {
      LittleEndianOfValue(b[1..]);
      assert Value(b) % 256 == b[0] && Value(b) / 256 == Value(b[1..]);
      assert b == [b[0]] + b[1..];
    }
  }

  function U16Bytes(x: U16): (b: Bytes)
    ensures |b| == 2
  {
    LittleEndian(x, 2)
  }

  function U32Bytes(x: U32): (b: Bytes)
    ensures |b| == 4
  {
    LittleEndian(x, 4)
  }

  function U64Bytes(x: U64): (b: Bytes)
    ensures |b| == 8
  {
    LittleEndian(x, 8)
  }

  function BoolByte(x: bool): U8 {
    if x then 1 else 0
  }

  // The low 32 bits, which is what a narrowing cast of a length keeps.
  function Count(n: nat): U32 {
    n % 0x1_0000_0000
  }

  // Equal encodings that start with equally long fields agree on the field and on the rest.
  lemma StripSame(a: Bytes, b: Bytes, r: Bytes, s: Bytes)
    requires |a| == |b| && a + r == b + s
    ensures a == b && r == s
  {
    assert a == (a + r)[..|a|] && b == (b + s)[..|b|];
    assert r == (a + r)[|a|..] && s == (b + s)[|b|..];
  }

  lemma StripInteger(x: nat, y: nat, n: nat, r: Bytes, s: Bytes)
    requires x < Pow256(n) && y < Pow256(n)
    requires LittleEndian(x, n) + r == LittleEndian(y, n) + s
    ensures x == y && r == s
  {
    StripSame(LittleEndian(x, n), LittleEndian(y, n), r, s);
    ValueOfLittleEndian(x, n);
    ValueOfLittleEndian(y, n);
  }

  lemma StripU32(x: U32, y: U32, r: Bytes, s: Bytes)
    requires U32Bytes(x) + r == U32Bytes(y) + s
    ensures x == y && r == s
  {
    hide LittleEndian;
    Widths();
    StripInteger(x, y, 4, r, s);
  }

  lemma StripU64(x: U64, y: U64, r: Bytes, s: Bytes)
    requires U64Bytes(x) + r == U64Bytes(y) + s
    ensures x == y && r == s
  {
    hide LittleEndian;
    Widths();
    StripInteger(x, y, 8, r, s);
  }

  lemma Reassociate(a: Bytes, b: Bytes, c: Bytes)
    ensures (a + b) + c == a + (b + c)
  {
  }

  // ---- Writer ---------------------------------------------------------------

  class CanonicalWriter {
    var buffer: Bytes

    constructor ()
      ensures buffer == []
    {
      buffer := [];
    }

    method WriteInteger(value: nat, width: nat)
      modifies this
      ensures buffer == old(buffer) + LittleEndian(value, width)
    {
      var rest := value;
      for i := 0 to width
        invariant buffer + LittleEndian(rest, width - i) == old(buffer) + LittleEndian(value, width)
      {
        ghost var before := buffer;
        buffer := buffer + [rest % 256];
        assert before + LittleEndian(rest, width - i) == buffer + LittleEndian(rest / 256, width - i - 1);
        rest := rest / 256;
      }
      assert buffer == buffer + LittleEndian(rest, 0);
    }

    method WriteU8(value: U8)
      modifies this
      ensures buffer == old(buffer) + [value]
    {
      buffer := buffer + [value];
    }

    method WriteU32(value: U32)
      modifies this
      ensures buffer == old(buffer) + U32Bytes(value)
    {
      WriteInteger(value, 4);
    }

    method WriteU64(value: U64)
      modifies this
      ensures buffer == old(buffer) + U64Bytes(value)
    {
      WriteInteger(value, 8);
    }

    method WriteI64(value: I64)
      modifies this
      ensures buffer == old(buffer) + U64Bytes(AsUnsigned(value))
    {
      WriteInteger(AsUnsigned(value), 8);
    }

    method WriteBool(value: bool)
      modifies this
      ensures buffer == old(buffer) + [BoolByte(value)]
    {
      buffer := buffer + [BoolByte(value)];
    }

    method WriteBytes(value: Bytes)
      modifies this
      ensures buffer == old(buffer) + U32Bytes(Count(|value|)) + value
    {
      WriteInteger(Count(|value|), 4);
      buffer := buffer + value;
    }
  }
}
