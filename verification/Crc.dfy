/** CRC-32 as the store computes it, with a table, and as IEEE 802.3 defines it, bit by bit on
    a reflected register. */
module Crc {
  import opened Ints
  import opened Canonical

  const POLYNOMIAL: bv32 := 0xEDB8_8320
  const ALL_ONES: bv32 := 0xFFFF_FFFF

  // ---- The definition: one bit, one byte, a whole message -------------------

  function Xor(x: bv32, y: bv32): bv32 {
    x ^ y
  }

  function Half(x: bv32): bv32 {
    x >> 1
  }

  predicate LowBit(x: bv32) {
    x & 1 != 0
  }

  // Shifts the register by one bit; the polynomial is added when a one falls out.
  function Shift(register: bv32): bv32 {
    if LowBit(register) then Xor(POLYNOMIAL, Half(register)) else Half(register)
  }

  function Shifts(register: bv32, n: nat): bv32
    decreases n
  {
    if n == 0 then register else Shifts(Shift(register), n - 1)
  }

  predicate Odd(n: nat) {
    n % 2 == 1
  }

  function Halved(n: nat, k: nat): nat {
    if k == 0 then n else Halved(n, k - 1) / 2
  }

  predicate BitOf(n: nat, k: nat) {
    Odd(Halved(n, k))
  }

  function Pick(on: bool, mask: bv32): bv32 {
    if on then mask else 0
  }

  function Join(a: bool, b: bool, c: bool, d: bool, e: bool, f: bool, g: bool, h: bool): bv32 {
    Pick(a, 1) | Pick(b, 2) | Pick(c, 4) | Pick(d, 8) | Pick(e, 16) | Pick(f, 32) | Pick(g, 64) | Pick(h, 128)
  }

  // A byte at the low end of an empty register.
  function Low(b: U8): bv32 {
    Join(BitOf(b, 0), BitOf(b, 1), BitOf(b, 2), BitOf(b, 3), BitOf(b, 4), BitOf(b, 5), BitOf(b, 6), BitOf(b, 7))
  }

  // The register after one more byte: its bits enter at the low end.
  function Absorb(register: bv32, b: U8): bv32 {
    Shifts(Xor(register, Low(b)), 8)
  }

  function Register(data: Bytes, start: bv32): bv32 {
    if |data| == 0 then start else Absorb(Register(data[..|data| - 1], start), data[|data| - 1])
  }

  function Checksum(data: Bytes): U32 {
    Xor(Register(data, ALL_ONES), ALL_ONES) as int
  }

  // ---- The step loses nothing -----------------------------------------------

  // The highest bit of the shifted register is the bit that fell out.
  lemma ShiftInjective(x: bv32, y: bv32)
    requires Shift(x) == Shift(y)
    ensures x == y
  {
  }

  lemma {:induction false} ShiftsInjective(x: bv32, y: bv32, n: nat)
    requires Shifts(x, n) == Shifts(y, n)
    ensures x == y
    decreases n
  {
    hide Shift;
    if n > 0 {
      ShiftsInjective(Shift(x), Shift(y), n - 1);
      ShiftInjective(x, y);
    }
  }

  lemma XorCancels(x: bv32, y: bv32, z: bv32)
    ensures Xor(x, z) == Xor(y, z) ==> x == y
    ensures Xor(z, x) == Xor(z, y) ==> x == y
  {
  }

  predicate Has(x: bv32, mask: bv32) {
    x & mask != 0
  }

  lemma JoinInjective(a: bool, b: bool, c: bool, d: bool, e: bool, f: bool, g: bool, h: bool)
    ensures var x := Join(a, b, c, d, e, f, g, h);
            && a == Has(x, 1) && b == Has(x, 2) && c == Has(x, 4) && d == Has(x, 8)
            && e == Has(x, 16) && f == Has(x, 32) && g == Has(x, 64) && h == Has(x, 128)
            && x <= 0xFF
  {
  }

  lemma SameParts(n: nat, m: nat, k: nat)
    requires Halved(n, k + 1) == Halved(m, k + 1) && BitOf(n, k) == BitOf(m, k)
    ensures Halved(n, k) == Halved(m, k)
  {
  }

  lemma {:induction false} HalvedAway(n: nat, k: nat, bound: nat)
    requires n < bound && bound == Two(k)
    ensures Halved(n, k) == 0
  {
    HalvedBelow(n, k, 0);
  }

  function Two(k: nat): nat {
    if k == 0 then 1 else 2 * Two(k - 1)
  }

  lemma {:induction false} HalvedBelow(n: nat, k: nat, j: nat)
    requires n < Two(k + j)
    ensures Halved(n, k) < Two(j)
    decreases k
  {
    if k > 0 {
      HalvedBelow(n, k - 1, j + 1);
    }
  }

  lemma BytesHalvedAway(b: U8)
    ensures Halved(b, 8) == 0
  {
    assert Two(4) == 16;
    assert Two(8) == 256;
    HalvedAway(b, 8, 256);
  }

  lemma SameBitsSameByte(a: U8, b: U8)
    requires BitOf(a, 0) == BitOf(b, 0) && BitOf(a, 1) == BitOf(b, 1) && BitOf(a, 2) == BitOf(b, 2)
    requires BitOf(a, 3) == BitOf(b, 3) && BitOf(a, 4) == BitOf(b, 4) && BitOf(a, 5) == BitOf(b, 5)
    requires BitOf(a, 6) == BitOf(b, 6) && BitOf(a, 7) == BitOf(b, 7)
    ensures a == b
  {
    BytesHalvedAway(a);
    BytesHalvedAway(b);
    hide BitOf;
    SameParts(a, b, 7);
    SameParts(a, b, 6);
    SameParts(a, b, 5);
    SameParts(a, b, 4);
    SameParts(a, b, 3);
    SameParts(a, b, 2);
    SameParts(a, b, 1);
    SameParts(a, b, 0);
  }

  lemma BitsOfLow(b: U8)
    ensures BitOf(b, 0) == Has(Low(b), 1) && BitOf(b, 1) == Has(Low(b), 2) && BitOf(b, 2) == Has(Low(b), 4)
    ensures BitOf(b, 3) == Has(Low(b), 8) && BitOf(b, 4) == Has(Low(b), 16) && BitOf(b, 5) == Has(Low(b), 32)
    ensures BitOf(b, 6) == Has(Low(b), 64) && BitOf(b, 7) == Has(Low(b), 128)
    ensures Low(b) <= 0xFF
  {
    hide Join, BitOf, Has;
    JoinInjective(BitOf(b, 0), BitOf(b, 1), BitOf(b, 2), BitOf(b, 3), BitOf(b, 4), BitOf(b, 5), BitOf(b, 6),
                  BitOf(b, 7));
  }

  lemma LowInjective(a: U8, b: U8)
    requires Low(a) == Low(b)
    ensures a == b
  {
    hide Low, BitOf, Has;
    BitsOfLow(a);
    BitsOfLow(b);
    SameBitsSameByte(a, b);
  }

  /** Equal registers after a byte were equal before it, and came from equal bytes if the
      registers before were equal. */
  lemma AbsorbInjective(x: bv32, y: bv32, a: U8, b: U8)
    requires Absorb(x, a) == Absorb(y, b)
    ensures a == b ==> x == y
    ensures x == y ==> a == b
  {
    hide Shifts, Low, Xor;
    ShiftsInjective(Xor(x, Low(a)), Xor(y, Low(b)), 8);
    if a == b {
      XorCancels(x, y, Low(a));
    }
    if x == y {
      XorCancels(Low(a), Low(b), x);
      LowInjective(a, b);
    }
  }

  lemma {:induction false} RegisterAppend(x: Bytes, y: Bytes, start: bv32)
    ensures Register(x + y, start) == Register(y, Register(x, start))
    decreases |y|
  {
    hide Absorb;
    if |y| == 0 {
      assert x + y == x;
    } else {
      RegisterAppend(x, y[..|y| - 1], start);
      assert (x + y)[..|x + y| - 1] == x + y[..|y| - 1];
    }
  }

  lemma {:induction false} RegisterInjective(data: Bytes, x: bv32, y: bv32)
    requires Register(data, x) == Register(data, y)
    ensures x == y
    decreases |data|
  {
    hide Absorb;
    if |data| > 0 {
      var init, last := data[..|data| - 1], data[|data| - 1];
      AbsorbInjective(Register(init, x), Register(init, y), last, last);
      RegisterInjective(init, x, y);
    }
  }

  lemma NumberInjective(a: bv32, b: bv32)
    requires a as int == b as int
    ensures a == b
  {
    assert (a as int) as bv32 == a;
    assert (b as int) as bv32 == b;
  }

  lemma ChecksumInjective(x: bv32, y: bv32)
    requires Xor(x, ALL_ONES) as int == Xor(y, ALL_ONES) as int
    ensures x == y
  {
    hide Xor;
    NumberInjective(Xor(x, ALL_ONES), Xor(y, ALL_ONES));
    XorCancels(x, y, ALL_ONES);
  }

  /** Changing any one byte of a message changes its checksum. */
  lemma ByteChangeDetected(data: Bytes, i: nat, b: U8)
    requires i < |data| && b != data[i]
    ensures Checksum(data[i := b]) != Checksum(data)
  {
    hide Absorb, Register, Xor;
    var changed := data[i := b];
    var before, after := data[..i], data[i + 1..];
    assert data == before + [data[i]] + after;
    assert changed == before + [b] + after;
    RegisterAppend(before + [data[i]], after, ALL_ONES);
    RegisterAppend(before + [b], after, ALL_ONES);
    LastByte(before, data[i]);
    LastByte(before, b);
    var here := Register(before, ALL_ONES);
    if Checksum(changed) == Checksum(data) {
      ChecksumInjective(Register(changed, ALL_ONES), Register(data, ALL_ONES));
      RegisterInjective(after, Absorb(here, b), Absorb(here, data[i]));
      AbsorbInjective(here, here, b, data[i]);
    }
  }

  lemma LastByte(data: Bytes, b: U8)
    ensures Register(data + [b], ALL_ONES) == Absorb(Register(data, ALL_ONES), b)
  {
    hide Absorb;
    assert (data + [b])[..|data + [b]| - 1] == data;
  }

  // ---- Eight shifts at once -------------------------------------------------

  lemma XorAssociates(x: bv32, y: bv32, z: bv32)
    ensures Xor(x, Xor(y, z)) == Xor(Xor(x, y), z)
  {
  }

  lemma XorCommutes(x: bv32, y: bv32)
    ensures Xor(x, y) == Xor(y, x)
  {
  }

  lemma XorUndoes(x: bv32, y: bv32)
    ensures Xor(x, Xor(x, y)) == y
  {
  }

  lemma XorHalves(x: bv32, y: bv32)
    ensures Half(Xor(x, y)) == Xor(Half(x), Half(y))
    ensures LowBit(Xor(x, y)) == (LowBit(x) != LowBit(y))
  {
  }

  // Adding up and shifting commute.
  lemma ShiftLinear(x: bv32, y: bv32)
    ensures Shift(Xor(x, y)) == Xor(Shift(x), Shift(y))
  {
    hide Xor, Half, LowBit;
    var p, a, b := POLYNOMIAL, Half(x), Half(y);
    XorHalves(x, y);
    if LowBit(x) && LowBit(y) {
      XorCommutes(Xor(p, a), Xor(p, b));
      XorAssociates(Xor(p, b), p, a);
      XorCommutes(Xor(p, b), p);
      XorUndoes(p, b);
      XorCommutes(a, b);
    } else if LowBit(x) {
      XorAssociates(p, a, b);
    } else if LowBit(y) {
      XorAssociates(a, p, b);
      XorCommutes(a, p);
      XorAssociates(p, a, b);
    }
  }

  lemma {:induction false} ShiftsLinear(x: bv32, y: bv32, n: nat)
    ensures Shifts(Xor(x, y), n) == Xor(Shifts(x, n), Shifts(y, n))
    decreases n
  {
    hide Shift, Xor;
    if n > 0 {
      ShiftLinear(x, y);
      ShiftsLinear(Shift(x), Shift(y), n - 1);
    }
  }

  function LowByte(x: bv32): bv32 {
    x & 0xFF
  }

  function HighBytes(x: bv32): bv32 {
    x & 0xFFFF_FF00
  }

  function Dropped(x: bv32): bv32 {
    x >> 8
  }

  function Halves(x: bv32, n: nat): bv32
    decreases n
  {
    if n == 0 then x else Halves(Half(x), n - 1)
  }

  predicate Clear(x: bv32, mask: bv32) {
    x & mask == 0
  }

  // The mask has ones in its n lowest bits.
  predicate Masks(mask: bv32, n: nat)
    decreases n
  {
    n == 0 || (LowBit(mask) && Masks(Half(mask), n - 1))
  }

  // Under a mask of zero bits a zero falls out, and one bit fewer is masked.
  lemma ClearStep(x: bv32, mask: bv32)
    requires Clear(x, mask) && LowBit(mask)
    ensures !LowBit(x) && Clear(Half(x), Half(mask))
  {
  }

  // No polynomial is added while only zeros fall out.
  lemma {:induction false} ClearShifts(x: bv32, mask: bv32, n: nat)
    requires Clear(x, mask) && Masks(mask, n)
    ensures Shifts(x, n) == Halves(x, n)
    decreases n
  {
    hide LowBit, Half, Xor, Clear;
    if n > 0 {
      ClearStep(x, mask);
      ClearShifts(Half(x), Half(mask), n - 1);
    }
  }

  lemma {:induction false} HalvesSplit(x: bv32, n: nat, m: nat)
    ensures Halves(x, n + m) == Halves(Halves(x, n), m)
    decreases n
  {
    hide Half;
    if n > 0 {
      HalvesSplit(Half(x), n - 1, m);
    }
  }

  lemma HalvesStep(x: bv32, n: nat)
    ensures Halves(x, n + 1) == Halves(Half(x), n)
    ensures Halves(x, 0) == x
  {
  }

  function Quarter(x: bv32): bv32 {
    x >> 2
  }

  lemma HalfOfHalf(x: bv32)
    ensures Half(Half(x)) == Quarter(x)
  {
  }

  lemma TwoHalves(x: bv32)
    ensures Halves(x, 2) == Quarter(x)
  {
    hide Halves, Half, Quarter;
    HalvesStep(x, 1);
    HalvesStep(Half(x), 0);
    HalvesStep(Half(Half(x)), 0);
    HalfOfHalf(x);
  }

  lemma FourQuarters(x: bv32)
    ensures Quarter(Quarter(Quarter(Quarter(x)))) == Dropped(x)
  {
  }

  lemma EightHalves(x: bv32)
    ensures Halves(x, 8) == Dropped(x)
  {
    hide Halves, Quarter, Dropped;
    var a := Quarter(x);
    var b := Quarter(a);
    var c := Quarter(b);
    HalvesSplit(x, 2, 6);
    HalvesSplit(a, 2, 4);
    HalvesSplit(b, 2, 2);
    TwoHalves(x);
    TwoHalves(a);
    TwoHalves(b);
    TwoHalves(c);
    FourQuarters(x);
  }

  lemma ByteMask()
    ensures Masks(0xFF, 8)
  {
    assert Half(0xFF) == 0x7F && Half(0x7F) == 0x3F && Half(0x3F) == 0x1F && Half(0x1F) == 0xF;
    assert Half(0xF) == 7 && Half(7) == 3 && Half(3) == 1;
    assert LowBit(0xFF) && LowBit(0x7F) && LowBit(0x3F) && LowBit(0x1F) && LowBit(0xF) && LowBit(7) && LowBit(3);
    assert Masks(1, 1);
    assert Masks(3, 2);
    assert Masks(7, 3);
    assert Masks(0xF, 4);
    assert Masks(0x1F, 5);
    assert Masks(0x3F, 6);
    assert Masks(0x7F, 7);
  }

  lemma HighBytesClear(x: bv32)
    ensures Clear(HighBytes(x), 0xFF) && Dropped(HighBytes(x)) == Dropped(x)
  {
  }

  lemma HighBitsShift(x: bv32)
    ensures Shifts(HighBytes(x), 8) == Dropped(x)
  {
    hide Shifts, Halves, HighBytes, Dropped, Clear, Masks;
    HighBytesClear(x);
    ByteMask();
    ClearShifts(HighBytes(x), 0xFF, 8);
    EightHalves(HighBytes(x));
  }

  lemma SplitRegister(x: bv32)
    ensures x == Xor(LowByte(x), HighBytes(x))
  {
  }

  lemma ByteLeavesHighBits(register: bv32, low: bv32)
    requires low <= 0xFF
    ensures Dropped(Xor(register, low)) == Dropped(register)
  {
  }

  /** One table lookup does the work of eight shifts. */
  lemma LookupIsAbsorb(register: bv32, b: U8)
    ensures Absorb(register, b) == Xor(Shifts(LowByte(Xor(register, Low(b))), 8), Dropped(register))
  {
    hide Shifts, Low, Xor, LowByte, HighBytes, Dropped;
    var x := Xor(register, Low(b));
    BitsOfLow(b);
    SplitRegister(x);
    ByteLeavesHighBits(register, Low(b));
    ShiftsLinear(LowByte(x), HighBytes(x), 8);
    HighBitsShift(x);
  }

  // ---- The index of an entry ------------------------------------------------

  function Below(x: bv32, k: nat): bv32 {
    if k == 0 then x else Half(Below(x, k - 1))
  }

  lemma HalfIsHalved(x: bv32)
    requires x <= 0xFF
    ensures Half(x) as int == (x as int) / 2
  {
  }

  lemma HalfIsByte(x: bv32)
    requires x <= 0xFF
    ensures Half(x) <= 0xFF
  {
  }

  lemma OddIsLowBit(x: bv32)
    requires x <= 0xFF
    ensures Odd(x as int) <==> LowBit(x)
  {
  }

  lemma {:induction false} BelowIsHalved(x: bv32, k: nat)
    requires x <= 0xFF
    ensures Below(x, k) <= 0xFF && Below(x, k) as int == Halved(x as int, k)
    ensures BitOf(x as int, k) == LowBit(Below(x, k))
  {
    hide LowBit, Half, Odd;
    if k > 0 {
      BelowIsHalved(x, k - 1);
      HalfIsHalved(Below(x, k - 1));
      HalfIsByte(Below(x, k - 1));
    }
    OddIsLowBit(Below(x, k));
  }

  lemma JoinBits(a: bv32, b: bv32, c: bv32, d: bv32, e: bv32, f: bv32, g: bv32, h: bv32)
    requires b == Half(a) && c == Half(b) && d == Half(c) && e == Half(d) && f == Half(e) && g == Half(f)
             && h == Half(g)
    requires a <= 0xFF
    ensures Join(LowBit(a), LowBit(b), LowBit(c), LowBit(d), LowBit(e), LowBit(f), LowBit(g), LowBit(h)) == a
  {
  }

  lemma BelowStep(x: bv32, k: nat)
    ensures Below(x, 0) == x && Below(x, k + 1) == Half(Below(x, k))
  {
  }

  lemma JoinBelow(x: bv32)
    requires x <= 0xFF
    ensures Join(LowBit(Below(x, 0)), LowBit(Below(x, 1)), LowBit(Below(x, 2)), LowBit(Below(x, 3)),
                 LowBit(Below(x, 4)), LowBit(Below(x, 5)), LowBit(Below(x, 6)), LowBit(Below(x, 7))) == x
  {
    hide Join, LowBit, Half, Below;
    BelowStep(x, 0);
    BelowStep(x, 1);
    BelowStep(x, 2);
    BelowStep(x, 3);
    BelowStep(x, 4);
    BelowStep(x, 5);
    BelowStep(x, 6);
    JoinBits(Below(x, 0), Below(x, 1), Below(x, 2), Below(x, 3), Below(x, 4), Below(x, 5), Below(x, 6), Below(x, 7));
  }

  lemma ByteIsSmall(x: bv32)
    ensures LowByte(x) <= 0xFF && LowByte(x) as int < 256
  {
  }

  lemma SameBit(x: bv32, n: U8, k: nat)
    requires x <= 0xFF && n == x as int
    ensures BitOf(n, k) == LowBit(Below(x, k))
  {
    hide BitOf, LowBit, Below;
    BelowIsHalved(x, k);
  }

  lemma LowFromBits(x: bv32, n: U8)
    requires x <= 0xFF
    requires BitOf(n, 0) == LowBit(Below(x, 0)) && BitOf(n, 1) == LowBit(Below(x, 1))
    requires BitOf(n, 2) == LowBit(Below(x, 2)) && BitOf(n, 3) == LowBit(Below(x, 3))
    requires BitOf(n, 4) == LowBit(Below(x, 4)) && BitOf(n, 5) == LowBit(Below(x, 5))
    requires BitOf(n, 6) == LowBit(Below(x, 6)) && BitOf(n, 7) == LowBit(Below(x, 7))
    ensures Low(n) == x
  {
    hide BitOf, LowBit, Below, Join;
    JoinBelow(x);
  }

  // A register that holds only a byte is that byte.
  lemma LowOfByte(x: bv32, n: U8)
    requires x <= 0xFF && n == x as int
    ensures Low(n) == x
  {
    hide Low, BitOf, LowBit, Below;
    SameBit(x, n, 0);
    SameBit(x, n, 1);
    SameBit(x, n, 2);
    SameBit(x, n, 3);
    SameBit(x, n, 4);
    SameBit(x, n, 5);
    SameBit(x, n, 6);
    SameBit(x, n, 7);
    LowFromBits(x, n);
  }

  lemma LowOfRegister(x: bv32)
    ensures LowByte(x) as int < 256 && Low(LowByte(x) as int) == LowByte(x)
  {
    ByteIsSmall(x);
    hide LowByte, Low;
    LowOfByte(LowByte(x), LowByte(x) as int);
  }

  // ---- The table ------------------------------------------------------------

  method BuildTable() returns (table: array<bv32>)
    ensures fresh(table) && table.Length == 256
    ensures forall i :: 0 <= i < 256 ==> table[i] == Shifts(Low(i), 8)
  {
    hide Shift, Low;
    table := new bv32[256];
    for i := 0 to 256
      invariant forall j :: 0 <= j < i ==> table[j] == Shifts(Low(j), 8)
    {
      var value := Low(i);
      for bit := 0 to 8
        invariant Shifts(value, 8 - bit) == Shifts(Low(i), 8)
      {
        value := Shift(value);
      }
      table[i] := value;
    }
  }

  /** The table-driven checksum is the one the bitwise definition gives. */
  method ComputeChecksum(table: array<bv32>, data: Bytes) returns (crc: U32)
    requires table.Length == 256 && forall i :: 0 <= i < 256 ==> table[i] == Shifts(Low(i), 8)
    ensures crc == Checksum(data)
  {
    hide Shifts, Low, Absorb, Xor, LowByte, Dropped;
    var register := ALL_ONES;
    for i := 0 to |data|
      invariant register == Register(data[..i], ALL_ONES)
    {
      assert data[..i + 1][..i] == data[..i];
      LookupIsAbsorb(register, data[i]);
      LowOfRegister(Xor(register, Low(data[i])));
      var index := LowByte(Xor(register, Low(data[i])));
      register := Xor(table[index as int], Dropped(register));
    }
    assert data[..|data|] == data;
    crc := Xor(register, ALL_ONES) as int;
  }
}
