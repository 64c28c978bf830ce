/** Encoders and decoders that are exact inverses, and the ways of building larger ones from
    smaller ones that keep them so. */
module Codecs {
  import opened Ints
  import opened Canonical

  // A format for values of one type: which values it can carry, how they are written, and
  // what is read from the front of some bytes.
  datatype Codec<!T> = Codec(valid: T -> bool, encode: T -> Bytes, decode: Bytes -> Option<(T, Bytes)>)

  // What is written is read back, whatever follows it.
  ghost predicate ReadsBack<T(!new)>(c: Codec<T>) {
    forall x: T, rest: Bytes :: c.valid(x) ==> c.decode(c.encode(x) + rest) == Some((x, rest))
  }

  // What is read was written exactly so.
  ghost predicate ReadsOnly<T(!new)>(c: Codec<T>) {
    forall b: Bytes :: c.decode(b).Some? ==> Consumed(c, b)
  }

  ghost predicate Consumed<T(!new)>(c: Codec<T>, b: Bytes)
    requires c.decode(b).Some?
  {
    var (x, rest) := c.decode(b).value;
    c.valid(x) && b == c.encode(x) + rest
  }

  ghost predicate Exact<T(!new)>(c: Codec<T>) {
    ReadsBack(c) && ReadsOnly(c)
  }

  lemma ExactReads<T(!new)>(c: Codec<T>, x: T, rest: Bytes)
    requires Exact(c) && c.valid(x)
    ensures c.decode(c.encode(x) + rest) == Some((x, rest))
  {
  }

  lemma ExactRead<T(!new)>(c: Codec<T>, b: Bytes)
    requires Exact(c) && c.decode(b).Some?
    ensures var (x, rest) := c.decode(b).value; c.valid(x) && b == c.encode(x) + rest
  {
    assert Consumed(c, b);
  }

  // ---- Whole messages -------------------------------------------------------

  // A message is accepted when the decoder takes all of it.
  function Accept<T>(c: Codec<T>, b: Bytes): Option<T> {
    match c.decode(b)
    case None => None
    case Some(r) => if |r.1| == 0 then Some(r.0) else None
  }

  /** A message is accepted as a value exactly when it is the encoding of that value. */
  lemma AcceptedIsEncoded<T(!new)>(c: Codec<T>, b: Bytes, x: T)
    requires Exact(c)
    ensures Accept(c, b) == Some(x) <==> c.valid(x) && b == c.encode(x)
  {
    if c.valid(x) && b == c.encode(x) {
      ExactReads(c, x, []);
      assert c.encode(x) + [] == b;
    }
    if c.decode(b).Some? {
      ExactRead(c, b);
      var (y, rest) := c.decode(b).value;
      if |rest| == 0 {
        assert c.encode(y) + rest == c.encode(y);
      }
    }
  }

  // No encoding is a proper beginning of another.
  lemma EncodingIsNoPrefix<T(!new)>(c: Codec<T>, x: T, y: T)
    requires Exact(c) && c.valid(x) && c.valid(y) && c.encode(x) <= c.encode(y)
    ensures x == y
  {
    var tail := c.encode(y)[|c.encode(x)|..];
    assert c.encode(x) + tail == c.encode(y);
    assert c.encode(y) + [] == c.encode(y);
    ExactReads(c, x, tail);
    ExactReads(c, y, []);
  }

  /** Nothing longer and nothing shorter than an encoding is accepted. */
  lemma OnlyTheWhole<T(!new)>(c: Codec<T>, x: T, more: Bytes, fewer: nat)
    requires Exact(c) && c.valid(x)
    ensures |more| > 0 ==> Accept(c, c.encode(x) + more) == None
    ensures fewer < |c.encode(x)| ==> Accept(c, c.encode(x)[..fewer]) == None
  {
    ExactReads(c, x, more);
    if fewer < |c.encode(x)| {
      var b := c.encode(x)[..fewer];
      if Accept(c, b).Some? {
        var y := Accept(c, b).value;
        AcceptedIsEncoded(c, b, y);
        EncodingIsNoPrefix(c, y, x);
      }
    }
  }

  // ---- Integers and flags ---------------------------------------------------

  lemma IntegerReads(x: nat, n: nat, rest: Bytes)
    requires x < Pow256(n)
    ensures |LittleEndian(x, n) + rest| >= n
    ensures Value((LittleEndian(x, n) + rest)[..n]) == x && (LittleEndian(x, n) + rest)[n..] == rest
  {
    ValueOfLittleEndian(x, n);
    assert (LittleEndian(x, n) + rest)[..n] == LittleEndian(x, n);
  }

  lemma IntegerRead(b: Bytes, n: nat)
    requires |b| >= n
    ensures b == LittleEndian(Value(b[..n]), n) + b[n..]
  {
    LittleEndianOfValue(b[..n]);
  }

  function DecodeU32(b: Bytes): Option<(U32, Bytes)> {
    if |b| < 4 then None
    else
      Widths();
      LittleEndianOfValue(b[..4]);
      Some((Value(b[..4]), b[4..]))
  }

  function DecodeU64(b: Bytes): Option<(U64, Bytes)> {
    if |b| < 8 then None
    else
      Widths();
      LittleEndianOfValue(b[..8]);
      Some((Value(b[..8]), b[8..]))
  }

  function AnyU32(x: U32): bool { true }

  function AnyU64(x: U64): bool { true }

  function AnyFlag(x: bool): bool { true }

  const U32_CODEC: Codec<U32> := Codec(AnyU32, U32Bytes, DecodeU32)

  const U64_CODEC: Codec<U64> := Codec(AnyU64, U64Bytes, DecodeU64)

  function EncodeFlag(x: bool): Bytes {
    [BoolByte(x)]
  }

  // Any byte above one is refused.
  function DecodeFlag(b: Bytes): Option<(bool, Bytes)> {
    if |b| == 0 || b[0] > 1 then None else Some((b[0] == 1, b[1..]))
  }

  const FLAG_CODEC: Codec<bool> := Codec(AnyFlag, EncodeFlag, DecodeFlag)

  lemma U32Exact()
    ensures Exact(U32_CODEC)
  {
    hide LittleEndian, Value, Pow256;
    Widths();
    forall x: U32, rest: Bytes
      ensures U32_CODEC.decode(U32_CODEC.encode(x) + rest) == Some((x, rest))
    {
      IntegerReads(x, 4, rest);
    }
    forall b: Bytes | U32_CODEC.decode(b).Some?
      ensures Consumed(U32_CODEC, b)
    {
      IntegerRead(b, 4);
    }
  }

  lemma U64Exact()
    ensures Exact(U64_CODEC)
  {
    hide LittleEndian, Value, Pow256;
    Widths();
    forall x: U64, rest: Bytes
      ensures U64_CODEC.decode(U64_CODEC.encode(x) + rest) == Some((x, rest))
    {
      IntegerReads(x, 8, rest);
    }
    forall b: Bytes | U64_CODEC.decode(b).Some?
      ensures Consumed(U64_CODEC, b)
    {
      IntegerRead(b, 8);
    }
  }

  lemma FlagExact()
    ensures Exact(FLAG_CODEC)
  {
    forall x: bool, rest: Bytes
      ensures FLAG_CODEC.decode(FLAG_CODEC.encode(x) + rest) == Some((x, rest))
    {
      assert ([BoolByte(x)] + rest)[1..] == rest;
    }
    forall b: Bytes | FLAG_CODEC.decode(b).Some?
      ensures Consumed(FLAG_CODEC, b)
    {
      assert b == [b[0]] + b[1..];
    }
  }

  // ---- Combinations ---------------------------------------------------------

  function Pair<A, B>(a: Codec<A>, b: Codec<B>): Codec<(A, B)> {
    Codec((x: (A, B)) => a.valid(x.0) && b.valid(x.1),
          (x: (A, B)) => a.encode(x.0) + b.encode(x.1),
          (s: Bytes) =>
            match a.decode(s)
            case None => None
            case Some(r) =>
              match b.decode(r.1)
              case None => None
              case Some(t) => Some(((r.0, t.0), t.1)))
  }

  lemma PairExact<A(!new), B(!new)>(a: Codec<A>, b: Codec<B>)
    requires Exact(a) && Exact(b)
    ensures Exact(Pair(a, b))
  {
    var p := Pair(a, b);
    forall x: (A, B), rest: Bytes | p.valid(x)
      ensures p.decode(p.encode(x) + rest) == Some((x, rest))
    {
      assert p.encode(x) + rest == a.encode(x.0) + (b.encode(x.1) + rest);
      ExactReads(a, x.0, b.encode(x.1) + rest);
      ExactReads(b, x.1, rest);
    }
    forall s: Bytes | p.decode(s).Some?
      ensures Consumed(p, s)
    {
      ExactRead(a, s);
      var r := a.decode(s).value;
      ExactRead(b, r.1);
      var t := b.decode(r.1).value;
      assert s == (a.encode(r.0) + b.encode(t.0)) + t.1;
    }
  }

  // The same format for values that correspond one to one.
  function As<S, T>(c: Codec<S>, make: S -> T, parts: T -> S): Codec<T> {
    Codec((x: T) => c.valid(parts(x)),
          (x: T) => c.encode(parts(x)),
          (s: Bytes) => match c.decode(s) case None => None case Some(r) => Some((make(r.0), r.1)))
  }

  ghost predicate Corresponds<S(!new), T(!new)>(make: S -> T, parts: T -> S) {
    (forall x: T :: make(parts(x)) == x) && (forall y: S :: parts(make(y)) == y)
  }

  lemma AsExact<S(!new), T(!new)>(c: Codec<S>, make: S -> T, parts: T -> S)
    requires Exact(c) && Corresponds(make, parts)
    ensures Exact(As(c, make, parts))
  {
    var m := As(c, make, parts);
    forall x: T, rest: Bytes | m.valid(x)
      ensures m.decode(m.encode(x) + rest) == Some((x, rest))
    {
      ExactReads(c, parts(x), rest);
    }
    forall s: Bytes | m.decode(s).Some?
      ensures Consumed(m, s)
    {
      ExactRead(c, s);
    }
  }

  // The same format for fewer values; the others are refused when read.
  function Only<T>(c: Codec<T>, accepts: T -> bool): Codec<T> {
    Codec((x: T) => c.valid(x) && accepts(x),
          c.encode,
          (s: Bytes) => match c.decode(s) case None => None case Some(r) => if accepts(r.0) then Some(r) else None)
  }

  lemma OnlyExact<T(!new)>(c: Codec<T>, accepts: T -> bool)
    requires Exact(c)
    ensures Exact(Only(c, accepts))
  {
    var o := Only(c, accepts);
    forall x: T, rest: Bytes | o.valid(x)
      ensures o.decode(o.encode(x) + rest) == Some((x, rest))
    {
      ExactReads(c, x, rest);
    }
    forall s: Bytes | o.decode(s).Some?
      ensures Consumed(o, s)
    {
      ExactRead(c, s);
    }
  }

  // One byte for each of a number of named values.
  function Named<E>(code: E -> U8, named: U8 -> Option<E>): Codec<E> {
    Codec((x: E) => true,
          (x: E) => [code(x)],
          (s: Bytes) =>
            if |s| == 0 then None
            else match named(s[0]) case None => None case Some(x) => Some((x, s[1..])))
  }

  lemma NamedExact<E(!new)>(code: E -> U8, named: U8 -> Option<E>)
    requires forall x: E :: named(code(x)) == Some(x)
    requires forall k: U8 :: named(k).Some? ==> code(named(k).value) == k
    ensures Exact(Named(code, named))
  {
    var c := Named(code, named);
    forall x: E, rest: Bytes
      ensures c.decode(c.encode(x) + rest) == Some((x, rest))
    {
      assert ([code(x)] + rest)[1..] == rest;
    }
    forall s: Bytes | c.decode(s).Some?
      ensures Consumed(c, s)
    {
      assert s == [s[0]] + s[1..];
    }
  }

  // A byte string with its length in front, of bounded length.
  function EncodeText(s: Bytes): Bytes {
    U32Bytes(Count(|s|)) + s
  }

  function DecodeText(max: U32, b: Bytes): Option<(Bytes, Bytes)> {
    match DecodeU32(b)
    case None => None
    case Some(r) => if r.0 > max || |r.1| < r.0 then None else Some((r.1[..r.0], r.1[r.0..]))
  }

  function Text(max: U32): Codec<Bytes> {
    Codec((s: Bytes) => |s| <= max, EncodeText, (b: Bytes) => DecodeText(max, b))
  }

  lemma TextExact(max: U32)
    ensures Exact(Text(max))
  {
    hide DecodeU32, U32Bytes;
    U32Exact();
    var c := Text(max);
    forall s: Bytes, rest: Bytes | c.valid(s)
      ensures c.decode(c.encode(s) + rest) == Some((s, rest))
    {
      assert c.encode(s) + rest == U32_CODEC.encode(|s|) + (s + rest);
      ExactReads(U32_CODEC, |s|, s + rest);
      assert (s + rest)[..|s|] == s && (s + rest)[|s|..] == rest;
    }
    forall b: Bytes | c.decode(b).Some?
      ensures Consumed(c, b)
    {
      ExactRead(U32_CODEC, b);
      var r := U32_CODEC.decode(b).value;
      assert r.1 == r.1[..r.0] + r.1[r.0..];
    }
  }

  // The elements of a list, one after the other.
  function EncodeAll<T>(c: Codec<T>, list: seq<T>): Bytes {
    if |list| == 0 then [] else c.encode(list[0]) + EncodeAll(c, list[1..])
  }

  function DecodeMany<T>(c: Codec<T>, n: nat, b: Bytes): Option<(seq<T>, Bytes)> {
    if n == 0 then Some(([], b))
    else
      match c.decode(b)
      case None => None
      case Some(r) =>
        match DecodeMany(c, n - 1, r.1)
        case None => None
        case Some(t) => Some(([r.0] + t.0, t.1))
  }

  predicate AllValid<T>(c: Codec<T>, list: seq<T>) {
    forall i :: 0 <= i < |list| ==> c.valid(list[i])
  }

  lemma {:induction false} ManyReads<T(!new)>(c: Codec<T>, list: seq<T>, rest: Bytes)
    requires Exact(c) && AllValid(c, list)
    ensures DecodeMany(c, |list|, EncodeAll(c, list) + rest) == Some((list, rest))
  {
    if |list| == 0 {
      assert EncodeAll(c, list) + rest == rest;
    } else {
      var next := EncodeAll(c, list[1..]) + rest;
      assert EncodeAll(c, list) + rest == c.encode(list[0]) + next;
      ExactReads(c, list[0], next);
      ManyReads(c, list[1..], rest);
      assert list == [list[0]] + list[1..];
    }
  }

  lemma {:induction false} ManyRead<T(!new)>(c: Codec<T>, n: nat, b: Bytes)
    requires Exact(c) && DecodeMany(c, n, b).Some?
    ensures var (list, rest) := DecodeMany(c, n, b).value;
            |list| == n && AllValid(c, list) && b == EncodeAll(c, list) + rest
    decreases n
  {
    if n > 0 {
      ExactRead(c, b);
      var r := c.decode(b).value;
      ManyRead(c, n - 1, r.1);
      var (list, rest) := DecodeMany(c, n - 1, r.1).value;
      var whole := [r.0] + list;
      assert whole[1..] == list;
      assert b == c.encode(r.0) + (EncodeAll(c, list) + rest);
    }
  }

  function EncodeList<T>(c: Codec<T>, list: seq<T>): Bytes {
    U32Bytes(Count(|list|)) + EncodeAll(c, list)
  }

  function DecodeList<T>(c: Codec<T>, max: U32, b: Bytes): Option<(seq<T>, Bytes)> {
    match DecodeU32(b)
    case None => None
    case Some(r) => if r.0 > max then None else DecodeMany(c, r.0, r.1)
  }

  // A list with its count in front, of bounded length.
  function ListOf<T>(c: Codec<T>, max: U32): Codec<seq<T>> {
    Codec((list: seq<T>) => |list| <= max && AllValid(c, list),
          (list: seq<T>) => EncodeList(c, list),
          (b: Bytes) => DecodeList(c, max, b))
  }

  lemma ListReads<T(!new)>(c: Codec<T>, max: U32, list: seq<T>, rest: Bytes)
    requires Exact(c) && |list| <= max && AllValid(c, list)
    ensures DecodeList(c, max, EncodeList(c, list) + rest) == Some((list, rest))
  {
    hide DecodeU32, U32Bytes, AllValid, Exact, DecodeMany, EncodeAll;
    U32Exact();
    var b := EncodeList(c, list) + rest;
    assert b == U32_CODEC.encode(|list|) + (EncodeAll(c, list) + rest);
    ExactReads(U32_CODEC, |list|, EncodeAll(c, list) + rest);
    ManyReads(c, list, rest);
  }

  lemma ListRead<T(!new)>(c: Codec<T>, max: U32, b: Bytes)
    requires Exact(c) && DecodeList(c, max, b).Some?
    ensures var (list, rest) := DecodeList(c, max, b).value;
            |list| <= max && AllValid(c, list) && b == EncodeList(c, list) + rest
  {
    hide DecodeU32, U32Bytes, AllValid, Exact, DecodeMany, EncodeAll;
    U32Exact();
    ExactRead(U32_CODEC, b);
    var r := U32_CODEC.decode(b).value;
    ManyRead(c, r.0, r.1);
    var (list, rest) := DecodeMany(c, r.0, r.1).value;
    assert b == U32Bytes(r.0) + (EncodeAll(c, list) + rest);
  }

  lemma ListExact<T(!new)>(c: Codec<T>, max: U32)
    requires Exact(c)
    ensures Exact(ListOf(c, max))
  {
    hide EncodeList, DecodeList, AllValid;
    var l := ListOf(c, max);
    forall list: seq<T>, rest: Bytes | l.valid(list)
      ensures l.decode(l.encode(list) + rest) == Some((list, rest))
    {
      ListReads(c, max, list, rest);
    }
    forall b: Bytes | l.decode(b).Some?
      ensures Consumed(l, b)
    {
      ListRead(c, max, b);
    }
  }
}
