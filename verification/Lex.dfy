/** Lexicographic comparison of integer sequences: the order behind the objective
    vector and behind the canonical action encoding. */
module Lex {

  predicate Less(a: seq<int>, b: seq<int>) {
    if |b| == 0 then false
    else if |a| == 0 then true
    else a[0] < b[0] || (a[0] == b[0] && Less(a[1..], b[1..]))
  }

  predicate AtMost(a: seq<int>, b: seq<int>) {
    a == b || Less(a, b)
  }

  /** Three-way scan over the common prefix, then the lengths decide. */
  method Compare(a: seq<int>, b: seq<int>) returns (order: int)
    ensures -1 <= order <= 1
    ensures order < 0 <==> Less(a, b)
    ensures order == 0 <==> a == b
    ensures order > 0 <==> Less(b, a)
  {
    var common := if |a| < |b| then |a| else |b|;
    var i := 0;
    assert a[0..] == a && b[0..] == b;
    while i < common
      invariant 0 <= i <= common
      invariant a[..i] == b[..i]
      invariant Less(a, b) == Less(a[i..], b[i..])
      invariant Less(b, a) == Less(b[i..], a[i..])
    {
      assert a[i..][0] == a[i] && b[i..][0] == b[i];
      assert a[i..][1..] == a[i + 1..] && b[i..][1..] == b[i + 1..];
      if a[i] < b[i] {
        return -1;
      }
      if a[i] > b[i] {
        return 1;
      }
      i := i + 1;
    }
    if |a| < |b| {
      return -1;
    }
    if |a| > |b| {
      return 1;
    }
    assert a[..i] == a && b[..i] == b;
    LessIrreflexive(a);
    return 0;
  }

  lemma LessIrreflexive(a: seq<int>)
    ensures !Less(a, a)
  {
    if |a| > 0 {
      LessIrreflexive(a[1..]);
    }
  }

  lemma {:induction false} LessTransitive(a: seq<int>, b: seq<int>, c: seq<int>)
    requires Less(a, b) && Less(b, c)
    ensures Less(a, c)
  {
    if |a| > 0 && a[0] == b[0] && b[0] == c[0] {
      LessTransitive(a[1..], b[1..], c[1..]);
    }
  }

  lemma {:induction false} LessAsymmetric(a: seq<int>, b: seq<int>)
    requires Less(a, b)
    ensures !Less(b, a) && a != b
  {
    LessIrreflexive(a);
    if Less(b, a) {
      LessTransitive(a, b, a);
    }
  }

  lemma {:induction false} LessTotal(a: seq<int>, b: seq<int>)
    ensures a == b || Less(a, b) || Less(b, a)
  {
    if |a| > 0 && |b| > 0 && a[0] == b[0] {
      LessTotal(a[1..], b[1..]);
      if a[1..] == b[1..] {
        assert a == [a[0]] + a[1..] && b == [b[0]] + b[1..];
      }
    }
  }

  // Two sequences of one length keep their order under any common continuation,
  // and a continuation of the smaller one stays below any continuation of the larger.
  lemma {:induction false} LessExtends(a: seq<int>, b: seq<int>, c: seq<int>, d: seq<int>)
    requires |a| == |b| && Less(a, b)
    ensures Less(a + c, b + d)
  {
    assert (a + c)[0] == a[0] && (b + d)[0] == b[0];
    if a[0] == b[0] {
      LessExtends(a[1..], b[1..], c, d);
      assert (a + c)[1..] == a[1..] + c && (b + d)[1..] == b[1..] + d;
    }
  }

  // A proper extension comes after what it extends.
  lemma {:induction false} PrefixLess(a: seq<int>, x: int)
    ensures Less(a, a + [x])
  {
    if |a| > 0 {
      PrefixLess(a[1..], x);
      assert (a + [x])[1..] == a[1..] + [x];
    }
  }

  function Plus(a: seq<int>, b: seq<int>): (r: seq<int>)
    requires |a| == |b|
    ensures |r| == |a| && forall i :: 0 <= i < |r| ==> r[i] == a[i] + b[i]
  {
    seq(|a|, i requires 0 <= i < |a| && |a| == |b| => a[i] + b[i])
  }

  // Adding one increment to both sides preserves and reflects the order.
  lemma {:induction false} LessTranslates(a: seq<int>, b: seq<int>, d: seq<int>)
    requires |a| == |b| == |d|
    ensures Less(Plus(a, d), Plus(b, d)) <==> Less(a, b)
  {
    if |a| > 0 {
      LessTranslates(a[1..], b[1..], d[1..]);
      assert Plus(a, d)[1..] == Plus(a[1..], d[1..]);
      assert Plus(b, d)[1..] == Plus(b[1..], d[1..]);
    }
  }

  // A non-negative increment that is positive somewhere strictly increases.
  lemma {:induction false} PlusIncreases(a: seq<int>, d: seq<int>, k: nat)
    requires |a| == |d| && k < |d|
    requires forall i :: 0 <= i < |d| ==> d[i] >= 0
    requires d[k] > 0
    ensures Less(a, Plus(a, d))
  {
    assert Plus(a, d)[0] == a[0] + d[0];
    if d[0] == 0 {
      PlusIncreases(a[1..], d[1..], k - 1);
      assert Plus(a, d)[1..] == Plus(a[1..], d[1..]);
    }
  }
}
