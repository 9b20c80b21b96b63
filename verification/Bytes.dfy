/** Byte strings and the byte-lexicographic order that the store uses for NodeIDs, keys and
    signatures. */
module Bytes {
  type byte = x: int | 0 <= x < 256
  type Bytes = seq<byte>

  const TWO_63: int := 0x8000_0000_0000_0000
  const TWO_64: int := 0x1_0000_0000_0000_0000

  type u64 = x: int | 0 <= x < TWO_64

  /** Unsigned 64-bit increment, with the wrap-around spelled out. */
  function Inc64(x: u64): u64 {
    if x + 1 == TWO_64 then 0 else x + 1
  }

  /** The signed 64-bit value that a mathematical integer is truncated to. */
  function Wrap64(x: int): int {
    var y := x % TWO_64;
    if y < TWO_63 then y else y - TWO_64
  }

  lemma {:induction false} Wrap64Exact(x: int)
    ensures Wrap64(x) == x <==> -TWO_63 <= x < TWO_63
    ensures 0 <= x ==> Wrap64(x) <= x
  {
  }

  /** `a` comes strictly before `b`: the first differing byte decides, and a proper prefix is
      smaller. */
  predicate LexLess(a: Bytes, b: Bytes) {
    if |b| == 0 then false
    else if |a| == 0 then true
    else a[0] < b[0] || (a[0] == b[0] && LexLess(a[1..], b[1..]))
  }

  lemma {:induction false} LexIrreflexive(a: Bytes)
    ensures !LexLess(a, a)
  {
    if |a| > 0 {
      LexIrreflexive(a[1..]);
    }
  }

  lemma {:induction false} LexTransitive(a: Bytes, b: Bytes, c: Bytes)
    requires LexLess(a, b) && LexLess(b, c)
    ensures LexLess(a, c)
  {
    if |a| > 0 && a[0] == b[0] == c[0] {
      LexTransitive(a[1..], b[1..], c[1..]);
    }
  }

  lemma {:induction false} LexTotal(a: Bytes, b: Bytes)
    ensures LexLess(a, b) || LexLess(b, a) || a == b
  {
    if |a| > 0 && |b| > 0 && a[0] == b[0] {
      LexTotal(a[1..], b[1..]);
      if a[1..] == b[1..] {
        assert a == [a[0]] + a[1..] && b == [b[0]] + b[1..];
      }
    }
  }

  lemma {:induction false} LexAsymmetric(a: Bytes, b: Bytes)
    requires LexLess(a, b)
    ensures !LexLess(b, a) && a != b
  {
    LexIrreflexive(a);
    if LexLess(b, a) {
      LexTransitive(a, b, a);
    }
  }

  /** The strings strictly between `a` and `a || 0x01` are exactly the extensions of `a` whose
      next byte is zero. */
  lemma {:induction false} LexCursorGap(a: Bytes, x: Bytes)
    ensures LexLess(a, x) && LexLess(x, a + [1]) <==> |x| > |a| && x[..|a| + 1] == a + [0]
  {
    if |a| == 0 {
      assert a + [1] == [1];
      if |x| > 0 {
        assert x[..1] == [x[0]];
        assert !LexLess(x[1..], [1][1..]);
      }
    } else if |x| > 0 {
      LexCursorGap(a[1..], x[1..]);
      assert (a + [1])[1..] == a[1..] + [1];
      if |x| > |a| {
        assert x[..|a| + 1] == [x[0]] + x[1..][..|a|];
        assert a + [0] == [a[0]] + (a[1..] + [0]);
      }
    }
  }

  /** The comparison loop shared by the signature tie-break and the NodeID range tests. */
  method BytesLess(a: Bytes, b: Bytes) returns (less: bool)
    ensures less == LexLess(a, b)
  {
    var min := if |b| < |a| then |b| else |a|;
    var i := 0;
    while i < min
      invariant 0 <= i <= min
      invariant LexLess(a, b) == LexLess(a[i..], b[i..])
    {
      assert a[i..][1..] == a[i + 1..] && b[i..][1..] == b[i + 1..];
      if a[i] != b[i] {
        return a[i] < b[i];
      }
      i := i + 1;
    }
    return |a| < |b|;
  }

  lemma {:induction false} LexExtends(last: Bytes)
    ensures LexLess(last, last + [1])
  {
    if last != [] {
      LexExtends(last[1..]);
      assert (last + [1])[1..] == last[1..] + [1];
    }
  }
}
