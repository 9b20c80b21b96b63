/** Maxima and cardinalities of finite sets and maps, and cuts of sequences. */
module Finite {
  ghost function Pick<T>(s: set<T>): (x: T)
    requires s != {}
    ensures x in s
  {
    var x :| x in s; x
  }

  /** The largest member of a non-empty set. */
  ghost function MaxOf(s: set<int>): int
    requires s != {}
  {
    var x := Pick(s);
    if s == {x} then x
    else
      assert s == {x} + (s - {x});
      var rest := MaxOf(s - {x});
      if x < rest then rest else x
  }

  lemma {:induction false} MaxOfBounds(s: set<int>)
    requires s != {}
    ensures MaxOf(s) in s && forall x | x in s :: x <= MaxOf(s)
  {
    var x := Pick(s);
    if s != {x} {
      assert s == {x} + (s - {x});
      MaxOfBounds(s - {x});
    }
  }

  lemma {:induction false} MaxOfIs(s: set<int>, m: int)
    requires m in s
    requires forall x | x in s :: x <= m
    ensures MaxOf(s) == m
  {
    MaxOfBounds(s);
  }

  lemma {:induction false} SubsetCard<T>(a: set<T>, b: set<T>)
    requires a <= b
    ensures |a| <= |b|
    ensures a != b ==> |a| < |b|
  {
    if a == {} {
      if b != {} {
        var x :| x in b;
        assert |b| > 0;
      }
    } else {
      var x :| x in a;
      SubsetCard(a - {x}, b - {x});
      assert a != b ==> a - {x} != b - {x} by {
        assert a == (a - {x}) + {x} && b == (b - {x}) + {x};
      }
    }
  }

  lemma {:induction false} PutSize<K, V>(m: map<K, V>, k: K, v: V)
    ensures |m[k := v]| == |m| + if k in m then 0 else 1
  {
    var m' := m[k := v];
    assert |m| == |m.Keys| && |m'| == |m'.Keys|;
    assert m'.Keys == m.Keys + {k};
  }

  lemma {:induction false} SubmapSize<K, V>(m: map<K, V>, n: map<K, V>)
    requires m.Keys <= n.Keys
    ensures |m| <= |n|
  {
    SubsetCard(m.Keys, n.Keys);
    assert |m| == |m.Keys| && |n| == |n.Keys|;
  }

  lemma {:induction false} SubmapSmaller<K, V>(m: map<K, V>, n: map<K, V>, k: K)
    requires m.Keys <= n.Keys && k in n && k !in m
    ensures |m| < |n|
  {
    SubsetCard(m.Keys, n.Keys);
    assert |m| == |m.Keys| && |n| == |n.Keys|;
  }

  lemma {:induction false} UnionAgain<T>(a: set<T>, b: set<T>)
    ensures b + (a + b) == a + b
  {
  }

  lemma {:induction false} UnionWithin<T>(a: set<T>, b: set<T>)
    requires b <= a
    ensures a + b == a
  {
  }

  lemma {:induction false} UnionGroups<T>(a: set<T>, b: set<T>, c: set<T>)
    ensures (a + b) + c == a + (b + c)
  {
  }

  lemma {:induction false} HeadFirst<T>(a: seq<T>, b: seq<T>)
    requires a != []
    ensures a + b != [] && (a + b)[0] == a[0] && (a + b)[1..] == a[1..] + b
  {
  }

  lemma {:induction false} SeqGroups<T>(a: seq<T>, b: seq<T>, c: seq<T>)
    ensures (a + b) + c == a + (b + c)
  {
  }

  lemma {:induction false} LastOf<T>(s: seq<T>)
    requires s != []
    ensures s == s[..|s| - 1] + [s[|s| - 1]]
  {
  }

  lemma {:induction false} PrefixOf<T>(s: seq<T>, i: nat)
    requires i < |s|
    ensures s[..i + 1][..i] == s[..i] && s[..i + 1][i] == s[i]
  {
  }

  /** A map on its way from `before` to `goal`: keys in `rest` have yet to be visited. */
  ghost predicate Walked<K, V>(before: map<K, V>, now: map<K, V>, goal: map<K, V>, rest: set<K>) {
    && rest <= before.Keys
    && (forall k | k in rest :: k in now && now[k] == before[k])
    && (forall k | k in now :: k in before)
    && (forall k | k in before && k !in rest :: SameAt(now, goal, k))
  }

  ghost predicate SameAt<K, V>(a: map<K, V>, b: map<K, V>, k: K) {
    (k in a <==> k in b) && (k in a ==> a[k] == b[k])
  }

  lemma {:induction false} WalkedStep<K, V>(before: map<K, V>, now: map<K, V>, goal: map<K, V>, rest: set<K>, k: K,
                                            next: map<K, V>)
    requires Walked(before, now, goal, rest) && k in rest
    requires SameAt(next, goal, k) && next - {k} == now - {k}
    ensures Walked(before, next, goal, rest - {k})
  {
    forall j | j in before && j != k
      ensures SameAt(next, now, j)
    {
      assert j in next - {k} <==> j in now - {k};
      assert j in next ==> (next - {k})[j] == (now - {k})[j];
    }
    forall j | j in next
      ensures j in before
    {
      assert j != k ==> j in now - {k};
    }
  }

  lemma {:induction false} WalkedAll<K, V>(before: map<K, V>, now: map<K, V>, goal: map<K, V>)
    requires Walked(before, now, goal, {}) && goal.Keys <= before.Keys
    ensures now == goal
  {
    forall k | k in before
      ensures SameAt(now, goal, k)
    {
    }
    assert now.Keys == goal.Keys;
  }

  ghost function SomeKey<K, V>(m: map<K, V>): (k: K)
    requires m != map[]
    ensures k in m
  {
    var k :| k in m; k
  }

  lemma {:induction false} RemovedSize<K, V>(m: map<K, V>, k: K)
    requires k in m
    ensures |m - {k}| == |m| - 1
  {
    assert (m - {k}).Keys == m.Keys - {k};
    assert |m - {k}| == |(m - {k}).Keys| && |m| == |m.Keys|;
  }
}
