/** The canonical (NodeID, Key) enumeration: every traversal that must be the same on two stores
    collects slots in map order, which is arbitrary, and sorts them. */
module Enumeration {
  import opened Records
  import opened Finite

  ghost predicate StrictlySorted(s: seq<Slot>) {
    forall i, j | 0 <= i < j < |s| :: SlotLess(s[i], s[j])
  }

  ghost function Members(s: seq<Slot>): set<Slot> {
    set k | k in s
  }

  function Insert(s: seq<Slot>, k: Slot): seq<Slot> {
    if s == [] || SlotLess(k, s[0]) then [k] + s else [s[0]] + Insert(s[1..], k)
  }

  /** sort.Slice under the canonical order. */
  function Sort(s: seq<Slot>): seq<Slot> {
    if s == [] then [] else Insert(Sort(s[1..]), s[0])
  }

  lemma {:induction false} InsertSorted(s: seq<Slot>, k: Slot)
    requires StrictlySorted(s) && k !in s
    ensures StrictlySorted(Insert(s, k))
    ensures Members(Insert(s, k)) == Members(s) + {k}
  {
    if s == [] {
    } else if SlotLess(k, s[0]) {
      var t := [k] + s;
      forall i | 0 <= i < |s|
        ensures SlotLess(k, s[i])
      {
        SlotOrder(k, s[0], s[i]);
      }
      assert Members(t) == Members(s) + {k};
    } else {
      var rest := Insert(s[1..], k);
      InsertSorted(s[1..], k);
      SlotOrder(k, s[0], k);
      assert s == [s[0]] + s[1..];
      assert Members(s) == {s[0]} + Members(s[1..]);
      assert Members([s[0]] + rest) == {s[0]} + Members(rest);
      forall j | 0 <= j < |rest|
        ensures SlotLess(s[0], rest[j])
      {
        assert rest[j] in Members(rest);
      }
    }
  }

  lemma {:induction false} SortSorts(s: seq<Slot>)
    requires forall i, j | 0 <= i < j < |s| :: s[i] != s[j]
    ensures StrictlySorted(Sort(s))
    ensures Members(Sort(s)) == Members(s)
  {
    if s != [] {
      SortSorts(s[1..]);
      assert s[0] !in Members(s[1..]);
      assert s[0] !in Sort(s[1..]) by {
        assert s[0] in Sort(s[1..]) <==> s[0] in Members(Sort(s[1..]));
      }
      InsertSorted(Sort(s[1..]), s[0]);
      assert s == [s[0]] + s[1..];
    }
  }

  /** A set of slots has one strictly sorted enumeration. */
  lemma {:induction false} SortedUnique(s: seq<Slot>, t: seq<Slot>)
    requires StrictlySorted(s) && StrictlySorted(t)
    requires Members(s) == Members(t)
    ensures s == t
  {
    MembersEmpty(s);
    MembersEmpty(t);
    if s != [] {
      assert s[0] in Members(t);
      assert t[0] in Members(s);
      HeadLeast(s, t[0]);
      HeadLeast(t, s[0]);
      SlotOrder(s[0], t[0], s[0]);
      TailMembers(s);
      TailMembers(t);
      SortedUnique(s[1..], t[1..]);
      assert s == [s[0]] + s[1..] && t == [t[0]] + t[1..];
    }
  }

  lemma {:induction false} MembersEmpty(s: seq<Slot>)
    ensures s == [] <==> Members(s) == {}
  {
    if s != [] {
      assert s[0] in Members(s);
    }
  }

  lemma {:induction false} HeadLeast(s: seq<Slot>, k: Slot)
    requires StrictlySorted(s) && k in s
    ensures !SlotLess(k, s[0])
  {
    var i :| 0 <= i < |s| && s[i] == k;
    SlotOrder(s[0], k, s[0]);
  }

  lemma {:induction false} TailMembers(s: seq<Slot>)
    requires StrictlySorted(s) && s != []
    ensures Members(s[1..]) == Members(s) - {s[0]}
  {
    SlotOrder(s[0], s[0], s[0]);
    assert forall i | 0 < i < |s| :: SlotLess(s[0], s[i]);
    assert s == [s[0]] + s[1..];
  }

  /** The canonical enumeration of a finite set of slots. */
  ghost function Canonical(ks: set<Slot>): seq<Slot> {
    if ks == {} then [] else Insert(Canonical(ks - {Pick(ks)}), Pick(ks))
  }

  lemma {:induction false} CanonicalSorted(ks: set<Slot>)
    ensures StrictlySorted(Canonical(ks)) && Members(Canonical(ks)) == ks && |Canonical(ks)| == |ks|
    ensures forall k :: k in Canonical(ks) <==> k in ks
  {
    if ks != {} {
      var k := Pick(ks);
      CanonicalSorted(ks - {k});
      InsertSorted(Canonical(ks - {k}), k);
      InsertLength(Canonical(ks - {k}), k);
    }
    assert forall k :: k in Canonical(ks) <==> k in Members(Canonical(ks));
  }

  lemma {:induction false} InsertLength(s: seq<Slot>, k: Slot)
    ensures |Insert(s, k)| == |s| + 1
  {
    if s != [] && !SlotLess(k, s[0]) {
      InsertLength(s[1..], k);
    }
  }

  ghost function Kept(records: map<Slot, Record>, keep: Record -> bool): set<Slot> {
    set k | k in records && keep(records[k])
  }

  ghost function RecordsAt(records: map<Slot, Record>, ks: seq<Slot>): seq<Record>
    requires forall k | k in ks :: k in records
  {
    seq(|ks|, i requires 0 <= i < |ks| => records[ks[i]])
  }

  /** The records that satisfy `keep`, in canonical order. */
  ghost function Listing(records: map<Slot, Record>, keep: Record -> bool): seq<Record> {
    CanonicalSorted(Kept(records, keep));
    RecordsAt(records, Canonical(Kept(records, keep)))
  }

  /** What comes before `k` in the canonical order. */
  ghost function Before(ks: set<Slot>, k: Slot): set<Slot> {
    set j | j in ks && SlotLess(j, k)
  }

  /** In the canonical listing, each slot is preceded by exactly those that are less. */
  lemma {:induction false} CanonicalRank(ks: set<Slot>, i: nat)
    requires i < |Canonical(ks)|
    ensures |Before(ks, Canonical(ks)[i])| == i
  {
    var s := Canonical(ks);
    CanonicalSorted(ks);
    forall k
      ensures k in Before(ks, s[i]) <==> k in Members(s[..i])
    {
      if k in ks {
        var j :| 0 <= j < |s| && s[j] == k;
        SlotOrder(s[i], s[j], s[i]);
        if j < i {
          assert s[..i][j] == k;
        }
      }
    }
    assert Before(ks, s[i]) == Members(s[..i]);
    DistinctMembers(s[..i]);
  }

  lemma {:induction false} DistinctMembers(s: seq<Slot>)
    requires StrictlySorted(s)
    ensures |Members(s)| == |s|
  {
    if s != [] {
      var n := |s| - 1;
      DistinctMembers(s[..n]);
      assert s == s[..n] + [s[n]];
      assert Members(s) == Members(s[..n]) + {s[n]};
      SlotOrder(s[n], s[n], s[n]);
    }
  }

  function Every(): Record -> bool {
    (r: Record) => true
  }
}
