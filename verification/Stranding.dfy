/** A pull that loses records: two nodes, the NodeID of the second being that of the first extended
    by a zero byte, with 33 slots each, so that the responder's split falls between them. */
module Stranding {
  import opened Bytes
  import opened Records
  import opened Enumeration
  import opened Encoding
  import opened Store
  import opened Convergence
  import opened MerkleRoot
  import opened AntiEntropy
  import opened Pulling

  const FIRST: NodeID := [1]
  const SECOND: NodeID := [1, 0]

  function SlotNo(i: nat): Slot
    requires i < 66
  {
    Slot(if i < 33 then FIRST else SECOND, [i])
  }

  ghost function Slots(): seq<Slot> {
    seq(66, i requires 0 <= i < 66 => SlotNo(i))
  }

  function RecordAt(k: Slot): Record {
    Record([], k.node, 1, [], false, [], [1], k.key, [], 0)
  }

  ghost function Responder(): TopicState {
    TopicState(map k | k in Members(Slots()) :: RecordAt(k), map[], map[])
  }

  lemma {:induction false} SlotsSorted()
    ensures StrictlySorted(Slots())
  {
    assert LexLess(FIRST, SECOND) by {
      assert FIRST[1..] == [] && SECOND[1..] == [0];
    }
    forall i, j | 0 <= i < j < 66
      ensures SlotLess(Slots()[i], Slots()[j])
    {
      assert [i][0] < [j][0];
    }
  }

  /** The responder's view is the two nodes' records, one node after the other. */
  lemma {:induction false} ViewIs()
    ensures RecordsFiled(Responder().records)
    ensures var v := RangeView(Responder().records, None, None);
      |v| == 66 && forall i | 0 <= i < 66 :: v[i] == RecordAt(SlotNo(i))
  {
    var records, keep := Responder().records, Taking(None, None);
    var ks := Kept(records, keep);
    assert ks == Members(Slots());
    CanonicalSorted(ks);
    SlotsSorted();
    SortedUnique(Slots(), Canonical(ks));
    forall i | 0 <= i < 66
      ensures RangeView(records, None, None)[i] == RecordAt(SlotNo(i))
    {
      assert Slots()[i] in Slots();
    }
  }

  lemma {:induction false} SplitsBetween()
    ensures var v := RangeView(Responder().records, None, None); v != [] && Split(v) == 33
  {
    ViewIs();
    var v := RangeView(Responder().records, None, None);
    assert v[33].nodeID == SECOND && v[32].nodeID == FIRST;
  }

  /** Behind the cursor nothing is left. */
  lemma {:induction false} NothingBehind(records: map<Slot, Record>)
    requires forall k | k in records :: records[k].nodeID == FIRST || records[k].nodeID == SECOND
    ensures RangeView(records, Some(FIRST + [1]), None) == []
  {
    var keep := Taking(Some(FIRST + [1]), None);
    assert FIRST + [1] == [1, 1];
    assert LexLess(FIRST, [1, 1]) by {
      assert FIRST[1..] == [] && [1, 1][1..] == [1];
    }
    assert LexLess(SECOND, [1, 1]) by {
      assert SECOND[1..] == [0] && [1, 1][1..] == [1];
    }
    assert Kept(records, keep) == {};
    CanonicalSorted({});
  }

  /** A prober that absorbs the first node's records holds nothing of the second. */
  lemma {:induction false} FirstOnly(x: Side, sent: seq<Record>)
    requires Fits(x.c, Members(Slots())) && forall v :: x.admit(v)
    requires |sent| == 33 && forall i | 0 <= i < 33 :: sent[i] == RecordAt(SlotNo(i))
    ensures forall k | k in Absorb(x, EMPTY_TOPIC, sent).records ::
              k.node == FIRST && Absorb(x, EMPTY_TOPIC, sent).records[k].nodeID == FIRST
  {
    forall v | v in sent
      ensures v.nodeID == FIRST && !v.IsAttestation() && SlotOf(v) in Members(Slots())
    {
      var i :| 0 <= i < 33 && sent[i] == v;
      assert Slots()[i] == SlotOf(v);
    }
    AbsorbMaximal(x, EMPTY_TOPIC, sent, Members(Slots()));
  }

  /** The first answer is the first node's records, and the prober resumes behind that node. */
  lemma {:induction false} FirstAnswer(x: Side, t: Trace)
    requires IsPull(x, Responder(), [], t) && t.p == EMPTY_TOPIC && t.start == None && t.Resumed?
    ensures t.rest.start == Some(FIRST + [1]) && t.rest.p == Absorb(x, EMPTY_TOPIC, t.reply.recs)
    ensures |t.reply.recs| == 33 && forall i | 0 <= i < 33 :: t.reply.recs[i] == RecordAt(SlotNo(i))
  {
    ViewIs();
    SplitsBetween();
    TruncatedAnswer(x, t.p, Responder(), None, []);
  }

  lemma {:induction false} ThenSilent(x: Side, t: Trace)
    requires IsPull(x, Responder(), [], t) && t.start == Some(FIRST + [1])
    requires forall k | k in t.p.records :: t.p.records[k].nodeID == FIRST
    ensures EndOf(x, t) == t.p
  {
    ResponderNodes();
    NothingBehind(Responder().records);
    NothingBehind(t.p.records);
  }

  lemma {:induction false} ResponderNodes()
    ensures forall k | k in Responder().records ::
              Responder().records[k].nodeID == FIRST || Responder().records[k].nodeID == SECOND
  {
  }

  lemma {:induction false} Lost(x: Side, t: Trace)
    requires Fits(x.c, Members(Slots())) && forall v :: x.admit(v)
    requires IsPull(x, Responder(), [], t) && t.p == EMPTY_TOPIC && t.start == None
    ensures SlotNo(40) !in EndOf(x, t).records
  {
    ViewIs();
    SplitsBetween();
    if t.Resumed? {
      FirstAnswer(x, t);
      FirstOnly(x, t.reply.recs);
      ThenSilent(x, t.rest);
    }
  }

  /** However the strings involved hash, a prober that starts empty, admits everything and has room
      for everything ends its pull without a slot the responder offered. */
  lemma {:induction false} PullCanLose(x: Side) returns (t: Trace, k: Slot)
    requires Fits(x.c, Members(Slots())) && forall v :: x.admit(v)
    ensures IsPull(x, Responder(), [], t) && t.p == EMPTY_TOPIC && t.start == None
    ensures k in Offered(Responder(), None) && k !in EndOf(x, t).records
  {
    k := SlotNo(40);
    OffersIt();
    t := PullEnds(x, EMPTY_TOPIC, Responder(), None, []);
    Lost(x, t);
  }

  lemma {:induction false} OffersIt()
    ensures RecordsFiled(Responder().records) && SlotNo(40) in Offered(Responder(), None)
  {
    ViewIs();
    assert Slots()[40] in Slots();
  }
}
