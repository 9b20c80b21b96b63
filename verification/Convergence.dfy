/** The delta-CRDT law: folding owner records into a store, in any order, grouping or repetition,
    leaves in each slot the largest record by (HLC, signature). */
module Convergence {
  import opened Records
  import opened Finite
  import opened Store

  /** One arrival: a record and the receiver's clock when it was applied. */
  datatype Arrival = Arrival(r: Record, now: int)

  /** The topic after all the arrivals. */
  ghost function Fold(c: Config, ts: TopicState, e: seq<Arrival>): TopicState
    decreases |e|
  {
    if e == [] then ts else Fold(c, TopicStep(c, ts, e[0].r, e[0].now).0, e[1..])
  }

  ghost function FoldStores(c: Config, st: Stores, e: seq<Arrival>): Stores
    decreases |e|
  {
    if e == [] then st else FoldStores(c, Apply(c, st, e[0].r, e[0].now).0, e[1..])
  }

  lemma {:induction false} FoldAppend(c: Config, ts: TopicState, a: seq<Arrival>, b: seq<Arrival>)
    ensures Fold(c, ts, a + b) == Fold(c, Fold(c, ts, a), b)
    decreases |a|
  {
    if a == [] {
      assert a + b == b;
    } else {
      HeadFirst(a, b);
      FoldAppend(c, TopicStep(c, ts, a[0].r, a[0].now).0, a[1..], b);
    }
  }

  /** No fold removes a slot or lowers its rank, whatever arrives. */
  lemma {:induction false} FoldAdvances(c: Config, ts: TopicState, e: seq<Arrival>)
    ensures Advances(ts.records, Fold(c, ts, e).records)
    decreases |e|
  {
    if e != [] {
      TopicStepAdvances(c, ts, e[0].r, e[0].now);
      var mid := TopicStep(c, ts, e[0].r, e[0].now).0;
      FoldAdvances(c, mid, e[1..]);
      AdvancesTransitive(ts.records, mid.records, Fold(c, ts, e).records);
    }
  }

  ghost function RecordsOf(e: seq<Arrival>): set<Record> {
    set a | a in e :: a.r
  }

  lemma {:induction false} FirstRecord(e: seq<Arrival>)
    requires e != []
    ensures RecordsOf(e) == {e[0].r} + RecordsOf(e[1..])
  {
    assert e == [e[0]] + e[1..];
  }

  ghost predicate OwnerOnly(e: seq<Arrival>) {
    forall a | a in e :: !a.r.IsAttestation()
  }

  ghost function SlotsOf(s: set<Record>): set<Slot> {
    set r | r in s :: SlotOf(r)
  }

  /** The slot set is within the per-topic and the per-node cap. */
  ghost predicate Fits(c: Config, slots: set<Slot>) {
    && |slots| <= c.maxRecords
    && forall n: NodeID :: |OfNode(slots, n)| <= c.maxKeys
  }

  /** No record of `s` in the same slot beats `r`. */
  ghost predicate Tops(s: set<Record>, r: Record) {
    forall x | x in s && SlotOf(x) == SlotOf(r) :: !Beats(x, r)
  }

  /** `m` has a slot for every slot of `s`, holding a record of `s` that none of `s` beats. */
  ghost predicate Maximal(s: set<Record>, m: map<Slot, Record>) {
    && (forall r | r in s :: SlotOf(r) in m)
    && forall k | k in m :: m[k] in s && SlotOf(m[k]) == k && Tops(s, m[k])
  }

  /** Equal slot, HLC and signature means equal record. */
  ghost predicate RankDetermines(s: set<Record>) {
    forall a, b | a in s && b in s && SlotOf(a) == SlotOf(b) && a.hlc == b.hlc && a.sig == b.sig :: a == b
  }

  lemma {:induction false} FitsRoom(c: Config, slots: set<Slot>, records: map<Slot, Record>, k: Slot)
    requires Fits(c, slots) && records.Keys + {k} <= slots && k !in records
    ensures HasRoom(c, records, k.node)
  {
    SubsetCard(records.Keys + {k}, slots);
    SubsetCard(HeldBy(records, k.node) + {k}, OfNode(slots, k.node));
    assert |HeldBy(records, k.node) + {k}| == |HeldBy(records, k.node)| + 1;
  }

  lemma {:induction false} TopsTakeover(s: set<Record>, cur: Record, r: Record)
    requires cur in s && Tops(s, cur) && SlotOf(r) == SlotOf(cur)
    ensures Beats(r, cur) ==> Tops(s + {r}, r)
    ensures !Beats(r, cur) ==> Tops(s + {r}, cur)
  {
    BeatsOrder(r, r, r);
    if Beats(r, cur) {
      forall x | x in s + {r} && SlotOf(x) == SlotOf(r)
        ensures !Beats(x, r)
      {
        BeatsOrder(r, cur, x);
        BeatsOrder(r, x, x);
      }
    }
  }

  /** The HLC-max merge of one record into the slots, caps aside. */
  ghost function Put(m: map<Slot, Record>, r: Record): map<Slot, Record> {
    if SlotOf(r) in m && !Beats(r, m[SlotOf(r)]) then m else m[SlotOf(r) := r]
  }

  lemma {:induction false} OwnerStepPuts(c: Config, ts: TopicState, r: Record, now: int)
    requires !r.IsAttestation()
    requires SlotOf(r) in ts.records || HasRoom(c, ts.records, r.nodeID)
    ensures TopicStep(c, ts, r, now).0.records == Put(ts.records, r)
  {
  }

  lemma {:induction false} PutMaximal(s: set<Record>, m: map<Slot, Record>, r: Record)
    requires Maximal(s, m)
    ensures Maximal(s + {r}, Put(m, r))
  {
    var m', slot := Put(m, r), SlotOf(r);
    BeatsOrder(r, r, r);
    if slot in m {
      TopsTakeover(s, m[slot], r);
    }
    forall k | k in m'
      ensures m'[k] in s + {r} && SlotOf(m'[k]) == k && Tops(s + {r}, m'[k])
    {
      if k != slot {
        assert Tops(s, m[k]);
      }
    }
  }

  ghost function PutAll(m: map<Slot, Record>, e: seq<Arrival>): map<Slot, Record>
    decreases |e|
  {
    if e == [] then m else PutAll(Put(m, e[0].r), e[1..])
  }

  lemma {:induction false} PutAllMaximal(s: set<Record>, m: map<Slot, Record>, e: seq<Arrival>)
    requires Maximal(s, m)
    ensures Maximal(s + RecordsOf(e), PutAll(m, e))
    decreases |e|
  {
    if e == [] {
      assert s + RecordsOf(e) == s;
    } else {
      PutMaximal(s, m, e[0].r);
      PutAllMaximal(s + {e[0].r}, Put(m, e[0].r), e[1..]);
      FirstRecord(e);
      assert s + RecordsOf(e) == s + {e[0].r} + RecordsOf(e[1..]);
    }
  }

  lemma {:induction false} FoldPuts(c: Config, ts: TopicState, e: seq<Arrival>, all: set<Slot>)
    requires OwnerOnly(e) && Fits(c, all)
    requires ts.records.Keys <= all && forall a | a in e :: SlotOf(a.r) in all
    ensures Fold(c, ts, e).records == PutAll(ts.records, e)
    decreases |e|
  {
    if e != [] {
      var r := e[0].r;
      if SlotOf(r) !in ts.records {
        FitsRoom(c, all, ts.records, SlotOf(r));
      }
      OwnerStepPuts(c, ts, r, e[0].now);
      FoldPuts(c, TopicStep(c, ts, r, e[0].now).0, e[1..], all);
    }
  }

  /** Every fold of owner records that fits the caps ends at the slot-wise maximum of what was
      there and what arrived. */
  lemma {:induction false} FoldMaximal(c: Config, ts: TopicState, e: seq<Arrival>)
    requires RecordsFiled(ts.records) && OwnerOnly(e)
    requires Fits(c, ts.records.Keys + SlotsOf(RecordsOf(e)))
    ensures Maximal(ts.records.Values + RecordsOf(e), Fold(c, ts, e).records)
  {
    forall a | a in e
      ensures SlotOf(a.r) in SlotsOf(RecordsOf(e))
    {
      assert a.r in RecordsOf(e);
    }
    FoldPuts(c, ts, e, ts.records.Keys + SlotsOf(RecordsOf(e)));
    SelfMaximal(ts.records);
    PutAllMaximal(ts.records.Values, ts.records, e);
  }

  lemma {:induction false} SelfMaximal(m: map<Slot, Record>)
    requires RecordsFiled(m)
    ensures Maximal(m.Values, m)
  {
    forall k | k in m
      ensures m[k] in m.Values && Tops(m.Values, m[k])
    {
      BeatsOrder(m[k], m[k], m[k]);
    }
  }

  lemma {:induction false} MaximalUnique(s: set<Record>, m1: map<Slot, Record>, m2: map<Slot, Record>)
    requires Maximal(s, m1) && Maximal(s, m2) && RankDetermines(s)
    ensures m1 == m2
  {
    forall k | k in m1
      ensures m1[k] == m2[k]
    {
      BeatsOrder(m1[k], m2[k], m1[k]);
    }
  }

  /** Order and repetition do not matter: two histories that delivered the same records end in
      the same slots. */
  lemma {:induction false} OrderIndependence(c: Config, ts: TopicState, e1: seq<Arrival>, e2: seq<Arrival>)
    requires RecordsFiled(ts.records) && OwnerOnly(e1) && OwnerOnly(e2)
    requires RecordsOf(e1) == RecordsOf(e2)
    requires Fits(c, ts.records.Keys + SlotsOf(RecordsOf(e1)))
    requires RankDetermines(ts.records.Values + RecordsOf(e1))
    ensures Fold(c, ts, e1).records == Fold(c, ts, e2).records
  {
    FoldMaximal(c, ts, e1);
    FoldMaximal(c, ts, e2);
    MaximalUnique(ts.records.Values + RecordsOf(e1), Fold(c, ts, e1).records, Fold(c, ts, e2).records);
  }

  lemma {:induction false} TopsThrough(s: set<Record>, m: map<Slot, Record>, r: Record)
    requires Maximal(s, m)
    requires SlotOf(r) in m ==> !Beats(m[SlotOf(r)], r)
    ensures Tops(s, r)
  {
    forall x | x in s && SlotOf(x) == SlotOf(r)
      ensures !Beats(x, r)
    {
      BeatsOrder(r, m[SlotOf(r)], x);
    }
  }

  /** Grouping does not matter: merging two slot-wise maxima gives the maximum of everything. */
  lemma {:induction false} MaximalMerge(s1: set<Record>, m1: map<Slot, Record>, s2: set<Record>, m2: map<Slot, Record>,
                                        m: map<Slot, Record>)
    requires Maximal(s1, m1) && Maximal(s2, m2)
    requires Maximal(m1.Values + m2.Values, m)
    ensures Maximal(s1 + s2, m)
  {
    MergeCovers(s1, m1, m1.Values + m2.Values, m);
    MergeCovers(s2, m2, m1.Values + m2.Values, m);
    forall k | k in m
      ensures m[k] in s1 + s2 && Tops(s1 + s2, m[k])
    {
      assert Tops(s1, m[k]) && Tops(s2, m[k]);
    }
  }

  lemma {:induction false} MergeCovers(s: set<Record>, part: map<Slot, Record>, all: set<Record>, m: map<Slot, Record>)
    requires Maximal(s, part) && Maximal(all, m) && part.Values <= all
    ensures part.Values <= s
    ensures forall r | r in s :: SlotOf(r) in m
    ensures forall k | k in m :: Tops(s, m[k])
  {
    forall r | r in s
      ensures SlotOf(r) in m
    {
      assert part[SlotOf(r)] in part.Values;
    }
    forall k | k in m
      ensures Tops(s, m[k])
    {
      assert Tops(all, m[k]);
      assert k in part ==> part[k] in part.Values;
      TopsThrough(s, part, m[k]);
    }
  }

  lemma {:induction false} ValuesSlots(m: map<Slot, Record>)
    requires RecordsFiled(m)
    ensures SlotsOf(m.Values) == m.Keys
  {
    forall k | k in m
      ensures k in SlotsOf(m.Values)
    {
      assert m[k] in m.Values && SlotOf(m[k]) == k;
    }
  }

  /** Two replicas fed different histories agree after each merges the other's records, whatever
      the arrival order: merge is commutative, associative and idempotent. */
  lemma {:induction false} MergeConverges(c: Config, a: TopicState, b: TopicState, intoA: seq<Arrival>,
                                          intoB: seq<Arrival>)
    requires RecordsFiled(a.records) && RecordsFiled(b.records)
    requires RecordsOf(intoA) == b.records.Values && RecordsOf(intoB) == a.records.Values
    requires Fits(c, a.records.Keys + b.records.Keys)
    requires RankDetermines(a.records.Values + b.records.Values)
    ensures Fold(c, a, intoA).records == Fold(c, b, intoB).records
  {
    assert b.records.Values + a.records.Values == a.records.Values + b.records.Values;
    assert b.records.Keys + a.records.Keys == a.records.Keys + b.records.Keys;
    ReplayMaximal(c, a, b.records, intoA);
    ReplayMaximal(c, b, a.records, intoB);
    MaximalUnique(a.records.Values + b.records.Values, Fold(c, a, intoA).records, Fold(c, b, intoB).records);
  }

  lemma {:induction false} ReplayMaximal(c: Config, ts: TopicState, other: map<Slot, Record>, e: seq<Arrival>)
    requires RecordsFiled(ts.records) && RecordsFiled(other) && RecordsOf(e) == other.Values
    requires Fits(c, ts.records.Keys + other.Keys)
    ensures Maximal(ts.records.Values + other.Values, Fold(c, ts, e).records)
  {
    ValuesSlots(other);
    assert forall x | x in e :: x.r in RecordsOf(e);
    FoldMaximal(c, ts, e);
  }

  // ---------- topics ----------

  ghost function ArrivalsOn(e: seq<Arrival>, t: Topic): seq<Arrival> {
    if e == [] then [] else (if e[0].r.topic == t then [e[0]] else []) + ArrivalsOn(e[1..], t)
  }

  ghost function TopicsOf(e: seq<Arrival>): set<Topic> {
    set a | a in e :: a.r.topic
  }

  lemma {:induction false} ApplyOnTopic(c: Config, st: Stores, a: Arrival, t: Topic, all: set<Topic>)
    requires st.Keys + {a.r.topic} <= all && |all| <= c.maxTopics
    ensures var st' := Apply(c, st, a.r, a.now).0;
      && st'.Keys == st.Keys + {a.r.topic}
      && TopicOf(st', t) == if a.r.topic == t then TopicStep(c, TopicOf(st, t), a.r, a.now).0 else TopicOf(st, t)
  {
    if a.r.topic !in st {
      SubsetCard(st.Keys + {a.r.topic}, all);
      assert |st.Keys + {a.r.topic}| == |st.Keys| + 1;
      assert |st| == |st.Keys|;
    }
  }

  /** While the topic cap is not reached, a store is the product of its topics: each one evolves
      exactly as if only its own records had arrived, attestations included. */
  lemma {:induction false} TopicsIndependent(c: Config, st: Stores, e: seq<Arrival>, t: Topic)
    requires |st.Keys + TopicsOf(e)| <= c.maxTopics
    ensures TopicOf(FoldStores(c, st, e), t) == Fold(c, TopicOf(st, t), ArrivalsOn(e, t))
    decreases |e|
  {
    if e != [] {
      assert e == [e[0]] + e[1..];
      ApplyOnTopic(c, st, e[0], t, st.Keys + TopicsOf(e));
      var st' := Apply(c, st, e[0].r, e[0].now).0;
      assert st'.Keys + TopicsOf(e[1..]) == st.Keys + TopicsOf(e);
      TopicsIndependent(c, st', e[1..], t);
      if e[0].r.topic == t {
        assert ArrivalsOn(e, t)[1..] == ArrivalsOn(e[1..], t);
      } else {
        assert ArrivalsOn(e, t) == ArrivalsOn(e[1..], t);
      }
    }
  }
}
