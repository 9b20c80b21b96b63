/** Whole runs of the store: arrivals of any records at any clock readings, and TTL sweeps. */
module Runs {
  import opened Bytes
  import opened Records
  import opened Finite
  import opened Store

  /** What can happen to one topic. */
  datatype Event = Arrive(r: Record, now: int) | Reaped(now: int, ttlMs: int)

  ghost function Step(c: Config, ts: TopicState, ev: Event): TopicState {
    match ev
    case Arrive(r, now) => TopicStep(c, ts, r, now).0
    case Reaped(now, ttlMs) => ReapTopic(ts, now, ttlMs)
  }

  /** The topic after the first `n` events of the run, starting empty. */
  ghost function At(c: Config, es: seq<Event>, n: nat): TopicState
    requires n <= |es|
  {
    if n == 0 then EMPTY_TOPIC else Step(c, At(c, es, n - 1), es[n - 1])
  }

  /** What holds now and did not hold at the start was caused by some step in between. */
  lemma {:induction false} Caused(holds: nat -> bool, cause: nat -> bool, n: nat) returns (i: nat)
    requires holds(n) && !holds(0)
    requires forall m: nat | m < n && holds(m + 1) :: holds(m) || cause(m)
    ensures i < n && cause(i)
  {
    if holds(n - 1) {
      i := Caused(holds, cause, n - 1);
    } else {
      i := n - 1;
      assert holds(i + 1);
    }
  }

  // ---------- the whole store projects onto each topic ----------

  datatype StoreEvent = Receive(r: Record, now: int) | Sweep(now: int, ttl: Topic -> int)

  ghost function StoreStep(c: Config, st: Stores, ev: StoreEvent): Stores {
    match ev
    case Receive(r, now) => Apply(c, st, r, now).0
    case Sweep(now, ttl) => Reap(st, now, ttl)
  }

  ghost function StoreAt(c: Config, es: seq<StoreEvent>): Stores {
    if es == [] then map[] else StoreStep(c, StoreAt(c, es[..|es| - 1]), es[|es| - 1])
  }

  ghost predicate Reaches(c: Config, st: Stores, ev: StoreEvent, t: Topic) {
    match ev
    case Receive(r, now) => r.topic == t && (t in st || |st| < c.maxTopics)
    case Sweep(now, ttl) => ttl(t) > 0
  }

  ghost function OnTopic(ev: StoreEvent, t: Topic): Event {
    match ev
    case Receive(r, now) => Arrive(r, now)
    case Sweep(now, ttl) => Reaped(now, ttl(t))
  }

  /** The events of a store run that one topic gets to see. */
  ghost function Project(c: Config, es: seq<StoreEvent>, t: Topic): seq<Event> {
    if es == [] then []
    else
      var p, last := es[..|es| - 1], es[|es| - 1];
      Project(c, p, t) + if Reaches(c, StoreAt(c, p), last, t) then [OnTopic(last, t)] else []
  }

  lemma {:induction false} ReapVacant(ts: TopicState, now: int, ttlMs: int)
    requires Vacant(ReapTopic(ts, now, ttlMs))
    ensures ReapTopic(ts, now, ttlMs) == EMPTY_TOPIC
  {
    assert ReapTopic(ts, now, ttlMs).restoredAt == map[];
  }

  lemma {:induction false} StoreStepOnTopic(c: Config, st: Stores, ev: StoreEvent, t: Topic)
    requires c.maxTopics > 0 && |st| <= c.maxTopics
    ensures |StoreStep(c, st, ev)| <= c.maxTopics
    ensures TopicOf(StoreStep(c, st, ev), t) ==
            if Reaches(c, st, ev, t) then Step(c, TopicOf(st, t), OnTopic(ev, t)) else TopicOf(st, t)
  {
    var st' := StoreStep(c, st, ev);
    match ev {
      case Receive(r, now) =>
        if r.topic in st || |st| < c.maxTopics {
          assert st'.Keys == st.Keys + {r.topic};
          assert |st'| == |st'.Keys| && |st| == |st.Keys|;
        }
      case Sweep(now, ttl) =>
        assert |st'| == |st'.Keys| && |st| == |st.Keys|;
        SubsetCard(st'.Keys, st.Keys);
        if t in st && ttl(t) > 0 {
          if Vacant(ReapTopic(st[t], now, ttl(t))) {
            ReapVacant(st[t], now, ttl(t));
          }
        } else if ttl(t) > 0 {
          ReapVacant(EMPTY_TOPIC, now, ttl(t));
        }
    }
  }

  lemma {:induction false} AtExtends(c: Config, es: seq<Event>, more: seq<Event>, n: nat)
    requires n <= |es|
    ensures At(c, es + more, n) == At(c, es, n)
  {
    if n > 0 {
      AtExtends(c, es, more, n - 1);
    }
  }

  lemma {:induction false} AtSnoc(c: Config, es: seq<Event>, ev: Event)
    ensures At(c, es + [ev], |es| + 1) == Step(c, At(c, es, |es|), ev)
  {
    AtExtends(c, es, [ev], |es|);
  }

  /** Every reachable store holds at most maxTopics topics, and each topic is in a state that a
      run of its own events reaches, so every theorem about topic runs holds of it. */
  lemma {:induction false} StoreProjects(c: Config, es: seq<StoreEvent>, t: Topic)
    requires c.maxTopics > 0
    ensures |StoreAt(c, es)| <= c.maxTopics
    ensures var p := Project(c, es, t); TopicOf(StoreAt(c, es), t) == At(c, p, |p|)
  {
    if es != [] {
      var p, last := es[..|es| - 1], es[|es| - 1];
      StoreProjects(c, p, t);
      StoreStepOnTopic(c, StoreAt(c, p), last, t);
      var q := Project(c, p, t);
      if Reaches(c, StoreAt(c, p), last, t) {
        AtSnoc(c, q, OnTopic(last, t));
      } else {
        assert q + [] == q;
      }
    }
  }

  // ---------- structure ----------

  /** An attestation crosses the quorum against a node that holds no slot. */
  ghost predicate AbsentCrossing(c: Config, ts: TopicState, ev: Event) {
    && ev.Arrive? && ev.r.IsAttestation() && Crosses(c, ts, ev.r, ev.now)
    && HeldBy(ts.records, ev.r.nodeID) == {}
  }

  ghost function AbsentCrossings(c: Config, es: seq<Event>, n: nat): nat
    requires n <= |es|
  {
    if n == 0 then 0
    else AbsentCrossings(c, es, n - 1) + if AbsentCrossing(c, At(c, es, n - 1), es[n - 1]) then 1 else 0
  }

  ghost predicate SlotsWithin(c: Config, slots: set<Slot>, extra: nat) {
    |slots| <= c.maxRecords + extra && forall n: NodeID :: |OfNode(slots, n)| <= c.maxKeys
  }

  ghost predicate WithinCaps(c: Config, ts: TopicState, extra: nat) {
    && SlotsWithin(c, ts.records.Keys, extra)
    && forall n | n in ts.attestations :: |ts.attestations[n]| <= c.maxAttestations
  }

  lemma {:induction false} OneMoreSlot(c: Config, slots: set<Slot>, k: Slot, extra: nat, more: nat)
    requires SlotsWithin(c, slots, extra) && extra <= more
    requires |slots| < c.maxRecords + more && |OfNode(slots, k.node)| < c.maxKeys
    ensures SlotsWithin(c, slots + {k}, more)
  {
    forall n: NodeID
      ensures |OfNode(slots + {k}, n)| <= c.maxKeys
    {
      if n == k.node {
        assert OfNode(slots + {k}, n) == OfNode(slots, n) + {k};
      } else {
        assert OfNode(slots + {k}, n) == OfNode(slots, n);
      }
    }
  }

  lemma {:induction false} FewerSlots(c: Config, slots: set<Slot>, fewer: set<Slot>, extra: nat)
    requires SlotsWithin(c, slots, extra) && fewer <= slots
    ensures SlotsWithin(c, fewer, extra)
  {
    SubsetCard(fewer, slots);
    forall n: NodeID
      ensures |OfNode(fewer, n)| <= c.maxKeys
    {
      SubsetCard(OfNode(fewer, n), OfNode(slots, n));
    }
  }

  lemma {:induction false} JoinedSize(c: Config, ts: TopicState, att: Record, now: int)
    requires Fresh(c, ts, att, now) && |Witnesses(ts, att.nodeID)| <= c.maxAttestations
    ensures |Joined(c, ts, att)| <= c.maxAttestations
  {
    var w := Witnesses(ts, att.nodeID);
    PutSize(w, att.observer, att);
    SubmapSize(Joined(c, ts, att), w[att.observer := att]);
  }

  lemma {:induction false} BuriedCaps(c: Config, records: map<Slot, Record>, topic: Topic, node: NodeID, hlc: u64,
                                      extra: nat)
    requires c.Valid() && SlotsWithin(c, records.Keys, extra)
    ensures SlotsWithin(c, Buried(records, topic, node, hlc).Keys,
                        extra + if HeldBy(records, node) == {} then 1 else 0)
  {
    BuriedSlots(records, topic, node, hlc);
    if HeldBy(records, node) == {} {
      OneMoreSlot(c, records.Keys, Slot(node, []), extra, extra + 1);
    }
  }

  lemma {:induction false} AttestCaps(c: Config, ts: TopicState, att: Record, now: int, extra: nat)
    requires c.Valid() && att.IsAttestation() && WithinCaps(c, ts, extra)
    ensures WithinCaps(c, AttestStep(c, ts, att, now).0,
                       extra + if AbsentCrossing(c, ts, Arrive(att, now)) then 1 else 0)
  {
    if Fresh(c, ts, att, now) {
      JoinedSize(c, ts, att, now);
      BuriedCaps(c, ts.records, att.topic, att.nodeID, Inc64(HighestHlc(Joined(c, ts, att))), extra);
    }
  }

  lemma {:induction false} OwnerCaps(c: Config, ts: TopicState, r: Record, now: int, extra: nat)
    requires WithinCaps(c, ts, extra)
    ensures WithinCaps(c, OwnerStep(c, ts, r, now).0, extra)
  {
    var ts', slot := OwnerStep(c, ts, r, now).0, SlotOf(r);
    if slot !in ts.records && HasRoom(c, ts.records, r.nodeID) {
      assert |ts.records| == |ts.records.Keys|;
      OneMoreSlot(c, ts.records.Keys, slot, extra, extra);
      assert ts'.records.Keys == ts.records.Keys + {slot};
    } else {
      assert ts'.records.Keys == ts.records.Keys;
    }
  }

  /** Every reachable topic is well filed and within its caps, the per-topic cap being exceeded by
      at most one slot for each quorum crossed against a node that held none. */
  lemma {:induction false} StructureKept(c: Config, es: seq<Event>, n: nat)
    requires c.Valid() && n <= |es|
    ensures WellFiled(At(c, es, n))
    ensures WithinCaps(c, At(c, es, n), AbsentCrossings(c, es, n))
  {
    if n == 0 {
      assert forall m: NodeID :: OfNode(EMPTY_TOPIC.records.Keys, m) == {};
    } else {
      StructureKept(c, es, n - 1);
      var ts, extra := At(c, es, n - 1), AbsentCrossings(c, es, n - 1);
      match es[n - 1] {
        case Arrive(r, now) =>
          TopicStepWellFiled(c, ts, r, now);
          if r.IsAttestation() {
            AttestCaps(c, ts, r, now, extra);
          } else {
            OwnerCaps(c, ts, r, now, extra);
          }
        case Reaped(now, ttlMs) =>
          FewerSlots(c, ts.records.Keys, ReapTopic(ts, now, ttlMs).records.Keys, extra);
      }
    }
  }

  /** Between two points of a run with no sweep in between, no slot disappears and no slot's rank
      drops. */
  lemma {:induction false} RanksRise(c: Config, es: seq<Event>, m: nat, n: nat)
    requires m <= n <= |es|
    requires forall i | m <= i < n :: es[i].Arrive?
    ensures Advances(At(c, es, m).records, At(c, es, n).records)
  {
    if m < n {
      RanksRise(c, es, m, n - 1);
      TopicStepAdvances(c, At(c, es, n - 1), es[n - 1].r, es[n - 1].now);
      AdvancesTransitive(At(c, es, m).records, At(c, es, n - 1).records, At(c, es, n).records);
    }
  }
}
