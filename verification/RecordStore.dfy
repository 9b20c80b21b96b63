/** The record store in the form the program has it: one object whose maps are updated in place
    by loops over map keys in arbitrary order. Every method is tied to the transition functions of
    module Store. */
module RecordStores {
  import opened Bytes
  import opened Records
  import opened Finite
  import opened Enumeration
  import opened Store
  import Clock

  // ---------- read-only loops over a topic ----------

  method CountHeld(records: map<Slot, Record>, node: NodeID) returns (held: nat)
    ensures held == |HeldBy(records, node)|
  {
    held := 0;
    var rest := records.Keys;
    ghost var seen: set<Slot> := {};
    while rest != {}
      invariant rest <= records.Keys
      invariant seen == set k | k in records && k !in rest && k.node == node
      invariant held == |seen|
      decreases rest
    {
      var k :| k in rest;
      rest := rest - {k};
      if k.node == node {
        held := held + 1;
        seen := seen + {k};
      }
    }
    assert seen == HeldBy(records, node);
  }

  /** Every slot of the node, once each, in canonical order. */
  method NodeSlots(records: map<Slot, Record>, node: NodeID) returns (out: seq<Slot>)
    ensures out == Canonical(HeldBy(records, node))
  {
    out := [];
    var rest := records.Keys;
    while rest != {}
      invariant rest <= records.Keys
      invariant forall k :: k in out <==> k in records && k !in rest && k.node == node
      invariant forall i, j | 0 <= i < j < |out| :: out[i] != out[j]
      decreases rest
    {
      var k :| k in rest;
      rest := rest - {k};
      if k.node == node {
        out := out + [k];
      }
    }
    assert Members(out) == HeldBy(records, node);
    SortSorts(out);
    out := Sort(out);
    CanonicalSorted(HeldBy(records, node));
    SortedUnique(out, Canonical(HeldBy(records, node)));
  }

  method NodeDeadAtOrAbove(records: map<Slot, Record>, node: NodeID, hlc: u64)
    returns (had: bool, allDead: bool)
    ensures had <==> HeldBy(records, node) != {}
    ensures allDead <==> DeadAtOrAbove(records, node, hlc)
  {
    had, allDead := false, true;
    var rest := records.Keys;
    while rest != {}
      invariant rest <= records.Keys
      invariant had <==> exists k :: k in records && k !in rest && k.node == node
      invariant allDead <==> forall k | k in records && k !in rest && k.node == node ::
                               records[k].tombstone && hlc <= records[k].hlc
      decreases rest
    {
      var k :| k in rest;
      rest := rest - {k};
      if k.node == node {
        had := true;
        if !records[k].tombstone || records[k].hlc < hlc {
          allDead := false;
        }
      }
    }
    if had {
      var k :| k in records && k.node == node;
      assert k in HeldBy(records, node);
    }
    allDead := had && allDead;
  }

  method Newest(w: map<NodeID, Record>) returns (newest: int)
    ensures newest == NewestObserved(w)
  {
    newest := 0;
    var rest := w.Keys;
    while rest != {}
      invariant rest <= w.Keys
      invariant newest == 0 || exists o | o in w :: w[o].observedAt == newest
      invariant 0 <= newest && forall o | o in w && o !in rest :: w[o].observedAt <= newest
      decreases rest
    {
      var o :| o in rest;
      rest := rest - {o};
      if w[o].observedAt > newest {
        newest := w[o].observedAt;
      }
    }
    MaxOfIs(TimesOf(w), newest);
  }

  method MaxHlc(w: map<NodeID, Record>) returns (max: u64)
    ensures max == HighestHlc(w)
  {
    max := 0;
    var rest := w.Keys;
    while rest != {}
      invariant rest <= w.Keys
      invariant max == 0 || exists o | o in w :: w[o].hlc == max
      invariant forall o | o in w && o !in rest :: w[o].hlc <= max
      decreases rest
    {
      var o :| o in rest;
      rest := rest - {o};
      if w[o].hlc > max {
        max := w[o].hlc;
      }
    }
    MaxOfIs(HlcsOf(w), max);
  }

  /** The prune loop: deletes from the set while walking it. */
  method Prune(c: Config, w: map<NodeID, Record>) returns (kept: map<NodeID, Record>)
    ensures kept == Pruned(c, w)
  {
    var newest := Newest(w);
    kept := w;
    var rest := w.Keys;
    while rest != {}
      invariant rest <= w.Keys && rest <= kept.Keys <= w.Keys
      invariant forall o | o in kept :: kept[o] == w[o]
      invariant forall o | o in w && o !in rest ::
                  o in kept <==> !Stale(newest, w[o].observedAt, c.windowMs)
      decreases rest
    {
      var o :| o in rest;
      rest := rest - {o};
      if Stale(newest, w[o].observedAt, c.windowMs) {
        kept := kept - {o};
      }
    }
  }

  /** The synthesis loop: one tombstone in each slot of the node that it outranks. */
  method Bury(records: map<Slot, Record>, topic: Topic, node: NodeID, hlc: u64)
    returns (after: map<Slot, Record>, applied: bool, had: bool)
    ensures after == Buried(records, topic, node, hlc)
    ensures applied <==> after != records
    ensures had <==> HeldBy(records, node) != {}
  {
    var slots := NodeSlots(records, node);
    CanonicalSorted(HeldBy(records, node));
    had := |slots| > 0;
    after, applied := records, false;
    if !had {
      after := records[Slot(node, []) := Synth(topic, node, [], hlc)];
      assert Slot(node, []) !in HeldBy(records, node);
      applied := true;
      return;
    }
    SortedDistinct(slots);
    after, applied := BuryEach(records, slots, topic, node, hlc);
    BuriedInAll(records, topic, node, hlc);
  }

  lemma {:induction false} SortedDistinct(s: seq<Slot>)
    requires StrictlySorted(s)
    ensures forall i, j | 0 <= i < j < |s| :: s[i] != s[j]
    ensures forall k :: k in s <==> k in Members(s)
  {
    forall i, j | 0 <= i < j < |s|
      ensures s[i] != s[j]
    {
      SlotOrder(s[i], s[i], s[i]);
    }
  }

  method BuryEach(records: map<Slot, Record>, slots: seq<Slot>, topic: Topic, node: NodeID, hlc: u64)
    returns (after: map<Slot, Record>, applied: bool)
    requires forall i, j | 0 <= i < j < |slots| :: slots[i] != slots[j]
    requires forall k | k in slots :: k in records
    ensures after == BuriedIn(records, Members(slots), topic, node, hlc)
    ensures applied <==> exists k :: k in Members(slots) && k in records && hlc > records[k].hlc
  {
    after, applied := records, false;
    ghost var done: set<Slot> := {};
    for i := 0 to |slots|
      invariant done == Members(slots[..i])
      invariant after == BuriedIn(records, done, topic, node, hlc)
      invariant applied <==> exists k :: k in done && k in records && hlc > records[k].hlc
    {
      var k := slots[i];
      assert slots[..i + 1] == slots[..i] + [k];
      assert k !in done;
      BuriedInStep(records, done, k, topic, node, hlc);
      if hlc > after[k].hlc {
        after := after[k := Synth(topic, node, k.key, hlc)];
        applied := true;
      }
      done := done + {k};
    }
    assert slots[..|slots|] == slots;
  }

  /** The records with the slots in `done` already buried. */
  function BuriedIn(records: map<Slot, Record>, done: set<Slot>, topic: Topic, node: NodeID, hlc: u64)
    : map<Slot, Record>
  {
    map k | k in records ::
      if k in done && hlc > records[k].hlc then Synth(topic, node, k.key, hlc) else records[k]
  }

  lemma {:induction false} BuriedInStep(records: map<Slot, Record>, done: set<Slot>, k: Slot, topic: Topic,
                                        node: NodeID, hlc: u64)
    requires k in records && k !in done
    ensures BuriedIn(records, done + {k}, topic, node, hlc) ==
            var b := BuriedIn(records, done, topic, node, hlc);
            if hlc > b[k].hlc then b[k := Synth(topic, node, k.key, hlc)] else b
    ensures BuriedIn(records, done, topic, node, hlc)[k] == records[k]
  {
  }

  lemma {:induction false} BuriedInAll(records: map<Slot, Record>, topic: Topic, node: NodeID, hlc: u64)
    requires HeldBy(records, node) != {}
    ensures BuriedIn(records, HeldBy(records, node), topic, node, hlc) == Buried(records, topic, node, hlc)
    ensures Buried(records, topic, node, hlc) != records <==>
            exists k :: k in HeldBy(records, node) && k in records && hlc > records[k].hlc
  {
    var b := Buried(records, topic, node, hlc);
    if k :| k in HeldBy(records, node) && k in records && hlc > records[k].hlc {
      assert b[k] != records[k];
    } else {
      assert b == records;
    }
  }

  /** The number of records across all topics. */
  ghost function Count(st: Stores): nat
    decreases |st|
  {
    if st == map[] then 0
    else
      var t := SomeKey(st);
      RemovedSize(st, t);
      |st[t].records| + Count(st - {t})
  }

  /** The count is the same in whatever order the topics are gone through. */
  lemma {:induction false} CountWith(st: Stores, t: Topic)
    requires t in st
    ensures Count(st) == |st[t].records| + Count(st - {t})
    decreases |st|
  {
    var u := SomeKey(st);
    if u != t {
      RemovedSize(st, u);
      RemovedSize(st, t);
      CountWith(st - {u}, t);
      CountWith(st - {t}, u);
      assert st - {u} - {t} == st - {t} - {u};
    }
  }

  lemma {:induction false} CountPut(st: Stores, t: Topic, ts: TopicState)
    requires t in st
    ensures Count(st[t := ts]) - |ts.records| == Count(st) - |st[t].records| && st[t := ts] - {t} == st - {t}
  {
    var after := st[t := ts];
    assert after - {t} == st - {t};
    CountWith(st, t);
    CountWith(after, t);
  }

  // ---------- listings ----------

  /** Sorting what was collected gives the canonical listing, whatever the order of collection. */
  method InOrder(records: map<Slot, Record>, slots: seq<Slot>, ghost keep: Record -> bool) returns (out: seq<Record>)
    requires forall k :: k in slots <==> k in records && keep(records[k])
    requires forall i, j | 0 <= i < j < |slots| :: slots[i] != slots[j]
    ensures out == Listing(records, keep)
  {
    assert Members(slots) == Kept(records, keep);
    SortSorts(slots);
    var sorted := Sort(slots);
    CanonicalSorted(Kept(records, keep));
    SortedUnique(sorted, Canonical(Kept(records, keep)));
    SortedDistinct(sorted);
    out := seq(|sorted|, i requires 0 <= i < |sorted| => assert sorted[i] in Members(sorted); records[sorted[i]]);
  }

  /** Every witness under its (target, observer) pair, which is ordered as slots are. */
  function WitnessMap(atts: map<NodeID, map<NodeID, Record>>): map<Slot, Record> {
    map n, o | n in atts && o in atts[n] :: Slot(n, o) := atts[n][o]
  }

  ghost function Attested(ts: TopicState): seq<Record> {
    Listing(WitnessMap(ts.attestations), Every())
  }

  ghost predicate Collected(atts: map<NodeID, map<NodeID, Record>>, slots: seq<Slot>, done: set<NodeID>) {
    && (forall k :: k in slots <==> k.node in done && k.node in atts && k.key in atts[k.node])
    && (forall i, j | 0 <= i < j < |slots| :: slots[i] != slots[j])
  }

  method CollectWitnesses(atts: map<NodeID, map<NodeID, Record>>, slots: seq<Slot>, ghost done: set<NodeID>, n: NodeID)
    returns (out: seq<Slot>)
    requires Collected(atts, slots, done) && n in atts && n !in done
    ensures Collected(atts, out, done + {n})
  {
    out := slots;
    var rest := atts[n].Keys;
    while rest != {}
      invariant rest <= atts[n].Keys
      invariant forall k :: k in out <==> k in slots || (k.node == n && k.key in atts[n] && k.key !in rest)
      invariant forall i, j | 0 <= i < j < |out| :: out[i] != out[j]
      decreases rest
    {
      var o :| o in rest;
      rest := rest - {o};
      out := out + [Slot(n, o)];
    }
  }

  // ---------- the store object ----------

  class RecordStore {
    const cfg: Config
    var byTopic: Stores
    var rejectedCap: u64

    /** Non-positive caps are replaced by the defaults. */
    constructor (maxTopics: int, maxRecords: int, maxKeys: int, maxAttestations: int,
                 quorum: nat, windowMs: nat, role: (NodeID, Bytes) -> bool)
      requires quorum >= 1
      ensures cfg.Valid() && byTopic == map[] && rejectedCap == 0
      ensures cfg == Config(if maxTopics <= 0 then 4096 else maxTopics,
                            if maxRecords <= 0 then 65536 else maxRecords,
                            if maxKeys <= 0 then 4096 else maxKeys,
                            if maxAttestations <= 0 then 64 else maxAttestations,
                            quorum, windowMs, role)
    {
      cfg := Config(if maxTopics <= 0 then 4096 else maxTopics,
                    if maxRecords <= 0 then 65536 else maxRecords,
                    if maxKeys <= 0 then 4096 else maxKeys, if maxAttestations <= 0 then 64 else maxAttestations,
                    quorum, windowMs, role);
      byTopic := map[];
      rejectedCap := 0;
    }

    method ApplyExt(r: Record, now: int) returns (applied: bool, replaced: bool, accumulated: bool)
      requires cfg.Valid()
      modifies this
      ensures (byTopic, Outcome(applied, replaced, accumulated)) == Apply(cfg, old(byTopic), r, now)
      ensures rejectedCap == if Capped(cfg, old(byTopic), r, now) then Inc64(old(rejectedCap)) else old(rejectedCap)
    {
      if r.topic !in byTopic {
        if |byTopic| >= cfg.maxTopics {
          rejectedCap := Inc64(rejectedCap);
          return false, false, false;
        }
        byTopic := byTopic[r.topic := EMPTY_TOPIC];
      }
      if r.IsAttestation() {
        applied, replaced, accumulated := ApplyAttestation(r, now);
      } else {
        applied, replaced := ApplyOwner(r, now);
        accumulated := false;
      }
      assert byTopic == old(byTopic)[r.topic := byTopic[r.topic]];
    }

    method ApplyOwner(r: Record, now: int) returns (applied: bool, replaced: bool)
      requires cfg.Valid() && !r.IsAttestation() && r.topic in byTopic
      modifies this
      ensures var (ts, out) := OwnerStep(cfg, old(byTopic)[r.topic], r, now);
              byTopic == old(byTopic)[r.topic := ts] && out == Outcome(applied, replaced, false)
      ensures rejectedCap ==
              if SlotCapped(cfg, old(byTopic)[r.topic], r) then Inc64(old(rejectedCap)) else old(rejectedCap)
    {
      applied, replaced := false, false;
      var ts := byTopic[r.topic];
      var slot := SlotOf(r);
      if slot !in ts.records {
        if |ts.records| >= cfg.maxRecords {
          rejectedCap := Inc64(rejectedCap);
          return;
        }
        var held := CountHeld(ts.records, r.nodeID);
        if held >= cfg.maxKeys {
          rejectedCap := Inc64(rejectedCap);
          return;
        }
        ts := ts.(records := ts.records[slot := r]);
        if !r.tombstone {
          ts := ts.(restoredAt := ts.restoredAt[r.nodeID := now]);
        }
        byTopic := byTopic[r.topic := ts];
        applied := true;
        return;
      }
      replaced := true;
      var cur := ts.records[slot];
      var tie := BytesLess(cur.sig, r.sig);
      if r.hlc > cur.hlc || (r.hlc == cur.hlc && tie) {
        ts := ts.(records := ts.records[slot := r]);
        ts := ts.(attestations := ts.attestations - {r.nodeID});
        if !r.tombstone {
          ts := ts.(restoredAt := ts.restoredAt[r.nodeID := now]);
        }
        byTopic := byTopic[r.topic := ts];
        applied := true;
      }
    }

    method ApplyAttestation(att: Record, now: int) returns (applied: bool, replaced: bool, accumulated: bool)
      requires cfg.Valid() && att.IsAttestation() && att.topic in byTopic
      modifies this
      ensures byTopic.Keys == old(byTopic).Keys
      ensures var (ts, out) := AttestStep(cfg, old(byTopic)[att.topic], att, now);
              byTopic == old(byTopic)[att.topic := ts] && out == Outcome(applied, replaced, accumulated)
      ensures rejectedCap ==
              if WitnessCapped(cfg, old(byTopic)[att.topic], att, now) then Inc64(old(rejectedCap))
              else old(rejectedCap)
    {
      applied, replaced, accumulated := false, false, false;
      var ts := byTopic[att.topic];
      if !cfg.role(att.observer, att.pubKey) {
        return;
      }
      if att.observedAt > now + Clock.SKEW_BUDGET_MS {
        return;
      }
      if att.nodeID in ts.restoredAt && att.observedAt <= ts.restoredAt[att.nodeID] {
        return;
      }
      var had, allDead := NodeDeadAtOrAbove(ts.records, att.nodeID, att.hlc);
      if had && allDead {
        replaced := true;
        return;
      }
      var w := Witnesses(ts, att.nodeID);
      if att.observer in w && att.observedAt <= w[att.observer].observedAt && att.hlc <= w[att.observer].hlc {
        replaced := true;
        return;
      }
      if att.observer !in w && |w| >= cfg.maxAttestations {
        rejectedCap := Inc64(rejectedCap);
        replaced := true;
        return;
      }
      w := w[att.observer := att];
      w := Prune(cfg, w);
      assert w == Joined(cfg, ts, att) && Fresh(cfg, ts, att, now);
      accumulated := true;
      if |w| < cfg.quorum {
        if |w| == 0 {
          ts := ts.(attestations := ts.attestations - {att.nodeID});
        } else {
          ts := ts.(attestations := ts.attestations[att.nodeID := w]);
        }
        byTopic := byTopic[att.topic := ts];
        replaced := had;
        return;
      }
      var max := MaxHlc(w);
      var records;
      records, applied, replaced := Bury(ts.records, att.topic, att.nodeID, Inc64(max));
      ts := ts.(attestations := ts.attestations[att.nodeID := w], records := records);
      byTopic := byTopic[att.topic := ts];
    }

    /** topicRecordsWhere: a snapshot of the kept records, independent of the map order. */
    method TopicRecordsWhere(topic: Topic, keep: Record -> bool) returns (out: seq<Record>)
      ensures out == Listing(TopicOf(byTopic, topic).records, keep)
    {
      var records := TopicOf(byTopic, topic).records;
      var slots: seq<Slot> := [];
      var rest := records.Keys;
      while rest != {}
        invariant rest <= records.Keys
        invariant forall k :: k in slots <==> k in records && k !in rest && keep(records[k])
        invariant forall i, j | 0 <= i < j < |slots| :: slots[i] != slots[j]
        decreases rest
      {
        var k :| k in rest;
        rest := rest - {k};
        if keep(records[k]) {
          slots := slots + [k];
        }
      }
      out := InOrder(records, slots, keep);
    }

    /** topicAttestations: the witnesses on file, by target and observer. */
    method TopicAttestations(topic: Topic) returns (out: seq<Record>)
      ensures out == Attested(TopicOf(byTopic, topic))
    {
      var atts := TopicOf(byTopic, topic).attestations;
      var slots: seq<Slot> := [];
      var rest := atts.Keys;
      while rest != {}
        invariant rest <= atts.Keys && Collected(atts, slots, atts.Keys - rest)
        decreases rest
      {
        var n :| n in rest;
        slots := CollectWitnesses(atts, slots, atts.Keys - rest, n);
        rest := rest - {n};
        assert atts.Keys - rest == (atts.Keys - (rest + {n})) + {n};
      }
      out := InOrder(WitnessMap(atts), slots, Every());
    }

    /** TTL retention over every topic, deleting from the maps while walking them. */
    method ReapExpired(nowMs: int, ttl: Topic -> int) returns (dropped: nat)
      modifies this
      ensures byTopic == Reap(old(byTopic), nowMs, ttl) && rejectedCap == old(rejectedCap)
      ensures dropped == Count(old(byTopic)) - Count(byTopic)
    {
      ghost var before, goal := byTopic, Reap(byTopic, nowMs, ttl);
      dropped := 0;
      var rest := byTopic.Keys;
      while rest != {}
        invariant Walked(before, byTopic, goal, rest) && rejectedCap == old(rejectedCap)
        invariant dropped == Count(before) - Count(byTopic)
        decreases rest
      {
        var t :| t in rest;
        ghost var now := byTopic;
        var after, n := ReapInto(before, byTopic, t, nowMs, ttl);
        byTopic := after;
        dropped := dropped + n;
        WalkedStep(before, now, goal, rest, t, byTopic);
        rest := rest - {t};
      }
      ReapWithin(before, nowMs, ttl);
      WalkedAll(before, byTopic, goal);
    }
  }

  lemma {:induction false} ReapWithin(st: Stores, nowMs: int, ttl: Topic -> int)
    ensures Reap(st, nowMs, ttl).Keys <= st.Keys
  {
  }

  /** One topic of the sweep: expired slots and unused fences go, and so does a topic left with
      nothing. */
  method ReapInto(ghost before: Stores, st: Stores, t: Topic, nowMs: int, ttl: Topic -> int)
    returns (after: Stores, dropped: nat)
    requires t in st && t in before && before[t] == st[t]
    ensures SameAt(after, Reap(before, nowMs, ttl), t) && after - {t} == st - {t}
    ensures dropped == Count(st) - Count(after)
  {
    var ttlMs := ttl(t);
    if ttlMs <= 0 {
      return st, 0;
    }
    var ts;
    ts, dropped := ReapOne(st[t], nowMs, ttlMs);
    if |ts.records| == 0 && |ts.attestations| == 0 {
      CountWith(st, t);
      after := st - {t};
    } else {
      CountPut(st, t, ts);
      after := st[t := ts];
    }
  }

  method ReapOne(ts: TopicState, nowMs: int, ttlMs: int) returns (after: TopicState, dropped: nat)
    ensures after == ReapTopic(ts, nowMs, ttlMs) && dropped == |ts.records| - |after.records|
  {
    dropped := 0;
    ghost var goal := ReapTopic(ts, nowMs, ttlMs);
    var records := ts.records;
    var rest := ts.records.Keys;
    while rest != {}
      invariant Walked(ts.records, records, goal.records, rest) && dropped == |ts.records| - |records|
      decreases rest
    {
      var k :| k in rest;
      ghost var now := records;
      if Expired(records[k], nowMs, ttlMs) {
        RemovedSize(records, k);
        records := records - {k};
        dropped := dropped + 1;
      }
      WalkedStep(ts.records, now, goal.records, rest, k, records);
      rest := rest - {k};
    }
    WalkedAll(ts.records, records, goal.records);
    var fences := ReapFences(ts.restoredAt, records);
    after := TopicState(records, ts.attestations, fences);
  }

  /** Fences of nodes that hold no slot any more are dropped. */
  method ReapFences(restoredAt: map<NodeID, int>, records: map<Slot, Record>) returns (fences: map<NodeID, int>)
    ensures fences == map n | n in restoredAt && HeldBy(records, n) != {} :: restoredAt[n]
  {
    ghost var goal := map n | n in restoredAt && HeldBy(records, n) != {} :: restoredAt[n];
    fences := restoredAt;
    var rest := restoredAt.Keys;
    while rest != {}
      invariant Walked(restoredAt, fences, goal, rest)
      decreases rest
    {
      var n :| n in rest;
      ghost var now := fences;
      var held := CountHeld(records, n);
      if held == 0 {
        fences := fences - {n};
      }
      WalkedStep(restoredAt, now, goal, rest, n, fences);
      rest := rest - {n};
    }
    WalkedAll(restoredAt, fences, goal);
  }
}
