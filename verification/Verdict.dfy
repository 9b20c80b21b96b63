/** Arrival-order independence of the death verdict: whatever the order and repetition in which a
    fixed set of attestations reaches a store, the same slots of the target survive. */
module Verdict {
  import opened Bytes
  import opened Records
  import opened Finite
  import opened Store
  import opened Convergence
  import opened Quorum
  import Clock

  /** The node's live slots. */
  ghost function Live(records: map<Slot, Record>, node: NodeID): set<Slot> {
    set k | k in records && k.node == node && !records[k].tombstone
  }

  /** A set of attestations against `node`, one per observer, each with the role and above the
      node's fence, and pairwise within the corroboration window. */
  ghost predicate Corroborated(c: Config, fences: map<NodeID, int>, node: NodeID, a: map<NodeID, Record>) {
    && WitnessesOf(node, a) && SaneTimes(a) && c.windowMs < TWO_63
    && (forall o | o in a :: c.role(o, a[o].pubKey) && a[o].hlc + 1 < TWO_64)
    && (forall o, p {:trigger Apart(a[o], a[p])} | o in a && p in a :: Apart(a[o], a[p]) <= c.windowMs)
    && (node in fences ==> forall o | o in a :: fences[node] < a[o].observedAt)
  }

  /** How much later than `b` the attestation `a` was observed. */
  function Apart(a: Record, b: Record): int {
    a.observedAt - b.observedAt
  }

  /** Every arrival is one of the attestations, not further ahead of the clock than the budget. */
  ghost predicate Delivers(a: map<NodeID, Record>, e: seq<Arrival>) {
    forall x | x in e ::
      && x.r.observer in a && x.r == a[x.r.observer]
      && x.r.observedAt <= x.now + Clock.SKEW_BUDGET_MS
  }

  ghost function HeardFrom(e: seq<Arrival>): set<NodeID> {
    if e == [] then {} else {e[0].r.observer} + HeardFrom(e[1..])
  }

  lemma {:induction false} HeardFromHas(e: seq<Arrival>, i: nat)
    requires i < |e|
    ensures e[i].r.observer in HeardFrom(e)
  {
    if i > 0 {
      HeardFromHas(e[1..], i - 1);
    }
  }

  /** How far the verdict has come when the observers in `seen` have been heard: `w` is the witness
      set, and the slots went from `start` to `now`. */
  ghost predicate Progress(quorum: nat, start: map<Slot, Record>, now: map<Slot, Record>, node: NodeID,
                           a: map<NodeID, Record>, w: map<NodeID, Record>, seen: set<NodeID>) {
    && seen <= a.Keys && Among(w, a)
    && Survives(start, now, node, HighestHlc(a))
    && (Live(now, node) != {} ==> w.Keys == seen)
    && (|w| >= quorum ==> Outrank(now, node, w))
  }

  ghost predicate Among(w: map<NodeID, Record>, a: map<NodeID, Record>) {
    w.Keys <= a.Keys && forall o | o in w :: w[o] == a[o]
  }

  /** Live slots are untouched ones, and none above `hlc` was lost. */
  ghost predicate Survives(start: map<Slot, Record>, now: map<Slot, Record>, node: NodeID, hlc: u64) {
    && Live(now, node) <= Live(start, node)
    && (forall k | k in Live(now, node) :: now[k] == start[k])
    && (forall k | k in Live(start, node) && start[k].hlc > hlc :: k in Live(now, node))
  }

  ghost predicate Outrank(now: map<Slot, Record>, node: NodeID, w: map<NodeID, Record>) {
    forall k, o | k in Live(now, node) && o in w :: now[k].hlc > w[o].hlc
  }

  lemma {:induction false} JoinedAll(c: Config, ts: TopicState, node: NodeID, a: map<NodeID, Record>, att: Record)
    requires Corroborated(c, ts.restoredAt, node, a)
    requires att.observer in a && att == a[att.observer]
    requires Among(Witnesses(ts, node), a)
    ensures Joined(c, ts, att) == Witnesses(ts, node)[att.observer := att]
  {
    var w := Witnesses(ts, node)[att.observer := att];
    assert forall o | o in w :: w[o] == a[o];
    PrunedWindow(c, w);
    NewestBounds(w);
    MaxOfBounds(TimesOf(w));
    forall o | o in w
      ensures NewestObserved(w) - w[o].observedAt <= c.windowMs
    {
      if p :| p in w && w[p].observedAt == NewestObserved(w) {
        assert Apart(a[p], a[o]) <= c.windowMs;
      }
    }
  }

  lemma {:induction false} DeadHasNoLive(records: map<Slot, Record>, node: NodeID, hlc: u64)
    requires DeadAtOrAbove(records, node, hlc)
    ensures Live(records, node) == {}
  {
  }

  /** The live slots after a burial are those that outrank it. */
  lemma {:induction false} BuriedLive(records: map<Slot, Record>, topic: Topic, node: NodeID, hlc: u64)
    ensures Live(Buried(records, topic, node, hlc), node) ==
            set k | k in Live(records, node) && records[k].hlc >= hlc
    ensures forall k | k in Live(Buried(records, topic, node, hlc), node) ::
              Buried(records, topic, node, hlc)[k] == records[k]
  {
    BuriedSlots(records, topic, node, hlc);
  }

  lemma {:induction false} HighestWithin(w: map<NodeID, Record>, a: map<NodeID, Record>)
    requires Among(w, a) && w != map[]
    ensures HighestHlc(w) <= HighestHlc(a)
    ensures (forall o | o in a :: a[o].hlc + 1 < TWO_64) ==> Inc64(HighestHlc(w)) == HighestHlc(w) + 1
  {
    HighestIs(w);
    HighestIs(a);
    var o :| o in w && w[o].hlc == HighestHlc(w);
  }

  lemma {:induction false} StaleArrival(c: Config, start: map<Slot, Record>, ts: TopicState, node: NodeID,
                                        a: map<NodeID, Record>, seen: set<NodeID>, att: Record, now: int)
    requires Corroborated(c, ts.restoredAt, node, a) && |a| <= c.maxAttestations
    requires Progress(c.quorum, start, ts.records, node, a, Witnesses(ts, node), seen)
    requires att.observer in a && att == a[att.observer] && att.observedAt <= now + Clock.SKEW_BUDGET_MS
    requires !Fresh(c, ts, att, now)
    ensures Progress(c.quorum, start, ts.records, node, a, Witnesses(ts, node), seen + {att.observer})
  {
    var w := Witnesses(ts, node);
    assert Admissible(c, ts, att, now);
    if DeadAtOrAbove(ts.records, node, att.hlc) {
      DeadHasNoLive(ts.records, node, att.hlc);
    } else if att.observer !in w {
      SubmapSmaller(w, a, att.observer);
    } else if Live(ts.records, node) != {} {
      assert seen + {att.observer} == seen;
    }
  }

  lemma {:induction false} BurialProgress(start: map<Slot, Record>, records: map<Slot, Record>, topic: Topic,
                                          node: NodeID, a: map<NodeID, Record>, w: map<NodeID, Record>)
    requires Among(w, a) && w != map[] && forall o | o in a :: a[o].hlc + 1 < TWO_64
    requires Survives(start, records, node, HighestHlc(a))
    ensures var after := Buried(records, topic, node, Inc64(HighestHlc(w)));
      && Survives(start, after, node, HighestHlc(a))
      && Outrank(after, node, w)
      && (Live(after, node) != {} ==> Live(records, node) != {})
  {
    HighestWithin(w, a);
    HighestIs(w);
    BuriedLive(records, topic, node, Inc64(HighestHlc(w)));
  }

  lemma {:induction false} JoinProgress(quorum: nat, start: map<Slot, Record>, now: map<Slot, Record>, node: NodeID,
                                        topic: Topic, a: map<NodeID, Record>, w: map<NodeID, Record>,
                                        seen: set<NodeID>, o: NodeID)
    requires Progress(quorum, start, now, node, a, w, seen) && o in a
    requires forall p | p in a :: a[p].hlc + 1 < TWO_64
    ensures var w' := w[o := a[o]];
      var after := if |w'| < quorum then now else Buried(now, topic, node, Inc64(HighestHlc(w')));
      Progress(quorum, start, after, node, a, w', seen + {o})
  {
    var w' := w[o := a[o]];
    assert Among(w', a);
    assert w.Keys == seen ==> w'.Keys == seen + {o};
    if |w'| >= quorum {
      assert w' != map[] by { assert o in w'; }
      BurialProgress(start, now, topic, node, a, w');
    }
  }

  lemma {:induction false} AttestResult(c: Config, ts: TopicState, att: Record, now: int, w: map<NodeID, Record>)
    requires Fresh(c, ts, att, now) && Joined(c, ts, att) == w && att.observer in w
    ensures var ts' := AttestStep(c, ts, att, now).0;
      && Witnesses(ts', att.nodeID) == w
      && ts'.records == if |w| < c.quorum then ts.records
                        else Buried(ts.records, att.topic, att.nodeID, Inc64(HighestHlc(w)))
  {
    assert w != map[];
  }

  /** Attestations never move the fence. */
  lemma {:induction false} AttestKeepsFence(c: Config, ts: TopicState, att: Record, now: int)
    ensures AttestStep(c, ts, att, now).0.restoredAt == ts.restoredAt
  {
  }

  lemma {:induction false} OneArrival(c: Config, start: map<Slot, Record>, ts: TopicState, node: NodeID,
                                      a: map<NodeID, Record>, seen: set<NodeID>, att: Record, now: int)
    requires c.Valid() && Corroborated(c, ts.restoredAt, node, a) && |a| <= c.maxAttestations
    requires Progress(c.quorum, start, ts.records, node, a, Witnesses(ts, node), seen)
    requires att.observer in a && att == a[att.observer] && att.observedAt <= now + Clock.SKEW_BUDGET_MS
    ensures var ts' := TopicStep(c, ts, att, now).0;
      && Progress(c.quorum, start, ts'.records, node, a, Witnesses(ts', node), seen + {att.observer})
      && ts'.restoredAt == ts.restoredAt
  {
    AttestKeepsFence(c, ts, att, now);
    if Fresh(c, ts, att, now) {
      JoinedAll(c, ts, node, a, att);
      AttestResult(c, ts, att, now, Witnesses(ts, node)[att.observer := att]);
      JoinProgress(c.quorum, start, ts.records, node, att.topic, a, Witnesses(ts, node), seen, att.observer);
    } else {
      StaleArrival(c, start, ts, node, a, seen, att, now);
    }
  }

  lemma {:induction false} ProgressStart(quorum: nat, start: map<Slot, Record>, node: NodeID, a: map<NodeID, Record>)
    requires quorum > 0
    ensures Progress(quorum, start, start, node, a, map[], {})
  {
  }

  lemma {:induction false} ProgressKept(c: Config, start: map<Slot, Record>, ts: TopicState, node: NodeID,
                                        a: map<NodeID, Record>, seen: set<NodeID>, e: seq<Arrival>)
    requires c.Valid() && Corroborated(c, ts.restoredAt, node, a) && |a| <= c.maxAttestations && Delivers(a, e)
    requires Progress(c.quorum, start, ts.records, node, a, Witnesses(ts, node), seen)
    ensures var end := Fold(c, ts, e);
      Progress(c.quorum, start, end.records, node, a, Witnesses(end, node), seen + HeardFrom(e))
    decreases |e|
  {
    if e == [] {
      assert seen + HeardFrom(e) == seen;
    } else {
      OneArrival(c, start, ts, node, a, seen, e[0].r, e[0].now);
      var seen' := seen + {e[0].r.observer};
      ProgressKept(c, start, TopicStep(c, ts, e[0].r, e[0].now).0, node, a, seen', e[1..]);
      assert seen + HeardFrom(e) == seen' + HeardFrom(e[1..]);
    }
  }

  lemma {:induction false} AllHeard(quorum: nat, start: map<Slot, Record>, now: map<Slot, Record>, node: NodeID,
                                    a: map<NodeID, Record>, w: map<NodeID, Record>)
    requires Progress(quorum, start, now, node, a, w, a.Keys) && 0 < quorum <= |a|
    ensures Live(now, node) == set k | k in Live(start, node) && start[k].hlc > HighestHlc(a)
  {
    if Live(now, node) != {} {
      assert w == a;
      assert a != map[];
      HighestIs(a);
      var o :| o in a && a[o].hlc == HighestHlc(a);
      assert forall k | k in Live(now, node) :: now[k].hlc > a[o].hlc;
    }
  }

  /** Whatever the order and repetition, once all of at least K corroborating attestations have
      arrived, the target's live slots are exactly its initially live slots above the highest
      attestation, unchanged. */
  lemma {:induction false} VerdictOrderIndependent(c: Config, start: TopicState, node: NodeID, a: map<NodeID, Record>,
                                                   e: seq<Arrival>)
    requires c.Valid() && Corroborated(c, start.restoredAt, node, a)
    requires c.quorum <= |a| <= c.maxAttestations
    requires Witnesses(start, node) == map[] && Delivers(a, e)
    requires forall o | o in a :: exists i :: 0 <= i < |e| && e[i].r == a[o]
    ensures var after := Fold(c, start, e).records;
      && Live(after, node) == (set k | k in Live(start.records, node) && start.records[k].hlc > HighestHlc(a))
      && forall k | k in Live(after, node) :: after[k] == start.records[k]
  {
    ProgressStart(c.quorum, start.records, node, a);
    ProgressKept(c, start.records, start, node, a, {}, e);
    var ts := Fold(c, start, e);
    assert {} + HeardFrom(e) == a.Keys by {
      forall o | o in a
        ensures o in HeardFrom(e)
      {
        var i :| 0 <= i < |e| && e[i].r == a[o];
        HeardFromHas(e, i);
      }
    }
    AllHeard(c.quorum, start.records, ts.records, node, a, Witnesses(ts, node));
  }
}
