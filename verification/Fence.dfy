/** The restored-at fence over whole runs: once a live owner record has overwritten a slot, only
    attestations observed after that moment can count against the node. */
module Fence {
  import opened Bytes
  import opened Records
  import opened Finite
  import opened Store
  import opened Runs
  import opened Quorum

  /** Event `i` is a live owner record that takes over a slot its node already holds. */
  ghost predicate RestoresAt(c: Config, es: seq<Event>, i: nat, node: NodeID) {
    && i < |es| && es[i].Arrive? && !es[i].r.IsAttestation() && !es[i].r.tombstone && es[i].r.nodeID == node
    && SlotOf(es[i].r) in At(c, es, i).records
    && Beats(es[i].r, At(c, es, i).records[SlotOf(es[i].r)])
  }

  /** The receiver's clock does not run backwards from event `i` on. */
  ghost predicate ClockFrom(es: seq<Event>, i: nat) {
    forall j | i <= j < |es| && es[i].Arrive? && es[j].Arrive? :: es[i].now <= es[j].now
  }

  /** The node holds at least one slot after each of the events `i` to `n - 1`. */
  ghost predicate PresentThrough(c: Config, es: seq<Event>, i: nat, n: nat, node: NodeID)
    requires n <= |es|
  {
    forall m | i < m <= n :: HeldBy(At(c, es, m).records, node) != {}
  }

  /** The fence stands at `t` or later and every witness on file was observed after `t`. */
  ghost predicate Guarded(ts: TopicState, node: NodeID, t: int) {
    && node in ts.restoredAt && t <= ts.restoredAt[node]
    && forall o | o in Witnesses(ts, node) :: t < Witnesses(ts, node)[o].observedAt
  }

  lemma {:induction false} JoinedGuarded(c: Config, ts: TopicState, att: Record, now: int, t: int)
    requires Guarded(ts, att.nodeID, t) && Fresh(c, ts, att, now)
    ensures forall o | o in Joined(c, ts, att) :: t < Joined(c, ts, att)[o].observedAt
  {
  }

  /** What one event does to a node's witness set. */
  lemma {:induction false} StepWitnesses(c: Config, ts: TopicState, ev: Event, node: NodeID)
    ensures var w := Witnesses(Step(c, ts, ev), node);
      if ev.Arrive? && ev.r.IsAttestation() && ev.r.nodeID == node && Fresh(c, ts, ev.r, ev.now) then
        w == Joined(c, ts, ev.r)
      else
        w == Witnesses(ts, node) || w == map[]
  {
    if ev.Arrive? && ev.r.IsAttestation() {
      AttestWitnesses(c, ts, ev.r, ev.now, node);
    }
  }

  /** While the node keeps a slot its fence only moves forward. */
  lemma {:induction false} StepFence(c: Config, ts: TopicState, ev: Event, node: NodeID, t: int)
    requires node in ts.restoredAt && t <= ts.restoredAt[node] && (ev.Arrive? ==> t <= ev.now)
    requires HeldBy(Step(c, ts, ev).records, node) != {}
    ensures var ts' := Step(c, ts, ev); node in ts'.restoredAt && t <= ts'.restoredAt[node]
  {
  }

  lemma {:induction false} StepGuarded(c: Config, ts: TopicState, ev: Event, node: NodeID, t: int)
    requires Guarded(ts, node, t)
    requires ev.Arrive? ==> t <= ev.now
    requires HeldBy(Step(c, ts, ev).records, node) != {}
    ensures Guarded(Step(c, ts, ev), node, t)
  {
    StepFence(c, ts, ev, node, t);
    StepWitnesses(c, ts, ev, node);
    if ev.Arrive? && ev.r.IsAttestation() && ev.r.nodeID == node && Fresh(c, ts, ev.r, ev.now) {
      JoinedGuarded(c, ts, ev.r, ev.now, t);
    }
  }

  lemma {:induction false} FenceStands(c: Config, es: seq<Event>, i: nat, n: nat, node: NodeID)
    requires RestoresAt(c, es, i, node) && i < n <= |es|
    requires ClockFrom(es, i) && PresentThrough(c, es, i, n, node)
    ensures Guarded(At(c, es, n), node, es[i].now)
  {
    if n > i + 1 {
      FenceStands(c, es, i, n - 1, node);
      assert HeldBy(At(c, es, n).records, node) != {};
      StepGuarded(c, At(c, es, n - 1), es[n - 1], node, es[i].now);
    }
  }

  /** After a live owner record overwrote a slot at time t, and while the node keeps a slot, every
      later quorum against it consists of attestations observed strictly after t. */
  lemma {:induction false} FenceHolds(c: Config, es: seq<Event>, i: nat, j: nat, node: NodeID, o: NodeID)
    requires RestoresAt(c, es, i, node) && i < j && CrossingAt(c, es, j, node)
    requires ClockFrom(es, i) && PresentThrough(c, es, i, j, node)
    requires o in WitnessesAt(c, es, j)
    ensures es[i].now < WitnessesAt(c, es, j)[o].observedAt
  {
    FenceStands(c, es, i, j, node);
    JoinedGuarded(c, At(c, es, j), es[j].r, es[j].now, es[i].now);
  }

  /** A node's fence moves exactly when a live owner record of the node changes a slot, and then to
      that moment; nothing else that arrives moves any fence. */
  lemma {:induction false} FenceMovesIff(c: Config, ts: TopicState, r: Record, now: int, node: NodeID)
    ensures var ts' := TopicStep(c, ts, r, now).0;
      if r.nodeID == node && !r.IsAttestation() && !r.tombstone && ts'.records != ts.records then
        node in ts'.restoredAt && ts'.restoredAt[node] == now
      else
        && (node in ts'.restoredAt <==> node in ts.restoredAt)
        && (node in ts.restoredAt ==> ts'.restoredAt[node] == ts.restoredAt[node])
  {
    TopicStepAdvances(c, ts, r, now);
  }

  /** An owner record leaves every witness set as it was, except that one that takes over a slot its
      node already holds, live or tombstone, empties the node's. */
  lemma {:induction false} OwnerClearsIff(c: Config, ts: TopicState, r: Record, now: int, node: NodeID)
    requires !r.IsAttestation()
    ensures var ts' := TopicStep(c, ts, r, now).0;
      Witnesses(ts', node) ==
      if r.nodeID == node && SlotOf(r) in ts.records && ts'.records != ts.records then map[] else Witnesses(ts, node)
  {
    TopicStepAdvances(c, ts, r, now);
  }

  // ---------- opening a new slot ----------

  /** Event `i` is a live owner record that opens a new slot for its node. */
  ghost predicate OpensAt(c: Config, es: seq<Event>, i: nat, node: NodeID) {
    && i < |es| && es[i].Arrive? && !es[i].r.IsAttestation() && !es[i].r.tombstone && es[i].r.nodeID == node
    && SlotOf(es[i].r) !in At(c, es, i).records && HasRoom(c, At(c, es, i).records, node)
  }

  /** Observed at or before `t`, yet within the window of an attestation observed right after. */
  predicate InReach(c: Config, t: int, a: Record) {
    a.observedAt <= t && t + 1 - a.observedAt <= c.windowMs
  }

  /** The fence stands at `t` or later, and no witness on file is in reach of an attestation that
      can still pass it. */
  ghost predicate Screened(c: Config, ts: TopicState, node: NodeID, t: int) {
    && node in ts.restoredAt && t <= ts.restoredAt[node] && SaneTimes(Witnesses(ts, node))
    && forall o | o in Witnesses(ts, node) ::
         t < Witnesses(ts, node)[o].observedAt || !InReach(c, t, Witnesses(ts, node)[o])
  }

  /** The first attestation to pass the fence prunes whatever was observed before it. */
  lemma {:induction false} JoinedScreened(c: Config, ts: TopicState, att: Record, now: int, t: int)
    requires c.windowMs < TWO_63 && 0 <= att.observedAt < TWO_63
    requires Screened(c, ts, att.nodeID, t) && Fresh(c, ts, att, now)
    ensures SaneTimes(Joined(c, ts, att))
    ensures forall o | o in Joined(c, ts, att) :: t < Joined(c, ts, att)[o].observedAt
  {
    var w := Witnesses(ts, att.nodeID)[att.observer := att];
    PrunedWindow(c, w);
    NewestBounds(w);
    assert w[att.observer].observedAt <= NewestObserved(w);
  }

  lemma {:induction false} StepScreened(c: Config, ts: TopicState, ev: Event, node: NodeID, t: int)
    requires c.windowMs < TWO_63 && Inputs([ev]) && Screened(c, ts, node, t)
    requires ev.Arrive? ==> t <= ev.now
    requires HeldBy(Step(c, ts, ev).records, node) != {}
    ensures Screened(c, Step(c, ts, ev), node, t)
  {
    StepFence(c, ts, ev, node, t);
    StepWitnesses(c, ts, ev, node);
    if ev.Arrive? && ev.r.IsAttestation() && ev.r.nodeID == node && Fresh(c, ts, ev.r, ev.now) {
      assert [ev][0] == ev;
      JoinedScreened(c, ts, ev.r, ev.now, t);
    }
  }

  lemma {:induction false} ScreenStands(c: Config, es: seq<Event>, i: nat, n: nat, node: NodeID)
    requires c.windowMs < TWO_63 && Inputs(es) && i < n <= |es| && es[i].Arrive?
    requires Screened(c, At(c, es, i + 1), node, es[i].now)
    requires ClockFrom(es, i) && PresentThrough(c, es, i, n, node)
    ensures Screened(c, At(c, es, n), node, es[i].now)
  {
    if n > i + 1 {
      ScreenStands(c, es, i, n - 1, node);
      assert HeldBy(At(c, es, n).records, node) != {};
      StepScreened(c, At(c, es, n - 1), es[n - 1], node, es[i].now);
    }
  }

  /** Every quorum against the node after event `i` consists of attestations observed after it. */
  ghost predicate AllAfter(c: Config, es: seq<Event>, i: nat, node: NodeID)
    requires i < |es| && es[i].Arrive?
  {
    forall j, o | i < j < |es| && CrossingAt(c, es, j, node) && o in WitnessesAt(c, es, j) ::
      es[i].now < WitnessesAt(c, es, j)[o].observedAt
  }

  /** A way the run may go on: the clock does not go back and the node keeps a slot. */
  ghost predicate Continues(c: Config, es: seq<Event>, more: seq<Event>, node: NodeID)
    requires es != []
  {
    var all, i := es + more, |es| - 1;
    Inputs(all) && ClockFrom(all, i) && PresentThrough(c, all, i, |all|, node)
  }

  /** Whatever follows the last event, every later quorum is observed after it. */
  ghost predicate FencedFrom(c: Config, es: seq<Event>, node: NodeID)
    requires es != [] && es[|es| - 1].Arrive?
  {
    forall more | Continues(c, es, more, node) :: AllAfter(c, es + more, |es| - 1, node)
  }

  lemma {:induction false} ScreenFences(c: Config, es: seq<Event>, node: NodeID)
    requires c.windowMs < TWO_63 && es != [] && es[|es| - 1].Arrive?
    requires Screened(c, At(c, es, |es|), node, es[|es| - 1].now)
    ensures FencedFrom(c, es, node)
  {
    var i := |es| - 1;
    forall more | Continues(c, es, more, node)
      ensures AllAfter(c, es + more, i, node)
    {
      var all := es + more;
      AtExtends(c, es, more, |es|);
      forall j, o | i < j < |all| && CrossingAt(c, all, j, node) && o in WitnessesAt(c, all, j)
        ensures all[i].now < WitnessesAt(c, all, j)[o].observedAt
      {
        ScreenStands(c, all, i, j, node);
        JoinedScreened(c, At(c, all, j), all[j].r, all[j].now, all[i].now);
      }
    }
  }

  /** Any two witnesses on file lie within the window of each other. */
  ghost predicate SetWindowed(c: Config, w: map<NodeID, Record>) {
    SaneTimes(w) && forall o, p | o in w && p in w :: w[o].observedAt - w[p].observedAt <= c.windowMs
  }

  lemma {:induction false} JoinedWindowed(c: Config, ts: TopicState, att: Record)
    requires c.windowMs < TWO_63 && SaneTimes(Witnesses(ts, att.nodeID)) && 0 <= att.observedAt < TWO_63
    ensures SetWindowed(c, Joined(c, ts, att))
  {
    PrunedWindow(c, Witnesses(ts, att.nodeID)[att.observer := att]);
  }

  lemma {:induction false} OnFileWindowed(c: Config, es: seq<Event>, n: nat, node: NodeID)
    requires c.windowMs < TWO_63 && Inputs(es) && n <= |es|
    ensures SetWindowed(c, Witnesses(At(c, es, n), node))
  {
    if n > 0 {
      OnFileWindowed(c, es, n - 1, node);
      var ts, ev := At(c, es, n - 1), es[n - 1];
      StepWitnesses(c, ts, ev, node);
      if ev.Arrive? && ev.r.IsAttestation() && ev.r.nodeID == node {
        JoinedWindowed(c, ts, ev.r);
      }
    }
  }

  /** An observer that could still be heard: its NodeID and public key. */
  datatype Observer = Observer(id: NodeID, pubKey: Bytes)

  function Claim(topic: Topic, node: NodeID, o: Observer, at: int): Record {
    Record(topic, node, 0, [], true, o.pubKey, [1], [], o.id, at)
  }

  /** The old attestation `a` and the observers heard since, `got`, are on file, and nothing on
      file is out of the window of `a`. */
  ghost predicate Counted(c: Config, w: map<NodeID, Record>, t: int, a: Record, got: set<NodeID>) {
    && 0 <= t && t + 1 < TWO_63 && InReach(c, t, a) && a.observer in w && w[a.observer] == a && a.observer !in got
    && SaneTimes(w) && (forall o | o in w :: w[o].observedAt <= a.observedAt + c.windowMs)
    && (forall o | o in got :: o in w && w[o].observedAt == t + 1)
  }

  /** Enough observers are still to be heard: they pass the role check, are not on file and fit the
      cap, there is at least one, and with the old attestation and the `got` new ones they make a
      quorum. */
  ghost predicate Unheard(c: Config, w: map<NodeID, Record>, got: nat, obs: seq<Observer>) {
    && 1 <= |obs| && c.quorum <= got + |obs| + 1 && |w| + |obs| <= c.maxAttestations
    && (forall q | 0 <= q < |obs| :: obs[q].id != [] && obs[q].id !in w && c.role(obs[q].id, obs[q].pubKey))
    && (forall q, q' | 0 <= q < q' < |obs| :: obs[q].id != obs[q'].id)
  }

  /** On the way to a quorum that contains `a`, with the node alive and its fence at `t`. */
  ghost predicate Building(c: Config, ts: TopicState, node: NodeID, t: int, a: Record, got: set<NodeID>,
                           obs: seq<Observer>) {
    && (exists k :: k in ts.records && k.node == node && !ts.records[k].tombstone)
    && node in ts.restoredAt && ts.restoredAt[node] == t
    && Counted(c, Witnesses(ts, node), t, a, got)
    && Unheard(c, Witnesses(ts, node), |got|, obs)
  }

  lemma {:induction false} NextFresh(c: Config, ts: TopicState, topic: Topic, node: NodeID, t: int, a: Record,
                                     got: set<NodeID>, obs: seq<Observer>)
    requires c.Valid() && Building(c, ts, node, t, a, got, obs)
    ensures Fresh(c, ts, Claim(topic, node, obs[0], t + 1), t)
  {
  }

  /** Adding an attestation observed right after `t` prunes nothing observed since `a`. */
  lemma {:induction false} PruneKeeps(c: Config, w: map<NodeID, Record>, b: Record, t: int, a: Record)
    requires c.windowMs < TWO_63 && SaneTimes(w) && 0 <= t && t + 1 < TWO_63 && b.observedAt == t + 1
    requires InReach(c, t, a) && 0 <= a.observedAt &&
             (forall o | o in w :: w[o].observedAt <= a.observedAt + c.windowMs)
    ensures var all := w[b.observer := b];
      SaneTimes(all) && forall o | o in all && a.observedAt <= all[o].observedAt :: o in Pruned(c, all)
  {
    var all := w[b.observer := b];
    PrunedWindow(c, all);
    NewestBounds(all);
    MaxOfBounds(TimesOf(all));
    assert NewestObserved(all) <= a.observedAt + c.windowMs;
  }

  /** The next observer is counted, and so is everybody counted so far. */
  lemma {:induction false} NextHeard(c: Config, ts: TopicState, topic: Topic, node: NodeID, t: int, a: Record,
                                     got: set<NodeID>, obs: seq<Observer>)
    requires c.windowMs < TWO_63 && Building(c, ts, node, t, a, got, obs)
    ensures var w, w' := Witnesses(ts, node), Joined(c, ts, Claim(topic, node, obs[0], t + 1));
      && got + {a.observer} + {obs[0].id} <= w'.Keys <= w.Keys + {obs[0].id}
      && forall o | o in w' :: w'[o] == if o == obs[0].id then Claim(topic, node, obs[0], t + 1) else w[o]
  {
    var w, b := Witnesses(ts, node), Claim(topic, node, obs[0], t + 1);
    PruneKeeps(c, w, b, t, a);
    assert Joined(c, ts, b) == Pruned(c, w[b.observer := b]);
    forall o | o in got + {a.observer} + {b.observer}
      ensures o in Joined(c, ts, b)
    {
      assert a.observedAt <= w[b.observer := b][o].observedAt;
    }
  }

  lemma {:induction false} NextSize(c: Config, ts: TopicState, topic: Topic, node: NodeID, t: int, a: Record,
                                    got: set<NodeID>, obs: seq<Observer>)
    requires c.windowMs < TWO_63 && Building(c, ts, node, t, a, got, obs)
    ensures |got| + 2 <= |Joined(c, ts, Claim(topic, node, obs[0], t + 1))| <= |Witnesses(ts, node)| + 1
  {
    var w, w' := Witnesses(ts, node), Joined(c, ts, Claim(topic, node, obs[0], t + 1));
    NextHeard(c, ts, topic, node, t, a, got, obs);
    TwoMore(got, a.observer, obs[0].id);
    SubsetCard(got + {a.observer} + {obs[0].id}, w'.Keys);
    SubsetCard(w'.Keys, w.Keys + {obs[0].id});
    assert |w| == |w.Keys| && |w'| == |w'.Keys|;
  }

  lemma {:induction false} TwoMore(got: set<NodeID>, x: NodeID, y: NodeID)
    requires x !in got && y !in got && x != y
    ensures |got + {x} + {y}| == |got| + 2
  {
  }

  /** The last event completes a quorum that contains `a`. */
  ghost predicate Overtaken(c: Config, es: seq<Event>, node: NodeID, a: Record) {
    && es != [] && CrossingAt(c, es, |es| - 1, node)
    && a.observer in WitnessesAt(c, es, |es| - 1) && WitnessesAt(c, es, |es| - 1)[a.observer] == a
  }

  /** Signed attestations that arrive at `t` and were observed right after it. */
  ghost predicate Claims(more: seq<Event>, t: int) {
    forall q | 0 <= q < |more| ::
      more[q].Arrive? && more[q].now == t && more[q].r.IsSigned() && more[q].r.observedAt == t + 1
  }

  lemma {:induction false} LastOvertakes(c: Config, es: seq<Event>, att: Record, now: int, a: Record)
    requires att.IsAttestation() && Crosses(c, At(c, es, |es|), att, now)
    requires var w := Joined(c, At(c, es, |es|), att); a.observer in w && w[a.observer] == a
    ensures Overtaken(c, es + [Arrive(att, now)], att.nodeID, a)
  {
    AtExtends(c, es, [Arrive(att, now)], |es|);
  }

  lemma {:induction false} LastHeard(c: Config, ts: TopicState, topic: Topic, node: NodeID, t: int, a: Record,
                                     got: set<NodeID>, obs: seq<Observer>)
    requires c.Valid() && c.windowMs < TWO_63 && Building(c, ts, node, t, a, got, obs)
    requires c.quorum <= |Joined(c, ts, Claim(topic, node, obs[0], t + 1))|
    ensures var b := Claim(topic, node, obs[0], t + 1);
      Crosses(c, ts, b, t) && a.observer in Joined(c, ts, b) && Joined(c, ts, b)[a.observer] == a
  {
    NextFresh(c, ts, topic, node, t, a, got, obs);
    NextHeard(c, ts, topic, node, t, a, got, obs);
  }

  /** Hearing one more observer completes the quorum or keeps building it. */
  lemma {:induction false} HearNext(c: Config, es: seq<Event>, topic: Topic, node: NodeID, t: int, a: Record,
                                    got: set<NodeID>, obs: seq<Observer>)
    requires c.Valid() && c.windowMs < TWO_63 && Building(c, At(c, es, |es|), node, t, a, got, obs)
    ensures var next := es + [Arrive(Claim(topic, node, obs[0], t + 1), t)];
      Overtaken(c, next, node, a) || Building(c, At(c, next, |next|), node, t, a, got + {obs[0].id}, obs[1..])
  {
    var ts, b := At(c, es, |es|), Claim(topic, node, obs[0], t + 1);
    if c.quorum <= |Joined(c, ts, b)| {
      LastHeard(c, ts, topic, node, t, a, got, obs);
      LastOvertakes(c, es, b, t, a);
    } else {
      AtSnoc(c, es, Arrive(b, t));
      StillBuilding(c, ts, topic, node, t, a, got, obs);
    }
  }

  /** The run can go on to a quorum that contains the old attestation. */
  lemma {:induction false} QuorumReachable(c: Config, es: seq<Event>, topic: Topic, node: NodeID, t: int, a: Record,
                                           got: set<NodeID>, obs: seq<Observer>) returns (more: seq<Event>)
    requires c.Valid() && c.windowMs < TWO_63 && Building(c, At(c, es, |es|), node, t, a, got, obs)
    ensures Claims(more, t) && Overtaken(c, es + more, node, a) && more != []
    decreases |obs|
  {
    var ev := Arrive(Claim(topic, node, obs[0], t + 1), t);
    HearNext(c, es, topic, node, t, a, got, obs);
    if Overtaken(c, es + [ev], node, a) {
      more := [ev];
    } else {
      var rest := QuorumReachable(c, es + [ev], topic, node, t, a, got + {obs[0].id}, obs[1..]);
      more := [ev] + rest;
      SeqGroups(es, [ev], rest);
    }
  }

  lemma {:induction false} StillBuilding(c: Config, ts: TopicState, topic: Topic, node: NodeID, t: int, a: Record,
                                         got: set<NodeID>, obs: seq<Observer>)
    requires c.Valid() && c.windowMs < TWO_63 && Building(c, ts, node, t, a, got, obs)
    requires |Joined(c, ts, Claim(topic, node, obs[0], t + 1))| < c.quorum
    ensures Building(c, AttestStep(c, ts, Claim(topic, node, obs[0], t + 1), t).0, node, t, a, got + {obs[0].id},
                     obs[1..])
  {
    NextFresh(c, ts, topic, node, t, a, got, obs);
    BelowQuorum(c, ts, Claim(topic, node, obs[0], t + 1), t);
    WitnessesBuilding(c, ts, AttestStep(c, ts, Claim(topic, node, obs[0], t + 1), t).0, topic, node, t, a, got, obs);
  }

  lemma {:induction false} WitnessesBuilding(c: Config, ts: TopicState, ts': TopicState, topic: Topic, node: NodeID,
                                             t: int, a: Record, got: set<NodeID>, obs: seq<Observer>)
    requires c.windowMs < TWO_63 && Building(c, ts, node, t, a, got, obs)
    requires ts'.records == ts.records && ts'.restoredAt == ts.restoredAt
    requires Witnesses(ts', node) == Joined(c, ts, Claim(topic, node, obs[0], t + 1))
    requires |Witnesses(ts', node)| < c.quorum
    ensures Building(c, ts', node, t, a, got + {obs[0].id}, obs[1..])
  {
    NextHeard(c, ts, topic, node, t, a, got, obs);
    NextSize(c, ts, topic, node, t, a, got, obs);
    var w, w' := Witnesses(ts, node), Witnesses(ts', node);
    CountedNext(c, w, w', t, a, got, Claim(topic, node, obs[0], t + 1));
    UnheardNext(c, w, w', |got|, obs);
    assert |got + {obs[0].id}| == |got| + 1;
  }

  lemma {:induction false} CountedNext(c: Config, w: map<NodeID, Record>, w': map<NodeID, Record>, t: int, a: Record,
                                       got: set<NodeID>, b: Record)
    requires Counted(c, w, t, a, got) && b.observer !in w && b.observedAt == t + 1
    requires got + {a.observer} + {b.observer} <= w'.Keys <= w.Keys + {b.observer}
    requires forall o | o in w' :: w'[o] == if o == b.observer then b else w[o]
    ensures Counted(c, w', t, a, got + {b.observer})
  {
  }

  lemma {:induction false} UnheardNext(c: Config, w: map<NodeID, Record>, w': map<NodeID, Record>, got: nat,
                                       obs: seq<Observer>)
    requires Unheard(c, w, got, obs) && w'.Keys <= w.Keys + {obs[0].id} && got + 2 <= |w'| <= |w| + 1 && |w'| < c.quorum
    ensures Unheard(c, w', got + 1, obs[1..])
  {
  }

  lemma {:induction false} BelowQuorum(c: Config, ts: TopicState, att: Record, now: int)
    requires Fresh(c, ts, att, now) && |Joined(c, ts, att)| < c.quorum
    ensures var ts' := AttestStep(c, ts, att, now).0;
      ts'.records == ts.records && ts'.restoredAt == ts.restoredAt && Witnesses(ts', att.nodeID) == Joined(c, ts, att)
  {
  }

  /** What arrives takes no slot away. */
  lemma {:induction false} HeldAlong(c: Config, es: seq<Event>, i: nat, m: nat, k: Slot)
    requires i <= m <= |es| && k in At(c, es, i).records && forall j | i <= j < m :: es[j].Arrive?
    ensures HeldBy(At(c, es, m).records, k.node) != {}
  {
    RanksRise(c, es, i, m);
    assert k in HeldBy(At(c, es, m).records, k.node);
  }

  lemma {:induction false} ClaimsFollow(es: seq<Event>, more: seq<Event>)
    requires Inputs(es) && es != [] && es[|es| - 1].Arrive?
    requires 0 <= es[|es| - 1].now && es[|es| - 1].now + 1 < TWO_63 && Claims(more, es[|es| - 1].now)
    ensures Inputs(es + more) && ClockFrom(es + more, |es| - 1)
    ensures forall j | |es| <= j < |es + more| :: (es + more)[j].Arrive?
  {
    var all := es + more;
    assert forall j | |es| <= j < |all| :: all[j] == more[j - |es|];
  }

  lemma {:induction false} ClaimsContinue(c: Config, es: seq<Event>, more: seq<Event>, node: NodeID)
    requires Inputs(es) && es != [] && OpensAt(c, es, |es| - 1, node)
    requires 0 <= es[|es| - 1].now && es[|es| - 1].now + 1 < TWO_63 && Claims(more, es[|es| - 1].now)
    ensures Continues(c, es, more, node)
  {
    var all, k := es + more, SlotOf(es[|es| - 1].r);
    ClaimsFollow(es, more);
    AtExtends(c, es, more, |es|);
    assert k in At(c, es, |es|).records;
    forall m | |es| - 1 < m <= |all|
      ensures HeldBy(At(c, all, m).records, node) != {}
    {
      HeldAlong(c, all, |es|, m, k);
    }
  }

  /** The clock reading of the last event, with room for one more millisecond. */
  ghost predicate Timely(es: seq<Event>) {
    es != [] && es[|es| - 1].Arrive? && 0 <= es[|es| - 1].now && es[|es| - 1].now + 1 < TWO_63
  }

  /** With a supply of observers to hear, every later quorum is observed after a live owner record
      that opens a new slot, whatever the run goes on to do, exactly if no witness on file at that
      moment is in reach: observed at or before it, and no longer ago than the window allows. */
  lemma {:induction false} NewSlotFencedIff(c: Config, es: seq<Event>, node: NodeID, obs: seq<Observer>)
    requires c.Valid() && c.windowMs < TWO_63 && Inputs(es) && Timely(es) && OpensAt(c, es, |es| - 1, node)
    requires Unheard(c, Witnesses(At(c, es, |es|), node), 0, obs)
    ensures var w, t := Witnesses(At(c, es, |es|), node), es[|es| - 1].now;
      FencedFrom(c, es, node) <==> forall o | o in w :: !InReach(c, t, w[o])
  {
    var w, t := Witnesses(At(c, es, |es|), node), es[|es| - 1].now;
    if forall o | o in w :: !InReach(c, t, w[o]) {
      OnFileWindowed(c, es, |es|, node);
      ScreenFences(c, es, node);
    } else {
      var o :| o in w && InReach(c, t, w[o]);
      InReachOvertakes(c, es, node, obs, o);
    }
  }

  lemma {:induction false} InReachOvertakes(c: Config, es: seq<Event>, node: NodeID, obs: seq<Observer>, o: NodeID)
    requires c.Valid() && c.windowMs < TWO_63 && Inputs(es) && Timely(es) && OpensAt(c, es, |es| - 1, node)
    requires Unheard(c, Witnesses(At(c, es, |es|), node), 0, obs)
    requires var w := Witnesses(At(c, es, |es|), node); o in w && InReach(c, es[|es| - 1].now, w[o])
    ensures !FencedFrom(c, es, node)
  {
    OpenedBuilds(c, es, node, obs, o);
    BuildingOvertakes(c, es, node, Witnesses(At(c, es, |es|), node)[o], obs);
  }

  lemma {:induction false} BuildingOvertakes(c: Config, es: seq<Event>, node: NodeID, a: Record, obs: seq<Observer>)
    requires c.Valid() && c.windowMs < TWO_63 && Inputs(es) && Timely(es) && OpensAt(c, es, |es| - 1, node)
    requires Building(c, At(c, es, |es|), node, es[|es| - 1].now, a, {}, obs)
    ensures !FencedFrom(c, es, node)
  {
    var more := QuorumReachable(c, es, es[|es| - 1].r.topic, node, es[|es| - 1].now, a, {}, obs);
    ClaimsContinue(c, es, more, node);
    NotFenced(c, es, more, node, a);
  }

  lemma {:induction false} NotFenced(c: Config, es: seq<Event>, more: seq<Event>, node: NodeID, a: Record)
    requires Timely(es) && more != [] && Continues(c, es, more, node) && Overtaken(c, es + more, node, a)
    requires a.observedAt <= es[|es| - 1].now
    ensures !FencedFrom(c, es, node)
  {
    NotAllAfter(c, es + more, |es| - 1, node, a);
  }

  lemma {:induction false} OpenedBuilds(c: Config, es: seq<Event>, node: NodeID, obs: seq<Observer>, o: NodeID)
    requires c.Valid() && c.windowMs < TWO_63 && Inputs(es) && Timely(es) && OpensAt(c, es, |es| - 1, node)
    requires Unheard(c, Witnesses(At(c, es, |es|), node), 0, obs)
    requires var w := Witnesses(At(c, es, |es|), node); o in w && InReach(c, es[|es| - 1].now, w[o])
    ensures var ts := At(c, es, |es|); Building(c, ts, node, es[|es| - 1].now, Witnesses(ts, node)[o], {}, obs)
  {
    StructureKept(c, es, |es|);
    OnFileWindowed(c, es, |es|, node);
    StartsBuilding(c, At(c, es, |es|), node, es[|es| - 1].now, o, obs, SlotOf(es[|es| - 1].r));
  }

  lemma {:induction false} StartsBuilding(c: Config, ts: TopicState, node: NodeID, t: int, o: NodeID,
                                          obs: seq<Observer>, k: Slot)
    requires WellFiled(ts) && Unheard(c, Witnesses(ts, node), 0, obs) && SetWindowed(c, Witnesses(ts, node))
    requires node in ts.restoredAt && ts.restoredAt[node] == t && 0 <= t && t + 1 < TWO_63
    requires k in ts.records && k.node == node && !ts.records[k].tombstone
    requires o in Witnesses(ts, node) && InReach(c, t, Witnesses(ts, node)[o])
    ensures Building(c, ts, node, t, Witnesses(ts, node)[o], {}, obs)
  {
    assert WitnessesOf(node, Witnesses(ts, node));
  }

  lemma {:induction false} NotAllAfter(c: Config, es: seq<Event>, i: nat, node: NodeID, a: Record)
    requires i < |es| - 1 && es[i].Arrive? && Overtaken(c, es, node, a) && a.observedAt <= es[i].now
    ensures !AllAfter(c, es, i, node)
  {
    assert CrossingAt(c, es, |es| - 1, node) && a.observer in WitnessesAt(c, es, |es| - 1);
  }

  /** A run after which the fence does not hold: an attestation from before the opening of a first
      slot can still count, so the guarantee of FenceHolds cannot be had from that path. */
  lemma {:induction false} FirstSlotNotFenced() returns (c: Config, es: seq<Event>, node: NodeID)
    ensures c.Valid() && Inputs(es) && Timely(es) && OpensAt(c, es, |es| - 1, node)
    ensures !FencedFrom(c, es, node)
  {
    c, node := Config(1, 10, 10, 10, 2, 100, (o, p) => true), [7];
    var before := Record([], [7], 5, [], true, [], [1], [], [1], 5);
    var live := Record([], [7], 6, [], false, [], [1], [], [], 0);
    es := [Arrive(before, 5), Arrive(live, 10)];
    assert At(c, es, 0) == EMPTY_TOPIC;
    FirstWitness(c, before);
    assert At(c, es, 1) == TopicState(map[], map[[7] := map[[1] := before]], map[]);
    assert OfNode({}, [7]) == {};
    assert At(c, es, 2) == TopicState(map[Slot([7], []) := live], map[[7] := map[[1] := before]], map[[7] := 10]);
    assert |map[[1] := before]| == |map[[1] := before].Keys| == |{[1]}| == 1;
    InReachOvertakes(c, es, node, [Observer([2], [])], [1]);
  }

  lemma {:induction false} FirstWitness(c: Config, a: Record)
    requires c.windowMs == 100 && c.quorum == 2 && c.maxAttestations == 10 && c.role(a.observer, a.pubKey)
    requires a.IsAttestation() && a.observedAt == 5
    ensures TopicStep(c, EMPTY_TOPIC, a, 5).0 == TopicState(map[], map[a.nodeID := map[a.observer := a]], map[])
  {
    assert OfNode({}, a.nodeID) == {};
    LoneWitness(c, EMPTY_TOPIC, a);
  }
}
