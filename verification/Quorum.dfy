/** Quorum safety and the restored-at fence, over whole runs of a topic. A run is indexed: event
    `i` is applied in the state At(c, es, i). */
module Quorum {
  import opened Bytes
  import opened Records
  import opened Finite
  import opened Store
  import opened Runs

  /** The observer holds the role, claims to have observed no more than ten minutes from now, and
      did so after the target was last restored. */
  predicate Credible(c: Config, ts: TopicState, att: Record, now: int) {
    && c.role(att.observer, att.pubKey)
    && att.observedAt <= now + 600_000
    && (att.nodeID in ts.restoredAt ==> ts.restoredAt[att.nodeID] < att.observedAt)
  }

  /** There is something left to claim: the target holds no slot, or one that is live or below. */
  predicate Claimable(records: map<Slot, Record>, node: NodeID, hlc: u64) {
    || (forall k | k in records :: k.node != node)
    || (exists k | k in records :: k.node == node && (!records[k].tombstone || records[k].hlc < hlc))
  }

  /** Event `j` brought `a` into its target's witness set: it was credible there and then, and there
      was something left to claim. */
  ghost predicate AdmittedAt(c: Config, es: seq<Event>, j: nat, a: Record) {
    && j < |es| && es[j].Arrive? && es[j].r == a && a.IsAttestation()
    && Credible(c, At(c, es, j), a, es[j].now) && Claimable(At(c, es, j).records, a.nodeID, a.hlc)
  }

  lemma {:induction false} AdmissibleIsCredible(c: Config, ts: TopicState, att: Record, now: int)
    ensures Admissible(c, ts, att, now) <==> Credible(c, ts, att, now)
    ensures DeadAtOrAbove(ts.records, att.nodeID, att.hlc) <==> !Claimable(ts.records, att.nodeID, att.hlc)
  {
    if k :| k in ts.records && k.node == att.nodeID {
      assert k in HeldBy(ts.records, att.nodeID);
    }
  }

  /** Event `i` completed a quorum against `node`. */
  ghost predicate CrossingAt(c: Config, es: seq<Event>, i: nat, node: NodeID) {
    && i < |es| && es[i].Arrive? && es[i].r.IsAttestation() && es[i].r.nodeID == node
    && Crosses(c, At(c, es, i), es[i].r, es[i].now)
  }

  ghost function WitnessesAt(c: Config, es: seq<Event>, i: nat): map<NodeID, Record>
    requires i < |es| && es[i].Arrive?
  {
    Joined(c, At(c, es, i), es[i].r)
  }

  // ---------- the corroboration window ----------

  /** The prune test is the window test, except that a difference of 2^63 or more overflows and
      is taken for a recent one. */
  lemma {:induction false} StaleExact(newest: int, observedAt: int, windowMs: int)
    requires -TWO_63 <= observedAt <= newest < TWO_63 && 0 <= newest && 0 <= windowMs < TWO_63
    ensures Stale(newest, observedAt, windowMs) <==> windowMs < newest - observedAt < TWO_63
  {
    Wrap64Exact(newest - observedAt);
  }

  ghost predicate SaneTimes(w: map<NodeID, Record>) {
    forall o | o in w :: 0 <= w[o].observedAt < TWO_63
  }

  lemma {:induction false} NewestBounds(w: map<NodeID, Record>)
    ensures NewestObserved(w) >= 0
    ensures forall o | o in w :: w[o].observedAt <= NewestObserved(w)
    ensures SaneTimes(w) ==> NewestObserved(w) < TWO_63
  {
    MaxOfBounds(TimesOf(w));
    assert forall o | o in w :: w[o].observedAt in TimesOf(w);
  }

  /** What survives the prune is exactly what lies within the window of the newest, hence any two
      survivors lie within the window of each other. */
  lemma {:induction false} PrunedWindow(c: Config, w: map<NodeID, Record>)
    requires SaneTimes(w) && c.windowMs < TWO_63
    ensures forall o :: o in Pruned(c, w) <==> o in w && NewestObserved(w) - w[o].observedAt <= c.windowMs
    ensures forall o, p | o in Pruned(c, w) && p in Pruned(c, w) ::
              w[o].observedAt - w[p].observedAt <= c.windowMs
  {
    NewestBounds(w);
    forall o | o in w
      ensures Stale(NewestObserved(w), w[o].observedAt, c.windowMs) <==>
              c.windowMs < NewestObserved(w) - w[o].observedAt
    {
      StaleExact(NewestObserved(w), w[o].observedAt, c.windowMs);
    }
  }

  /** A first witness stands alone. */
  lemma {:induction false} LoneWitness(c: Config, ts: TopicState, att: Record)
    requires c.windowMs < TWO_63 && 0 <= att.observedAt < TWO_63 && Witnesses(ts, att.nodeID) == map[]
    ensures Joined(c, ts, att) == map[att.observer := att] && |Joined(c, ts, att)| == 1
    ensures HighestHlc(Joined(c, ts, att)) == att.hlc
  {
    var w := map[att.observer := att];
    assert Witnesses(ts, att.nodeID)[att.observer := att] == w;
    PrunedWindow(c, w);
    NewestBounds(w);
    MaxOfBounds(TimesOf(w));
    assert Joined(c, ts, att) == w;
    assert |w| == |w.Keys| == |{att.observer}| == 1;
    HighestIs(w);
  }

  // ---------- what one attestation does ----------

  /** The observer is new, and there is room for it, or says something newer than before. */
  predicate SaysMore(c: Config, w: map<NodeID, Record>, att: Record) {
    if att.observer in w then att.observedAt > w[att.observer].observedAt || att.hlc > w[att.observer].hlc
    else |w| < c.maxAttestations
  }

  /** What the outcome of one record says: an owner record reports whether its slot was held; an
      attestation is taken in exactly if it is credible, claims something and says more than is on
      file, and one that is credible is reported as replacing something if the target held a slot or
      it was not taken in. */
  lemma {:induction false} OutcomeMeans(c: Config, ts: TopicState, r: Record, now: int)
    ensures var out := TopicStep(c, ts, r, now).1;
      if !r.IsAttestation() then
        !out.accumulated && (out.replaced <==> SlotOf(r) in ts.records)
      else
        && (out.accumulated <==> Credible(c, ts, r, now) && Claimable(ts.records, r.nodeID, r.hlc) &&
                                 SaysMore(c, Witnesses(ts, r.nodeID), r))
        && (out.replaced <==> Credible(c, ts, r, now) && (HoldsSlot(ts.records, r.nodeID) || !out.accumulated))
  {
    if r.IsAttestation() {
      AdmissibleIsCredible(c, ts, r, now);
      HoldsSlotIs(ts.records, r.nodeID);
    }
  }

  predicate HoldsSlot(records: map<Slot, Record>, node: NodeID) {
    exists k | k in records :: k.node == node
  }

  lemma {:induction false} HoldsSlotIs(records: map<Slot, Record>, node: NodeID)
    ensures HoldsSlot(records, node) <==> HeldBy(records, node) != {}
  {
    if k :| k in records && k.node == node {
      assert k in HeldBy(records, node);
    }
  }

  /** The witness was observed no longer before `a` than the window allows. */
  predicate KeepsUp(c: Config, b: Record, a: Record) {
    a.observedAt - b.observedAt <= c.windowMs
  }

  /** `w'` is `w` after `att` was taken in: it is on file, in place of what its observer said before,
      unless another witness is newer by more than the window; and of the others exactly those stay
      that neither it nor any of them is newer than by more than the window. */
  ghost predicate TakenIn(c: Config, w: map<NodeID, Record>, att: Record, w': map<NodeID, Record>) {
    && (att.observer in w' <==> KeepsUpWithOthers(c, att, w, att.observer))
    && (att.observer in w' ==> w'[att.observer] == att)
    && (forall o | o in w' && o != att.observer :: o in w && w'[o] == w[o])
    && (forall o | o in w && o != att.observer ::
          o in w' <==> KeepsUp(c, w[o], att) && KeepsUpWithOthers(c, w[o], w, att.observer))
  }

  /** Of the witnesses other than `self`, none is newer than `b` by more than the window. */
  ghost predicate KeepsUpWithOthers(c: Config, b: Record, w: map<NodeID, Record>, self: NodeID) {
    forall p | p in w && p != self :: KeepsUp(c, b, w[p])
  }

  /** An attestation that is taken in joins its target's witnesses, superseding what its observer
      said before; one that is not changes nothing. */
  lemma {:induction false} FilesWitness(c: Config, ts: TopicState, att: Record, now: int)
    requires att.IsAttestation() && c.windowMs < TWO_63
    requires SaneTimes(Witnesses(ts, att.nodeID)) && 0 <= att.observedAt < TWO_63
    ensures var (ts', out) := TopicStep(c, ts, att, now);
      if out.accumulated then TakenIn(c, Witnesses(ts, att.nodeID), att, Witnesses(ts', att.nodeID)) else ts' == ts
  {
    if Fresh(c, ts, att, now) {
      JoinTakesIn(c, Witnesses(ts, att.nodeID), att);
      AttestWitnesses(c, ts, att, now, att.nodeID);
    }
  }

  lemma {:induction false} JoinTakesIn(c: Config, w: map<NodeID, Record>, att: Record)
    requires c.windowMs < TWO_63 && SaneTimes(w) && 0 <= att.observedAt < TWO_63
    ensures TakenIn(c, w, att, Pruned(c, w[att.observer := att]))
  {
    var all := w[att.observer := att];
    JoinedIs(c, w, att);
    forall o | o in all
      ensures o in Pruned(c, all) <==> KeepsUp(c, all[o], att) && KeepsUpWithOthers(c, all[o], w, att.observer)
    {
      KeepsUpJoined(c, all[o], w, att);
    }
    PrunedIsPart(c, all);
    SurvivorsTakenIn(c, w, att, all, Pruned(c, all));
  }

  lemma {:induction false} SurvivorsTakenIn(c: Config, w: map<NodeID, Record>, att: Record, all: map<NodeID, Record>,
                                            left: map<NodeID, Record>)
    requires all == w[att.observer := att] && (forall o | o in left :: o in all && left[o] == all[o])
    requires forall o | o in all ::
      o in left <==> KeepsUp(c, all[o], att) && KeepsUpWithOthers(c, all[o], w, att.observer)
    ensures TakenIn(c, w, att, left)
  {
    assert all[att.observer] == att && KeepsUp(c, att, att);
  }

  lemma {:induction false} PrunedIsPart(c: Config, w: map<NodeID, Record>)
    ensures forall o | o in Pruned(c, w) :: o in w && Pruned(c, w)[o] == w[o]
  {
  }

  ghost predicate KeepsUpWithAll(c: Config, b: Record, w: map<NodeID, Record>) {
    forall p | p in w :: KeepsUp(c, b, w[p])
  }

  lemma {:induction false} KeepsUpJoined(c: Config, b: Record, w: map<NodeID, Record>, att: Record)
    ensures KeepsUpWithAll(c, b, w[att.observer := att]) <==>
            KeepsUp(c, b, att) && KeepsUpWithOthers(c, b, w, att.observer)
  {
    var all := w[att.observer := att];
    if KeepsUpWithAll(c, b, all) {
      assert KeepsUp(c, b, all[att.observer]);
      assert forall p | p in w && p != att.observer :: KeepsUp(c, b, all[p]);
    }
  }

  /** What an attestation does to a node's witness set. */
  lemma {:induction false} AttestWitnesses(c: Config, ts: TopicState, att: Record, now: int, node: NodeID)
    ensures Witnesses(AttestStep(c, ts, att, now).0, node) ==
            if att.nodeID == node && Fresh(c, ts, att, now) then Joined(c, ts, att) else Witnesses(ts, node)
  {
  }

  lemma {:induction false} JoinedIs(c: Config, w: map<NodeID, Record>, att: Record)
    requires c.windowMs < TWO_63 && SaneTimes(w) && 0 <= att.observedAt < TWO_63
    ensures var all := w[att.observer := att];
      forall o | o in all :: o in Pruned(c, all) <==> KeepsUpWithAll(c, all[o], all)
  {
    var all := w[att.observer := att];
    PrunedWindow(c, all);
    NewestBounds(all);
    assert att.observer in all;
    var n := NewestWitness(all);
    forall o | o in all
      ensures o in Pruned(c, all) <==> KeepsUpWithAll(c, all[o], all)
    {
      if o in Pruned(c, all) {
        assert forall p | p in all :: all[p].observedAt <= NewestObserved(all);
      } else {
        assert !KeepsUp(c, all[o], all[n]);
      }
    }
  }

  lemma {:induction false} NewestWitness(w: map<NodeID, Record>) returns (o: NodeID)
    requires SaneTimes(w) && w != map[]
    ensures o in w && w[o].observedAt == NewestObserved(w)
  {
    MaxOfBounds(TimesOf(w));
    NewestBounds(w);
    if NewestObserved(w) == 0 {
      o := Pick(w.Keys);
    } else {
      o :| o in w && w[o].observedAt == NewestObserved(w);
    }
  }

  // ---------- safety ----------

  ghost predicate AdmittedBefore(c: Config, es: seq<Event>, n: nat, a: Record) {
    exists j :: 0 <= j < n && AdmittedAt(c, es, j, a)
  }

  ghost predicate OnFile(ts: TopicState, t: NodeID, o: NodeID, a: Record) {
    t in ts.attestations && o in ts.attestations[t] && ts.attestations[t][o] == a
  }

  lemma {:induction false} AttestWitness(c: Config, ts: TopicState, att: Record, now: int, t: NodeID, o: NodeID)
    requires att.IsAttestation()
    requires t in AttestStep(c, ts, att, now).0.attestations
    requires o in AttestStep(c, ts, att, now).0.attestations[t]
    ensures var a := AttestStep(c, ts, att, now).0.attestations[t][o];
      || OnFile(ts, t, o, a)
      || (a == att && Credible(c, ts, att, now) && Claimable(ts.records, att.nodeID, att.hlc))
  {
    AdmissibleIsCredible(c, ts, att, now);
    AttestWitnesses(c, ts, att, now, t);
  }

  lemma {:induction false} StepWitness(c: Config, es: seq<Event>, n: nat, t: NodeID, o: NodeID)
    requires n < |es|
    requires t in At(c, es, n + 1).attestations && o in At(c, es, n + 1).attestations[t]
    ensures var a := At(c, es, n + 1).attestations[t][o];
      OnFile(At(c, es, n), t, o, a) || AdmittedAt(c, es, n, a)
  {
    if es[n].Arrive? && es[n].r.IsAttestation() {
      AttestWitness(c, At(c, es, n), es[n].r, es[n].now, t, o);
    }
  }

  lemma {:induction false} WitnessWasAdmitted(c: Config, es: seq<Event>, n: nat, t: NodeID, o: NodeID)
    requires n <= |es| && t in At(c, es, n).attestations && o in At(c, es, n).attestations[t]
    ensures AdmittedBefore(c, es, n, At(c, es, n).attestations[t][o])
  {
    var a := At(c, es, n).attestations[t][o];
    var holds := (m: nat) => m <= |es| && OnFile(At(c, es, m), t, o, a);
    var cause := (m: nat) => AdmittedAt(c, es, m, a);
    forall m: nat | m < n && holds(m + 1)
      ensures holds(m) || cause(m)
    {
      StepWitness(c, es, m, t, o);
    }
    var j := Caused(holds, cause, n);
  }

  /** What a run may feed the store: signed records, and observation times that are 64-bit and not
      negative. */
  ghost predicate Inputs(es: seq<Event>) {
    forall i | 0 <= i < |es| && es[i].Arrive? ::
      && es[i].r.IsSigned()
      && (es[i].r.IsAttestation() ==> 0 <= es[i].r.observedAt < TWO_63)
  }

  /** A crossing rests on at least K distinct observers, pairwise within the window, each of whom
      was credible at an event of the run that brought the claim; and it touches no other node's
      slots. */
  ghost predicate SoundCrossing(c: Config, es: seq<Event>, i: nat, node: NodeID)
    requires i < |es| && es[i].Arrive?
  {
    var w := WitnessesAt(c, es, i);
    && |w| >= c.quorum
    && (forall o | o in w :: w[o].observer == o && w[o].nodeID == node && c.role(o, w[o].pubKey))
    && (forall o | o in w :: AdmittedBefore(c, es, i + 1, w[o]))
    && (forall o, p | o in w && p in w :: w[o].observedAt - w[p].observedAt <= c.windowMs)
    && SameOutside(At(c, es, i).records, At(c, es, i + 1).records, node)
  }

  lemma {:induction false} JoinedAdmitted(c: Config, es: seq<Event>, i: nat, o: NodeID)
    requires i < |es| && es[i].Arrive? && es[i].r.IsAttestation()
    requires Fresh(c, At(c, es, i), es[i].r, es[i].now)
    requires o in WitnessesAt(c, es, i)
    ensures AdmittedBefore(c, es, i + 1, WitnessesAt(c, es, i)[o])
  {
    var a := WitnessesAt(c, es, i)[o];
    if o == es[i].r.observer {
      AdmissibleIsCredible(c, At(c, es, i), a, es[i].now);
      assert AdmittedAt(c, es, i, a);
    } else {
      WitnessWasAdmitted(c, es, i, es[i].r.nodeID, o);
    }
  }

  lemma {:induction false} CrossingsAreSound(c: Config, es: seq<Event>, i: nat, node: NodeID)
    requires c.Valid() && c.windowMs < TWO_63 && Inputs(es) && CrossingAt(c, es, i, node)
    ensures SoundCrossing(c, es, i, node)
  {
    var ts, att := At(c, es, i), es[i].r;
    var w := WitnessesAt(c, es, i);
    var all := Witnesses(ts, node)[att.observer := att];
    StructureKept(c, es, i);
    JoinedFiled(c, ts, att);
    forall o | o in w
      ensures AdmittedBefore(c, es, i + 1, w[o])
      ensures c.role(o, w[o].pubKey)
    {
      JoinedAdmitted(c, es, i, o);
      var j :| 0 <= j <= i && AdmittedAt(c, es, j, w[o]);
      assert Credible(c, At(c, es, j), w[o], es[j].now);
    }
    forall o | o in all
      ensures 0 <= all[o].observedAt < TWO_63
    {
      if o != att.observer {
        WitnessWasAdmitted(c, es, i, node, o);
      }
    }
    PrunedWindow(c, all);
    TopicStepAdvances(c, ts, att, es[i].now);
  }

  /** Event `i` is the crossing that wrote `r` into slot `k`: one above the highest HLC among the
      witnesses of that crossing. */
  ghost predicate WrittenAt(c: Config, es: seq<Event>, i: nat, k: Slot, r: Record) {
    && CrossingAt(c, es, i, k.node)
    && r == Synth(es[i].r.topic, k.node, k.key, Inc64(HighestHlc(WitnessesAt(c, es, i))))
  }

  /** A slot that a step leaves unsigned either held the same record before, or the step is a
      crossing against its node. */
  lemma {:induction false} UnsignedStep(c: Config, es: seq<Event>, n: nat, k: Slot)
    requires n < |es| && Inputs(es)
    requires k in At(c, es, n + 1).records && !At(c, es, n + 1).records[k].IsSigned()
    ensures var r, before := At(c, es, n + 1).records[k], At(c, es, n).records;
      (k in before && before[k] == r) || WrittenAt(c, es, n, k, r)
  {
    var ts := At(c, es, n);
    if es[n].Arrive? && es[n].r.IsAttestation() && Crosses(c, ts, es[n].r, es[n].now) {
      BuriedSlots(ts.records, es[n].r.topic, es[n].r.nodeID, Inc64(HighestHlc(WitnessesAt(c, es, n))));
    }
  }

  lemma {:induction false} UnsignedOrigin(c: Config, es: seq<Event>, n: nat, k: Slot, r: Record) returns (i: nat)
    requires Inputs(es) && n <= |es| && !r.IsSigned()
    requires k in At(c, es, n).records && At(c, es, n).records[k] == r
    ensures i < n && WrittenAt(c, es, i, k, r)
  {
    var holds := (m: nat) => m <= |es| && k in At(c, es, m).records && At(c, es, m).records[k] == r;
    var cause := (m: nat) => WrittenAt(c, es, m, k, r);
    forall m: nat | m < n && holds(m + 1)
      ensures holds(m) || cause(m)
    {
      UnsignedStep(c, es, m, k);
    }
    i := Caused(holds, cause, n);
  }

  /** Quorum safety: in every run, every unsigned tombstone in the store was written by a sound
      crossing. */
  lemma {:induction false} QuorumSafety(c: Config, es: seq<Event>, n: nat, k: Slot)
    requires c.Valid() && c.windowMs < TWO_63 && Inputs(es) && n <= |es|
    requires k in At(c, es, n).records && !At(c, es, n).records[k].IsSigned()
    ensures exists i :: 0 <= i < n && WrittenAt(c, es, i, k, At(c, es, n).records[k]) &&
                        SoundCrossing(c, es, i, k.node)
  {
    var i := UnsignedOrigin(c, es, n, k, At(c, es, n).records[k]);
    CrossingsAreSound(c, es, i, k.node);
  }
}
