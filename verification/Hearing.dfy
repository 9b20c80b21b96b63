/** What it takes for an attestation to be heard: that a store has it, or something at least as new of
    the same observer, on file, or that its target is already as dead as it claims; how hearing lasts
    while further attestations arrive; and that a full-range pull makes the prober hear what the
    responder has on file. */
module Hearing {
  import opened Bytes
  import opened Records
  import opened Finite
  import opened Encoding
  import opened Store
  import opened Convergence
  import opened Quorum
  import opened MerkleRoot
  import opened AntiEntropy
  import opened Pulling
  import RecordStores

  /** At least as new on both scales. */
  predicate AtLeast(b: Record, a: Record) {
    a.observedAt <= b.observedAt && a.hlc <= b.hlc
  }

  /** The store has taken note of the attestation. */
  predicate Heard(ts: TopicState, a: Record) {
    || !Claimable(ts.records, a.nodeID, a.hlc)
    || (a.observer in Witnesses(ts, a.nodeID) && AtLeast(Witnesses(ts, a.nodeID)[a.observer], a))
  }

  /** No witness on file against the same target is newer by more than the window. */
  ghost predicate Abreast(c: Config, ts: TopicState, a: Record) {
    SaneTimes(Witnesses(ts, a.nodeID)) && KeepsUpWithAll(c, a, Witnesses(ts, a.nodeID))
  }

  /** `b` does not get in the way of `a`: if it is about the same target it is not newer by more than
      the window, and if it is by the same observer the two are ordered on both scales alike. */
  predicate Agrees(c: Config, b: Record, a: Record) {
    b.nodeID == a.nodeID ==>
      && 0 <= b.observedAt < TWO_63 && KeepsUp(c, a, b)
      && (b.observer == a.observer ==> AtLeast(a, b) || AtLeast(b, a))
  }

  // ---------- one arrival ----------

  /** A credible attestation is heard when it arrives, if there is room. */
  lemma {:induction false} HearsIt(c: Config, ts: TopicState, a: Record, now: int)
    requires a.IsAttestation() && c.windowMs < TWO_63 && 0 <= a.observedAt < TWO_63
    requires Abreast(c, ts, a) && Credible(c, ts, a, now)
    requires a.observer in Witnesses(ts, a.nodeID) || |Witnesses(ts, a.nodeID)| < c.maxAttestations
    ensures Heard(TopicStep(c, ts, a, now).0, a)
  {
    OutcomeMeans(c, ts, a, now);
    FilesWitness(c, ts, a, now);
  }

  /** A record that is not about the target changes nothing for it. */
  lemma {:induction false} OthersApart(c: Config, ts: TopicState, r: Record, now: int, node: NodeID, hlc: u64)
    requires r.nodeID != node
    ensures var ts' := TopicStep(c, ts, r, now).0;
      && Witnesses(ts', node) == Witnesses(ts, node)
      && (Claimable(ts'.records, node, hlc) <==> Claimable(ts.records, node, hlc))
  {
    OthersWitnesses(c, ts, r, now, node);
    OthersRecords(c, ts, r, now);
    SameClaims(ts.records, TopicStep(c, ts, r, now).0.records, r.nodeID, node, hlc);
  }

  lemma {:induction false} OthersRecords(c: Config, ts: TopicState, r: Record, now: int)
    ensures SameOutside(ts.records, TopicStep(c, ts, r, now).0.records, r.nodeID)
  {
    TopicStepAdvances(c, ts, r, now);
  }

  lemma {:induction false} OthersWitnesses(c: Config, ts: TopicState, r: Record, now: int, node: NodeID)
    requires r.nodeID != node
    ensures Witnesses(TopicStep(c, ts, r, now).0, node) == Witnesses(ts, node)
  {
    if r.IsAttestation() {
      AttestWitnesses(c, ts, r, now, node);
    }
  }

  lemma {:induction false} OthersFence(c: Config, ts: TopicState, r: Record, now: int, node: NodeID)
    requires r.nodeID != node
    ensures var ts' := TopicStep(c, ts, r, now).0;
      && (node in ts.restoredAt <==> node in ts'.restoredAt)
      && (node in ts.restoredAt ==> ts'.restoredAt[node] == ts.restoredAt[node])
  {
  }

  lemma {:induction false} SameClaims(a: map<Slot, Record>, b: map<Slot, Record>, other: NodeID, node: NodeID, hlc: u64)
    requires SameOutside(a, b, other) && node != other
    ensures Claimable(a, node, hlc) <==> Claimable(b, node, hlc)
  {
    forall k: Slot | k.node == node
      ensures (k in a <==> k in b) && (k in a ==> a[k] == b[k])
    {
    }
  }

  /** Attestations leave the dead dead. */
  lemma {:induction false} StaysUnclaimable(c: Config, ts: TopicState, b: Record, now: int, node: NodeID, hlc: u64)
    requires b.IsAttestation() && !Claimable(ts.records, node, hlc)
    ensures !Claimable(TopicStep(c, ts, b, now).0.records, node, hlc)
  {
    if Crosses(c, ts, b, now) {
      BuriedStaysUnclaimable(ts.records, b.topic, b.nodeID, Inc64(HighestHlc(Joined(c, ts, b))), node, hlc);
    }
  }

  lemma {:induction false} BuriedStaysUnclaimable(records: map<Slot, Record>, topic: Topic, target: NodeID, at: u64,
                                           node: NodeID, hlc: u64)
    requires !Claimable(records, node, hlc)
    ensures !Claimable(Buried(records, topic, target, at), node, hlc)
  {
    var b := Buried(records, topic, target, at);
    BuriedSlots(records, topic, target, at);
    var k :| k in records && k.node == node;
    assert k in b;
    forall j | j in b && j.node == node
      ensures b[j].tombstone && hlc <= b[j].hlc
    {
      HeldMember(records, k, node);
    }
  }

  lemma {:induction false} HeldMember(records: map<Slot, Record>, k: Slot, node: NodeID)
    requires k in records && k.node == node
    ensures HeldBy(records, node) != {}
  {
    assert k in HeldBy(records, node);
  }

  /** The others on file stay abreast when a further attestation is taken in. */
  lemma {:induction false} StaysAbreast(c: Config, ts: TopicState, b: Record, now: int, a: Record)
    requires b.IsAttestation() && c.windowMs < TWO_63 && Abreast(c, ts, a) && Agrees(c, b, a)
    ensures Abreast(c, TopicStep(c, ts, b, now).0, a)
  {
    if b.nodeID == a.nodeID {
      FilesWitness(c, ts, b, now);
    } else {
      OthersApart(c, ts, b, now, a.nodeID, a.hlc);
    }
  }

  lemma {:induction false} StaysFiled(c: Config, ts: TopicState, b: Record, now: int, a: Record)
    requires b.IsAttestation() && c.windowMs < TWO_63 && Abreast(c, ts, a) && Agrees(c, b, a) && b.nodeID == a.nodeID
    requires a.observer in Witnesses(ts, a.nodeID) && AtLeast(Witnesses(ts, a.nodeID)[a.observer], a)
    ensures Heard(TopicStep(c, ts, b, now).0, a)
  {
    OutcomeMeans(c, ts, b, now);
    FilesWitness(c, ts, b, now);
    if TopicStep(c, ts, b, now).1.accumulated {
      JoinKeeps(c, Witnesses(ts, a.nodeID), b, Witnesses(TopicStep(c, ts, b, now).0, a.nodeID), a);
    }
  }

  /** Taking in `b` does not lose what is on file for `a`. */
  lemma {:induction false} JoinKeeps(c: Config, w: map<NodeID, Record>, b: Record, w': map<NodeID, Record>, a: Record)
    requires TakenIn(c, w, b, w') && SaysMore(c, w, b) && KeepsUpWithAll(c, a, w) && KeepsUp(c, a, b)
    requires b.observer == a.observer ==> AtLeast(a, b) || AtLeast(b, a)
    requires a.observer in w && AtLeast(w[a.observer], a)
    ensures a.observer in w' && AtLeast(w'[a.observer], a)
  {
    if b.observer == a.observer {
      assert AtLeast(b, a);
      assert KeepsUpWithOthers(c, b, w, b.observer);
    } else {
      assert KeepsUpWithOthers(c, w[a.observer], w, b.observer);
    }
  }

  /** What has been heard stays heard. */
  lemma {:induction false} StaysHeard(c: Config, ts: TopicState, b: Record, now: int, a: Record)
    requires b.IsAttestation() && c.windowMs < TWO_63 && Heard(ts, a) && Abreast(c, ts, a) && Agrees(c, b, a)
    ensures Heard(TopicStep(c, ts, b, now).0, a)
  {
    if !Claimable(ts.records, a.nodeID, a.hlc) {
      StaysUnclaimable(c, ts, b, now, a.nodeID, a.hlc);
    } else if b.nodeID == a.nodeID {
      StaysFiled(c, ts, b, now, a);
    } else {
      OthersApart(c, ts, b, now, a.nodeID, a.hlc);
    }
  }

  /** An attestation moves no fence. */
  lemma {:induction false} KeepsFences(c: Config, ts: TopicState, b: Record, now: int)
    requires b.IsAttestation()
    ensures TopicStep(c, ts, b, now).0.restoredAt == ts.restoredAt
  {
  }

  /** It adds no observer but its own. */
  lemma {:induction false} AddsOne(c: Config, ts: TopicState, b: Record, now: int, node: NodeID)
    requires b.IsAttestation()
    ensures Witnesses(TopicStep(c, ts, b, now).0, node).Keys <=
            Witnesses(ts, node).Keys + if b.nodeID == node then {b.observer} else {}
  {
    AttestWitnesses(c, ts, b, now, node);
  }

  // ---------- several arrivals ----------

  /** Every arrival is an attestation that agrees with `a`, and those about its target are by
      observers among `all`. */
  ghost predicate Company(c: Config, e: seq<Arrival>, a: Record, all: set<NodeID>) {
    forall x | x in e ::
      && x.r.IsAttestation() && Agrees(c, x.r, a)
      && (x.r.nodeID == a.nodeID ==> x.r.observer in all)
  }

  lemma {:induction false} HeardLasts(c: Config, ts: TopicState, e: seq<Arrival>, a: Record, all: set<NodeID>)
    requires c.windowMs < TWO_63 && Company(c, e, a, all) && Abreast(c, ts, a) && Heard(ts, a)
    ensures Heard(Fold(c, ts, e), a)
    decreases |e|
  {
    if e != [] {
      assert e[0] in e;
      StaysHeard(c, ts, e[0].r, e[0].now, a);
      StaysAbreast(c, ts, e[0].r, e[0].now, a);
      HeardLasts(c, TopicStep(c, ts, e[0].r, e[0].now).0, e[1..], a, all);
    }
  }

  /** Among attestations that agree with it, and with room for all their observers, a credible
      attestation is heard in the end. */
  lemma {:induction false} HeardAmong(c: Config, ts: TopicState, e: seq<Arrival>, i: nat, a: Record, all: set<NodeID>)
    requires c.windowMs < TWO_63 && Company(c, e, a, all) && Abreast(c, ts, a)
    requires i < |e| && e[i].r == a && Credible(c, ts, a, e[i].now)
    requires Witnesses(ts, a.nodeID).Keys <= all && |all| <= c.maxAttestations
    ensures Heard(Fold(c, ts, e), a)
    decreases |e|
  {
    assert e[0] in e && e[i] in e;
    var ts' := TopicStep(c, ts, e[0].r, e[0].now).0;
    StaysAbreast(c, ts, e[0].r, e[0].now, a);
    if i == 0 {
      var w := Witnesses(ts, a.nodeID);
      if a.observer !in w {
        SubsetCard(w.Keys + {a.observer}, all);
        assert |w| == |w.Keys|;
      }
      HearsIt(c, ts, a, e[0].now);
      HeardLasts(c, ts', e[1..], a, all);
    } else {
      KeepsFences(c, ts, e[0].r, e[0].now);
      AddsOne(c, ts, e[0].r, e[0].now, a.nodeID);
      HeardAmong(c, ts', e[1..], i - 1, a, all);
    }
  }

  // ---------- a pull ----------

  lemma {:induction false} AdmittedHas(admit: Record -> bool, now: int, recs: seq<Record>, a: Record) returns (i: nat)
    requires a in recs && admit(a)
    ensures var e := Admitted(admit, now, recs); i < |e| && e[i] == Arrival(a, now)
  {
    if recs[0] == a {
      i := 0;
    } else {
      assert recs == [recs[0]] + recs[1..];
      i := AdmittedHas(admit, now, recs[1..], a);
      i := i + if admit(recs[0]) then 1 else 0;
    }
  }

  lemma {:induction false} AdmittedFrom(admit: Record -> bool, now: int, recs: seq<Record>)
    ensures forall x | x in Admitted(admit, now, recs) :: x.r in recs && admit(x.r) && x.now == now
  {
    if recs != [] {
      AdmittedFrom(admit, now, recs[1..]);
    }
  }

  lemma {:induction false} PrefixHas(s: seq<Record>, t: seq<Record>, r: Record)
    requires s <= t && r in s
    ensures r in t
  {
    var i :| 0 <= i < |s| && s[i] == r;
    assert t[i] == r;
  }

  /** The observers on file against a target at either side. */
  ghost function Observers(ts: TopicState, r: TopicState, node: NodeID): set<NodeID> {
    Witnesses(ts, node).Keys + Witnesses(r, node).Keys
  }

  /** The attestations on file at the responder that agree with `a` include all those sent. */
  lemma {:induction false} SentKeepsCompany(x: Side, ts: TopicState, r: TopicState, a: Record, sent: seq<Record>)
    requires WellFiled(r) && sent <= RecordStores.Attested(r)
    requires forall o | o in Witnesses(r, a.nodeID) :: Agrees(x.c, Witnesses(r, a.nodeID)[o], a)
    ensures Company(x.c, Admitted(x.admit, x.now, sent), a, Observers(ts, r, a.nodeID))
  {
    AdmittedFrom(x.admit, x.now, sent);
    AttestedFiled(r);
    forall y | y in Admitted(x.admit, x.now, sent)
      ensures WitnessHere(r, y.r)
    {
      PrefixHas(sent, RecordStores.Attested(r), y.r);
    }
  }

  /** Once the view is in, the prober lets the witness in: it passes the gate and is credible, within
      the window of what either side has on file against the target, and there is room for the
      observers of both. */
  ghost predicate LetsIn(x: Side, mid: TopicState, r: TopicState, a: Record) {
    && x.admit(a) && Credible(x.c, mid, a, x.now) && Abreast(x.c, mid, a)
    && (forall o | o in Witnesses(r, a.nodeID) :: Agrees(x.c, Witnesses(r, a.nodeID)[o], a))
    && |Observers(mid, r, a.nodeID)| <= x.c.maxAttestations
  }

  lemma {:induction false} SentHears(x: Side, mid: TopicState, r: TopicState, a: Record, sent: seq<Record>)
    requires WellFiled(r) && sent <= RecordStores.Attested(r) && x.c.windowMs < TWO_63
    requires a in sent && a.IsAttestation() && LetsIn(x, mid, r, a)
    ensures Heard(Absorb(x, mid, sent), a)
  {
    SentKeepsCompany(x, mid, r, a, sent);
    var i := AdmittedHas(x.admit, x.now, sent, a);
    HeardAmong(x.c, mid, Admitted(x.admit, x.now, sent), i, a, Observers(mid, r, a.nodeID));
  }

  /** What follows the view in a full-range answer. */
  lemma {:induction false} SentBeside(x: Side, p: TopicState, r: TopicState, n: NodeID, o: NodeID)
    returns (sent: seq<Record>)
    requires WellFiled(r) && |RangeView(r.records, None, None)| <= 64
    requires n in r.attestations && o in r.attestations[n] && |Earlier(r, n, o)| < 64
    requires Ask(x, p, r, None, RecordStores.Attested(r)).Range?
    ensures var reply := Ask(x, p, r, None, RecordStores.Attested(r));
      !reply.truncated && reply.recs == RangeView(r.records, None, None) + sent
    ensures sent <= RecordStores.Attested(r) && r.attestations[n][o] in sent
  {
    var a, view, atts := r.attestations[n][o], RangeView(r.records, None, None), RecordStores.Attested(r);
    sent := if |atts| > 64 then atts[..64] else atts;
    WitnessSentIff(x.h, r, Root(x.h, RangeView(p.records, None, None)), n, o);
    assert WitnessesOf(n, r.attestations[n]);
    NotInView(r, a);
    assert a in view + sent <==> a in sent;
  }

  /** After a full-range pull that is answered with the whole view, every witness that the responder
      sends and the prober lets in is heard there. */
  lemma {:induction false} PullHears(x: Side, r: TopicState, t: Trace, n: NodeID, o: NodeID)
    requires WellFiled(r) && x.c.windowMs < TWO_63 && |RangeView(r.records, None, None)| <= 64
    requires IsPull(x, r, RecordStores.Attested(r), t) && t.start == None && t.reply.Range?
    requires n in r.attestations && o in r.attestations[n] && |Earlier(r, n, o)| < 64
    requires LetsIn(x, Absorb(x, t.p, RangeView(r.records, None, None)), r, r.attestations[n][o])
    ensures Heard(EndOf(x, t), r.attestations[n][o])
  {
    var a, view := r.attestations[n][o], RangeView(r.records, None, None);
    var sent := SentBeside(x, t.p, r, n, o);
    assert WitnessesOf(n, r.attestations[n]);
    AbsorbAppend(x, t.p, view, sent);
    SentHears(x, Absorb(x, t.p, view), r, a, sent);
  }
}
