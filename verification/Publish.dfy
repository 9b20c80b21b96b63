/** The publish path over whole runs: threads that stamp, observe and apply records in any
    interleaving, how the clock stays ahead of the store, and when a publish takes its slot. */
module Publishing {
  import opened Bytes
  import opened Records
  import opened Finite
  import opened Store
  import opened Clock
  import Signing
  import opened Encoding
  import opened Quorum

  // ---------- clock domination ----------

  /** A slot is at most the clock; a synthesised tombstone may be one ahead of it. */
  predicate SlotBelow(r: Record, clock: u64) {
    r.hlc <= clock || (!r.IsSigned() && r.hlc == clock + 1)
  }

  ghost predicate TopicBelow(ts: TopicState, clock: u64) {
    && (forall k | k in ts.records :: SlotBelow(ts.records[k], clock))
    && (forall n | n in ts.attestations :: SetBelow(ts.attestations[n], clock))
  }

  ghost predicate SetBelow(w: map<NodeID, Record>, clock: u64) {
    forall o | o in w :: w[o].hlc <= clock
  }

  /** The clock dominates the store. */
  ghost predicate Dominates(clock: u64, st: Stores) {
    forall t | t in st :: TopicBelow(st[t], clock)
  }

  lemma {:induction false} DominatesLater(clock: u64, later: u64, st: Stores)
    requires Dominates(clock, st) && clock <= later
    ensures Dominates(later, st)
  {
    forall t | t in st
      ensures TopicBelow(st[t], later)
    {
      assert TopicBelow(st[t], clock);
      forall n | n in st[t].attestations
        ensures SetBelow(st[t].attestations[n], later)
      {
        assert SetBelow(st[t].attestations[n], clock);
      }
    }
  }

  lemma {:induction false} BuriedBelow(records: map<Slot, Record>, topic: Topic, node: NodeID, w: map<NodeID, Record>,
                                       clock: u64)
    requires forall k | k in records :: SlotBelow(records[k], clock)
    requires SetBelow(w, clock) && w != map[]
    ensures var b := Buried(records, topic, node, Inc64(HighestHlc(w))); forall k | k in b :: SlotBelow(b[k], clock)
  {
    HighestIs(w);
    var o :| o in w && w[o].hlc == HighestHlc(w);
    BuriedSlots(records, topic, node, Inc64(HighestHlc(w)));
  }

  lemma {:induction false} JoinedBelow(c: Config, ts: TopicState, att: Record, clock: u64)
    requires TopicBelow(ts, clock) && att.hlc <= clock
    ensures SetBelow(Joined(c, ts, att), clock)
  {
    assert att.nodeID in ts.attestations ==> SetBelow(ts.attestations[att.nodeID], clock);
  }

  lemma {:induction false} AttestBelow(c: Config, ts: TopicState, att: Record, now: int, clock: u64)
    requires c.Valid() && TopicBelow(ts, clock) && att.hlc <= clock
    ensures TopicBelow(AttestStep(c, ts, att, now).0, clock)
  {
    if Fresh(c, ts, att, now) {
      var w := Joined(c, ts, att);
      JoinedBelow(c, ts, att, clock);
      if w != map[] {
        BuriedBelow(ts.records, att.topic, att.nodeID, w, clock);
      }
    }
  }

  lemma {:induction false} OwnerBelow(c: Config, ts: TopicState, r: Record, now: int, clock: u64)
    requires TopicBelow(ts, clock) && r.hlc <= clock
    ensures TopicBelow(OwnerStep(c, ts, r, now).0, clock)
  {
  }

  lemma {:induction false} ApplyBelow(c: Config, st: Stores, r: Record, now: int, clock: u64)
    requires c.Valid() && Dominates(clock, st) && r.hlc <= clock
    ensures Dominates(clock, Apply(c, st, r, now).0)
  {
    var ts := TopicOf(st, r.topic);
    assert TopicBelow(ts, clock);
    if r.IsAttestation() {
      AttestBelow(c, ts, r, now, clock);
    } else {
      OwnerBelow(c, ts, r, now, clock);
    }
  }

  lemma {:induction false} ReapBelow(st: Stores, nowMs: int, ttl: Topic -> int, clock: u64)
    requires Dominates(clock, st)
    ensures Dominates(clock, Reap(st, nowMs, ttl))
  {
    forall t | t in Reap(st, nowMs, ttl)
      ensures TopicBelow(Reap(st, nowMs, ttl)[t], clock)
    {
      assert TopicBelow(st[t], clock);
    }
  }

  // ---------- runs of a node ----------

  /** The clock, the store, and the records that threads have stamped or observed and not yet
      applied. No lock is held in between. */
  datatype NodeState = NodeState(clock: u64, st: Stores, pending: map<nat, Record>)

  /** What stands between the wire and the store: signature, size, clock skew, key binding, trust. */
  datatype Gate = Gate(maxBytes: nat, maxSkewMs: nat, binding: bool, valid: Record -> bool, trust: Record -> bool)

  predicate Admits(g: Gate, r: Record, wall: nat) {
    && g.valid(r)
    && |r.key| <= MAX_KEY_BYTES
    && (g.maxBytes > 0 ==> |r.body| <= g.maxBytes)
    && WallOf(r.hlc) <= wall + g.maxSkewMs
    && (g.binding ==> |r.pubKey| == Signing.PUB_LEN &&
                      (if r.IsAttestation() then r.observer else r.nodeID) == Signing.Hex(r.pubKey))
    && g.trust(r)
  }

  const MAX_KEY_BYTES: nat := 0xFFFF

  /** A thread stamps a local record; a thread gates an inbound record at one wall reading and
      observes its HLC at a later one; a thread applies the record it carries; the store is swept. */
  datatype NodeEvent =
    | Stamp(id: nat, draft: Record, wall: nat)
    | Observe(id: nat, r: Record, gateWall: nat, observeWall: nat)
    | Put(id: nat, now: int)
    | Sweep(now: int, ttl: Topic -> int)

  ghost function NodeStep(c: Config, g: Gate, n: NodeState, ev: NodeEvent): NodeState {
    match ev
    case Stamp(id, draft, wall) =>
      var hlc := NowNext(n.clock, wall);
      n.(clock := hlc, pending := n.pending[id := draft.(hlc := hlc)])
    case Observe(id, r, gateWall, observeWall) =>
      if Admits(g, r, gateWall) then
        n.(clock := ObserveNext(n.clock, r.hlc, observeWall), pending := n.pending[id := r])
      else n
    case Put(id, now) =>
      if id in n.pending then n.(st := Apply(c, n.st, n.pending[id], now).0, pending := n.pending - {id}) else n
    case Sweep(now, ttl) => n.(st := Reap(n.st, now, ttl))
  }

  /** Readings are below 2^48 and do not run backwards between the gate and the observation, a
      thread carries one record at a time, and a stamp does not overflow the counter. */
  predicate Sane(n: NodeState, ev: NodeEvent) {
    match ev
    case Stamp(id, draft, wall) => id !in n.pending && wall < WALLS && HasTick(n.clock, wall)
    case Observe(id, r, gateWall, observeWall) => id !in n.pending && gateWall <= observeWall < WALLS
    case Put(id, now) => true
    case Sweep(now, ttl) => true
  }

  /** `ns` are the states a run of the events goes through. */
  ghost predicate IsRun(c: Config, g: Gate, ns: seq<NodeState>, es: seq<NodeEvent>) {
    && |ns| == |es| + 1
    && forall m {:trigger es[m]} | 0 <= m < |es| :: Sane(ns[m], es[m]) && ns[m + 1] == NodeStep(c, g, ns[m], es[m])
  }

  /** The clock dominates the store and everything on its way there. */
  ghost predicate Leads(n: NodeState) {
    Dominates(n.clock, n.st) && forall id | id in n.pending :: n.pending[id].hlc <= n.clock
  }

  lemma {:induction false} PutLeads(c: Config, g: Gate, n: NodeState, id: nat, now: int)
    requires c.Valid() && Leads(n)
    ensures Leads(NodeStep(c, g, n, Put(id, now)))
  {
    if id in n.pending {
      ApplyBelow(c, n.st, n.pending[id], now, n.clock);
    }
  }

  lemma {:induction false} NodeStepLeads(c: Config, g: Gate, n: NodeState, ev: NodeEvent)
    requires c.Valid() && g.maxSkewMs <= SKEW_BUDGET_MS && Leads(n) && Sane(n, ev)
    ensures Leads(NodeStep(c, g, n, ev)) && n.clock <= NodeStep(c, g, n, ev).clock
  {
    var n' := NodeStep(c, g, n, ev);
    match ev {
      case Stamp(id, draft, wall) =>
        NowGrowsIff(n.clock, wall);
        DominatesLater(n.clock, n'.clock, n.st);
      case Observe(id, r, gateWall, observeWall) =>
        ObserveAdvances(n.clock, r.hlc, observeWall);
        DominatesLater(n.clock, n'.clock, n.st);
      case Put(id, now) =>
        PutLeads(c, g, n, id, now);
      case Sweep(now, ttl) =>
        ReapBelow(n.st, now, ttl, n.clock);
    }
  }

  /** In every interleaving, with the gate no wider than the observe budget, the clock dominates the
      store and what is on its way there, and never goes back. */
  lemma {:induction false} ClockDominates(c: Config, g: Gate, ns: seq<NodeState>, es: seq<NodeEvent>, m: nat)
    requires c.Valid() && g.maxSkewMs <= SKEW_BUDGET_MS && IsRun(c, g, ns, es) && Leads(ns[0]) && m < |ns|
    ensures Leads(ns[m]) && ns[0].clock <= ns[m].clock
  {
    if m > 0 {
      ClockDominates(c, g, ns, es, m - 1);
      NodeStepLeads(c, g, ns[m - 1], es[m - 1]);
    }
  }

  // ---------- whether a publish takes its slot ----------

  /** Under a dominating clock a signed local record beats whatever is in its slot, even a
      synthesised tombstone stamped one ahead of the clock. */
  lemma {:induction false} OwnRecordBeats(clock: u64, wall: nat, r: Record, cur: Record)
    requires wall < WALLS && HasTick(clock, wall) && SlotBelow(cur, clock)
    requires r.hlc == NowNext(clock, wall) && r.IsSigned()
    ensures Beats(r, cur)
  {
    NowGrowsIff(clock, wall);
  }

  /** The counter condition is exact: a stamp beats everything the clock may dominate exactly if the
      clock can tick. */
  lemma {:induction false} StampBeatsIff(clock: u64, wall: nat, r: Record)
    requires wall < WALLS && r.IsSigned() && r.hlc == NowNext(clock, wall)
    ensures HasTick(clock, wall) <==> forall cur: Record | SlotBelow(cur, clock) :: Beats(r, cur)
  {
    NowGrowsIff(clock, wall);
    if !HasTick(clock, wall) {
      var cur := r.(hlc := clock);
      BeatsOrder(r, cur, cur);
      assert SlotBelow(cur, clock) && !Beats(r, cur) by {
        LexIrreflexive(r.sig);
      }
    }
  }

  ghost predicate Held(st: Stores, t: Topic, k: Slot) {
    t in st && k in st[t].records
  }

  ghost predicate HeldAs(st: Stores, t: Topic, k: Slot, r: Record) {
    Held(st, t, k) && st[t].records[k] == r
  }

  /** The record the slot holds in state `m`, if it was written since state `i`. */
  ghost function Written(ns: seq<NodeState>, i: nat, m: nat, t: Topic, k: Slot): Option<Record>
    requires i <= m < |ns|
  {
    if m == i || !Held(ns[m].st, t, k) then None
    else if HeldAs(ns[m - 1].st, t, k, ns[m].st[t].records[k]) then Written(ns, i, m - 1, t, k)
    else Some(ns[m].st[t].records[k])
  }

  /** A written record is what the slot holds; a slot that is held and was not written holds what it
      held at the start, and did so all along. */
  lemma {:induction false} WrittenIs(ns: seq<NodeState>, i: nat, m: nat, t: Topic, k: Slot)
    requires i <= m < |ns| && Held(ns[m].st, t, k)
    ensures var w := Written(ns, i, m, t, k);
      if w.Some? then HeldAs(ns[m].st, t, k, w.value)
      else forall j | i <= j <= m :: HeldAs(ns[j].st, t, k, ns[m].st[t].records[k])
  {
    if i < m && HeldAs(ns[m - 1].st, t, k, ns[m].st[t].records[k]) {
      WrittenIs(ns, i, m - 1, t, k);
    }
  }

  /** Event `i` stamps an owner record, and event `j` is the same thread applying it. */
  ghost predicate Publishes(es: seq<NodeEvent>, i: nat, j: nat) {
    && i < j < |es| && es[i].Stamp? && es[i].draft.IsSigned() && !es[i].draft.IsAttestation()
    && es[j].Put? && es[j].id == es[i].id
    && forall m | i < m < j :: !(es[m].Put? && es[m].id == es[i].id)
  }

  ghost function Stamped(n: NodeState, ev: NodeEvent): Record
    requires ev.Stamp?
  {
    ev.draft.(hlc := NowNext(n.clock, ev.wall))
  }

  lemma {:induction false} StillPending(c: Config, g: Gate, ns: seq<NodeState>, es: seq<NodeEvent>, i: nat, j: nat,
                                        m: nat)
    requires IsRun(c, g, ns, es) && Publishes(es, i, j) && i < m <= j
    ensures es[i].id in ns[m].pending && ns[m].pending[es[i].id] == Stamped(ns[i], es[i])
  {
    if m > i + 1 {
      StillPending(c, g, ns, es, i, j, m - 1);
      OthersPending(c, g, ns[m - 1], es[m - 1], es[i].id);
    } else {
      assert ns[i + 1] == NodeStep(c, g, ns[i], es[i]);
    }
  }

  lemma {:induction false} OthersPending(c: Config, g: Gate, n: NodeState, ev: NodeEvent, id: nat)
    requires Sane(n, ev) && id in n.pending && !(ev.Put? && ev.id == id)
    ensures var n' := NodeStep(c, g, n, ev); id in n'.pending && n'.pending[id] == n.pending[id]
  {
  }

  /** The record can open its slot: no cap turns it away. */
  predicate Room(c: Config, st: Stores, r: Record) {
    (r.topic in st || |st| < c.maxTopics) && HasRoom(c, TopicOf(st, r.topic).records, r.nodeID)
  }

  /** A publish takes its slot exactly if the last record that other threads wrote there between its
      stamp and its application, if any, is one it beats; or, where the slot is not held any more,
      if the caps leave room. */
  lemma {:induction false} PublishTakesIff(c: Config, g: Gate, ns: seq<NodeState>, es: seq<NodeEvent>, i: nat, j: nat)
    requires c.Valid() && g.maxSkewMs <= SKEW_BUDGET_MS && IsRun(c, g, ns, es) && Leads(ns[0]) && Publishes(es, i, j)
    ensures var r, st := Stamped(ns[i], es[i]), ns[j].st;
      var w := Written(ns, i, j, r.topic, SlotOf(r));
      && ns[j + 1].st == Apply(c, st, r, es[j].now).0
      && (Apply(c, st, r, es[j].now).1.applied <==>
            if Held(st, r.topic, SlotOf(r)) then w.None? || Beats(r, w.value) else Room(c, st, r))
  {
    var r, st := Stamped(ns[i], es[i]), ns[j].st;
    StillPending(c, g, ns, es, i, j, j);
    assert ns[j + 1] == NodeStep(c, g, ns[j], es[j]);
    if Held(st, r.topic, SlotOf(r)) {
      WrittenIs(ns, i, j, r.topic, SlotOf(r));
      if Written(ns, i, j, r.topic, SlotOf(r)).None? {
        UnwrittenBeaten(c, g, ns, es, i, st[r.topic].records[SlotOf(r)]);
      }
    }
  }

  lemma {:induction false} UnwrittenBeaten(c: Config, g: Gate, ns: seq<NodeState>, es: seq<NodeEvent>, i: nat,
                                           cur: Record)
    requires c.Valid() && g.maxSkewMs <= SKEW_BUDGET_MS && IsRun(c, g, ns, es) && Leads(ns[0])
    requires i < |es| && es[i].Stamp? && es[i].draft.IsSigned()
    requires HeldAs(ns[i].st, es[i].draft.topic, SlotOf(es[i].draft), cur)
    ensures Beats(Stamped(ns[i], es[i]), cur)
  {
    ClockDominates(c, g, ns, es, i);
    assert TopicBelow(ns[i].st[es[i].draft.topic], ns[i].clock);
    OwnRecordBeats(ns[i].clock, es[i].wall, Stamped(ns[i], es[i]), cur);
  }

  /** One attestation against a node that holds one slot, where one is a quorum. */
  lemma {:induction false} LoneVerdict(c: Config, k: Slot, own: Record, att: Record)
    requires c.quorum == 1 && c.maxAttestations == 1 && c.windowMs == 0 && c.role(att.observer, att.pubKey)
    requires att.IsAttestation() && att.observedAt == 0 && att.nodeID == k.node && !own.tombstone && own.hlc <= att.hlc
    requires att.hlc + 1 < TWO_64
    ensures AttestStep(c, TopicState(map[k := own], map[], map[]), att, 0).0.records ==
            map[k := Synth(att.topic, k.node, k.key, att.hlc + 1)]
  {
    var ts := TopicState(map[k := own], map[], map[]);
    LoneWitness(c, ts, att);
    assert k in HeldBy(ts.records, att.nodeID);
    assert Fresh(c, ts, att, 0);
  }

  lemma {:induction false} VerdictLands(c: Config, g: Gate, n: NodeState, id: nat, k: Slot, own: Record, att: Record)
    requires c.quorum == 1 && c.maxAttestations == 1 && c.windowMs == 0 && c.role(att.observer, att.pubKey)
    requires att.IsAttestation() && att.observedAt == 0 && att.nodeID == k.node && !own.tombstone && own.hlc <= att.hlc
    requires att.hlc + 1 < TWO_64 && id in n.pending && n.pending[id] == att
    requires n.st == map[att.topic := TopicState(map[k := own], map[], map[])]
    ensures var n' := NodeStep(c, g, n, Put(id, 0));
      && n'.pending == n.pending - {id} && att.topic in n'.st
      && n'.st[att.topic].records == map[k := Synth(att.topic, k.node, k.key, att.hlc + 1)]
  {
    LoneVerdict(c, k, own, att);
  }

  lemma {:induction false} BothPending(c: Config, g: Gate, st: Stores, draft: Record, att: Record)
    requires Admits(g, att, 0) && att.hlc == 10
    ensures var n1 := NodeStep(c, g, NodeState(5, st, map[]), NodeEvent.Stamp(0, draft, 0));
      && HasTick(5, 0) && n1 == NodeState(6, st, map[0 := draft.(hlc := 6)])
      && NodeStep(c, g, n1, NodeEvent.Observe(1, att, 0, 0)) == NodeState(10, st, map[0 := draft.(hlc := 6), 1 := att])
  {
  }

  lemma {:induction false} LosingRun(c: Config, g: Gate, own: Record, att: Record)
    returns (ns: seq<NodeState>, es: seq<NodeEvent>)
    requires c.quorum == 1 && c.maxAttestations == 1 && c.windowMs == 0 && c.role(att.observer, att.pubKey)
    requires att.IsAttestation() && att.observedAt == 0 && att.nodeID == own.nodeID && att.topic == own.topic
    requires !own.tombstone && own.hlc == 5 && att.hlc == 10 && Admits(g, att, 0) && own.IsSigned()
    ensures IsRun(c, g, ns, es) && Publishes(es, 0, 3) && es[0].draft == own
    ensures ns[0] == NodeState(5, map[own.topic := TopicState(map[SlotOf(own) := own], map[], map[])], map[])
    ensures !Apply(c, ns[3].st, Stamped(ns[0], es[0]), es[3].now).1.applied
  {
    var r, st := own.(hlc := 6), map[own.topic := TopicState(map[SlotOf(own) := own], map[], map[])];
    var n0, n1 := NodeState(5, st, map[]), NodeState(6, st, map[0 := r]);
    var n2 := NodeState(10, st, map[0 := r, 1 := att]);
    BothPending(c, g, st, own, att);
    Defeated(c, g, n2, own, att, r);
    var n3 := NodeStep(c, g, n2, Put(1, 0));
    var n4 := NodeStep(c, g, n3, Put(0, 0));
    ns, es := FourSteps(c, g, n0, n1, n2, n3, n4, NodeEvent.Stamp(0, own, 0), NodeEvent.Observe(1, att, 0, 0),
                        Put(1, 0), Put(0, 0));
  }

  lemma {:induction false} Defeated(c: Config, g: Gate, n: NodeState, own: Record, att: Record, r: Record)
    requires c.quorum == 1 && c.maxAttestations == 1 && c.windowMs == 0 && c.role(att.observer, att.pubKey)
    requires att.IsAttestation() && att.observedAt == 0 && att.nodeID == own.nodeID && att.topic == own.topic
    requires !own.tombstone && own.hlc <= r.hlc <= att.hlc && att.hlc + 1 < TWO_64
    requires r.topic == own.topic && SlotOf(r) == SlotOf(own) && !r.IsAttestation()
    requires 1 in n.pending && n.pending[1] == att
    requires n.st == map[att.topic := TopicState(map[SlotOf(own) := own], map[], map[])]
    ensures !Apply(c, NodeStep(c, g, n, Put(1, 0)).st, r, 0).1.applied
  {
    VerdictLands(c, g, n, 1, SlotOf(own), own, att);
    TurnedAway(c, NodeStep(c, g, n, Put(1, 0)).st, r, 0);
  }

  /** A publish can lose its own slot: between its stamp and its application an inbound attestation
      crosses the quorum at a higher HLC. */
  lemma {:induction false} PublishCanLose() returns (c: Config, g: Gate, ns: seq<NodeState>, es: seq<NodeEvent>)
    ensures c.Valid() && g.maxSkewMs <= SKEW_BUDGET_MS && IsRun(c, g, ns, es) && Leads(ns[0]) && Publishes(es, 0, 3)
    ensures var r := Stamped(ns[0], es[0]);
      Held(ns[0].st, r.topic, SlotOf(r)) && !Apply(c, ns[3].st, r, es[3].now).1.applied
  {
    c := Config(1, 1, 1, 1, 1, 0, (o, p) => true);
    g := Gate(0, 0, false, r => true, r => true);
    var own := Record([], [7], 5, [], false, [], [1], [], [], 0);
    ns, es := LosingRun(c, g, own, Record([], [7], 10, [], true, [], [1], [], [1], 0));
  }

  lemma {:induction false} FourSteps(c: Config, g: Gate, n0: NodeState, n1: NodeState, n2: NodeState, n3: NodeState,
                                     n4: NodeState, a: NodeEvent, b: NodeEvent, d: NodeEvent, e: NodeEvent)
    returns (ns: seq<NodeState>, es: seq<NodeEvent>)
    requires Sane(n0, a) && n1 == NodeStep(c, g, n0, a) && Sane(n1, b) && n2 == NodeStep(c, g, n1, b)
    requires Sane(n2, d) && n3 == NodeStep(c, g, n2, d) && Sane(n3, e) && n4 == NodeStep(c, g, n3, e)
    requires a.Stamp? && b.Observe? && d.Put? && e.Put? && a.id == e.id != d.id
    requires a.draft.IsSigned() && !a.draft.IsAttestation()
    ensures IsRun(c, g, ns, es) && Publishes(es, 0, 3)
    ensures es[0] == a && es[3] == e && ns[0] == n0 && ns[3] == n3
  {
    RunFrom(c, g, n3, e, [n4], []);
    ns, es := RunBefore(c, g, n2, d, [n3] + [n4], [e] + []);
    ns, es := RunBefore(c, g, n1, b, ns, es);
    ns, es := RunBefore(c, g, n0, a, ns, es);
    PublishesAround(es);
  }

  lemma {:induction false} PublishesAround(es: seq<NodeEvent>)
    requires |es| == 4 && es[0].Stamp? && es[1].Observe? && es[2].Put? && es[3].Put? && es[0].id == es[3].id != es[2].id
    requires es[0].draft.IsSigned() && !es[0].draft.IsAttestation()
    ensures Publishes(es, 0, 3)
  {
  }

  lemma {:induction false} RunFrom(c: Config, g: Gate, n: NodeState, ev: NodeEvent, ns: seq<NodeState>,
                                   es: seq<NodeEvent>)
    requires IsRun(c, g, ns, es) && Sane(n, ev) && ns[0] == NodeStep(c, g, n, ev)
    ensures IsRun(c, g, [n] + ns, [ev] + es)
  {
    forall m | 0 <= m < |es| + 1
      ensures Sane(([n] + ns)[m], ([ev] + es)[m]) && ([n] + ns)[m + 1] == NodeStep(c, g, ([n] + ns)[m], ([ev] + es)[m])
    {
      if m > 0 {
        assert ([ev] + es)[m] == es[m - 1];
      }
    }
  }

  /** `RunFrom`, with the places of the longer run named. */
  lemma {:induction false} RunBefore(c: Config, g: Gate, n: NodeState, ev: NodeEvent, ns: seq<NodeState>,
                                     es: seq<NodeEvent>)
    returns (ns': seq<NodeState>, es': seq<NodeEvent>)
    requires IsRun(c, g, ns, es) && Sane(n, ev) && ns[0] == NodeStep(c, g, n, ev)
    ensures IsRun(c, g, ns', es') && |es'| == |es| + 1 && ns'[0] == n && es'[0] == ev
    ensures forall m | 0 < m < |ns'| :: ns'[m] == ns[m - 1]
    ensures forall m | 0 < m < |es'| :: es'[m] == es[m - 1]
  {
    RunFrom(c, g, n, ev, ns, es);
    ns', es' := [n] + ns, [ev] + es;
  }

  lemma {:induction false} TurnedAway(c: Config, st: Stores, r: Record, now: int)
    requires !r.IsAttestation() && Held(st, r.topic, SlotOf(r)) && !Beats(r, st[r.topic].records[SlotOf(r)])
    ensures !Apply(c, st, r, now).1.applied
  {
  }

  // ---------- where the records in a store come from ----------

  /** The identity the record claims is the lower-case hexadecimal form of the 32-byte key it
      carries: the observer's for an attestation, the owner's otherwise. */
  predicate Bound(r: Record) {
    |r.pubKey| == 32 && (if r.IsAttestation() then r.observer else r.nodeID) == Signing.Hex(r.pubKey)
  }

  /** What every inbound record was found to be at the moment it was let in. */
  predicate Vetted(g: Gate, r: Record, wall: nat) {
    && g.valid(r) && g.trust(r)
    && |r.key| <= 65535 && (g.maxBytes > 0 ==> |r.body| <= g.maxBytes)
    && WallOf(r.hlc) <= wall + g.maxSkewMs
    && (g.binding ==> Bound(r))
  }

  /** The gate lets in exactly what it vets. */
  lemma {:induction false} AdmitsIff(g: Gate, r: Record, wall: nat)
    ensures Admits(g, r, wall) <==> Vetted(g, r, wall)
  {
  }

  /** Before event `m` the record was stamped here, or observed and vetted. */
  ghost predicate CameIn(g: Gate, ns: seq<NodeState>, es: seq<NodeEvent>, m: nat, r: Record) {
    exists j :: 0 <= j < m && CameInAt(g, ns, es, j, r)
  }

  ghost predicate CameInAt(g: Gate, ns: seq<NodeState>, es: seq<NodeEvent>, j: nat, r: Record) {
    && j < |es| && j < |ns|
    && (|| (es[j].Stamp? && r == Stamped(ns[j], es[j]))
        || (es[j].Observe? && r == es[j].r && Vetted(g, r, es[j].gateWall)))
  }

  ghost function CameInBy(g: Gate, ns: seq<NodeState>, es: seq<NodeEvent>, m: nat): Record -> bool {
    r => CameIn(g, ns, es, m, r)
  }

  /** Every signed slot, and every witness, satisfies `ok`. */
  ghost predicate TopicAll(ts: TopicState, ok: Record -> bool) {
    && (forall k | k in ts.records && ts.records[k].IsSigned() :: ok(ts.records[k]))
    && (forall n, o | n in ts.attestations && o in ts.attestations[n] :: ok(ts.attestations[n][o]))
  }

  ghost predicate StoreAll(st: Stores, ok: Record -> bool) {
    forall t | t in st :: TopicAll(st[t], ok)
  }

  lemma {:induction false} AttestAll(c: Config, ts: TopicState, att: Record, now: int, ok: Record -> bool)
    requires TopicAll(ts, ok) && ok(att)
    ensures TopicAll(AttestStep(c, ts, att, now).0, ok)
  {
    AttestSlots(c, ts, att, now);
    JoinedFrom(c, ts, att);
    var after := AttestStep(c, ts, att, now).0;
    forall n, o | n in after.attestations && o in after.attestations[n]
      ensures ok(after.attestations[n][o])
    {
      AttestWitnesses(c, ts, att, now, n);
      assert Witnesses(after, n) == after.attestations[n];
    }
  }

  lemma {:induction false} JoinedFrom(c: Config, ts: TopicState, att: Record)
    ensures forall o | o in Joined(c, ts, att) ::
      || Joined(c, ts, att)[o] == att
      || (o in Witnesses(ts, att.nodeID) && Joined(c, ts, att)[o] == Witnesses(ts, att.nodeID)[o])
  {
  }

  lemma {:induction false} AttestSlots(c: Config, ts: TopicState, att: Record, now: int)
    ensures var after := AttestStep(c, ts, att, now).0.records;
      forall k | k in after && after[k].IsSigned() :: k in ts.records && after[k] == ts.records[k]
  {
    if Crosses(c, ts, att, now) {
      BuriedSlots(ts.records, att.topic, att.nodeID, Inc64(HighestHlc(Joined(c, ts, att))));
    }
  }

  /** Applying a record brings nothing into the store but that record and unsigned verdicts. */
  lemma {:induction false} ApplyAll(c: Config, st: Stores, r: Record, now: int, ok: Record -> bool)
    requires StoreAll(st, ok) && ok(r)
    ensures StoreAll(Apply(c, st, r, now).0, ok)
  {
    assert TopicAll(TopicOf(st, r.topic), ok);
    if r.IsAttestation() {
      AttestAll(c, TopicOf(st, r.topic), r, now, ok);
    }
  }

  lemma {:induction false} ReapAll(st: Stores, now: int, ttl: Topic -> int, ok: Record -> bool)
    requires StoreAll(st, ok)
    ensures StoreAll(Reap(st, now, ttl), ok)
  {
    forall t | t in Reap(st, now, ttl)
      ensures TopicAll(Reap(st, now, ttl)[t], ok)
    {
      assert TopicAll(st[t], ok);
    }
  }

  ghost predicate StateAll(n: NodeState, ok: Record -> bool) {
    StoreAll(n.st, ok) && forall i | i in n.pending :: ok(n.pending[i])
  }

  lemma {:induction false} StepAll(c: Config, g: Gate, ns: seq<NodeState>, es: seq<NodeEvent>, m: nat,
                                   ok: Record -> bool)
    requires IsRun(c, g, ns, es) && m < |es| && StateAll(ns[m], ok)
    requires forall r | CameInAt(g, ns, es, m, r) :: ok(r)
    ensures StateAll(ns[m + 1], ok)
  {
    var n, ev := ns[m], es[m];
    assert ns[m + 1] == NodeStep(c, g, n, ev);
    match ev {
      case Stamp(_, _, _) =>
        assert CameInAt(g, ns, es, m, Stamped(n, ev));
      case Observe(_, r, wall, _) =>
        AdmitsIff(g, r, wall);
        if Admits(g, r, wall) {
          assert CameInAt(g, ns, es, m, r);
        }
      case Put(i, now) =>
        if i in n.pending {
          ApplyAll(c, n.st, n.pending[i], now, ok);
        }
      case Sweep(now, ttl) =>
        ReapAll(n.st, now, ttl, ok);
    }
  }

  /** In every run from an empty store, every signed slot, every witness and every record on its way
      to the store was stamped by the node itself or observed, and in the latter case had then a
      valid signature, a key of at most 65535 bytes, a body within the limit, an HLC within the skew
      allowed, the trust of the application and, where binding is on, the identity of its key. */
  lemma {:induction false} EverythingCameIn(c: Config, g: Gate, ns: seq<NodeState>, es: seq<NodeEvent>, m: nat)
    requires IsRun(c, g, ns, es) && m < |ns| && ns[0].st == map[] && ns[0].pending == map[]
    ensures StateAll(ns[m], CameInBy(g, ns, es, m))
  {
    if m > 0 {
      EverythingCameIn(c, g, ns, es, m - 1);
      StateAllMonotone(ns[m - 1], CameInBy(g, ns, es, m - 1), CameInBy(g, ns, es, m));
      StepAll(c, g, ns, es, m - 1, CameInBy(g, ns, es, m));
    }
  }

  lemma {:induction false} StateAllMonotone(n: NodeState, p: Record -> bool, q: Record -> bool)
    requires StateAll(n, p) && forall r :: p(r) ==> q(r)
    ensures StateAll(n, q)
  {
    forall t | t in n.st
      ensures TopicAll(n.st[t], q)
    {
      assert TopicAll(n.st[t], p);
    }
  }

  /** With binding on, and a node that stamps under its own bound identity, nobody's slot is held by
      a record signed with another's key, and no witness speaks for another observer. */
  lemma {:induction false} IdentitiesHold(c: Config, g: Gate, ns: seq<NodeState>, es: seq<NodeEvent>, m: nat)
    requires IsRun(c, g, ns, es) && m < |ns| && ns[0].st == map[] && ns[0].pending == map[]
    requires g.binding && forall j | 0 <= j < |es| && es[j].Stamp? :: Bound(es[j].draft)
    ensures StateAll(ns[m], r => Bound(r))
  {
    EverythingCameIn(c, g, ns, es, m);
    forall r | CameInBy(g, ns, es, m)(r)
      ensures Bound(r)
    {
      var j :| 0 <= j < m && CameInAt(g, ns, es, j, r);
    }
    StateAllMonotone(ns[m], CameInBy(g, ns, es, m), r => Bound(r));
  }

  // ---------- whether a tenant change retires everything ----------

  /** Where a node's own records are. */
  function OwnSlots(st: Stores, id: NodeID): set<(Topic, Slot)> {
    set t, k | t in st && k in st[t].records && k.node == id :: (t, k)
  }

  /** Every slot the node holds is a tombstone. */
  ghost predicate NoneLive(st: Stores, id: NodeID) {
    forall t, k | t in st && k in st[t].records && k.node == id :: st[t].records[k].tombstone
  }

  /** Events `i` and `j` stamp and apply a tombstone for the slot. */
  ghost predicate RetiresAt(es: seq<NodeEvent>, i: nat, j: nat, t: Topic, k: Slot) {
    Publishes(es, i, j) && es[i].draft.tombstone && es[i].draft.topic == t && SlotOf(es[i].draft) == k
  }

  ghost predicate Retires(es: seq<NodeEvent>, t: Topic, k: Slot) {
    exists i, j :: RetiresAt(es, i, j, t, k)
  }

  /** Applying the tombstone changes a slot that was not written since the tombstone was stamped. */
  lemma {:induction false} TombstoneTakes(c: Config, g: Gate, ns: seq<NodeState>, es: seq<NodeEvent>, i: nat, j: nat,
                                          t: Topic, k: Slot, cur: Record)
    requires c.Valid() && g.maxSkewMs <= SKEW_BUDGET_MS && IsRun(c, g, ns, es) && Leads(ns[0]) &&
             RetiresAt(es, i, j, t, k)
    requires HeldAs(ns[i].st, t, k, cur) && HeldAs(ns[j].st, t, k, cur) && !cur.tombstone
    ensures !HeldAs(ns[j + 1].st, t, k, cur)
  {
    StillPending(c, g, ns, es, i, j, j);
    UnwrittenBeaten(c, g, ns, es, i, cur);
    assert ns[j + 1] == NodeStep(c, g, ns[j], es[j]);
  }

  lemma {:induction false} RetiredIsWritten(c: Config, g: Gate, ns: seq<NodeState>, es: seq<NodeEvent>, t: Topic,
                                            k: Slot)
    requires c.Valid() && g.maxSkewMs <= SKEW_BUDGET_MS && IsRun(c, g, ns, es) && Leads(ns[0]) && Retires(es, t, k)
    requires Held(ns[|es|].st, t, k) && !ns[|es|].st[t].records[k].tombstone
    ensures Written(ns, 0, |es|, t, k).Some?
  {
    var i, j :| RetiresAt(es, i, j, t, k);
    WrittenIs(ns, 0, |es|, t, k);
    if Written(ns, 0, |es|, t, k).None? {
      TombstoneTakes(c, g, ns, es, i, j, t, k, ns[|es|].st[t].records[k]);
    }
  }

  predicate LiveOwn(r: Record, id: NodeID) {
    r.nodeID == id && !r.tombstone
  }

  /** The event brings in no live record of the node, and sweeps by the lifetimes in force. */
  ghost predicate Quiet(ev: NodeEvent, id: NodeID, ttl: Topic -> int) {
    match ev
    case Stamp(_, draft, _) => !LiveOwn(draft, id)
    case Observe(_, r, _, _) => !LiveOwn(r, id)
    case Put(_, _) => true
    case Sweep(_, lives) => forall t :: lives(t) == ttl(t)
  }

  ghost predicate AllQuiet(es: seq<NodeEvent>, id: NodeID, ttl: Topic -> int) {
    forall m | 0 <= m < |es| :: Quiet(es[m], id, ttl)
  }

  /** A record on its way to the store could still take its slot: the slot is open, or holds
      something the record beats, or can be swept first. */
  predicate CanLand(st: Stores, r: Record, ttl: Topic -> int) {
    ttl(r.topic) > 0 || !(r.topic in st && SlotOf(r) in st[r.topic].records) || Beats(r, st[r.topic].records[SlotOf(r)])
  }

  /** None of the node's slots is live, and no live record of the node on its way can land. */
  ghost predicate AtRest(n: NodeState, id: NodeID, ttl: Topic -> int) {
    NoneLive(n.st, id) && forall i | i in n.pending && LiveOwn(n.pending[i], id) :: !CanLand(n.st, n.pending[i], ttl)
  }

  lemma {:induction false} ApplyNoneLive(c: Config, st: Stores, r: Record, now: int, id: NodeID)
    requires NoneLive(st, id) && !Lands(st, r, id)
    ensures NoneLive(Apply(c, st, r, now).0, id)
  {
    var ts := TopicOf(st, r.topic);
    if r.IsAttestation() && Crosses(c, ts, r, now) {
      BuriedSlots(ts.records, r.topic, r.nodeID, Inc64(HighestHlc(Joined(c, ts, r))));
    }
  }

  /** The record is live, the node's, and would be taken where caps allow. */
  predicate Lands(st: Stores, r: Record, id: NodeID) {
    LiveOwn(r, id) && !(r.topic in st && SlotOf(r) in st[r.topic].records && !Beats(r, st[r.topic].records[SlotOf(r)]))
  }

  /** A slot that is not swept goes on holding what a record does not beat. */
  lemma {:induction false} StillBeaten(c: Config, st: Stores, r: Record, now: int, late: Record, ttl: Topic -> int)
    requires !CanLand(st, late, ttl)
    ensures !CanLand(Apply(c, st, r, now).0, late, ttl)
  {
    var k := SlotOf(late);
    if r.topic == late.topic {
      TopicStepAdvances(c, st[r.topic], r, now);
      var before, after := st[r.topic].records[k], Apply(c, st, r, now).0[r.topic].records[k];
      BeatsOrder(late, after, before);
    }
  }

  lemma {:induction false} SweptBeaten(st: Stores, now: int, lives: Topic -> int, late: Record, ttl: Topic -> int)
    requires !CanLand(st, late, ttl) && forall t :: lives(t) == ttl(t)
    ensures !CanLand(Reap(st, now, lives), late, ttl)
  {
  }

  lemma {:induction false} StepRetired(c: Config, g: Gate, n: NodeState, ev: NodeEvent, id: NodeID, ttl: Topic -> int)
    requires AtRest(n, id, ttl) && Sane(n, ev) && Quiet(ev, id, ttl)
    ensures AtRest(NodeStep(c, g, n, ev), id, ttl)
  {
    match ev {
      case Stamp(_, _, _) =>
      case Observe(_, _, _, _) =>
      case Put(i, now) =>
        if i in n.pending {
          ApplyNoneLive(c, n.st, n.pending[i], now, id);
          forall j | j in n.pending && LiveOwn(n.pending[j], id)
            ensures !CanLand(Apply(c, n.st, n.pending[i], now).0, n.pending[j], ttl)
          {
            StillBeaten(c, n.st, n.pending[i], now, n.pending[j], ttl);
          }
        }
      case Sweep(now, lives) =>
        forall j | j in n.pending && LiveOwn(n.pending[j], id)
          ensures !CanLand(Reap(n.st, now, lives), n.pending[j], ttl)
        {
          SweptBeaten(n.st, now, lives, n.pending[j], ttl);
        }
    }
  }

  lemma {:induction false} RunRetired(c: Config, g: Gate, ns: seq<NodeState>, es: seq<NodeEvent>, m: nat, id: NodeID,
                                      ttl: Topic -> int)
    requires IsRun(c, g, ns, es) && m < |ns| && AtRest(ns[0], id, ttl) && AllQuiet(es, id, ttl)
    ensures AtRest(ns[m], id, ttl)
  {
    if m > 0 {
      RunRetired(c, g, ns, es, m - 1, id, ttl);
      StepRetired(c, g, ns[m - 1], es[m - 1], id, ttl);
    }
  }

  /** However the run goes on, as long as it brings in no live record of the node, none of the
      node's slots is live. */
  ghost predicate StaysRetired(c: Config, g: Gate, n: NodeState, id: NodeID, ttl: Topic -> int) {
    forall ns: seq<NodeState>, es | IsRun(c, g, ns, es) && ns[0] == n && AllQuiet(es, id, ttl) ::
      NoneLive(ns[|es|].st, id)
  }

  /** Once no own slot is live, none ever is again exactly if no live record of the node that a
      thread stamped or observed before, and has not applied yet, can still land. */
  lemma {:induction false} StaysRetiredIff(c: Config, g: Gate, n: NodeState, id: NodeID, ttl: Topic -> int)
    requires c.Valid() && |n.st| <= c.maxTopics && NoneLive(n.st, id)
    requires forall i | i in n.pending && LiveOwn(n.pending[i], id) ::
      Held(n.st, n.pending[i].topic, SlotOf(n.pending[i])) || Room(c, n.st, n.pending[i])
    ensures StaysRetired(c, g, n, id, ttl) <==>
            forall i | i in n.pending && LiveOwn(n.pending[i], id) :: !CanLand(n.st, n.pending[i], ttl)
  {
    if forall i | i in n.pending && LiveOwn(n.pending[i], id) :: !CanLand(n.st, n.pending[i], ttl) {
      forall ns: seq<NodeState>, es | IsRun(c, g, ns, es) && ns[0] == n && AllQuiet(es, id, ttl)
        ensures NoneLive(ns[|es|].st, id)
      {
        RunRetired(c, g, ns, es, |es|, id, ttl);
      }
    } else {
      var i :| i in n.pending && LiveOwn(n.pending[i], id) && CanLand(n.st, n.pending[i], ttl);
      ComesBack(c, g, n, id, ttl, i);
    }
  }

  lemma {:induction false} ComesBack(c: Config, g: Gate, n: NodeState, id: NodeID, ttl: Topic -> int, i: nat)
    requires c.Valid() && |n.st| <= c.maxTopics && i in n.pending && LiveOwn(n.pending[i], id)
    requires CanLand(n.st, n.pending[i], ttl)
    requires Held(n.st, n.pending[i].topic, SlotOf(n.pending[i])) || Room(c, n.st, n.pending[i])
    ensures !StaysRetired(c, g, n, id, ttl)
  {
    var r := n.pending[i];
    if Held(n.st, r.topic, SlotOf(r)) && !Beats(r, n.st[r.topic].records[SlotOf(r)]) {
      var late := LateSweep(c, n.st, r, ttl);
      var n1 := NodeStep(c, g, n, Sweep(late, ttl));
      var ns, es := LandsNow(c, g, n1, id, ttl, i);
      ns, es := RunBefore(c, g, n, Sweep(late, ttl), ns, es);
      Contradicts(c, g, ns, es, id, ttl);
    } else {
      var ns, es := LandsNow(c, g, n, id, ttl, i);
      Contradicts(c, g, ns, es, id, ttl);
    }
  }

  lemma {:induction false} Contradicts(c: Config, g: Gate, ns: seq<NodeState>, es: seq<NodeEvent>, id: NodeID,
                                       ttl: Topic -> int)
    requires IsRun(c, g, ns, es) && AllQuiet(es, id, ttl) && !NoneLive(ns[|es|].st, id)
    ensures !StaysRetired(c, g, ns[0], id, ttl)
  {
  }

  lemma {:induction false} LandsNow(c: Config, g: Gate, n: NodeState, id: NodeID, ttl: Topic -> int, i: nat)
    returns (ns: seq<NodeState>, es: seq<NodeEvent>)
    requires i in n.pending && LiveOwn(n.pending[i], id)
    requires var r := n.pending[i];
      if Held(n.st, r.topic, SlotOf(r)) then Beats(r, n.st[r.topic].records[SlotOf(r)]) else Room(c, n.st, r)
    ensures IsRun(c, g, ns, es) && |es| == 1 && ns[0] == n && AllQuiet(es, id, ttl) && !NoneLive(ns[1].st, id)
  {
    Landed(c, g, n, id, i);
    ns, es := [n, NodeStep(c, g, n, Put(i, 0))], [Put(i, 0)];
  }

  lemma {:induction false} Landed(c: Config, g: Gate, n: NodeState, id: NodeID, i: nat)
    requires i in n.pending && LiveOwn(n.pending[i], id)
    requires var r := n.pending[i];
      if Held(n.st, r.topic, SlotOf(r)) then Beats(r, n.st[r.topic].records[SlotOf(r)]) else Room(c, n.st, r)
    ensures !NoneLive(NodeStep(c, g, n, Put(i, 0)).st, id)
  {
    var r, st := n.pending[i], NodeStep(c, g, n, Put(i, 0)).st;
    assert SlotOf(r) in st[r.topic].records && st[r.topic].records[SlotOf(r)] == r;
  }

  /** A sweep so late that nothing on the topic survives it, which makes room. */
  lemma {:induction false} LateSweep(c: Config, st: Stores, r: Record, ttl: Topic -> int) returns (now: int)
    requires c.Valid() && |st| <= c.maxTopics && r.topic in st && ttl(r.topic) > 0
    ensures var st' := Reap(st, now, ttl); !Held(st', r.topic, SlotOf(r)) && Room(c, st', r)
  {
    now := WALLS + 2 * ttl(r.topic) + 1;
    var ts, st' := ReapTopic(st[r.topic], now, ttl(r.topic)), Reap(st, now, ttl);
    forall k | k in st[r.topic].records
      ensures Expired(st[r.topic].records[k], now, ttl(r.topic))
    {
      WallBelow(st[r.topic].records[k].hlc);
    }
    assert ts.records == map[];
    assert HeldBy(map[], r.nodeID) == {};
    if r.topic !in st' {
      assert st'.Keys <= st.Keys - {r.topic};
      SubsetCard(st'.Keys, st.Keys - {r.topic});
      assert |st'| == |st'.Keys| && |st| == |st.Keys|;
    }
  }

  lemma {:induction false} WallBelow(hlc: u64)
    ensures WallOf(hlc) < WALLS
  {
  }

  /** The tenant change, from its snapshot: if no live record of the node is on its way then, and
      none comes in, then once every own slot of the snapshot has had its tombstone stamped and
      applied, none of the node's slots is live. */
  lemma {:induction false} TenantRetires(c: Config, g: Gate, ns: seq<NodeState>, es: seq<NodeEvent>, id: NodeID,
                                         ttl: Topic -> int)
    requires c.Valid() && g.maxSkewMs <= SKEW_BUDGET_MS && IsRun(c, g, ns, es) && Leads(ns[0])
    requires AllQuiet(es, id, ttl) && forall i | i in ns[0].pending :: !LiveOwn(ns[0].pending[i], id)
    requires forall p | p in OwnSlots(ns[0].st, id) :: Retires(es, p.0, p.1)
    ensures NoneLive(ns[|es|].st, id)
  {
    forall t, k | Held(ns[|es|].st, t, k) && k.node == id
      ensures ns[|es|].st[t].records[k].tombstone
    {
      if !ns[|es|].st[t].records[k].tombstone {
        HeldSince(c, g, ns, es, id, ttl, |es|, t, k);
        assert (t, k) in OwnSlots(ns[0].st, id);
        RetiredIsWritten(c, g, ns, es, t, k);
        assert false;
      }
    }
  }

  /** In such a run a live own slot is one that was live all along. */
  lemma {:induction false} HeldSince(c: Config, g: Gate, ns: seq<NodeState>, es: seq<NodeEvent>, id: NodeID,
                                     ttl: Topic -> int, m: nat, t: Topic, k: Slot)
    requires IsRun(c, g, ns, es) && m < |ns| && AllQuiet(es, id, ttl)
    requires forall i | i in ns[0].pending :: !LiveOwn(ns[0].pending[i], id)
    requires Held(ns[m].st, t, k) && k.node == id && !ns[m].st[t].records[k].tombstone
    ensures Held(ns[0].st, t, k) && Written(ns, 0, m, t, k).None?
  {
    if m > 0 {
      NoLivePending(c, g, ns, es, id, ttl, m - 1);
      LiveWasLive(c, g, ns[m - 1], es[m - 1], id, t, k);
      HeldSince(c, g, ns, es, id, ttl, m - 1, t, k);
    }
  }

  lemma {:induction false} NoLivePending(c: Config, g: Gate, ns: seq<NodeState>, es: seq<NodeEvent>, id: NodeID,
                                         ttl: Topic -> int, m: nat)
    requires IsRun(c, g, ns, es) && m < |ns| && AllQuiet(es, id, ttl)
    requires forall i | i in ns[0].pending :: !LiveOwn(ns[0].pending[i], id)
    ensures forall i | i in ns[m].pending :: !LiveOwn(ns[m].pending[i], id)
  {
    if m > 0 {
      NoLivePending(c, g, ns, es, id, ttl, m - 1);
      assert Quiet(es[m - 1], id, ttl) && ns[m] == NodeStep(c, g, ns[m - 1], es[m - 1]);
    }
  }

  lemma {:induction false} LiveWasLive(c: Config, g: Gate, n: NodeState, ev: NodeEvent, id: NodeID, t: Topic, k: Slot)
    requires forall i | i in n.pending :: !LiveOwn(n.pending[i], id)
    requires k.node == id && Held(NodeStep(c, g, n, ev).st, t, k) && !NodeStep(c, g, n, ev).st[t].records[k].tombstone
    ensures HeldAs(n.st, t, k, NodeStep(c, g, n, ev).st[t].records[k])
  {
    if ev.Put? && ev.id in n.pending {
      AppliedWasLive(c, n.st, n.pending[ev.id], ev.now, id, t, k);
    }
  }

  lemma {:induction false} AppliedWasLive(c: Config, st: Stores, r: Record, now: int, id: NodeID, t: Topic, k: Slot)
    requires !LiveOwn(r, id) && k.node == id
    requires var st' := Apply(c, st, r, now).0; Held(st', t, k) && !st'[t].records[k].tombstone
    ensures HeldAs(st, t, k, Apply(c, st, r, now).0[t].records[k])
  {
    if t == r.topic && (t in st || |st| < c.maxTopics) {
      StepWasLive(c, TopicOf(st, t), r, now, id, k);
    }
  }

  lemma {:induction false} StepWasLive(c: Config, ts: TopicState, r: Record, now: int, id: NodeID, k: Slot)
    requires !LiveOwn(r, id) && k.node == id
    requires var after := TopicStep(c, ts, r, now).0.records; k in after && !after[k].tombstone
    ensures k in ts.records && ts.records[k] == TopicStep(c, ts, r, now).0.records[k]
  {
    if r.IsAttestation() && Crosses(c, ts, r, now) {
      BuriedSlots(ts.records, r.topic, r.nodeID, Inc64(HighestHlc(Joined(c, ts, r))));
    }
  }

  /** What was stamped before the snapshot and is applied after it stays live, although every slot of
      the snapshot is retired and nothing live comes in. */
  lemma {:induction false} TenantCanMiss()
    returns (c: Config, g: Gate, ns: seq<NodeState>, es: seq<NodeEvent>, id: NodeID, ttl: Topic -> int)
    ensures c.Valid() && g.maxSkewMs <= SKEW_BUDGET_MS && IsRun(c, g, ns, es) && Leads(ns[0]) && AllQuiet(es, id, ttl)
    ensures forall p | p in OwnSlots(ns[0].st, id) :: Retires(es, p.0, p.1)
    ensures !NoneLive(ns[|es|].st, id)
  {
    c := Config(1, 1, 1, 1, 1, 0, (o, p) => true);
    g, id, ttl := Gate(0, 0, false, r => true, r => true), [7], t => 0;
    var r := Record([], id, 6, [], false, [], [1], [], [], 0);
    es := [Put(0, 0)];
    var n0 := NodeState(6, map[], map[0 := r]);
    assert HeldBy(map[], id) == {};
    Landed(c, g, n0, id, 0);
    ns := [n0, NodeStep(c, g, n0, es[0])];
  }
}
