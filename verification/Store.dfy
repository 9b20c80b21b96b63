/** The record store as a transition function on values: one topic's slots, witness sets and
    restored-at fences, and what one record, at one reading of the clock, does to them. */
module Store {
  import opened Bytes
  import opened Records
  import opened Finite
  import Clock

  datatype Config = Config(
    maxTopics: nat,
    maxRecords: nat,
    maxKeys: nat,
    maxAttestations: nat,
    quorum: nat,
    windowMs: nat,
    role: (NodeID, Bytes) -> bool
  ) {
    /** What the constructor and the setters guarantee: no cap and no quorum is zero. */
    predicate Valid() {
      maxTopics > 0 && maxRecords > 0 && maxKeys > 0 && maxAttestations > 0 && quorum > 0
    }
  }

  datatype TopicState = TopicState(
    records: map<Slot, Record>,
    attestations: map<NodeID, map<NodeID, Record>>,
    restoredAt: map<NodeID, int>
  )

  const EMPTY_TOPIC := TopicState(map[], map[], map[])

  type Stores = map<Topic, TopicState>

  datatype Outcome = Outcome(applied: bool, replaced: bool, accumulated: bool)

  const REFUSED := Outcome(false, false, false)

  // ---------- owner records ----------

  function OfNode(slots: set<Slot>, node: NodeID): set<Slot> {
    set k | k in slots && k.node == node
  }

  /** The slots a node holds. */
  function HeldBy(records: map<Slot, Record>, node: NodeID): set<Slot> {
    OfNode(records.Keys, node)
  }

  predicate HasRoom(c: Config, records: map<Slot, Record>, node: NodeID) {
    |records| < c.maxRecords && |HeldBy(records, node)| < c.maxKeys
  }

  /** A live owner record moves the node's fence to the moment it is applied. */
  function Fenced(restoredAt: map<NodeID, int>, r: Record, now: int): map<NodeID, int> {
    if r.tombstone then restoredAt else restoredAt[r.nodeID := now]
  }

  ghost function OwnerStep(c: Config, ts: TopicState, r: Record, now: int): (TopicState, Outcome) {
    var slot := SlotOf(r);
    if slot !in ts.records then
      if HasRoom(c, ts.records, r.nodeID) then
        (ts.(records := ts.records[slot := r], restoredAt := Fenced(ts.restoredAt, r, now)),
         Outcome(true, false, false))
      else
        (ts, REFUSED)
    else if Beats(r, ts.records[slot]) then
      (TopicState(ts.records[slot := r], ts.attestations - {r.nodeID}, Fenced(ts.restoredAt, r, now)),
       Outcome(true, true, false))
    else
      (ts, Outcome(false, true, false))
  }

  // ---------- observer attestations ----------

  /** The gates an attestation must pass before the witness set is looked at: the observer's
      role, the forward-skew budget and the restored-at fence. */
  predicate Admissible(c: Config, ts: TopicState, att: Record, now: int) {
    && c.role(att.observer, att.pubKey)
    && att.observedAt <= now + Clock.SKEW_BUDGET_MS
    && (att.nodeID in ts.restoredAt ==> ts.restoredAt[att.nodeID] < att.observedAt)
  }

  /** The node holds a slot, and every slot it holds is a tombstone at or above `hlc`. */
  predicate DeadAtOrAbove(records: map<Slot, Record>, node: NodeID, hlc: u64) {
    && HeldBy(records, node) != {}
    && forall k | k in records && k.node == node :: records[k].tombstone && hlc <= records[k].hlc
  }

  function Witnesses(ts: TopicState, node: NodeID): map<NodeID, Record> {
    if node in ts.attestations then ts.attestations[node] else map[]
  }

  /** The observer is already on record with something at least as new on both scales. */
  predicate Repeats(w: map<NodeID, Record>, att: Record) {
    && att.observer in w
    && att.observedAt <= w[att.observer].observedAt
    && att.hlc <= w[att.observer].hlc
  }

  ghost function TimesOf(w: map<NodeID, Record>): set<int> {
    {0} + set o | o in w :: w[o].observedAt
  }

  /** The prune anchor starts at zero. */
  ghost function NewestObserved(w: map<NodeID, Record>): int {
    MaxOf(TimesOf(w))
  }

  ghost function HlcsOf(w: map<NodeID, Record>): set<int> {
    {0} + set o | o in w :: w[o].hlc
  }

  ghost function HighestHlc(w: map<NodeID, Record>): u64 {
    MaxOfBounds(HlcsOf(w));
    MaxOf(HlcsOf(w))
  }

  lemma {:induction false} HighestIs(w: map<NodeID, Record>)
    ensures forall o | o in w :: w[o].hlc <= HighestHlc(w)
    ensures w != map[] ==> exists o | o in w :: w[o].hlc == HighestHlc(w)
  {
    var s := HlcsOf(w);
    MaxOfBounds(s);
    assert forall o | o in w :: w[o].hlc in s;
    if w != map[] && HighestHlc(w) == 0 {
      var o := Pick(w.Keys);
      assert w[o].hlc == 0;
    }
  }

  /** The prune test, with the 64-bit signed subtraction the code performs. */
  predicate Stale(newest: int, observedAt: int, windowMs: int) {
    Wrap64(newest - observedAt) > windowMs
  }

  ghost function Pruned(c: Config, w: map<NodeID, Record>): map<NodeID, Record> {
    map o | o in w && !Stale(NewestObserved(w), w[o].observedAt, c.windowMs) :: w[o]
  }

  /** The consumer-local tombstone: unsigned, one above every contributing attestation. */
  function Synth(topic: Topic, node: NodeID, key: Key, hlc: u64): Record {
    Record(topic, node, hlc, [], true, [], [], key, [], 0)
  }

  /** The node's slots after a death verdict at `hlc`. */
  function Buried(records: map<Slot, Record>, topic: Topic, node: NodeID, hlc: u64): map<Slot, Record> {
    if HeldBy(records, node) == {} then
      records[Slot(node, []) := Synth(topic, node, [], hlc)]
    else
      map k | k in records ::
        if k.node == node && hlc > records[k].hlc then Synth(topic, node, k.key, hlc) else records[k]
  }

  /** The witness set after `att` joined it and the window was applied. */
  ghost function Joined(c: Config, ts: TopicState, att: Record): map<NodeID, Record> {
    Pruned(c, Witnesses(ts, att.nodeID)[att.observer := att])
  }

  ghost predicate Fresh(c: Config, ts: TopicState, att: Record, now: int) {
    && Admissible(c, ts, att, now)
    && !DeadAtOrAbove(ts.records, att.nodeID, att.hlc)
    && var w := Witnesses(ts, att.nodeID);
       !Repeats(w, att) && (att.observer in w || |w| < c.maxAttestations)
  }

  ghost predicate Crosses(c: Config, ts: TopicState, att: Record, now: int) {
    Fresh(c, ts, att, now) && |Joined(c, ts, att)| >= c.quorum
  }

  ghost function AttestStep(c: Config, ts: TopicState, att: Record, now: int): (TopicState, Outcome) {
    var held := HeldBy(ts.records, att.nodeID) != {};
    if !Admissible(c, ts, att, now) then
      (ts, REFUSED)
    else if !Fresh(c, ts, att, now) then
      (ts, Outcome(false, true, false))
    else
      var w := Joined(c, ts, att);
      var atts := if w == map[] then ts.attestations - {att.nodeID} else ts.attestations[att.nodeID := w];
      if |w| < c.quorum then
        (ts.(attestations := atts), Outcome(false, held, true))
      else
        var records := Buried(ts.records, att.topic, att.nodeID, Inc64(HighestHlc(w)));
        (ts.(attestations := atts, records := records), Outcome(records != ts.records, held, true))
  }

  // ---------- the whole store ----------

  ghost function TopicStep(c: Config, ts: TopicState, r: Record, now: int): (TopicState, Outcome) {
    if r.IsAttestation() then AttestStep(c, ts, r, now) else OwnerStep(c, ts, r, now)
  }

  function TopicOf(st: Stores, topic: Topic): TopicState {
    if topic in st then st[topic] else EMPTY_TOPIC
  }

  ghost function Apply(c: Config, st: Stores, r: Record, now: int): (Stores, Outcome) {
    if r.topic !in st && |st| >= c.maxTopics then
      (st, REFUSED)
    else
      var (ts, out) := TopicStep(c, TopicOf(st, r.topic), r, now);
      (st[r.topic := ts], out)
  }

  /** A new witness that the cap on the node's witness set keeps out. */
  predicate WitnessCapped(c: Config, ts: TopicState, att: Record, now: int) {
    && Admissible(c, ts, att, now)
    && !DeadAtOrAbove(ts.records, att.nodeID, att.hlc)
    && var w := Witnesses(ts, att.nodeID);
       att.observer !in w && |w| >= c.maxAttestations
  }

  /** A new slot that the cap on the topic or on the node keeps out. */
  predicate SlotCapped(c: Config, ts: TopicState, r: Record) {
    SlotOf(r) !in ts.records && !HasRoom(c, ts.records, r.nodeID)
  }

  /** The record is turned away by a cap, and by nothing else. */
  predicate Capped(c: Config, st: Stores, r: Record, now: int) {
    if r.topic !in st && |st| >= c.maxTopics then true
    else if r.IsAttestation() then WitnessCapped(c, TopicOf(st, r.topic), r, now)
    else SlotCapped(c, TopicOf(st, r.topic), r)
  }

  // ---------- retention ----------

  predicate Expired(r: Record, nowMs: int, ttlMs: int) {
    nowMs - Clock.WallOf(r.hlc) > if r.tombstone then 2 * ttlMs else ttlMs
  }

  function ReapTopic(ts: TopicState, nowMs: int, ttlMs: int): TopicState {
    var records := map k | k in ts.records && !Expired(ts.records[k], nowMs, ttlMs) :: ts.records[k];
    ts.(records := records,
        restoredAt := map n | n in ts.restoredAt && HeldBy(records, n) != {} :: ts.restoredAt[n])
  }

  predicate Vacant(ts: TopicState) {
    ts.records == map[] && ts.attestations == map[]
  }

  function Reap(st: Stores, nowMs: int, ttl: Topic -> int): Stores {
    map t | t in st && (ttl(t) <= 0 || !Vacant(ReapTopic(st[t], nowMs, ttl(t)))) ::
      if ttl(t) <= 0 then st[t] else ReapTopic(st[t], nowMs, ttl(t))
  }

  // ---------- what every step keeps ----------

  predicate RecordsFiled(records: map<Slot, Record>) {
    forall k | k in records :: SlotOf(records[k]) == k && !records[k].IsAttestation()
  }

  predicate WitnessesOf(node: NodeID, w: map<NodeID, Record>) {
    forall o | o in w :: w[o].nodeID == node && w[o].observer == o && w[o].IsAttestation()
  }

  predicate WitnessesFiled(attestations: map<NodeID, map<NodeID, Record>>) {
    forall n | n in attestations :: attestations[n] != map[] && WitnessesOf(n, attestations[n])
  }

  /** Records and witnesses are filed under their own identity; a slot never holds an attestation,
      and no witness set is empty. */
  predicate WellFiled(ts: TopicState) {
    RecordsFiled(ts.records) && WitnessesFiled(ts.attestations)
  }

  /** `after` has every slot of `before`, and a slot that changed changed to a record that beats
      the old one. */
  ghost predicate Advances(before: map<Slot, Record>, after: map<Slot, Record>) {
    forall k | k in before :: k in after && (after[k] == before[k] || Beats(after[k], before[k]))
  }

  ghost predicate SameOutside(before: map<Slot, Record>, after: map<Slot, Record>, node: NodeID) {
    forall k: Slot | k.node != node ::
      (k in before <==> k in after) && (k in before ==> before[k] == after[k])
  }

  lemma {:induction false} BuriedSlots(records: map<Slot, Record>, topic: Topic, node: NodeID, hlc: u64)
    ensures var b := Buried(records, topic, node, hlc);
      && Advances(records, b)
      && SameOutside(records, b, node)
      && b.Keys == records.Keys + (if HeldBy(records, node) == {} then {Slot(node, [])} else {})
      && (forall k | k in b && k.node == node && (k !in records || records[k].hlc < hlc) ::
            b[k] == Synth(topic, node, k.key, hlc))
      && (forall k | k in records && !(k.node == node && records[k].hlc < hlc) :: b[k] == records[k])
  {
    if HeldBy(records, node) == {} {
      assert forall k | k in records && k.node == node :: k in HeldBy(records, node);
    } else {
      var k0 := Pick(HeldBy(records, node));
    }
  }

  /** One record never removes a slot and never lowers a slot's rank; only the named node's slots
      can change; and `applied` is reported exactly when some slot's record changed. */
  lemma {:induction false} TopicStepAdvances(c: Config, ts: TopicState, r: Record, now: int)
    ensures var (ts', out) := TopicStep(c, ts, r, now);
      && Advances(ts.records, ts'.records)
      && SameOutside(ts.records, ts'.records, r.nodeID)
      && (out.applied <==> ts'.records != ts.records)
  {
    if r.IsAttestation() {
      if Crosses(c, ts, r, now) {
        BuriedSlots(ts.records, r.topic, r.nodeID, Inc64(HighestHlc(Joined(c, ts, r))));
      }
    } else {
      BeatsOrder(r, r, r);
    }
  }

  lemma {:induction false} JoinedFiled(c: Config, ts: TopicState, att: Record)
    requires WitnessesFiled(ts.attestations) && att.IsAttestation()
    ensures WitnessesOf(att.nodeID, Joined(c, ts, att))
    ensures forall o | o in Joined(c, ts, att) ::
              Joined(c, ts, att)[o] == if o == att.observer then att else Witnesses(ts, att.nodeID)[o]
  {
  }

  lemma {:induction false} BuriedFiled(records: map<Slot, Record>, topic: Topic, node: NodeID, hlc: u64)
    requires RecordsFiled(records)
    ensures RecordsFiled(Buried(records, topic, node, hlc))
  {
  }

  lemma {:induction false} AttestStepWellFiled(c: Config, ts: TopicState, att: Record, now: int)
    requires WellFiled(ts) && att.IsAttestation()
    ensures WellFiled(AttestStep(c, ts, att, now).0)
  {
    if Fresh(c, ts, att, now) {
      JoinedFiled(c, ts, att);
      var w := Joined(c, ts, att);
      BuriedFiled(ts.records, att.topic, att.nodeID, Inc64(HighestHlc(w)));
      var atts := if w == map[] then ts.attestations - {att.nodeID} else ts.attestations[att.nodeID := w];
      assert WitnessesFiled(atts);
    }
  }

  lemma {:induction false} TopicStepWellFiled(c: Config, ts: TopicState, r: Record, now: int)
    requires WellFiled(ts)
    ensures WellFiled(TopicStep(c, ts, r, now).0)
  {
    if r.IsAttestation() {
      AttestStepWellFiled(c, ts, r, now);
    }
  }

  /** The same store with room for one more of everything the record may add. */
  function Widened(c: Config, st: Stores, r: Record): Config {
    var ts := TopicOf(st, r.topic);
    c.(maxTopics := |st| + 1, maxRecords := |ts.records| + 1, maxKeys := |HeldBy(ts.records, r.nodeID)| + 1,
       maxAttestations := |Witnesses(ts, r.nodeID)| + 1)
  }

  /** A record counts as turned away by a cap exactly if it is for a topic there is no place for, or
      would have come to something else with room for it. */
  lemma {:induction false} CappedIff(c: Config, st: Stores, r: Record, now: int)
    ensures Capped(c, st, r, now) <==>
      || (r.topic !in st && |st| >= c.maxTopics)
      || Apply(c, st, r, now).1 != Apply(Widened(c, st, r), st, r, now).1
  {
    if r.topic in st || |st| < c.maxTopics {
      var ts, wide := TopicOf(st, r.topic), Widened(c, st, r);
      if r.IsAttestation() {
        WitnessCapDecides(c, wide, ts, r, now);
      } else {
        SlotCapDecides(c, wide, ts, r, now);
      }
    }
  }

  lemma {:induction false} SlotCapDecides(c: Config, wide: Config, ts: TopicState, r: Record, now: int)
    requires |ts.records| < wide.maxRecords && |HeldBy(ts.records, r.nodeID)| < wide.maxKeys
    ensures SlotCapped(c, ts, r) <==> OwnerStep(c, ts, r, now).1 != OwnerStep(wide, ts, r, now).1
  {
  }

  lemma {:induction false} WitnessCapDecides(c: Config, wide: Config, ts: TopicState, r: Record, now: int)
    requires |Witnesses(ts, r.nodeID)| < wide.maxAttestations
    requires wide == c.(maxTopics := wide.maxTopics, maxRecords := wide.maxRecords, maxKeys := wide.maxKeys,
                        maxAttestations := wide.maxAttestations)
    ensures WitnessCapped(c, ts, r, now) <==> AttestStep(c, ts, r, now).1 != AttestStep(wide, ts, r, now).1
  {
    assert Joined(wide, ts, r) == Joined(c, ts, r);
  }

  /** An owner record that is not turned away by a cap ends with its slot at its rank or above. */
  lemma {:induction false} OwnerStepLands(c: Config, ts: TopicState, r: Record, now: int)
    requires SlotOf(r) in ts.records || HasRoom(c, ts.records, r.nodeID)
    ensures var after := OwnerStep(c, ts, r, now).0.records;
      SlotOf(r) in after && !Beats(r, after[SlotOf(r)])
  {
    BeatsOrder(r, r, r);
  }

  lemma {:induction false} AdvancesTransitive(a: map<Slot, Record>, b: map<Slot, Record>, c: map<Slot, Record>)
    requires Advances(a, b) && Advances(b, c)
    ensures Advances(a, c)
  {
    forall k | k in a
      ensures k in c && (c[k] == a[k] || Beats(c[k], a[k]))
    {
      assert k in b;
      BeatsOrder(c[k], b[k], a[k]);
    }
  }
}
