/** Anti-entropy: a probe carries a root, the responder answers with a range cut on a NodeID
    boundary, and the prober resumes behind the last node it was sent. */
module AntiEntropy {
  import opened Bytes
  import opened Records
  import opened Finite
  import opened Enumeration
  import opened Store
  import opened Convergence
  import opened MerkleRoot
  import opened Encoding
  import RecordStores
  import Clock

  const MAX_RANGE: nat := 64

  // ---------- the responder ----------

  /** The first index from `i` on at which a new NodeID begins, or the end. */
  function SplitFrom(view: seq<Record>, i: nat): (s: nat)
    requires 1 <= i <= |view|
    ensures i <= s <= |view| && (s < |view| ==> view[s].nodeID != view[s - 1].nodeID)
    decreases |view| - i
  {
    if i < |view| && view[i].nodeID == view[i - 1].nodeID then SplitFrom(view, i + 1) else i
  }

  function Split(view: seq<Record>): (s: nat)
    requires view != []
    ensures 1 <= s <= |view| && |view| / 2 <= s && (s < |view| ==> view[s].nodeID != view[s - 1].nodeID)
  {
    SplitFrom(view, if |view| / 2 < 1 then 1 else |view| / 2)
  }

  datatype Reply = Silent | Range(recs: seq<Record>, truncated: bool)

  /** The answer to a probe, given the responder's view of the range and the attestations it would
      append to an untruncated full-range answer. */
  function Respond(h: Bytes -> Bytes, view: seq<Record>, full: bool, atts: seq<Record>, root: Bytes): Reply {
    if Root(h, view) == root then Silent
    else if |view| <= MAX_RANGE then
      Range(view + if full then (if |atts| > MAX_RANGE then atts[..MAX_RANGE] else atts) else [], false)
    else
      var half := Split(view);
      if half >= |view| then Range(view, false) else Range(view[..half], true)
  }

  // ---------- the witnesses sent along ----------

  /** The witnesses on file ahead of one, by target and observer. */
  ghost function Earlier(ts: TopicState, n: NodeID, o: NodeID): set<Slot> {
    Before(RecordStores.WitnessMap(ts.attestations).Keys, Slot(n, o))
  }

  /** Listed are exactly the witnesses on file, each at its place. */
  lemma {:induction false} AttestedIs(ts: TopicState, n: NodeID, o: NodeID)
    requires WitnessesFiled(ts.attestations) && n in ts.attestations && o in ts.attestations[n]
    ensures var atts, i := RecordStores.Attested(ts), |Earlier(ts, n, o)|;
      i < |atts| && atts[i] == ts.attestations[n][o] && forall j | 0 <= j < |atts| && j != i :: atts[j] != atts[i]
  {
    var all := RecordStores.WitnessMap(ts.attestations);
    assert Slot(n, o) in all;
    var i := ListingHas(all, Every(), Slot(n, o));
    assert Kept(all, Every()) == all.Keys;
    CanonicalRank(all.Keys, i);
    CanonicalSorted(all.Keys);
    forall j | 0 <= j < |RecordStores.Attested(ts)| && j != i
      ensures RecordStores.Attested(ts)[j] != RecordStores.Attested(ts)[i]
    {
      var k := Canonical(all.Keys)[j];
      assert k in Canonical(all.Keys);
      RecordStores.SortedDistinct(Canonical(all.Keys));
    }
  }

  lemma {:induction false} AttestedFiled(ts: TopicState)
    requires WitnessesFiled(ts.attestations)
    ensures forall a | a in RecordStores.Attested(ts) :: WitnessHere(ts, a)
  {
    forall a | a in RecordStores.Attested(ts)
      ensures WitnessHere(ts, a)
    {
      var i :| 0 <= i < |RecordStores.Attested(ts)| && RecordStores.Attested(ts)[i] == a;
      AttestedAt(ts, i);
    }
  }

  /** The attestation is on file under its own target and observer. */
  predicate WitnessHere(ts: TopicState, a: Record) {
    && a.IsAttestation() && a.nodeID in ts.attestations
    && a.observer in ts.attestations[a.nodeID] && ts.attestations[a.nodeID][a.observer] == a
  }

  lemma {:induction false} AttestedAt(ts: TopicState, i: nat)
    requires WitnessesFiled(ts.attestations) && i < |RecordStores.Attested(ts)|
    ensures WitnessHere(ts, RecordStores.Attested(ts)[i])
  {
    var all := RecordStores.WitnessMap(ts.attestations);
    CanonicalSorted(Kept(all, Every()));
    var k := Canonical(Kept(all, Every()))[i];
    assert k in Canonical(Kept(all, Every()));
    assert WitnessesOf(k.node, ts.attestations[k.node]);
  }

  lemma {:induction false} NotInView(ts: TopicState, a: Record)
    requires RecordsFiled(ts.records) && a.IsAttestation()
    ensures a !in RangeView(ts.records, None, None)
  {
    ViewWithin(ts.records, Taking(None, None));
  }

  /** A full-range answer carries a witness on file exactly if the view has at most 64 records and
      fewer than 64 witnesses come before it, by target and observer. */
  lemma {:induction false} WitnessSentIff(h: Bytes -> Bytes, ts: TopicState, root: Bytes, n: NodeID, o: NodeID)
    requires WellFiled(ts) && n in ts.attestations && o in ts.attestations[n]
    requires Root(h, RangeView(ts.records, None, None)) != root
    ensures var view := RangeView(ts.records, None, None);
      var reply := Respond(h, view, true, RecordStores.Attested(ts), root);
      reply.Range? && (ts.attestations[n][o] in reply.recs <==> |view| <= 64 && |Earlier(ts, n, o)| < 64)
  {
    var view, atts, a, i := RangeView(ts.records, None, None), RecordStores.Attested(ts), ts.attestations[n][o],
                            |Earlier(ts, n, o)|;
    AttestedIs(ts, n, o);
    AttestedFiled(ts);
    NotInView(ts, a);
    if |view| <= 64 {
      var sent := if |atts| > 64 then atts[..64] else atts;
      if i < 64 {
        assert sent[i] == a;
      }
      assert a in view + sent <==> a in sent;
    }
  }

  /** The answer carries the witnesses on file that it should. */
  ghost predicate CarriesWitnesses(ts: TopicState, recs: seq<Record>) {
    forall n, o | n in ts.attestations && o in ts.attestations[n] ::
      ts.attestations[n][o] in recs <==> |RangeView(ts.records, None, None)| <= 64 && |Earlier(ts, n, o)| < 64
  }

  lemma {:induction false} AllCarried(h: Bytes -> Bytes, ts: TopicState, root: Bytes)
    requires WellFiled(ts) && Root(h, RangeView(ts.records, None, None)) != root
    ensures var reply := Respond(h, RangeView(ts.records, None, None), true, RecordStores.Attested(ts), root);
      reply.Range? && CarriesWitnesses(ts, reply.recs)
  {
    forall n, o | n in ts.attestations && o in ts.attestations[n]
      ensures var reply := Respond(h, RangeView(ts.records, None, None), true, RecordStores.Attested(ts), root);
        reply.Range? && (ts.attestations[n][o] in reply.recs <==>
                         |RangeView(ts.records, None, None)| <= 64 && |Earlier(ts, n, o)| < 64)
    {
      WitnessSentIff(h, ts, root, n, o);
    }
  }

  /** The loop that moves the split to the end of the group it landed in. */
  method SplitPoint(view: seq<Record>) returns (half: nat)
    requires view != []
    ensures half == Split(view)
  {
    half := |view| / 2;
    if half < 1 {
      half := 1;
    }
    ghost var first := half;
    while half < |view| && view[half].nodeID == view[half - 1].nodeID
      invariant first <= half <= |view|
      invariant SplitFrom(view, first) == SplitFrom(view, half)
    {
      half := half + 1;
    }
  }

  // ---------- the prober ----------

  /** What one side brings to an exchange: its hash, its caps, its inbound gate and its clock. */
  datatype Side = Side(h: Bytes -> Bytes, c: Config, admit: Record -> bool, now: int)

  /** What passes the gate, in order. */
  ghost function Admitted(admit: Record -> bool, now: int, recs: seq<Record>): seq<Arrival> {
    if recs == [] then []
    else (if admit(recs[0]) then [Arrival(recs[0], now)] else []) + Admitted(admit, now, recs[1..])
  }

  /** HandleRange on the topic: apply what the gate admits, in order. */
  ghost function Absorb(x: Side, ts: TopicState, recs: seq<Record>): TopicState {
    Fold(x.c, ts, Admitted(x.admit, x.now, recs))
  }

  /** The cursor behind the last record received. */
  function Cursor(recs: seq<Record>): Option<Bytes>
    requires recs != []
  {
    Some(recs[|recs| - 1].nodeID + [1])
  }

  /** The prober in the middle of a range: its clock, its store, and what it has handed on. */
  datatype Taken = Taken(clock: u64, st: Stores, delivered: seq<Record>)

  /** What the clocks read while one record is handled. */
  datatype Reading = Reading(wall: nat, now: int)

  predicate Readable(at: seq<Reading>, recs: seq<Record>) {
    |at| == |recs| && forall i | 0 <= i < |at| :: at[i].wall < Clock.WALLS
  }

  /** One record of a range: gate, observe, apply, and hand on what changed the store. */
  ghost function Take(c: Config, admit: Record -> bool, at: Reading, t: Taken, r: Record): Taken
    requires at.wall < Clock.WALLS
  {
    if !admit(r) then t
    else
      var (st, out) := Apply(c, t.st, r, at.now);
      Taken(Clock.ObserveNext(t.clock, r.hlc, at.wall), st, if out.applied then t.delivered + [r] else t.delivered)
  }

  ghost function TakeAll(c: Config, admit: Record -> bool, at: seq<Reading>, t: Taken, recs: seq<Record>): Taken
    requires Readable(at, recs)
    decreases |recs|
  {
    if recs == [] then t else TakeAll(c, admit, at[1..], Take(c, admit, at[0], t, recs[0]), recs[1..])
  }

  /** What passes the gate, in order, each at its own reading. */
  ghost function AdmittedAt(admit: Record -> bool, at: seq<Reading>, recs: seq<Record>): seq<Arrival>
    requires |at| == |recs|
    decreases |recs|
  {
    if recs == [] then []
    else (if admit(recs[0]) then [Arrival(recs[0], at[0].now)] else []) + AdmittedAt(admit, at[1..], recs[1..])
  }

  lemma {:induction false} AdmittedTogether(admit: Record -> bool, at: seq<Reading>, now: int, recs: seq<Record>)
    requires |at| == |recs| && forall i | 0 <= i < |at| :: at[i].now == now
    ensures AdmittedAt(admit, at, recs) == Admitted(admit, now, recs)
    decreases |recs|
  {
    if recs != [] {
      AdmittedTogether(admit, at[1..], now, recs[1..]);
    }
  }

  /** The arrivals that change a slot, in order. */
  ghost function Changing(c: Config, st: Stores, e: seq<Arrival>): seq<Record>
    decreases |e|
  {
    if e == [] then []
    else
      var r, st' := e[0].r, Apply(c, st, e[0].r, e[0].now).0;
      (if TopicOf(st', r.topic).records != TopicOf(st, r.topic).records then [r] else []) + Changing(c, st', e[1..])
  }

  /** What is handed on is exactly what changed a slot, in order. */
  lemma {:induction false} RangeHandsOn(c: Config, admit: Record -> bool, at: seq<Reading>, t: Taken, recs: seq<Record>)
    requires Readable(at, recs)
    ensures TakeAll(c, admit, at, t, recs).delivered ==
            t.delivered + Changing(c, t.st, AdmittedAt(admit, at, recs))
    decreases |recs|
  {
    if recs != [] {
      var next, rest := Take(c, admit, at[0], t, recs[0]), AdmittedAt(admit, at[1..], recs[1..]);
      RangeHandsOn(c, admit, at[1..], next, recs[1..]);
      TakeHandsOn(c, admit, at[0], t, recs[0], rest);
      if !admit(recs[0]) {
        assert AdmittedAt(admit, at, recs) == rest;
      }
    }
  }

  lemma {:induction false} TakeHandsOn(c: Config, admit: Record -> bool, at: Reading, t: Taken, r: Record,
                                       e: seq<Arrival>)
    requires at.wall < Clock.WALLS
    ensures var next := Take(c, admit, at, t, r);
      next.delivered + Changing(c, next.st, e) ==
      t.delivered + Changing(c, t.st, if admit(r) then [Arrival(r, at.now)] + e else e)
  {
    if admit(r) {
      var (st, out) := Apply(c, t.st, r, at.now);
      ChangingHead(c, t.st, r, at.now, e);
      SeqGroups(t.delivered, if out.applied then [r] else [], Changing(c, st, e));
    }
  }

  lemma {:induction false} ChangingHead(c: Config, st: Stores, r: Record, now: int, e: seq<Arrival>)
    ensures var (st', out) := Apply(c, st, r, now);
      Changing(c, st, [Arrival(r, now)] + e) == (if out.applied then [r] else []) + Changing(c, st', e)
  {
    TopicStepAdvances(c, TopicOf(st, r.topic), r, now);
    assert ([Arrival(r, now)] + e)[1..] == e;
  }

  /** A range leaves the store as folding its admitted records does, moves the clock only up, to or
      above every admitted HLC that is in budget when it is observed, and hands on only admitted
      records. */
  lemma {:induction false} RangeFolds(c: Config, admit: Record -> bool, at: seq<Reading>, t: Taken, recs: seq<Record>)
    requires Readable(at, recs)
    ensures var u := TakeAll(c, admit, at, t, recs);
      && u.st == FoldStores(c, t.st, AdmittedAt(admit, at, recs)) && t.clock <= u.clock && t.delivered <= u.delivered
      && (forall i | 0 <= i < |recs| && admit(recs[i]) && Clock.InBudget(recs[i].hlc, at[i].wall) ::
            recs[i].hlc <= u.clock)
      && (forall r | r in u.delivered[|t.delivered|..] :: r in recs && admit(r))
    decreases |recs|
  {
    if recs != [] {
      var next, u := Take(c, admit, at[0], t, recs[0]), TakeAll(c, admit, at, t, recs);
      RangeFolds(c, admit, at[1..], next, recs[1..]);
      Clock.ObserveAdvances(t.clock, recs[0].hlc, at[0].wall);
      assert recs == [recs[0]] + recs[1..];
      forall i | 0 <= i < |recs| && admit(recs[i]) && Clock.InBudget(recs[i].hlc, at[i].wall)
        ensures recs[i].hlc <= u.clock
      {
        if i > 0 {
          assert recs[1..][i - 1] == recs[i] && at[1..][i - 1] == at[i];
        }
      }
      if admit(recs[0]) {
        assert AdmittedAt(admit, at, recs)[1..] == AdmittedAt(admit, at[1..], recs[1..]);
      } else {
        assert AdmittedAt(admit, at, recs) == AdmittedAt(admit, at[1..], recs[1..]);
      }
    }
  }

  lemma {:induction false} AdmittedOn(admit: Record -> bool, now: int, recs: seq<Record>, topic: Topic)
    requires forall r | r in recs :: r.topic == topic
    ensures var e := Admitted(admit, now, recs); ArrivalsOn(e, topic) == e && TopicsOf(e) <= {topic}
  {
    if recs != [] {
      AdmittedOn(admit, now, recs[1..], topic);
      if admit(recs[0]) {
        assert Admitted(admit, now, recs)[1..] == Admitted(admit, now, recs[1..]);
      } else {
        assert Admitted(admit, now, recs) == Admitted(admit, now, recs[1..]);
      }
    }
  }

  /** On its topic, a range does to the store what the pull below takes it to do. */
  lemma {:induction false} RangeAbsorbs(x: Side, st: Stores, clock: u64, at: seq<Reading>, recs: seq<Record>,
                                        topic: Topic)
    requires Readable(at, recs) && (forall i | 0 <= i < |at| :: at[i].now == x.now)
    requires (forall r | r in recs :: r.topic == topic) && |st.Keys + {topic}| <= x.c.maxTopics
    ensures TopicOf(TakeAll(x.c, x.admit, at, Taken(clock, st, []), recs).st, topic) ==
            Absorb(x, TopicOf(st, topic), recs)
  {
    var e := Admitted(x.admit, x.now, recs);
    RangeFolds(x.c, x.admit, at, Taken(clock, st, []), recs);
    AdmittedTogether(x.admit, at, x.now, recs);
    AdmittedOn(x.admit, x.now, recs, topic);
    SubsetCard(st.Keys + TopicsOf(e), st.Keys + {topic});
    TopicsIndependent(x.c, st, e, topic);
  }

  // ---------- the engine ----------

  const RECIPROCAL_NS := 5_000_000_000

  /** The key of the rate limit: peer and topic with a zero byte between. */
  function PeerTopic(from: NodeID, topic: Topic): Bytes {
    from + [0] + topic
  }

  predicate Recently(last: map<Bytes, int>, key: Bytes, now: int) {
    key in last && now - last[key] < RECIPROCAL_NS
  }

  /** A probe with another root comes in. */
  datatype Mismatch = Mismatch(key: Bytes, now: int)

  /** When each key was last probed back, after the mismatches. */
  function ProbedBack(last: map<Bytes, int>, ms: seq<Mismatch>): map<Bytes, int> {
    if ms == [] then last
    else
      var before, m := ProbedBack(last, ms[..|ms| - 1]), ms[|ms| - 1];
      if Recently(before, m.key, m.now) then before else before[m.key := m.now]
  }

  /** The `i`-th mismatch is answered with a probe in return. */
  predicate AnsweredBack(ms: seq<Mismatch>, i: nat)
    requires i < |ms|
  {
    !Recently(ProbedBack(map[], ms[..i]), ms[i].key, ms[i].now)
  }

  lemma {:induction false} ProbedBackIs(ms: seq<Mismatch>, n: nat, key: Bytes)
    requires n <= |ms| && forall i, j | 0 <= i <= j < |ms| :: ms[i].now <= ms[j].now
    ensures var last := ProbedBack(map[], ms[..n]);
      && (key in last ==> exists i :: 0 <= i < n && ms[i].key == key && ms[i].now == last[key] && AnsweredBack(ms, i))
      && (forall i | 0 <= i < n && ms[i].key == key && AnsweredBack(ms, i) :: key in last && ms[i].now <= last[key])
  {
    if n > 0 {
      ProbedBackIs(ms, n - 1, key);
      assert ms[..n][..n - 1] == ms[..n - 1];
      var before := ProbedBack(map[], ms[..n - 1]);
      if ms[n - 1].key == key && !Recently(before, key, ms[n - 1].now) {
        assert AnsweredBack(ms, n - 1);
      } else if key in before {
        var i :| 0 <= i < n - 1 && ms[i].key == key && ms[i].now == before[key] && AnsweredBack(ms, i);
        assert 0 <= i < n;
      }
    }
  }

  /** A mismatch is answered with a probe in return exactly if none of the same peer and topic was in
      the five seconds before. */
  lemma {:induction false} AnsweredBackIff(ms: seq<Mismatch>, j: nat)
    requires j < |ms| && forall i, k | 0 <= i <= k < |ms| :: ms[i].now <= ms[k].now
    ensures AnsweredBack(ms, j) <==>
            !exists i :: 0 <= i < j && ms[i].key == ms[j].key && AnsweredBack(ms, i) &&
                         ms[j].now - ms[i].now < 5_000_000_000
  {
    ProbedBackIs(ms, j, ms[j].key);
  }

  class MerkleEngine {
    const store: RecordStores.RecordStore
    const h: Bytes -> Bytes
    var lastReciprocal: map<Bytes, int>

    constructor (store: RecordStores.RecordStore, h: Bytes -> Bytes)
      ensures this.store == store && this.h == h && lastReciprocal == map[]
    {
      this.store, this.h, lastReciprocal := store, h, map[];
    }

    /** Whether the peer may be probed back on the topic, taking note of it if so. */
    method MayReciprocate(key: Bytes, now: int) returns (may: bool)
      modifies this`lastReciprocal
      ensures may <==> !Recently(old(lastReciprocal), key, now)
      ensures lastReciprocal == if may then old(lastReciprocal)[key := now] else old(lastReciprocal)
    {
      may := key !in lastReciprocal || now - lastReciprocal[key] >= RECIPROCAL_NS;
      if may {
        lastReciprocal := lastReciprocal[key := now];
      }
    }

    /** The answer to a probe, and the root of a probe in return unless the peer was sent one for
        this topic within the last five seconds. */
    method HandleProbe(from: NodeID, topic: Topic, start: Option<Bytes>, end: Option<Bytes>, root: Bytes, now: int)
      returns (reply: Reply, back: Option<Bytes>)
      requires RecordsFiled(TopicOf(store.byTopic, topic).records)
      modifies this`lastReciprocal
      ensures var ts := TopicOf(store.byTopic, topic);
        reply == Respond(h, RangeView(ts.records, start, end), start.None? && end.None?,
                         RecordStores.Attested(ts), root)
      ensures reply.Range? && start.None? && end.None? && WellFiled(TopicOf(store.byTopic, topic)) ==>
                CarriesWitnesses(TopicOf(store.byTopic, topic), reply.recs)
      ensures back.Some? <==> !reply.Silent? && !Recently(old(lastReciprocal), PeerTopic(from, topic), now)
      ensures back.Some? ==> back.value == Root(h, RangeView(TopicOf(store.byTopic, topic).records, start, end))
      ensures lastReciprocal ==
              if back.Some? then old(lastReciprocal)[PeerTopic(from, topic) := now] else old(lastReciprocal)
    {
      back := None;
      var local := TopicMerkleRoot(store, h, topic, start, end);
      if local == root {
        return Silent, back;
      }
      reply := Answer(topic, start, end, root);
      if start.None? && end.None? && WellFiled(TopicOf(store.byTopic, topic)) {
        AllCarried(h, TopicOf(store.byTopic, topic), root);
      }
      var may := MayReciprocate(PeerTopic(from, topic), now);
      if may {
        back := Some(local);
      }
    }

    /** The range sent when the roots differ. */
    method Answer(topic: Topic, start: Option<Bytes>, end: Option<Bytes>, ghost root: Bytes) returns (reply: Reply)
      requires RecordsFiled(TopicOf(store.byTopic, topic).records)
      requires Root(h, RangeView(TopicOf(store.byTopic, topic).records, start, end)) != root
      ensures var ts := TopicOf(store.byTopic, topic);
        reply == Respond(h, RangeView(ts.records, start, end), start.None? && end.None?,
                         RecordStores.Attested(ts), root)
      ensures reply.Range?
    {
      var inRange := CollectRange(store, topic, start, end);
      if |inRange| <= MAX_RANGE {
        if start.None? && end.None? {
          var atts := store.TopicAttestations(topic);
          inRange := inRange + if |atts| > MAX_RANGE then atts[..MAX_RANGE] else atts;
        } else {
          assert inRange + [] == inRange;
        }
        return Range(inRange, false);
      }
      var half := SplitPoint(inRange);
      if half >= |inRange| {
        return Range(inRange, false);
      }
      return Range(inRange[..half], true);
    }

    /** What a range brings: the clock, the store, the records handed on, and where to resume. */
    method HandleRange(clock: u64, admit: Record -> bool, at: seq<Reading>, recs: seq<Record>, truncated: bool)
      returns (clock': u64, delivered: seq<Record>, next: Option<Bytes>)
      requires store.cfg.Valid() && Readable(at, recs)
      modifies store
      ensures Taken(clock', store.byTopic, delivered) ==
              TakeAll(store.cfg, admit, at, Taken(clock, old(store.byTopic), []), recs)
      ensures next == if truncated && recs != [] then Cursor(recs) else None
    {
      clock', delivered := clock, [];
      for i := 0 to |recs|
        invariant TakeAll(store.cfg, admit, at[i..], Taken(clock', store.byTopic, delivered), recs[i..]) ==
                  TakeAll(store.cfg, admit, at, Taken(clock, old(store.byTopic), []), recs)
      {
        assert recs[i..][1..] == recs[i + 1..] && at[i..][1..] == at[i + 1..];
        if admit(recs[i]) {
          clock' := Clock.ObserveNext(clock', recs[i].hlc, at[i].wall);
          var applied, replaced, accumulated := store.ApplyExt(recs[i], at[i].now);
          if applied {
            delivered := delivered + [recs[i]];
          }
        }
      }
      next := if truncated && recs != [] then Cursor(recs) else None;
    }
  }

  // ---------- views and the cursor ----------

  /** No record's NodeID extends another's by a zero byte, which is so when all NodeIDs have the
      same length. */
  ghost predicate NoGap(slots: set<Slot>) {
    forall a, b | a in slots && b in slots :: !Gap(a.node, b.node)
  }

  predicate Gap(last: Bytes, x: Bytes) {
    |x| > |last| && x[..|last| + 1] == last + [0]
  }

  lemma {:induction false} EqualLengthsNoGap(slots: set<Slot>, len: nat)
    requires forall k | k in slots :: |k.node| == len
    ensures NoGap(slots)
  {
  }

  lemma {:induction false} ViewSorted(records: map<Slot, Record>, start: Option<Bytes>, i: nat, j: nat)
    requires RecordsFiled(records) && i < j < |RangeView(records, start, None)|
    ensures var v := RangeView(records, start, None); SlotLess(SlotOf(v[i]), SlotOf(v[j]))
    ensures var v := RangeView(records, start, None);
      v[i].nodeID == v[j].nodeID || LexLess(v[i].nodeID, v[j].nodeID)
  {
    CanonicalSorted(Kept(records, Taking(start, None)));
    ListingAt(records, Taking(start, None), i);
    ListingAt(records, Taking(start, None), j);
  }

  /** At a split, exactly the records behind it have larger NodeIDs than the last one sent. */
  lemma {:induction false} SplitOrders(records: map<Slot, Record>, start: Option<Bytes>, half: nat, j: nat)
    requires RecordsFiled(records)
    requires var v := RangeView(records, start, None);
      1 <= half < |v| && j < |v| && v[half].nodeID != v[half - 1].nodeID
    ensures var v := RangeView(records, start, None); half <= j <==> LexLess(v[half - 1].nodeID, v[j].nodeID)
  {
    var v := RangeView(records, start, None);
    ViewSorted(records, start, half - 1, half);
    if half < j {
      ViewSorted(records, start, half, j);
      if v[half].nodeID != v[j].nodeID {
        LexTransitive(v[half - 1].nodeID, v[half].nodeID, v[j].nodeID);
      }
    } else if j < half - 1 {
      ViewSorted(records, start, j, half - 1);
      LexIrreflexive(v[j].nodeID);
      if v[j].nodeID != v[half - 1].nodeID {
        LexAsymmetric(v[j].nodeID, v[half - 1].nodeID);
      }
    } else if j == half - 1 {
      LexIrreflexive(v[j].nodeID);
    }
  }

  /** The resumed probe asks for a record of the old range exactly when it lies behind the split
      and its NodeID is not the last one extended by a zero byte. */
  lemma {:induction false} CursorResumes(records: map<Slot, Record>, start: Option<Bytes>, half: nat, j: nat)
    requires RecordsFiled(records)
    requires var v := RangeView(records, start, None);
      1 <= half < |v| && j < |v| && v[half].nodeID != v[half - 1].nodeID
    ensures var v := RangeView(records, start, None);
      InRange(v[j], Cursor(v[..half]), None) <==> half <= j && !Gap(v[half - 1].nodeID, v[j].nodeID)
  {
    var v := RangeView(records, start, None);
    var last, x := v[half - 1].nodeID, v[j].nodeID;
    SplitOrders(records, start, half, j);
    LexCursorGap(last, x);
    if !LexLess(last, x) {
      LexBelowCursor(last, x);
    }
  }

  lemma {:induction false} LexBelowCursor(last: Bytes, x: Bytes)
    requires !LexLess(last, x)
    ensures LexLess(x, last + [1])
  {
    LexTotal(last, x);
    LexExtends(last);
    if x != last {
      LexTransitive(x, last, last + [1]);
    }
  }

  /** A resumed range is part of the old one. */
  lemma {:induction false} CursorNarrows(records: map<Slot, Record>, start: Option<Bytes>, half: nat, r: Record)
    requires RecordsFiled(records)
    requires 1 <= half <= |RangeView(records, start, None)|
    requires InRange(r, Cursor(RangeView(records, start, None)[..half]), None)
    ensures InRange(r, start, None)
  {
    var last := RangeView(records, start, None)[half - 1];
    ViewWithin(records, Taking(start, None));
    assert last in RangeView(records, start, None);
    if start.Some? && LexLess(r.nodeID, start.value) {
      LexExtends(last.nodeID);
      LexTotal(start.value, last.nodeID);
      if start.value != last.nodeID {
        LexTransitive(r.nodeID, start.value, last.nodeID);
      }
      LexTransitive(r.nodeID, last.nodeID, last.nodeID + [1]);
    }
  }

  /** The resumed view is no longer than what was left behind the split. */
  lemma {:induction false} NextViewSize(records: map<Slot, Record>, start: Option<Bytes>, half: nat)
    requires RecordsFiled(records)
    requires var v := RangeView(records, start, None); 1 <= half < |v| && v[half].nodeID != v[half - 1].nodeID
    ensures var v := RangeView(records, start, None);
      |RangeView(records, Cursor(v[..half]), None)| <= |v| - half
  {
    var v := RangeView(records, start, None);
    var ks, next := Canonical(Kept(records, Taking(start, None))), Kept(records, Taking(Cursor(v[..half]), None));
    forall k | k in next
      ensures k in Members(ks[half..])
    {
      CursorNarrows(records, start, half, records[k]);
      var j := ListingHas(records, Taking(start, None), k);
      CursorResumes(records, start, half, j);
      assert ks[half..][j - half] == k;
    }
    CanonicalSorted(next);
    SubsetCard(next, Members(ks[half..]));
    MembersSize(ks[half..]);
  }

  lemma {:induction false} MembersSize(s: seq<Slot>)
    ensures |Members(s)| <= |s|
  {
    if s != [] {
      MembersSize(s[1..]);
      assert s == [s[0]] + s[1..];
      assert Members(s) == {s[0]} + Members(s[1..]);
    }
  }
}
