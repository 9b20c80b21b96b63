/** The per-topic root: one hash over fixed-width items of the signed records of a NodeID range, in
    canonical order. Hashing is a parameter; what is asked of it is that the strings actually
    hashed do not collide. */
module MerkleRoot {
  import opened Bytes
  import opened Records
  import opened Finite
  import opened Enumeration
  import opened Encoding
  import opened Store
  import Quorum
  import RecordStores

  predicate InRange(r: Record, start: Option<Bytes>, end: Option<Bytes>) {
    && (start.Some? ==> !LexLess(r.nodeID, start.value))
    && (end.Some? ==> !LexLess(end.value, r.nodeID))
  }

  /** The records that take part in the root and in range replies: signed ones within the range. */
  function Taking(start: Option<Bytes>, end: Option<Bytes>): Record -> bool {
    (r: Record) => r.IsSigned() && InRange(r, start, end)
  }

  ghost function RangeView(records: map<Slot, Record>, start: Option<Bytes>, end: Option<Bytes>): seq<Record> {
    Listing(records, Taking(start, end))
  }

  function Item(h: Bytes -> Bytes, r: Record): Bytes {
    h(r.nodeID) + BigEndian(r.hlc, 8) + h(r.sig)
  }

  function Flat(h: Bytes -> Bytes, rs: seq<Record>): Bytes {
    if rs == [] then [] else Flat(h, rs[..|rs| - 1]) + Item(h, rs[|rs| - 1])
  }

  function Root(h: Bytes -> Bytes, rs: seq<Record>): Bytes {
    h(Flat(h, rs))
  }

  // ---------- faithfulness ----------

  /** The strings hashed to compute the root of `rs`. */
  ghost function Hashed(h: Bytes -> Bytes, rs: seq<Record>): set<Bytes> {
    {Flat(h, rs)} + (set r | r in rs :: r.nodeID) + (set r | r in rs :: r.sig)
  }

  /** A signature, together with the claimed node and HLC it was hashed with, determines the
      record. */
  ghost predicate SigDetermines(s: set<Record>) {
    forall a, b | a in s && b in s && a.IsSigned() && a.nodeID == b.nodeID && a.hlc == b.hlc && a.sig == b.sig ::
      a == b
  }

  lemma {:induction false} FlatLength(h: Bytes -> Bytes, rs: seq<Record>)
    requires Wide(h)
    ensures |Flat(h, rs)| == 72 * |rs|
  {
    if rs != [] {
      FlatLength(h, rs[..|rs| - 1]);
    }
  }

  lemma {:induction false} ItemDetermines(h: Bytes -> Bytes, s: set<Bytes>, a: Record, b: Record)
    requires Wide(h) && NoCollision(h, s) && {a.nodeID, b.nodeID, a.sig, b.sig} <= s
    requires Item(h, a) == Item(h, b)
    ensures a.nodeID == b.nodeID && a.hlc == b.hlc && a.sig == b.sig
  {
    assert h(a.nodeID) == Item(h, a)[..32] == Item(h, b)[..32] == h(b.nodeID);
    assert BigEndian(a.hlc, 8) == Item(h, a)[32..40] == Item(h, b)[32..40] == BigEndian(b.hlc, 8);
    assert h(a.sig) == Item(h, a)[40..] == Item(h, b)[40..] == h(b.sig);
    Widths();
    BigEndianExact(a.hlc, 8);
    BigEndianExact(b.hlc, 8);
  }

  lemma {:induction false} LastItem(h: Bytes -> Bytes, xs: seq<Record>, ys: seq<Record>)
    requires Wide(h) && xs != [] && Flat(h, xs) == Flat(h, ys)
    ensures |ys| == |xs|
    ensures Flat(h, xs[..|xs| - 1]) == Flat(h, ys[..|xs| - 1]) && Item(h, xs[|xs| - 1]) == Item(h, ys[|xs| - 1])
  {
    FlatLength(h, xs);
    FlatLength(h, ys);
    var n := |xs| - 1;
    ItemLength(h, xs[n]);
    ItemLength(h, ys[n]);
    ConcatSplit(Flat(h, xs[..n]), Item(h, xs[n]), Flat(h, ys[..n]), Item(h, ys[n]));
  }

  lemma {:induction false} ItemLength(h: Bytes -> Bytes, r: Record)
    requires Wide(h)
    ensures |Item(h, r)| == 72
  {
  }

  /** The records are signed, of `u`, and what is hashed of them is in `s`. */
  ghost predicate Known(s: set<Bytes>, u: set<Record>, rs: seq<Record>) {
    forall i | 0 <= i < |rs| :: rs[i] in u && rs[i].IsSigned() && rs[i].nodeID in s && rs[i].sig in s
  }

  lemma {:induction false} FlatDetermines(h: Bytes -> Bytes, s: set<Bytes>, u: set<Record>, xs: seq<Record>,
                                          ys: seq<Record>)
    requires Wide(h) && NoCollision(h, s) && SigDetermines(u) && Known(s, u, xs) && Known(s, u, ys)
    requires Flat(h, xs) == Flat(h, ys)
    ensures xs == ys
  {
    if xs != [] {
      var n := |xs| - 1;
      LastItem(h, xs, ys);
      ItemDetermines(h, s, xs[n], ys[n]);
      FlatDetermines(h, s, u, xs[..n], ys[..n]);
      LastOf(xs);
      LastOf(ys);
    } else {
      FlatLength(h, ys);
    }
  }

  /** Two views have the same root exactly when they are the same list of records. */
  lemma {:induction false} RootDetermines(h: Bytes -> Bytes, u: set<Record>, xs: seq<Record>, ys: seq<Record>)
    requires Wide(h) && SigDetermines(u) && (forall r | r in xs || r in ys :: r in u && r.IsSigned())
    requires NoCollision(h, Hashed(h, xs) + Hashed(h, ys))
    ensures Root(h, xs) == Root(h, ys) <==> xs == ys
  {
    var s := Hashed(h, xs) + Hashed(h, ys);
    if Root(h, xs) == Root(h, ys) {
      assert Flat(h, xs) in s && Flat(h, ys) in s;
      assert forall i | 0 <= i < |xs| :: xs[i] in xs;
      assert forall i | 0 <= i < |ys| :: ys[i] in ys;
      FlatDetermines(h, s, u, xs, ys);
    }
  }

  ghost function KeptMap(records: map<Slot, Record>, keep: Record -> bool): map<Slot, Record> {
    map k | k in records && keep(records[k]) :: records[k]
  }

  lemma {:induction false} ListingAt(records: map<Slot, Record>, keep: Record -> bool, i: nat)
    requires i < |Listing(records, keep)| && RecordsFiled(records)
    ensures var r := Listing(records, keep)[i];
      SlotOf(r) == Canonical(Kept(records, keep))[i] && SlotOf(r) in records && records[SlotOf(r)] == r && keep(r)
  {
    CanonicalSorted(Kept(records, keep));
    assert Canonical(Kept(records, keep))[i] in Kept(records, keep);
  }

  lemma {:induction false} ListingHas(records: map<Slot, Record>, keep: Record -> bool, k: Slot) returns (i: nat)
    requires k in records && keep(records[k])
    ensures i < |Listing(records, keep)| && Listing(records, keep)[i] == records[k]
    ensures Canonical(Kept(records, keep))[i] == k
  {
    var ks := Canonical(Kept(records, keep));
    CanonicalSorted(Kept(records, keep));
    assert k in Kept(records, keep);
    i :| 0 <= i < |ks| && ks[i] == k;
  }

  lemma {:induction false} ListingsEqualIff(a: map<Slot, Record>, b: map<Slot, Record>, keep: Record -> bool)
    requires RecordsFiled(a) && RecordsFiled(b)
    ensures Listing(a, keep) == Listing(b, keep) <==> KeptMap(a, keep) == KeptMap(b, keep)
  {
    if KeptMap(a, keep) == KeptMap(b, keep) {
      assert Kept(a, keep) == KeptMap(a, keep).Keys == KeptMap(b, keep).Keys == Kept(b, keep);
      var ks := Canonical(Kept(a, keep));
      CanonicalSorted(Kept(a, keep));
      forall i | 0 <= i < |ks|
        ensures Listing(a, keep)[i] == Listing(b, keep)[i]
      {
        assert ks[i] in Kept(a, keep);
        assert KeptMap(a, keep)[ks[i]] == KeptMap(b, keep)[ks[i]];
      }
    }
    if Listing(a, keep) == Listing(b, keep) {
      KeptIncluded(a, b, keep);
      KeptIncluded(b, a, keep);
    }
  }

  lemma {:induction false} KeptIncluded(a: map<Slot, Record>, b: map<Slot, Record>, keep: Record -> bool)
    requires RecordsFiled(a) && RecordsFiled(b) && Listing(a, keep) == Listing(b, keep)
    ensures forall k | k in KeptMap(a, keep) :: k in KeptMap(b, keep) && KeptMap(b, keep)[k] == KeptMap(a, keep)[k]
  {
    forall k | k in KeptMap(a, keep)
      ensures k in KeptMap(b, keep) && KeptMap(b, keep)[k] == KeptMap(a, keep)[k]
    {
      var i := ListingHas(a, keep, k);
      ListingAt(b, keep, i);
    }
  }

  /** Root faithfulness: two stores have equal roots on a range exactly when they hold the same
      signed records there. */
  lemma {:induction false} RootFaithful(h: Bytes -> Bytes, a: map<Slot, Record>, b: map<Slot, Record>,
                                        start: Option<Bytes>, end: Option<Bytes>)
    requires RecordsFiled(a) && RecordsFiled(b) && Wide(h) && SigDetermines(a.Values + b.Values)
    requires NoCollision(h, Hashed(h, RangeView(a, start, end)) + Hashed(h, RangeView(b, start, end)))
    ensures Root(h, RangeView(a, start, end)) == Root(h, RangeView(b, start, end)) <==>
            KeptMap(a, Taking(start, end)) == KeptMap(b, Taking(start, end))
  {
    var keep := Taking(start, end);
    ViewWithin(a, keep);
    ViewWithin(b, keep);
    RootDetermines(h, a.Values + b.Values, RangeView(a, start, end), RangeView(b, start, end));
    ListingsEqualIff(a, b, keep);
  }

  /** Some signed record of the node within the range that a verdict at `hlc` outranks. */
  predicate Outranked(records: map<Slot, Record>, node: NodeID, hlc: u64, start: Option<Bytes>, end: Option<Bytes>) {
    exists k | k in records :: k.node == node && Taking(start, end)(records[k]) && records[k].hlc < hlc
  }

  /** A verdict leaves the signed records of a range alone exactly if it outranks none of them. */
  lemma {:induction false} BuriedKeepsViewIff(records: map<Slot, Record>, topic: Topic, node: NodeID, hlc: u64,
                                              start: Option<Bytes>, end: Option<Bytes>)
    ensures var keep, b := Taking(start, end), Buried(records, topic, node, hlc);
      KeptMap(b, keep) == KeptMap(records, keep) <==> !Outranked(records, node, hlc, start, end)
  {
    var keep, b := Taking(start, end), Buried(records, topic, node, hlc);
    BuriedSlots(records, topic, node, hlc);
    if Outranked(records, node, hlc, start, end) {
      var k :| k in records && k.node == node && keep(records[k]) && records[k].hlc < hlc;
      assert k in KeptMap(records, keep) && k !in KeptMap(b, keep);
    } else {
      forall k | k in b
        ensures keep(b[k]) <==> k in records && keep(records[k])
        ensures keep(b[k]) ==> b[k] == records[k]
      {
      }
    }
  }

  /** Crossing quorum leaves the root of a range as it was exactly if the verdict outranks no
      signed record of the node there. */
  lemma {:induction false} CrossingKeepsRootIff(h: Bytes -> Bytes, c: Config, ts: TopicState, att: Record, now: int,
                                                start: Option<Bytes>, end: Option<Bytes>)
    requires WellFiled(ts) && Wide(h) && SigDetermines(ts.records.Values) && Crosses(c, ts, att, now)
    requires var after := AttestStep(c, ts, att, now).0.records;
      NoCollision(h, Hashed(h, RangeView(ts.records, start, end)) + Hashed(h, RangeView(after, start, end)))
    ensures var after := AttestStep(c, ts, att, now).0.records;
      Root(h, RangeView(after, start, end)) == Root(h, RangeView(ts.records, start, end)) <==>
      !Outranked(ts.records, att.nodeID, Inc64(HighestHlc(Joined(c, ts, att))), start, end)
  {
    var hlc := Inc64(HighestHlc(Joined(c, ts, att)));
    BuriedFiled(ts.records, att.topic, att.nodeID, hlc);
    BuriedKeepsViewIff(ts.records, att.topic, att.nodeID, hlc, start, end);
    RootFaithful(h, ts.records, Buried(ts.records, att.topic, att.nodeID, hlc), start, end);
  }

  lemma {:induction false} BuriedFiled(records: map<Slot, Record>, topic: Topic, node: NodeID, hlc: u64)
    requires RecordsFiled(records) && SigDetermines(records.Values)
    ensures var b := Buried(records, topic, node, hlc);
      RecordsFiled(b) && SigDetermines(records.Values + b.Values)
  {
    var b := Buried(records, topic, node, hlc);
    BuriedSlots(records, topic, node, hlc);
    forall k | k in b
      ensures b[k].IsSigned() ==> b[k] in records.Values
      ensures SlotOf(b[k]) == k && !b[k].IsAttestation()
    {
    }
    forall r | r in b.Values && r.IsSigned()
      ensures r in records.Values
    {
      var k :| k in b && b[k] == r;
    }
  }

  /** One witness against the only record on file is a verdict for a quorum of one, and waits for a
      quorum of two. */
  lemma {:induction false} LoneCrossing(c: Config, r: Record, att: Record)
    requires c.quorum == 1 && c.maxAttestations == 1 && c.windowMs == 0 && c.role(att.observer, att.pubKey)
    requires att.IsAttestation() && att.observedAt == 0 && att.nodeID == r.nodeID && !r.tombstone && r.hlc < att.hlc
    requires att.hlc + 1 < TWO_64
    ensures var ts, more := TopicState(map[SlotOf(r) := r], map[], map[]), c.(quorum := 2);
      && Crosses(c, ts, att, 0) && r.hlc < Inc64(HighestHlc(Joined(c, ts, att)))
      && AttestStep(c, ts, att, 0).0.attestations == AttestStep(more, ts, att, 0).0.attestations
      && AttestStep(more, ts, att, 0).0.records == ts.records
  {
    var ts := TopicState(map[SlotOf(r) := r], map[], map[]);
    Quorum.LoneWitness(c, ts, att);
    Quorum.LoneWitness(c.(quorum := 2), ts, att);
    assert SlotOf(r) in ts.records;
    assert Fresh(c, ts, att, 0);
  }

  ghost predicate RootsDiffer(h: Bytes -> Bytes, a: seq<Record>, b: seq<Record>) {
    NoCollision(h, Hashed(h, a) + Hashed(h, b)) ==> Root(h, a) != Root(h, b)
  }

  lemma {:induction false} LoneCrossingMoves(h: Bytes -> Bytes, c: Config, ts: TopicState, att: Record, k: Slot)
    requires Wide(h) && WellFiled(ts) && SigDetermines(ts.records.Values) && Crosses(c, ts, att, 0)
    requires k in ts.records && k.node == att.nodeID && ts.records[k].IsSigned()
    requires ts.records[k].hlc < Inc64(HighestHlc(Joined(c, ts, att)))
    ensures RootsDiffer(h, RangeView(ts.records, None, None),
                        RangeView(AttestStep(c, ts, att, 0).0.records, None, None))
  {
    var hlc, after := Inc64(HighestHlc(Joined(c, ts, att))), AttestStep(c, ts, att, 0).0.records;
    assert Outranked(ts.records, att.nodeID, hlc, None, None) by {
      assert Taking(None, None)(ts.records[k]);
    }
    if NoCollision(h, Hashed(h, RangeView(ts.records, None, None)) + Hashed(h, RangeView(after, None, None))) {
      CrossingKeepsRootIff(h, c, ts, att, 0, None, None);
    }
  }

  /** So two stores that hold the same records and the same witnesses, and differ only in the
      quorum they ask for, can compute different roots. */
  lemma {:induction false} QuorumCanMoveRoot(h: Bytes -> Bytes)
    returns (c: Config, ts: TopicState, att: Record, crossed: TopicState, waiting: TopicState)
    requires Wide(h)
    ensures WellFiled(ts) && crossed == AttestStep(c, ts, att, 0).0 &&
            waiting == AttestStep(c.(quorum := 2), ts, att, 0).0
    ensures crossed.attestations == waiting.attestations && waiting.records == ts.records
    ensures RootsDiffer(h, RangeView(waiting.records, None, None), RangeView(crossed.records, None, None))
  {
    var r := Record([], [], 1, [], false, [], [1], [], [], 0);
    ts := TopicState(map[SlotOf(r) := r], map[], map[]);
    att := Record([], [], 2, [], true, [], [1], [], [2], 0);
    c := Config(1, 1, 1, 1, 1, 0, (o, k) => true);
    LoneCrossing(c, r, att);
    LoneCrossingMoves(h, c, ts, att, SlotOf(r));
    crossed, waiting := AttestStep(c, ts, att, 0).0, AttestStep(c.(quorum := 2), ts, att, 0).0;
  }

  lemma {:induction false} ViewWithin(a: map<Slot, Record>, keep: Record -> bool)
    requires RecordsFiled(a)
    ensures forall r | r in Listing(a, keep) :: r in a.Values && keep(r) && SlotOf(r) in a && a[SlotOf(r)] == r
  {
    forall r | r in Listing(a, keep)
      ensures r in a.Values && keep(r) && SlotOf(r) in a && a[SlotOf(r)] == r
    {
      var i :| 0 <= i < |Listing(a, keep)| && Listing(a, keep)[i] == r;
      ListingAt(a, keep, i);
    }
  }

  // ---------- the loops ----------

  /** The range filter, record by record. */
  function Filtered(rs: seq<Record>, start: Option<Bytes>, end: Option<Bytes>): seq<Record> {
    if rs == [] then []
    else
      Filtered(rs[..|rs| - 1], start, end) + if InRange(rs[|rs| - 1], start, end) then [rs[|rs| - 1]] else []
  }

  method CollectRange(store: RecordStores.RecordStore, topic: Topic, start: Option<Bytes>, end: Option<Bytes>)
    returns (out: seq<Record>)
    requires RecordsFiled(TopicOf(store.byTopic, topic).records)
    ensures out == RangeView(TopicOf(store.byTopic, topic).records, start, end)
  {
    var all := store.TopicRecordsWhere(topic, Signed());
    out := [];
    for i := 0 to |all|
      invariant out == Filtered(all[..i], start, end)
    {
      PrefixOf(all, i);
      var below, above := false, false;
      if start.Some? {
        below := BytesLess(all[i].nodeID, start.value);
      }
      if end.Some? {
        above := BytesLess(end.value, all[i].nodeID);
      }
      if !below && !above {
        out := out + [all[i]];
      }
    }
    assert all[..|all|] == all;
    FilteredIsView(TopicOf(store.byTopic, topic).records, start, end);
  }

  function Signed(): Record -> bool {
    (r: Record) => r.IsSigned()
  }

  /** The slots of `ks` whose records are in range. */
  ghost function SlotsIn(records: map<Slot, Record>, ks: seq<Slot>, start: Option<Bytes>, end: Option<Bytes>)
    : (out: seq<Slot>)
    requires forall k | k in ks :: k in records
    ensures forall k :: k in out <==> k in ks && InRange(records[k], start, end)
  {
    if ks == [] then []
    else
      var last := ks[|ks| - 1];
      SlotsIn(records, ks[..|ks| - 1], start, end) + if InRange(records[last], start, end) then [last] else []
  }

  lemma {:induction false} SlotsInSorted(records: map<Slot, Record>, ks: seq<Slot>,
                                         start: Option<Bytes>, end: Option<Bytes>)
    requires StrictlySorted(ks) && forall k | k in ks :: k in records
    ensures StrictlySorted(SlotsIn(records, ks, start, end))
  {
    if ks != [] {
      var n := |ks| - 1;
      SlotsInSorted(records, ks[..n], start, end);
      var q := SlotsIn(records, ks[..n], start, end);
      forall j | 0 <= j < |q|
        ensures SlotLess(q[j], ks[n])
      {
        assert q[j] in ks[..n];
      }
    }
  }

  lemma {:induction false} SlotsInFilters(records: map<Slot, Record>, ks: seq<Slot>,
                                          start: Option<Bytes>, end: Option<Bytes>)
    requires forall k | k in ks :: k in records
    ensures Filtered(RecordsAt(records, ks), start, end) == RecordsAt(records, SlotsIn(records, ks, start, end))
  {
    if ks != [] {
      var n := |ks| - 1;
      SlotsInFilters(records, ks[..n], start, end);
      assert RecordsAt(records, ks)[..n] == RecordsAt(records, ks[..n]);
      RecordsSnoc(records, SlotsIn(records, ks[..n], start, end), ks[n]);
    }
  }

  lemma {:induction false} RecordsSnoc(records: map<Slot, Record>, ks: seq<Slot>, k: Slot)
    requires k in records && forall j | j in ks :: j in records
    ensures RecordsAt(records, ks + [k]) == RecordsAt(records, ks) + [records[k]]
  {
  }

  /** Filtering the canonical listing of the signed records gives the canonical listing of the
      signed records in range. */
  lemma {:induction false} FilteredIsView(records: map<Slot, Record>, start: Option<Bytes>, end: Option<Bytes>)
    ensures Filtered(Listing(records, Signed()), start, end) == RangeView(records, start, end)
  {
    var ks := Canonical(Kept(records, Signed()));
    CanonicalSorted(Kept(records, Signed()));
    CanonicalSorted(Kept(records, Taking(start, end)));
    SlotsInSorted(records, ks, start, end);
    SlotsInFilters(records, ks, start, end);
    var q := SlotsIn(records, ks, start, end);
    assert Members(q) == Kept(records, Taking(start, end));
    SortedUnique(q, Canonical(Kept(records, Taking(start, end))));
  }

  /** topicMerkleRoot: the hasher is fed item by item. */
  method TopicMerkleRoot(store: RecordStores.RecordStore, h: Bytes -> Bytes, topic: Topic,
                         start: Option<Bytes>, end: Option<Bytes>) returns (root: Bytes)
    requires RecordsFiled(TopicOf(store.byTopic, topic).records)
    ensures root == Root(h, RangeView(TopicOf(store.byTopic, topic).records, start, end))
  {
    var recs := CollectRange(store, topic, start, end);
    var fed: Bytes := [];
    for i := 0 to |recs|
      invariant fed == Flat(h, recs[..i])
    {
      PrefixOf(recs, i);
      var item := h(recs[i].nodeID);
      item := item + BigEndian(recs[i].hlc, 8);
      item := item + h(recs[i].sig);
      fed := fed + item;
    }
    assert recs[..|recs|] == recs;
    root := h(fed);
  }
}
