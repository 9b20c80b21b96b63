/** A probe run to completion against a responder that does not change: what the prober ends up
    with, and after how many requests. */
module Pulling {
  import opened Bytes
  import opened Records
  import opened Finite
  import opened Store
  import opened Convergence
  import opened MerkleRoot
  import opened Encoding
  import opened AntiEntropy

  ghost function Ask(x: Side, p: TopicState, r: TopicState, start: Option<Bytes>, atts: seq<Record>): Reply {
    Respond(x.h, RangeView(r.records, start, None), start.None?, atts, Root(x.h, RangeView(p.records, start, None)))
  }

  ghost function RoundHashes(x: Side, p: TopicState, r: TopicState, start: Option<Bytes>): set<Bytes> {
    Hashed(x.h, RangeView(p.records, start, None)) + Hashed(x.h, RangeView(r.records, start, None))
  }

  ghost function RecordSet(rs: seq<Record>): set<Record> {
    set r | r in rs
  }

  ghost function Remaining(r: TopicState, start: Option<Bytes>): nat {
    |RangeView(r.records, start, None)|
  }

  /** A truncated answer is the part of the view before its split, and at most half of a view of
      more than 64 records, rounded up, is left to ask for. */
  lemma {:induction false} TruncatedAnswer(x: Side, p: TopicState, r: TopicState, start: Option<Bytes>,
                                           atts: seq<Record>)
    requires RecordsFiled(r.records)
    requires Ask(x, p, r, start, atts).Range? && Ask(x, p, r, start, atts).truncated
    ensures var view, recs := RangeView(r.records, start, None), Ask(x, p, r, start, atts).recs;
      && |view| > MAX_RANGE && 1 <= Split(view) < |view| && recs == view[..Split(view)] && recs != []
      && Remaining(r, Cursor(recs)) <= (Remaining(r, start) + 1) / 2
      && Remaining(r, Cursor(recs)) < Remaining(r, start)
  {
    var view := RangeView(r.records, start, None);
    NextViewSize(r.records, start, Split(view));
  }

  /** The rounds of one pull: in each, the prober's topic, where it asks from, and the answer. */
  datatype Trace =
    | Done(p: TopicState, start: Option<Bytes>, reply: Reply)
    | Resumed(p: TopicState, start: Option<Bytes>, reply: Reply, rest: Trace)

  predicate Truncated(reply: Reply) {
    reply.Range? && reply.truncated
  }

  ghost function AfterReply(x: Side, p: TopicState, reply: Reply): TopicState {
    if reply.Silent? then p else Absorb(x, p, reply.recs)
  }

  /** Probe, absorb the answer, and resume behind the cursor while answers are truncated. */
  ghost predicate IsPull(x: Side, r: TopicState, atts: seq<Record>, t: Trace) {
    && t.reply == Ask(x, t.p, r, t.start, atts)
    && (Truncated(t.reply) <==> t.Resumed?)
    && (t.Resumed? ==>
          && t.reply.recs != []
          && t.rest.p == AfterReply(x, t.p, t.reply)
          && t.rest.start == Cursor(t.reply.recs)
          && IsPull(x, r, atts, t.rest))
  }

  ghost function EndOf(x: Side, t: Trace): TopicState {
    match t
    case Done(p, start, reply) => AfterReply(x, p, reply)
    case Resumed(_, _, _, rest) => EndOf(x, rest)
  }

  function Length(t: Trace): nat {
    match t
    case Done(_, _, _) => 1
    case Resumed(_, _, _, rest) => 1 + Length(rest)
  }

  /** Every string hashed by either side. */
  ghost function Hashes(x: Side, r: TopicState, t: Trace): set<Bytes> {
    RoundHashes(x, t.p, r, t.start) + if t.Resumed? then Hashes(x, r, t.rest) else {}
  }

  // ---------- how many requests ----------

  /** The number of halvings, plus one, that bring `n` records down to one answer. */
  function Requests(n: nat): nat {
    if n <= MAX_RANGE then 1 else 1 + Requests((n + 1) / 2)
  }

  /** 64 * 2^k. */
  function Capacity(k: nat): nat {
    if k == 0 then MAX_RANGE else 2 * Capacity(k - 1)
  }

  lemma {:induction false} RequestsMonotone(m: nat, n: nat)
    requires m <= n
    ensures Requests(m) <= Requests(n)
  {
    if n > MAX_RANGE && m > MAX_RANGE {
      RequestsMonotone((m + 1) / 2, (n + 1) / 2);
    }
  }

  lemma {:induction false} RequestsLogarithmic(n: nat, k: nat)
    requires n <= Capacity(k)
    ensures Requests(n) <= k + 1
  {
    if n > MAX_RANGE {
      RequestsLogarithmic((n + 1) / 2, k - 1);
    }
  }

  /** Every pull comes to an end. */
  lemma {:induction false} PullEnds(x: Side, p: TopicState, r: TopicState, start: Option<Bytes>, atts: seq<Record>)
    returns (t: Trace)
    requires RecordsFiled(r.records)
    ensures t.p == p && t.start == start && IsPull(x, r, atts, t)
    decreases Remaining(r, start)
  {
    var reply := Ask(x, p, r, start, atts);
    if Truncated(reply) {
      TruncatedAnswer(x, p, r, start, atts);
      var rest := PullEnds(x, AfterReply(x, p, reply), r, Cursor(reply.recs), atts);
      t := Resumed(p, start, reply, rest);
    } else {
      t := Done(p, start, reply);
    }
  }

  lemma {:induction false} PullHalves(x: Side, r: TopicState, atts: seq<Record>, t: Trace)
    requires RecordsFiled(r.records) && IsPull(x, r, atts, t)
    ensures Length(t) <= Requests(Remaining(r, t.start))
  {
    if t.Resumed? {
      RemainingHalves(x, r, atts, t);
      PullHalves(x, r, atts, t.rest);
      OneMoreRequest(Remaining(r, t.start), Remaining(r, t.rest.start));
    }
  }

  lemma {:induction false} RemainingHalves(x: Side, r: TopicState, atts: seq<Record>, t: Trace)
    requires RecordsFiled(r.records) && IsPull(x, r, atts, t) && t.Resumed?
    ensures Remaining(r, t.start) > MAX_RANGE && Remaining(r, t.rest.start) <= (Remaining(r, t.start) + 1) / 2
  {
    TruncatedAnswer(x, t.p, r, t.start, atts);
  }

  lemma {:induction false} OneMoreRequest(n: nat, m: nat)
    requires n > MAX_RANGE && m <= (n + 1) / 2
    ensures 1 + Requests(m) <= Requests(n)
  {
    RequestsMonotone(m, (n + 1) / 2);
  }

  /** A responder with at most 64 * 2^k records in range is drained in at most k + 1 requests. */
  lemma {:induction false} PullRequests(x: Side, r: TopicState, atts: seq<Record>, t: Trace, k: nat)
    requires RecordsFiled(r.records) && IsPull(x, r, atts, t) && Remaining(r, t.start) <= Capacity(k)
    ensures Length(t) <= k + 1
  {
    PullHalves(x, r, atts, t);
    RequestsLogarithmic(Remaining(r, t.start), k);
  }

  // ---------- what the prober ends up with ----------

  /** The responder's signed records in the range. */
  ghost function Offered(r: TopicState, start: Option<Bytes>): map<Slot, Record> {
    KeptMap(r.records, Taking(start, None))
  }

  /** Everything the lossless exchange relies on: the prober's gate admits what the responder
      offers, the caps have room for it, and signatures identify records. */
  ghost predicate Lossless(x: Side, p: TopicState, r: TopicState, all: set<Slot>, u: set<Record>) {
    && RecordsFiled(p.records) && RecordsFiled(r.records)
    && (forall k | k in r.records && r.records[k].IsSigned() :: x.admit(r.records[k]))
    && Fits(x.c, all) && p.records.Keys <= all && r.records.Keys <= all
    && Wide(x.h) && SigDetermines(u) && p.records.Values <= u && r.records.Values <= u
  }

  lemma {:induction false} AdmittedAll(admit: Record -> bool, now: int, recs: seq<Record>)
    requires forall r | r in recs :: admit(r) && !r.IsAttestation()
    ensures RecordsOf(Admitted(admit, now, recs)) == RecordSet(recs) && OwnerOnly(Admitted(admit, now, recs))
  {
    var e := Admitted(admit, now, recs);
    if recs != [] {
      AdmittedAll(admit, now, recs[1..]);
      assert recs == [recs[0]] + recs[1..];
      assert e == [Arrival(recs[0], now)] + Admitted(admit, now, recs[1..]);
      assert RecordsOf(e) == {recs[0]} + RecordsOf(Admitted(admit, now, recs[1..]));
      assert RecordSet(recs) == {recs[0]} + RecordSet(recs[1..]);
    }
  }

  lemma {:induction false} AdmittedAppend(admit: Record -> bool, now: int, a: seq<Record>, b: seq<Record>)
    ensures Admitted(admit, now, a + b) == Admitted(admit, now, a) + Admitted(admit, now, b)
  {
    if a == [] {
      assert a + b == b;
    } else {
      HeadFirst(a, b);
      AdmittedAppend(admit, now, a[1..], b);
      SeqGroups(if admit(a[0]) then [Arrival(a[0], now)] else [], Admitted(admit, now, a[1..]),
                Admitted(admit, now, b));
    }
  }

  /** Absorbing offered records merges them. */
  lemma {:induction false} AbsorbMaximal(x: Side, p: TopicState, recs: seq<Record>, all: set<Slot>)
    requires RecordsFiled(p.records) && Fits(x.c, all) && p.records.Keys <= all
    requires forall r | r in recs :: x.admit(r) && !r.IsAttestation() && SlotOf(r) in all
    ensures Maximal(p.records.Values + RecordSet(recs), Absorb(x, p, recs).records)
  {
    AdmittedAll(x.admit, x.now, recs);
    var e := Admitted(x.admit, x.now, recs);
    forall a | a in e
      ensures SlotOf(a.r) in all
    {
      assert a.r in RecordsOf(e);
    }
    FoldPuts(x.c, p, e, all);
    SelfMaximal(p.records);
    PutAllMaximal(p.records.Values, p.records, e);
  }

  lemma {:induction false} AbsorbAppend(x: Side, p: TopicState, a: seq<Record>, b: seq<Record>)
    ensures Absorb(x, p, a + b) == Absorb(x, Absorb(x, p, a), b)
    ensures Advances(Absorb(x, p, a).records, Absorb(x, p, a + b).records)
  {
    AdmittedAppend(x.admit, x.now, a, b);
    FoldAppend(x.c, p, Admitted(x.admit, x.now, a), Admitted(x.admit, x.now, b));
    FoldAdvances(x.c, Absorb(x, p, a), Admitted(x.admit, x.now, b));
  }

  lemma {:induction false} OfferedIsView(r: TopicState, start: Option<Bytes>)
    requires RecordsFiled(r.records)
    ensures RecordSet(RangeView(r.records, start, None)) == Offered(r, start).Values
    ensures RecordsFiled(Offered(r, start))
  {
    var view, m := RangeView(r.records, start, None), Offered(r, start);
    ViewWithin(r.records, Taking(start, None));
    forall v | v in m.Values
      ensures v in view
    {
      var k :| k in m && m[k] == v;
      var i := ListingHas(r.records, Taking(start, None), k);
    }
    forall v | v in view
      ensures v in m.Values
    {
      assert SlotOf(v) in m;
    }
  }

  // ---------- what the rounds cover ----------

  /** The last NodeID of a truncated answer is extended by a zero byte to this one. */
  predicate SkippedBy(reply: Reply, node: NodeID) {
    reply.Range? && reply.recs != [] && Gap(reply.recs[|reply.recs| - 1].nodeID, node)
  }

  /** Some resumed round steps over the NodeID. */
  predicate Stranded(t: Trace, node: NodeID) {
    t.Resumed? && (SkippedBy(t.reply, node) || Stranded(t.rest, node))
  }

  /** The responder's records that some round sends or finally compares. */
  ghost function Covered(r: TopicState, t: Trace): set<Record> {
    match t
    case Done(_, start, _) => Offered(r, start).Values
    case Resumed(_, _, reply, rest) => (if reply.Range? then RecordSet(reply.recs) else {}) + Covered(r, rest)
  }

  lemma {:induction false} GapIsAbove(last: Bytes, node: Bytes)
    requires Gap(last, node)
    ensures LexLess(last, node)
  {
    LexCursorGap(last, node);
  }

  /** A NodeID below the range is not stepped over. */
  lemma {:induction false} BelowNotStranded(x: Side, r: TopicState, atts: seq<Record>, t: Trace, node: NodeID)
    requires RecordsFiled(r.records) && IsPull(x, r, atts, t) && t.start.Some? && LexLess(node, t.start.value)
    ensures !Stranded(t, node)
  {
    if t.Resumed? {
      TruncatedAnswer(x, t.p, r, t.start, atts);
      var last := t.reply.recs[|t.reply.recs| - 1];
      LastInRange(r, t.start, |t.reply.recs|);
      LexTotal(t.start.value, last.nodeID);
      if t.start.value != last.nodeID {
        LexTransitive(node, t.start.value, last.nodeID);
      }
      LexAsymmetric(node, last.nodeID);
      LexExtends(last.nodeID);
      LexTransitive(node, last.nodeID, last.nodeID + [1]);
      if Gap(last.nodeID, node) {
        GapIsAbove(last.nodeID, node);
      }
      BelowNotStranded(x, r, atts, t.rest, node);
    }
  }

  lemma {:induction false} LastInRange(r: TopicState, start: Option<Bytes>, n: nat)
    requires RecordsFiled(r.records) && 1 <= n <= |RangeView(r.records, start, None)|
    ensures InRange(RangeView(r.records, start, None)[n - 1], start, None)
  {
    ViewWithin(r.records, Taking(start, None));
    assert RangeView(r.records, start, None)[n - 1] in RangeView(r.records, start, None);
  }

  /** Nothing is covered that was not offered. */
  lemma {:induction false} CoveredWithin(x: Side, r: TopicState, atts: seq<Record>, t: Trace)
    requires RecordsFiled(r.records) && IsPull(x, r, atts, t)
    ensures Covered(r, t) <= Offered(r, t.start).Values
  {
    if t.Resumed? {
      CoveredWithin(x, r, atts, t.rest);
      TruncatedAnswer(x, t.p, r, t.start, atts);
      OfferedIsView(r, t.start);
      RestWithin(r, t.start, |t.reply.recs|);
    }
  }

  lemma {:induction false} RestWithin(r: TopicState, start: Option<Bytes>, half: nat)
    requires RecordsFiled(r.records) && 1 <= half <= |RangeView(r.records, start, None)|
    ensures Offered(r, Cursor(RangeView(r.records, start, None)[..half])).Values <= Offered(r, start).Values
  {
    var next := Cursor(RangeView(r.records, start, None)[..half]);
    forall v | v in Offered(r, next).Values
      ensures v in Offered(r, start).Values
    {
      var k :| k in Offered(r, next) && Offered(r, next)[k] == v;
      CursorNarrows(r.records, start, half, v);
      assert k in Offered(r, start);
    }
  }

  /** One round: a record of the range is sent, or asked for next, or stepped over. */
  lemma {:induction false} RoundSorts(r: TopicState, start: Option<Bytes>, half: nat, k: Slot)
    requires RecordsFiled(r.records) && k in Offered(r, start)
    requires var v := RangeView(r.records, start, None); 1 <= half < |v| && v[half].nodeID != v[half - 1].nodeID
    ensures var sent, rec := RangeView(r.records, start, None)[..half], r.records[k];
      && (rec in sent ==> !Gap(sent[half - 1].nodeID, k.node) && k !in Offered(r, Cursor(sent)))
      && (rec !in sent ==> (k in Offered(r, Cursor(sent)) <==> !Gap(sent[half - 1].nodeID, k.node)))
  {
    var view, rec := RangeView(r.records, start, None), r.records[k];
    var j := ListingHas(r.records, Taking(start, None), k);
    CursorResumes(r.records, start, half, j);
    SplitOrders(r.records, start, half, j);
    if j < half {
      assert view[..half][j] == rec;
      if Gap(view[half - 1].nodeID, k.node) {
        GapIsAbove(view[half - 1].nodeID, k.node);
      }
    } else {
      NotSent(r, start, half, j);
    }
  }

  lemma {:induction false} NotSent(r: TopicState, start: Option<Bytes>, half: nat, j: nat)
    requires RecordsFiled(r.records) && half <= j < |RangeView(r.records, start, None)|
    ensures RangeView(r.records, start, None)[j] !in RangeView(r.records, start, None)[..half]
  {
    var v := RangeView(r.records, start, None);
    forall i | 0 <= i < half
      ensures v[i] != v[j]
    {
      ViewSorted(r.records, start, i, j);
      SlotOrder(SlotOf(v[i]), SlotOf(v[j]), SlotOf(v[i]));
    }
  }

  /** An offered record is covered by the rounds of a pull exactly if no resumed round steps over its
      NodeID. */
  lemma {:induction false} CoveredIff(x: Side, r: TopicState, atts: seq<Record>, t: Trace, k: Slot)
    requires RecordsFiled(r.records) && IsPull(x, r, atts, t) && k in Offered(r, t.start)
    ensures r.records[k] in Covered(r, t) <==> !Stranded(t, k.node)
  {
    if t.Done? {
      assert r.records[k] in Offered(r, t.start).Values;
    } else {
      TruncatedAnswer(x, t.p, r, t.start, atts);
      RoundSorts(r, t.start, |t.reply.recs|, k);
      CoveredWithin(x, r, atts, t.rest);
      if k in Offered(r, t.rest.start) {
        CoveredIff(x, r, atts, t.rest, k);
      } else {
        NotOffered(r, t.rest.start, k);
        if r.records[k] in t.reply.recs {
          BelowNotStranded(x, r, atts, t.rest, k.node);
        }
      }
    }
  }

  lemma {:induction false} NotOffered(r: TopicState, start: Option<Bytes>, k: Slot)
    requires RecordsFiled(r.records) && k in r.records && k !in Offered(r, start)
    ensures r.records[k] !in Offered(r, start).Values
  {
  }

  lemma {:induction false} SilentViews(x: Side, p: TopicState, r: TopicState, start: Option<Bytes>, atts: seq<Record>,
                                       all: set<Slot>, u: set<Record>)
    requires Lossless(x, p, r, all, u) && NoCollision(x.h, RoundHashes(x, p, r, start))
    requires Ask(x, p, r, start, atts).Silent?
    ensures RangeView(p.records, start, None) == RangeView(r.records, start, None)
  {
    ViewWithin(p.records, Taking(start, None));
    ViewWithin(r.records, Taking(start, None));
    RootDetermines(x.h, u, RangeView(p.records, start, None), RangeView(r.records, start, None));
  }

  lemma {:induction false} SilentMeansSame(x: Side, p: TopicState, r: TopicState, start: Option<Bytes>,
                                           atts: seq<Record>, all: set<Slot>, u: set<Record>)
    requires Lossless(x, p, r, all, u) && NoCollision(x.h, RoundHashes(x, p, r, start))
    requires Ask(x, p, r, start, atts).Silent?
    ensures Maximal(p.records.Values + Offered(r, start).Values, p.records)
  {
    SilentViews(x, p, r, start, atts, all, u);
    OfferedIsView(r, start);
    OfferedIsView(p, start);
    assert Offered(p, start).Values <= p.records.Values;
    UnionWithin(p.records.Values, Offered(r, start).Values);
    SelfMaximal(p.records);
  }

  lemma {:induction false} OfferedAdmitted(x: Side, p: TopicState, r: TopicState, start: Option<Bytes>,
                                           all: set<Slot>, u: set<Record>)
    requires Lossless(x, p, r, all, u)
    ensures forall v | v in RangeView(r.records, start, None) ::
              x.admit(v) && !v.IsAttestation() && SlotOf(v) in all && v in u
  {
    ViewWithin(r.records, Taking(start, None));
  }

  lemma {:induction false} MaximalKeepsLossless(x: Side, p: TopicState, r: TopicState, all: set<Slot>, u: set<Record>,
                                                p': TopicState, sent: set<Record>)
    requires Lossless(x, p, r, all, u)
    requires forall v | v in sent :: !v.IsAttestation() && SlotOf(v) in all && v in u
    requires Maximal(p.records.Values + sent, p'.records)
    ensures Lossless(x, p', r, all, u)
  {
    forall k | k in p'.records
      ensures k in all && p'.records[k] in u && !p'.records[k].IsAttestation()
    {
    }
  }

  /** An answer that is not truncated is the whole view, with attestations behind it. */
  lemma {:induction false} WholeAnswer(h: Bytes -> Bytes, view: seq<Record>, full: bool, atts: seq<Record>, root: Bytes)
    returns (extra: seq<Record>)
    requires var reply := Respond(h, view, full, atts, root); reply.Range? && !reply.truncated
    ensures Respond(h, view, full, atts, root).recs == view + extra
    ensures atts == [] ==> extra == []
  {
    extra := if |view| > MAX_RANGE || !full then [] else if |atts| > MAX_RANGE then atts[..MAX_RANGE] else atts;
  }

  lemma {:induction false} AbsorbWhole(x: Side, p: TopicState, r: TopicState, start: Option<Bytes>, extra: seq<Record>,
                                       all: set<Slot>, u: set<Record>)
    requires Lossless(x, p, r, all, u)
    ensures var view := RangeView(r.records, start, None);
      && Maximal(p.records.Values + Offered(r, start).Values, Absorb(x, p, view).records)
      && Advances(Absorb(x, p, view).records, Absorb(x, p, view + extra).records)
  {
    var view := RangeView(r.records, start, None);
    OfferedAdmitted(x, p, r, start, all, u);
    OfferedIsView(r, start);
    AbsorbMaximal(x, p, view, all);
    AbsorbAppend(x, p, view, extra);
  }

  /** One answer, absorbed, merges the part of the range it covers. */
  lemma {:induction false} AnswerMerges(x: Side, p: TopicState, r: TopicState, start: Option<Bytes>, atts: seq<Record>,
                                        all: set<Slot>, u: set<Record>) returns (m: map<Slot, Record>)
    requires Lossless(x, p, r, all, u) && NoCollision(x.h, RoundHashes(x, p, r, start))
    requires !Truncated(Ask(x, p, r, start, atts))
    ensures Maximal(p.records.Values + Offered(r, start).Values, m)
    ensures Advances(m, AfterReply(x, p, Ask(x, p, r, start, atts)).records)
    ensures atts == [] ==> m == AfterReply(x, p, Ask(x, p, r, start, atts)).records
  {
    var reply, view := Ask(x, p, r, start, atts), RangeView(r.records, start, None);
    if reply.Silent? {
      SilentMeansSame(x, p, r, start, atts, all, u);
      m := p.records;
    } else {
      var extra := WholeAnswer(x.h, view, start.None?, atts, Root(x.h, RangeView(p.records, start, None)));
      assert reply.recs == view + extra;
      AbsorbWhole(x, p, r, start, extra, all, u);
      assert extra == [] ==> view + extra == view;
      m := Absorb(x, p, view).records;
    }
  }

  lemma {:induction false} AbsorbPrefix(x: Side, p: TopicState, r: TopicState, start: Option<Bytes>, half: nat,
                                        all: set<Slot>, u: set<Record>)
    requires Lossless(x, p, r, all, u) && half <= |RangeView(r.records, start, None)|
    ensures var sent := RangeView(r.records, start, None)[..half];
      && Maximal(p.records.Values + RecordSet(sent), Absorb(x, p, sent).records)
      && Lossless(x, Absorb(x, p, sent), r, all, u)
  {
    var sent := RangeView(r.records, start, None)[..half];
    OfferedAdmitted(x, p, r, start, all, u);
    AbsorbMaximal(x, p, sent, all);
    MaximalKeepsLossless(x, p, r, all, u, Absorb(x, p, sent), RecordSet(sent));
  }

  lemma {:induction false} TruncatedMerges(x: Side, p: TopicState, r: TopicState, start: Option<Bytes>,
                                           atts: seq<Record>, all: set<Slot>, u: set<Record>)
    requires Lossless(x, p, r, all, u)
    requires Truncated(Ask(x, p, r, start, atts))
    ensures var reply := Ask(x, p, r, start, atts);
      && reply.recs != []
      && Maximal(p.records.Values + RecordSet(reply.recs), AfterReply(x, p, reply).records)
      && Lossless(x, AfterReply(x, p, reply), r, all, u)
  {
    var half := Split(RangeView(r.records, start, None));
    TruncatedAnswer(x, p, r, start, atts);
    AbsorbPrefix(x, p, r, start, half, all, u);
  }

  lemma {:induction false} MergeRest(s: set<Record>, mid: map<Slot, Record>, more: set<Record>, m: map<Slot, Record>)
    requires Maximal(s, mid) && Maximal(mid.Values + more, m)
    ensures Maximal(s + more, m)
  {
    MergeCovers(s, mid, mid.Values + more, m);
    forall k | k in m
      ensures m[k] in s + more && Tops(s + more, m[k])
    {
      assert Tops(mid.Values + more, m[k]) && Tops(s, m[k]);
    }
  }

  /** A completed pull leaves the prober at the slot-wise maximum of what it had and the signed
      records that its rounds cover, or above it where attestations were appended. */
  lemma {:induction false} PullMerges(x: Side, r: TopicState, atts: seq<Record>, t: Trace,
                                      all: set<Slot>, u: set<Record>) returns (m: map<Slot, Record>)
    requires Lossless(x, t.p, r, all, u) && IsPull(x, r, atts, t) && NoCollision(x.h, Hashes(x, r, t))
    ensures Maximal(t.p.records.Values + Covered(r, t), m)
    ensures Advances(m, EndOf(x, t).records)
    ensures atts == [] ==> m == EndOf(x, t).records
  {
    if t.Done? {
      m := AnswerMerges(x, t.p, r, t.start, atts, all, u);
    } else {
      TruncatedMerges(x, t.p, r, t.start, atts, all, u);
      m := PullMerges(x, r, atts, t.rest, all, u);
      MergeRest(t.p.records.Values + RecordSet(t.reply.recs), t.rest.p.records, Covered(r, t.rest), m);
      UnionGroups(t.p.records.Values, RecordSet(t.reply.recs), Covered(r, t.rest));
    }
  }

  /** Nothing the responder offers is lost, except what a resumed round steps over: after the pull
      each other slot it offered is held at the offered rank or above. */
  lemma {:induction false} PullLosesNothing(x: Side, r: TopicState, atts: seq<Record>, t: Trace, all: set<Slot>,
                                            u: set<Record>, k: Slot)
    requires Lossless(x, t.p, r, all, u) && IsPull(x, r, atts, t) && NoCollision(x.h, Hashes(x, r, t))
    requires k in Offered(r, t.start) && !Stranded(t, k.node)
    ensures k in EndOf(x, t).records && !Beats(r.records[k], EndOf(x, t).records[k])
  {
    var m := PullMerges(x, r, atts, t, all, u);
    var rec := r.records[k];
    CoveredIff(x, r, atts, t, k);
    assert Tops(t.p.records.Values + Covered(r, t), m[k]);
    BeatsOrder(EndOf(x, t).records[k], m[k], rec);
    BeatsOrder(rec, m[k], EndOf(x, t).records[k]);
  }

  /** Exactly: a slot that is offered and that the prober lacks is there after the pull if and only if
      no resumed round steps over its NodeID. */
  lemma {:induction false} PullDeliversIff(x: Side, r: TopicState, t: Trace, all: set<Slot>, u: set<Record>, k: Slot)
    requires Lossless(x, t.p, r, all, u) && IsPull(x, r, [], t) && NoCollision(x.h, Hashes(x, r, t))
    requires k in Offered(r, t.start) && k !in t.p.records
    ensures k in EndOf(x, t).records <==> !Stranded(t, k.node)
  {
    var m := PullMerges(x, r, [], t, all, u);
    CoveredIff(x, r, [], t, k);
    CoveredWithin(x, r, [], t);
    if k in m {
      SlotOffered(r, t.start, m[k]);
    }
  }

  lemma {:induction false} SlotOffered(r: TopicState, start: Option<Bytes>, rec: Record)
    requires RecordsFiled(r.records)
    ensures rec in Offered(r, start).Values ==> SlotOf(rec) in r.records && r.records[SlotOf(rec)] == rec
  {
  }

  lemma {:induction false} NoneStranded(x: Side, r: TopicState, atts: seq<Record>, t: Trace, k: Slot)
    requires RecordsFiled(r.records) && IsPull(x, r, atts, t) && NoGap(r.records.Keys) && k in r.records
    ensures !Stranded(t, k.node)
  {
    if t.Resumed? {
      TruncatedAnswer(x, t.p, r, t.start, atts);
      ViewWithin(r.records, Taking(t.start, None));
      assert t.reply.recs[|t.reply.recs| - 1] in RangeView(r.records, t.start, None);
      NoneStranded(x, r, atts, t.rest, k);
    }
  }

  /** With NodeIDs of one length, or any others without the gap, the rounds cover all that is offered. */
  lemma {:induction false} NoGapCoversAll(x: Side, r: TopicState, atts: seq<Record>, t: Trace)
    requires RecordsFiled(r.records) && IsPull(x, r, atts, t) && NoGap(r.records.Keys)
    ensures Covered(r, t) == Offered(r, t.start).Values
  {
    CoveredWithin(x, r, atts, t);
    forall v | v in Offered(r, t.start).Values
      ensures v in Covered(r, t)
    {
      var k :| k in Offered(r, t.start) && Offered(r, t.start)[k] == v;
      NoneStranded(x, r, atts, t, k);
      CoveredIff(x, r, atts, t, k);
    }
  }

  ghost predicate AllSigned(records: map<Slot, Record>) {
    forall k | k in records :: records[k].IsSigned()
  }

  lemma {:induction false} OfferedAll(r: TopicState)
    requires AllSigned(r.records)
    ensures Offered(r, None) == r.records
  {
  }

  lemma {:induction false} PullAll(x: Side, r: TopicState, t: Trace, all: set<Slot>, u: set<Record>)
    requires Lossless(x, t.p, r, all, u) && IsPull(x, r, [], t) && NoCollision(x.h, Hashes(x, r, t))
    requires AllSigned(r.records) && t.start == None && NoGap(r.records.Keys)
    ensures Maximal(t.p.records.Values + r.records.Values, EndOf(x, t).records)
  {
    var m := PullMerges(x, r, [], t, all, u);
    NoGapCoversAll(x, r, [], t);
    OfferedAll(r);
  }

  lemma {:induction false} MaximalSides(u: set<Record>, m: map<Slot, Record>, a: map<Slot, Record>,
                                        b: map<Slot, Record>)
    requires RecordsFiled(a) && RecordsFiled(b) && AllSigned(a) && AllSigned(b) && u == a.Values + b.Values
    requires Maximal(u, m)
    ensures RecordsFiled(m) && AllSigned(m) && m.Keys <= a.Keys + b.Keys && m.Values <= u
  {
    forall k | k in m
      ensures SlotOf(m[k]) == k && !m[k].IsAttestation() && m[k].IsSigned() && k in a.Keys + b.Keys
    {
      assert m[k] in a.Values || m[k] in b.Values;
    }
  }

  lemma {:induction false} MergedBack(a: map<Slot, Record>, b: map<Slot, Record>, m: map<Slot, Record>,
                                      n: map<Slot, Record>)
    requires RecordsFiled(b) && RankDetermines(a.Values + b.Values)
    requires Maximal(a.Values + b.Values, m) && Maximal(b.Values + m.Values, n)
    ensures m == n
  {
    var u := a.Values + b.Values;
    SelfMaximal(b);
    MaximalMerge(b.Values, b, u, m, n);
    UnionAgain(a.Values, b.Values);
    MaximalUnique(u, m, n);
  }

  /** What the return pull relies on, once the first pull has merged everything into `a'`. */
  lemma {:induction false} LosslessBack(x: Side, y: Side, a: TopicState, b: TopicState, a': TopicState)
    requires AllSigned(a.records) && AllSigned(b.records) && Mutual(x, y, a, b)
    requires Maximal(a.records.Values + b.records.Values, a'.records)
    ensures AllSigned(a'.records) && NoGap(a'.records.Keys)
    ensures Lossless(y, b, a', a.records.Keys + b.records.Keys, a.records.Values + b.records.Values)
  {
    MaximalSides(a.records.Values + b.records.Values, a'.records, a.records, b.records);
    assert forall k | k in a'.records :: a'.records[k] in a'.records.Values;
  }

  /** Two sides that admit each other's records and have room for them. */
  ghost predicate Mutual(x: Side, y: Side, a: TopicState, b: TopicState) {
    var all, u := a.records.Keys + b.records.Keys, a.records.Values + b.records.Values;
    && RecordsFiled(a.records) && RecordsFiled(b.records) && NoGap(all)
    && Fits(x.c, all) && Fits(y.c, all) && Wide(x.h) && Wide(y.h)
    && (forall v | v in u :: x.admit(v) && y.admit(v))
    && SigDetermines(u) && RankDetermines(u)
  }

  lemma {:induction false} LosslessForth(x: Side, y: Side, a: TopicState, b: TopicState)
    requires Mutual(x, y, a, b)
    ensures Lossless(x, a, b, a.records.Keys + b.records.Keys, a.records.Values + b.records.Values)
  {
    assert forall k | k in b.records :: b.records[k] in b.records.Values;
  }

  /** A pull each way makes two stores of signed records equal, and from then on a probe draws no
      answer. */
  lemma {:induction false} PullBothWays(x: Side, y: Side, a: TopicState, b: TopicState, t: Trace, back: Trace)
    requires AllSigned(a.records) && AllSigned(b.records) && Mutual(x, y, a, b)
    requires t.p == a && t.start == None && IsPull(x, b, [], t) && NoCollision(x.h, Hashes(x, b, t))
    requires back.p == b && back.start == None && IsPull(y, EndOf(x, t), [], back)
    requires NoCollision(y.h, Hashes(y, EndOf(x, t), back))
    ensures EndOf(x, t).records == EndOf(y, back).records
    ensures Maximal(a.records.Values + b.records.Values, EndOf(x, t).records)
    ensures Ask(x, EndOf(x, t), EndOf(y, back), None, []).Silent?
  {
    var all, u := a.records.Keys + b.records.Keys, a.records.Values + b.records.Values;
    LosslessForth(x, y, a, b);
    PullAll(x, b, t, all, u);
    LosslessBack(x, y, a, b, EndOf(x, t));
    PullAll(y, EndOf(x, t), back, all, u);
    MergedBack(a.records, b.records, EndOf(x, t).records, EndOf(y, back).records);
  }
}
