/** Retention across a network: several stores hand each other records and sweep at their own
    times. Once no store carries a live record that a tombstone beat, none ever does again, whether
    or not the tombstone is still held; as long as one does, an exchange brings the record back. */
module Resurrection {
  import opened Bytes
  import opened Records
  import opened Store
  import Clock
  import Retention

  datatype NetEvent =
    | Exchange(from: nat, to: nat, slot: Slot, now: int)
    | Arrive(at: nat, r: Record, now: int)
    | Sweep(at: nat, now: int)

  type Net = seq<TopicState>

  ghost function NetStep(c: Config, ttlMs: int, net: Net, e: NetEvent): (after: Net)
    ensures |after| == |net|
  {
    match e
    case Exchange(from, to, slot, now) =>
      if from < |net| && to < |net| && slot in net[from].records && net[from].records[slot].IsSigned() then
        net[to := TopicStep(c, net[to], net[from].records[slot], now).0]
      else net
    case Arrive(at, r, now) => if at < |net| then net[at := TopicStep(c, net[at], r, now).0] else net
    case Sweep(at, now) => if at < |net| then net[at := ReapTopic(net[at], now, ttlMs)] else net
  }

  ghost predicate IsNetRun(c: Config, ttlMs: int, ns: seq<Net>, es: seq<NetEvent>) {
    && |ns| == |es| + 1
    && forall m {:trigger es[m]} | 0 <= m < |es| :: ns[m + 1] == NetStep(c, ttlMs, ns[m], es[m])
  }

  ghost predicate NetFiled(net: Net) {
    forall i | 0 <= i < |net| :: WellFiled(net[i])
  }

  /** The store holds a live signed record in the slot that does not beat the tombstone. */
  predicate Carries(ts: TopicState, k: Slot, x: Record) {
    k in ts.records && !ts.records[k].tombstone && ts.records[k].IsSigned() && !Beats(ts.records[k], x)
  }

  ghost predicate NoneCarries(net: Net, k: Slot, x: Record) {
    forall i | 0 <= i < |net| :: !Carries(net[i], k, x)
  }

  /** What comes into the network anew beats the tombstone, if it is live and for its slot. */
  predicate Above(e: NetEvent, k: Slot, x: Record) {
    e.Arrive? && !e.r.IsAttestation() && SlotOf(e.r) == k && !e.r.tombstone ==> Beats(e.r, x)
  }

  ghost predicate AllAbove(es: seq<NetEvent>, k: Slot, x: Record) {
    forall m | 0 <= m < |es| :: Above(es[m], k, x)
  }

  // ---------- one step ----------

  lemma {:induction false} ArrivalCarries(c: Config, ts: TopicState, r: Record, now: int, k: Slot, x: Record)
    requires !Carries(ts, k, x)
    requires !r.IsAttestation() && SlotOf(r) == k && !r.tombstone && r.IsSigned() ==> Beats(r, x)
    ensures !Carries(TopicStep(c, ts, r, now).0, k, x)
  {
    if r.IsAttestation() && Crosses(c, ts, r, now) {
      BuriedSlots(ts.records, r.topic, r.nodeID, Inc64(HighestHlc(Joined(c, ts, r))));
    }
  }

  lemma {:induction false} NetStepFiled(c: Config, ttlMs: int, net: Net, e: NetEvent)
    requires NetFiled(net)
    ensures NetFiled(NetStep(c, ttlMs, net, e))
  {
    match e {
      case Exchange(from, to, slot, now) =>
        if from < |net| && to < |net| && slot in net[from].records {
          TopicStepWellFiled(c, net[to], net[from].records[slot], now);
        }
      case Arrive(at, r, now) =>
        if at < |net| {
          TopicStepWellFiled(c, net[at], r, now);
        }
      case Sweep(at, now) =>
    }
  }

  lemma {:induction false} NetStepClear(c: Config, ttlMs: int, net: Net, e: NetEvent, k: Slot, x: Record)
    requires NetFiled(net) && NoneCarries(net, k, x) && Above(e, k, x)
    ensures NoneCarries(NetStep(c, ttlMs, net, e), k, x)
  {
    match e {
      case Exchange(from, to, slot, now) =>
        if from < |net| && to < |net| && slot in net[from].records && net[from].records[slot].IsSigned() {
          ArrivalCarries(c, net[to], net[from].records[slot], now, k, x);
        }
      case Arrive(at, r, now) =>
        if at < |net| {
          ArrivalCarries(c, net[at], r, now, k, x);
        }
      case Sweep(at, now) =>
    }
  }

  // ---------- runs ----------

  /** No deleted record comes back: from a network in which no store carries one, through every run
      of exchanges, arrivals and sweeps. */
  lemma {:induction false} StaysDead(c: Config, ttlMs: int, ns: seq<Net>, es: seq<NetEvent>, k: Slot, x: Record, n: nat)
    requires IsNetRun(c, ttlMs, ns, es) && n < |ns| && AllAbove(es, k, x)
    requires NetFiled(ns[0]) && NoneCarries(ns[0], k, x)
    ensures NetFiled(ns[n]) && NoneCarries(ns[n], k, x)
  {
    if n > 0 {
      StaysDead(c, ttlMs, ns, es, k, x, n - 1);
      var before := es[n - 1];
      NetStepFiled(c, ttlMs, ns[n - 1], before);
      NetStepClear(c, ttlMs, ns[n - 1], before, k, x);
    }
  }

  /** Store `i` carries the record at no moment of any run from here. */
  ghost predicate NeverCarries(c: Config, ttlMs: int, net: Net, k: Slot, x: Record, i: nat) {
    forall ns, es | IsNetRun(c, ttlMs, ns, es) && ns[0] == net && AllAbove(es, k, x) ::
      forall n | 0 <= n < |ns| :: i < |ns[n]| ==> !Carries(ns[n][i], k, x)
  }

  /** A store that has let the tombstone go is safe from the record it retired, in every run,
      exactly if no store still carries one. */
  lemma {:induction false} ResurrectsIff(c: Config, ttlMs: int, net: Net, k: Slot, x: Record, i: nat)
    requires NetFiled(net) && i < |net| && k !in net[i].records && HasRoom(c, net[i].records, k.node)
    ensures NeverCarries(c, ttlMs, net, k, x, i) <==> NoneCarries(net, k, x)
  {
    if NoneCarries(net, k, x) {
      forall ns, es | IsNetRun(c, ttlMs, ns, es) && ns[0] == net && AllAbove(es, k, x)
        ensures forall n | 0 <= n < |ns| :: i < |ns[n]| ==> !Carries(ns[n][i], k, x)
      {
        forall n: nat | n < |ns|
          ensures i < |ns[n]| ==> !Carries(ns[n][i], k, x)
        {
          StaysDead(c, ttlMs, ns, es, k, x, n);
        }
      }
    } else {
      var j :| 0 <= j < |net| && Carries(net[j], k, x);
      Returns(c, ttlMs, net, k, x, i, j);
    }
  }

  lemma {:induction false} Returns(c: Config, ttlMs: int, net: Net, k: Slot, x: Record, i: nat, j: nat)
    requires NetFiled(net) && i < |net| && k !in net[i].records && HasRoom(c, net[i].records, k.node)
    requires j < |net| && Carries(net[j], k, x)
    ensures !NeverCarries(c, ttlMs, net, k, x, i)
  {
    var e := Exchange(j, i, k, 0);
    var ns, es := [net, NetStep(c, ttlMs, net, e)], [e];
    assert IsNetRun(c, ttlMs, ns, es) && AllAbove(es, k, x);
    assert Carries(ns[1][i], k, x);
  }

  // ---------- what establishes it ----------

  /** Past the TTL of the tombstone itself, a sweep leaves nothing that it beat. */
  lemma {:induction false} SweepClears(ts: TopicState, now: int, ttlMs: int, k: Slot, x: Record)
    requires now - Clock.WallOf(x.hlc) > ttlMs
    ensures !Carries(ReapTopic(ts, now, ttlMs), k, x)
  {
    if k in ts.records && !Beats(ts.records[k], x) {
      Retention.RankOrdersWalls(x, ts.records[k]);
    }
  }

  ghost predicate Sweeps(es: seq<NetEvent>, ttlMs: int, x: Record) {
    forall m | 0 <= m < |es| :: es[m].Sweep? && es[m].now - Clock.WallOf(x.hlc) > ttlMs
  }

  ghost predicate SweptBy(es: seq<NetEvent>, n: nat, i: nat)
    requires n <= |es|
  {
    exists m | 0 <= m < n :: es[m].Sweep? && es[m].at == i
  }

  /** If every store sweeps, late enough and with no exchange in between, nothing is left that the
      tombstone beat; so by `StaysDead` nothing ever will be. */
  lemma {:induction false} QuietRoundClears(c: Config, ttlMs: int, ns: seq<Net>, es: seq<NetEvent>, k: Slot, x: Record,
                                            n: nat)
    requires IsNetRun(c, ttlMs, ns, es) && n <= |es| && Sweeps(es, ttlMs, x)
    ensures |ns[n]| == |ns[0]| && forall i | 0 <= i < |ns[n]| && SweptBy(es, n, i) :: !Carries(ns[n][i], k, x)
  {
    if n > 0 {
      QuietRoundClears(c, ttlMs, ns, es, k, x, n - 1);
      var e := es[n - 1];
      if e.at < |ns[0]| {
        SweepClears(ns[n - 1][e.at], e.now, ttlMs, k, x);
      }
      forall i | 0 <= i < |ns[n]| && SweptBy(es, n, i)
        ensures !Carries(ns[n][i], k, x)
      {
        if i != e.at {
          assert SweptBy(es, n - 1, i);
        }
      }
    }
  }

  // ---------- handing a record back and forth ----------

  /** A store that has just been handed the record. */
  ghost function Handed(c: Config, r: Record, now: int): TopicState {
    TopicStep(c, EMPTY_TOPIC, r, now).0
  }

  /** The store holds the record and nothing that outlives it. */
  ghost predicate HoldsOnly(ts: TopicState, k: Slot, r: Record) {
    ts.records == map[k := r] && ts.attestations == map[]
  }

  lemma {:induction false} HandedHolds(c: Config, k: Slot, r: Record, now: int)
    requires c.Valid() && !r.IsAttestation() && SlotOf(r) == k
    ensures HoldsOnly(Handed(c, r, now), k, r)
  {
    assert HeldBy(EMPTY_TOPIC.records, r.nodeID) == {};
  }

  lemma {:induction false} SweptEmpty(ts: TopicState, k: Slot, r: Record, now: int, ttlMs: int)
    requires HoldsOnly(ts, k, r) && Expired(r, now, ttlMs)
    ensures ReapTopic(ts, now, ttlMs) == EMPTY_TOPIC
  {
    var records := ReapTopic(ts, now, ttlMs).records;
    assert records == map[];
    assert forall n :: HeldBy(records, n) == {};
  }

  /** The one store sweeps and is handed the record by the other. */
  lemma {:induction false} FirstHalf(c: Config, ttlMs: int, a: TopicState, b: TopicState, k: Slot, x: Record,
                                     r: Record, now: int)
    requires HoldsOnly(a, k, x) && HoldsOnly(b, k, r) && r.IsSigned() && Expired(x, now, ttlMs)
    ensures NetStep(c, ttlMs, [a, b], Sweep(0, now)) == [EMPTY_TOPIC, b]
    ensures NetStep(c, ttlMs, [EMPTY_TOPIC, b], Exchange(1, 0, k, now)) == [Handed(c, r, now), b]
  {
    SweptEmpty(a, k, x, now, ttlMs);
  }

  lemma {:induction false} SecondHalf(c: Config, ttlMs: int, a: TopicState, b: TopicState, k: Slot, r: Record, now: int)
    requires HoldsOnly(a, k, r) && HoldsOnly(b, k, r) && r.IsSigned() && Expired(r, now, ttlMs)
    ensures NetStep(c, ttlMs, [a, b], Sweep(1, now)) == [a, EMPTY_TOPIC]
    ensures NetStep(c, ttlMs, [a, EMPTY_TOPIC], Exchange(0, 1, k, now)) == [a, Handed(c, r, now)]
  {
    SweptEmpty(b, k, r, now, ttlMs);
  }

  lemma {:induction false} NetRunSnoc(c: Config, ttlMs: int, ns: seq<Net>, es: seq<NetEvent>, e: NetEvent, net: Net)
    requires IsNetRun(c, ttlMs, ns, es) && net == NetStep(c, ttlMs, ns[|es|], e)
    ensures IsNetRun(c, ttlMs, ns + [net], es + [e]) && (ns + [net])[|es| + 1] == net
  {
    forall m | 0 <= m < |es + [e]|
      ensures (ns + [net])[m + 1] == NetStep(c, ttlMs, (ns + [net])[m], (es + [e])[m])
    {
      if m < |es| {
        assert (es + [e])[m] == es[m];
      }
    }
  }

  function Round(k: Slot, now: int): seq<NetEvent> {
    [Sweep(0, now)] + [Exchange(1, 0, k, now)] + [Sweep(1, now)] + [Exchange(0, 1, k, now)]
  }

  /** One more round: the one store sweeps and is handed the record by the other, which then sweeps
      and is handed it back. */
  lemma {:induction false} AnotherRound(c: Config, ttlMs: int, ns: seq<Net>, es: seq<NetEvent>, a: TopicState,
                                        b: TopicState, k: Slot, x: Record, r: Record, now: int)
    returns (ns': seq<Net>)
    requires IsNetRun(c, ttlMs, ns, es) && ns[|es|] == [a, b] && HoldsOnly(a, k, x) && HoldsOnly(b, k, r)
    requires c.Valid() && !r.IsAttestation() && SlotOf(r) == k && r.IsSigned()
    requires Expired(x, now, ttlMs) && Expired(r, now, ttlMs)
    ensures IsNetRun(c, ttlMs, ns', es + Round(k, now)) && ns <= ns' && ns'[|es| + 1] == [EMPTY_TOPIC, b]
    ensures ns'[|es| + 4] == [Handed(c, r, now), Handed(c, r, now)]
  {
    var h := Handed(c, r, now);
    HandedHolds(c, k, r, now);
    FirstHalf(c, ttlMs, a, b, k, x, r, now);
    SecondHalf(c, ttlMs, h, b, k, r, now);
    NetRunSnoc(c, ttlMs, ns, es, Sweep(0, now), [EMPTY_TOPIC, b]);
    var ns1, es1 := ns + [[EMPTY_TOPIC, b]], es + [Sweep(0, now)];
    NetRunSnoc(c, ttlMs, ns1, es1, Exchange(1, 0, k, now), [h, b]);
    var ns2, es2 := ns1 + [[h, b]], es1 + [Exchange(1, 0, k, now)];
    NetRunSnoc(c, ttlMs, ns2, es2, Sweep(1, now), [h, EMPTY_TOPIC]);
    var ns3, es3 := ns2 + [[h, EMPTY_TOPIC]], es2 + [Sweep(1, now)];
    NetRunSnoc(c, ttlMs, ns3, es3, Exchange(0, 1, k, now), [h, h]);
    ns' := ns3 + [[h, h]];
    assert es3 + [Exchange(0, 1, k, now)] == es + Round(k, now);
  }

  /** Rounds a millisecond apart. */
  function Rounds(k: Slot, t: int, n: nat): seq<NetEvent> {
    if n == 0 then [] else Rounds(k, t, n - 1) + Round(k, t + n - 1)
  }

  lemma {:induction false} RoundsSweep(k: Slot, t: int, n: nat, x: Record)
    ensures |Rounds(k, t, n)| == 4 * n && AllAbove(Rounds(k, t, n), k, x)
    ensures forall j: nat | j < n ::
      Rounds(k, t, n)[4 * j] == Sweep(0, t + j) && Rounds(k, t, n)[4 * j + 2] == Sweep(1, t + j)
  {
    if n > 0 {
      RoundsSweep(k, t, n - 1, x);
    }
  }

  /** No number of sweeps is enough when records are handed over in between: two stores can pass the
      retired record back and forth, each taking it from the other after its own sweep, and both are
      left with it however often they have swept since the tombstone was dropped. */
  lemma {:induction false} DeletedCanReturn(c: Config, ttlMs: int, n: nat)
    returns (ns: seq<Net>, es: seq<NetEvent>, k: Slot, x: Record, t: int)
    requires 0 < ttlMs && c.Valid() && 0 < n
    ensures IsNetRun(c, ttlMs, ns, es) && AllAbove(es, k, x) && |es| == 4 * n && NetFiled(ns[0]) && |ns[0]| == 2
    ensures x.tombstone && k in ns[0][0].records && ns[0][0].records[k] == x && |ns[1]| == 2 && k !in ns[1][0].records
    ensures t - Clock.WallOf(x.hlc) > 2 * ttlMs
    ensures forall j: nat | j < n :: es[4 * j] == Sweep(0, t + j) && es[4 * j + 2] == Sweep(1, t + j)
    ensures |ns[4 * n]| == 2 && Carries(ns[4 * n][0], k, x) && Carries(ns[4 * n][1], k, x)
  {
    k := Slot([], []);
    x := Record([], [], 1, [], true, [], [1], [], [], 0);
    var r := x.(hlc := 0, tombstone := false);
    t, es := 2 * ttlMs + 1, Rounds(k, 2 * ttlMs + 1, n);
    var a, b := TopicState(map[k := x], map[], map[]), TopicState(map[k := r], map[], map[]);
    ns := Passing(c, ttlMs, a, b, k, x, r, t, n);
    RoundsSweep(k, t, n, x);
    HandedHolds(c, k, r, t + n - 1);
  }

  /** The run starts from `a` and `b`, drops what `a` held, and ends with `h` twice. */
  ghost predicate Passes(c: Config, ttlMs: int, ns: seq<Net>, es: seq<NetEvent>, a: TopicState, b: TopicState,
                         h: TopicState) {
    IsNetRun(c, ttlMs, ns, es) && 0 < |es| && ns[0] == [a, b] && ns[1] == [EMPTY_TOPIC, b] && ns[|es|] == [h, h]
  }

  lemma {:induction false} PassAgain(c: Config, ttlMs: int, ns: seq<Net>, es: seq<NetEvent>, a: TopicState,
                                     b: TopicState, h: TopicState, k: Slot, r: Record, now: int)
    returns (ns': seq<Net>)
    requires Passes(c, ttlMs, ns, es, a, b, h) && HoldsOnly(h, k, r)
    requires c.Valid() && !r.IsAttestation() && SlotOf(r) == k && r.IsSigned() && Expired(r, now, ttlMs)
    ensures Passes(c, ttlMs, ns', es + Round(k, now), a, b, Handed(c, r, now))
  {
    ns' := AnotherRound(c, ttlMs, ns, es, h, h, k, r, r, now);
    assert ns'[0] == ns[0] && ns'[1] == ns[1];
  }

  lemma {:induction false} PassFirst(c: Config, ttlMs: int, a: TopicState, b: TopicState, k: Slot, x: Record,
                                     r: Record, now: int)
    returns (ns: seq<Net>)
    requires HoldsOnly(a, k, x) && HoldsOnly(b, k, r)
    requires c.Valid() && !r.IsAttestation() && SlotOf(r) == k && r.IsSigned()
    requires Expired(x, now, ttlMs) && Expired(r, now, ttlMs)
    ensures Passes(c, ttlMs, ns, [] + Round(k, now), a, b, Handed(c, r, now))
  {
    ns := AnotherRound(c, ttlMs, [[a, b]], [], a, b, k, x, r, now);
  }

  lemma {:induction false} ExpiredLater(r: Record, t: int, now: int, ttlMs: int)
    requires Expired(r, t, ttlMs) && t <= now
    ensures Expired(r, now, ttlMs)
  {
  }

  lemma {:induction false} Passing(c: Config, ttlMs: int, a: TopicState, b: TopicState, k: Slot, x: Record, r: Record,
                                   t: int, n: nat)
    returns (ns: seq<Net>)
    requires c.Valid() && !r.IsAttestation() && SlotOf(r) == k && r.IsSigned() && HoldsOnly(a, k, x) &&
             HoldsOnly(b, k, r)
    requires 0 < n && Expired(x, t, ttlMs) && Expired(r, t, ttlMs)
    ensures Passes(c, ttlMs, ns, Rounds(k, t, n), a, b, Handed(c, r, t + n - 1))
  {
    var now, done := t + n - 1, Rounds(k, t, n - 1);
    assert Rounds(k, t, n) == done + Round(k, now);
    if n == 1 {
      ns := PassFirst(c, ttlMs, a, b, k, x, r, now);
      assert done == [];
    } else {
      ExpiredLater(r, t, now, ttlMs);
      var before := Passing(c, ttlMs, a, b, k, x, r, t, n - 1);
      HandedHolds(c, k, r, now - 1);
      ns := PassAgain(c, ttlMs, before, done, a, b, Handed(c, r, now - 1), k, r, now);
    }
  }
}
