/** TTL retention does not resurrect what a tombstone retired: tombstones are kept for twice the
    TTL, and HLC order forces wall-clock order. */
module Retention {
  import opened Records
  import opened Finite
  import opened Store
  import Clock

  lemma {:induction false} RankOrdersWalls(x: Record, r: Record)
    requires !Beats(r, x)
    ensures Clock.WallOf(r.hlc) <= Clock.WallOf(x.hlc)
  {
    Clock.OrderIsLexicographic(x.hlc, r.hlc);
  }

  /** Suppose some store lets a tombstone go at time T. Any store that sweeps no earlier than
      T - ttl is left with no live record in that slot except ones that beat the tombstone. */
  lemma {:induction false} NoResurrection(here: TopicState, k: Slot, reapedAt: int,
                                          there: TopicState, sweptAt: int, ttlMs: int)
    requires k in here.records && here.records[k].tombstone
    requires k !in ReapTopic(here, reapedAt, ttlMs).records
    requires sweptAt >= reapedAt - ttlMs
    ensures var left := ReapTopic(there, sweptAt, ttlMs).records;
      k in left && !left[k].tombstone ==> Beats(left[k], here.records[k])
  {
    var left := ReapTopic(there, sweptAt, ttlMs).records;
    if k in left && !left[k].tombstone && !Beats(left[k], here.records[k]) {
      RankOrdersWalls(here.records[k], left[k]);
    }
  }

  /** A sweep keeps a topic exactly if it is not swept, or some record or witness of it is left. */
  lemma {:induction false} TopicStaysIff(st: Stores, nowMs: int, ttl: Topic -> int, t: Topic)
    ensures t in Reap(st, nowMs, ttl) <==>
      && t in st
      && (|| ttl(t) <= 0 || st[t].attestations != map[]
          || exists k | k in st[t].records :: !Expired(st[t].records[k], nowMs, ttl(t)))
  {
    if t in st && ttl(t) > 0 {
      var left := ReapTopic(st[t], nowMs, ttl(t)).records;
      if k :| k in st[t].records && !Expired(st[t].records[k], nowMs, ttl(t)) {
        assert k in left;
      } else {
        assert left == map[];
      }
    }
  }

  /** A topic that a sweep vacates leaves its place under the topic cap to another. */
  lemma {:induction false} VacatedMakesRoom(c: Config, st: Stores, nowMs: int, ttl: Topic -> int, t: Topic, r: Record,
                                            now: int)
    requires c.Valid() && |st| <= c.maxTopics && t in st && t !in Reap(st, nowMs, ttl)
    requires r.topic !in st && !r.IsAttestation()
    ensures var (after, out) := Apply(c, Reap(st, nowMs, ttl), r, now);
      out.applied && r.topic in after && after[r.topic].records == map[SlotOf(r) := r]
  {
    var left := Reap(st, nowMs, ttl);
    assert left.Keys <= st.Keys - {t};
    SubsetCard(left.Keys, st.Keys - {t});
    assert |left| == |left.Keys| && |st| == |st.Keys|;
    assert HeldBy(map[], r.nodeID) == {};
  }

  /** The margin is tight: one millisecond earlier, a live record stamped in the same millisecond
      as the tombstone that beat it can survive the sweep. */
  lemma {:induction false} MarginIsTight(ttlMs: int)
    returns (here: TopicState, there: TopicState, k: Slot, reapedAt: int)
    requires 0 < ttlMs
    ensures k in here.records && here.records[k].tombstone
    ensures k !in ReapTopic(here, reapedAt, ttlMs).records
    ensures var left := ReapTopic(there, reapedAt - ttlMs - 1, ttlMs).records;
      k in left && !left[k].tombstone && Beats(here.records[k], left[k])
  {
    k := Slot([], []);
    var x := Record([], [], 1, [], true, [], [1], [], [], 0);
    var r := x.(hlc := 0, tombstone := false);
    here, there := TopicState(map[k := x], map[], map[]), TopicState(map[k := r], map[], map[]);
    reapedAt := 2 * ttlMs + 1;
  }
}
