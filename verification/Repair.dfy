/** Lazy repair: which announcements are grafted, when and how often, and what the graft brings. */
module Repair {
  import opened Bytes
  import opened Records
  import opened Finite
  import opened Store
  import opened Plumtree
  import opened Runs
  import Clock
  import Nodes

  // ---------- the tracker over whole runs ----------

  datatype EngineEvent =
    | Announced(src: NodeID, want: Wanted, now: int)
    | Pushed(f: Push, now: int, open: set<NodeID>)
    | Published(r: Record, now: int, open: set<NodeID>)
    | Asked(g: Graft)
    | Pruned(src: NodeID)
    | Tick(now: int)

  ghost function EngineStep(p: Params, e: Engine, ev: EngineEvent): Engine {
    match ev
    case Announced(src, want, now) => IHaveStep(p, e, src, want, now)
    case Pushed(f, now, open) => PushStep(p, e, f, now, open).e
    case Published(r, now, open) => PublishStep(p, e, r, now, open).e
    case Asked(g) => GraftStep(p, e, g).0
    case Pruned(src) => PruneStep(e, src)
    case Tick(now) => TickStep(p, e, now)
  }

  /** The engine after the first `n` events, from an empty tracker. */
  ghost function EngineAt(p: Params, e: Engine, evs: seq<EngineEvent>, n: nat): Engine
    requires n <= |evs|
  {
    if n == 0 then e.(missing := map[]) else EngineStep(p, EngineAt(p, e, evs, n - 1), evs[n - 1])
  }

  /** What one event does to one entry of the tracker. */
  lemma {:induction false} StepEntry(p: Params, e: Engine, ev: EngineEvent, k: Wanted)
    requires k in EngineStep(p, e, ev).missing
    ensures var entry := EngineStep(p, e, ev).missing[k];
      if k in e.missing then
        if ev.Tick? then !Lapsed(e.missing[k], ev.now) && entry == Ticked(p, e.missing[k], ev.now)
        else entry == e.missing[k]
      else
        ev == Announced(entry.announcer, k, entry.seenAt) && !entry.grafted && !Has(e.st, k)
  {
  }

  lemma {:induction false} StepSize(p: Params, e: Engine, ev: EngineEvent)
    requires |e.missing| <= p.maxIHaves
    ensures |EngineStep(p, e, ev).missing| <= p.maxIHaves
  {
    var after := EngineStep(p, e, ev).missing;
    if ev.Announced? {
      PutSize(e.missing, ev.want, Entry(ev.src, ev.now, false));
    } else {
      SubmapSize(after, e.missing);
    }
  }

  /** The tracker never exceeds its cap. */
  lemma {:induction false} TrackerBounded(p: Params, e: Engine, evs: seq<EngineEvent>, n: nat)
    requires n <= |evs|
    ensures |EngineAt(p, e, evs, n).missing| <= p.maxIHaves
  {
    if n > 0 {
      TrackerBounded(p, e, evs, n - 1);
      StepSize(p, EngineAt(p, e, evs, n - 1), evs[n - 1]);
    }
  }

  /** After a tick no entry is past its lifetime. */
  lemma {:induction false} TickExpires(p: Params, e: Engine, now: int, k: Wanted)
    ensures k in TickStep(p, e, now).missing ==> now - TickStep(p, e, now).missing[k].seenAt <= IHAVE_TTL
  {
  }

  /** A graft for `k` goes out at event `j`. */
  ghost predicate GraftedAt(p: Params, e: Engine, evs: seq<EngineEvent>, j: nat, k: Wanted) {
    j < |evs| && evs[j].Tick? && k in EngineAt(p, e, evs, j).missing &&
      Due(p, EngineAt(p, e, evs, j).missing[k], evs[j].now)
  }

  /** The entry was created at event `i`, when the record was not held, and has been tracked ever
      since; it is marked exactly if a graft for it has gone out. */
  ghost predicate Tracked(p: Params, e: Engine, evs: seq<EngineEvent>, i: nat, n: nat, k: Wanted, entry: Entry) {
    && i < n <= |evs|
    && evs[i] == Announced(entry.announcer, k, entry.seenAt)
    && !Has(EngineAt(p, e, evs, i).st, k)
    && (entry.grafted <==> exists j :: i < j < n && GraftedAt(p, e, evs, j, k))
  }

  lemma {:induction false} EntryOrigin(p: Params, e: Engine, evs: seq<EngineEvent>, n: nat, k: Wanted) returns (i: nat)
    requires n <= |evs| && k in EngineAt(p, e, evs, n).missing
    ensures Tracked(p, e, evs, i, n, k, EngineAt(p, e, evs, n).missing[k])
  {
    var before := EngineAt(p, e, evs, n - 1);
    StepEntry(p, before, evs[n - 1], k);
    if k in before.missing {
      i := EntryOrigin(p, e, evs, n - 1, k);
      var was, entry := before.missing[k], EngineAt(p, e, evs, n).missing[k];
      assert entry.grafted <==> was.grafted || GraftedAt(p, e, evs, n - 1, k);
      if GraftedAt(p, e, evs, n - 1, k) {
        assert i < n - 1 < n;
      }
    } else {
      i := n - 1;
    }
  }

  /** Every graft sent answers an announcement by the peer it is sent to, is neither early nor
      stale, and is the first since that announcement. */
  lemma {:induction false} GraftsAreSound(p: Params, e: Engine, evs: seq<EngineEvent>, n: nat, g: Graft)
    returns (i: nat)
    requires n < |evs| && evs[n].Tick? && g in Grafts(p, EngineAt(p, e, evs, n), evs[n].now)
    ensures i < n && evs[i].Announced? && evs[i].src == g.dst && evs[i].want == g.want
    ensures p.graftDelay <= evs[n].now - evs[i].now <= IHAVE_TTL
    ensures !Has(EngineAt(p, e, evs, i).st, g.want)
    ensures forall j | i < j < n :: !GraftedAt(p, e, evs, j, g.want)
  {
    i := EntryOrigin(p, e, evs, n, g.want);
  }

  predicate Waits(e: Engine, k: Wanted, entry: Entry) {
    k in e.missing && e.missing[k] == entry
  }

  /** Along states that follow each other, the entry waits. */
  lemma {:induction false} EntryWaits(p: Params, ss: seq<Engine>, evs: seq<EngineEvent>, i: nat, n: nat, k: Wanted,
                                      entry: Entry)
    requires i < n < |ss| && n <= |evs| && Waits(ss[i + 1], k, entry)
    requires forall m {:trigger evs[m]} | i < m < n ::
      ss[m + 1] == EngineStep(p, ss[m], evs[m]) && Spares(p, evs[m], k, entry)
    ensures Waits(ss[n], k, entry)
  {
    if n > i + 1 {
      EntryWaits(p, ss, evs, i, n - 1, k, entry);
      var ev := evs[n - 1];
      EntryStays(p, ss[n - 1], ev, k, entry);
    }
  }

  /** The event neither brings the record nor is a tick that grafts or drops the entry. */
  predicate Spares(p: Params, ev: EngineEvent, k: Wanted, entry: Entry) {
    && (ev.Pushed? ==> WantedOf(ev.f.r) != k)
    && (ev.Tick? ==> ev.now - entry.seenAt < p.graftDelay && ev.now - entry.seenAt <= IHAVE_TTL)
  }

  lemma {:induction false} EntryStays(p: Params, e: Engine, ev: EngineEvent, k: Wanted, entry: Entry)
    requires Waits(e, k, entry) && Spares(p, ev, k, entry)
    ensures Waits(EngineStep(p, e, ev), k, entry)
  {
  }

  lemma {:induction false} EntryStarts(p: Params, e: Engine, src: NodeID, k: Wanted, since: int)
    requires !Has(e.st, k) && k !in e.missing && |e.missing| < p.maxIHaves
    ensures Waits(EngineStep(p, e, Announced(src, k, since)), k, Entry(src, since, false))
  {
  }

  /** An announcement of a record that is not held, and for which the tracker has room, is grafted
      from its announcer at the first tick between the delay and the lifetime, unless the record
      arrives before. */
  lemma {:induction false} GraftsAreComplete(p: Params, e: Engine, evs: seq<EngineEvent>, i: nat, n: nat, src: NodeID,
                                             k: Wanted, since: int)
    requires i < n < |evs| && evs[i] == Announced(src, k, since)
    requires forall j | i < j < n :: Spares(p, evs[j], k, Entry(src, since, false))
    requires var now := EngineAt(p, e, evs, i); !Has(now.st, k) && k !in now.missing && |now.missing| < p.maxIHaves
    requires evs[n].Tick? && p.graftDelay <= evs[n].now - since <= IHAVE_TTL
    ensures Graft(p.self, src, k) in Grafts(p, EngineAt(p, e, evs, n), evs[n].now)
  {
    var ss, entry := StatesOf(p, e, evs, n), Entry(src, since, false);
    StatesFollow(p, e, evs, n, i);
    EntryStarts(p, ss[i], src, k, since);
    forall m | i < m < n
      ensures ss[m + 1] == EngineStep(p, ss[m], evs[m]) && Spares(p, evs[m], k, entry)
    {
      StatesFollow(p, e, evs, n, m);
    }
    EntryWaits(p, ss, evs, i, n, k, entry);
    WaitingIsGrafted(p, ss[n], k, entry, evs[n].now);
  }

  ghost function StatesOf(p: Params, e: Engine, evs: seq<EngineEvent>, n: nat): (ss: seq<Engine>)
    requires n <= |evs|
    ensures |ss| == n + 1 && forall m | 0 <= m <= n :: ss[m] == EngineAt(p, e, evs, m)
  {
    seq(n + 1, m requires 0 <= m <= n => EngineAt(p, e, evs, m))
  }

  lemma {:induction false} StatesFollow(p: Params, e: Engine, evs: seq<EngineEvent>, n: nat, m: nat)
    requires m < n <= |evs|
    ensures StatesOf(p, e, evs, n)[m + 1] == EngineStep(p, StatesOf(p, e, evs, n)[m], evs[m])
  {
    AtNext(p, e, evs, m + 1);
  }

  lemma {:induction false} AtNext(p: Params, e: Engine, evs: seq<EngineEvent>, n: nat)
    requires 0 < n <= |evs|
    ensures EngineAt(p, e, evs, n) == EngineStep(p, EngineAt(p, e, evs, n - 1), evs[n - 1])
  {
  }

  lemma {:induction false} WaitingIsGrafted(p: Params, e: Engine, k: Wanted, entry: Entry, now: int)
    requires Waits(e, k, entry) && !entry.grafted && p.graftDelay <= now - entry.seenAt <= IHAVE_TTL
    ensures Graft(p.self, entry.announcer, k) in Grafts(p, e, now)
  {
  }

  /** Inbound traffic cannot make a node push eagerly to everybody: in every run the tree edges stay
      within four times the tree degree. */
  lemma {:induction false} TreeBounded(p: Params, e: Engine, evs: seq<EngineEvent>, n: nat)
    requires n <= |evs| && |e.tree| <= 4 * p.treeDegree
    ensures |EngineAt(p, e, evs, n).tree| <= 4 * p.treeDegree
  {
    if n > 0 {
      TreeBounded(p, e, evs, n - 1);
      StepTree(p, EngineAt(p, e, evs, n - 1), evs[n - 1]);
    }
  }

  lemma {:induction false} StepTree(p: Params, e: Engine, ev: EngineEvent)
    requires |e.tree| <= 4 * p.treeDegree
    ensures |EngineStep(p, e, ev).tree| <= 4 * p.treeDegree
  {
    match ev
    case Pushed(f, now, open) => PushedTree(p, e, f, now, open);
    case Published(r, now, open) => BestTreeSize(p, e);
    case Asked(g) => PromoteSize(p, e, g.src);
    case Pruned(src) => SubsetCard(e.tree - {src}, e.tree);
    case _ =>
  }

  lemma {:induction false} PushedTree(p: Params, e: Engine, f: Push, now: int, open: set<NodeID>)
    requires |e.tree| <= 4 * p.treeDegree
    ensures |RelayStep(p, e, f, now).e.tree| <= 4 * p.treeDegree
    ensures |EagerStep(p, e, f, now, open).e.tree| <= 4 * p.treeDegree
  {
    BestTreeSize(p, e);
    PromoteSize(p, e, f.src);
    assert EagerStep(p, e, f, now, open).e.tree in {e.tree, Promote(p, e, f.src).tree};
    assert RelayStep(p, e, f, now).e.tree in {e.tree, BestTree(p, e)};
  }

  lemma {:induction false} PromoteSize(p: Params, e: Engine, peer: NodeID)
    requires |e.tree| <= 4 * p.treeDegree
    ensures |Promote(p, e, peer).tree| <= 4 * p.treeDegree
  {
  }

  lemma {:induction false} BestTreeSize(p: Params, e: Engine)
    requires |e.tree| <= 4 * p.treeDegree
    ensures |BestTree(p, e)| <= 4 * p.treeDegree
  {
    BestIsBest(p, e);
    assert |e.tree + BestChoice(p, e)| <= |e.tree| + |BestChoice(p, e)|;
  }

  // ---------- what a graft brings ----------

  /** The store after the events. */
  ghost function StoreFrom(c: Config, st: Stores, es: seq<StoreEvent>): Stores
    decreases |es|
  {
    if es == [] then st else StoreFrom(c, StoreStep(c, st, es[0]), es[1..])
  }

  lemma {:induction false} StepFiled(c: Config, st: Stores, ev: StoreEvent)
    requires Nodes.Filed(st)
    ensures Nodes.Filed(StoreStep(c, st, ev))
  {
    if ev.Receive? {
      Nodes.ApplyFiled(c, st, ev.r, ev.now);
    } else {
      var st' := Reap(st, ev.now, ev.ttl);
      forall t | t in st'
        ensures Nodes.TopicFiled(st'[t], t)
      {
        assert Nodes.TopicFiled(st[t], t);
      }
    }
  }

  lemma {:induction false} FiledAlong(c: Config, st: Stores, es: seq<StoreEvent>)
    requires Nodes.Filed(st)
    ensures Nodes.Filed(StoreFrom(c, st, es))
    decreases |es|
  {
    if es != [] {
      StepFiled(c, st, es[0]);
      FiledAlong(c, StoreStep(c, st, es[0]), es[1..]);
    }
  }

  // ---------- how long an announcement is good for ----------

  /** Every sweep gives the topic that lifetime, and none comes later than `until`. */
  ghost predicate SweptUntil(es: seq<StoreEvent>, topic: Topic, ttlMs: int, until: int) {
    forall m | 0 <= m < |es| && es[m].Sweep? :: es[m].ttl(topic) == ttlMs && es[m].now <= until
  }

  /** A record stamped `hlc` is too young for any such sweep, even when live. */
  predicate Outlasts(hlc: u64, ttlMs: int, until: int) {
    ttlMs <= 0 || until - Clock.WallOf(hlc) <= ttlMs
  }

  ghost predicate Young(st: Stores, k: Wanted, ttlMs: int, until: int) {
    Has(st, k) && Outlasts(Held(st, k)[SlotWanted(k)].hlc, ttlMs, until)
  }

  lemma {:induction false} ArrivalKeepsYoung(c: Config, st: Stores, r: Record, now: int, k: Wanted, ttlMs: int,
                                             until: int)
    requires Young(st, k, ttlMs, until)
    ensures Young(Apply(c, st, r, now).0, k, ttlMs, until)
  {
    var slot := SlotWanted(k);
    if r.topic == k.topic {
      TopicStepAdvances(c, TopicOf(st, r.topic), r, now);
      var before, after := Held(st, k)[slot], Held(Apply(c, st, r, now).0, k)[slot];
      Clock.OrderIsLexicographic(before.hlc, after.hlc);
    }
  }

  lemma {:induction false} SweepKeepsYoung(st: Stores, now: int, ttl: Topic -> int, k: Wanted, ttlMs: int, until: int)
    requires Young(st, k, ttlMs, until) && ttl(k.topic) == ttlMs && now <= until
    ensures Young(Reap(st, now, ttl), k, ttlMs, until)
  {
    if 0 < ttlMs {
      var left := ReapTopic(st[k.topic], now, ttlMs);
      assert SlotWanted(k) in left.records && !Vacant(left);
    }
  }

  lemma {:induction false} YoungKept(c: Config, st: Stores, es: seq<StoreEvent>, k: Wanted, ttlMs: int, until: int)
    requires Young(st, k, ttlMs, until) && SweptUntil(es, k.topic, ttlMs, until)
    ensures Young(StoreFrom(c, st, es), k, ttlMs, until)
    decreases |es|
  {
    if es != [] {
      assert es[0] in es;
      match es[0] {
        case Receive(r, now) => ArrivalKeepsYoung(c, st, r, now, k, ttlMs, until);
        case Sweep(now, ttl) => SweepKeepsYoung(st, now, ttl, k, ttlMs, until);
      }
      YoungKept(c, StoreStep(c, st, es[0]), es[1..], k, ttlMs, until);
    }
  }

  /** The store has what was announced at the end of every run that sweeps the topic no later. */
  ghost predicate AlwaysHas(c: Config, st: Stores, k: Wanted, ttlMs: int, until: int) {
    forall es | SweptUntil(es, k.topic, ttlMs, until) :: Has(StoreFrom(c, st, es), k)
  }

  /** Exactly as long as the record held at the announcement is itself within its lifetime: what
      replaces it is no older, and an old one can be replaced by a live one of the same HLC and
      then swept. */
  lemma {:induction false} AlwaysHasIff(c: Config, st: Stores, k: Wanted, ttlMs: int, until: int)
    requires Nodes.Filed(st) && Has(st, k)
    ensures AlwaysHas(c, st, k, ttlMs, until) <==> Outlasts(Held(st, k)[SlotWanted(k)].hlc, ttlMs, until)
  {
    if Outlasts(Held(st, k)[SlotWanted(k)].hlc, ttlMs, until) {
      forall es | SweptUntil(es, k.topic, ttlMs, until)
        ensures Has(StoreFrom(c, st, es), k)
      {
        YoungKept(c, st, es, k, ttlMs, until);
      }
    } else {
      var es := LetGo(c, st, k, ttlMs, until);
      assert !Has(StoreFrom(c, st, es), k);
    }
  }

  /** The record held, live and with a longer signature, takes its place. */
  lemma {:induction false} Superseded(c: Config, st: Stores, k: Wanted, r: Record)
    requires Nodes.Filed(st) && SlotWanted(k) in Held(st, k)
    requires r == var cur := Held(st, k)[SlotWanted(k)]; cur.(tombstone := false, sig := cur.sig + [1])
    ensures var st' := Apply(c, st, r, 0).0;
      && st'.Keys == st.Keys && k.topic in st
      && st'[k.topic].records == st[k.topic].records[SlotWanted(k) := r]
  {
    var ts := st[k.topic];
    assert Nodes.TopicFiled(ts, k.topic);
    LexExtends(ts.records[SlotWanted(k)].sig);
  }

  lemma {:induction false} LetGo(c: Config, st: Stores, k: Wanted, ttlMs: int, until: int) returns (es: seq<StoreEvent>)
    requires Nodes.Filed(st) && Has(st, k) && !Outlasts(Held(st, k)[SlotWanted(k)].hlc, ttlMs, until)
    ensures SweptUntil(es, k.topic, ttlMs, until)
    ensures var st' := StoreFrom(c, st, es);
      && SlotWanted(k) !in Held(st', k) && Held(st', k).Keys <= Held(st, k).Keys
      && (k.topic in st' || |st'| < |st|)
  {
    var cur := Held(st, k)[SlotWanted(k)];
    var r := cur.(tombstone := false, sig := cur.sig + [1]);
    Superseded(c, st, k, r);
    var ttl := (t: Topic) => ttlMs;
    es := [Receive(r, 0)] + [Sweep(until, ttl)];
    var st1 := StoreStep(c, st, es[0]);
    assert StoreFrom(c, st, [Receive(r, 0)]) == st1 by {
      assert [Receive(r, 0)][1..] == [];
    }
    StoreFromSnoc(c, st, [Receive(r, 0)], Sweep(until, ttl));
    SweepDrops(st1, until, ttl, k);
    assert |st1| == |st1.Keys| == |st.Keys| == |st|;
  }

  /** A sweep drops a live record past its lifetime, and with it perhaps the topic. */
  lemma {:induction false} SweepDrops(st: Stores, now: int, ttl: Topic -> int, k: Wanted)
    requires SlotWanted(k) in Held(st, k) && 0 < ttl(k.topic)
    requires var cur := Held(st, k)[SlotWanted(k)]; !cur.tombstone && now - Clock.WallOf(cur.hlc) > ttl(k.topic)
    ensures var st' := Reap(st, now, ttl);
      && SlotWanted(k) !in Held(st', k) && Held(st', k).Keys <= Held(st, k).Keys
      && (k.topic in st' || |st'| < |st|)
  {
    var st' := Reap(st, now, ttl);
    if k.topic !in st' {
      assert st'.Keys <= st.Keys - {k.topic};
      SubsetCard(st'.Keys, st.Keys - {k.topic});
      assert |st'| == |st'.Keys| && |st| == |st.Keys|;
    }
  }

  /** No cap is exceeded on the topic. */
  predicate WithinCaps(c: Config, st: Stores, k: Wanted) {
    && |st| <= c.maxTopics && |Held(st, k)| <= c.maxRecords
    && |HeldBy(Held(st, k), k.node)| <= c.maxKeys
  }

  /** Any record for a slot that is gone finds room where the slot was. */
  lemma {:induction false} FindsRoom(c: Config, st: Stores, st': Stores, k: Wanted, r: Record)
    requires c.Valid() && WithinCaps(c, st, k) && SlotWanted(k) in Held(st, k) && SlotWanted(k) !in Held(st', k)
    requires Held(st', k).Keys <= Held(st, k).Keys && (k.topic in st' || |st'| < |st|)
    requires !r.IsAttestation() && r.topic == k.topic && SlotOf(r) == SlotWanted(k)
    ensures var after := Held(Apply(c, st', r, 0).0, k); SlotWanted(k) in after && after[SlotWanted(k)] == r
  {
    var slot, before, now := SlotWanted(k), Held(st, k), Held(st', k);
    assert now.Keys <= before.Keys - {slot};
    SubsetCard(now.Keys, before.Keys - {slot});
    assert |now| == |now.Keys| && |before| == |before.Keys|;
    assert HeldBy(now, k.node) <= HeldBy(before, k.node) - {slot};
    SubsetCard(HeldBy(now, k.node), HeldBy(before, k.node) - {slot});
  }

  /** A run after which the slot is held below the announcement, by a signed record. */
  lemma {:induction false} Regressed(c: Config, st: Stores, k: Wanted, ttlMs: int, until: int)
    returns (es: seq<StoreEvent>, older: Record)
    requires c.Valid() && Nodes.Filed(st) && Has(st, k) && WithinCaps(c, st, k) && 0 < k.hlc
    requires !Outlasts(Held(st, k)[SlotWanted(k)].hlc, ttlMs, until)
    ensures SweptUntil(es, k.topic, ttlMs, until)
    ensures var held := Held(StoreFrom(c, st, es), k); SlotWanted(k) in held && held[SlotWanted(k)] == older
    ensures older.IsSigned() && older.hlc < k.hlc
  {
    var first := LetGo(c, st, k, ttlMs, until);
    var cur := Held(st, k)[SlotWanted(k)];
    assert Nodes.TopicFiled(st[k.topic], k.topic);
    older := cur.(tombstone := false, hlc := 0, sig := [1]);
    FindsRoom(c, st, StoreFrom(c, st, first), k, older);
    es := first + [Receive(older, 0)];
    StoreFromSnoc(c, st, first, Receive(older, 0));
  }

  lemma {:induction false} StoreFromSnoc(c: Config, st: Stores, es: seq<StoreEvent>, ev: StoreEvent)
    ensures StoreFrom(c, st, es + [ev]) == StoreStep(c, StoreFrom(c, st, es), ev)
    decreases |es|
  {
    if es == [] {
      assert (es + [ev])[1..] == [];
    } else {
      assert (es + [ev])[1..] == es[1..] + [ev];
      StoreFromSnoc(c, StoreStep(c, st, es[0]), es[1..], ev);
    }
  }

  /** A swept slot can come back below the announcement: the announced record expires, an older one
      arrives, and that is what a graft would be answered with. */
  lemma {:induction false} ReapAndReturn() returns (c: Config, st: Stores, es: seq<StoreEvent>, k: Wanted)
    ensures c.Valid() && Nodes.Filed(st) && Has(st, k)
    ensures var held := Held(StoreFrom(c, st, es), k);
      SlotWanted(k) in held && held[SlotWanted(k)].IsSigned() && held[SlotWanted(k)].hlc < k.hlc
  {
    c := Config(1, 1, 1, 1, 1, 0, (o, p) => true);
    var r := Record([], [7], 3 * Clock.CTR, [], false, [], [1], [], [], 0);
    var older := r.(hlc := 1);
    k := WantedOf(r);
    st := map[[] := TopicState(map[SlotOf(r) := r], map[], map[])];
    es := [Sweep(9, t => 1), Receive(older, 9)];
    assert Clock.WallOf(r.hlc) == 3;
    var swept := StoreStep(c, st, es[0]);
    assert ReapTopic(st[[]], 9, 1).records == map[];
    assert swept == map[];
    assert OfNode({}, [7]) == {};
    var back := StoreStep(c, swept, es[1]);
    assert back[[]].records == map[SlotOf(r) := older];
    assert es[1..] == [Receive(older, 9)] && es[1..][1..] == [];
    assert StoreFrom(c, st, es) == StoreFrom(c, swept, es[1..]) == StoreFrom(c, back, []) == back;
  }

  // ---------- from the announcement to the answer ----------

  /** The frames other than pushes that one event of the engine sends. */
  ghost function NotesOf(p: Params, e: Engine, ev: EngineEvent): multiset<Note> {
    match ev
    case Pushed(f, now, open) => PushStep(p, e, f, now, open).notes
    case Published(r, now, open) => PublishStep(p, e, r, now, open).notes
    case _ => multiset{}
  }

  /** What a push or a publish carries. */
  function Carried(ev: EngineEvent): Record
    requires ev.Pushed? || ev.Published?
  {
    if ev.Pushed? then ev.f.r else ev.r
  }

  /** The event announces `k` to a peer, for an owner record. */
  ghost predicate AnnouncedBy(p: Params, e: Engine, ev: EngineEvent, to: NodeID, k: Wanted) {
    (ev.Pushed? || ev.Published?) && !Carried(ev).IsAttestation() && IHave(p.self, to, k) in NotesOf(p, e, ev)
  }

  /** A node announces only what it has just taken. */
  lemma {:induction false} AnnouncedIsHeld(p: Params, e: Engine, ev: EngineEvent, to: NodeID, k: Wanted)
    requires Nodes.Filed(e.st) && AnnouncedBy(p, e, ev, to, k)
    ensures var st := EngineStep(p, e, ev).st; Nodes.Filed(st) && Has(st, k) && Held(st, k)[SlotWanted(k)].hlc == k.hlc
  {
    var r, s := Carried(ev), EngineStep(p, e, ev);
    Nodes.ApplyFiled(p.c, e.st, r, ev.now);
    AnnouncesIs(p.self, (s.peers - s.tree) * ev.open, r, to, k);
    AppliedIsHeld(p.c, e.st, r, ev.now);
  }

  lemma {:induction false} AppliedIsHeld(c: Config, st: Stores, r: Record, now: int)
    requires !r.IsAttestation() && Apply(c, st, r, now).1.applied
    ensures var held := Held(Apply(c, st, r, now).0, WantedOf(r)); SlotOf(r) in held && held[SlotOf(r)] == r
  {
  }

  lemma {:induction false} AnnouncesIs(self: NodeID, dst: set<NodeID>, r: Record, to: NodeID, k: Wanted)
    ensures IHave(self, to, k) in ToEach(dst, AnnounceTo(self, r)) ==> k == WantedOf(r)
  {
    if dst != {} {
      AnnouncesIs(self, dst - {Pick(dst)}, r, to, k);
    }
  }

  /** The gate admits the record and no cap turns it away. */
  predicate Takes(p: Params, e: Engine, r: Record) {
    var records := TopicOf(e.st, r.topic).records;
    && p.admit(r)
    && (r.topic in e.st || |e.st| < p.c.maxTopics)
    && (SlotOf(r) in records || HasRoom(p.c, records, r.nodeID))
  }

  lemma {:induction false} AdmittedIsHeld(p: Params, e: Engine, x: Push, now: int, open: set<NodeID>, k: Wanted)
    requires Takes(p, e, x.r) && !x.r.IsAttestation()
    requires x.r.topic == k.topic && SlotOf(x.r) == SlotWanted(k) && k.hlc <= x.r.hlc
    ensures Has(EagerStep(p, e, x, now, open).e.st, k)
  {
    OwnerStepLands(p.c, TopicOf(e.st, x.r.topic), x.r, now);
  }

  /** However the run goes on, a graft for the announcement that is answered is answered at its HLC
      or above. */
  ghost predicate AlwaysServed(p: Params, st: Stores, k: Wanted, ttlMs: int, until: int) {
    forall es, later: Engine, g: Graft, x |
      SweptUntil(es, k.topic, ttlMs, until) && later.st == StoreFrom(p.c, st, es) &&
      g.want == k && x in GraftStep(p, later, g).1 :: k.hlc <= x.r.hlc
  }

  /** A graft for an announcement, own or relayed, is answered at the announced HLC or above, in
      every run that sweeps the topic no later than `until`, exactly if the announced record is
      within its lifetime by then. */
  lemma {:induction false} AnnouncementHoldsIff(p: Params, e: Engine, ev: EngineEvent, to: NodeID, k: Wanted,
                                                ttlMs: int, until: int)
    requires p.c.Valid() && Nodes.Filed(e.st) && AnnouncedBy(p, e, ev, to, k)
    requires 0 < k.hlc && WithinCaps(p.c, EngineStep(p, e, ev).st, k)
    ensures AlwaysServed(p, EngineStep(p, e, ev).st, k, ttlMs, until) <==> Outlasts(k.hlc, ttlMs, until)
  {
    var st := EngineStep(p, e, ev).st;
    AnnouncedIsHeld(p, e, ev, to, k);
    if Outlasts(k.hlc, ttlMs, until) {
      forall es, later: Engine, g: Graft, x |
        SweptUntil(es, k.topic, ttlMs, until) && later.st == StoreFrom(p.c, st, es) &&
        g.want == k && x in GraftStep(p, later, g).1
        ensures k.hlc <= x.r.hlc
      {
        YoungKept(p.c, st, es, k, ttlMs, until);
      }
    } else {
      var es, older := Regressed(p.c, st, k, ttlMs, until);
      var later, g := Engine(StoreFrom(p.c, st, es), {}, {}, map[]), Graft([], [], k);
      assert Push(p.self, g.src, older, EAGER_TTL) in GraftStep(p, later, g).1;
    }
  }

  /** Lazy repair, from the announcement to the requester: while the announced record is within its
      lifetime, whatever arrives and is swept, a graft for it finds the slot at the announced HLC or
      above; the record found is sent unless it is an unsigned verdict, and a requester that admits
      it, with room, then has what was announced or newer. */
  lemma {:induction false} LazyRepair(p: Params, e: Engine, ev: EngineEvent, to: NodeID, g: Graft, es: seq<StoreEvent>,
                                      later: Engine, ttlMs: int, until: int, q: Params, requester: Engine, now: int,
                                      open: set<NodeID>)
    requires Nodes.Filed(e.st) && AnnouncedBy(p, e, ev, to, g.want) && Outlasts(g.want.hlc, ttlMs, until)
    requires SweptUntil(es, g.want.topic, ttlMs, until) && later.st == StoreFrom(p.c, EngineStep(p, e, ev).st, es)
    ensures Has(later.st, g.want)
    ensures var cur := Held(later.st, g.want)[SlotWanted(g.want)];
      var x := Push(p.self, g.src, cur, EAGER_TTL);
      && (cur.IsSigned() <==> x in GraftStep(p, later, g).1)
      && (Takes(q, requester, cur) ==> Has(EagerStep(q, requester, x, now, open).e.st, g.want))
  {
    AnnouncedIsHeld(p, e, ev, to, g.want);
    var st := EngineStep(p, e, ev).st;
    YoungKept(p.c, st, es, g.want, ttlMs, until);
    FiledAlong(p.c, st, es);
    assert Nodes.TopicFiled(later.st[g.want.topic], g.want.topic);
    var x := Push(p.self, g.src, Held(later.st, g.want)[SlotWanted(g.want)], EAGER_TTL);
    if Takes(q, requester, x.r) {
      AdmittedIsHeld(q, requester, x, now, open, g.want);
    }
  }
}
