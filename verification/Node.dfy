/** The node object: receiving, publishing and changing tenant as a thread runs them, when no other
    thread comes in between. */
module Nodes {
  import opened Bytes
  import opened Records
  import opened Store
  import opened Clock
  import opened Publishing
  import Plumtree
  import RecordStores

  /** Records are filed under their own topic as well as their own slot. */
  ghost predicate Filed(st: Stores) {
    forall t | t in st :: TopicFiled(st[t], t)
  }

  ghost predicate TopicFiled(ts: TopicState, t: Topic) {
    WellFiled(ts) && NamesTopic(ts.records, t)
  }

  ghost predicate NamesTopic(records: map<Slot, Record>, t: Topic) {
    forall k | k in records :: records[k].topic == t
  }

  lemma {:induction false} BuriedNamesTopic(records: map<Slot, Record>, t: Topic, node: NodeID, hlc: u64)
    requires NamesTopic(records, t)
    ensures NamesTopic(Buried(records, t, node, hlc), t)
  {
  }

  lemma {:induction false} StepNamesTopic(c: Config, ts: TopicState, r: Record, now: int)
    requires NamesTopic(ts.records, r.topic)
    ensures NamesTopic(TopicStep(c, ts, r, now).0.records, r.topic)
  {
    if r.IsAttestation() {
      BuriedNamesTopic(ts.records, r.topic, r.nodeID, Inc64(HighestHlc(Joined(c, ts, r))));
    }
  }

  lemma {:induction false} ApplyFiled(c: Config, st: Stores, r: Record, now: int)
    requires Filed(st)
    ensures Filed(Apply(c, st, r, now).0)
  {
    var ts := TopicOf(st, r.topic);
    assert TopicFiled(ts, r.topic);
    TopicStepWellFiled(c, ts, r, now);
    StepNamesTopic(c, ts, r, now);
  }

  /** The `i`-th of `m` consecutive stamps, taken at the readings `walls`, does not overflow. */
  predicate TicksFor(clock: u64, walls: nat -> nat, i: nat, m: nat)
    decreases m
  {
    m == 0 || (walls(i) < WALLS && HasTick(clock, walls(i)) &&
               TicksFor(NowNext(clock, walls(i)), walls, i + 1, m - 1))
  }

  /** A counter with `m` values left has room for `m` stamps, whatever the clock reads. */
  lemma {:induction false} CounterRoom(clock: u64, walls: nat -> nat, i: nat, m: nat)
    requires CtrOf(clock) + m < CTR && forall j :: walls(j) < WALLS
    ensures TicksFor(clock, walls, i, m)
    decreases m
  {
    if m > 0 {
      UnpackExact(clock);
      PackExact(walls(i), 0);
      PackExact(WallOf(clock), CtrOf(clock) + 1);
      CounterRoom(NowNext(clock, walls(i)), walls, i + 1, m - 1);
    }
  }

  ghost predicate Holds(st: Stores, id: NodeID, ps: seq<(Topic, Slot)>) {
    forall p | p in ps :: p.0 in st && p.1 in st[p.0].records && p.1.node == id
  }

  /** Same topics and slots; and the slots of nodes other than `id` hold what they held. */
  ghost predicate OthersKept(before: Stores, after: Stores, id: NodeID) {
    && before.Keys == after.Keys
    && forall t | t in before ::
         && before[t].records.Keys == after[t].records.Keys
         && SameOutside(before[t].records, after[t].records, id)
  }

  lemma {:induction false} OwnSlotsKept(before: Stores, after: Stores, id: NodeID)
    requires OthersKept(before, after, id)
    ensures OwnSlots(before, id) == OwnSlots(after, id)
  {
  }

  /** `r` took its slot and nothing else changed. */
  ghost predicate PutsOne(before: Stores, after: Stores, r: Record) {
    && r.topic in before && after.Keys == before.Keys
    && (forall t | t in before && t != r.topic :: after[t].records == before[t].records)
    && after[r.topic].records == before[r.topic].records[SlotOf(r) := r]
  }

  lemma {:induction false} PutsOneKeepsOthers(before: Stores, after: Stores, r: Record)
    requires PutsOne(before, after, r) && SlotOf(r) in before[r.topic].records
    ensures OthersKept(before, after, r.nodeID)
    ensures r.tombstone ==> RetiresOne(before, after, r.topic, SlotOf(r))
  {
  }

  /** What one winning local record does: exactly one slot of one topic changes. */
  lemma {:induction false} LocalWins(c: Config, st: Stores, clock: u64, r: Record, wall: nat, now: int)
    requires c.Valid() && Dominates(clock, st) && Filed(st)
    requires wall < WALLS && HasTick(clock, wall) && r.hlc == NowNext(clock, wall)
    requires r.IsSigned() && !r.IsAttestation() && r.topic in st && SlotOf(r) in st[r.topic].records
    ensures var (st', out) := Apply(c, st, r, now);
      out.applied && Filed(st') && Dominates(r.hlc, st') && PutsOne(st, st', r)
  {
    var ts := st[r.topic];
    assert TopicBelow(ts, clock);
    OwnRecordBeats(clock, wall, r, ts.records[SlotOf(r)]);
    ApplyFiled(c, st, r, now);
    NowGrowsIff(clock, wall);
    DominatesLater(clock, r.hlc, st);
    ApplyBelow(c, st, r, now, r.hlc);
  }

  /** Applying what a thread carries, as a step of the node. */
  lemma {:induction false} PutIs(c: Config, g: Gate, clock: u64, st: Stores, r: Record, now: int)
    ensures NodeStep(c, g, NodeState(clock, st, map[0 := r]), NodeEvent.Put(0, now)) ==
            NodeState(clock, Apply(c, st, r, now).0, map[])
  {
    assert map[0 := r] - {0} == map[];
  }

  lemma {:induction false} LocalRetires(c: Config, st: Stores, clock: u64, r: Record, wall: nat, now: int)
    requires c.Valid() && Dominates(clock, st) && Filed(st)
    requires wall < WALLS && HasTick(clock, wall) && r.hlc == NowNext(clock, wall)
    requires r.IsSigned() && r.tombstone && !r.IsAttestation() && Held(st, r.topic, SlotOf(r))
    ensures Apply(c, st, r, now).1.applied && RetiresOne(st, Apply(c, st, r, now).0, r.topic, SlotOf(r))
  {
    LocalWins(c, st, clock, r, wall, now);
    PutsOneKeepsOthers(st, Apply(c, st, r, now).0, r);
  }

  /** A record for a slot that is held either takes it, alone, or changes nothing. */
  lemma {:induction false} LocalPutsAtMostOne(c: Config, st: Stores, r: Record, now: int)
    requires Filed(st) && !r.IsAttestation() && r.topic in st && SlotOf(r) in st[r.topic].records
    ensures var st' := Apply(c, st, r, now).0; Filed(st') && OthersKept(st, st', r.nodeID)
  {
    ApplyFiled(c, st, r, now);
  }

  // ---------- what goes out ----------

  /** The pushes of several broadcasts over the same edges. */
  ghost function PushesOf(self: NodeID, tree: set<NodeID>, rs: seq<Record>): multiset<Plumtree.Push> {
    if rs == [] then multiset{}
    else
      var last := |rs| - 1;
      PushesOf(self, tree, rs[..last]) + Plumtree.ToEach(tree, Plumtree.PushTo(self, rs[last], Plumtree.EAGER_TTL))
  }

  ghost function NotesOf(self: NodeID, lazy: set<NodeID>, rs: seq<Record>): multiset<Plumtree.Note> {
    if rs == [] then multiset{}
    else
      var last := |rs| - 1;
      NotesOf(self, lazy, rs[..last]) + Plumtree.ToEach(lazy, Plumtree.AnnounceTo(self, rs[last]))
  }

  /** The frames sent are those of broadcasting each record in turn; the first broadcast makes up
      the edges, and the others find them made up. */
  ghost predicate Broadcasts(p: Plumtree.Params, before: Plumtree.Engine, after: Plumtree.Engine, open: set<NodeID>,
                             rs: seq<Record>, pushes: seq<Plumtree.Push>, notes: seq<Plumtree.Note>) {
    && after.peers == before.peers && after.missing == before.missing
    && after.tree == (if rs == [] then before.tree else Plumtree.BestTree(p, before))
    && multiset(pushes) == PushesOf(p.self, after.tree, rs)
    && multiset(notes) == NotesOf(p.self, (after.peers - after.tree) * open, rs)
  }

  /** The engine with another store. */
  ghost function With(e: Plumtree.Engine, st: Stores): Plumtree.Engine {
    e.(st := st)
  }

  lemma {:induction false} BroadcastsStep(p: Plumtree.Params, before: Plumtree.Engine, mid: Plumtree.Engine,
                                          open: set<NodeID>, rs: seq<Record>, pushes: seq<Plumtree.Push>,
                                          notes: seq<Plumtree.Note>, r: Record, sent: Plumtree.Sent,
                                          more: seq<Plumtree.Push>, told: seq<Plumtree.Note>)
    requires Broadcasts(p, before, mid, open, rs, pushes, notes)
    requires sent == Plumtree.BroadcastStep(p, mid, r, open)
    requires multiset(more) == sent.pushes && multiset(told) == sent.notes
    ensures Broadcasts(p, before, sent.e, open, rs + [r], pushes + more, notes + told)
  {
    BestByEdges(p, before, mid);
    assert (rs + [r])[..|rs|] == rs;
  }

  /** A further broadcast goes to the edges the first one made up. */
  lemma {:induction false} BestByEdges(p: Plumtree.Params, before: Plumtree.Engine, mid: Plumtree.Engine)
    requires mid.peers == before.peers && mid.tree in {before.tree, Plumtree.BestTree(p, before)}
    ensures Plumtree.BestTree(p, mid) == Plumtree.BestTree(p, before)
  {
    Plumtree.BestAgain(p, before);
  }

  /** What a tenant change sends out: the tombstones it stamps, those that subscribers are told of,
      and the frames. */
  datatype Outbox = Outbox(tombs: seq<Record>, told: seq<Record>, pushes: seq<Plumtree.Push>, notes: seq<Plumtree.Note>)

  /** One tombstone for each slot of the list, each broadcast; if the clock leads, subscribers are
      told of all of them. */
  ghost predicate Posted(p: Plumtree.Params, before: Plumtree.Engine, after: Plumtree.Engine, open: set<NodeID>,
                         out: Outbox, mine: seq<(Topic, Slot)>, led: bool) {
    && Tombstones(out.tombs, mine) && (led ==> out.told == out.tombs)
    && Broadcasts(p, before, after, open, out.tombs, out.pushes, out.notes)
  }

  function Posting(out: Outbox, tomb: Record, applied: bool, pushes: seq<Plumtree.Push>,
                   notes: seq<Plumtree.Note>): Outbox {
    Outbox(out.tombs + [tomb], if applied then out.told + [tomb] else out.told, out.pushes + pushes, out.notes + notes)
  }

  lemma {:induction false} PostedNone(p: Plumtree.Params, e: Plumtree.Engine, open: set<NodeID>, led: bool)
    ensures Posted(p, e, e, open, Outbox([], [], [], []), [], led)
  {
  }

  lemma {:induction false} PostedStep(p: Plumtree.Params, before: Plumtree.Engine, mid: Plumtree.Engine,
                                      after: Plumtree.Engine, open: set<NodeID>, out: Outbox,
                                      mine: seq<(Topic, Slot)>, i: nat, led: bool, st: Stores, tomb: Record,
                                      applied: bool, pushes: seq<Plumtree.Push>, notes: seq<Plumtree.Note>)
    requires i < |mine| && Posted(p, before, mid, open, out, mine[..i], led)
    requires IsTombstone(tomb, mine[i]) && (led ==> applied)
    requires Plumtree.Sent(after, multiset(pushes), multiset(notes)) ==
             Plumtree.BroadcastStep(p, With(mid, st), tomb, open)
    ensures Posted(p, before, after, open, Posting(out, tomb, applied, pushes, notes), mine[..i + 1], led)
  {
    BroadcastsStep(p, before, With(mid, st), open, out.tombs, out.pushes, out.notes, tomb,
                   Plumtree.Sent(after, multiset(pushes), multiset(notes)), pushes, notes);
    TombstonesSnoc(out.tombs, mine, i, tomb);
  }

  lemma {:induction false} TombstonesSnoc(tombs: seq<Record>, mine: seq<(Topic, Slot)>, i: nat, tomb: Record)
    requires i < |mine| && Tombstones(tombs, mine[..i]) && IsTombstone(tomb, mine[i])
    ensures Tombstones(tombs + [tomb], mine[..i + 1])
  {
  }

  class Node {
    const id: NodeID
    const pub: Bytes
    const store: RecordStores.RecordStore
    const engine: Plumtree.PlumtreeEngine
    const gate: Gate
    const maxRecordBytes: nat
    var clock: u64
    var tenant: Bytes

    constructor (id: NodeID, pub: Bytes, engine: Plumtree.PlumtreeEngine, gate: Gate, maxRecordBytes: nat, clock: u64)
      requires engine.Valid() && engine.store.byTopic == map[] && gate.maxSkewMs <= SKEW_BUDGET_MS
      ensures Valid() && Ahead() && this.engine == engine && this.id == id && this.pub == pub && this.gate == gate
      ensures this.clock == clock && tenant == [] && this.maxRecordBytes == maxRecordBytes
    {
      this.id, this.pub, this.engine, this.store := id, pub, engine, engine.store;
      this.gate, this.maxRecordBytes, this.clock, this.tenant := gate, maxRecordBytes, clock, [];
    }

    ghost predicate Valid()
      reads this, store, engine
    {
      && engine.store == store && engine.Valid()
      && gate.maxSkewMs <= SKEW_BUDGET_MS && Filed(store.byTopic)
    }

    /** The clock dominates the store. */
    ghost predicate Ahead()
      reads this, store
    {
      Dominates(clock, store.byTopic)
    }

    /** The node as a run sees it while this thread carries `pending`. */
    ghost function State(pending: map<nat, Record>): NodeState
      reads this, store
    {
      NodeState(clock, store.byTopic, pending)
    }

    /** Gate, then observe: the record is admitted exactly if the gate lets it through. */
    method Observe(r: Record, gateWall: nat, observeWall: nat) returns (admitted: bool)
      requires Valid() && gateWall <= observeWall < WALLS
      modifies this`clock
      ensures admitted <==> Admits(gate, r, gateWall)
      ensures State(if admitted then map[0 := r] else map[]) ==
              NodeStep(store.cfg, gate, old(State(map[])), NodeEvent.Observe(0, r, gateWall, observeWall))
      ensures old(clock) <= clock && (admitted ==> r.hlc <= clock)
    {
      admitted := Admits(gate, r, gateWall);
      if admitted {
        ObserveAdvances(clock, r.hlc, observeWall);
        clock := ObserveNext(clock, r.hlc, observeWall);
      }
    }

    /** Apply what the thread carries. */
    method Put(r: Record, now: int) returns (applied: bool)
      requires Valid()
      modifies store
      ensures Valid() && applied == Apply(store.cfg, old(store.byTopic), r, now).1.applied
      ensures State(map[]) == NodeStep(store.cfg, gate, old(State(map[0 := r])), NodeEvent.Put(0, now))
      ensures old(Ahead()) && r.hlc <= clock ==> Ahead()
      ensures engine.State() == With(old(engine.State()), store.byTopic)
    {
      ApplyFiled(store.cfg, store.byTopic, r, now);
      if Ahead() && r.hlc <= clock {
        ApplyBelow(store.cfg, store.byTopic, r, now, clock);
      }
      var replaced, accumulated;
      applied, replaced, accumulated := store.ApplyExt(r, now);
    }

    /** An inbound record, when no other thread comes in between: observed, then applied, and the
        clock stays ahead. */
    method Receive(r: Record, gateWall: nat, observeWall: nat, now: int) returns (applied: bool)
      requires Valid() && gateWall <= observeWall < WALLS
      modifies this`clock, store
      ensures Valid() && old(clock) <= clock && (old(Ahead()) ==> Ahead()) && (applied ==> Admits(gate, r, gateWall))
      ensures State(map[]) ==
              var n := NodeStep(store.cfg, gate, old(State(map[])), NodeEvent.Observe(0, r, gateWall, observeWall));
              NodeStep(store.cfg, gate, n, NodeEvent.Put(0, now))
    {
      ghost var before, st := clock, store.byTopic;
      var admitted := Observe(r, gateWall, observeWall);
      if !admitted {
        return false;
      }
      if Dominates(before, st) {
        DominatesLater(before, clock, st);
      }
      applied := Put(r, now);
    }

    /** Stamp and sign a record of this node. */
    method Stamp(topic: Topic, key: Key, body: Bytes, tombstone: bool, sign: Record -> Bytes, wall: nat)
      returns (r: Record)
      requires Valid() && wall < WALLS && Signs(sign)
      modifies this`clock
      ensures clock == r.hlc == NowNext(old(clock), wall)
      ensures r == Record(topic, id, r.hlc, body, tombstone, pub, sign(r.(sig := [])), key, [], 0) && r.IsSigned()
      ensures State(map[0 := r]) == NodeStep(store.cfg, gate, old(State(map[])), NodeEvent.Stamp(0, r, wall))
      ensures old(Ahead()) && HasTick(old(clock), wall) ==> Ahead() && old(clock) < clock
    {
      if Ahead() && HasTick(clock, wall) {
        NowGrowsIff(clock, wall);
        DominatesLater(clock, NowNext(clock, wall), store.byTopic);
      }
      clock := NowNext(clock, wall);
      r := Record(topic, id, clock, body, tombstone, pub, [], key, [], 0);
      assert r.(sig := []) == r && sign(r) != [];
      r := r.(sig := sign(r));
    }

    /** Apply what the thread carries, and send it if that changed the store. */
    method PutAndSend(r: Record, now: int, open: set<NodeID>)
      returns (pushes: seq<Plumtree.Push>, notes: seq<Plumtree.Note>)
      requires Valid()
      modifies store, engine
      ensures Valid() && store.byTopic == Apply(store.cfg, old(store.byTopic), r, now).0
      ensures Plumtree.Sent(engine.State(), multiset(pushes), multiset(notes)) ==
              Plumtree.PublishStep(engine.p, old(engine.State()), r, now, open)
    {
      ApplyFiled(store.cfg, store.byTopic, r, now);
      pushes, notes := engine.Publish(r, now, open);
    }

    /** Apply what the thread carries, and send it whatever the store made of it. */
    method PutAndSpread(r: Record, now: int, open: set<NodeID>)
      returns (applied: bool, pushes: seq<Plumtree.Push>, notes: seq<Plumtree.Note>)
      requires Valid()
      modifies store, engine
      ensures Valid() && (store.byTopic, applied) ==
              var (st, out) := Apply(store.cfg, old(store.byTopic), r, now); (st, out.applied)
      ensures Plumtree.Sent(engine.State(), multiset(pushes), multiset(notes)) ==
              Plumtree.BroadcastStep(engine.p, With(old(engine.State()), store.byTopic), r, open)
    {
      applied := Put(r, now);
      pushes, notes := engine.Broadcast(r, open);
    }

    /** Publishing, live or as a tombstone: refused if too large, otherwise stamped, signed, applied
        and, if that changed the store, sent; subscribers are told in any case. When no other thread
        comes in between, the clock is ahead and can tick, an existing own slot is always taken. */
    method PublishKeyed(topic: Topic, key: Key, body: Bytes, tombstone: bool, sign: Record -> Bytes,
                        wall: nat, now: int, open: set<NodeID>)
      returns (r: Record, ok: bool, told: seq<Record>, pushes: seq<Plumtree.Push>, notes: seq<Plumtree.Note>)
      requires Valid() && wall < WALLS && Signs(sign)
      modifies this`clock, store, engine
      ensures Valid()
      ensures ok <==> |body| <= maxRecordBytes && |key| <= MAX_KEY_BYTES
      ensures !ok ==> clock == old(clock) && engine.State() == old(engine.State())
      ensures !ok ==> told == [] && pushes == [] && notes == []
      ensures ok ==> r == Record(topic, id, r.hlc, body, tombstone, pub, sign(r.(sig := [])), key, [], 0) && told == [r]
      ensures ok ==> Plumtree.Sent(engine.State(), multiset(pushes), multiset(notes)) ==
                     Plumtree.PublishStep(engine.p, old(engine.State()), r, now, open)
      ensures ok ==> State(map[]) ==
                     var n := NodeStep(store.cfg, gate, old(State(map[])), NodeEvent.Stamp(0, r, wall));
                     NodeStep(store.cfg, gate, n, NodeEvent.Put(0, now))
      ensures old(Ahead()) && HasTick(old(clock), wall) ==> Ahead()
      ensures old(Ahead()) && HasTick(old(clock), wall) && ok && Held(old(store.byTopic), topic, Slot(id, key)) ==>
                PutsOne(old(store.byTopic), store.byTopic, r)
    {
      told, pushes, notes := [], [], [];
      if |body| > maxRecordBytes || |key| > MAX_KEY_BYTES {
        return Record(topic, id, 0, body, tombstone, [], [], key, [], 0), false, told, pushes, notes;
      }
      ghost var before, st := clock, store.byTopic;
      r := Stamp(topic, key, body, tombstone, sign, wall);
      if Dominates(before, st) && HasTick(before, wall) && Held(st, topic, Slot(id, key)) {
        LocalWins(store.cfg, st, before, r, wall, now);
      }
      PutIs(store.cfg, gate, clock, st, r, now);
      if Dominates(before, st) && HasTick(before, wall) {
        ApplyBelow(store.cfg, st, r, now, clock);
      }
      pushes, notes := PutAndSend(r, now, open);
      ok, told := true, [r];
    }

    /** Moving to a new tenant touches nobody else's slots, and stamps and broadcasts one tombstone
        for each slot this node holds, on every topic, telling subscribers of those that the store
        took; and when no other thread comes in between, the clock is ahead and can tick for each of
        them, it took all of them. */
    method SetTenant(tenantID: Bytes, sign: Record -> Bytes, walls: nat -> nat, now: int, open: set<NodeID>)
      returns (mine: seq<(Topic, Slot)>, out: Outbox)
      requires Valid() && Signs(sign) && forall i: nat :: walls(i) < WALLS
      modifies this, store, engine
      ensures Valid() && tenant == tenantID
      ensures tenantID == old(tenant) ==>
                clock == old(clock) && engine.State() == old(engine.State()) && out == Outbox([], [], [], [])
      ensures tenantID != old(tenant) ==> Lists(mine, old(store.byTopic), id)
      ensures Tombstones(out.tombs, mine)
      ensures Broadcasts(engine.p, old(engine.State()), engine.State(), open, out.tombs, out.pushes, out.notes)
      ensures OthersKept(old(store.byTopic), store.byTopic, id)
      ensures old(Ahead()) && TicksFor(old(clock), walls, 0, |OwnSlots(old(store.byTopic), id)|) ==>
                Ahead() && out.told == out.tombs && (tenantID != old(tenant) ==> NoneLive(store.byTopic, id))
    {
      ghost var led := Ahead() && TicksFor(clock, walls, 0, |OwnSlots(store.byTopic, id)|);
      var prev := tenant;
      tenant := tenantID;
      if prev == tenantID {
        mine, out := [], Outbox([], [], [], []);
        PostedNone(engine.p, engine.State(), open, led);
      } else {
        mine, out := RetireOwn(sign, walls, now, open, led);
      }
    }

    /** The snapshot of own slots, and the loop over it. */
    method RetireOwn(sign: Record -> Bytes, walls: nat -> nat, now: int, open: set<NodeID>, ghost led: bool)
      returns (mine: seq<(Topic, Slot)>, out: Outbox)
      requires Valid() && Signs(sign) && forall i: nat :: walls(i) < WALLS
      requires led ==> Ahead() && TicksFor(clock, walls, 0, |OwnSlots(store.byTopic, id)|)
      modifies this`clock, store, engine
      ensures Valid() && OthersKept(old(store.byTopic), store.byTopic, id)
      ensures Lists(mine, old(store.byTopic), id) && Tombstones(out.tombs, mine)
      ensures Broadcasts(engine.p, old(engine.State()), engine.State(), open, out.tombs, out.pushes, out.notes)
      ensures led ==> Ahead() && out.told == out.tombs && NoneLive(store.byTopic, id)
    {
      ghost var before := store.byTopic;
      mine := CollectOwn(store.byTopic, id);
      ListedHeld(before, id, mine);
      out := RetireAll(mine, sign, walls, now, open, led);
      if led {
        RetiredNoneLive(before, store.byTopic, id, mine);
      }
    }

    /** The loop of SetTenant over the snapshot of own slots. */
    method RetireAll(mine: seq<(Topic, Slot)>, sign: Record -> Bytes, walls: nat -> nat, now: int, open: set<NodeID>,
                     ghost led: bool)
      returns (out: Outbox)
      requires Valid() && Signs(sign) && Holds(store.byTopic, id, mine) && forall i: nat :: walls(i) < WALLS
      requires led ==> Ahead() && TicksFor(clock, walls, 0, |mine|)
      modifies this`clock, store, engine
      ensures Valid() && OthersKept(old(store.byTopic), store.byTopic, id)
      ensures Posted(engine.p, old(engine.State()), engine.State(), open, out, mine, led)
      ensures led ==> Ahead() && Retired(store.byTopic, mine)
    {
      ghost var before, e := store.byTopic, engine.State();
      out := Outbox([], [], [], []);
      PostedNone(engine.p, e, open, led);
      assert mine[..0] == [];
      for i := 0 to |mine|
        invariant Midway(before, mine, walls, i, led)
        invariant Posted(engine.p, e, engine.State(), open, out, mine[..i], led)
      {
        out := RetireNext(before, e, mine, i, sign, walls, now, open, led, out);
      }
      assert mine[..|mine|] == mine;
    }

    /** Nothing but own slots changed; and the first `i` of them are tombstones if the clock was ahead. */
    ghost predicate Midway(before: Stores, mine: seq<(Topic, Slot)>, walls: nat -> nat, i: nat, led: bool)
      reads this, store, engine
      requires i <= |mine|
    {
      && Valid() && OthersKept(before, store.byTopic, id)
      && (led ==> Ahead() && Retired(store.byTopic, mine[..i]) && TicksFor(clock, walls, i, |mine| - i))
    }

    method RetireNext(ghost before: Stores, ghost e: Plumtree.Engine, mine: seq<(Topic, Slot)>, i: nat,
                      sign: Record -> Bytes, walls: nat -> nat, now: int, open: set<NodeID>, ghost led: bool,
                      out: Outbox)
      returns (out': Outbox)
      requires i < |mine| && Midway(before, mine, walls, i, led) && Signs(sign) && Holds(before, id, mine)
      requires walls(i) < WALLS && Posted(engine.p, e, engine.State(), open, out, mine[..i], led)
      modifies this`clock, store, engine
      ensures Midway(before, mine, walls, i + 1, led)
      ensures Posted(engine.p, e, engine.State(), open, out', mine[..i + 1], led)
    {
      ghost var mid, was := store.byTopic, engine.State();
      HoldsKept(before, mid, id, mine, i);
      var tomb, applied, pushes, notes := Retire(mine[i].0, mine[i].1.key, sign, walls(i), now, open);
      PostedStep(engine.p, e, was, engine.State(), open, out, mine, i, led, store.byTopic, tomb, applied, pushes,
                 notes);
      out' := Posting(out, tomb, applied, pushes, notes);
      OthersKeptTransitive(before, mid, store.byTopic, id);
      if led {
        RetiredStep(mid, store.byTopic, mine, i);
      }
    }

    /** Stamps, applies and broadcasts a tombstone for one slot that this node holds. */
    method Retire(topic: Topic, key: Key, sign: Record -> Bytes, wall: nat, now: int, open: set<NodeID>)
      returns (tomb: Record, applied: bool, pushes: seq<Plumtree.Push>, notes: seq<Plumtree.Note>)
      requires Valid() && wall < WALLS && Signs(sign) && Held(store.byTopic, topic, Slot(id, key))
      modifies this`clock, store, engine
      ensures Valid() && clock == NowNext(old(clock), wall)
      ensures OthersKept(old(store.byTopic), store.byTopic, id)
      ensures IsTombstone(tomb, (topic, Slot(id, key)))
      ensures Plumtree.Sent(engine.State(), multiset(pushes), multiset(notes)) ==
              Plumtree.BroadcastStep(engine.p, With(old(engine.State()), store.byTopic), tomb, open)
      ensures old(Ahead()) && HasTick(old(clock), wall) ==>
                Ahead() && applied && RetiresOne(old(store.byTopic), store.byTopic, topic, Slot(id, key))
    {
      ghost var before, st := clock, store.byTopic;
      tomb := Stamp(topic, key, [], true, sign, wall);
      LocalPutsAtMostOne(store.cfg, st, tomb, now);
      if Dominates(before, st) && HasTick(before, wall) {
        LocalRetires(store.cfg, st, before, tomb, wall, now);
        ApplyBelow(store.cfg, st, tomb, now, clock);
      }
      applied, pushes, notes := PutAndSpread(tomb, now, open);
    }
  }

  predicate IsTombstone(r: Record, p: (Topic, Slot)) {
    r.tombstone && !r.IsAttestation() && r.topic == p.0 && SlotOf(r) == p.1
  }

  /** One tombstone for each slot of the list. */
  predicate Tombstones(tombs: seq<Record>, mine: seq<(Topic, Slot)>) {
    |tombs| == |mine| && forall i | 0 <= i < |tombs| :: IsTombstone(tombs[i], mine[i])
  }

  /** The list has the node's slots, each once. */
  ghost predicate Lists(mine: seq<(Topic, Slot)>, st: Stores, id: NodeID) {
    |mine| == |OwnSlots(st, id)| && forall p :: p in mine <==> p in OwnSlots(st, id)
  }

  ghost predicate Signs(sign: Record -> Bytes) {
    forall x :: sign(x) != []
  }

  /** Of all slots only the named one changed, and it became a tombstone. */
  ghost predicate RetiresOne(before: Stores, after: Stores, topic: Topic, k: Slot) {
    && topic in before && before.Keys == after.Keys
    && (forall t | t in before && t != topic :: after[t].records == before[t].records)
    && k in after[topic].records && after[topic].records[k].tombstone
    && after[topic].records == before[topic].records[k := after[topic].records[k]]
  }

  ghost predicate IsRetired(st: Stores, t: Topic, k: Slot) {
    t in st && k in st[t].records && st[t].records[k].tombstone
  }

  ghost predicate Retired(st: Stores, done: seq<(Topic, Slot)>) {
    forall j | 0 <= j < |done| :: IsRetired(st, done[j].0, done[j].1)
  }

  lemma {:induction false} RetiredStep(before: Stores, after: Stores, mine: seq<(Topic, Slot)>, i: nat)
    requires i < |mine| && Retired(before, mine[..i]) && RetiresOne(before, after, mine[i].0, mine[i].1)
    ensures Retired(after, mine[..i + 1])
  {
    forall j | 0 <= j < i + 1
      ensures IsRetired(after, mine[j].0, mine[j].1)
    {
      assert j < i ==> IsRetired(before, mine[..i][j].0, mine[..i][j].1);
    }
  }

  lemma {:induction false} ListedHeld(st: Stores, id: NodeID, mine: seq<(Topic, Slot)>)
    requires Lists(mine, st, id)
    ensures Holds(st, id, mine)
  {
  }

  lemma {:induction false} HoldsKept(before: Stores, after: Stores, id: NodeID, mine: seq<(Topic, Slot)>, i: nat)
    requires OthersKept(before, after, id) && Holds(before, id, mine) && i < |mine|
    ensures mine[i].0 in after && mine[i].1 in after[mine[i].0].records && mine[i].1 == Slot(id, mine[i].1.key)
  {
    assert mine[i] in mine;
  }

  lemma {:induction false} RetiredNoneLive(before: Stores, st: Stores, id: NodeID, mine: seq<(Topic, Slot)>)
    requires Retired(st, mine) && Lists(mine, before, id) && OthersKept(before, st, id)
    ensures NoneLive(st, id)
  {
    OwnSlotsKept(before, st, id);
    forall t, k | t in st && k in st[t].records && k.node == id
      ensures st[t].records[k].tombstone
    {
      assert (t, k) in OwnSlots(st, id);
      var j :| 0 <= j < |mine| && mine[j] == (t, k);
      assert IsRetired(st, mine[j].0, mine[j].1);
    }
  }

  /** The snapshot of own slots, in map order. */
  method CollectOwn(st: Stores, id: NodeID) returns (mine: seq<(Topic, Slot)>)
    ensures Lists(mine, st, id)
  {
    mine := [];
    var rest := OwnSlots(st, id);
    while rest != {}
      invariant rest <= OwnSlots(st, id) && |mine| + |rest| == |OwnSlots(st, id)|
      invariant forall p :: p in mine <==> p in OwnSlots(st, id) && p !in rest
      decreases rest
    {
      var p :| p in rest;
      rest, mine := rest - {p}, mine + [p];
    }
  }

  lemma {:induction false} OthersKeptTransitive(a: Stores, b: Stores, c: Stores, id: NodeID)
    requires OthersKept(a, b, id) && OthersKept(b, c, id)
    ensures OthersKept(a, c, id)
  {
    forall t | t in a
      ensures a[t].records.Keys == c[t].records.Keys && SameOutside(a[t].records, c[t].records, id)
    {
      assert SameOutside(a[t].records, b[t].records, id) && SameOutside(b[t].records, c[t].records, id);
    }
  }
}
