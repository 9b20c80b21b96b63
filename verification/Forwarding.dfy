/** What a node sends and to whom, frame by frame: a record that is accepted or published goes to the
    tree edges and is announced to the rest, a fresh attestation travels on, and what brings nothing
    new cuts the edge it came by. */
module Forwarding {
  import opened Records
  import opened Finite
  import opened Store
  import opened Plumtree
  import opened Quorum

  /** One push of the record to each of `dst`, and no other. */
  ghost predicate PushesExactly(pushes: multiset<Push>, self: NodeID, dst: set<NodeID>, r: Record, ttl: nat) {
    forall x: Push :: pushes[x] == if x.dst in dst && x == Push(self, x.dst, r, ttl) then 1 else 0
  }

  /** One announcement of the record to each of `dst`, and nothing else. */
  ghost predicate AnnouncesExactly(notes: multiset<Note>, self: NodeID, dst: set<NodeID>, r: Record) {
    forall x: Note :: notes[x] == if x.dst in dst && x == IHave(self, x.dst, WantedOf(r)) then 1 else 0
  }

  lemma {:induction false} PushesEach(dst: set<NodeID>, self: NodeID, r: Record, ttl: nat)
    ensures PushesExactly(ToEach(dst, PushTo(self, r, ttl)), self, dst, r, ttl)
  {
    if dst != {} {
      PushesEach(dst - {Pick(dst)}, self, r, ttl);
    }
  }

  lemma {:induction false} AnnouncesEach(dst: set<NodeID>, self: NodeID, r: Record)
    ensures AnnouncesExactly(ToEach(dst, AnnounceTo(self, r)), self, dst, r)
  {
    if dst != {} {
      AnnouncesEach(dst - {Pick(dst)}, self, r);
    }
  }

  /** The record goes on to each of `dst` with one hop less, if it has hops left. */
  ghost predicate SendsOn(pushes: multiset<Push>, self: NodeID, dst: set<NodeID>, r: Record, ttl: nat) {
    if ttl > 1 then PushesExactly(pushes, self, dst, r, ttl - 1) else pushes == multiset{}
  }

  lemma {:induction false} SentOver(s: Sent, self: NodeID, src: NodeID, r: Record, ttl: nat, edge: NodeID)
    requires SendsOn(s.pushes, self, s.e.tree - {src}, r, ttl) && ttl > 1 && edge in s.e.tree && edge != src
    ensures s.pushes[Push(self, edge, r, ttl - 1)] == 1
  {
  }

  // ---------- tree edges ----------

  /** The tree has grown by peers, and has as many edges as the degree calls for and there are. */
  ghost predicate MadeUp(p: Params, e: Engine, tree: set<NodeID>) {
    e.tree <= tree <= e.peers && (p.treeDegree <= |tree| || tree == e.peers)
  }

  lemma {:induction false} BestMakesUp(p: Params, e: Engine)
    requires e.tree <= e.peers
    ensures MadeUp(p, e, BestTree(p, e))
  {
    BestIsBest(p, e);
    var rest, best := e.peers - e.tree, BestChoice(p, e);
    assert |BestTree(p, e)| == |e.tree| + |best|;
    if Need(p, e) > |rest| {
      SubsetFull(best, rest);
      assert BestTree(p, e) == e.peers;
    }
  }

  /** An edge is added for the peer exactly if it is one already or there are fewer than four times
      the degree; and no other edge changes. */
  ghost predicate EdgeAdded(p: Params, before: set<NodeID>, after: set<NodeID>, peer: NodeID) {
    && after - {peer} == before - {peer}
    && (peer in after <==> peer in before || |before| < 4 * p.treeDegree)
  }

  lemma {:induction false} PromoteIs(p: Params, e: Engine, peer: NodeID)
    ensures var e' := Promote(p, e, peer);
      && EdgeAdded(p, e.tree, e'.tree, peer) && e'.peers == e.peers + (e'.tree - e.tree)
      && e'.st == e.st && e'.missing == e.missing
  {
    if peer !in e.tree && |e.tree| < 4 * p.treeDegree {
      assert e.tree + {peer} - e.tree == {peer};
      assert e.tree + {peer} - {peer} == e.tree - {peer};
    } else {
      assert e.peers + (e.tree - e.tree) == e.peers;
    }
  }

  // ---------- an eager push ----------

  /** The slots of the topic are changed by the record. */
  ghost predicate ChangesRecords(p: Params, st: Stores, r: Record, now: int) {
    TopicOf(Apply(p.c, st, r, now).0, r.topic).records != TopicOf(st, r.topic).records
  }

  ghost predicate ChangesWitnesses(p: Params, st: Stores, r: Record, now: int) {
    Witnesses(TopicOf(Apply(p.c, st, r, now).0, r.topic), r.nodeID) != Witnesses(TopicOf(st, r.topic), r.nodeID)
  }

  lemma {:induction false} AppliedIff(p: Params, st: Stores, r: Record, now: int)
    ensures Apply(p.c, st, r, now).1.applied <==> ChangesRecords(p, st, r, now)
  {
    TopicStepAdvances(p.c, TopicOf(st, r.topic), r, now);
  }

  /** A push that the gate turns away does nothing. */
  lemma {:induction false} GateStops(p: Params, e: Engine, f: Push, now: int, open: set<NodeID>)
    requires !p.admit(f.r)
    ensures PushStep(p, e, f, now, open) == Sent(e, multiset{}, multiset{})
  {
  }

  /** A push that changes a slot makes its sender a tree edge, within the bound, is no longer missed,
      goes on to the other tree edges while it has hops left, and is announced to the open rest. */
  lemma {:induction false} AcceptSends(p: Params, e: Engine, f: Push, now: int, open: set<NodeID>)
    requires p.admit(f.r) && ChangesRecords(p, e.st, f.r, now)
    ensures var s := PushStep(p, e, f, now, open);
      && s.e.st == Apply(p.c, e.st, f.r, now).0 && s.e.missing == e.missing - {WantedOf(f.r)}
      && EdgeAdded(p, e.tree, s.e.tree, f.src) && s.e.peers == e.peers + (s.e.tree - e.tree)
      && SendsOn(s.pushes, p.self, s.e.tree - {f.src}, f.r, f.ttl)
      && AnnouncesExactly(s.notes, p.self, (s.e.peers - s.e.tree) * open, f.r)
  {
    AppliedIff(p, e.st, f.r, now);
    PromoteIs(p, e, f.src);
    var s := PushStep(p, e, f, now, open);
    assert s == EagerStep(p, e, f, now, open);
    if f.ttl > 1 {
      PushesEach(s.e.tree - {f.src}, p.self, f.r, f.ttl - 1);
    }
    AnnouncesEach((s.e.peers - s.e.tree) * open, p.self, f.r);
  }

  /** The store takes the attestation in: it is credible, there is something left to claim, it says
      more than is on file, and the topic has its place. */
  ghost predicate TakesIn(p: Params, st: Stores, r: Record, now: int) {
    var ts := TopicOf(st, r.topic);
    && (r.topic in st || |st| < p.c.maxTopics)
    && Credible(p.c, ts, r, now) && Claimable(ts.records, r.nodeID, r.hlc)
    && SaysMore(p.c, Witnesses(ts, r.nodeID), r)
  }

  lemma {:induction false} TakesInIs(p: Params, st: Stores, r: Record, now: int)
    requires r.IsAttestation()
    ensures TakesIn(p, st, r, now) <==> Apply(p.c, st, r, now).1.accumulated
    ensures ChangesWitnesses(p, st, r, now) ==> TakesIn(p, st, r, now)
  {
    OutcomeMeans(p.c, TopicOf(st, r.topic), r, now);
  }

  /** An attestation that changes no slot but is taken in goes on to every tree edge but the one it
      came by, with one hop less, after the edges have been made up. */
  lemma {:induction false} RelaySends(p: Params, e: Engine, f: Push, now: int, open: set<NodeID>)
    requires p.admit(f.r) && f.r.IsAttestation() && e.tree <= e.peers
    requires !ChangesRecords(p, e.st, f.r, now) && TakesIn(p, e.st, f.r, now)
    ensures var s := PushStep(p, e, f, now, open);
      && s.e.st == Apply(p.c, e.st, f.r, now).0 && s.e.missing == e.missing && s.e.peers == e.peers
      && (f.ttl > 1 ==> MadeUp(p, e, s.e.tree))
      && SendsOn(s.pushes, p.self, s.e.tree - {f.src}, f.r, f.ttl)
      && s.notes == multiset{}
  {
    AppliedIff(p, e.st, f.r, now);
    TakesInIs(p, e.st, f.r, now);
    BestMakesUp(p, e);
    if f.ttl > 1 {
      PushesEach(BestTree(p, e) - {f.src}, p.self, f.r, f.ttl - 1);
    }
  }

  /** The push brings nothing: it changes no slot and, if an attestation, is not taken in. */
  ghost predicate Redundant(p: Params, e: Engine, f: Push, now: int) {
    && p.admit(f.r) && !ChangesRecords(p, e.st, f.r, now)
    && (f.r.IsAttestation() ==> !TakesIn(p, e.st, f.r, now))
  }

  /** The store has the topic open and knows better: the slot is held, or the attestation is credible
      and still not news. */
  ghost predicate KnowsBetter(p: Params, st: Stores, r: Record, now: int) {
    && (r.topic in st || |st| < p.c.maxTopics)
    && if r.IsAttestation() then Credible(p.c, TopicOf(st, r.topic), r, now)
       else SlotOf(r) in TopicOf(st, r.topic).records
  }

  /** What brings nothing goes no further; if the store knows better, the edge it came by is one too
      many and is told so. */
  lemma {:induction false} RedundantSends(p: Params, e: Engine, f: Push, now: int, open: set<NodeID>)
    requires Redundant(p, e, f, now)
    ensures var s := PushStep(p, e, f, now, open);
      && s.e.tree == e.tree && s.e.peers == e.peers && s.e.missing == e.missing && s.pushes == multiset{}
      && s.notes == if KnowsBetter(p, e.st, f.r, now) then multiset{Prune(p.self, f.src, f.r.topic)} else multiset{}
  {
    AppliedIff(p, e.st, f.r, now);
    if f.r.IsAttestation() {
      TakesInIs(p, e.st, f.r, now);
    }
    OutcomeMeans(p.c, TopicOf(e.st, f.r.topic), f.r, now);
  }

  /** The far end of a redundant edge: when the prune arrives there the edge is gone, and what that
      node next accepts from another is not pushed over it but, if it is open, announced. */
  lemma {:induction false} PruneCuts(p: Params, e: Engine, f: Push, now: int, open: set<NodeID>,
                                     q: Params, far: Engine, g: Push, later: int, open': set<NodeID>)
    requires Redundant(p, e, f, now) && KnowsBetter(p, e.st, f.r, now) && q.self == f.src
    requires q.admit(g.r) && g.src != p.self && ChangesRecords(q, far.st, g.r, later)
    ensures Prune(p.self, q.self, f.r.topic) in PushStep(p, e, f, now, open).notes
    ensures var s := PushStep(q, PruneStep(far, p.self), g, later, open');
      && (forall x | x in s.pushes :: x.dst != p.self)
      && (p.self in open' ==> IHave(q.self, p.self, WantedOf(g.r)) in s.notes)
  {
    RedundantSends(p, e, f, now, open);
    NotOverACutEdge(q, PruneStep(far, p.self), g, later, open', p.self);
  }

  /** What is accepted from another goes to a peer that is not an edge as an announcement only. */
  lemma {:induction false} NotOverACutEdge(p: Params, e: Engine, f: Push, now: int, open: set<NodeID>, n: NodeID)
    requires p.admit(f.r) && ChangesRecords(p, e.st, f.r, now) && n !in e.tree && n in e.peers && n != f.src
    ensures var s := PushStep(p, e, f, now, open);
      && (forall x | x in s.pushes :: x.dst != n)
      && (n in open ==> IHave(p.self, n, WantedOf(f.r)) in s.notes)
  {
    AcceptSends(p, e, f, now, open);
    var s := PushStep(p, e, f, now, open);
    assert n !in s.e.tree && n in s.e.peers by {
      assert n !in e.tree - {f.src};
    }
    if f.ttl > 1 {
      PushedWithin(s.pushes, p.self, s.e.tree - {f.src}, f.r, f.ttl - 1);
    }
  }

  lemma {:induction false} PushedWithin(pushes: multiset<Push>, self: NodeID, dst: set<NodeID>, r: Record, ttl: nat)
    requires PushesExactly(pushes, self, dst, r, ttl)
    ensures forall x | x in pushes :: x.dst in dst
  {
    forall x | x in pushes
      ensures x.dst in dst
    {
      assert pushes[x] > 0;
    }
  }

  /** A graft makes the one who asks a tree edge, within the bound. */
  lemma {:induction false} GraftPromotes(p: Params, e: Engine, g: Graft)
    ensures var e' := GraftStep(p, e, g).0;
      && EdgeAdded(p, e.tree, e'.tree, g.src) && e'.peers == e.peers + (e'.tree - e.tree)
      && e'.st == e.st && e'.missing == e.missing
  {
    PromoteIs(p, e, g.src);
  }

  // ---------- local records ----------

  /** A publish that changes a slot is pushed, with eight hops, to every tree edge, after the edges
      have been made up, and announced to the open rest; one that does not sends nothing. */
  lemma {:induction false} PublishSends(p: Params, e: Engine, r: Record, now: int, open: set<NodeID>)
    requires e.tree <= e.peers
    ensures var s := PublishStep(p, e, r, now, open);
      && s.e.st == Apply(p.c, e.st, r, now).0 && s.e.peers == e.peers && s.e.missing == e.missing
      && if ChangesRecords(p, e.st, r, now) then
           && MadeUp(p, e, s.e.tree) && PushesExactly(s.pushes, p.self, s.e.tree, r, 8)
           && AnnouncesExactly(s.notes, p.self, (e.peers - s.e.tree) * open, r)
         else
           s.e.tree == e.tree && s.pushes == multiset{} && s.notes == multiset{}
  {
    AppliedIff(p, e.st, r, now);
    BestMakesUp(p, e);
    PushesEach(BestTree(p, e), p.self, r, 8);
    AnnouncesEach((e.peers - BestTree(p, e)) * open, p.self, r);
  }

  /** A broadcast is sent whether or not it changed anything. */
  lemma {:induction false} BroadcastSends(p: Params, e: Engine, r: Record, open: set<NodeID>)
    requires e.tree <= e.peers
    ensures var s := BroadcastStep(p, e, r, open);
      && s.e.st == e.st && s.e.peers == e.peers && s.e.missing == e.missing
      && MadeUp(p, e, s.e.tree) && PushesExactly(s.pushes, p.self, s.e.tree, r, 8)
      && AnnouncesExactly(s.notes, p.self, (e.peers - s.e.tree) * open, r)
  {
    BestMakesUp(p, e);
    PushesEach(BestTree(p, e), p.self, r, 8);
    AnnouncesEach((e.peers - BestTree(p, e)) * open, p.self, r);
  }
}
