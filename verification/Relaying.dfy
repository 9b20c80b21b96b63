/** Attestations across a network: one that a node takes in is heard by every tree edge the node then
    has, once the network has fallen quiet without losing frames. */
module Relaying {
  import opened Bytes
  import opened Records
  import opened Finite
  import opened Store
  import opened Plumtree
  import opened Forwarding
  import opened Quorum
  import opened Hearing
  import opened Dissemination
  import Nodes

  /** A body of attestations against one node on one topic, and the topics there are. */
  datatype Case = Case(topic: Topic, target: NodeID, claims: set<Record>, topics: set<Topic>)

  predicate About(k: Case, r: Record) {
    r.topic == k.topic && r.nodeID == k.target
  }

  ghost function ObserversOf(k: Case): set<NodeID> {
    set a | a in k.claims :: a.observer
  }

  /** Every node lets all the claims in: they pass its gate and role check, lie within its window of
      each other, and there is room for their observers and for the topics; and what one observer
      claims rises on both scales alike. */
  ghost predicate Receptive(p: Params, k: Case) {
    && p.c.windowMs < TWO_63 && |ObserversOf(k)| <= p.c.maxAttestations && |k.topics| <= p.c.maxTopics
    && (forall a | a in k.claims :: p.admit(a) && p.c.role(a.observer, a.pubKey))
    && (forall a, b | a in k.claims && b in k.claims :: Agrees(p.c, b, a))
  }

  ghost predicate WellPosed(k: Case) {
    && k.topic in k.topics
    && forall a | a in k.claims :: a.IsAttestation() && About(k, a) && 0 <= a.observedAt < TWO_63
  }

  /** A topic in which nothing but the claims is on file against the target, none of them fenced off. */
  ghost predicate Clear(k: Case, ts: TopicState) {
    && (forall o | o in Witnesses(ts, k.target) :: Witnesses(ts, k.target)[o] in k.claims)
    && (k.target in ts.restoredAt ==> forall a | a in k.claims :: ts.restoredAt[k.target] < a.observedAt)
  }

  ghost predicate Tuned(k: Case, st: Stores) {
    Nodes.Filed(st) && st.Keys <= k.topics && Clear(k, TopicOf(st, k.topic))
  }

  /** A frame brings no topic but those there are, and no attestation against the target but the
      claims. */
  ghost predicate Fit(k: Case, r: Record) {
    r.topic in k.topics && (About(k, r) && r.IsAttestation() ==> r in k.claims)
  }

  ghost predicate InTune(net: Network, w: World, k: Case) {
    && (forall n | n in w.nodes :: Receptive(net(n), k) && Tuned(k, w.nodes[n].st))
    && (forall f | f in w.pushes :: Fit(k, f.r))
  }

  /** While the case is open no record of the target itself arrives on the topic, and no claim is
      further ahead of the clock where it arrives than the ten minutes allowed. */
  ghost predicate Calm(k: Case, d: Delivery) {
    match d
    case PushArrives(f, now, _) =>
      About(k, f.r) ==> f.r.IsAttestation() && forall a | a in k.claims :: a.observedAt <= now + 600_000
    case Publishes(_, r, _, _) => r.topic in k.topics && !About(k, r)
    case _ => true
  }

  // ---------- one store ----------

  lemma {:induction false} ApplyOn(c: Config, st: Stores, r: Record, now: int, topic: Topic)
    ensures TopicOf(Apply(c, st, r, now).0, topic) ==
            if r.topic == topic && (topic in st || |st| < c.maxTopics) then TopicStep(c, TopicOf(st, topic), r, now).0
            else TopicOf(st, topic)
  {
  }

  /** A topic there is room for is taken in. */
  lemma {:induction false} TopicFits(c: Config, st: Stores, topics: set<Topic>, topic: Topic)
    requires st.Keys <= topics && topic in topics && |topics| <= c.maxTopics
    ensures topic in st || |st| < c.maxTopics
  {
    if topic !in st {
      SubsetCard(st.Keys + {topic}, topics);
      assert |st| == |st.Keys|;
    }
  }

  lemma {:induction false} StepClear(c: Config, k: Case, ts: TopicState, r: Record, now: int)
    requires WellPosed(k) && Clear(k, ts) && r.topic == k.topic && (r.nodeID == k.target ==> r in k.claims)
    ensures Clear(k, TopicStep(c, ts, r, now).0)
  {
    if r.nodeID == k.target {
      KeepsFences(c, ts, r, now);
      AttestWitnesses(c, ts, r, now, k.target);
    } else {
      OthersWitnesses(c, ts, r, now, k.target);
      OthersFence(c, ts, r, now, k.target);
    }
  }

  lemma {:induction false} ApplyTuned(c: Config, k: Case, st: Stores, r: Record, now: int)
    requires WellPosed(k) && Tuned(k, st) && r.topic in k.topics && (About(k, r) ==> r in k.claims)
    ensures Tuned(k, Apply(c, st, r, now).0)
  {
    Nodes.ApplyFiled(c, st, r, now);
    ApplyOn(c, st, r, now, k.topic);
    if r.topic == k.topic {
      StepClear(c, k, TopicOf(st, k.topic), r, now);
    }
  }

  lemma {:induction false} ClearAbreast(p: Params, k: Case, ts: TopicState, a: Record)
    requires WellPosed(k) && Receptive(p, k) && Clear(k, ts) && a in k.claims && WellFiled(ts)
    ensures Abreast(p.c, ts, a) && Witnesses(ts, k.target).Keys <= ObserversOf(k)
  {
    var w := Witnesses(ts, k.target);
    forall o | o in w
      ensures 0 <= w[o].observedAt < TWO_63 && KeepsUp(p.c, a, w[o])
    {
      assert Agrees(p.c, w[o], a);
    }
    forall o | o in w
      ensures o in ObserversOf(k)
    {
      assert WitnessesOf(k.target, w);
    }
  }

  predicate HeardAt(k: Case, st: Stores, a: Record) {
    Heard(TopicOf(st, k.topic), a)
  }

  lemma {:induction false} ApplyKeepsHeard(p: Params, k: Case, st: Stores, r: Record, now: int, a: Record)
    requires WellPosed(k) && Receptive(p, k) && Tuned(k, st) && a in k.claims && HeardAt(k, st, a)
    requires About(k, r) ==> r in k.claims
    ensures HeardAt(k, Apply(p.c, st, r, now).0, a)
  {
    var ts := TopicOf(st, k.topic);
    ApplyOn(p.c, st, r, now, k.topic);
    FiledTopic(st, k.topic);
    ClearAbreast(p, k, ts, a);
    if About(k, r) {
      StaysHeard(p.c, ts, r, now, a);
    } else if r.topic == k.topic {
      OthersApart(p.c, ts, r, now, k.target, a.hlc);
    }
  }

  lemma {:induction false} FiledTopic(st: Stores, topic: Topic)
    requires Nodes.Filed(st)
    ensures WellFiled(TopicOf(st, topic))
  {
    assert topic in st ==> Nodes.TopicFiled(st[topic], topic);
  }

  /** A claim that arrives is heard. */
  lemma {:induction false} ApplyHears(p: Params, k: Case, st: Stores, now: int, a: Record)
    requires WellPosed(k) && Receptive(p, k) && Tuned(k, st) && a in k.claims && a.observedAt <= now + 600_000
    ensures HeardAt(k, Apply(p.c, st, a, now).0, a)
  {
    var ts := TopicOf(st, k.topic);
    ApplyOn(p.c, st, a, now, k.topic);
    TopicFits(p.c, st, k.topics, k.topic);
    FiledTopic(st, k.topic);
    ClearAbreast(p, k, ts, a);
    var w := Witnesses(ts, k.target);
    if a.observer !in w {
      assert a.observer in ObserversOf(k);
      SubsetCard(w.Keys + {a.observer}, ObserversOf(k));
      assert |w| == |w.Keys|;
    }
    HearsIt(p.c, ts, a, now);
  }

  // ---------- one delivery ----------

  lemma {:induction false} PushStores(p: Params, e: Engine, f: Push, now: int, open: set<NodeID>)
    ensures PushStep(p, e, f, now, open).e.st == if p.admit(f.r) then Apply(p.c, e.st, f.r, now).0 else e.st
  {
  }

  /** New pushes carry the record that was pushed. */
  lemma {:induction false} PushCarries(p: Params, e: Engine, f: Push, now: int, open: set<NodeID>)
    ensures forall x | x in PushStep(p, e, f, now, open).pushes :: x.r == f.r
  {
    var s := PushStep(p, e, f, now, open);
    forall x | x in s.pushes
      ensures x.r == f.r
    {
      if Relays(p, e, f, now) {
        ToEachHas(BestTree(p, e) - {f.src}, PushTo(p.self, f.r, f.ttl - 1), x);
      } else {
        ToEachHas(s.e.tree - {f.src}, PushTo(p.self, f.r, f.ttl - 1), x);
      }
    }
  }

  lemma {:induction false} PublishCarries(p: Params, e: Engine, r: Record, now: int, open: set<NodeID>)
    ensures forall x | x in PublishStep(p, e, r, now, open).pushes :: x.r == r
    ensures PublishStep(p, e, r, now, open).e.st == Apply(p.c, e.st, r, now).0
  {
    var s := PublishStep(p, e, r, now, open);
    forall x | x in s.pushes
      ensures x.r == r
    {
      ToEachHas(s.e.tree, PushTo(p.self, r, EAGER_TTL), x);
    }
  }

  /** What a graft is answered with is no attestation, and of a topic there is. */
  lemma {:induction false} GraftCarries(p: Params, e: Engine, g: Graft, k: Case)
    requires Tuned(k, e.st)
    ensures forall x | x in GraftStep(p, e, g).1 :: Fit(k, x.r)
    ensures GraftStep(p, e, g).0.st == e.st
  {
    var held := Held(e.st, g.want);
    if SlotWanted(g.want) in held {
      assert Nodes.TopicFiled(e.st[g.want.topic], g.want.topic);
    }
  }

  /** What one delivery does to the stores: at most one node applies one record. */
  ghost predicate Touches(net: Network, w: World, d: Delivery, k: Case, w': World) {
    && w'.nodes.Keys == w.nodes.Keys
    && (forall n | n in w.nodes :: w'.nodes[n].st == w.nodes[n].st || AppliesAt(net, w, d, k, w', n))
    && (forall f | f in w'.pushes :: f in w.pushes || Fit(k, f.r))
  }

  ghost predicate AppliesAt(net: Network, w: World, d: Delivery, k: Case, w': World, n: NodeID)
    requires n in w.nodes && n in w'.nodes
  {
    exists r, now :: Gives(d, r, now) && Fit(k, r) && (About(k, r) ==> r in k.claims) &&
                     w'.nodes[n].st == Apply(net(n).c, w.nodes[n].st, r, now).0
  }

  predicate Gives(d: Delivery, r: Record, now: int) {
    (d.PushArrives? && d.f.r == r && d.now == now) || (d.Publishes? && d.r == r && d.now == now)
  }

  /** One node's engine is replaced, by one that applied a record or none. */
  lemma {:induction false} OneApplies(net: Network, w: World, d: Delivery, k: Case, w': World, n: NodeID, r: Record,
                                      now: int)
    requires n in w.nodes && w'.nodes.Keys == w.nodes.Keys &&
             (forall m | m in w.nodes && m != n :: w'.nodes[m] == w.nodes[m])
    requires Gives(d, r, now) && Fit(k, r) && (About(k, r) ==> r in k.claims)
    requires w'.nodes[n].st == w.nodes[n].st || w'.nodes[n].st == Apply(net(n).c, w.nodes[n].st, r, now).0
    requires forall f | f in w'.pushes :: f in w.pushes || f.r == r
    ensures Touches(net, w, d, k, w')
  {
    assert w'.nodes[n].st == w.nodes[n].st || AppliesAt(net, w, d, k, w', n);
  }

  lemma {:induction false} PushTouches(net: Network, w: World, d: Delivery, k: Case)
    requires WellPosed(k) && InTune(net, w, k) && Enabled(w, d) && Calm(k, d) && d.PushArrives?
    ensures Touches(net, w, d, k, Next(net, w, d))
  {
    var n, w' := d.f.dst, Next(net, w, d);
    var s := PushStep(net(n), w.nodes[n], d.f, d.now, d.open);
    PushStores(net(n), w.nodes[n], d.f, d.now, d.open);
    PushCarries(net(n), w.nodes[n], d.f, d.now, d.open);
    assert Fit(k, d.f.r);
    ReplacedBy(w, w', n, s.e, w.pushes - multiset{d.f}, s.pushes, d.f.r);
    OneApplies(net, w, d, k, w', n, d.f.r, d.now);
  }

  lemma {:induction false} ReplacedBy(w: World, w': World, n: NodeID, e: Engine, kept: multiset<Push>,
                                      sent: multiset<Push>, r: Record)
    requires n in w.nodes && w'.nodes == w.nodes[n := e] && w'.pushes == kept + sent
    requires (forall x | x in kept :: x in w.pushes) && (forall x | x in sent :: x.r == r)
    ensures w'.nodes.Keys == w.nodes.Keys && (forall m | m in w.nodes && m != n :: w'.nodes[m] == w.nodes[m])
    ensures w'.nodes[n] == e && forall x | x in w'.pushes :: x in w.pushes || x.r == r
  {
  }

  lemma {:induction false} PublishTouches(net: Network, w: World, d: Delivery, k: Case)
    requires WellPosed(k) && InTune(net, w, k) && Enabled(w, d) && Calm(k, d) && d.Publishes?
    ensures Touches(net, w, d, k, Next(net, w, d))
  {
    PublishCarries(net(d.n), w.nodes[d.n], d.r, d.now, d.open);
    var s := PublishStep(net(d.n), w.nodes[d.n], d.r, d.now, d.open);
    ReplacedBy(w, Next(net, w, d), d.n, s.e, w.pushes, s.pushes, d.r);
    OneApplies(net, w, d, k, Next(net, w, d), d.n, d.r, d.now);
  }

  lemma {:induction false} GraftTouches(net: Network, w: World, d: Delivery, k: Case)
    requires InTune(net, w, k) && Enabled(w, d) && d.GraftArrives?
    ensures Touches(net, w, d, k, Next(net, w, d))
  {
    GraftCarries(net(d.g.dst), w.nodes[d.g.dst], d.g, k);
  }

  lemma {:induction false} OthersTouch(net: Network, w: World, d: Delivery, k: Case)
    requires Enabled(w, d) && (d.NoteArrives? || IsLoss(d))
    ensures Touches(net, w, d, k, Next(net, w, d))
  {
    if IsLoss(d) {
      LossFrames(net, w, d);
    }
  }

  lemma {:induction false} StepTouches(net: Network, w: World, d: Delivery, k: Case)
    requires WellPosed(k) && InTune(net, w, k) && Enabled(w, d) && Calm(k, d)
    ensures Touches(net, w, d, k, Next(net, w, d))
  {
    if d.PushArrives? {
      PushTouches(net, w, d, k);
    } else if d.Publishes? {
      PublishTouches(net, w, d, k);
    } else if d.GraftArrives? {
      GraftTouches(net, w, d, k);
    } else {
      OthersTouch(net, w, d, k);
    }
  }

  lemma {:induction false} StepInTune(net: Network, w: World, d: Delivery, k: Case)
    requires WellPosed(k) && InTune(net, w, k) && Enabled(w, d) && Calm(k, d)
    ensures InTune(net, Next(net, w, d), k)
  {
    var w' := Next(net, w, d);
    StepTouches(net, w, d, k);
    forall n | n in w'.nodes
      ensures Receptive(net(n), k) && Tuned(k, w'.nodes[n].st)
    {
      if w'.nodes[n].st != w.nodes[n].st {
        var r, now :| Gives(d, r, now) && Fit(k, r) && (About(k, r) ==> r in k.claims) &&
                      w'.nodes[n].st == Apply(net(n).c, w.nodes[n].st, r, now).0;
        ApplyTuned(net(n).c, k, w.nodes[n].st, r, now);
      }
    }
  }

  ghost predicate HasHeard(w: World, k: Case, n: NodeID, a: Record) {
    n in w.nodes && HeardAt(k, w.nodes[n].st, a)
  }

  lemma {:induction false} StepKeepsHeard(net: Network, w: World, d: Delivery, k: Case, n: NodeID, a: Record)
    requires WellPosed(k) && InTune(net, w, k) && Enabled(w, d) && Calm(k, d) && a in k.claims && HasHeard(w, k, n, a)
    ensures HasHeard(Next(net, w, d), k, n, a)
  {
    var w' := Next(net, w, d);
    StepTouches(net, w, d, k);
    if w'.nodes[n].st != w.nodes[n].st {
      var r, now :| Gives(d, r, now) && Fit(k, r) && (About(k, r) ==> r in k.claims) &&
                    w'.nodes[n].st == Apply(net(n).c, w.nodes[n].st, r, now).0;
      ApplyKeepsHeard(net(n), k, w.nodes[n].st, r, now, a);
    }
  }

  lemma {:induction false} ClaimArrivesOrWaits(net: Network, w: World, d: Delivery, k: Case, f: Push)
    requires WellPosed(k) && InTune(net, w, k) && Enabled(w, d) && Calm(k, d) && !IsLoss(d)
    requires f in w.pushes && f.r in k.claims
    ensures f in Next(net, w, d).pushes || HasHeard(Next(net, w, d), k, f.dst, f.r)
  {
    if d.PushArrives? && d.f == f {
      PushStores(net(f.dst), w.nodes[f.dst], f, d.now, d.open);
      ApplyHears(net(f.dst), k, w.nodes[f.dst].st, d.now, f.r);
    } else {
      PushKept(net, w, d, f);
    }
  }

  // ---------- runs ----------

  ghost predicate CalmRun(k: Case, ds: seq<Delivery>) {
    forall d | d in ds :: Calm(k, d) && !IsLoss(d)
  }

  lemma {:induction false} HeardStays(net: Network, w: World, ds: seq<Delivery>, k: Case, n: NodeID, a: Record)
    requires WellPosed(k) && InTune(net, w, k) && IsRun(net, w, ds) && CalmRun(k, ds)
    requires a in k.claims && HasHeard(w, k, n, a)
    ensures HasHeard(After(net, w, ds), k, n, a)
    decreases |ds|
  {
    if ds != [] {
      assert ds[0] in ds;
      StepInTune(net, w, ds[0], k);
      StepKeepsHeard(net, w, ds[0], k, n, a);
      HeardStays(net, Next(net, w, ds[0]), ds[1..], k, n, a);
    }
  }

  /** In a run without loss, a claim in flight is still in flight at the end or has been heard where
      it was going. */
  lemma {:induction false} ClaimsLand(net: Network, w: World, ds: seq<Delivery>, k: Case, f: Push)
    requires WellPosed(k) && InTune(net, w, k) && IsRun(net, w, ds) && CalmRun(k, ds)
    requires f in w.pushes && f.r in k.claims
    ensures f in After(net, w, ds).pushes || HasHeard(After(net, w, ds), k, f.dst, f.r)
    decreases |ds|
  {
    if ds != [] {
      var w' := Next(net, w, ds[0]);
      assert ds[0] in ds;
      StepInTune(net, w, ds[0], k);
      ClaimArrivesOrWaits(net, w, ds[0], k, f);
      if f in w'.pushes {
        ClaimsLand(net, w', ds[1..], k, f);
      } else {
        HeardStays(net, w', ds[1..], k, f.dst, f.r);
      }
    }
  }

  /** The engine takes the attestation in, or changes a slot by it, and has hops left. */
  ghost predicate SendsClaim(p: Params, e: Engine, f: Push, now: int) {
    && f.r.IsAttestation() && f.ttl > 1 && e.tree <= e.peers && p.admit(f.r)
    && (ChangesRecords(p, e.st, f.r, now) || TakesIn(p, e.st, f.r, now))
  }

  lemma {:induction false} ClaimSentOn(p: Params, e: Engine, f: Push, now: int, open: set<NodeID>, s: Sent,
                                       edge: NodeID)
    requires s == PushStep(p, e, f, now, open) && SendsClaim(p, e, f, now) && edge in s.e.tree && edge != f.src
    ensures s.pushes[Push(p.self, edge, f.r, f.ttl - 1)] > 0
  {
    if ChangesRecords(p, e.st, f.r, now) {
      AcceptSends(p, e, f, now, open);
    } else {
      RelaySends(p, e, f, now, open);
    }
    SentOver(s, p.self, f.src, f.r, f.ttl, edge);
  }

  lemma {:induction false} ClaimGoesOn(net: Network, w: World, d: Delivery, edge: NodeID)
    requires Named(net, w) && Enabled(w, d) && d.PushArrives? && SendsClaim(net(d.f.dst), w.nodes[d.f.dst], d.f, d.now)
    requires edge in Next(net, w, d).nodes[d.f.dst].tree && edge != d.f.src
    ensures Push(d.f.dst, edge, d.f.r, d.f.ttl - 1) in Next(net, w, d).pushes
  {
    var s := PushStep(net(d.f.dst), w.nodes[d.f.dst], d.f, d.now, d.open);
    NextOfPush(net, w, d, s);
    ClaimSentOn(net(d.f.dst), w.nodes[d.f.dst], d.f, d.now, d.open, s, edge);
  }

  /** Coverage of attestations: if one with hops to spare changes a slot or is taken in where it
      arrives, and the network then falls quiet without losing frames, every tree edge the node had at
      that moment, other than the one it came by, has heard it. */
  lemma {:induction false} AttestationReachesEdges(net: Network, w: World, d: Delivery, ds: seq<Delivery>, k: Case,
                                                   edge: NodeID)
    requires WellPosed(k) && InTune(net, w, k) && Named(net, w) && Enabled(w, d) && Calm(k, d)
    requires d.PushArrives? && d.f.r in k.claims && SendsClaim(net(d.f.dst), w.nodes[d.f.dst], d.f, d.now)
    requires edge in Next(net, w, d).nodes[d.f.dst].tree && edge != d.f.src
    requires IsRun(net, Next(net, w, d), ds) && CalmRun(k, ds) && After(net, Next(net, w, d), ds).pushes == multiset{}
    ensures HasHeard(After(net, Next(net, w, d), ds), k, edge, d.f.r)
  {
    StepInTune(net, w, d, k);
    ClaimGoesOn(net, w, d, edge);
    ClaimsLand(net, Next(net, w, d), ds, k, Push(d.f.dst, edge, d.f.r, d.f.ttl - 1));
  }
}
