/** A network of engines that publish, and exchange frames about, a fixed set of owner records, with
    no ticks: every run has finitely many deliveries, and each node accepts each record at most once. */
module Dissemination {
  import opened Records
  import opened Finite
  import opened Store
  import opened Plumtree
  import opened Forwarding
  import opened Convergence

  /** The engines and the frames in flight. */
  datatype World = World(nodes: map<NodeID, Engine>, pushes: multiset<Push>, grafts: multiset<Graft>,
                         notes: multiset<Note>)

  /** One frame is delivered, or lost, or a node publishes. */
  datatype Delivery =
    | PushArrives(f: Push, now: int, open: set<NodeID>)
    | GraftArrives(g: Graft)
    | NoteArrives(note: Note, now: int)
    | PushLost(f: Push)
    | GraftLost(g: Graft)
    | NoteLost(note: Note)
    | Publishes(n: NodeID, r: Record, now: int, open: set<NodeID>)

  type Network = NodeID -> Params

  ghost predicate Enabled(w: World, d: Delivery) {
    match d
    case PushArrives(f, _, _) => f in w.pushes && f.dst in w.nodes
    case GraftArrives(g) => g in w.grafts && g.dst in w.nodes
    case NoteArrives(note, _) => note in w.notes && note.dst in w.nodes
    case PushLost(f) => f in w.pushes
    case GraftLost(g) => g in w.grafts
    case NoteLost(note) => note in w.notes
    case Publishes(n, _, _, _) => n in w.nodes
  }

  ghost function Next(net: Network, w: World, d: Delivery): World
    requires Enabled(w, d)
  {
    match d
    case PushArrives(f, now, open) =>
      var s := PushStep(net(f.dst), w.nodes[f.dst], f, now, open);
      w.(nodes := w.nodes[f.dst := s.e], pushes := w.pushes - multiset{f} + s.pushes, notes := w.notes + s.notes)
    case GraftArrives(g) =>
      var (e, pushes) := GraftStep(net(g.dst), w.nodes[g.dst], g);
      w.(nodes := w.nodes[g.dst := e], grafts := w.grafts - multiset{g}, pushes := w.pushes + pushes)
    case NoteArrives(note, now) =>
      var e := w.nodes[note.dst];
      var e' := match note
        case IHave(src, _, want) => IHaveStep(net(note.dst), e, src, want, now)
        case Prune(src, _, _) => PruneStep(e, src);
      w.(nodes := w.nodes[note.dst := e'], notes := w.notes - multiset{note})
    case PushLost(f) => w.(pushes := w.pushes - multiset{f})
    case GraftLost(g) => w.(grafts := w.grafts - multiset{g})
    case NoteLost(note) => w.(notes := w.notes - multiset{note})
    case Publishes(n, r, now, open) =>
      var s := PublishStep(net(n), w.nodes[n], r, now, open);
      w.(nodes := w.nodes[n := s.e], pushes := w.pushes + s.pushes, notes := w.notes + s.notes)
  }

  ghost predicate IsRun(net: Network, w: World, ds: seq<Delivery>)
    decreases |ds|
  {
    ds == [] || (Enabled(w, ds[0]) && IsRun(net, Next(net, w, ds[0]), ds[1..]))
  }

  ghost function After(net: Network, w: World, ds: seq<Delivery>): World
    requires IsRun(net, w, ds)
    decreases |ds|
  {
    if ds == [] then w else After(net, Next(net, w, ds[0]), ds[1..])
  }

  /** What is published is among `rs`. */
  ghost predicate Brings(ds: seq<Delivery>, rs: set<Record>) {
    forall d | d in ds && d.Publishes? :: d.r in rs
  }

  /** How many frames are delivered or lost. */
  function Deliveries(ds: seq<Delivery>): nat {
    if ds == [] then 0 else (if ds[0].Publishes? then 0 else 1) + Deliveries(ds[1..])
  }

  // ---------- domination ----------

  /** The record's slot is held at the record's rank or above: the record can no longer be applied. */
  predicate Dominated(st: Stores, r: Record) {
    var held := TopicOf(st, r.topic).records;
    SlotOf(r) in held && !Beats(r, held[SlotOf(r)])
  }

  /** An owner record is applied only where it is not dominated, and is dominated from then on. */
  lemma {:induction false} ApplyDominates(c: Config, st: Stores, r: Record, now: int)
    requires !r.IsAttestation() && Apply(c, st, r, now).1.applied
    ensures !Dominated(st, r) && Dominated(Apply(c, st, r, now).0, r)
  {
    BeatsOrder(r, r, r);
  }

  /** No application undoes domination. */
  lemma {:induction false} ApplyKeeps(c: Config, st: Stores, r: Record, now: int, x: Record)
    requires Dominated(st, x)
    ensures Dominated(Apply(c, st, r, now).0, x)
  {
    if x.topic == r.topic {
      TopicStepAdvances(c, TopicOf(st, r.topic), r, now);
      var before, after := TopicOf(st, x.topic).records, TopicOf(Apply(c, st, r, now).0, x.topic).records;
      BeatsOrder(after[SlotOf(x)], before[SlotOf(x)], x);
      BeatsOrder(x, before[SlotOf(x)], after[SlotOf(x)]);
    }
  }

  ghost function TopicsIn(rs: set<Record>): set<Topic> {
    set r | r in rs :: r.topic
  }

  /** Every record stored is one of `rs`, filed under its own topic and slot. */
  ghost predicate Within(st: Stores, rs: set<Record>) {
    && st.Keys <= TopicsIn(rs)
    && forall t | t in st :: TopicWithin(st[t].records, t, rs)
  }

  ghost predicate TopicWithin(held: map<Slot, Record>, t: Topic, rs: set<Record>) {
    forall k | k in held :: held[k] in rs && held[k].topic == t && SlotOf(held[k]) == k
  }

  lemma {:induction false} ApplyWithin(c: Config, st: Stores, r: Record, now: int, rs: set<Record>)
    requires !r.IsAttestation() && r in rs && Within(st, rs)
    ensures Within(Apply(c, st, r, now).0, rs)
  {
    assert r.topic in TopicsIn(rs);
    var st' := Apply(c, st, r, now).0;
    forall t | t in st'
      ensures TopicWithin(st'[t].records, t, rs)
    {
      assert t in st ==> TopicWithin(st[t].records, t, rs);
    }
  }

  // ---------- frames ----------

  lemma {:induction false} ToEachSize<F>(dst: set<NodeID>, frame: NodeID -> F)
    ensures |ToEach(dst, frame)| == |dst|
  {
    if dst != {} {
      ToEachSize(dst - {Pick(dst)}, frame);
    }
  }

  lemma {:induction false} ToEachHas<F>(dst: set<NodeID>, frame: NodeID -> F, f: F)
    ensures f in ToEach(dst, frame) <==> exists d :: d in dst && f == frame(d)
  {
    if dst != {} {
      ToEachHas(dst - {Pick(dst)}, frame, f);
    }
  }

  /** A push carries a record of `rs` that its sender has settled. */
  ghost predicate PushSound(w: World, f: Push, rs: set<Record>) {
    f.src in w.nodes && f.dst in w.nodes && f.r in rs && Dominated(w.nodes[f.src].st, f.r)
  }

  /** Frames pass between nodes of the network, the peers a node knows are nodes, tree edges are
      peers, and nothing but `rs` is pushed or stored. */
  ghost predicate Closed(w: World, rs: set<Record>) {
    && (forall f | f in w.pushes :: PushSound(w, f, rs))
    && (forall g | g in w.grafts :: g.src in w.nodes && g.dst in w.nodes)
    && (forall n | n in w.notes :: n.src in w.nodes && n.dst in w.nodes)
    && (forall n | n in w.nodes :: Sound(w.nodes[n], w.nodes.Keys, rs))
  }

  ghost predicate Sound(e: Engine, ids: set<NodeID>, rs: set<Record>) {
    e.tree <= e.peers <= ids && Within(e.st, rs)
  }

  ghost predicate Owners(rs: set<Record>) {
    forall r | r in rs :: !r.IsAttestation()
  }

  ghost predicate Named(net: Network, w: World) {
    forall n | n in w.nodes :: net(n).self == n
  }

  // ---------- the measure ----------

  /** The node-record pairs still to be settled. */
  ghost function Open(w: World, rs: set<Record>): set<(NodeID, Record)> {
    set n, r | n in w.nodes && r in rs && !Dominated(w.nodes[n].st, r) :: (n, r)
  }

  ghost function Debt(w: World, rs: set<Record>): nat {
    |w.nodes| * |Open(w, rs)|
  }

  ghost function Potential(w: World, rs: set<Record>): nat {
    2 * Debt(w, rs) + 3 * |w.grafts| + 2 * |w.pushes| + |w.notes|
  }

  /** What one engine's reaction to a push amounts to: either the record becomes settled there,
      and at most one frame per node goes out, or at most a prune does. */
  ghost predicate Effect(p: Params, e: Engine, f: Push, s: Sent, ids: set<NodeID>, rs: set<Record>) {
    && Sound(s.e, ids, rs)
    && (forall r | Dominated(e.st, r) :: Dominated(s.e.st, r))
    && FramesSound(p.self, f.r, s, ids)
    && (if !Dominated(e.st, f.r) && Dominated(s.e.st, f.r) then |s.pushes| + |s.notes| <= |ids|
        else s.pushes == multiset{} && |s.notes| <= 1)
  }

  ghost predicate FramesSound(self: NodeID, r: Record, s: Sent, ids: set<NodeID>) {
    && (forall x | x in s.pushes :: x.src == self && x.dst in ids && x.r == r)
    && (forall x | x in s.notes :: x.src == self && x.dst in ids)
  }

  lemma {:induction false} AcceptedEngine(p: Params, e: Engine, f: Push, now: int, open: set<NodeID>,
                                          ids: set<NodeID>, rs: set<Record>)
    requires Sound(e, ids, rs) && Owners(rs) && f.r in rs && f.src in ids
    requires p.admit(f.r) && Apply(p.c, e.st, f.r, now).1.applied
    ensures var e' := EagerStep(p, e, f, now, open).e;
      && Sound(e', ids, rs) && (forall r | Dominated(e.st, r) :: Dominated(e'.st, r))
      && !Dominated(e.st, f.r) && Dominated(e'.st, f.r)
  {
    ApplyWithin(p.c, e.st, f.r, now, rs);
    ApplyKeepsAll(p.c, e.st, f.r, now);
    ApplyDominates(p.c, e.st, f.r, now);
  }

  lemma {:induction false} AcceptedFrames(p: Params, e: Engine, f: Push, now: int, open: set<NodeID>, ids: set<NodeID>)
    requires EagerStep(p, e, f, now, open).e.tree <= EagerStep(p, e, f, now, open).e.peers <= ids
    requires p.admit(f.r) && Apply(p.c, e.st, f.r, now).1.applied
    ensures var s := EagerStep(p, e, f, now, open);
      FramesSound(p.self, f.r, s, ids) && |s.pushes| + |s.notes| <= |ids|
  {
    ForwardEffect(p, EagerStep(p, e, f, now, open).e, f, open, ids);
  }

  lemma {:induction false} AcceptedEffect(p: Params, e: Engine, f: Push, now: int, open: set<NodeID>,
                                          ids: set<NodeID>, rs: set<Record>)
    requires Sound(e, ids, rs) && Owners(rs) && f.r in rs && f.src in ids
    requires p.admit(f.r) && Apply(p.c, e.st, f.r, now).1.applied
    ensures Effect(p, e, f, EagerStep(p, e, f, now, open), ids, rs)
  {
    AcceptedEngine(p, e, f, now, open, ids, rs);
    AcceptedFrames(p, e, f, now, open, ids);
  }

  lemma {:induction false} DroppedEffect(p: Params, e: Engine, f: Push, now: int, open: set<NodeID>, ids: set<NodeID>,
                                         rs: set<Record>)
    requires Sound(e, ids, rs) && Owners(rs) && f.r in rs && f.src in ids
    requires p.admit(f.r) ==> !Apply(p.c, e.st, f.r, now).1.applied
    ensures Effect(p, e, f, EagerStep(p, e, f, now, open), ids, rs)
  {
    if p.admit(f.r) {
      ApplyWithin(p.c, e.st, f.r, now, rs);
      ApplyKeepsAll(p.c, e.st, f.r, now);
      RefusedKeeps(p.c, e.st, f.r, now);
    }
  }

  lemma {:induction false} EagerEffect(p: Params, e: Engine, f: Push, now: int, open: set<NodeID>, ids: set<NodeID>,
                                       rs: set<Record>)
    requires Sound(e, ids, rs) && Owners(rs) && f.r in rs && f.src in ids
    ensures Effect(p, e, f, EagerStep(p, e, f, now, open), ids, rs)
  {
    if p.admit(f.r) && Apply(p.c, e.st, f.r, now).1.applied {
      AcceptedEffect(p, e, f, now, open, ids, rs);
    } else {
      DroppedEffect(p, e, f, now, open, ids, rs);
    }
  }

  lemma {:induction false} ApplyKeepsAll(c: Config, st: Stores, r: Record, now: int)
    ensures forall x | Dominated(st, x) :: Dominated(Apply(c, st, r, now).0, x)
  {
    forall x | Dominated(st, x)
      ensures Dominated(Apply(c, st, r, now).0, x)
    {
      ApplyKeeps(c, st, r, now, x);
    }
  }

  lemma {:induction false} RefusedKeeps(c: Config, st: Stores, r: Record, now: int)
    requires !r.IsAttestation() && !Apply(c, st, r, now).1.applied
    ensures Dominated(Apply(c, st, r, now).0, r) ==> Dominated(st, r)
  {
  }

  lemma {:induction false} ForwardEffect(p: Params, e: Engine, f: Push, open: set<NodeID>, ids: set<NodeID>)
    requires e.tree <= e.peers <= ids
    ensures var pushes := if f.ttl > 1 then ToEach(e.tree - {f.src}, PushTo(p.self, f.r, f.ttl - 1)) else multiset{};
      var notes := ToEach((e.peers - e.tree) * open, AnnounceTo(p.self, f.r));
      && |pushes| + |notes| <= |ids|
      && (forall x | x in pushes :: x.src == p.self && x.dst in ids && x.r == f.r)
      && (forall x | x in notes :: x.src == p.self && x.dst in ids)
  {
    SpreadEffect(p.self, e.tree - {f.src}, (e.peers - e.tree) * open, f.r, if f.ttl > 1 then f.ttl - 1 else 0, ids);
  }

  /** Pushing to some and announcing to others takes at most one frame per node. */
  lemma {:induction false} SpreadEffect(self: NodeID, near: set<NodeID>, far: set<NodeID>, r: Record, ttl: nat,
                                        ids: set<NodeID>)
    requires near <= ids && far <= ids && near !! far
    ensures var pushes, notes := ToEach(near, PushTo(self, r, ttl)), ToEach(far, AnnounceTo(self, r));
      && |pushes| + |notes| <= |ids|
      && (forall x | x in pushes :: x.src == self && x.dst in ids && x.r == r)
      && (forall x | x in notes :: x.src == self && x.dst in ids)
  {
    ToEachSize(near, PushTo(self, r, ttl));
    forall x | x in ToEach(near, PushTo(self, r, ttl))
      ensures x.src == self && x.dst in ids && x.r == r
    {
      ToEachHas(near, PushTo(self, r, ttl), x);
    }
    ToEachSize(far, AnnounceTo(self, r));
    forall x | x in ToEach(far, AnnounceTo(self, r))
      ensures x.src == self && x.dst in ids
    {
      ToEachHas(far, AnnounceTo(self, r), x);
    }
    SubsetCard(near + far, ids);
    assert |near + far| == |near| + |far|;
  }

  /** Same nodes, and what was settled stays settled. */
  ghost predicate Settles(w: World, w': World) {
    && w'.nodes.Keys == w.nodes.Keys
    && forall n, r | n in w.nodes && Dominated(w.nodes[n].st, r) :: Dominated(w'.nodes[n].st, r)
  }

  lemma {:induction false} OpenShrinks(w: World, w': World, rs: set<Record>)
    requires Settles(w, w')
    ensures Debt(w', rs) <= Debt(w, rs)
  {
    SubsetCard(Open(w', rs), Open(w, rs));
    SubmapSize(w.nodes, w'.nodes);
    SubmapSize(w'.nodes, w.nodes);
    Multiply(|w.nodes|, |Open(w', rs)|, |Open(w, rs)|);
  }

  lemma {:induction false} OpenCloses(w: World, w': World, rs: set<Record>, n: NodeID, r: Record)
    requires Settles(w, w') && n in w.nodes && r in rs
    requires !Dominated(w.nodes[n].st, r) && Dominated(w'.nodes[n].st, r)
    ensures Debt(w', rs) + |w.nodes| <= Debt(w, rs)
  {
    assert (n, r) in Open(w, rs) && (n, r) !in Open(w', rs);
    SubsetCard(Open(w', rs), Open(w, rs));
    SubmapSize(w.nodes, w'.nodes);
    SubmapSize(w'.nodes, w.nodes);
    Multiply(|w.nodes|, |Open(w', rs)| + 1, |Open(w, rs)|);
    assert |w.nodes| * (|Open(w', rs)| + 1) == |w.nodes| * |Open(w', rs)| + |w.nodes|;
  }

  lemma {:induction false} Multiply(a: nat, x: nat, y: nat)
    requires x <= y
    ensures a * x <= a * y
  {
  }

  /** One engine is replaced by one that has settled no less. */
  lemma {:induction false} NodeReplaced(w: World, w': World, n: NodeID, e: Engine, rs: set<Record>)
    requires Closed(w, rs) && n in w.nodes && w'.nodes == w.nodes[n := e] && Sound(e, w.nodes.Keys, rs)
    requires forall r | Dominated(w.nodes[n].st, r) :: Dominated(e.st, r)
    ensures Settles(w, w') && forall m | m in w'.nodes :: Sound(w'.nodes[m], w'.nodes.Keys, rs)
  {
    assert w'.nodes.Keys == w.nodes.Keys;
  }

  lemma {:induction false} PushClosed(net: Network, w: World, d: Delivery, rs: set<Record>)
    requires Closed(w, rs) && Owners(rs) && Named(net, w) && Enabled(w, d) && d.PushArrives?
    ensures Closed(Next(net, w, d), rs) && Settles(w, Next(net, w, d))
  {
    var f, w' := d.f, Next(net, w, d);
    assert PushSound(w, f, rs);
    var s := EagerStep(net(f.dst), w.nodes[f.dst], f, d.now, d.open);
    assert s == PushStep(net(f.dst), w.nodes[f.dst], f, d.now, d.open);
    EagerEffect(net(f.dst), w.nodes[f.dst], f, d.now, d.open, w.nodes.Keys, rs);
    NodeReplaced(w, w', f.dst, s.e, rs);
    forall x | x in w'.pushes
      ensures PushSound(w', x, rs)
    {
      assert x in w.pushes || x in s.pushes;
      assert x in w.pushes ==> PushSound(w, x, rs);
    }
  }

  lemma {:induction false} PushPotential(net: Network, w: World, d: Delivery, rs: set<Record>)
    requires Closed(w, rs) && Owners(rs) && Named(net, w) && Enabled(w, d) && d.PushArrives?
    requires Settles(w, Next(net, w, d))
    ensures Potential(Next(net, w, d), rs) < Potential(w, rs)
  {
    var f, w' := d.f, Next(net, w, d);
    assert PushSound(w, f, rs);
    var s := EagerStep(net(f.dst), w.nodes[f.dst], f, d.now, d.open);
    assert s == PushStep(net(f.dst), w.nodes[f.dst], f, d.now, d.open);
    EagerEffect(net(f.dst), w.nodes[f.dst], f, d.now, d.open, w.nodes.Keys, rs);
    FramesAfter(w, w', f, s);
    if !Dominated(w.nodes[f.dst].st, f.r) && Dominated(s.e.st, f.r) {
      OpenCloses(w, w', rs, f.dst, f.r);
    } else {
      OpenShrinks(w, w', rs);
    }
  }

  // ---------- publishing ----------

  lemma {:induction false} PublishEngine(p: Params, e: Engine, r: Record, now: int, open: set<NodeID>,
                                         ids: set<NodeID>, rs: set<Record>)
    requires Sound(e, ids, rs) && Owners(rs) && r in rs
    ensures var e' := PublishStep(p, e, r, now, open).e;
      Sound(e', ids, rs) && forall x | Dominated(e.st, x) :: Dominated(e'.st, x)
    ensures Apply(p.c, e.st, r, now).1.applied ==>
              !Dominated(e.st, r) && Dominated(PublishStep(p, e, r, now, open).e.st, r)
  {
    ApplyWithin(p.c, e.st, r, now, rs);
    ApplyKeepsAll(p.c, e.st, r, now);
    BestIsBest(p, e);
    if Apply(p.c, e.st, r, now).1.applied {
      ApplyDominates(p.c, e.st, r, now);
    }
  }

  lemma {:induction false} PublishFrames(p: Params, e: Engine, r: Record, now: int, open: set<NodeID>, ids: set<NodeID>)
    requires e.tree <= e.peers <= ids
    ensures var s := PublishStep(p, e, r, now, open);
      && FramesSound(p.self, r, s, ids)
      && |s.pushes| + |s.notes| <= if Apply(p.c, e.st, r, now).1.applied then |ids| else 0
  {
    BestIsBest(p, e);
    SpreadEffect(p.self, BestTree(p, e), (e.peers - BestTree(p, e)) * open, r, EAGER_TTL, ids);
  }

  lemma {:induction false} PublishClosed(net: Network, w: World, d: Delivery, rs: set<Record>)
    requires Closed(w, rs) && Owners(rs) && Named(net, w) && Enabled(w, d) && d.Publishes? && d.r in rs
    ensures Closed(Next(net, w, d), rs) && Settles(w, Next(net, w, d))
  {
    var n, w' := d.n, Next(net, w, d);
    var s := PublishStep(net(n), w.nodes[n], d.r, d.now, d.open);
    PublishEngine(net(n), w.nodes[n], d.r, d.now, d.open, w.nodes.Keys, rs);
    PublishFrames(net(n), w.nodes[n], d.r, d.now, d.open, w.nodes.Keys);
    NodeReplaced(w, w', n, s.e, rs);
    NewFrames(w, w', s, n, d.r, rs);
  }

  /** The engines settle no less and are sound, and the new frames are about a record its sender has
      settled. */
  lemma {:induction false} NewFrames(w: World, w': World, s: Sent, n: NodeID, r: Record, rs: set<Record>)
    requires Closed(w, rs) && Settles(w, w') && forall m | m in w'.nodes :: Sound(w'.nodes[m], w'.nodes.Keys, rs)
    requires w'.pushes == w.pushes + s.pushes && w'.notes == w.notes + s.notes && w'.grafts == w.grafts
    requires n in w.nodes && r in rs && FramesSound(n, r, s, w.nodes.Keys)
    requires s.pushes != multiset{} ==> Dominated(w'.nodes[n].st, r)
    ensures Closed(w', rs)
  {
    forall x | x in w'.pushes
      ensures PushSound(w', x, rs)
    {
      if x in w.pushes {
        assert PushSound(w, x, rs);
      } else {
        assert x in s.pushes;
      }
    }
  }

  /** A publish pays for its own frames. */
  lemma {:induction false} PublishPotential(net: Network, w: World, d: Delivery, rs: set<Record>)
    requires Closed(w, rs) && Owners(rs) && Named(net, w) && Enabled(w, d) && d.Publishes? && d.r in rs
    requires Settles(w, Next(net, w, d))
    ensures Potential(Next(net, w, d), rs) <= Potential(w, rs)
  {
    var n, w' := d.n, Next(net, w, d);
    var s := PublishStep(net(n), w.nodes[n], d.r, d.now, d.open);
    PublishEngine(net(n), w.nodes[n], d.r, d.now, d.open, w.nodes.Keys, rs);
    PublishFrames(net(n), w.nodes[n], d.r, d.now, d.open, w.nodes.Keys);
    assert |w'.pushes| == |w.pushes| + |s.pushes| && |w'.notes| == |w.notes| + |s.notes|;
    assert |w.nodes| == |w.nodes.Keys|;
    if Apply(net(n).c, w.nodes[n].st, d.r, d.now).1.applied {
      OpenCloses(w, w', rs, n, d.r);
    } else {
      OpenShrinks(w, w', rs);
    }
  }

  lemma {:induction false} FramesAfter(w: World, w': World, f: Push, s: Sent)
    requires f in w.pushes && w'.grafts == w.grafts
    requires w'.pushes == w.pushes - multiset{f} + s.pushes && w'.notes == w.notes + s.notes
    ensures |w'.pushes| == |w.pushes| - 1 + |s.pushes| && |w'.notes| == |w.notes| + |s.notes|
    ensures |w.nodes| == |w.nodes.Keys|
  {
  }

  lemma {:induction false} GraftEffect(p: Params, e: Engine, g: Graft, ids: set<NodeID>, rs: set<Record>)
    requires Sound(e, ids, rs) && g.src in ids
    ensures var (e', pushes) := GraftStep(p, e, g);
      && Sound(e', ids, rs) && e'.st == e.st && |pushes| <= 1
      && (forall x | x in pushes :: x.src == p.self && x.dst == g.src && x.r in rs && Dominated(e.st, x.r))
  {
    var held, slot := Held(e.st, g.want), SlotWanted(g.want);
    if slot in held {
      assert TopicWithin(held, g.want.topic, rs);
      BeatsOrder(held[slot], held[slot], held[slot]);
    }
  }

  lemma {:induction false} GraftStepClosed(net: Network, w: World, d: Delivery, rs: set<Record>)
    requires Closed(w, rs) && Named(net, w) && Enabled(w, d) && d.GraftArrives?
    ensures var w' := Next(net, w, d);
      && Closed(w', rs) && Settles(w, w')
      && |w'.grafts| == |w.grafts| - 1 && |w'.pushes| <= |w.pushes| + 1 && w'.notes == w.notes
  {
    var (e, pushes) := GraftStep(net(d.g.dst), w.nodes[d.g.dst], d.g);
    var w' := Next(net, w, d);
    GraftEffect(net(d.g.dst), w.nodes[d.g.dst], d.g, w.nodes.Keys, rs);
    NodeReplaced(w, w', d.g.dst, e, rs);
    OneLess(w.grafts, d.g);
    forall x | x in pushes
      ensures PushSound(w', x, rs)
    {
    }
    NewPushes(w, w', pushes, rs);
  }

  /** The engines settle no less and are sound, and the only new frames are sound pushes. */
  lemma {:induction false} NewPushes(w: World, w': World, pushes: multiset<Push>, rs: set<Record>)
    requires Closed(w, rs) && Settles(w, w') && forall m | m in w'.nodes :: Sound(w'.nodes[m], w'.nodes.Keys, rs)
    requires forall x | x in w'.pushes :: x in w.pushes || x in pushes
    requires forall x | x in pushes :: PushSound(w', x, rs)
    requires forall x | x in w'.grafts :: x in w.grafts
    requires forall x | x in w'.notes :: x in w.notes
    ensures Closed(w', rs)
  {
    forall x | x in w'.pushes
      ensures PushSound(w', x, rs)
    {
      assert x in w.pushes ==> PushSound(w, x, rs);
    }
  }

  lemma {:induction false} NoteEffect(net: Network, w: World, d: Delivery, rs: set<Record>)
    requires Closed(w, rs) && Enabled(w, d) && d.NoteArrives?
    ensures var e := Next(net, w, d).nodes[d.note.dst];
      Sound(e, w.nodes.Keys, rs) && e.st == w.nodes[d.note.dst].st
  {
  }

  lemma {:induction false} OneLess<T>(m: multiset<T>, x: T)
    requires x in m
    ensures |m - multiset{x}| == |m| - 1 && forall y | y in m - multiset{x} :: y in m
  {
  }

  lemma {:induction false} NoteStepClosed(net: Network, w: World, d: Delivery, rs: set<Record>)
    requires Closed(w, rs) && Enabled(w, d) && d.NoteArrives?
    ensures var w' := Next(net, w, d);
      && Closed(w', rs) && Settles(w, w')
      && w'.grafts == w.grafts && w'.pushes == w.pushes && |w'.notes| == |w.notes| - 1
  {
    var w' := Next(net, w, d);
    NoteEffect(net, w, d, rs);
    NodeReplaced(w, w', d.note.dst, w'.nodes[d.note.dst], rs);
    OneLess(w.notes, d.note);
    NewPushes(w, w', multiset{}, rs);
  }

  lemma {:induction false} LossFrames(net: Network, w: World, d: Delivery)
    requires Enabled(w, d) && IsLoss(d)
    ensures var w' := Next(net, w, d);
      && w'.nodes == w.nodes
      && |w'.grafts| + |w'.pushes| + |w'.notes| < |w.grafts| + |w.pushes| + |w.notes|
      && |w'.grafts| <= |w.grafts| && |w'.pushes| <= |w.pushes| && |w'.notes| <= |w.notes|
      && (forall x | x in w'.pushes :: x in w.pushes)
      && (forall x | x in w'.grafts :: x in w.grafts)
      && (forall x | x in w'.notes :: x in w.notes)
  {
    if d.PushLost? {
      OneLess(w.pushes, d.f);
    } else if d.GraftLost? {
      OneLess(w.grafts, d.g);
    } else {
      OneLess(w.notes, d.note);
    }
  }

  lemma {:induction false} LossClosed(net: Network, w: World, d: Delivery, rs: set<Record>)
    requires Closed(w, rs) && Enabled(w, d) && IsLoss(d)
    ensures Closed(Next(net, w, d), rs) && Settles(w, Next(net, w, d))
  {
    LossFrames(net, w, d);
    NewPushes(w, Next(net, w, d), multiset{}, rs);
  }

  predicate IsLoss(d: Delivery) {
    d.PushLost? || d.GraftLost? || d.NoteLost?
  }

  lemma {:induction false} OtherStep(net: Network, w: World, d: Delivery, rs: set<Record>)
    requires Closed(w, rs) && Named(net, w) && Enabled(w, d) && !d.PushArrives? && !d.Publishes?
    ensures var w' := Next(net, w, d);
      Closed(w', rs) && Settles(w, w') && Potential(w', rs) < Potential(w, rs)
  {
    if d.GraftArrives? {
      GraftStepClosed(net, w, d, rs);
    } else if d.NoteArrives? {
      NoteStepClosed(net, w, d, rs);
    } else {
      LossClosed(net, w, d, rs);
      LossFrames(net, w, d);
    }
    OpenShrinks(w, Next(net, w, d), rs);
  }

  /** Every delivery uses up potential, and a publish adds none. */
  lemma {:induction false} StepDecreases(net: Network, w: World, d: Delivery, rs: set<Record>)
    requires Closed(w, rs) && Owners(rs) && Named(net, w) && Enabled(w, d) && (d.Publishes? ==> d.r in rs)
    ensures var w' := Next(net, w, d);
      && Closed(w', rs) && Named(net, w') && Settles(w, w')
      && Potential(w', rs) + (if d.Publishes? then 0 else 1) <= Potential(w, rs)
  {
    if d.PushArrives? {
      PushClosed(net, w, d, rs);
      PushPotential(net, w, d, rs);
    } else if d.Publishes? {
      PublishClosed(net, w, d, rs);
      PublishPotential(net, w, d, rs);
    } else {
      OtherStep(net, w, d, rs);
    }
  }

  lemma {:induction false} RunBounded(net: Network, w: World, ds: seq<Delivery>, rs: set<Record>)
    requires Closed(w, rs) && Owners(rs) && Named(net, w) && IsRun(net, w, ds) && Brings(ds, rs)
    ensures var w' := After(net, w, ds);
      Closed(w', rs) && Named(net, w') && Settles(w, w') && Deliveries(ds) + Potential(w', rs) <= Potential(w, rs)
    decreases |ds|
  {
    if ds != [] {
      assert ds[0] in ds;
      StepDecreases(net, w, ds[0], rs);
      RunBounded(net, Next(net, w, ds[0]), ds[1..], rs);
    }
  }

  /** Dissemination terminates: with N nodes and a set of owner records, some in flight and others
      published on the way, no run has more deliveries than 2 N^2 per record plus the weight of the
      frames it started with. */
  lemma {:induction false} DisseminationTerminates(net: Network, w: World, ds: seq<Delivery>, rs: set<Record>)
    requires Closed(w, rs) && Owners(rs) && Named(net, w) && IsRun(net, w, ds) && Brings(ds, rs)
    ensures Deliveries(ds) <= 2 * (|w.nodes| * (|w.nodes| * |rs|)) + 3 * |w.grafts| + 2 * |w.pushes| + |w.notes|
  {
    RunBounded(net, w, ds, rs);
    OpenBounded(w, rs);
    Multiply(|w.nodes|, |Open(w, rs)|, |w.nodes| * |rs|);
  }

  lemma {:induction false} OpenBounded(w: World, rs: set<Record>)
    ensures |Open(w, rs)| <= |w.nodes| * |rs|
  {
    PairsSize(w.nodes.Keys, rs);
    SubsetCard(Open(w, rs), Pairs(w.nodes.Keys, rs));
    assert |w.nodes| == |w.nodes.Keys|;
  }

  ghost function Pairs(ids: set<NodeID>, rs: set<Record>): set<(NodeID, Record)> {
    set n, r | n in ids && r in rs :: (n, r)
  }

  lemma {:induction false} PairsSize(ids: set<NodeID>, rs: set<Record>)
    ensures |Pairs(ids, rs)| == |ids| * |rs|
  {
    if ids != {} {
      var n := Pick(ids);
      PairsSize(ids - {n}, rs);
      RowSize(n, rs);
      assert Pairs(ids, rs) == Pairs(ids - {n}, rs) + Pairs({n}, rs);
      assert Pairs(ids - {n}, rs) !! Pairs({n}, rs);
      OneMoreRow(|ids| - 1, |rs|);
    }
  }

  lemma {:induction false} OneMoreRow(a: nat, b: nat)
    ensures (a + 1) * b == a * b + b
  {
  }

  lemma {:induction false} RowSize(n: NodeID, rs: set<Record>)
    ensures |Pairs({n}, rs)| == |rs|
  {
    if rs != {} {
      var r := Pick(rs);
      RowSize(n, rs - {r});
      assert Pairs({n}, rs) == Pairs({n}, rs - {r}) + {(n, r)};
    }
  }

  // ---------- at most once ----------

  /** The push, or the publish, makes the node apply the record. */
  ghost predicate Accepts(net: Network, w: World, d: Delivery, n: NodeID, r: Record)
    requires Enabled(w, d)
  {
    || (d.PushArrives? && d.f.dst == n && d.f.r == r && net(n).admit(r) &&
        Apply(net(n).c, w.nodes[n].st, r, d.now).1.applied)
    || (d.Publishes? && d.n == n && d.r == r && Apply(net(n).c, w.nodes[n].st, r, d.now).1.applied)
  }

  /** How often a node accepts a record in a run. */
  ghost function Acceptances(net: Network, w: World, ds: seq<Delivery>, n: NodeID, r: Record): nat
    requires IsRun(net, w, ds)
    decreases |ds|
  {
    if ds == [] then 0
    else (if Accepts(net, w, ds[0], n, r) then 1 else 0) + Acceptances(net, Next(net, w, ds[0]), ds[1..], n, r)
  }

  /** Each node accepts, and so forwards and announces, each record at most once, and never one it
      starts out with. */
  lemma {:induction false} AcceptsOnce(net: Network, w: World, ds: seq<Delivery>, rs: set<Record>, n: NodeID, r: Record)
    requires Closed(w, rs) && Owners(rs) && Named(net, w) && IsRun(net, w, ds) && n in w.nodes && r in rs
    requires Brings(ds, rs)
    ensures Acceptances(net, w, ds, n, r) <= if Dominated(w.nodes[n].st, r) then 0 else 1
    decreases |ds|
  {
    if ds != [] {
      assert ds[0] in ds;
      StepDecreases(net, w, ds[0], rs);
      AcceptsOnce(net, Next(net, w, ds[0]), ds[1..], rs, n, r);
      if Accepts(net, w, ds[0], n, r) {
        ApplyDominates(net(n).c, w.nodes[n].st, r, ds[0].now);
      }
    }
  }

  /** A push is forwarded only if it changes a slot, or is an attestation that is taken in. */
  lemma {:induction false} ForwardsOnlyAccepted(net: Network, w: World, d: Delivery)
    requires Enabled(w, d) && d.PushArrives?
    requires !Accepts(net, w, d, d.f.dst, d.f.r)
    requires d.f.r.IsAttestation() ==> !Apply(net(d.f.dst).c, w.nodes[d.f.dst].st, d.f.r, d.now).1.accumulated
    ensures Next(net, w, d).pushes == w.pushes - multiset{d.f}
  {
  }

  // ---------- coverage ----------

  ghost function OfTopic(rs: set<Record>, t: Topic): set<Record> {
    set r | r in rs && r.topic == t
  }

  /** The caps have room for all of `rs`. */
  ghost predicate Roomy(c: Config, rs: set<Record>) {
    |TopicsIn(rs)| <= c.maxTopics && forall t: Topic :: Fits(c, SlotsOf(OfTopic(rs, t)))
  }

  lemma {:induction false} ApplyLands(c: Config, st: Stores, r: Record, now: int, rs: set<Record>)
    requires Within(st, rs) && r in rs && !r.IsAttestation() && Roomy(c, rs)
    ensures Dominated(Apply(c, st, r, now).0, r)
  {
    var held, slots := TopicOf(st, r.topic).records, SlotsOf(OfTopic(rs, r.topic));
    if r.topic !in st {
      SubsetCard(st.Keys + {r.topic}, TopicsIn(rs));
      assert |st.Keys + {r.topic}| == |st.Keys| + 1;
      assert |st| == |st.Keys|;
    }
    assert r in OfTopic(rs, r.topic);
    if SlotOf(r) !in held {
      HeldWithin(st, r.topic, rs);
      FitsRoom(c, slots, held, SlotOf(r));
    }
    OwnerStepLands(c, TopicOf(st, r.topic), r, now);
  }

  lemma {:induction false} HeldWithin(st: Stores, t: Topic, rs: set<Record>)
    requires Within(st, rs)
    ensures TopicOf(st, t).records.Keys <= SlotsOf(OfTopic(rs, t))
  {
    if t in st {
      assert TopicWithin(st[t].records, t, rs);
      forall k | k in st[t].records
        ensures k in SlotsOf(OfTopic(rs, t))
      {
        assert st[t].records[k] in OfTopic(rs, t);
      }
    }
  }

  /** Every node admits and has room for every record. */
  ghost predicate Welcoming(net: Network, w: World, rs: set<Record>) {
    forall n | n in w.nodes :: Roomy(net(n).c, rs) && forall r | r in rs :: net(n).admit(r)
  }

  ghost predicate Arrived(w: World, n: NodeID, r: Record) {
    n in w.nodes && Dominated(w.nodes[n].st, r)
  }

  lemma {:induction false} PushKept(net: Network, w: World, d: Delivery, f: Push)
    requires Enabled(w, d) && !IsLoss(d) && f in w.pushes && !(d.PushArrives? && d.f == f)
    ensures f in Next(net, w, d).pushes
  {
  }

  lemma {:induction false} EagerLands(p: Params, e: Engine, f: Push, now: int, open: set<NodeID>, rs: set<Record>)
    requires Within(e.st, rs) && f.r in rs && !f.r.IsAttestation() && Roomy(p.c, rs) && p.admit(f.r)
    ensures Dominated(EagerStep(p, e, f, now, open).e.st, f.r)
  {
    ApplyLands(p.c, e.st, f.r, now, rs);
  }

  lemma {:induction false} PushArrivesOrWaits(net: Network, w: World, d: Delivery, rs: set<Record>, f: Push)
    requires Closed(w, rs) && Owners(rs) && Welcoming(net, w, rs)
    requires Enabled(w, d) && !IsLoss(d) && f in w.pushes
    ensures f in Next(net, w, d).pushes || Arrived(Next(net, w, d), f.dst, f.r)
  {
    if d.PushArrives? && d.f == f {
      assert PushSound(w, f, rs);
      EagerLands(net(f.dst), w.nodes[f.dst], f, d.now, d.open, rs);
    } else {
      PushKept(net, w, d, f);
    }
  }

  /** In a run without loss, a push in flight is still in flight at the end or its destination has
      settled the record. */
  lemma {:induction false} PushesLand(net: Network, w: World, ds: seq<Delivery>, rs: set<Record>, f: Push)
    requires Closed(w, rs) && Owners(rs) && Named(net, w) && Welcoming(net, w, rs)
    requires IsRun(net, w, ds) && Brings(ds, rs) && (forall d | d in ds :: !IsLoss(d)) && f in w.pushes
    ensures f in After(net, w, ds).pushes || Arrived(After(net, w, ds), f.dst, f.r)
    decreases |ds|
  {
    if ds != [] {
      var w' := Next(net, w, ds[0]);
      assert ds[0] in ds;
      StepDecreases(net, w, ds[0], rs);
      PushArrivesOrWaits(net, w, ds[0], rs, f);
      if f in w'.pushes {
        PushesLand(net, w', ds[1..], rs, f);
      } else {
        RunBounded(net, w', ds[1..], rs);
      }
    }
  }

  /** The engine applies the record pushed, and it has hops left. */
  ghost predicate Forwards(p: Params, e: Engine, f: Push, now: int) {
    p.admit(f.r) && Apply(p.c, e.st, f.r, now).1.applied && f.ttl > 1
  }

  lemma {:induction false} AcceptedForwards(net: Network, w: World, d: Delivery, edge: NodeID)
    requires Named(net, w) && Enabled(w, d) && d.PushArrives? && Forwards(net(d.f.dst), w.nodes[d.f.dst], d.f, d.now)
    requires edge in Next(net, w, d).nodes[d.f.dst].tree && edge != d.f.src
    ensures Push(d.f.dst, edge, d.f.r, d.f.ttl - 1) in Next(net, w, d).pushes
  {
    var s := PushStep(net(d.f.dst), w.nodes[d.f.dst], d.f, d.now, d.open);
    NextOfPush(net, w, d, s);
    SentOn(net(d.f.dst), w.nodes[d.f.dst], d.f, d.now, d.open, s, edge);
  }

  lemma {:induction false} NextOfPush(net: Network, w: World, d: Delivery, s: Sent)
    requires Enabled(w, d) && d.PushArrives? && s == PushStep(net(d.f.dst), w.nodes[d.f.dst], d.f, d.now, d.open)
    ensures Next(net, w, d).nodes == w.nodes[d.f.dst := s.e]
    ensures forall x | s.pushes[x] > 0 :: x in Next(net, w, d).pushes
  {
  }

  lemma {:induction false} SentOn(p: Params, e: Engine, f: Push, now: int, open: set<NodeID>, s: Sent, edge: NodeID)
    requires Forwards(p, e, f, now) && s == PushStep(p, e, f, now, open) && edge in s.e.tree && edge != f.src
    ensures s.pushes[Push(p.self, edge, f.r, f.ttl - 1)] == 1
  {
    AppliedIff(p, e.st, f.r, now);
    AcceptSends(p, e, f, now, open);
    SentOver(s, p.self, f.src, f.r, f.ttl, edge);
  }

  lemma {:induction false} SentArrives(kept: multiset<Push>, sent: multiset<Push>, x: Push)
    requires sent[x] > 0
    ensures x in kept + sent
  {
  }

  lemma {:induction false} ArrivedStays(net: Network, w: World, ds: seq<Delivery>, rs: set<Record>, n: NodeID,
                                        r: Record)
    requires Closed(w, rs) && Owners(rs) && Named(net, w) && IsRun(net, w, ds) && Brings(ds, rs) && Arrived(w, n, r)
    ensures Arrived(After(net, w, ds), n, r)
  {
    RunBounded(net, w, ds, rs);
  }

  /** Right after a node accepts a record, each tree edge has it or is sent it. */
  lemma {:induction false} AcceptedIsSent(net: Network, w: World, d: Delivery, rs: set<Record>, n: NodeID, r: Record,
                                          edge: NodeID)
    requires Closed(w, rs) && Owners(rs) && Named(net, w)
    requires Enabled(w, d) && d.PushArrives? && Accepts(net, w, d, n, r) && d.f.ttl > 1 &&
             edge in Next(net, w, d).nodes[n].tree
    ensures Arrived(Next(net, w, d), edge, r) || Push(n, edge, r, d.f.ttl - 1) in Next(net, w, d).pushes
  {
    if edge == d.f.src {
      StepDecreases(net, w, d, rs);
      assert PushSound(w, d.f, rs);
    } else {
      AcceptedForwards(net, w, d, edge);
    }
  }

  /** Coverage: if a node accepts a record with hops to spare and the network then falls quiet
      without losing frames, every tree edge the node had at that moment has settled the record. */
  lemma {:induction false} AcceptedReachesEdges(net: Network, w: World, d: Delivery, ds: seq<Delivery>, rs: set<Record>,
                                                n: NodeID, r: Record, edge: NodeID)
    requires Closed(w, rs) && Owners(rs) && Named(net, w) && Welcoming(net, w, rs)
    requires Enabled(w, d) && d.PushArrives? && Accepts(net, w, d, n, r) && d.f.ttl > 1 &&
             edge in Next(net, w, d).nodes[n].tree
    requires IsRun(net, Next(net, w, d), ds) && Brings(ds, rs) && (forall x | x in ds :: !IsLoss(x))
    requires After(net, Next(net, w, d), ds).pushes == multiset{}
    ensures Arrived(After(net, Next(net, w, d), ds), edge, r)
  {
    var w' := Next(net, w, d);
    StepDecreases(net, w, d, rs);
    AcceptedIsSent(net, w, d, rs, n, r, edge);
    if Arrived(w', edge, r) {
      ArrivedStays(net, w', ds, rs, edge, r);
    } else {
      PushesLand(net, w', ds, rs, Push(n, edge, r, d.f.ttl - 1));
    }
  }

  lemma {:induction false} PublishIsSent(net: Network, w: World, d: Delivery, edge: NodeID)
    requires Named(net, w) && Enabled(w, d) && d.Publishes? && Accepts(net, w, d, d.n, d.r)
    requires w.nodes[d.n].tree <= w.nodes[d.n].peers && edge in Next(net, w, d).nodes[d.n].tree
    ensures Push(d.n, edge, d.r, 8) in Next(net, w, d).pushes
  {
    AppliedIff(net(d.n), w.nodes[d.n].st, d.r, d.now);
    PublishSends(net(d.n), w.nodes[d.n], d.r, d.now, d.open);
    var s, x := PublishStep(net(d.n), w.nodes[d.n], d.r, d.now, d.open), Push(d.n, edge, d.r, 8);
    assert s.pushes[x] == 1;
    SentArrives(w.pushes, s.pushes, x);
  }

  /** Coverage of a publish: if a node publishes a record that it applies and the network then falls
      quiet without losing frames, every tree edge the node had at that moment has settled it. */
  lemma {:induction false} PublishReachesEdges(net: Network, w: World, d: Delivery, ds: seq<Delivery>, rs: set<Record>,
                                               edge: NodeID)
    requires Closed(w, rs) && Owners(rs) && Named(net, w) && Welcoming(net, w, rs)
    requires Enabled(w, d) && d.Publishes? && d.r in rs && Accepts(net, w, d, d.n, d.r)
    requires edge in Next(net, w, d).nodes[d.n].tree
    requires IsRun(net, Next(net, w, d), ds) && Brings(ds, rs) && (forall x | x in ds :: !IsLoss(x))
    requires After(net, Next(net, w, d), ds).pushes == multiset{}
    ensures Arrived(After(net, Next(net, w, d), ds), edge, d.r)
  {
    StepDecreases(net, w, d, rs);
    assert Sound(w.nodes[d.n], w.nodes.Keys, rs);
    PublishIsSent(net, w, d, edge);
    PushesLand(net, Next(net, w, d), ds, rs, Push(d.n, edge, d.r, 8));
  }
}
