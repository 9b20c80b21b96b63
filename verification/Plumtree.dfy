/** The dissemination engine of one node: what an eager push, an announcement, a graft request, a
    prune and a tick do to it, and which frames it sends in return. */
module Plumtree {
  import opened Bytes
  import opened Records
  import opened Finite
  import opened Store
  import RecordStores

  const SECOND: int := 1_000_000_000
  const IHAVE_TTL: int := 30 * SECOND
  const EAGER_TTL: nat := 8

  /** The slot and HLC an announcement or a graft names. */
  datatype Wanted = Wanted(topic: Topic, node: NodeID, key: Key, hlc: u64)

  function WantedOf(r: Record): Wanted {
    Wanted(r.topic, r.nodeID, r.key, r.hlc)
  }

  function SlotWanted(k: Wanted): Slot {
    Slot(k.node, k.key)
  }

  datatype Push = Push(src: NodeID, dst: NodeID, r: Record, ttl: nat)
  datatype Graft = Graft(src: NodeID, dst: NodeID, want: Wanted)
  datatype Note = IHave(src: NodeID, dst: NodeID, want: Wanted) | Prune(src: NodeID, dst: NodeID, topic: Topic)

  datatype Entry = Entry(announcer: NodeID, seenAt: int, grafted: bool)

  datatype Params = Params(self: NodeID, c: Config, treeDegree: nat, graftDelay: int, maxIHaves: nat,
                           admit: Record -> bool, priority: NodeID -> int)

  /** The store, the known peers, those of them pushed to eagerly, and the announced records that
      have not arrived. */
  datatype Engine = Engine(st: Stores, peers: set<NodeID>, tree: set<NodeID>, missing: map<Wanted, Entry>)

  /** One frame for each destination. */
  ghost function ToEach<F>(dst: set<NodeID>, frame: NodeID -> F): multiset<F> {
    if dst == {} then multiset{} else ToEach(dst - {Pick(dst)}, frame) + multiset{frame(Pick(dst))}
  }

  function PushTo(self: NodeID, r: Record, ttl: nat): NodeID -> Push {
    (dst: NodeID) => Push(self, dst, r, ttl)
  }

  function AnnounceTo(self: NodeID, r: Record): NodeID -> Note {
    (dst: NodeID) => IHave(self, dst, WantedOf(r))
  }

  /** The bounded promotion of a peer to a tree edge. */
  function Promote(p: Params, e: Engine, peer: NodeID): Engine {
    if peer in e.tree || |e.tree| >= 4 * p.treeDegree then e
    else e.(tree := e.tree + {peer}, peers := e.peers + {peer})
  }

  /** The order of promotion: higher priority first, then the smaller NodeID. */
  predicate Outranks(p: Params, a: NodeID, b: NodeID) {
    p.priority(a) > p.priority(b) || (p.priority(a) == p.priority(b) && LexLess(a, b))
  }

  /** How many edges are missing from the tree degree. */
  function Need(p: Params, e: Engine): nat {
    if |e.tree| >= p.treeDegree then 0 else p.treeDegree - |e.tree|
  }

  /** `best` are the peers to promote: the highest-ranked ones that are not tree edges yet, as many
      as the degree calls for and there are. */
  ghost predicate IsBest(p: Params, e: Engine, best: set<NodeID>) {
    var rest := e.peers - e.tree;
    && best <= rest && |best| == (if Need(p, e) <= |rest| then Need(p, e) else |rest|)
    && forall a, b | a in best && b in rest - best :: Outranks(p, a, b)
  }

  function Held(st: Stores, k: Wanted): map<Slot, Record> {
    TopicOf(st, k.topic).records
  }

  /** The slot is held at the wanted HLC or above; a tombstone counts. */
  predicate Has(st: Stores, k: Wanted) {
    SlotWanted(k) in Held(st, k) && k.hlc <= Held(st, k)[SlotWanted(k)].hlc
  }

  datatype Sent = Sent(e: Engine, pushes: multiset<Push>, notes: multiset<Note>)

  /** An eager push arrives; `open` are the peers whose flow control lets an announcement through.
      A fresh attestation below quorum takes RelayStep instead. */
  ghost function EagerStep(p: Params, e: Engine, f: Push, now: int, open: set<NodeID>): Sent {
    if !p.admit(f.r) then Sent(e, multiset{}, multiset{})
    else
      var (st, out) := Apply(p.c, e.st, f.r, now);
      if out.applied then
        var e' := Promote(p, e, f.src).(st := st, missing := e.missing - {WantedOf(f.r)});
        Sent(e',
             if f.ttl > 1 then ToEach(e'.tree - {f.src}, PushTo(p.self, f.r, f.ttl - 1)) else multiset{},
             ToEach((e'.peers - e'.tree) * open, AnnounceTo(p.self, f.r)))
      else
        Sent(e.(st := st), multiset{}, if out.replaced then multiset{Prune(p.self, f.src, f.r.topic)} else multiset{})
  }

  /** The push is a fresh attestation below quorum, which must travel on. */
  ghost predicate Relays(p: Params, e: Engine, f: Push, now: int) {
    var out := Apply(p.c, e.st, f.r, now).1;
    p.admit(f.r) && f.r.IsAttestation() && !out.applied && out.accumulated
  }

  /** Such an attestation goes to the tree edges, after the best peers have been promoted. */
  ghost function RelayStep(p: Params, e: Engine, f: Push, now: int): Sent {
    var e' := e.(st := Apply(p.c, e.st, f.r, now).0);
    if f.ttl > 1 then
      Sent(e'.(tree := BestTree(p, e)), ToEach(BestTree(p, e) - {f.src}, PushTo(p.self, f.r, f.ttl - 1)), multiset{})
    else Sent(e', multiset{}, multiset{})
  }

  /** What an eager push does. */
  ghost function PushStep(p: Params, e: Engine, f: Push, now: int, open: set<NodeID>): Sent {
    if Relays(p, e, f, now) then RelayStep(p, e, f, now) else EagerStep(p, e, f, now, open)
  }

  /** A local publish: nothing is sent unless the store changed. */
  ghost function PublishStep(p: Params, e: Engine, r: Record, now: int, open: set<NodeID>): Sent {
    var (st, out) := Apply(p.c, e.st, r, now);
    if out.applied then
      var e' := e.(st := st, tree := BestTree(p, e));
      Sent(e', ToEach(e'.tree, PushTo(p.self, r, EAGER_TTL)),
           ToEach((e'.peers - e'.tree) * open, AnnounceTo(p.self, r)))
    else Sent(e.(st := st), multiset{}, multiset{})
  }

  /** A broadcast sends whatever the store made of the record. */
  ghost function BroadcastStep(p: Params, e: Engine, r: Record, open: set<NodeID>): Sent {
    var e' := e.(tree := BestTree(p, e));
    Sent(e', ToEach(e'.tree, PushTo(p.self, r, EAGER_TTL)), ToEach((e'.peers - e'.tree) * open, AnnounceTo(p.self, r)))
  }

  function IHaveStep(p: Params, e: Engine, src: NodeID, k: Wanted, now: int): Engine {
    if Has(e.st, k) || k in e.missing || |e.missing| >= p.maxIHaves then e
    else e.(missing := e.missing[k := Entry(src, now, false)])
  }

  function PruneStep(e: Engine, src: NodeID): Engine {
    e.(tree := e.tree - {src}, peers := e.peers + {src})
  }

  /** A graft request is served from exactly the slot it names, unless that holds a local
      synthesised tombstone. */
  function GraftStep(p: Params, e: Engine, g: Graft): (Engine, multiset<Push>) {
    var slot, held := SlotWanted(g.want), Held(e.st, g.want);
    (Promote(p, e, g.src),
     if slot in held && held[slot].IsSigned() then multiset{Push(p.self, g.src, held[slot], EAGER_TTL)}
     else multiset{})
  }

  predicate Lapsed(entry: Entry, now: int) {
    now - entry.seenAt > IHAVE_TTL
  }

  predicate Due(p: Params, entry: Entry, now: int) {
    !Lapsed(entry, now) && !entry.grafted && now - entry.seenAt >= p.graftDelay
  }

  function Ticked(p: Params, entry: Entry, now: int): Entry {
    if Due(p, entry, now) then entry.(grafted := true) else entry
  }

  function TickStep(p: Params, e: Engine, now: int): Engine {
    e.(missing := map k | k in e.missing && !Lapsed(e.missing[k], now) :: Ticked(p, e.missing[k], now))
  }

  /** The grafts a tick sends. */
  function Grafts(p: Params, e: Engine, now: int): set<Graft> {
    set k | k in e.missing && Due(p, e.missing[k], now) :: Graft(p.self, e.missing[k].announcer, k)
  }

  // ---------- the engine as the code runs it ----------

  /** The send loop over a set of peers, in map order. */
  method SendEach<F>(dst: set<NodeID>, frame: NodeID -> F) returns (out: seq<F>)
    ensures multiset(out) == ToEach(dst, frame)
  {
    out := [];
    var rest := dst;
    while rest != {}
      invariant multiset(out) + ToEach(rest, frame) == ToEach(dst, frame)
      decreases |rest|
    {
      var d :| d in rest;
      ToEachSplit(rest, d, frame);
      out := out + [frame(d)];
      rest := rest - {d};
    }
  }

  lemma {:induction false} ToEachSplit<F>(dst: set<NodeID>, d: NodeID, frame: NodeID -> F)
    requires d in dst
    ensures ToEach(dst, frame) == ToEach(dst - {d}, frame) + multiset{frame(d)}
    decreases |dst|
  {
    var x := Pick(dst);
    if x != d {
      ToEachSplit(dst - {x}, d, frame);
      ToEachSplit(dst - {d}, x, frame);
      assert dst - {x} - {d} == dst - {d} - {x};
    }
  }

  // ---------- choosing tree edges ----------

  function InsertRanked(p: Params, s: seq<NodeID>, x: NodeID): seq<NodeID> {
    if s == [] || Outranks(p, x, s[0]) then [x] + s else [s[0]] + InsertRanked(p, s[1..], x)
  }

  /** sort.Slice under the order of promotion. */
  function SortRanked(p: Params, s: seq<NodeID>): seq<NodeID> {
    if s == [] then [] else InsertRanked(p, SortRanked(p, s[1..]), s[0])
  }

  ghost predicate Ranked(p: Params, s: seq<NodeID>) {
    forall i, j | 0 <= i < j < |s| :: Outranks(p, s[i], s[j])
  }

  ghost function SetOf(s: seq<NodeID>): set<NodeID> {
    set x | x in s
  }

  lemma {:induction false} OutranksOrder(p: Params, a: NodeID, b: NodeID, c: NodeID)
    ensures !Outranks(p, a, a)
    ensures Outranks(p, a, b) && Outranks(p, b, c) ==> Outranks(p, a, c)
    ensures a != b ==> Outranks(p, a, b) || Outranks(p, b, a)
  {
    LexIrreflexive(a);
    LexTotal(a, b);
    if LexLess(a, b) && LexLess(b, c) {
      LexTransitive(a, b, c);
    }
  }

  lemma {:induction false} InsertRanks(p: Params, s: seq<NodeID>, x: NodeID)
    requires Ranked(p, s) && x !in s
    ensures var t := InsertRanked(p, s, x); Ranked(p, t) && SetOf(t) == SetOf(s) + {x} && |t| == |s| + 1
  {
    if s == [] {
    } else if Outranks(p, x, s[0]) {
      forall i | 0 <= i < |s|
        ensures Outranks(p, x, s[i])
      {
        OutranksOrder(p, x, s[0], s[i]);
      }
      assert SetOf([x] + s) == SetOf(s) + {x};
    } else {
      var rest := InsertRanked(p, s[1..], x);
      InsertRanks(p, s[1..], x);
      OutranksOrder(p, x, s[0], x);
      assert SetOf(s) == {s[0]} + SetOf(s[1..]) by {
        assert s == [s[0]] + s[1..];
      }
      assert SetOf([s[0]] + rest) == {s[0]} + SetOf(rest);
      forall j | 0 <= j < |rest|
        ensures Outranks(p, s[0], rest[j])
      {
        assert rest[j] in SetOf(rest);
      }
    }
  }

  lemma {:induction false} SortRanks(p: Params, s: seq<NodeID>)
    requires forall i, j | 0 <= i < j < |s| :: s[i] != s[j]
    ensures Ranked(p, SortRanked(p, s)) && SetOf(SortRanked(p, s)) == SetOf(s) && |SortRanked(p, s)| == |s|
  {
    if s != [] {
      SortRanks(p, s[1..]);
      assert s[0] !in SetOf(s[1..]);
      assert s[0] !in SortRanked(p, s[1..]) by {
        assert s[0] in SortRanked(p, s[1..]) <==> s[0] in SetOf(SortRanked(p, s[1..]));
      }
      InsertRanks(p, SortRanked(p, s[1..]), s[0]);
      assert s == [s[0]] + s[1..];
    }
  }

  /** A prefix of the ranked list is the best choice of its size. */
  lemma {:induction false} PrefixIsBest(p: Params, e: Engine, s: seq<NodeID>, n: nat)
    requires Ranked(p, s) && SetOf(s) == e.peers - e.tree && |s| == |e.peers - e.tree|
    requires n == (if Need(p, e) <= |s| then Need(p, e) else |s|)
    ensures IsBest(p, e, SetOf(s[..n]))
  {
    var best, rest := SetOf(s[..n]), e.peers - e.tree;
    forall q | 0 <= q < n
      ensures s[q] in best
    {
      assert s[..n][q] == s[q];
    }
    forall a, b | a in best && b in rest - best
      ensures Outranks(p, a, b)
    {
      var i :| 0 <= i < n && s[i] == a;
      assert b in SetOf(s);
      var j :| 0 <= j < |s| && s[j] == b;
    }
    DistinctSize(p, s[..n]);
    assert best <= rest by {
      forall x | x in best
        ensures x in rest
      {
        assert x in SetOf(s);
      }
    }
  }

  lemma {:induction false} DistinctSize(p: Params, s: seq<NodeID>)
    requires Ranked(p, s)
    ensures |SetOf(s)| == |s|
  {
    if s != [] {
      DistinctSize(p, s[1..]);
      assert s == [s[0]] + s[1..];
      assert SetOf(s) == {s[0]} + SetOf(s[1..]);
      if s[0] in s[1..] {
        var j :| 0 <= j < |s[1..]| && s[1..][j] == s[0];
        OutranksOrder(p, s[0], s[0], s[0]);
      }
    }
  }

  lemma {:induction false} BestIncludes(p: Params, e: Engine, a: set<NodeID>, b: set<NodeID>)
    requires IsBest(p, e, a) && IsBest(p, e, b)
    ensures b <= a
  {
    if !(b <= a) {
      var x :| x in b && x !in a;
      if a <= b {
        SubsetCard(a, b);
      } else {
        var y :| y in a && y !in b;
        OutranksOrder(p, x, y, x);
      }
    }
  }

  /** The choice is determined: no two sets are both the best. */
  lemma {:induction false} BestUnique(p: Params, e: Engine, a: set<NodeID>, b: set<NodeID>)
    requires IsBest(p, e, a) && IsBest(p, e, b)
    ensures a == b
  {
    BestIncludes(p, e, a, b);
    BestIncludes(p, e, b, a);
  }

  /** The peers in map order. */
  method ListPeers(peers: set<NodeID>) returns (out: seq<NodeID>)
    ensures SetOf(out) == peers && |out| == |peers| && forall i, j | 0 <= i < j < |out| :: out[i] != out[j]
  {
    out := [];
    var rest := peers;
    while rest != {}
      invariant rest <= peers && SetOf(out) == peers - rest && |out| + |rest| == |peers|
      invariant forall i, j | 0 <= i < j < |out| :: out[i] != out[j]
      decreases rest
    {
      var x :| x in rest;
      assert x !in SetOf(out);
      assert SetOf(out + [x]) == SetOf(out) + {x};
      rest, out := rest - {x}, out + [x];
    }
  }

  ghost function ListOf(s: set<NodeID>): seq<NodeID> {
    if s == {} then [] else [Pick(s)] + ListOf(s - {Pick(s)})
  }

  lemma {:induction false} ListOfAll(s: set<NodeID>)
    ensures SetOf(ListOf(s)) == s && |ListOf(s)| == |s|
    ensures forall i, j | 0 <= i < j < |ListOf(s)| :: ListOf(s)[i] != ListOf(s)[j]
  {
    if s != {} {
      var x := Pick(s);
      ListOfAll(s - {x});
      assert SetOf([x] + ListOf(s - {x})) == {x} + SetOf(ListOf(s - {x}));
      assert x !in SetOf(ListOf(s - {x}));
    }
  }

  /** The best choice. */
  ghost function BestChoice(p: Params, e: Engine): set<NodeID> {
    var s := SortRanked(p, ListOf(e.peers - e.tree));
    SetOf(if Need(p, e) <= |s| then s[..Need(p, e)] else s)
  }

  ghost function BestTree(p: Params, e: Engine): set<NodeID> {
    e.tree + BestChoice(p, e)
  }

  /** The tree edges promoted up to the degree are the highest-ranked peers there are. */
  lemma {:induction false} BestIsBest(p: Params, e: Engine)
    ensures IsBest(p, e, BestChoice(p, e))
  {
    var s := ListOf(e.peers - e.tree);
    ListOfAll(e.peers - e.tree);
    SortRanks(p, s);
    var t := SortRanked(p, s);
    assert t[..|t|] == t;
    PrefixIsBest(p, e, t, if Need(p, e) <= |t| then Need(p, e) else |t|);
  }

  /** Once the edges have been made up, there is nothing to add. */
  lemma {:induction false} BestAgain(p: Params, e: Engine)
    ensures var e' := e.(tree := BestTree(p, e)); BestTree(p, e') == e'.tree
  {
    var e' := e.(tree := BestTree(p, e));
    BestIsBest(p, e);
    BestIsBest(p, e');
    var rest, best := e.peers - e.tree, BestChoice(p, e);
    assert |e'.tree| == |e.tree| + |best|;
    if Need(p, e) > |rest| {
      SubsetFull(best, rest);
      assert e'.peers - e'.tree == {};
    }
    assert BestChoice(p, e') == {};
  }

  lemma {:induction false} SubsetFull(a: set<NodeID>, b: set<NodeID>)
    requires a <= b && |a| == |b|
    ensures a == b
  {
    if a != b {
      var x :| x in b && x !in a;
      SubsetCard(a, b - {x});
    }
  }

  /** bestTreeEdges: sort the candidates and promote from the front. */
  method BestTreeEdges(p: Params, peers: set<NodeID>, tree: set<NodeID>, ghost e: Engine) returns (edges: set<NodeID>)
    requires e.peers == peers && e.tree == tree
    ensures edges == BestTree(p, e)
  {
    BestIsBest(p, e);
    edges := tree;
    if |tree| >= p.treeDegree {
      assert BestChoice(p, e) == {};
      return;
    }
    var all := ListPeers(peers - tree);
    SortRanks(p, all);
    all := SortRanked(p, all);
    var need := p.treeDegree - |tree|;
    var n := if need <= |all| then need else |all|;
    PrefixIsBest(p, e, all, n);
    BestUnique(p, e, SetOf(all[..n]), BestChoice(p, e));
    edges := Promoted(tree, all, n);
  }

  /** The promotion loop. */
  method Promoted(tree: set<NodeID>, all: seq<NodeID>, n: nat) returns (edges: set<NodeID>)
    requires n <= |all|
    ensures edges == tree + SetOf(all[..n])
  {
    edges := tree;
    for i := 0 to n
      invariant edges == tree + SetOf(all[..i])
    {
      assert all[..i + 1] == all[..i] + [all[i]];
      edges := edges + {all[i]};
    }
  }

  class PlumtreeEngine {
    const p: Params
    const store: RecordStores.RecordStore
    var peers: set<NodeID>
    var tree: set<NodeID>
    var missing: map<Wanted, Entry>

    constructor (self: NodeID, store: RecordStores.RecordStore, treeDegree: int, graftDelay: int,
                 admit: Record -> bool, priority: NodeID -> int)
      requires store.cfg.Valid()
      ensures Valid() && this.store == store && State() == Engine(store.byTopic, {}, {}, map[])
      ensures p == Params(self, store.cfg, if treeDegree <= 0 then 4 else treeDegree,
                          if graftDelay <= 0 then SECOND / 5 else graftDelay, 4096, admit, priority)
    {
      this.p := Params(self, store.cfg, if treeDegree <= 0 then 4 else treeDegree,
                       if graftDelay <= 0 then SECOND / 5 else graftDelay, 4096, admit, priority);
      this.store := store;
      this.peers, this.tree, this.missing := {}, {}, map[];
    }

    ghost predicate Valid()
      reads this, store
    {
      store.cfg == p.c && p.c.Valid()
    }

    ghost function State(): Engine
      reads this, store
    {
      Engine(store.byTopic, peers, tree, missing)
    }

    method PromoteTreeEdgeBounded(peer: NodeID)
      modifies this
      ensures missing == old(missing) && Engine(store.byTopic, peers, tree, missing) == Promote(p, old(State()), peer)
    {
      if peer in tree || |tree| >= 4 * p.treeDegree {
        return;
      }
      peers := peers + {peer};
      tree := tree + {peer};
    }

    /** An eager push: a fresh attestation below quorum is relayed, anything else is applied and
        forwarded, answered with a prune, or dropped. */
    method HandleEager(f: Push, now: int, open: set<NodeID>) returns (pushes: seq<Push>, notes: seq<Note>)
      requires Valid()
      modifies this, store
      ensures Valid()
      ensures Sent(State(), multiset(pushes), multiset(notes)) == PushStep(p, old(State()), f, now, open)
    {
      pushes, notes := [], [];
      if !p.admit(f.r) {
        return;
      }
      ghost var before := State();
      var applied, replaced, accumulated := store.ApplyExt(f.r, now);
      if !applied && accumulated && f.r.IsAttestation() {
        if f.ttl > 1 {
          tree := BestTreeEdges(p, peers, tree, before);
          pushes := SendEach(tree - {f.src}, PushTo(p.self, f.r, f.ttl - 1));
        }
        return;
      }
      if !applied {
        if replaced {
          notes := [Prune(p.self, f.src, f.r.topic)];
        }
        return;
      }
      pushes, notes := Accept(f, open, before);
    }

    /** The rest of the handler, once the store has taken the record. */
    method Accept(f: Push, open: set<NodeID>, ghost before: Engine) returns (pushes: seq<Push>, notes: seq<Note>)
      requires before.peers == peers && before.tree == tree && before.missing == missing
      modifies this
      ensures var e' := Promote(p, before, f.src).(st := store.byTopic, missing := before.missing - {WantedOf(f.r)});
        && State() == e'
        && multiset(pushes) ==
           (if f.ttl > 1 then ToEach(e'.tree - {f.src}, PushTo(p.self, f.r, f.ttl - 1)) else multiset{})
        && multiset(notes) == ToEach((e'.peers - e'.tree) * open, AnnounceTo(p.self, f.r))
    {
      pushes := [];
      PromoteTreeEdgeBounded(f.src);
      missing := missing - {WantedOf(f.r)};
      if f.ttl > 1 {
        pushes := SendEach(tree - {f.src}, PushTo(p.self, f.r, f.ttl - 1));
      }
      notes := SendEach((peers - tree) * open, AnnounceTo(p.self, f.r));
    }

    /** A local publish. */
    method Publish(r: Record, now: int, open: set<NodeID>) returns (pushes: seq<Push>, notes: seq<Note>)
      requires Valid()
      modifies this, store
      ensures Valid()
      ensures Sent(State(), multiset(pushes), multiset(notes)) == PublishStep(p, old(State()), r, now, open)
    {
      pushes, notes := [], [];
      ghost var before := State();
      var applied, replaced, accumulated := store.ApplyExt(r, now);
      if !applied {
        return;
      }
      tree := BestTreeEdges(p, peers, tree, before);
      pushes := SendEach(tree, PushTo(p.self, r, EAGER_TTL));
      notes := SendEach((peers - tree) * open, AnnounceTo(p.self, r));
    }

    /** A local broadcast. */
    method Broadcast(r: Record, open: set<NodeID>) returns (pushes: seq<Push>, notes: seq<Note>)
      requires Valid()
      modifies this
      ensures Valid()
      ensures Sent(State(), multiset(pushes), multiset(notes)) == BroadcastStep(p, old(State()), r, open)
    {
      ghost var before := State();
      tree := BestTreeEdges(p, peers, tree, before);
      pushes := SendEach(tree, PushTo(p.self, r, EAGER_TTL));
      notes := SendEach((peers - tree) * open, AnnounceTo(p.self, r));
    }

    method HandleIHave(src: NodeID, k: Wanted, now: int)
      modifies this
      ensures State() == IHaveStep(p, old(State()), src, k, now)
    {
      var held := TopicOf(store.byTopic, k.topic).records;
      if SlotWanted(k) in held && held[SlotWanted(k)].hlc >= k.hlc {
        return;
      }
      if k in missing || |missing| >= p.maxIHaves {
        return;
      }
      missing := missing[k := Entry(src, now, false)];
    }

    method HandleGraft(g: Graft) returns (pushes: seq<Push>)
      modifies this
      ensures (State(), multiset(pushes)) == GraftStep(p, old(State()), g)
    {
      PromoteTreeEdgeBounded(g.src);
      pushes := [];
      var held := TopicOf(store.byTopic, g.want.topic).records;
      if SlotWanted(g.want) in held && held[SlotWanted(g.want)].IsSigned() {
        pushes := [Push(p.self, g.src, held[SlotWanted(g.want)], EAGER_TTL)];
      }
    }

    method HandlePrune(src: NodeID)
      modifies this
      ensures State() == PruneStep(old(State()), src)
    {
      peers := peers + {src};
      tree := tree - {src};
    }

    /** The graft loop: entries are visited in map order, expired, skipped or grafted. */
    method ProcessGrafts(now: int) returns (grafts: seq<Graft>)
      modifies this
      ensures State() == TickStep(p, old(State()), now)
      ensures forall g :: g in grafts <==> g in Grafts(p, old(State()), now)
      ensures forall i, j | 0 <= i < j < |grafts| :: grafts[i] != grafts[j]
    {
      ghost var before, goal := missing, TickStep(p, State(), now).missing;
      grafts := [];
      var rest := missing.Keys;
      while rest != {}
        invariant store.byTopic == old(store.byTopic) && peers == old(peers) && tree == old(tree)
        invariant Walked(before, missing, goal, rest) && Emitted(p, before, grafts, rest, now)
        decreases |rest|
      {
        var k :| k in rest;
        ghost var was, sent := missing, grafts;
        var entry := missing[k];
        if now - entry.seenAt > IHAVE_TTL {
          missing := missing - {k};
        } else if !entry.grafted && now - entry.seenAt >= p.graftDelay {
          grafts := grafts + [Graft(p.self, entry.announcer, k)];
          missing := missing[k := entry.(grafted := true)];
        }
        WalkedStep(before, was, goal, rest, k, missing);
        EmittedStep(p, before, sent, rest, now, k);
        rest := rest - {k};
      }
      WalkedAll(before, missing, goal);
    }
  }

  /** The grafts of the visited keys that were due, each once. */
  ghost predicate Emitted(p: Params, before: map<Wanted, Entry>, grafts: seq<Graft>, rest: set<Wanted>, now: int) {
    && (forall i | 0 <= i < |grafts| :: grafts[i].want !in rest && IsDue(p, before, grafts[i], now))
    && (forall k | k in before && k !in rest && Due(p, before[k], now) ::
          Graft(p.self, before[k].announcer, k) in grafts)
    && (forall i, j | 0 <= i < j < |grafts| :: grafts[i].want != grafts[j].want)
  }

  predicate IsDue(p: Params, before: map<Wanted, Entry>, g: Graft, now: int) {
    && g.want in before && Due(p, before[g.want], now)
    && g == Graft(p.self, before[g.want].announcer, g.want)
  }

  lemma {:induction false} EmittedStep(p: Params, before: map<Wanted, Entry>, grafts: seq<Graft>, rest: set<Wanted>,
                                       now: int, k: Wanted)
    requires Emitted(p, before, grafts, rest, now) && k in rest && k in before
    ensures var more := if Due(p, before[k], now) then [Graft(p.self, before[k].announcer, k)] else [];
      Emitted(p, before, grafts + more, rest - {k}, now)
  {
    if !Due(p, before[k], now) {
      assert grafts + [] == grafts;
    }
  }
}
