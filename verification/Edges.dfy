/** The tree-edge flags under concurrent threads. The peer table is locked once per call: a promotion
    looks at the edges, decides, and sets its flags later, one by one, while others do the same. */
module TreeEdges {
  import opened Records
  import opened Finite
  import opened Plumtree

  /** What a thread has in hand between two calls: an inbound peer found not to be an edge, a
      shortfall of edges it has read, or the peers it is about to flag. */
  datatype Work = Checked(peer: NodeID) | Short(need: nat) | Flagging(todo: seq<NodeID>)

  datatype Table = Table(peers: set<NodeID>, tree: set<NodeID>, work: map<nat, Work>)

  datatype Call =
    | Check(i: nat, peer: NodeID)
    | CountEdges(i: nat)
    | ReadEdges(i: nat)
    | Choose(i: nat)
    | Flag(i: nat)
    | Unflag(peer: NodeID)
    | Add(peer: NodeID)
    | Remove(peer: NodeID)

  /** The peers chosen to make up a shortfall. */
  ghost function Chosen(p: Params, s: Table, need: nat): seq<NodeID> {
    var all := SortRanked(p, ListOf(s.peers - s.tree));
    if need <= |all| then all[..need] else all
  }

  /** A thread goes on flagging, or is done. */
  function Going(work: map<nat, Work>, i: nat, todo: seq<NodeID>): map<nat, Work> {
    if todo == [] then work - {i} else work[i := Flagging(todo)]
  }

  /** The call is one the thread makes next. */
  predicate Ready(s: Table, call: Call) {
    match call
    case Check(i, _) => i !in s.work
    case ReadEdges(i) => i !in s.work
    case CountEdges(i) => i in s.work && s.work[i].Checked?
    case Choose(i) => i in s.work && s.work[i].Short?
    case Flag(i) => i in s.work && s.work[i].Flagging? && s.work[i].todo != []
    case _ => true
  }

  ghost function TableStep(p: Params, s: Table, call: Call): Table
    requires Ready(s, call)
  {
    match call
    case Check(i, peer) => if peer in s.tree then s else s.(work := s.work[i := Checked(peer)])
    case CountEdges(i) =>
      s.(work := Going(s.work, i, if |s.tree| >= 4 * p.treeDegree then [] else [s.work[i].peer]))
    case ReadEdges(i) =>
      if |s.tree| >= p.treeDegree then s else s.(work := s.work[i := Short(p.treeDegree - |s.tree|)])
    case Choose(i) => s.(work := Going(s.work, i, Chosen(p, s, s.work[i].need)))
    case Flag(i) =>
      var todo := s.work[i].todo;
      Table(s.peers + {todo[0]}, s.tree + {todo[0]}, Going(s.work, i, todo[1..]))
    case Unflag(peer) => s.(peers := s.peers + {peer}, tree := s.tree - {peer})
    case Add(peer) => s.(peers := s.peers + {peer})
    case Remove(peer) => s.(peers := s.peers - {peer}, tree := s.tree - {peer})
  }

  ghost predicate IsTableRun(p: Params, ss: seq<Table>, calls: seq<Call>) {
    && |ss| == |calls| + 1
    && forall m {:trigger calls[m]} | 0 <= m < |calls| ::
         Ready(ss[m], calls[m]) && ss[m + 1] == TableStep(p, ss[m], calls[m])
  }

  // ---------- promotions under way ----------

  function Weight(w: Work): nat {
    match w
    case Checked(_) => 0
    case Short(need) => need
    case Flagging(todo) => |todo|
  }

  /** How many flags are still to be set by threads that have decided to. */
  ghost function Load(work: map<nat, Work>): nat
    decreases |work|
  {
    if work == map[] then 0
    else
      var i := SomeKey(work);
      RemovedSize(work, i);
      Weight(work[i]) + Load(work - {i})
  }

  lemma {:induction false} LoadWith(work: map<nat, Work>, i: nat)
    requires i in work
    ensures Load(work) == Weight(work[i]) + Load(work - {i})
    decreases |work|
  {
    var j := SomeKey(work);
    if j != i {
      RemovedSize(work, i);
      RemovedSize(work, j);
      LoadWith(work - {j}, i);
      LoadWith(work - {i}, j);
      assert work - {i} - {j} == work - {j} - {i};
    }
  }

  lemma {:induction false} LoadPut(work: map<nat, Work>, i: nat, w: Work)
    ensures Load(work[i := w]) == Weight(w) + Load(work - {i})
  {
    LoadWith(work[i := w], i);
    assert work[i := w] - {i} == work - {i};
  }

  lemma {:induction false} LoadGoing(work: map<nat, Work>, i: nat, todo: seq<NodeID>)
    ensures Load(Going(work, i, todo)) == |todo| + Load(work - {i})
  {
    if todo != [] {
      LoadPut(work, i, Flagging(todo));
    }
  }

  /** The others' promotions under way when a thread reads how many edges there are. */
  ghost predicate Overlaps(s: Table, call: Call, w: nat) {
    (call.CountEdges? || call.ReadEdges?) ==> Load(s.work - {call.i}) <= w
  }

  ghost predicate OverlapWithin(ss: seq<Table>, calls: seq<Call>, w: nat)
    requires |ss| == |calls| + 1
  {
    forall m {:trigger calls[m]} | 0 <= m < |calls| :: Overlaps(ss[m], calls[m], w)
  }

  ghost predicate Bounded(p: Params, s: Table, w: nat) {
    |s.tree| + Load(s.work) <= 4 * p.treeDegree + w
  }

  lemma {:induction false} ChosenSize(p: Params, s: Table, need: nat)
    ensures |Chosen(p, s, need)| <= need
  {
  }

  lemma {:induction false} WorkBounded(p: Params, s: Table, call: Call, w: nat)
    requires Ready(s, call) && Bounded(p, s, w) && Overlaps(s, call, w)
    requires call.Check? || call.CountEdges? || call.ReadEdges? || call.Choose?
    ensures Bounded(p, TableStep(p, s, call), w)
  {
    var others := s.work - {call.i};
    match call {
      case Check(i, peer) =>
        assert others == s.work;
        LoadPut(s.work, i, Checked(peer));
      case CountEdges(i) =>
        LoadWith(s.work, i);
        LoadGoing(s.work, i, if |s.tree| >= 4 * p.treeDegree then [] else [s.work[i].peer]);
      case ReadEdges(i) =>
        assert others == s.work;
        if |s.tree| < p.treeDegree {
          LoadPut(s.work, i, Short(p.treeDegree - |s.tree|));
        }
      case Choose(i) =>
        LoadWith(s.work, i);
        ChosenSize(p, s, s.work[i].need);
        LoadGoing(s.work, i, Chosen(p, s, s.work[i].need));
    }
  }

  lemma {:induction false} StepBounded(p: Params, s: Table, call: Call, w: nat)
    requires Ready(s, call) && Bounded(p, s, w) && Overlaps(s, call, w)
    ensures Bounded(p, TableStep(p, s, call), w)
  {
    match call {
      case Flag(i) =>
        LoadWith(s.work, i);
        LoadGoing(s.work, i, s.work[i].todo[1..]);
      case Unflag(peer) => SubsetCard(s.tree - {peer}, s.tree);
      case Remove(peer) => SubsetCard(s.tree - {peer}, s.tree);
      case Add(_) =>
      case _ => WorkBounded(p, s, call, w);
    }
  }

  /** In every interleaving, edges and promotions under way stay within four times the tree degree
      plus the largest number of promotions that were under way when another thread read the
      edges. */
  lemma {:induction false} EdgesBounded(p: Params, ss: seq<Table>, calls: seq<Call>, w: nat, m: nat)
    requires IsTableRun(p, ss, calls) && m < |ss| && Bounded(p, ss[0], w) && OverlapWithin(ss, calls, w)
    ensures |ss[m].tree| + Load(ss[m].work) <= 4 * p.treeDegree + w
  {
    if m > 0 {
      EdgesBounded(p, ss, calls, w, m - 1);
      StepBounded(p, ss[m - 1], calls[m - 1], w);
    }
  }

  // ---------- the bound is reached ----------

  function Name(i: nat): NodeID {
    seq(i, _ => 0)
  }

  lemma {:induction false} NamesDiffer(i: nat, j: nat)
    requires i != j
    ensures Name(i) != Name(j)
  {
    assert |Name(i)| == i && |Name(j)| == j;
  }

  ghost function Named(lo: nat, hi: nat): set<NodeID> {
    set i | lo <= i < hi :: Name(i)
  }

  lemma {:induction false} NamedSize(lo: nat, hi: nat)
    requires lo <= hi
    ensures |Named(lo, hi)| == hi - lo
  {
    if lo < hi {
      NamedSize(lo, hi - 1);
      forall i: nat | lo <= i < hi - 1
        ensures Name(i) != Name(hi - 1)
      {
        NamesDiffer(i, hi - 1);
      }
      assert Name(hi - 1) !in Named(lo, hi - 1);
      assert Named(lo, hi) == Named(lo, hi - 1) + {Name(hi - 1)};
    }
  }

  /** Threads `lo` to `hi` are each about to flag their own peer. */
  ghost function AboutTo(lo: nat, hi: nat): map<nat, Work> {
    map i: nat | lo <= i < hi :: Flagging([Name(i)])
  }

  lemma {:induction false} AboutToLoad(lo: nat, hi: nat)
    requires lo <= hi
    ensures Load(AboutTo(lo, hi)) == hi - lo
  {
    if lo < hi {
      AboutToLoad(lo, hi - 1);
      LoadWith(AboutTo(lo, hi), hi - 1);
      assert AboutTo(lo, hi) - {hi - 1} == AboutTo(lo, hi - 1);
    }
  }

  /** Each of `n` threads checks its peer and counts one edge fewer than the bound; then each flags. */
  function CallNo(n: nat, m: nat): Call {
    if m < 2 * n then (if m % 2 == 0 then Check(m / 2, Name(m / 2)) else CountEdges(m / 2)) else Flag(m - 2 * n)
  }

  ghost function TableNo(tree: set<NodeID>, n: nat, m: nat): Table {
    if m < 2 * n then
      Table(tree, tree, if m % 2 == 0 then AboutTo(0, m / 2) else AboutTo(0, m / 2)[m / 2 := Checked(Name(m / 2))])
    else Table(tree + Named(0, m - 2 * n), tree + Named(0, m - 2 * n), AboutTo(m - 2 * n, n))
  }

  lemma {:induction false} Reads(p: Params, tree: set<NodeID>, n: nat, m: nat)
    requires m < 2 * n && |tree| == 4 * p.treeDegree - 1 && tree !! Named(0, n)
    ensures var s, call := TableNo(tree, n, m), CallNo(n, m);
      Ready(s, call) && TableNo(tree, n, m + 1) == TableStep(p, s, call) && Overlaps(s, call, n - 1)
  {
    var i := m / 2;
    assert Name(i) in Named(0, n);
    if m % 2 == 1 {
      assert AboutTo(0, i)[i := Checked(Name(i))][i := Flagging([Name(i)])] == AboutTo(0, i + 1);
      assert AboutTo(0, i)[i := Checked(Name(i))] - {i} == AboutTo(0, i);
      AboutToLoad(0, i);
      assert m + 1 == 2 * n ==> Named(0, 0) == {} && tree + Named(0, 0) == tree;
    }
  }

  lemma {:induction false} NamedNext(lo: nat, i: nat)
    requires lo <= i
    ensures Named(lo, i + 1) == Named(lo, i) + {Name(i)}
  {
  }

  lemma {:induction false} AboutToNext(i: nat, n: nat)
    requires i < n
    ensures Going(AboutTo(i, n), i, []) == AboutTo(i + 1, n)
    ensures i in AboutTo(i, n) && AboutTo(i, n)[i] == Flagging([Name(i)])
  {
  }

  /** A thread with one peer in hand flags it. */
  lemma {:induction false} FlagOne(p: Params, s: Table, i: nat, peer: NodeID)
    requires i in s.work && s.work[i] == Flagging([peer])
    ensures TableStep(p, s, Flag(i)) == Table(s.peers + {peer}, s.tree + {peer}, Going(s.work, i, []))
  {
    assert [peer][1..] == [];
  }

  lemma {:induction false} Flags(p: Params, tree: set<NodeID>, n: nat, m: nat)
    requires 2 * n <= m < 3 * n
    ensures var s, call := TableNo(tree, n, m), CallNo(n, m);
      Ready(s, call) && TableNo(tree, n, m + 1) == TableStep(p, s, call) && Overlaps(s, call, n - 1)
  {
    var i, s := m - 2 * n, TableNo(tree, n, m);
    NamedNext(0, i);
    AboutToNext(i, n);
    FlagOne(p, s, i, Name(i));
    assert tree + Named(0, i + 1) == tree + Named(0, i) + {Name(i)};
  }

  /** The bound cannot be lowered: for every overlap there is a run that ends with as many edges. */
  lemma {:induction false} EdgesReach(p: Params, w: nat) returns (ss: seq<Table>, calls: seq<Call>)
    requires 0 < p.treeDegree
    ensures IsTableRun(p, ss, calls) && ss[0].work == map[] && |ss[0].tree| <= 4 * p.treeDegree &&
            OverlapWithin(ss, calls, w)
    ensures |ss[|calls|].tree| == 4 * p.treeDegree + w
  {
    var n := w + 1;
    var tree := Named(n, n + 4 * p.treeDegree - 1);
    NamedSize(n, n + 4 * p.treeDegree - 1);
    NamedApart(n, n + 4 * p.treeDegree - 1);
    ss, calls := RunOf(p, tree, n);
    NamedSize(0, n);
    JoinedSize(tree, Named(0, n));
  }

  lemma {:induction false} CallTakes(p: Params, tree: set<NodeID>, n: nat, m: nat)
    requires m < 3 * n && |tree| == 4 * p.treeDegree - 1 && tree !! Named(0, n)
    ensures var s, call := TableNo(tree, n, m), CallNo(n, m);
      Ready(s, call) && TableNo(tree, n, m + 1) == TableStep(p, s, call) && Overlaps(s, call, n - 1)
  {
    if m < 2 * n {
      Reads(p, tree, n, m);
    } else {
      Flags(p, tree, n, m);
    }
  }

  function CallsOf(n: nat): (calls: seq<Call>)
    ensures |calls| == 3 * n && forall m | 0 <= m < 3 * n :: calls[m] == CallNo(n, m)
  {
    seq(3 * n, m requires 0 <= m < 3 * n => CallNo(n, m))
  }

  ghost function TablesOf(tree: set<NodeID>, n: nat): (ss: seq<Table>)
    ensures |ss| == 3 * n + 1 && forall m | 0 <= m <= 3 * n :: ss[m] == TableNo(tree, n, m)
  {
    seq(3 * n + 1, m requires 0 <= m < 3 * n + 1 => TableNo(tree, n, m))
  }

  ghost predicate Follows(p: Params, s: Table, call: Call, s': Table, w: nat) {
    Ready(s, call) && s' == TableStep(p, s, call) && Overlaps(s, call, w)
  }

  lemma {:induction false} StepOf(p: Params, tree: set<NodeID>, n: nat, m: nat)
    requires m < 3 * n && |tree| == 4 * p.treeDegree - 1 && tree !! Named(0, n)
    ensures Follows(p, TablesOf(tree, n)[m], CallsOf(n)[m], TablesOf(tree, n)[m + 1], n - 1)
  {
    CallTakes(p, tree, n, m);
  }

  lemma {:induction false} RunOf(p: Params, tree: set<NodeID>, n: nat) returns (ss: seq<Table>, calls: seq<Call>)
    requires 0 < n && |tree| == 4 * p.treeDegree - 1 && tree !! Named(0, n)
    ensures IsTableRun(p, ss, calls) && OverlapWithin(ss, calls, n - 1)
    ensures ss[0] == Table(tree, tree, map[]) && ss[|calls|].tree == tree + Named(0, n)
  {
    ss, calls := TablesOf(tree, n), CallsOf(n);
    forall m | 0 <= m < |calls|
      ensures Follows(p, ss[m], calls[m], ss[m + 1], n - 1)
    {
      StepOf(p, tree, n, m);
    }
    FollowsAll(p, ss, calls, n - 1);
    FirstAndLast(tree, n);
  }

  lemma {:induction false} FirstAndLast(tree: set<NodeID>, n: nat)
    requires 0 < n
    ensures TableNo(tree, n, 0) == Table(tree, tree, map[]) && TableNo(tree, n, 3 * n).tree == tree + Named(0, n)
  {
    assert AboutTo(0, 0) == map[];
  }

  lemma {:induction false} FollowsAll(p: Params, ss: seq<Table>, calls: seq<Call>, w: nat)
    requires |ss| == |calls| + 1
    requires forall m | 0 <= m < |calls| :: Follows(p, ss[m], calls[m], ss[m + 1], w)
    ensures IsTableRun(p, ss, calls) && OverlapWithin(ss, calls, w)
  {
    forall m | 0 <= m < |calls|
      ensures Ready(ss[m], calls[m]) && ss[m + 1] == TableStep(p, ss[m], calls[m]) && Overlaps(ss[m], calls[m], w)
    {
      assert Follows(p, ss[m], calls[m], ss[m + 1], w);
    }
  }

  lemma {:induction false} JoinedSize(a: set<NodeID>, b: set<NodeID>)
    requires a !! b
    ensures |a + b| == |a| + |b|
  {
  }

  lemma {:induction false} NamedApart(n: nat, hi: nat)
    ensures Named(n, hi) !! Named(0, n)
  {
    forall i: nat, j: nat | i < n <= j
      ensures Name(i) != Name(j)
    {
      NamesDiffer(i, j);
    }
  }

  /** Every run from no promotion under way keeps the edges within four times the tree degree. */
  ghost predicate KeepsBound(p: Params, w: nat) {
    forall ss: seq<Table>, calls | IsTableRun(p, ss, calls) && ss[0].work == map[] &&
      |ss[0].tree| <= 4 * p.treeDegree &&
      OverlapWithin(ss, calls, w) :: |ss[|calls|].tree| <= 4 * p.treeDegree
  }

  /** The bound that is meant holds exactly if no thread reads the edges while another's promotion
      is under way. */
  lemma {:induction false} KeepsBoundIff(p: Params, w: nat)
    requires 0 < p.treeDegree
    ensures KeepsBound(p, w) <==> w == 0
  {
    if w == 0 {
      forall ss: seq<Table>, calls | IsTableRun(p, ss, calls) && ss[0].work == map[] &&
        |ss[0].tree| <= 4 * p.treeDegree && OverlapWithin(ss, calls, w)
        ensures |ss[|calls|].tree| <= 4 * p.treeDegree
      {
        EdgesBounded(p, ss, calls, w, |calls|);
      }
    } else {
      var ss, calls := EdgesReach(p, w);
    }
  }

  // ---------- an undisturbed thread ----------

  /** A thread flags all it has in hand. */
  ghost function FlagAll(p: Params, s: Table, i: nat): Table
    requires i in s.work && s.work[i].Flagging? && s.work[i].todo != []
    decreases |s.work[i].todo|
  {
    var s' := TableStep(p, s, Flag(i));
    if |s.work[i].todo| == 1 then s' else FlagAll(p, s', i)
  }

  lemma {:induction false} FlagAllAdds(p: Params, s: Table, i: nat)
    requires i in s.work && s.work[i].Flagging? && s.work[i].todo != []
    ensures FlagAll(p, s, i) == var all := SetOf(s.work[i].todo); Table(s.peers + all, s.tree + all, s.work - {i})
    decreases |s.work[i].todo|
  {
    var todo := s.work[i].todo;
    assert todo == [todo[0]] + todo[1..];
    assert SetOf(todo) == {todo[0]} + SetOf(todo[1..]);
    if |todo| > 1 {
      var s' := TableStep(p, s, Flag(i));
      FlagAllAdds(p, s', i);
      assert s'.work - {i} == s.work - {i};
      assert s'.tree + SetOf(todo[1..]) == s.tree + SetOf(todo);
      assert s'.peers + SetOf(todo[1..]) == s.peers + SetOf(todo);
    } else {
      assert SetOf(todo[1..]) == {};
    }
  }

  /** Undisturbed, the calls of an inbound promotion amount to the engine's single step. */
  lemma {:induction false} AloneIsPromote(p: Params, e: Engine, peer: NodeID, i: nat)
    requires peer !in e.tree
    ensures var s := TableStep(p, Table(e.peers, e.tree, map[]), Check(i, peer));
      var s' := TableStep(p, s, CountEdges(i));
      var end := if i in s'.work then TableStep(p, s', Flag(i)) else s';
      end == Table(Promote(p, e, peer).peers, Promote(p, e, peer).tree, map[])
  {
    assert [peer][1..] == [];
  }

  /** And those of a publish to its choice of the best edges. */
  lemma {:induction false} AloneIsBest(p: Params, e: Engine, i: nat)
    requires |e.tree| < p.treeDegree && e.tree <= e.peers
    ensures var s := TableStep(p, TableStep(p, Table(e.peers, e.tree, map[]), ReadEdges(i)), Choose(i));
      var end := if i in s.work then FlagAll(p, s, i) else s;
      end == Table(e.peers, BestTree(p, e), map[])
  {
    var s1 := TableStep(p, Table(e.peers, e.tree, map[]), ReadEdges(i));
    assert s1.work - {i} == map[];
    ChosenIsBest(p, e, s1);
    ChooseThenFlag(p, s1, i, Chosen(p, s1, Need(p, e)));
    assert e.peers + BestChoice(p, e) == e.peers;
  }

  lemma {:induction false} ChosenIsBest(p: Params, e: Engine, s: Table)
    requires s.peers == e.peers && s.tree == e.tree
    ensures SetOf(Chosen(p, s, Need(p, e))) == BestChoice(p, e) <= e.peers
  {
    BestIsBest(p, e);
  }

  lemma {:induction false} ChooseThenFlag(p: Params, s: Table, i: nat, chosen: seq<NodeID>)
    requires i in s.work && s.work[i].Short? && chosen == Chosen(p, s, s.work[i].need)
    ensures var s' := TableStep(p, s, Choose(i));
      var end := if i in s'.work then FlagAll(p, s', i) else s';
      end == Table(s.peers + SetOf(chosen), s.tree + SetOf(chosen), s.work - {i})
  {
    var s' := TableStep(p, s, Choose(i));
    if chosen == [] {
      assert SetOf(chosen) == {};
      assert s.peers + {} == s.peers && s.tree + {} == s.tree;
    } else {
      FlagAllAdds(p, s', i);
      assert s'.work - {i} == s.work - {i};
    }
  }
}
