/** The hybrid logical clock: 48 bits of wall milliseconds over a 16-bit counter, advanced by
    compare-and-swap from any number of threads. */
module Clock {
  import opened Bytes

  const CTR: int := 0x1_0000
  const WALLS: int := 0x1_0000_0000_0000

  /** observerForwardSkewBudget: twice the default corroboration window, in milliseconds. */
  const SKEW_BUDGET_MS: int := 600_000

  /** The 64-bit shift drops what does not fit, and the counter is masked to 16 bits. */
  function Pack(wall: nat, ctr: nat): u64 {
    (wall * CTR) % TWO_64 + ctr % CTR
  }

  function WallOf(h: u64): nat {
    h / CTR
  }

  function CtrOf(h: u64): nat {
    h % CTR
  }

  /** Packing loses nothing below 2^48 milliseconds, and the packed order is (wall, counter). */
  lemma {:induction false} PackExact(wall: nat, ctr: nat)
    requires wall < WALLS && ctr < CTR
    ensures WallOf(Pack(wall, ctr)) == wall && CtrOf(Pack(wall, ctr)) == ctr
    ensures Pack(wall, ctr) == wall * CTR + ctr
  {
  }

  lemma {:induction false} UnpackExact(h: u64)
    ensures WallOf(h) < WALLS && Pack(WallOf(h), CtrOf(h)) == h
  {
  }

  lemma {:induction false} OrderIsLexicographic(a: u64, b: u64)
    ensures a < b <==> WallOf(a) < WallOf(b) || (WallOf(a) == WallOf(b) && CtrOf(a) < CtrOf(b))
  {
  }

  /** What one iteration of Now tries to swap in for `cur` at wall reading `wall`. */
  function NowNext(cur: u64, wall: nat): u64 {
    if wall > WallOf(cur) then Pack(wall, 0) else Pack(WallOf(cur), CtrOf(cur) + 1)
  }

  /** What one iteration of Observe tries to swap in. */
  function ObserveNext(cur: u64, remote: u64, wall: nat): u64 {
    var inBudget := WallOf(remote) <= wall + SKEW_BUDGET_MS;
    var ahead := WallOf(remote) > WallOf(cur) || (WallOf(remote) == WallOf(cur) && CtrOf(remote) > CtrOf(cur));
    var (w, c) := if inBudget && ahead then (WallOf(remote), CtrOf(remote)) else (WallOf(cur), CtrOf(cur));
    if wall > w then Pack(wall, 0) else Pack(w, c)
  }

  predicate InBudget(remote: u64, wall: nat) {
    WallOf(remote) <= wall + SKEW_BUDGET_MS
  }

  /** The counter has room for one more stamp, or the wall clock has moved past the state. */
  predicate HasTick(cur: u64, wall: nat) {
    wall > WallOf(cur) || CtrOf(cur) != CTR - 1
  }

  /** A stamp is larger than the state it came from exactly when the counter did not overflow; on
      overflow it falls back to the start of the same millisecond. */
  lemma {:induction false} NowGrowsIff(cur: u64, wall: nat)
    requires wall < WALLS
    ensures NowNext(cur, wall) > cur <==> HasTick(cur, wall)
    ensures !HasTick(cur, wall) ==> NowNext(cur, wall) == Pack(WallOf(cur), 0) <= cur
    ensures WallOf(NowNext(cur, wall)) == if wall > WallOf(cur) then wall else WallOf(cur)
  {
    PackExact(wall, 0);
    UnpackExact(cur);
    PackExact(WallOf(cur), (CtrOf(cur) + 1) % CTR);
  }

  lemma {:induction false} ObserveAdvances(cur: u64, remote: u64, wall: nat)
    requires wall < WALLS
    ensures ObserveNext(cur, remote, wall) >= cur
    ensures InBudget(remote, wall) ==> ObserveNext(cur, remote, wall) >= remote
    ensures ObserveNext(cur, remote, wall) in {cur, remote, Pack(wall, 0)}
    ensures ObserveNext(cur, remote, wall) == remote ==> InBudget(remote, wall) || remote in {cur, Pack(wall, 0)}
  {
    PackExact(wall, 0);
    UnpackExact(cur);
    UnpackExact(remote);
  }

  /** Observing an in-budget remote and then stamping gives a larger stamp exactly when the
      counter did not overflow inside the remote's own millisecond. */
  lemma {:induction false} ObserveThenNowIff(cur: u64, remote: u64, wall: nat, later: nat)
    requires wall < WALLS && later < WALLS && InBudget(remote, wall)
    ensures var s := ObserveNext(cur, remote, wall);
      NowNext(s, later) > remote <==> HasTick(s, later) || WallOf(s) > WallOf(remote)
  {
    var s := ObserveNext(cur, remote, wall);
    ObserveAdvances(cur, remote, wall);
    NowGrowsIff(s, later);
    if !HasTick(s, later) {
      UnpackExact(s);
      PackExact(WallOf(s), 0);
    }
  }

  /** A remote stamp with a full counter, ahead of the wall clock but in budget, is overtaken by
      the next local stamp. */
  lemma {:induction false} ObserveThenNowCanFall()
    ensures var remote := Pack(20, CTR - 1);
      InBudget(remote, 15) && NowNext(ObserveNext(Pack(10, 0), remote, 15), 15) < remote
  {
  }

  // ---------- threads ----------

  /** Where a thread is: about to load, or holding a loaded value before its swap. */
  datatype Thread =
    | Idle
    | Stamping(cur: u64, wall: nat)
    | Observing(remote: u64, wall: nat)
    | Holding(remote: u64, wall: nat, cur: u64)

  /** What has been completed, in the order of the successful swaps. */
  datatype Entry = Stamp(value: u64) | Heard(value: u64)

  datatype World = World(state: u64, threads: map<nat, Thread>, log: seq<Entry>)

  datatype Act =
    | LoadNow(t: nat, wall: nat)
    | SwapNow(t: nat)
    | CallObserve(t: nat, remote: u64, wall: nat)
    | LoadObserve(t: nat)
    | SwapObserve(t: nat)

  function ThreadOf(w: World, t: nat): Thread {
    if t in w.threads then w.threads[t] else Idle
  }

  function Do(w: World, a: Act): World {
    var th := ThreadOf(w, a.t);
    match a
    case LoadNow(t, wall) =>
      if th.Idle? then w.(threads := w.threads[t := Stamping(w.state, wall)]) else w
    case SwapNow(t) =>
      if !th.Stamping? then w
      else if w.state != th.cur then w.(threads := w.threads[t := Idle])
      else
        var next := NowNext(th.cur, th.wall);
        World(next, w.threads[t := Idle], w.log + [Stamp(next)])
    case CallObserve(t, remote, wall) =>
      if th.Idle? then w.(threads := w.threads[t := Observing(remote, wall)]) else w
    case LoadObserve(t) =>
      if th.Observing? then w.(threads := w.threads[t := Holding(th.remote, th.wall, w.state)]) else w
    case SwapObserve(t) =>
      if !th.Holding? then w
      else if w.state != th.cur then w.(threads := w.threads[t := Observing(th.remote, th.wall)])
      else
        World(ObserveNext(th.cur, th.remote, th.wall), w.threads[t := Idle],
              w.log + if InBudget(th.remote, th.wall) then [Heard(th.remote)] else [])
  }

  function Exec(w: World, acts: seq<Act>): World
    decreases |acts|
  {
    if acts == [] then w else Exec(Do(w, acts[0]), acts[1..])
  }

  /** The swap of a Now that is about to succeed does not overflow the counter. */
  predicate Ticks(w: World, a: Act) {
    a.SwapNow? && ThreadOf(w, a.t).Stamping? && w.state == ThreadOf(w, a.t).cur ==>
      HasTick(w.state, ThreadOf(w, a.t).wall)
  }

  predicate AllTick(w: World, acts: seq<Act>)
    decreases |acts|
  {
    acts == [] || (Ticks(w, acts[0]) && AllTick(Do(w, acts[0]), acts[1..]))
  }

  /** Clock readings, taken by the acts still to come or held by threads, are at most `top`. */
  ghost predicate ReadingsUpTo(w: World, top: nat) {
    forall t | t in w.threads && !w.threads[t].Idle? :: w.threads[t].wall <= top
  }

  ghost predicate ActsUpTo(acts: seq<Act>, top: nat) {
    forall a | a in acts && (a.LoadNow? || a.CallObserve?) :: a.wall <= top
  }

  /** Everything completed is at most the state, and every stamp exceeds everything completed
      before it. */
  ghost predicate Ordered(w: World) {
    && (forall i | 0 <= i < |w.log| :: w.log[i].value <= w.state)
    && (forall i, j | 0 <= i < j < |w.log| && w.log[j].Stamp? :: w.log[i].value < w.log[j].value)
  }

  lemma {:induction false} DoOrdered(w: World, a: Act, top: nat)
    requires Ordered(w) && Ticks(w, a) && top < WALLS && ReadingsUpTo(w, top) && ActsUpTo([a], top)
    ensures Ordered(Do(w, a)) && ReadingsUpTo(Do(w, a), top) && w.state <= Do(w, a).state
  {
    assert a in [a];
    var th := ThreadOf(w, a.t);
    if a.SwapNow? && th.Stamping? && w.state == th.cur {
      NowGrowsIff(th.cur, th.wall);
    } else if a.SwapObserve? && th.Holding? && w.state == th.cur {
      ObserveAdvances(th.cur, th.remote, th.wall);
    }
  }

  /** In every interleaving whose swaps do not overflow the counter, the state never decreases,
      the stamps come out strictly increasing in swap order, hence distinct, and each is larger
      than every in-budget remote observed before it. */
  lemma {:induction false} ClockMonotone(w: World, acts: seq<Act>, top: nat)
    requires Ordered(w) && AllTick(w, acts) && top < WALLS && ReadingsUpTo(w, top) && ActsUpTo(acts, top)
    ensures Ordered(Exec(w, acts)) && w.state <= Exec(w, acts).state
    decreases |acts|
  {
    if acts != [] {
      assert acts[0] in acts;
      DoOrdered(w, acts[0], top);
      ClockMonotone(Do(w, acts[0]), acts[1..], top);
    }
  }

  /** Overflow or not, the wall part never exceeds both its initial value and the largest clock
      reading plus the budget. */
  lemma {:induction false} WallBounded(w: World, acts: seq<Act>, top: nat, bound: nat)
    requires top + SKEW_BUDGET_MS <= bound && top < WALLS && WallOf(w.state) <= bound
    requires ReadingsUpTo(w, top) && ActsUpTo(acts, top)
    ensures WallOf(Exec(w, acts).state) <= bound
    decreases |acts|
  {
    if acts != [] {
      assert acts[0] in acts;
      DoWall(w, acts[0], top, bound);
      WallBounded(Do(w, acts[0]), acts[1..], top, bound);
    }
  }

  lemma {:induction false} DoWall(w: World, a: Act, top: nat, bound: nat)
    requires top + SKEW_BUDGET_MS <= bound && top < WALLS && WallOf(w.state) <= bound
    requires ReadingsUpTo(w, top) && ActsUpTo([a], top)
    ensures WallOf(Do(w, a).state) <= bound && ReadingsUpTo(Do(w, a), top)
  {
    assert a in [a];
    var th := ThreadOf(w, a.t);
    if a.SwapNow? && th.Stamping? && w.state == th.cur {
      NowGrowsIff(th.cur, th.wall);
    } else if a.SwapObserve? && th.Holding? && w.state == th.cur {
      ObserveAdvances(th.cur, th.remote, th.wall);
      PackExact(th.wall, 0);
    }
  }
}
