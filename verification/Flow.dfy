/** Per-peer flow control: the token bucket that bounds bytes sent and the sliding window that
    bounds announcements. */
module Flow {
  import opened Bytes
  import opened Records

  const SECOND: int := 1_000_000_000

  // ---------- the token bucket ----------

  datatype Bucket = Bucket(started: bool, tokens: int, lastRefill: int)

  /** A bucket that has not been used. */
  const FULL := Bucket(false, 0, 0)

  /** Signed 64-bit division truncates toward zero. */
  function Quotient(x: int, y: int): int
    requires y > 0
  {
    if x < 0 then -(-x / y) else x / y
  }

  function Initial(rate: int, egress: int): int {
    if egress == 0 then rate else egress
  }

  /** The first use fills the bucket with the configured tokens, or the rate if there are none. */
  function Started(b: Bucket, rate: int, egress: int, now: int): Bucket {
    if b.started then b else Bucket(true, Initial(rate, egress), now)
  }

  /** The refill, with the 64-bit product and sum the code computes. */
  function Refilled(b: Bucket, rate: int, now: int): Bucket {
    var elapsed := now - b.lastRefill;
    var add := Quotient(Wrap64(rate * elapsed), SECOND);
    if elapsed <= 0 || add <= 0 then b
    else
      var tokens := Wrap64(b.tokens + add);
      Bucket(true, if tokens > rate then rate else tokens, now)
  }

  function Spend(b: Bucket, rate: int, egress: int, cost: int, now: int): (Bucket, bool) {
    if cost <= 0 || rate == 0 then (b, true)
    else
      var b' := Refilled(Started(b, rate, egress, now), rate, now);
      if b'.tokens < cost then (b', false) else (b'.(tokens := b'.tokens - cost), true)
  }

  // ---------- the lazy queue ----------

  datatype LazyEntry = LazyEntry(topic: Topic, node: NodeID, hlc: u64, queuedAt: int)

  /** The queue without its leading entries from before the cutoff. */
  function Pruned(queue: seq<LazyEntry>, cutoff: int): seq<LazyEntry> {
    if queue == [] || queue[0].queuedAt >= cutoff then queue else Pruned(queue[1..], cutoff)
  }

  function Enqueue(queue: seq<LazyEntry>, e: LazyEntry, maxAge: int, max: int, now: int): (seq<LazyEntry>, bool) {
    var q := if maxAge > 0 then Pruned(queue, now - maxAge) else queue;
    if max > 0 && |q| >= max then (q, false) else (q + [e.(queuedAt := now)], true)
  }

  // ---------- the peer context ----------

  class PeerCtx {
    const rate: int
    const egress: int
    const backpressureMax: int
    var started: bool
    var tokens: int
    var lastRefill: int
    var lazyQueue: seq<LazyEntry>

    ghost function Tokens(): Bucket
      reads this
    {
      Bucket(started, tokens, lastRefill)
    }

    /** The configured 64-bit unsigned amounts are read as signed ones. */
    constructor (bandwidthCap: u64, egressTokens: u64, backpressureMax: int)
      ensures rate == Wrap64(bandwidthCap) && egress == Wrap64(egressTokens) && this.backpressureMax == backpressureMax
      ensures Tokens() == FULL && lazyQueue == []
    {
      this.rate, this.egress, this.backpressureMax := Wrap64(bandwidthCap), Wrap64(egressTokens), backpressureMax;
      started, tokens, lastRefill, lazyQueue := false, 0, 0, [];
    }

    method ConsumeTokens(cost: int, now: int) returns (granted: bool)
      modifies this`started, this`tokens, this`lastRefill
      ensures (Tokens(), granted) == Spend(old(Tokens()), rate, egress, cost, now)
    {
      if cost <= 0 || rate == 0 {
        return true;
      }
      if !started {
        tokens := egress;
        if tokens == 0 {
          tokens := rate;
        }
        lastRefill := now;
        started := true;
      }
      var elapsed := now - lastRefill;
      if elapsed > 0 {
        var add := Quotient(Wrap64(rate * elapsed), SECOND);
        if add > 0 {
          tokens := Wrap64(tokens + add);
          if tokens > rate {
            tokens := rate;
          }
          lastRefill := now;
        }
      }
      if tokens < cost {
        return false;
      }
      tokens := tokens - cost;
      return true;
    }

    method EnqueueLazy(e: LazyEntry, maxAge: int, now: int) returns (ok: bool)
      modifies this`lazyQueue
      ensures (lazyQueue, ok) == Enqueue(old(lazyQueue), e, maxAge, backpressureMax, now)
    {
      if maxAge > 0 {
        var i := 0;
        while i < |lazyQueue| && lazyQueue[i].queuedAt < now - maxAge
          invariant 0 <= i <= |lazyQueue|
          invariant Pruned(lazyQueue[i..], now - maxAge) == Pruned(lazyQueue, now - maxAge)
        {
          assert lazyQueue[i..][1..] == lazyQueue[i + 1..];
          i := i + 1;
        }
        lazyQueue := lazyQueue[i..];
      }
      if backpressureMax > 0 && |lazyQueue| >= backpressureMax {
        return false;
      }
      lazyQueue := lazyQueue + [e.(queuedAt := now)];
      return true;
    }
  }

  // ---------- the rate bound over whole runs ----------

  datatype Request = Request(cost: int, now: int)

  /** The bucket after the requests. */
  function BucketAfter(b: Bucket, rate: int, egress: int, es: seq<Request>): Bucket
    decreases |es|
  {
    if es == [] then b else BucketAfter(Spend(b, rate, egress, es[0].cost, es[0].now).0, rate, egress, es[1..])
  }

  /** The bytes granted. */
  function Granted(b: Bucket, rate: int, egress: int, es: seq<Request>): nat
    decreases |es|
  {
    if es == [] then 0
    else
      var (b', ok) := Spend(b, rate, egress, es[0].cost, es[0].now);
      Charged(es[0].cost, ok) + Granted(b', rate, egress, es[1..])
  }

  function Charged(cost: int, ok: bool): nat {
    if ok && cost > 0 then cost else 0
  }

  lemma {:induction false} AddedBound(product: int)
    requires product >= 0
    ensures SECOND * Quotient(Wrap64(product), SECOND) <= product
  {
    Wrap64Exact(product);
  }

  /** A refill adds no more than the rate allows for the time it accounts for, although the product
      may wrap and the quotient is truncated. */
  lemma {:induction false} RefillBound(b: Bucket, rate: int, now: int)
    requires rate > 0 && b.started && -TWO_63 <= b.tokens < TWO_63
    ensures var b' := Refilled(b, rate, now);
      && b'.started && -TWO_63 <= b'.tokens < TWO_63 && b.lastRefill <= b'.lastRefill
      && (b'.lastRefill == b.lastRefill || b'.lastRefill == now)
      && SECOND * (b'.tokens - b.tokens) <= rate * (b'.lastRefill - b.lastRefill)
  {
    var elapsed := now - b.lastRefill;
    var add := Quotient(Wrap64(rate * elapsed), SECOND);
    if elapsed > 0 && add > 0 {
      Times(rate, 0, elapsed);
      AddedBound(rate * elapsed);
      assert Wrap64(b.tokens + add) <= b.tokens + add;
    }
  }

  lemma {:induction false} SpendBound(b: Bucket, rate: int, egress: int, cost: int, now: int)
    requires rate > 0 && b.started && -TWO_63 <= b.tokens < TWO_63
    ensures var (b', ok) := Spend(b, rate, egress, cost, now);
      && b'.started && -TWO_63 <= b'.tokens < TWO_63
      && (b'.lastRefill == b.lastRefill || b'.lastRefill == now)
      && SECOND * (Charged(cost, ok) + b'.tokens - b.tokens) <= rate * (b'.lastRefill - b.lastRefill)
  {
    RefillBound(b, rate, now);
  }

  lemma {:induction false} RunStep(b: Bucket, rate: int, egress: int, es: seq<Request>)
    requires es != []
    ensures var (b', ok) := Spend(b, rate, egress, es[0].cost, es[0].now);
      && Granted(b, rate, egress, es) == Charged(es[0].cost, ok) + Granted(b', rate, egress, es[1..])
      && BucketAfter(b, rate, egress, es) == BucketAfter(b', rate, egress, es[1..])
  {
  }

  lemma {:induction false} Between(rate: int, x: int, y: int, z: int)
    ensures rate * (z - x) == rate * (z - y) + rate * (y - x)
  {
  }

  lemma {:induction false} RunBound(b: Bucket, rate: int, egress: int, es: seq<Request>, until: int)
    requires rate > 0 && b.started && -TWO_63 <= b.tokens < TWO_63
    requires b.lastRefill <= until && forall e | e in es :: e.now <= until
    ensures SECOND * (Granted(b, rate, egress, es) + BucketAfter(b, rate, egress, es).tokens - b.tokens)
            <= rate * (until - b.lastRefill)
    decreases |es|
  {
    if es == [] {
      assert rate * (until - b.lastRefill) >= 0;
    } else {
      var (b', ok) := Spend(b, rate, egress, es[0].cost, es[0].now);
      SpendBound(b, rate, egress, es[0].cost, es[0].now);
      assert es[0] in es;
      RunBound(b', rate, egress, es[1..], until);
      Between(rate, b.lastRefill, b'.lastRefill, until);
      RunStep(b, rate, egress, es);
      AddUp(Charged(es[0].cost, ok) + b'.tokens - b.tokens,
            Granted(b', rate, egress, es[1..]) + BucketAfter(b', rate, egress, es[1..]).tokens - b'.tokens,
            rate * (b'.lastRefill - b.lastRefill), rate * (until - b'.lastRefill));
    }
  }

  lemma {:induction false} AddUp(x: int, y: int, a: int, b: int)
    requires SECOND * x <= a && SECOND * y <= b
    ensures SECOND * (x + y) <= a + b
  {
  }

  lemma {:induction false} FirstCharge(rate: int, egress: int, es: seq<Request>, from: int, until: int)
    requires 0 < rate < TWO_63 && 0 <= egress < TWO_63 && es != [] && es[0].cost > 0
    requires forall e | e in es :: from <= e.now <= until
    ensures SECOND * (Granted(FULL, rate, egress, es) + BucketAfter(FULL, rate, egress, es).tokens)
            <= SECOND * Initial(rate, egress) + rate * (until - from)
  {
    var b := Started(FULL, rate, egress, es[0].now);
    assert es[0] in es;
    RunBound(b, rate, egress, es, until);
    SameRun(FULL, b, rate, egress, es);
    Times(rate, until - es[0].now, until - from);
  }

  lemma {:induction false} Times(rate: int, x: int, y: int)
    requires rate > 0 && x <= y
    ensures rate * x <= rate * y
  {
  }

  /** Bandwidth: whatever is asked for between `from` and `until`, the bytes granted and the tokens
      left never exceed the initial tokens plus the rate times the time passed. */
  lemma {:induction false} BandwidthBound(rate: int, egress: int, es: seq<Request>, from: int, until: int)
    requires 0 < rate < TWO_63 && 0 <= egress < TWO_63 && from <= until
    requires forall e | e in es :: from <= e.now <= until
    ensures SECOND * (Granted(FULL, rate, egress, es) + BucketAfter(FULL, rate, egress, es).tokens)
            <= SECOND * Initial(rate, egress) + rate * (until - from)
    decreases |es|
  {
    if es == [] {
      Times(rate, 0, until - from);
    } else if es[0].cost > 0 {
      FirstCharge(rate, egress, es, from, until);
    } else {
      BandwidthBound(rate, egress, es[1..], from, until);
    }
  }

  lemma {:induction false} SameRun(a: Bucket, b: Bucket, rate: int, egress: int, es: seq<Request>)
    requires es != [] && Spend(a, rate, egress, es[0].cost, es[0].now) == Spend(b, rate, egress, es[0].cost, es[0].now)
    ensures Granted(a, rate, egress, es) == Granted(b, rate, egress, es)
    ensures BucketAfter(a, rate, egress, es) == BucketAfter(b, rate, egress, es)
  {
  }

  // ---------- what a request takes ----------

  /** Requests that cost nothing, and peers without a cap, are granted and change nothing. */
  lemma {:induction false} FreeGrants(b: Bucket, rate: int, egress: int, cost: int, now: int)
    requires cost <= 0 || rate == 0
    ensures Spend(b, rate, egress, cost, now) == (b, true)
  {
  }

  /** The first request that costs anything draws on the configured tokens, or on a second's worth if
      there are none, and takes exactly its cost. */
  lemma {:induction false} FirstSpends(rate: int, egress: int, cost: int, now: int)
    requires rate != 0 && 0 < cost
    ensures var (b, ok) := Spend(FULL, rate, egress, cost, now);
      var start := if egress == 0 then rate else egress;
      (ok <==> cost <= start) && b == Bucket(true, if ok then start - cost else start, now)
  {
  }

  /** Conservation: of requests at one instant, what is granted and what is left is what there was;
      and each is granted if it fits what is left. */
  lemma {:induction false} BurstConserves(b: Bucket, rate: int, egress: int, es: seq<Request>)
    requires rate != 0 && b.started && forall e | e in es :: e.now == b.lastRefill
    ensures Granted(b, rate, egress, es) + BucketAfter(b, rate, egress, es).tokens == b.tokens
    ensures es != [] && es[0].cost <= b.tokens ==> Spend(b, rate, egress, es[0].cost, es[0].now).1
    decreases |es|
  {
    if es != [] {
      assert es[0] in es;
      RunStep(b, rate, egress, es);
      BurstConserves(Spend(b, rate, egress, es[0].cost, es[0].now).0, rate, egress, es[1..]);
    }
  }

  // ---------- what a gap earns ----------

  /** A request beyond the tokens left, within the rate, is granted exactly if time has passed since
      the last refill and the 64-bit product of rate and time covers what is missing. */
  lemma {:induction false} GapGrantsIff(b: Bucket, rate: int, egress: int, cost: int, now: int)
    requires b.started && 0 <= b.tokens < cost <= rate && b.tokens + TWO_63 / SECOND < TWO_63
    ensures Spend(b, rate, egress, cost, now).1 <==>
            b.lastRefill < now && SECOND * (cost - b.tokens) <= Wrap64(rate * (now - b.lastRefill))
  {
    SpendAt(b, rate, egress, cost, now, rate * (now - b.lastRefill));
    Wrap64Exact(rate * (now - b.lastRefill));
    QuotientCovers(Wrap64(rate * (now - b.lastRefill)), cost - b.tokens);
  }

  /** What is granted, by what the refill adds. */
  lemma {:induction false} SpendAt(b: Bucket, rate: int, egress: int, cost: int, now: int, product: int)
    requires b.started && 0 <= b.tokens < cost <= rate && b.tokens + TWO_63 / SECOND < TWO_63
    requires product == rate * (now - b.lastRefill)
    ensures Spend(b, rate, egress, cost, now).1 <==>
            b.lastRefill < now && cost - b.tokens <= Quotient(Wrap64(product), SECOND)
  {
    Wrap64Exact(product);
    QuotientCovers(Wrap64(product), 1);
    Wrap64Exact(b.tokens + Quotient(Wrap64(product), SECOND));
  }

  lemma {:induction false} QuotientCovers(x: int, need: int)
    requires 0 < need && x < TWO_63
    ensures need <= Quotient(x, SECOND) <==> SECOND * need <= x
    ensures Quotient(x, SECOND) <= TWO_63 / SECOND
  {
  }

  /** A second's gap earns the whole rate, unless the product overflows. */
  lemma {:induction false} LongGapGrants(b: Bucket, rate: int, egress: int, cost: int, now: int)
    requires b.started && 0 <= b.tokens && 0 < cost <= rate && b.tokens + TWO_63 / SECOND < TWO_63
    requires b.lastRefill + SECOND <= now && rate * (now - b.lastRefill) < TWO_63
    ensures Spend(b, rate, egress, cost, now).1
  {
    var elapsed := now - b.lastRefill;
    Times(rate, SECOND, elapsed);
    Wrap64Exact(rate * elapsed);
    if b.tokens < cost {
      GapGrantsIff(b, rate, egress, cost, now);
    } else {
      KeepsEnough(b, rate, egress, cost, now, rate * elapsed);
    }
  }

  lemma {:induction false} KeepsEnough(b: Bucket, rate: int, egress: int, cost: int, now: int, product: int)
    requires b.started && 0 < cost <= b.tokens && cost <= rate && b.tokens + TWO_63 / SECOND < TWO_63
    requires product == rate * (now - b.lastRefill) && 0 <= product < TWO_63
    ensures Spend(b, rate, egress, cost, now).1
  {
    Wrap64Exact(product);
    QuotientCovers(product, 1);
    Wrap64Exact(b.tokens + Quotient(product, SECOND));
  }

  /** At a gigabyte a second a gap of ten seconds overflows and earns nothing. */
  lemma {:induction false} LongGapCanStarve() returns (b: Bucket, rate: int, cost: int, now: int)
    ensures b.started && b.tokens == 0 && 0 < cost <= rate && b.lastRefill + SECOND <= now
    ensures !Spend(b, rate, 0, cost, now).1
  {
    b, rate, cost, now := Bucket(true, 0, 0), 1_000_000_000, 1, 10 * SECOND;
    GapGrantsIff(b, rate, 0, cost, now);
  }

  // ---------- the announcement bound over whole runs ----------

  datatype Offer = Offer(e: LazyEntry, now: int)

  ghost function QueueAfter(queue: seq<LazyEntry>, maxAge: int, max: int, os: seq<Offer>): seq<LazyEntry>
    decreases |os|
  {
    if os == [] then queue else QueueAfter(Enqueue(queue, os[0].e, maxAge, max, os[0].now).0, maxAge, max, os[1..])
  }

  /** The entries accepted, in order. */
  ghost function Accepted(queue: seq<LazyEntry>, maxAge: int, max: int, os: seq<Offer>): seq<LazyEntry>
    decreases |os|
  {
    if os == [] then []
    else
      var (q, ok) := Enqueue(queue, os[0].e, maxAge, max, os[0].now);
      (if ok then [os[0].e.(queuedAt := os[0].now)] else []) + Accepted(q, maxAge, max, os[1..])
  }

  ghost predicate InOrder(h: seq<LazyEntry>, until: int) {
    && (forall i, j | 0 <= i < j < |h| :: h[i].queuedAt <= h[j].queuedAt)
    && (forall i | 0 <= i < |h| :: h[i].queuedAt <= until)
  }

  /** The queue is exactly the part of the history inside the age window that ends at `now`. */
  ghost predicate Windowed(queue: seq<LazyEntry>, h: seq<LazyEntry>, cutoff: int) {
    && |queue| <= |h| && queue == h[|h| - |queue|..]
    && (forall i | 0 <= i < |h| - |queue| :: h[i].queuedAt < cutoff)
    && (forall i | |h| - |queue| <= i < |h| :: h[i].queuedAt >= cutoff)
  }

  /** More than `max` acceptances in a row span more than the window. */
  ghost predicate Spread(h: seq<LazyEntry>, maxAge: int, max: int)
    requires max > 0
  {
    forall i, j | 0 <= i < |h| && j == i + max && j < |h| :: h[j].queuedAt > h[i].queuedAt + maxAge
  }

  lemma {:induction false} PrunedFrom(queue: seq<LazyEntry>, h: seq<LazyEntry>, cutoff: int)
    requires |queue| <= |h| && queue == h[|h| - |queue|..]
    requires forall i | 0 <= i < |h| - |queue| :: h[i].queuedAt < cutoff
    requires forall i, j | 0 <= i < j < |h| :: h[i].queuedAt <= h[j].queuedAt
    ensures Windowed(Pruned(queue, cutoff), h, cutoff)
    decreases |queue|
  {
    if queue != [] {
      var k := |h| - |queue|;
      assert h[k] == queue[0];
      if queue[0].queuedAt < cutoff {
        assert queue[1..] == h[k + 1..];
        PrunedFrom(queue[1..], h, cutoff);
      }
    }
  }

  /** What holds of the queue and the acceptances so far, at `now`. */
  ghost predicate Tracks(queue: seq<LazyEntry>, h: seq<LazyEntry>, maxAge: int, max: int, now: int)
    requires max > 0
  {
    InOrder(h, now) && Windowed(queue, h, now - maxAge) && Spread(h, maxAge, max)
  }

  lemma {:induction false} AppendTracks(queue: seq<LazyEntry>, h: seq<LazyEntry>, maxAge: int, max: int, x: LazyEntry)
    requires maxAge > 0 && max > 0 && Tracks(queue, h, maxAge, max, x.queuedAt) && |queue| < max
    ensures Tracks(queue + [x], h + [x], maxAge, max, x.queuedAt)
  {
    var h', k := h + [x], |h| - |queue|;
    assert h'[k..] == h[k..] + [x];
    assert forall i | 0 <= i < |h| :: h'[i] == h[i];
    forall i, j | 0 <= i < |h'| && j == i + max && j < |h'|
      ensures h'[j].queuedAt > h'[i].queuedAt + maxAge
    {
      if j == |h| {
        assert i < k && h'[i] == h[i];
      } else {
        assert h'[i] == h[i] && h'[j] == h[j];
      }
    }
  }

  lemma {:induction false} PruneTracks(queue: seq<LazyEntry>, h: seq<LazyEntry>, maxAge: int, max: int, before: int,
                                       now: int)
    requires max > 0 && before <= now && Tracks(queue, h, maxAge, max, before)
    ensures Tracks(Pruned(queue, now - maxAge), h, maxAge, max, now)
  {
    PrunedFrom(queue, h, now - maxAge);
  }

  /** One offer keeps the queue equal to the recent history, and the history spread out. */
  lemma {:induction false} OfferTracks(queue: seq<LazyEntry>, h: seq<LazyEntry>, maxAge: int, max: int, before: int,
                                       o: Offer)
    requires maxAge > 0 && max > 0 && before <= o.now && Tracks(queue, h, maxAge, max, before)
    ensures var (q, ok) := Enqueue(queue, o.e, maxAge, max, o.now);
      Tracks(q, if ok then h + [o.e.(queuedAt := o.now)] else h, maxAge, max, o.now)
  {
    var kept := Pruned(queue, o.now - maxAge);
    PruneTracks(queue, h, maxAge, max, before, o.now);
    var entry := o.e.(queuedAt := o.now);
    if |kept| < max {
      assert Enqueue(queue, o.e, maxAge, max, o.now) == (kept + [entry], true);
      AppendTracks(kept, h, maxAge, max, entry);
    } else {
      assert Enqueue(queue, o.e, maxAge, max, o.now) == (kept, false);
    }
  }

  lemma {:induction false} HistoryStep(queue: seq<LazyEntry>, h: seq<LazyEntry>, maxAge: int, max: int, os: seq<Offer>)
    requires os != []
    ensures var (q, ok) := Enqueue(queue, os[0].e, maxAge, max, os[0].now);
      && h + Accepted(queue, maxAge, max, os) ==
         (if ok then h + [os[0].e.(queuedAt := os[0].now)] else h) + Accepted(q, maxAge, max, os[1..])
      && QueueAfter(queue, maxAge, max, os) == QueueAfter(q, maxAge, max, os[1..])
  {
  }

  ghost predicate Ascending(os: seq<Offer>) {
    forall i, j | 0 <= i < j < |os| :: os[i].now <= os[j].now
  }

  lemma {:induction false} RunTracks(queue: seq<LazyEntry>, h: seq<LazyEntry>, maxAge: int, max: int, before: int,
                                     os: seq<Offer>)
    requires maxAge > 0 && max > 0 && Tracks(queue, h, maxAge, max, before)
    requires Ascending(os) && (os != [] ==> before <= os[0].now)
    ensures Tracks(QueueAfter(queue, maxAge, max, os), h + Accepted(queue, maxAge, max, os), maxAge, max,
                   if os == [] then before else os[|os| - 1].now)
    decreases |os|
  {
    if os == [] {
      assert h + [] == h;
    } else {
      var o, rest := os[0], os[1..];
      var (q, ok) := Enqueue(queue, o.e, maxAge, max, o.now);
      var h' := if ok then h + [o.e.(queuedAt := o.now)] else h;
      OfferTracks(queue, h, maxAge, max, before, o);
      assert Ascending(rest);
      assert (if rest == [] then o.now else rest[|rest| - 1].now) == os[|os| - 1].now;
      RunTracks(q, h', maxAge, max, o.now, rest);
      HistoryStep(queue, h, maxAge, max, os);
    }
  }

  /** Without drains and with a clock that does not go back, the queue is exactly what was accepted
      within the window, and no window accepts more than the cap: any `max` + 1 acceptances in a
      row take longer than `maxAge`. */
  lemma {:induction false} AnnouncementBound(maxAge: int, max: int, os: seq<Offer>)
    requires maxAge > 0 && max > 0 && os != [] && Ascending(os)
    ensures Tracks(QueueAfter([], maxAge, max, os), Accepted([], maxAge, max, os), maxAge, max, os[|os| - 1].now)
  {
    FreshTracks(maxAge, max, os[0].now);
    RunTracks([], [], maxAge, max, os[0].now, os);
    NothingBefore(Accepted([], maxAge, max, os));
  }

  /** After any run of offers the next one is accepted exactly if fewer than `max` were accepted so
      far, or the one `max` acceptances back lies before the window. */
  lemma {:induction false} NextAcceptedIff(maxAge: int, max: int, os: seq<Offer>, o: Offer)
    requires maxAge > 0 && max > 0 && Ascending(os + [o])
    ensures var h := Accepted([], maxAge, max, os);
      Enqueue(QueueAfter([], maxAge, max, os), o.e, maxAge, max, o.now).1 <==>
      |h| < max || h[|h| - max].queuedAt < o.now - maxAge
  {
    var h, queue := Accepted([], maxAge, max, os), QueueAfter([], maxAge, max, os);
    if os == [] {
      assert queue == [];
    } else {
      var last := |os| - 1;
      assert (os + [o])[last] == os[last] && (os + [o])[last + 1] == o;
      assert Ascending(os) by {
        assert forall i | 0 <= i < |os| :: os[i] == (os + [o])[i];
      }
      AnnouncementBound(maxAge, max, os);
      PruneTracks(queue, h, maxAge, max, os[last].now, o.now);
    }
  }

  lemma {:induction false} FreshTracks(maxAge: int, max: int, now: int)
    requires max > 0
    ensures Tracks([], [], maxAge, max, now)
  {
  }

  lemma {:induction false} NothingBefore(h: seq<LazyEntry>)
    ensures [] + h == h
  {
  }
}
