/** The replay-to-live transition of a new subscriber: every interleaving of the subscribing thread
    with threads that accept records and deliver them. */
module SubGates {
  import opened Bytes
  import opened Records
  import opened Store
  import opened Enumeration
  import Convergence
  import Runs

  // ---------- the gate ----------

  /** The gate's shared fields. */
  datatype Gate = Gate(replaying: bool, queue: seq<Record>)

  /** The locked section of a delivery: queue the record, or let the caller through. */
  function Deliver(g: Gate, r: Record): Gate {
    if g.replaying then g.(queue := g.queue + [r]) else g
  }

  /** The locked section of the drain loop: take what has queued up, or open the gate. */
  function TakeBatch(g: Gate): Gate {
    if g.queue != [] then g.(queue := []) else g.(replaying := false)
  }

  /** The replayed snapshot holds the record's slot at its HLC or above. */
  predicate Covered(snap: seq<Record>, r: Record) {
    exists s | s in snap :: SlotOf(s) == SlotOf(r) && r.hlc <= s.hlc
  }

  /** What the drain hands on, in order. */
  ghost function Flushed(snap: seq<Record>, rs: seq<Record>): seq<Record> {
    if rs == [] then []
    else Flushed(snap, rs[..|rs| - 1]) + if Covered(snap, rs[|rs| - 1]) then [] else [rs[|rs| - 1]]
  }

  /** The gate object; each method is one section under its lock. */
  class SubGate {
    var replaying: bool
    var queue: seq<Record>

    ghost function Value(): Gate
      reads this
    {
      Gate(replaying, queue)
    }

    constructor ()
      ensures Value() == Gate(true, [])
    {
      replaying, queue := true, [];
    }

    method Pass(r: Record) returns (through: bool)
      modifies this
      ensures Value() == Deliver(old(Value()), r) && through == !old(replaying)
    {
      if replaying {
        queue := queue + [r];
        return false;
      }
      return true;
    }

    method NextBatch() returns (batch: seq<Record>)
      modifies this
      ensures Value() == TakeBatch(old(Value())) && batch == old(queue)
    {
      batch := queue;
      if |queue| > 0 {
        queue := [];
      } else {
        replaying := false;
      }
    }
  }

  /** The replayed HLC per slot, as Subscribe collects it, decides exactly what is covered. */
  ghost predicate Remembers(replayed: map<Slot, u64>, snap: seq<Record>) {
    forall r: Record :: SlotOf(r) in replayed && r.hlc <= replayed[SlotOf(r)] <==> Covered(snap, r)
  }

  /** The replay loop. */
  method Replay(snap: seq<Record>) returns (calls: seq<Record>, replayed: map<Slot, u64>)
    requires forall i, j | 0 <= i < j < |snap| :: SlotOf(snap[i]) != SlotOf(snap[j])
    ensures calls == snap && Remembers(replayed, snap)
  {
    calls, replayed := [], map[];
    for i := 0 to |snap|
      invariant calls == snap[..i]
      invariant forall k :: k in replayed <==> exists j | 0 <= j < i :: SlotOf(snap[j]) == k
      invariant forall j | 0 <= j < i :: replayed[SlotOf(snap[j])] == snap[j].hlc
    {
      replayed := replayed[SlotOf(snap[i]) := snap[i].hlc];
      calls := calls + [snap[i]];
    }
  }

  /** One batch of the drain loop. */
  method FlushBatch(batch: seq<Record>, replayed: map<Slot, u64>, ghost snap: seq<Record>) returns (calls: seq<Record>)
    requires Remembers(replayed, snap)
    ensures calls == Flushed(snap, batch)
  {
    calls := [];
    for i := 0 to |batch|
      invariant calls == Flushed(snap, batch[..i])
    {
      FlushedSnoc(snap, batch, i);
      var r := batch[i];
      if !(SlotOf(r) in replayed && r.hlc <= replayed[SlotOf(r)]) {
        calls := calls + [r];
      }
    }
    assert batch[..|batch|] == batch;
  }

  // ---------- the threads ----------

  /** A delivering thread: it has applied its record; it then copies the subscriber list, passes
      the gate's lock, and possibly calls the subscriber. */
  datatype Stage = Applied | Missed | Fetched | Queued | Free | Inside | Delivered

  datatype Thread = Thread(r: Record, stage: Stage)

  /** The subscribing thread: before registration, before the snapshot, replaying it from `i`,
      draining the batch that follows the first `done` queued records from `i`, or finished. */
  datatype Sub =
    | Idle
    | Registered
    | Replaying(i: nat, inside: bool)
    | Draining(done: nat, batch: seq<Record>, i: nat, inside: bool)
    | Finished

  /** `snap`, `seen`, `queued` and `live` are histories: the snapshot taken, what the subscriber
      has been called with, everything that was ever queued, and the calls that bypassed the
      queue. */
  datatype State = State(records: map<Slot, Record>, gate: Gate, sub: Sub, threads: seq<Thread>,
                         snap: seq<Record>, seen: seq<Record>, queued: seq<Record>, live: seq<Record>)

  datatype Act =
    | Accept(r: Record)
    | Fetch(t: nat)
    | Pass(t: nat)
    | Enter(t: nat)
    | Leave(t: nat)
    | Register
    | Snapshot
    | Call
    | Return
    | Check

  /** An owner record the store applies. */
  predicate Wins(records: map<Slot, Record>, r: Record) {
    SlotOf(r) !in records || Beats(r, records[SlotOf(r)])
  }

  predicate At(s: State, t: nat, stage: Stage) {
    t < |s.threads| && s.threads[t].stage == stage
  }

  predicate Enabled(s: State, a: Act) {
    match a
    case Accept(r) => !r.IsAttestation() && Wins(s.records, r)
    case Fetch(t) => At(s, t, Applied)
    case Pass(t) => At(s, t, Fetched)
    case Enter(t) => At(s, t, Free)
    case Leave(t) => At(s, t, Inside)
    case Register => s.sub.Idle?
    case Snapshot => s.sub.Registered?
    case Call =>
      || (s.sub.Replaying? && !s.sub.inside && s.sub.i < |s.snap|)
      || (s.sub.Draining? && !s.sub.inside && s.sub.i < |s.sub.batch|)
    case Return => (s.sub.Replaying? || s.sub.Draining?) && s.sub.inside
    case Check =>
      || (s.sub.Replaying? && !s.sub.inside && s.sub.i >= |s.snap|)
      || (s.sub.Draining? && !s.sub.inside && s.sub.i >= |s.sub.batch|)
  }

  function Moved(s: State, t: nat, stage: Stage): seq<Thread>
    requires t < |s.threads|
  {
    s.threads[t := s.threads[t].(stage := stage)]
  }

  ghost function Do(s: State, a: Act): State
    requires Enabled(s, a)
  {
    match a
    case Accept(r) => s.(records := s.records[SlotOf(r) := r], threads := s.threads + [Thread(r, Applied)])
    case Fetch(t) => s.(threads := Moved(s, t, if s.sub.Idle? then Missed else Fetched))
    case Pass(t) =>
      var r := s.threads[t].r;
      if s.gate.replaying then
        s.(gate := Deliver(s.gate, r), threads := Moved(s, t, Queued), queued := s.queued + [r])
      else
        s.(threads := Moved(s, t, Free))
    case Enter(t) =>
      s.(threads := Moved(s, t, Inside), seen := s.seen + [s.threads[t].r], live := s.live + [s.threads[t].r])
    case Leave(t) => s.(threads := Moved(s, t, Delivered))
    case Register => s.(sub := Registered)
    case Snapshot => s.(sub := Replaying(0, false), snap := Listing(s.records, Every()))
    case Call =>
      if s.sub.Replaying? then
        s.(sub := Replaying(s.sub.i, true), seen := s.seen + [s.snap[s.sub.i]])
      else
        var r := s.sub.batch[s.sub.i];
        if Covered(s.snap, r) then s.(sub := Draining(s.sub.done, s.sub.batch, s.sub.i + 1, false))
        else s.(sub := Draining(s.sub.done, s.sub.batch, s.sub.i, true), seen := s.seen + [r])
    case Return =>
      s.(sub := if s.sub.Replaying? then Replaying(s.sub.i + 1, false)
                else Draining(s.sub.done, s.sub.batch, s.sub.i + 1, false))
    case Check =>
      var done := if s.sub.Draining? then s.sub.done + |s.sub.batch| else 0;
      s.(gate := TakeBatch(s.gate),
         sub := if s.gate.queue != [] then Draining(done, s.gate.queue, 0, false) else Finished)
  }

  /** The topic's records before anybody subscribes. */
  function Start(records: map<Slot, Record>): State {
    State(records, Gate(true, []), Idle, [], [], [], [], [])
  }

  ghost predicate IsRun(s: State, acts: seq<Act>)
    decreases |acts|
  {
    acts == [] || (Enabled(s, acts[0]) && IsRun(Do(s, acts[0]), acts[1..]))
  }

  ghost function After(s: State, acts: seq<Act>): State
    requires IsRun(s, acts)
    decreases |acts|
  {
    if acts == [] then s else After(Do(s, acts[0]), acts[1..])
  }

  // ---------- one caller at a time, in order ----------

  predicate PastGate(t: Thread) {
    t.stage.Free? || t.stage.Inside? || t.stage.Delivered?
  }

  /** Until the drain is finished only the subscribing thread gets past the gate. */
  ghost predicate Exclusive(s: State) {
    && (s.gate.replaying <==> !s.sub.Finished?)
    && (!s.sub.Finished? ==> s.live == [] && forall t | 0 <= t < |s.threads| :: !PastGate(s.threads[t]))
    && (s.sub.Idle? ==> forall t | 0 <= t < |s.threads| :: !s.threads[t].stage.Fetched?)
    && (s.sub.Finished? ==> s.gate.queue == [])
  }

  /** What the subscriber has seen so far. */
  ghost predicate Ordered(s: State) {
    match s.sub
    case Idle => s.snap == [] && s.seen == [] && s.queued == [] && s.gate.queue == []
    case Registered => s.snap == [] && s.seen == [] && s.queued == s.gate.queue
    case Replaying(i, inside) =>
      && s.queued == s.gate.queue && i + (if inside then 1 else 0) <= |s.snap|
      && s.seen == s.snap[..i + if inside then 1 else 0]
    case Draining(done, batch, i, inside) =>
      && i + (if inside then 1 else 0) <= |batch| && done + |batch| <= |s.queued|
      && s.queued[done..] == batch + s.gate.queue
      && s.seen == s.snap + Flushed(s.snap, s.queued[..done + i + if inside then 1 else 0])
      && (inside ==> !Covered(s.snap, batch[i]))
    case Finished => s.seen == s.snap + Flushed(s.snap, s.queued) + s.live
  }

  lemma {:induction false} ExclusiveKept(s: State, a: Act)
    requires Enabled(s, a) && Exclusive(s)
    ensures Exclusive(Do(s, a))
  {
  }

  lemma {:induction false} FlushedSnoc(snap: seq<Record>, rs: seq<Record>, n: nat)
    requires n < |rs|
    ensures Flushed(snap, rs[..n + 1]) == Flushed(snap, rs[..n]) + if Covered(snap, rs[n]) then [] else [rs[n]]
  {
    assert rs[..n + 1][..n] == rs[..n];
  }

  lemma {:induction false} PassOrdered(s: State, t: nat)
    requires Enabled(s, Pass(t)) && Exclusive(s) && Ordered(s)
    ensures Ordered(Do(s, Pass(t)))
  {
    var s', sub := Do(s, Pass(t)), s.sub;
    if sub.Draining? {
      var n := sub.done + sub.i + if sub.inside then 1 else 0;
      assert s'.queued[..n] == s.queued[..n];
      assert s'.queued[sub.done..] == s.queued[sub.done..] + [s.threads[t].r];
    }
  }

  lemma {:induction false} CallOrdered(s: State)
    requires Enabled(s, Call) && Exclusive(s) && Ordered(s)
    ensures Ordered(Do(s, Call))
  {
    if s.sub.Draining? {
      var n := s.sub.done + s.sub.i;
      FlushedSnoc(s.snap, s.queued, n);
      assert s.queued[n] == s.queued[s.sub.done..][s.sub.i];
    }
  }

  lemma {:induction false} ReturnOrdered(s: State)
    requires Enabled(s, Return) && Ordered(s)
    ensures Ordered(Do(s, Return))
  {
  }

  lemma {:induction false} CheckAfterReplay(s: State)
    requires Enabled(s, Check) && s.sub.Replaying? && Exclusive(s) && Ordered(s)
    ensures Ordered(Do(s, Check))
  {
    var s' := Do(s, Check);
    assert s.snap[..|s.snap|] == s.snap == s.snap + [] == s.snap + [] + [];
    assert s.queued[..0] == [];
    if s.gate.queue != [] {
      assert s'.queued[0..] == s.gate.queue + [];
    }
  }

  lemma {:induction false} CheckAfterBatch(s: State)
    requires Enabled(s, Check) && s.sub.Draining? && Exclusive(s) && Ordered(s)
    ensures Ordered(Do(s, Check))
  {
    var done := s.sub.done + |s.sub.batch|;
    BatchDone(s.queued, s.sub.done, s.sub.batch, s.gate.queue);
    if s.gate.queue == [] {
      assert s.seen == s.seen + [];
    }
  }

  lemma {:induction false} BatchDone(queued: seq<Record>, done: nat, batch: seq<Record>, queue: seq<Record>)
    requires done <= |queued| && queued[done..] == batch + queue
    ensures done + |batch| <= |queued| && queued[done + |batch|..] == queue + []
    ensures queue == [] ==> queued[..done + |batch|] == queued
  {
    assert queued[done + |batch|..] == queued[done..][|batch|..];
  }

  lemma {:induction false} OrderedKept(s: State, a: Act)
    requires Enabled(s, a) && Exclusive(s) && Ordered(s)
    ensures Ordered(Do(s, a))
  {
    match a
    case Pass(t) => PassOrdered(s, t);
    case Call => CallOrdered(s);
    case Return => ReturnOrdered(s);
    case Check => if s.sub.Replaying? { CheckAfterReplay(s); } else { CheckAfterBatch(s); }
    case _ =>
  }

  // ---------- nothing is missed ----------

  /** The record's slot is held at the record's rank or above. */
  predicate Settled(records: map<Slot, Record>, r: Record) {
    SlotOf(r) in records && !Wins(records, r)
  }

  predicate SnapTaken(s: State) {
    !s.sub.Idle? && !s.sub.Registered?
  }

  /** Where a record that the store has accepted stands. */
  predicate Placed(s: State, t: Thread) {
    match t.stage
    case Missed => SnapTaken(s) ==> Covered(s.snap, t.r)
    case Queued => t.r in s.queued
    case Inside => t.r in s.live
    case Delivered => t.r in s.live
    case _ => true
  }

  ghost predicate Accounted(s: State, init: set<Record>) {
    && RecordsFiled(s.records)
    && (forall r | r in init :: Settled(s.records, r) && (SnapTaken(s) ==> Covered(s.snap, r)))
    && (forall t | 0 <= t < |s.threads| :: Settled(s.records, s.threads[t].r) && Placed(s, s.threads[t]))
  }

  lemma {:induction false} SettledStays(records: map<Slot, Record>, r: Record, x: Record)
    requires Wins(records, r) && Settled(records, x)
    ensures Settled(records[SlotOf(r) := r], x) && x != r
  {
    if SlotOf(x) == SlotOf(r) {
      BeatsOrder(r, records[SlotOf(r)], x);
      BeatsOrder(x, records[SlotOf(r)], r);
    }
  }

  lemma {:induction false} WinnerSettles(records: map<Slot, Record>, r: Record)
    ensures Settled(records[SlotOf(r) := r], r)
  {
    BeatsOrder(r, r, r);
  }

  /** A snapshot covers everything the store has settled. */
  lemma {:induction false} SnapshotCovers(records: map<Slot, Record>, r: Record)
    requires RecordsFiled(records) && Settled(records, r)
    ensures Covered(Listing(records, Every()), r)
  {
    var ks := Kept(records, Every());
    CanonicalSorted(ks);
    assert SlotOf(r) in ks;
    var i :| 0 <= i < |Canonical(ks)| && Canonical(ks)[i] == SlotOf(r);
    assert Listing(records, Every())[i] == records[SlotOf(r)];
  }

  lemma {:induction false} AcceptAccounted(s: State, r: Record, init: set<Record>)
    requires Enabled(s, Accept(r)) && Accounted(s, init)
    ensures Accounted(Do(s, Accept(r)), init)
  {
    var s' := Do(s, Accept(r));
    WinnerSettles(s.records, r);
    forall x | x in init
      ensures Settled(s'.records, x)
    {
      SettledStays(s.records, r, x);
    }
    forall t | 0 <= t < |s'.threads|
      ensures Settled(s'.records, s'.threads[t].r) && Placed(s', s'.threads[t])
    {
      if t < |s.threads| {
        SettledStays(s.records, r, s.threads[t].r);
        assert Placed(s, s.threads[t]);
      }
    }
  }

  lemma {:induction false} SnapshotAccounted(s: State, init: set<Record>)
    requires Enabled(s, Snapshot) && Accounted(s, init)
    ensures Accounted(Do(s, Snapshot), init)
  {
    var s' := Do(s, Snapshot);
    forall x | Settled(s.records, x)
      ensures Covered(s'.snap, x)
    {
      SnapshotCovers(s.records, x);
    }
    forall t | 0 <= t < |s.threads|
      ensures Placed(s', s.threads[t])
    {
      assert Placed(s, s.threads[t]);
    }
  }

  lemma {:induction false} OtherAccounted(s: State, a: Act, init: set<Record>)
    requires Enabled(s, a) && !a.Accept? && !a.Snapshot? && Accounted(s, init)
    ensures Accounted(Do(s, a), init)
  {
    var s' := Do(s, a);
    forall t | 0 <= t < |s.threads|
      ensures s'.threads[t].r == s.threads[t].r && Placed(s', s'.threads[t])
    {
      assert Placed(s, s.threads[t]);
    }
  }

  lemma {:induction false} AccountedKept(s: State, a: Act, init: set<Record>)
    requires Enabled(s, a) && Accounted(s, init)
    ensures Accounted(Do(s, a), init)
  {
    if a.Accept? {
      AcceptAccounted(s, a.r, init);
    } else if a.Snapshot? {
      SnapshotAccounted(s, init);
    } else {
      OtherAccounted(s, a, init);
    }
  }

  // ---------- nothing is repeated, except what was replayed ----------

  ghost predicate NoRepeats(rs: seq<Record>) {
    forall i, j | 0 <= i < j < |rs| :: rs[i] != rs[j]
  }

  ghost predicate Distinct(s: State) {
    && (forall i, j | 0 <= i < j < |s.threads| :: s.threads[i].r != s.threads[j].r)
    && (forall t | 0 <= t < |s.threads| ::
          && (s.threads[t].r in s.queued <==> s.threads[t].stage.Queued?)
          && (s.threads[t].r in s.live <==> s.threads[t].stage.Inside? || s.threads[t].stage.Delivered?))
    && (forall r | r in s.queued || r in s.live :: Settled(s.records, r))
    && NoRepeats(s.queued) && NoRepeats(s.live) && (forall r | r in s.queued :: r !in s.live)
    && NoRepeats(s.snap) && (forall r | r in s.snap :: Settled(s.records, r))
  }

  lemma {:induction false} SnapshotDistinct(records: map<Slot, Record>)
    requires RecordsFiled(records)
    ensures NoRepeats(Listing(records, Every()))
    ensures forall r | r in Listing(records, Every()) :: Settled(records, r)
  {
    var ks, snap := Canonical(Kept(records, Every())), Listing(records, Every());
    CanonicalSorted(Kept(records, Every()));
    forall i, j | 0 <= i < j < |snap|
      ensures snap[i] != snap[j]
    {
      SlotOrder(ks[i], ks[j], ks[i]);
      assert ks[i] in ks && ks[j] in ks;
    }
    forall i | 0 <= i < |snap|
      ensures Settled(records, snap[i])
    {
      assert ks[i] in ks && snap[i] == records[ks[i]];
      BeatsOrder(snap[i], snap[i], snap[i]);
    }
  }

  lemma {:induction false} AcceptDistinct(s: State, r: Record, init: set<Record>)
    requires Enabled(s, Accept(r)) && Accounted(s, init) && Distinct(s)
    ensures Distinct(Do(s, Accept(r)))
  {
    forall x | Settled(s.records, x)
      ensures x != r && Settled(s.records[SlotOf(r) := r], x)
    {
      SettledStays(s.records, r, x);
    }
  }

  lemma {:induction false} PassDistinct(s: State, t: nat)
    requires Enabled(s, Pass(t)) && Settled(s.records, s.threads[t].r) && Distinct(s)
    ensures Distinct(Do(s, Pass(t)))
  {
  }

  lemma {:induction false} EnterDistinct(s: State, t: nat)
    requires Enabled(s, Enter(t)) && Settled(s.records, s.threads[t].r) && Distinct(s)
    ensures Distinct(Do(s, Enter(t)))
  {
  }

  lemma {:induction false} DistinctKept(s: State, a: Act, init: set<Record>)
    requires Enabled(s, a) && Accounted(s, init) && Distinct(s)
    ensures Distinct(Do(s, a))
  {
    match a
    case Accept(r) => AcceptDistinct(s, r, init);
    case Pass(t) => PassDistinct(s, t);
    case Enter(t) => EnterDistinct(s, t);
    case Snapshot => SnapshotDistinct(s.records);
    case _ =>
  }

  // ---------- whole runs ----------

  ghost predicate Invariant(s: State, init: set<Record>) {
    Exclusive(s) && Ordered(s) && Accounted(s, init) && Distinct(s)
  }

  lemma {:induction false} InvariantKept(s: State, acts: seq<Act>, init: set<Record>)
    requires Invariant(s, init) && IsRun(s, acts)
    ensures Invariant(After(s, acts), init)
    decreases |acts|
  {
    if acts != [] {
      StepKeeps(s, acts[0], init);
      InvariantKept(Do(s, acts[0]), acts[1..], init);
    }
  }

  lemma {:induction false} StepKeeps(s: State, a: Act, init: set<Record>)
    requires Invariant(s, init) && Enabled(s, a)
    ensures Invariant(Do(s, a), init)
  {
    ExclusiveKept(s, a);
    OrderedKept(s, a);
    AccountedKept(s, a, init);
    DistinctKept(s, a, init);
  }

  lemma {:induction false} StartInvariant(records: map<Slot, Record>)
    requires RecordsFiled(records)
    ensures Invariant(Start(records), records.Values)
  {
    forall r | r in records.Values
      ensures Settled(records, r)
    {
      BeatsOrder(r, r, r);
    }
  }

  lemma {:induction false} FlushedIs(snap: seq<Record>, rs: seq<Record>)
    ensures forall r :: r in Flushed(snap, rs) <==> r in rs && !Covered(snap, r)
    ensures NoRepeats(rs) ==> NoRepeats(Flushed(snap, rs))
  {
    if rs != [] {
      var n := |rs| - 1;
      FlushedIs(snap, rs[..n]);
      assert rs == rs[..n] + [rs[n]];
      assert forall r :: r in rs <==> r in rs[..n] || r == rs[n];
    }
  }

  /** In every interleaving the subscriber is entered by one thread at a time until the drain is
      finished, and by then it has seen the snapshot, then what was queued and not covered by it,
      in queue order, then the live calls. */
  lemma {:induction false} ReplayThenLive(records: map<Slot, Record>, acts: seq<Act>)
    requires RecordsFiled(records) && IsRun(Start(records), acts)
    ensures var s := After(Start(records), acts);
      && (!s.sub.Finished? ==> forall t | 0 <= t < |s.threads| :: !PastGate(s.threads[t]))
      && (s.sub.Finished? ==> s.seen == s.snap + Flushed(s.snap, s.queued) + s.live)
  {
    StartInvariant(records);
    InvariantKept(Start(records), acts, records.Values);
  }

  predicate AtRest(t: Thread) {
    t.stage.Missed? || t.stage.Queued? || t.stage.Inside? || t.stage.Delivered?
  }

  /** Once the drain is finished and every delivery has run its course, each record the store held
      or accepted has been seen, or its slot has been seen at an HLC no lower. */
  lemma {:induction false} NothingMissed(records: map<Slot, Record>, acts: seq<Act>, r: Record)
    requires RecordsFiled(records) && IsRun(Start(records), acts)
    requires var s := After(Start(records), acts);
      && s.sub.Finished? && (forall t | 0 <= t < |s.threads| :: AtRest(s.threads[t]))
      && (r in records.Values || exists t | 0 <= t < |s.threads| :: s.threads[t].r == r)
    ensures Covered(After(Start(records), acts).seen, r)
  {
    var s := After(Start(records), acts);
    StartInvariant(records);
    InvariantKept(Start(records), acts, records.Values);
    FlushedIs(s.snap, s.queued);
    if r !in records.Values {
      var t :| 0 <= t < |s.threads| && s.threads[t].r == r;
      assert Placed(s, s.threads[t]);
    }
  }

  // ---------- the store behind the gate ----------

  /** The records the store accepts in a run. */
  function Accepts(acts: seq<Act>): seq<Record> {
    if acts == [] then [] else (if acts[0].Accept? then [acts[0].r] else []) + Accepts(acts[1..])
  }

  /** The arrivals that change the topic. */
  ghost function AppliedOf(c: Config, ts: TopicState, e: seq<Convergence.Arrival>): seq<Record>
    decreases |e|
  {
    if e == [] then []
    else
      var (ts', out) := TopicStep(c, ts, e[0].r, e[0].now);
      (if out.applied then [e[0].r] else []) + AppliedOf(c, ts', e[1..])
  }

  /** `Accept` is what the store does with an owner record it applies. */
  lemma {:induction false} AcceptIsApply(c: Config, ts: TopicState, r: Record, now: int)
    requires !r.IsAttestation() && TopicStep(c, ts, r, now).1.applied
    ensures Wins(ts.records, r) && TopicStep(c, ts, r, now).0.records == ts.records[SlotOf(r) := r]
  {
  }

  lemma {:induction false} UnappliedKeeps(c: Config, ts: TopicState, r: Record, now: int)
    requires !r.IsAttestation() && !TopicStep(c, ts, r, now).1.applied
    ensures TopicStep(c, ts, r, now).0 == ts
  {
  }

  lemma {:induction false} OthersKeepRecords(s: State, a: Act)
    requires Enabled(s, a) && !a.Accept?
    ensures Do(s, a).records == s.records
  {
  }

  /** A run that accepts what the store applies has the store's records, however deliveries and the
      subscriber interleave. */
  lemma {:induction false} AcceptsFold(c: Config, ts: TopicState, e: seq<Convergence.Arrival>, s: State, acts: seq<Act>)
    requires Convergence.OwnerOnly(e) && IsRun(s, acts) && s.records == ts.records
    requires Accepts(acts) == AppliedOf(c, ts, e)
    ensures After(s, acts).records == Convergence.Fold(c, ts, e).records
    decreases |e| + |acts|
  {
    if e != [] && !TopicStep(c, ts, e[0].r, e[0].now).1.applied {
      UnappliedKeeps(c, ts, e[0].r, e[0].now);
      AcceptsFold(c, ts, e[1..], s, acts);
    } else if acts != [] && !acts[0].Accept? {
      OthersKeepRecords(s, acts[0]);
      AcceptsFold(c, ts, e, Do(s, acts[0]), acts[1..]);
    } else if acts != [] {
      var rest := Accepts(acts[1..]);
      assert Accepts(acts) == [acts[0].r] + rest;
      assert e != [] && acts[0].r == e[0].r && rest == AppliedOf(c, TopicStep(c, ts, e[0].r, e[0].now).0, e[1..]) by {
        assert AppliedOf(c, ts, e)[0] == e[0].r && AppliedOf(c, ts, e)[1..] == rest;
      }
      AcceptIsApply(c, ts, e[0].r, e[0].now);
      AcceptsFold(c, TopicStep(c, ts, e[0].r, e[0].now).0, e[1..], Do(s, acts[0]), acts[1..]);
    }
  }

  /** The record was there at the start, or some thread carries it. */
  ghost predicate Sourced(s: State, init: set<Record>, r: Record) {
    r in init || exists t | 0 <= t < |s.threads| :: s.threads[t].r == r
  }

  ghost predicate AllSourced(s: State, init: set<Record>) {
    forall k | k in s.records :: Sourced(s, init, s.records[k])
  }

  lemma {:induction false} SourcedKept(s: State, acts: seq<Act>, init: set<Record>)
    requires IsRun(s, acts) && AllSourced(s, init)
    ensures AllSourced(After(s, acts), init)
    decreases |acts|
  {
    if acts != [] {
      var s' := Do(s, acts[0]);
      assert |s.threads| <= |s'.threads| && forall t | 0 <= t < |s.threads| :: s'.threads[t].r == s.threads[t].r;
      forall k | k in s'.records
        ensures Sourced(s', init, s'.records[k])
      {
        if acts[0].Accept? && k == SlotOf(acts[0].r) {
          assert s'.threads[|s.threads|].r == s'.records[k];
        } else {
          assert Sourced(s, init, s.records[k]);
        }
      }
      SourcedKept(s', acts[1..], init);
    }
  }

  /** A subscriber ends up with the store: over a topic reached by any run of the store, and
      whatever owner records then arrive while it subscribes, once the drain and all deliveries are
      through it has seen every slot the store holds, at the HLC held or above. */
  lemma {:induction false} SubscriberFollows(c: Config, es: seq<Runs.Event>, e: seq<Convergence.Arrival>,
                                             acts: seq<Act>)
    requires c.Valid() && Convergence.OwnerOnly(e)
    requires var ts := Runs.At(c, es, |es|);
      IsRun(Start(ts.records), acts) && Accepts(acts) == AppliedOf(c, ts, e)
    requires var s := After(Start(Runs.At(c, es, |es|).records), acts);
      s.sub.Finished? && forall t | 0 <= t < |s.threads| :: AtRest(s.threads[t])
    ensures var held := Convergence.Fold(c, Runs.At(c, es, |es|), e).records;
      var seen := After(Start(Runs.At(c, es, |es|).records), acts).seen;
      forall k | k in held :: Covered(seen, held[k])
  {
    var ts := Runs.At(c, es, |es|);
    Runs.StructureKept(c, es, |es|);
    AcceptsFold(c, ts, e, Start(ts.records), acts);
    SourcedKept(Start(ts.records), acts, ts.records.Values);
    var s := After(Start(ts.records), acts);
    forall k | k in s.records
      ensures Covered(s.seen, s.records[k])
    {
      assert Sourced(s, ts.records.Values, s.records[k]);
      NothingMissed(ts.records, acts, s.records[k]);
    }
  }

  lemma {:induction false} SeenParts(s: State, init: set<Record>)
    requires Invariant(s, init) && s.sub.Finished?
    ensures NoRepeats(s.seen) <==> forall r | r in s.live :: r !in s.snap
  {
    FlushedApart(s.snap, s.queued, s.live);
    ThreeParts(s.snap, Flushed(s.snap, s.queued), s.live);
  }

  lemma {:induction false} FlushedApart(snap: seq<Record>, queued: seq<Record>, live: seq<Record>)
    requires NoRepeats(queued) && forall r | r in queued :: r !in live
    ensures NoRepeats(Flushed(snap, queued))
    ensures forall r | r in Flushed(snap, queued) :: r !in snap && r !in live
  {
    FlushedIs(snap, queued);
    assert forall r | r in snap :: Covered(snap, r);
  }

  lemma {:induction false} ThreeParts(a: seq<Record>, b: seq<Record>, c: seq<Record>)
    requires NoRepeats(a) && NoRepeats(b) && NoRepeats(c)
    requires (forall r | r in b :: r !in a) && (forall r | r in b :: r !in c)
    ensures NoRepeats(a + b + c) <==> forall r | r in c :: r !in a
  {
    Concatenated(a, b);
    Concatenated(a + b, c);
  }

  lemma {:induction false} Concatenated(a: seq<Record>, b: seq<Record>)
    requires NoRepeats(a) && NoRepeats(b)
    ensures NoRepeats(a + b) <==> forall r | r in b :: r !in a
  {
    if NoRepeats(a + b) {
      forall i, j | 0 <= i < |a| && 0 <= j < |b|
        ensures a[i] != b[j]
      {
        assert (a + b)[i] != (a + b)[|a| + j];
      }
    }
    if forall r | r in b :: r !in a {
      forall i, j | 0 <= i < j < |a + b|
        ensures (a + b)[i] != (a + b)[j]
      {
        if i < |a| <= j {
          assert b[j - |a|] in b && a[i] in a;
        } else if |a| <= i {
          assert b[i - |a|] != b[j - |a|];
        }
      }
    }
  }

  /** The thread has yet to come to the gate. */
  predicate Pending(t: Thread) {
    t.stage.Applied? || t.stage.Fetched?
  }

  /** The drain has found the queue empty and is about to open the gate. */
  predicate Opening(s: State) {
    Enabled(s, Check) && s.gate.queue == []
  }

  /** No thread that carries a record of the snapshot can still get past the open gate. */
  ghost predicate Cleared(s: State) {
    && s.sub.Finished?
    && (forall t | 0 <= t < |s.threads| && s.threads[t].r in s.snap ::
          s.threads[t].stage.Missed? || s.threads[t].stage.Queued?)
    && (forall r | r in s.live :: r !in s.snap)
  }

  lemma {:induction false} ClearedKept(s: State, a: Act, init: set<Record>)
    requires Invariant(s, init) && Cleared(s) && Enabled(s, a)
    ensures Cleared(Do(s, a))
  {
    if a.Accept? && a.r in s.snap {
      SettledStays(s.records, a.r, a.r);
    }
  }

  lemma {:induction false} ClearedRuns(s: State, acts: seq<Act>, init: set<Record>)
    requires Invariant(s, init) && Cleared(s) && IsRun(s, acts)
    ensures Cleared(After(s, acts))
    decreases |acts|
  {
    if acts != [] {
      ClearedKept(s, acts[0], init);
      StepKeeps(s, acts[0], init);
      ClearedRuns(Do(s, acts[0]), acts[1..], init);
    }
  }

  /** A pending thread with a record of the snapshot can be driven to repeat it. */
  lemma {:induction false} PendingRepeats(s: State, t: nat, init: set<Record>) returns (acts: seq<Act>)
    requires Invariant(s, init) && s.sub.Finished? && t < |s.threads|
    requires Pending(s.threads[t]) && s.threads[t].r in s.snap
    ensures IsRun(s, acts) && !NoRepeats(After(s, acts).seen)
    decreases s.threads[t].stage.Applied?
  {
    if s.threads[t].stage.Applied? {
      StepKeeps(s, Fetch(t), init);
      acts := PendingRepeats(Do(s, Fetch(t)), t, init);
      acts := Prepend(s, Fetch(t), acts);
    } else {
      var free := Do(s, Pass(t));
      StepKeeps(s, Pass(t), init);
      StepKeeps(free, Enter(t), init);
      var inside := Do(free, Enter(t));
      SeenParts(inside, init);
      assert s.threads[t].r in inside.live;
      acts := Prepend(free, Enter(t), []);
      acts := Prepend(s, Pass(t), acts);
    }
  }

  /** When the gate opens, the subscriber can no longer see a record twice, whatever happens next,
      exactly if every thread that carries a record of the snapshot has already come to the gate
      or missed the subscription. */
  lemma {:induction false} SeenOnceIff(records: map<Slot, Record>, acts: seq<Act>)
    requires RecordsFiled(records) && IsRun(Start(records), acts) && Opening(After(Start(records), acts))
    ensures var s := Do(After(Start(records), acts), Check);
      (forall more | IsRun(s, more) :: NoRepeats(After(s, more).seen)) <==>
      (forall t | 0 <= t < |s.threads| && Pending(s.threads[t]) :: s.threads[t].r !in s.snap)
  {
    var before := After(Start(records), acts);
    StartInvariant(records);
    InvariantKept(Start(records), acts, records.Values);
    StepKeeps(before, Check, records.Values);
    OpenedIff(Do(before, Check), records.Values);
  }

  lemma {:induction false} OpenedIff(s: State, init: set<Record>)
    requires Invariant(s, init) && s.sub.Finished? && s.live == []
    requires forall t | 0 <= t < |s.threads| :: !PastGate(s.threads[t])
    ensures (forall more | IsRun(s, more) :: NoRepeats(After(s, more).seen)) <==>
            (forall t | 0 <= t < |s.threads| && Pending(s.threads[t]) :: s.threads[t].r !in s.snap)
  {
    if t :| 0 <= t < |s.threads| && Pending(s.threads[t]) && s.threads[t].r in s.snap {
      var acts := PendingRepeats(s, t, init);
    } else {
      forall more | IsRun(s, more)
        ensures NoRepeats(After(s, more).seen)
      {
        ClearedRuns(s, more, init);
        InvariantKept(s, more, init);
        SeenParts(After(s, more), init);
      }
    }
  }

  /** The promise of exactly one delivery does not hold: a delivery that stalls past the drain
      repeats a record that was replayed. */
  lemma {:induction false} ReplayedTwice(r: Record) returns (acts: seq<Act>)
    requires !r.IsAttestation()
    ensures IsRun(Start(map[]), acts) && After(Start(map[]), acts).seen == [r, r]
  {
    var s0 := Start(map[]);
    var s1 := Do(s0, Accept(r));
    var s2 := Do(s1, Register);
    var s3 := Do(s2, Fetch(0));
    var s4 := Do(s3, Snapshot);
    OneRecord(r);
    assert s4.snap == [r];
    var s5 := Do(s4, Call);
    var s6 := Do(s5, Return);
    var s7 := Do(s6, Check);
    var s8 := Do(s7, Pass(0));
    acts := Prepend(s8, Enter(0), []);
    acts := Prepend(s7, Pass(0), acts);
    acts := Prepend(s6, Check, acts);
    acts := Prepend(s5, Return, acts);
    acts := Prepend(s4, Call, acts);
    acts := Prepend(s3, Snapshot, acts);
    acts := Prepend(s2, Fetch(0), acts);
    acts := Prepend(s1, Register, acts);
    acts := Prepend(s0, Accept(r), acts);
  }

  lemma {:induction false} Prepend(s: State, a: Act, rest: seq<Act>) returns (acts: seq<Act>)
    requires Enabled(s, a) && IsRun(Do(s, a), rest)
    ensures IsRun(s, acts) && After(s, acts) == After(Do(s, a), rest)
  {
    acts := [a] + rest;
    assert acts[1..] == rest;
  }

  lemma {:induction false} OneRecord(r: Record)
    ensures Listing(map[SlotOf(r) := r], Every()) == [r]
  {
    var records := map[SlotOf(r) := r];
    var ks := Kept(records, Every());
    assert ks == {SlotOf(r)};
    CanonicalSorted(ks);
    assert Canonical(ks)[0] in Canonical(ks);
  }
}
