/** The signed record, the slot it is filed under, and the rank that decides which of two
    records keeps a slot. */
module Records {
  import opened Bytes

  type NodeID = Bytes
  type Topic = Bytes
  type Key = Bytes

  datatype Record = Record(
    topic: Topic,
    nodeID: NodeID,
    hlc: u64,
    body: Bytes,
    tombstone: bool,
    pubKey: Bytes,
    sig: Bytes,
    key: Key,
    observer: NodeID,
    observedAt: int
  ) {
    /** A death claim signed by somebody other than the owner of the slot. */
    predicate IsAttestation() {
      tombstone && observer != []
    }

    predicate IsSigned() {
      sig != []
    }
  }

  /** One slot of a topic. An empty key is the node's classical single slot. */
  datatype Slot = Slot(node: NodeID, key: Key)

  function SlotOf(r: Record): Slot {
    Slot(r.nodeID, r.key)
  }

  predicate SlotLess(a: Slot, b: Slot) {
    if a.node != b.node then LexLess(a.node, b.node) else LexLess(a.key, b.key)
  }

  lemma {:induction false} SlotOrder(a: Slot, b: Slot, c: Slot)
    ensures !SlotLess(a, a)
    ensures SlotLess(a, b) ==> !SlotLess(b, a)
    ensures SlotLess(a, b) && SlotLess(b, c) ==> SlotLess(a, c)
    ensures SlotLess(a, b) || SlotLess(b, a) || a == b
  {
    LexIrreflexive(a.key);
    LexTotal(a.node, b.node);
    LexTotal(a.key, b.key);
    if SlotLess(a, b) {
      if a.node != b.node { LexAsymmetric(a.node, b.node); } else { LexAsymmetric(a.key, b.key); }
      if SlotLess(b, c) {
        if a.node == b.node == c.node {
          LexTransitive(a.key, b.key, c.key);
        } else if a.node != b.node && b.node != c.node {
          LexTransitive(a.node, b.node, c.node);
          LexAsymmetric(a.node, b.node);
          LexAsymmetric(b.node, c.node);
          if a.node == c.node { assert false; }
        }
      }
    }
  }

  /** `r` takes the slot from `cur`: a higher HLC wins, and equal HLCs are decided by the
      signature bytes. */
  predicate Beats(r: Record, cur: Record) {
    r.hlc > cur.hlc || (r.hlc == cur.hlc && LexLess(cur.sig, r.sig))
  }

  /** `Beats` is a strict order, total up to equal (HLC, signature). */
  lemma {:induction false} BeatsOrder(a: Record, b: Record, c: Record)
    ensures !Beats(a, a)
    ensures Beats(a, b) ==> !Beats(b, a)
    ensures Beats(a, b) && Beats(b, c) ==> Beats(a, c)
    ensures !Beats(a, b) && !Beats(b, a) ==> a.hlc == b.hlc && a.sig == b.sig
    ensures !Beats(b, a) && Beats(b, c) ==> Beats(a, c)
    ensures Beats(a, b) && !Beats(c, b) ==> Beats(a, c)
    ensures !Beats(b, a) && !Beats(c, b) ==> !Beats(c, a)
  {
    LexIrreflexive(a.sig);
    LexTotal(a.sig, b.sig);
    if LexLess(b.sig, a.sig) { LexAsymmetric(b.sig, a.sig); }
    if LexLess(b.sig, a.sig) && LexLess(c.sig, b.sig) { LexTransitive(c.sig, b.sig, a.sig); }
    LexTotal(b.sig, c.sig);
    LexTotal(a.sig, c.sig);
    if LexLess(a.sig, c.sig) && LexLess(c.sig, b.sig) { LexTransitive(a.sig, c.sig, b.sig); }
    if LexLess(b.sig, a.sig) && LexLess(a.sig, c.sig) { LexTransitive(b.sig, a.sig, c.sig); }
    if LexLess(a.sig, c.sig) { LexAsymmetric(a.sig, c.sig); }
    if LexLess(b.sig, c.sig) { LexAsymmetric(b.sig, c.sig); }
    if LexLess(a.sig, b.sig) { LexAsymmetric(a.sig, b.sig); }
  }
}
