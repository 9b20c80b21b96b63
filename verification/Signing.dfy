/** The canonical bytes a record's signature covers, a decoder for them, and the hexadecimal NodeID
    of a public key. */
module Signing {
  import opened Bytes
  import opened Encoding
  import opened Records

  const ID_LEN: nat := 64
  const PUB_LEN: nat := 32

  // ---------- the layout ----------

  /** A field behind its own length, which is written in `n` bytes and truncated to them. */
  function Sized(x: Bytes, n: nat): Bytes {
    BigEndian(|x|, n) + x
  }

  /** uint64 of a signed 64-bit value. */
  function Unsigned(x: int): u64 {
    x % TWO_64
  }

  function TailBytes(r: Record): Bytes {
    Sized(r.observer, 2) + (BigEndian(Unsigned(r.observedAt), 8) + KeySuffix(r.key))
  }

  /** Nothing at all for the classical slot. */
  function KeySuffix(key: Key): Bytes {
    if key == [] then [] else Sized(key, 2)
  }

  function MidBytes(r: Record): Bytes {
    Sized(r.body, 4) + (r.pubKey + TailBytes(r))
  }

  function SignableBytes(r: Record): Bytes {
    Sized(r.topic, 2) + (r.nodeID + (BigEndian(r.hlc, 8) + ([if r.tombstone then 1 else 0] + MidBytes(r))))
  }

  lemma {:induction false} Shift(buf: Bytes, x: Bytes, rest: Bytes)
    ensures (buf + x) + rest == buf + (x + rest)
  {
  }

  method AppendSized(buf: Bytes, x: Bytes, n: nat, ghost rest: Bytes) returns (out: Bytes)
    ensures out + rest == buf + (Sized(x, n) + rest)
  {
    out := buf + BigEndian(|x|, n);
    out := out + x;
    Shift(buf, BigEndian(|x|, n), x);
    Shift(buf, Sized(x, n), rest);
  }

  method Append(buf: Bytes, x: Bytes, ghost rest: Bytes) returns (out: Bytes)
    ensures out + rest == buf + (x + rest)
  {
    out := buf + x;
    Shift(buf, x, rest);
  }

  /** The buffer as the code fills it, field by field. */
  method AppendSignable(r: Record) returns (buf: Bytes)
    ensures buf == SignableBytes(r)
  {
    ghost var stamp, flag := BigEndian(r.hlc, 8), [if r.tombstone then 1 else 0];
    ghost var at, key := BigEndian(Unsigned(r.observedAt), 8), KeySuffix(r.key);
    buf := [];
    buf := AppendSized(buf, r.topic, 2, r.nodeID + (stamp + (flag + MidBytes(r))));
    buf := Append(buf, r.nodeID, stamp + (flag + MidBytes(r)));
    buf := Append(buf, BigEndian(r.hlc, 8), flag + MidBytes(r));
    if r.tombstone {
      buf := Append(buf, [1], MidBytes(r));
    } else {
      buf := Append(buf, [0], MidBytes(r));
    }
    buf := AppendSized(buf, r.body, 4, r.pubKey + TailBytes(r));
    buf := Append(buf, r.pubKey, TailBytes(r));
    buf := AppendSized(buf, r.observer, 2, at + key);
    buf := Append(buf, BigEndian(Unsigned(r.observedAt), 8), key);
    assert buf + key == SignableBytes(r) by {
      assert [] + SignableBytes(r) == SignableBytes(r);
    }
    if |r.key| > 0 {
      assert Sized(r.key, 2) + [] == key;
      buf := AppendSized(buf, r.key, 2, []);
    }
    assert buf + [] == buf;
  }

  // ---------- the decoder ----------

  datatype Read = Short | Got(x: Bytes, rest: Bytes)

  function Take(b: Bytes, n: nat): Read {
    if |b| < n then Short else Got(b[..n], b[n..])
  }

  function TakeSized(b: Bytes, n: nat): Read {
    match Take(b, n)
    case Short => Short
    case Got(len, rest) => Take(rest, FromBigEndian(len))
  }

  /** The key is whatever follows, if that is a key behind its length. */
  function DecodeKey(b: Bytes): Option<Key> {
    if b == [] then Some([])
    else
      match Take(b, 2)
      case Short => None
      case Got(len, key) => if key != [] && len == BigEndian(|key|, 2) then Some(key) else None
  }

  function DecodeTail(b: Bytes, r: Record): Option<Record> {
    match TakeSized(b, 2)
    case Short => None
    case Got(observer, b1) =>
      match Take(b1, 8)
      case Short => None
      case Got(at, b2) =>
        match DecodeKey(b2)
        case None => None
        case Some(key) => Some(r.(observer := observer, observedAt := Wrap64(FromBigEndian(at)), key := key))
  }

  function DecodeMid(b: Bytes, r: Record): Option<Record> {
    match TakeSized(b, 4)
    case Short => None
    case Got(body, b1) =>
      match Take(b1, PUB_LEN)
      case Short => None
      case Got(pubKey, b2) => DecodeTail(b2, r.(body := body, pubKey := pubKey))
  }

  function DecodeFlag(b: Bytes, r: Record): Option<Record> {
    if b == [] || b[0] > 1 then None else DecodeMid(b[1..], r.(tombstone := b[0] == 1))
  }

  function DecodeStamp(b: Bytes, r: Record): Option<Record> {
    match Take(b, ID_LEN)
    case Short => None
    case Got(nodeID, b1) =>
      match Take(b1, 8)
      case Short => None
      case Got(hlc, b2) =>
        BigEndianBound(hlc);
        Widths();
        DecodeFlag(b2, r.(nodeID := nodeID, hlc := FromBigEndian(hlc)))
  }

  const BLANK := Record([], [], 0, [], false, [], [], [], [], 0)

  function Decode(b: Bytes): Option<Record> {
    match TakeSized(b, 2)
    case Short => None
    case Got(topic, b1) => DecodeStamp(b1, BLANK.(topic := topic))
  }

  // ---------- unique decodability ----------

  /** Lengths fit their prefixes, the identity and the key have their fixed lengths, and the
      observation time is a signed 64-bit value. The slot key may have any length. */
  predicate WellSized(r: Record) {
    && |r.topic| < 0x1_0000 && |r.body| < 0x1_0000_0000 && |r.observer| < 0x1_0000
    && |r.nodeID| == ID_LEN && |r.pubKey| == PUB_LEN
    && -TWO_63 <= r.observedAt < TWO_63
  }

  lemma {:induction false} TakeExact(x: Bytes, rest: Bytes)
    ensures Take(x + rest, |x|) == Got(x, rest)
  {
  }

  lemma {:induction false} TakeSizedExact(x: Bytes, n: nat, rest: Bytes)
    requires |x| < Pow256(n)
    ensures TakeSized(Sized(x, n) + rest, n) == Got(x, rest)
  {
    assert Sized(x, n) + rest == BigEndian(|x|, n) + (x + rest);
    TakeExact(BigEndian(|x|, n), x + rest);
    BigEndianExact(|x|, n);
    TakeExact(x, rest);
  }

  lemma {:induction false} KeyDecodes(key: Key)
    ensures DecodeKey(KeySuffix(key)) == Some(key)
  {
    if key != [] {
      TakeExact(BigEndian(|key|, 2), key);
    }
  }

  lemma {:induction false} SignedExact(x: int)
    requires -TWO_63 <= x < TWO_63
    ensures Wrap64(Unsigned(x)) == x
  {
  }

  lemma {:induction false} TailDecodes(r: Record, blank: Record)
    requires WellSized(r)
    ensures DecodeTail(TailBytes(r), blank) ==
            Some(blank.(observer := r.observer, observedAt := r.observedAt, key := r.key))
  {
    var at := BigEndian(Unsigned(r.observedAt), 8);
    Widths();
    TakeSizedExact(r.observer, 2, at + KeySuffix(r.key));
    TakeExact(at, KeySuffix(r.key));
    BigEndianExact(Unsigned(r.observedAt), 8);
    SignedExact(r.observedAt);
    KeyDecodes(r.key);
  }

  lemma {:induction false} MidDecodes(r: Record, blank: Record)
    requires WellSized(r)
    ensures DecodeMid(MidBytes(r), blank) ==
            Some(blank.(body := r.body, pubKey := r.pubKey, observer := r.observer, observedAt := r.observedAt,
                        key := r.key))
  {
    Widths();
    TakeSizedExact(r.body, 4, r.pubKey + TailBytes(r));
    TakeExact(r.pubKey, TailBytes(r));
    TailDecodes(r, blank.(body := r.body, pubKey := r.pubKey));
  }

  function FlagBytes(r: Record): Bytes {
    [if r.tombstone then 1 else 0] + MidBytes(r)
  }

  lemma {:induction false} FlagDecodes(r: Record, blank: Record)
    requires WellSized(r)
    ensures DecodeFlag(FlagBytes(r), blank) == DecodeMid(MidBytes(r), blank.(tombstone := r.tombstone))
  {
    assert FlagBytes(r)[1..] == MidBytes(r);
  }

  lemma {:induction false} StampDecodes(r: Record, blank: Record)
    requires WellSized(r)
    ensures DecodeStamp(r.nodeID + (BigEndian(r.hlc, 8) + FlagBytes(r)), blank) ==
            DecodeFlag(FlagBytes(r), blank.(nodeID := r.nodeID, hlc := r.hlc))
  {
    Widths();
    TakeExact(r.nodeID, BigEndian(r.hlc, 8) + FlagBytes(r));
    TakeExact(BigEndian(r.hlc, 8), FlagBytes(r));
    BigEndianExact(r.hlc, 8);
  }

  /** The decoder inverts the encoding. */
  lemma {:induction false} SignableDecodes(r: Record)
    requires WellSized(r)
    ensures Decode(SignableBytes(r)) == Some(r.(sig := []))
  {
    Widths();
    TakeSizedExact(r.topic, 2, r.nodeID + (BigEndian(r.hlc, 8) + FlagBytes(r)));
    var blank := BLANK.(topic := r.topic);
    StampDecodes(r, blank);
    FlagDecodes(r, blank.(nodeID := r.nodeID, hlc := r.hlc));
    MidDecodes(r, blank.(nodeID := r.nodeID, hlc := r.hlc, tombstone := r.tombstone));
  }

  /** Two records have the same canonical bytes exactly when they differ in nothing but the
      signature. In particular a keyed record shares its bytes with no keyless and no differently
      keyed one. */
  lemma {:induction false} SignableDetermines(a: Record, b: Record)
    requires WellSized(a) && WellSized(b)
    ensures SignableBytes(a) == SignableBytes(b) <==> a.(sig := []) == b.(sig := [])
  {
    SignableDecodes(a);
    SignableDecodes(b);
    if a.(sig := []) == b.(sig := []) {
      assert SignableBytes(a) == SignableBytes(a.(sig := [])) == SignableBytes(b.(sig := [])) == SignableBytes(b);
    }
  }

  lemma {:induction false} TookSized(b: Bytes, n: nat)
    requires TakeSized(b, n).Got?
    ensures b == Sized(TakeSized(b, n).x, n) + TakeSized(b, n).rest && |TakeSized(b, n).x| < Pow256(n)
  {
    FromBigEndianExact(b[..n]);
    BigEndianBound(b[..n]);
    Shift(b[..n], TakeSized(b, n).x, TakeSized(b, n).rest);
    assert b[n..] == TakeSized(b, n).x + TakeSized(b, n).rest;
    assert b == b[..n] + b[n..];
  }

  lemma {:induction false} KeyDecoded(b: Bytes)
    requires DecodeKey(b).Some?
    ensures b == KeySuffix(DecodeKey(b).value)
  {
  }

  lemma {:induction false} TailDecoded(b: Bytes, r: Record)
    requires DecodeTail(b, r).Some?
    ensures var d := DecodeTail(b, r).value;
      && b == TailBytes(d) && |d.observer| < 0x1_0000 && -TWO_63 <= d.observedAt < TWO_63
      && d == r.(observer := d.observer, observedAt := d.observedAt, key := d.key)
  {
    Widths();
    TookSized(b, 2);
    var b1 := TakeSized(b, 2).rest;
    assert b1 == b1[..8] + b1[8..];
    FromBigEndianExact(b1[..8]);
    BigEndianBound(b1[..8]);
    UnsignedExact(FromBigEndian(b1[..8]));
    KeyDecoded(b1[8..]);
  }

  lemma {:induction false} UnsignedExact(x: nat)
    requires x < TWO_64
    ensures Unsigned(Wrap64(x)) == x && -TWO_63 <= Wrap64(x) < TWO_63
  {
  }

  lemma {:induction false} MidDecoded(b: Bytes, r: Record)
    requires DecodeMid(b, r).Some?
    ensures var d := DecodeMid(b, r).value;
      && b == MidBytes(d) && |d.body| < 0x1_0000_0000 && |d.pubKey| == PUB_LEN
      && |d.observer| < 0x1_0000 && -TWO_63 <= d.observedAt < TWO_63
      && d == r.(body := d.body, pubKey := d.pubKey, observer := d.observer, observedAt := d.observedAt, key := d.key)
  {
    Widths();
    TookSized(b, 4);
    var body, b1 := TakeSized(b, 4).x, TakeSized(b, 4).rest;
    assert b1 == b1[..PUB_LEN] + b1[PUB_LEN..];
    TailDecoded(b1[PUB_LEN..], r.(body := body, pubKey := b1[..PUB_LEN]));
  }

  lemma {:induction false} FlagDecoded(b: Bytes, r: Record)
    requires DecodeFlag(b, r).Some?
    ensures var d := DecodeFlag(b, r).value;
      && b == FlagBytes(d) && |d.body| < 0x1_0000_0000 && |d.pubKey| == PUB_LEN
      && |d.observer| < 0x1_0000 && -TWO_63 <= d.observedAt < TWO_63
      && d.topic == r.topic && d.nodeID == r.nodeID && d.hlc == r.hlc && d.sig == r.sig
  {
    MidDecoded(b[1..], r.(tombstone := b[0] == 1));
    var d := DecodeFlag(b, r).value;
    Cons(b, if d.tombstone then 1 else 0, MidBytes(d));
  }

  lemma {:induction false} Cons(b: Bytes, x: byte, rest: Bytes)
    requires b != [] && b[0] == x && b[1..] == rest
    ensures b == [x] + rest
  {
  }

  lemma {:induction false} StampDecoded(b: Bytes, r: Record)
    requires DecodeStamp(b, r).Some?
    ensures var d := DecodeStamp(b, r).value;
      && b == d.nodeID + (BigEndian(d.hlc, 8) + FlagBytes(d))
      && d.topic == r.topic && d.sig == r.sig && (|r.topic| < 0x1_0000 ==> WellSized(d))
  {
    Widths();
    var b1 := b[ID_LEN..];
    assert b == b[..ID_LEN] + b1 && b1 == b1[..8] + b1[8..];
    FromBigEndianExact(b1[..8]);
    BigEndianBound(b1[..8]);
    FlagDecoded(b1[8..], r.(nodeID := b[..ID_LEN], hlc := FromBigEndian(b1[..8])));
  }

  /** The decoder accepts nothing but encodings of well-sized records. */
  lemma {:induction false} DecodedIsSignable(b: Bytes)
    requires Decode(b).Some?
    ensures SignableBytes(Decode(b).value) == b && WellSized(Decode(b).value) && Decode(b).value.sig == []
  {
    Widths();
    TookSized(b, 2);
    StampDecoded(TakeSized(b, 2).rest, BLANK.(topic := TakeSized(b, 2).x));
  }

  /** The layout before slot keys existed. */
  function LegacyBytes(r: Record): Bytes {
    Sized(r.topic, 2) + (r.nodeID + (BigEndian(r.hlc, 8) + ([if r.tombstone then 1 else 0] + LegacyMid(r))))
  }

  function LegacyMid(r: Record): Bytes {
    Sized(r.body, 4) + (r.pubKey + (Sized(r.observer, 2) + BigEndian(Unsigned(r.observedAt), 8)))
  }

  /** The canonical bytes are the old layout, followed by the key suffix; without a key they are the
      old layout. */
  lemma {:induction false} LegacyPrefix(r: Record)
    ensures SignableBytes(r) == LegacyBytes(r) + KeySuffix(r.key)
    ensures r.key == [] <==> SignableBytes(r) == LegacyBytes(r)
  {
    var flag, stamp := [if r.tombstone then 1 else 0], BigEndian(r.hlc, 8);
    var key, mid := KeySuffix(r.key), LegacyMid(r);
    LegacyMidPrefix(r);
    Shift(flag, mid, key);
    Shift(stamp, flag + mid, key);
    Shift(r.nodeID, stamp + (flag + mid), key);
    Shift(Sized(r.topic, 2), r.nodeID + (stamp + (flag + mid)), key);
  }

  lemma {:induction false} LegacyMidPrefix(r: Record)
    ensures MidBytes(r) == LegacyMid(r) + KeySuffix(r.key)
  {
    var at, key := BigEndian(Unsigned(r.observedAt), 8), KeySuffix(r.key);
    Shift(Sized(r.observer, 2), at, key);
    Shift(r.pubKey, Sized(r.observer, 2) + at, key);
    Shift(Sized(r.body, 4), r.pubKey + (Sized(r.observer, 2) + at), key);
  }

  // ---------- manifests ----------

  const HASH_LEN: nat := 32

  datatype Manifest = Manifest(blobHash: Bytes, totalSize: u64, chunkSize: nat, chunks: seq<Bytes>, filename: Bytes,
                               mime: Bytes, publishedAt: int, publisher: Bytes)

  function Joined(chunks: seq<Bytes>): Bytes {
    if chunks == [] then [] else Joined(chunks[..|chunks| - 1]) + chunks[|chunks| - 1]
  }

  function ManifestTail(m: Manifest): Bytes {
    Sized(m.filename, 2) + (Sized(m.mime, 2) + (BigEndian(Unsigned(m.publishedAt), 8) + Sized(m.publisher, 2)))
  }

  function ManifestBytes(m: Manifest): Bytes {
    m.blobHash + (BigEndian(m.totalSize, 8) + (BigEndian(m.chunkSize, 4) +
    (BigEndian(|m.chunks|, 4) + (Joined(m.chunks) + ManifestTail(m)))))
  }

  method AppendManifest(m: Manifest) returns (buf: Bytes)
    ensures buf == ManifestBytes(m)
  {
    ghost var at := BigEndian(Unsigned(m.publishedAt), 8);
    ghost var body := Joined(m.chunks) + ManifestTail(m);
    buf := [];
    buf := Append(buf, m.blobHash,
                  BigEndian(m.totalSize, 8) + (BigEndian(m.chunkSize, 4) + (BigEndian(|m.chunks|, 4) + body)));
    buf := Append(buf, BigEndian(m.totalSize, 8), BigEndian(m.chunkSize, 4) + (BigEndian(|m.chunks|, 4) + body));
    buf := Append(buf, BigEndian(m.chunkSize, 4), BigEndian(|m.chunks|, 4) + body);
    buf := Append(buf, BigEndian(|m.chunks|, 4), body);
    assert buf + body == ManifestBytes(m) by {
      assert [] + ManifestBytes(m) == ManifestBytes(m);
    }
    buf := AppendAll(buf, m.chunks, ManifestTail(m));
    buf := AppendSized(buf, m.filename, 2, Sized(m.mime, 2) + (at + Sized(m.publisher, 2)));
    buf := AppendSized(buf, m.mime, 2, at + Sized(m.publisher, 2));
    buf := Append(buf, BigEndian(Unsigned(m.publishedAt), 8), Sized(m.publisher, 2));
    assert Sized(m.publisher, 2) + [] == Sized(m.publisher, 2);
    buf := AppendSized(buf, m.publisher, 2, []);
    assert buf + [] == buf;
  }

  method AppendAll(buf: Bytes, chunks: seq<Bytes>, ghost rest: Bytes) returns (out: Bytes)
    ensures out + rest == buf + (Joined(chunks) + rest)
  {
    out := buf;
    for i := 0 to |chunks|
      invariant out == buf + Joined(chunks[..i])
    {
      assert chunks[..i + 1][..i] == chunks[..i];
      Shift(buf, Joined(chunks[..i]), chunks[i]);
      out := out + chunks[i];
    }
    assert chunks[..|chunks|] == chunks;
    Shift(buf, Joined(chunks), rest);
  }

  predicate ManifestSized(m: Manifest) {
    && |m.blobHash| == HASH_LEN && m.chunkSize < 0x1_0000_0000 && |m.chunks| < 0x1_0000_0000
    && (forall c | c in m.chunks :: |c| == HASH_LEN)
    && |m.filename| < 0x1_0000 && |m.mime| < 0x1_0000 && |m.publisher| < 0x1_0000
    && -TWO_63 <= m.publishedAt < TWO_63
  }

  lemma {:induction false} SamePrefix(a: Bytes, x: Bytes, b: Bytes, y: Bytes)
    requires a + x == b + y && |a| == |b|
    ensures a == b && x == y
  {
    assert a == (a + x)[..|a|] && b == (b + y)[..|b|];
    assert x == (a + x)[|a|..] && y == (b + y)[|b|..];
  }

  lemma {:induction false} SameNumber(x: nat, y: nat, n: nat, rest: Bytes, rest': Bytes)
    requires BigEndian(x, n) + rest == BigEndian(y, n) + rest' && x < Pow256(n) && y < Pow256(n)
    ensures x == y && rest == rest'
  {
    SamePrefix(BigEndian(x, n), rest, BigEndian(y, n), rest');
    BigEndianExact(x, n);
    BigEndianExact(y, n);
  }

  lemma {:induction false} SameSized(x: Bytes, y: Bytes, n: nat, rest: Bytes, rest': Bytes)
    requires Sized(x, n) + rest == Sized(y, n) + rest' && |x| < Pow256(n) && |y| < Pow256(n)
    ensures x == y && rest == rest'
  {
    TakeSizedExact(x, n, rest);
    TakeSizedExact(y, n, rest');
  }

  lemma {:induction false} SameChunks(a: seq<Bytes>, b: seq<Bytes>)
    requires |a| == |b| && Joined(a) == Joined(b)
    requires (forall c | c in a :: |c| == HASH_LEN) && (forall c | c in b :: |c| == HASH_LEN)
    ensures a == b
  {
    if a != [] {
      var n := |a| - 1;
      ConcatSplit(Joined(a[..n]), a[n], Joined(b[..n]), b[n]);
      SameChunks(a[..n], b[..n]);
      assert a == a[..n] + [a[n]] && b == b[..n] + [b[n]];
    }
  }

  lemma {:induction false} JoinedLength(a: seq<Bytes>)
    requires forall c | c in a :: |c| == HASH_LEN
    ensures |Joined(a)| == HASH_LEN * |a|
  {
    if a != [] {
      JoinedLength(a[..|a| - 1]);
    }
  }

  lemma {:induction false} TailDetermines(a: Manifest, b: Manifest)
    requires ManifestSized(a) && ManifestSized(b) && ManifestTail(a) == ManifestTail(b)
    ensures a.filename == b.filename && a.mime == b.mime && a.publishedAt == b.publishedAt && a.publisher == b.publisher
  {
    var aAt, bAt := BigEndian(Unsigned(a.publishedAt), 8), BigEndian(Unsigned(b.publishedAt), 8);
    Widths();
    SameSized(a.filename, b.filename, 2, Sized(a.mime, 2) + (aAt + Sized(a.publisher, 2)),
              Sized(b.mime, 2) + (bAt + Sized(b.publisher, 2)));
    SameSized(a.mime, b.mime, 2, aAt + Sized(a.publisher, 2), bAt + Sized(b.publisher, 2));
    SameNumber(Unsigned(a.publishedAt), Unsigned(b.publishedAt), 8, Sized(a.publisher, 2), Sized(b.publisher, 2));
    SignedExact(a.publishedAt);
    SignedExact(b.publishedAt);
    SamePrefix(BigEndian(|a.publisher|, 2), a.publisher, BigEndian(|b.publisher|, 2), b.publisher);
  }

  /** Two manifests with the same canonical bytes are the same manifest. */
  lemma {:induction false} ManifestDetermines(a: Manifest, b: Manifest)
    requires ManifestSized(a) && ManifestSized(b) && ManifestBytes(a) == ManifestBytes(b)
    ensures a == b
  {
    var x, y := Joined(a.chunks) + ManifestTail(a), Joined(b.chunks) + ManifestTail(b);
    Widths();
    SamePrefix(a.blobHash, BigEndian(a.totalSize, 8) + (BigEndian(a.chunkSize, 4) + (BigEndian(|a.chunks|, 4) + x)),
               b.blobHash, BigEndian(b.totalSize, 8) + (BigEndian(b.chunkSize, 4) + (BigEndian(|b.chunks|, 4) + y)));
    SameNumber(a.totalSize, b.totalSize, 8, BigEndian(a.chunkSize, 4) + (BigEndian(|a.chunks|, 4) + x),
               BigEndian(b.chunkSize, 4) + (BigEndian(|b.chunks|, 4) + y));
    SameNumber(a.chunkSize, b.chunkSize, 4, BigEndian(|a.chunks|, 4) + x, BigEndian(|b.chunks|, 4) + y);
    SameNumber(|a.chunks|, |b.chunks|, 4, x, y);
    JoinedLength(a.chunks);
    JoinedLength(b.chunks);
    SamePrefix(Joined(a.chunks), ManifestTail(a), Joined(b.chunks), ManifestTail(b));
    SameChunks(a.chunks, b.chunks);
    TailDetermines(a, b);
  }

  // ---------- hexadecimal NodeIDs ----------

  /** The digit of a nibble: 0-9, then a-f. */
  function HexDigit(n: nat): byte
    requires n < 16
  {
    if n < 10 then 48 + n else 87 + n
  }

  function HexNibble(c: byte): Option<nat> {
    if 48 <= c <= 57 then Some(c - 48)
    else if 97 <= c <= 102 then Some(c - 87)
    else if 65 <= c <= 70 then Some(c - 55)
    else None
  }

  function Hex(pub: Bytes): Bytes {
    if pub == [] then []
    else Hex(pub[..|pub| - 1]) + [HexDigit(pub[|pub| - 1] / 16), HexDigit(pub[|pub| - 1] % 16)]
  }

  method NodeIDFromPub(pub: Bytes) returns (id: Bytes)
    ensures id == Hex(pub)
  {
    id := [];
    for i := 0 to |pub|
      invariant id == Hex(pub[..i])
    {
      assert pub[..i + 1][..i] == pub[..i];
      id := id + [HexDigit(pub[i] / 16), HexDigit(pub[i] % 16)];
    }
    assert pub[..|pub|] == pub;
  }

  /** The ASCII letters A-F in lower case. */
  function Lower(id: Bytes): Bytes {
    seq(|id|, i requires 0 <= i < |id| => LowerByte(id[i]))
  }

  function LowerByte(c: byte): byte {
    if 65 <= c <= 70 then c + 32 else c
  }

  /** A NodeID decodes exactly if it is, up to the case of its letters, the hexadecimal form of a
      32-byte key, and then to that key. */
  method PubFromNodeID(id: Bytes) returns (pub: Option<Bytes>)
    ensures pub.Some? ==> |pub.value| == PUB_LEN && Hex(pub.value) == Lower(id)
    ensures pub.None? ==> forall p: Bytes | |p| == PUB_LEN :: Hex(p) != Lower(id)
  {
    if |id| != 2 * PUB_LEN {
      HexLengths();
      return None;
    }
    var out: Bytes := [];
    for i := 0 to PUB_LEN
      invariant |out| == i && Hex(out) == Lower(id)[..2 * i]
    {
      var hi, lo := HexNibble(id[2 * i]), HexNibble(id[2 * i + 1]);
      if hi.None? || lo.None? {
        BadDigit(id, i);
        return None;
      }
      NibbleDigit(id[2 * i]);
      NibbleDigit(id[2 * i + 1]);
      HexSnoc(out, hi.value, lo.value);
      NextTwo(Lower(id), 2 * i, HexDigit(hi.value), HexDigit(lo.value));
      out := out + [hi.value * 16 + lo.value];
    }
    return Some(out);
  }

  lemma {:induction false} BadDigit(id: Bytes, i: nat)
    requires |id| == 2 * PUB_LEN && i < PUB_LEN && (HexNibble(id[2 * i]).None? || HexNibble(id[2 * i + 1]).None?)
    ensures forall p: Bytes | |p| == PUB_LEN :: Hex(p) != Lower(id)
  {
    forall p: Bytes | |p| == PUB_LEN
      ensures Hex(p) != Lower(id)
    {
      HexAt(p, i);
      NotHex(id[2 * i]);
      NotHex(id[2 * i + 1]);
      assert Lower(id)[2 * i] != Hex(p)[2 * i] || Lower(id)[2 * i + 1] != Hex(p)[2 * i + 1];
    }
  }

  lemma {:induction false} NextTwo(s: Bytes, n: nat, x: byte, y: byte)
    requires n + 1 < |s| && s[n] == x && s[n + 1] == y
    ensures s[..n + 2] == s[..n] + [x, y]
  {
  }

  lemma {:induction false} HexSnoc(out: Bytes, hi: nat, lo: nat)
    requires hi < 16 && lo < 16
    ensures Hex(out + [hi * 16 + lo]) == Hex(out) + [HexDigit(hi), HexDigit(lo)]
  {
    var b: byte := hi * 16 + lo;
    assert b / 16 == hi && b % 16 == lo;
    assert (out + [b])[..|out|] == out;
  }

  lemma {:induction false} NibbleDigit(c: byte)
    requires HexNibble(c).Some?
    ensures HexNibble(c).value < 16 && HexDigit(HexNibble(c).value) == LowerByte(c)
  {
  }

  lemma {:induction false} NotHex(c: byte)
    ensures HexNibble(c).None? ==> forall n: nat | n < 16 :: HexDigit(n) != LowerByte(c)
  {
  }

  lemma {:induction false} HexAt(p: Bytes, i: nat)
    requires i < |p|
    ensures |Hex(p)| == 2 * |p| && Hex(p)[2 * i] == HexDigit(p[i] / 16) && Hex(p)[2 * i + 1] == HexDigit(p[i] % 16)
  {
    var n := |p| - 1;
    if i < n {
      HexAt(p[..n], i);
    } else if n > 0 {
      HexAt(p[..n], 0);
    }
  }

  lemma {:induction false} HexLengths()
    ensures forall p: Bytes | |p| == PUB_LEN :: |Hex(p)| == 2 * PUB_LEN
  {
    forall p: Bytes | |p| == PUB_LEN
      ensures |Hex(p)| == 2 * PUB_LEN
    {
      HexAt(p, 0);
    }
  }

  /** Different keys have different NodeIDs, and a NodeID is already in lower case; so decoding
      the NodeID of a key gives the key back. */
  lemma {:induction false} HexDetermines(p: Bytes, q: Bytes)
    requires |p| == |q|
    ensures Hex(p) == Hex(q) <==> p == q
    ensures Lower(Hex(p)) == Hex(p)
  {
    forall i | 0 <= i < |p|
      ensures Hex(p) == Hex(q) ==> p[i] == q[i]
      ensures |Hex(p)| == 2 * |p| && !(65 <= Hex(p)[2 * i] <= 70) && !(65 <= Hex(p)[2 * i + 1] <= 70)
    {
      HexAt(p, i);
      HexAt(q, i);
    }
    forall j | 0 <= j < |Hex(p)|
      ensures Lower(Hex(p))[j] == Hex(p)[j]
    {
      if |p| > 0 {
        assert |Hex(p)| == 2 * |p| by { HexAt(p, 0); }
        assert j == 2 * (j / 2) || j == 2 * (j / 2) + 1;
      }
    }
  }
}
