/** Content by hash: splitting a blob into chunks, publishing a manifest of their hashes, and
    fetching the blob back through holders that may answer anything. */
module Content {
  import opened Bytes
  import opened Encoding
  import opened Signing

  // ---------- chunking ----------

  function Chunks(body: Bytes, size: nat): seq<Bytes>
    requires size > 0
    decreases |body|
  {
    if |body| == 0 then []
    else if |body| <= size then [body]
    else [body[..size]] + Chunks(body[size..], size)
  }

  function HashAll(h: Bytes -> Bytes, chunks: seq<Bytes>): seq<Bytes> {
    seq(|chunks|, i requires 0 <= i < |chunks| => h(chunks[i]))
  }

  method ChunkBlob(h: Bytes -> Bytes, body: Bytes, size: nat) returns (hashes: seq<Bytes>, chunks: seq<Bytes>)
    ensures size == 0 ==> hashes == [] && chunks == []
    ensures size > 0 ==> chunks == Chunks(body, size) && hashes == HashAll(h, chunks)
  {
    hashes, chunks := [], [];
    if size == 0 {
      return;
    }
    CutStart(h, body, size);
    var i := 0;
    while i < |body|
      invariant 0 <= i
      invariant Cut(h, body, size, i, hashes, chunks)
      decreases |body| - i
    {
      var end := i + size;
      if end > |body| {
        end := |body|;
      }
      var c := body[i..end];
      CutNext(h, body, size, i, hashes, chunks, c);
      chunks := chunks + [c];
      hashes := hashes + [h(c)];
      i := i + size;
    }
    CutEnd(h, body, size, i, hashes, chunks);
  }

  /** What has been cut off before position `i`. */
  ghost predicate Cut(h: Bytes -> Bytes, body: Bytes, size: nat, i: nat, hashes: seq<Bytes>, chunks: seq<Bytes>)
    requires size > 0
  {
    chunks + Chunks(From(body, i), size) == Chunks(body, size) && hashes == HashAll(h, chunks)
  }

  lemma {:induction false} CutStart(h: Bytes -> Bytes, body: Bytes, size: nat)
    requires size > 0
    ensures Cut(h, body, size, 0, [], [])
  {
    assert From(body, 0) == body;
  }

  lemma {:induction false} CutEnd(h: Bytes -> Bytes, body: Bytes, size: nat, i: nat, hashes: seq<Bytes>,
                                  chunks: seq<Bytes>)
    requires size > 0 && i >= |body| && Cut(h, body, size, i, hashes, chunks)
    ensures chunks == Chunks(body, size) && hashes == HashAll(h, chunks)
  {
  }

  lemma {:induction false} CutNext(h: Bytes -> Bytes, body: Bytes, size: nat, i: nat, hashes: seq<Bytes>,
                                   chunks: seq<Bytes>, c: Bytes)
    requires size > 0 && i < |body| && Cut(h, body, size, i, hashes, chunks)
    requires c == body[i..if i + size > |body| then |body| else i + size]
    ensures Cut(h, body, size, i + size, hashes + [h(c)], chunks + [c])
  {
    NextChunk(body, i, size);
    PushChunk(h, chunks, c, Chunks(From(body, i + size), size));
  }

  lemma {:induction false} PushChunk(h: Bytes -> Bytes, chunks: seq<Bytes>, c: Bytes, rest: seq<Bytes>)
    ensures chunks + ([c] + rest) == (chunks + [c]) + rest
    ensures HashAll(h, chunks + [c]) == HashAll(h, chunks) + [h(c)]
  {
  }

  function From(body: Bytes, i: nat): Bytes {
    if i >= |body| then [] else body[i..]
  }

  lemma {:induction false} NextChunk(body: Bytes, i: nat, size: nat)
    requires size > 0 && i < |body|
    ensures var end := if i + size > |body| then |body| else i + size;
      Chunks(From(body, i), size) == [body[i..end]] + Chunks(From(body, i + size), size)
  {
    if i + size < |body| {
      assert body[i..][..size] == body[i..i + size];
      assert body[i..][size..] == body[i + size..];
    } else {
      assert body[i..|body|] == body[i..];
    }
  }

  /** The chunks are the body, cut as evenly as the size allows. */
  lemma {:induction false} ChunksExact(body: Bytes, size: nat)
    requires size > 0
    ensures Whole(Chunks(body, size)) == body
    ensures |Chunks(body, size)| == (|body| + size - 1) / size
    ensures forall i | 0 <= i < |Chunks(body, size)| - 1 :: |Chunks(body, size)[i]| == size
    ensures body != [] ==> 0 < |Chunks(body, size)[|Chunks(body, size)| - 1]| <= size
    decreases |body|
  {
    if |body| > size {
      ChunksExact(body[size..], size);
      CeilingStep(|body|, size);
      assert body == body[..size] + body[size..];
    } else if |body| > 0 {
      CeilingOne(|body|, size);
    } else {
      CeilingNone(size);
    }
  }

  function Whole(chunks: seq<Bytes>): Bytes {
    if chunks == [] then [] else chunks[0] + Whole(chunks[1..])
  }

  lemma {:induction false} CeilingStep(n: nat, size: nat)
    requires size > 0 && n > size
    ensures (n + size - 1) / size == (n - size + size - 1) / size + 1
  {
    var q := (n - 1) / size;
    assert n - 1 == q * size + (n - 1) % size;
    assert n + size - 1 == (q + 1) * size + (n - 1) % size;
    Quotients(n + size - 1, q + 1, (n - 1) % size, size);
  }

  lemma {:induction false} CeilingOne(n: nat, size: nat)
    requires 0 < n <= size
    ensures (n + size - 1) / size == 1
  {
    Quotients(n + size - 1, 1, n - 1, size);
  }

  lemma {:induction false} CeilingNone(size: nat)
    requires size > 0
    ensures (size - 1) / size == 0
  {
    Quotients(size - 1, 0, size - 1, size);
  }

  lemma {:induction false} Quotients(x: nat, q: nat, r: nat, size: nat)
    requires size > 0 && x == q * size + r && r < size
    ensures x / size == q
  {
    var q' := x / size;
    assert x == q' * size + x % size;
    Multiples(q - q', size);
    assert (q - q') * size == q * size - q' * size;
  }

  lemma {:induction false} Multiples(d: int, size: nat)
    ensures d >= 1 ==> d * size >= size
    ensures d <= -1 ==> d * size <= 0 - size
  {
  }

  // ---------- fetching one content hash ----------

  datatype Answer = Body(bytes: Bytes) | Failed

  /** A known holder and what asking it yields: the local provider, or a remote peer's answer
      together with whether the deadline has passed by then. */
  datatype Holder = Local(content: Answer) | Remote(answer: Answer, late: bool)

  datatype Fetched = Content(bytes: Bytes) | NoHolders | HashMismatch | HolderError | Late

  /** The holder yields bytes that hash to what was asked for. */
  predicate Serves(h: Bytes -> Bytes, hash: Bytes, holder: Holder) {
    var a := if holder.Local? then holder.content else holder.answer;
    a.Body? && h(a.bytes) == hash
  }

  predicate GivesUp(h: Bytes -> Bytes, hash: Bytes, holder: Holder) {
    holder.Remote? && holder.late && !Serves(h, hash, holder)
  }

  /** The first holder that decides the fetch is `i`. */
  predicate Decides(h: Bytes -> Bytes, hash: Bytes, holders: seq<Holder>, i: nat) {
    && i < |holders| && (Serves(h, hash, holders[i]) || GivesUp(h, hash, holders[i]))
    && forall j | 0 <= j < i :: !Serves(h, hash, holders[j]) && !GivesUp(h, hash, holders[j])
  }

  /** A fetch returns content exactly if a holder serves it before the deadline passes, and what it
      returns always hashes to what was asked for. */
  method Fetch(h: Bytes -> Bytes, hash: Bytes, holders: seq<Holder>) returns (r: Fetched)
    ensures r.Content? ==> h(r.bytes) == hash
    ensures r.Content? <==> exists i: nat :: Decides(h, hash, holders, i) && Serves(h, hash, holders[i])
    ensures r.Late? <==> exists i: nat :: Decides(h, hash, holders, i) && GivesUp(h, hash, holders[i])
    ensures holders == [] ==> r.NoHolders?
    ensures r == FetchFrom(h, hash, holders, NoHolders)
  {
    var last: Fetched := NoHolders;
    for i := 0 to |holders|
      invariant forall j | 0 <= j < i :: !Serves(h, hash, holders[j]) && !GivesUp(h, hash, holders[j])
      invariant !last.Content? && !last.Late? && (holders == [] ==> last.NoHolders?)
      invariant FetchFrom(h, hash, holders[i..], last) == FetchFrom(h, hash, holders, NoHolders)
    {
      assert holders[i..][0] == holders[i] && holders[i..][1..] == holders[i + 1..];
      match holders[i]
      case Local(content) =>
        if content.Body? && h(content.bytes) == hash {
          assert Decides(h, hash, holders, i);
          return Content(content.bytes);
        }
      case Remote(answer, late) =>
        if answer.Body? && h(answer.bytes) == hash {
          assert Decides(h, hash, holders, i);
          return Content(answer.bytes);
        }
        last := if answer.Body? then HashMismatch else HolderError;
        if late {
          assert Decides(h, hash, holders, i);
          return Late;
        }
    }
    return last;
  }

  function FetchFrom(h: Bytes -> Bytes, hash: Bytes, holders: seq<Holder>, last: Fetched): Fetched
    decreases |holders|
  {
    if holders == [] then last
    else
      match holders[0]
      case Local(content) =>
        if content.Body? && h(content.bytes) == hash then Content(content.bytes)
        else FetchFrom(h, hash, holders[1..], last)
      case Remote(answer, late) =>
        if answer.Body? && h(answer.bytes) == hash then Content(answer.bytes)
        else if late then Late
        else FetchFrom(h, hash, holders[1..], if answer.Body? then HashMismatch else HolderError)
  }

  /** The bytes the holders answer with. */
  ghost function Answers(holders: seq<Holder>): set<Bytes> {
    if holders == [] then {}
    else
      var a := if holders[0].Local? then holders[0].content else holders[0].answer;
      (if a.Body? then {a.bytes} else {}) + Answers(holders[1..])
  }

  /** What is fetched is one of the answers, and hashes to what was asked for. */
  lemma {:induction false} FetchedHashes(h: Bytes -> Bytes, hash: Bytes, holders: seq<Holder>, last: Fetched)
    requires !last.Content?
    ensures var r := FetchFrom(h, hash, holders, last); r.Content? ==> h(r.bytes) == hash && r.bytes in Answers(holders)
    decreases |holders|
  {
    if holders != [] {
      var holder := holders[0];
      FetchedHashes(h, hash, holders[1..],
                    if holder.Local? then last else if holder.answer.Body? then HashMismatch else HolderError);
    }
  }

  // ---------- fetching a blob ----------

  datatype SignedManifest = SignedManifest(m: Manifest, sig: Bytes)

  datatype Codec = Codec(encode: SignedManifest -> Bytes, decode: Bytes -> Option<SignedManifest>,
                         verify: SignedManifest -> bool)

  datatype Status =
    | Done | Unavailable(cause: Fetched) | Malformed | BadSignature | BadLength | Expired | WriteFailed | Corrupt

  /** A write succeeds, or fails after so many bytes. */
  datatype Write = Wrote | Broke(after: nat)

  /** Who answers what, request by request, whether the deadline has passed before chunk `i`, and how
      writing it out goes. */
  datatype Peers = Peers(manifest: seq<Holder>, chunk: nat -> seq<Holder>, expired: nat -> bool, write: nat -> Write)

  /** What is left of a write that breaks off. */
  function Part(bytes: Bytes, after: nat): Bytes {
    if after <= |bytes| then bytes[..after] else bytes
  }

  /** The status of a blob fetch, what has been written by then, and the totals reported on the way. */
  datatype Progress = Progress(status: Status, out: Bytes, reports: seq<u64>)

  /** The chunk loop from chunk `i` on. */
  function Assemble(h: Bytes -> Bytes, hashes: seq<Bytes>, peers: Peers, i: nat, out: Bytes,
                    reports: seq<u64>): Progress
    requires i <= |hashes|
    decreases |hashes| - i
  {
    if i == |hashes| then Progress(Done, out, reports)
    else if peers.expired(i) then Progress(Expired, out, reports)
    else if |hashes[i]| != HASH_LEN then Progress(BadLength, out, reports)
    else
      match FetchFrom(h, hashes[i], peers.chunk(i), NoHolders)
      case Content(bytes) =>
        (match peers.write(i)
         case Broke(after) => Progress(WriteFailed, out + Part(bytes, after), reports)
         case Wrote => Assemble(h, hashes, peers, i + 1, out + bytes, reports + [|out + bytes| % TWO_64]))
      case other => Progress(Unavailable(other), out, reports)
  }

  function Retrieve(h: Bytes -> Bytes, codec: Codec, hash: Bytes, peers: Peers): Progress {
    match FetchFrom(h, hash, peers.manifest, NoHolders)
    case Content(bytes) =>
      (match codec.decode(bytes)
       case None => Progress(Malformed, [], [])
       case Some(sm) =>
         if !codec.verify(sm) then Progress(BadSignature, [], [])
         else if |sm.m.blobHash| != HASH_LEN then Progress(BadLength, [], [])
         else
           var end := Assemble(h, sm.m.chunks, peers, 0, [], []);
           if end.status.Done? && h(end.out) != sm.m.blobHash then end.(status := Corrupt) else end)
    case other => Progress(Unavailable(other), [], [])
  }

  method FetchBlob(h: Bytes -> Bytes, codec: Codec, hash: Bytes, peers: Peers)
    returns (status: Status, out: Bytes, reports: seq<u64>)
    ensures Progress(status, out, reports) == Retrieve(h, codec, hash, peers)
  {
    out, reports := [], [];
    var fetched := Fetch(h, hash, peers.manifest);
    if !fetched.Content? {
      return Unavailable(fetched), out, reports;
    }
    var decoded := codec.decode(fetched.bytes);
    if decoded.None? {
      return Malformed, out, reports;
    }
    var sm := decoded.value;
    if !codec.verify(sm) {
      return BadSignature, out, reports;
    }
    if |sm.m.blobHash| != HASH_LEN {
      return BadLength, out, reports;
    }
    var hashed: Bytes := [];
    var received: u64 := 0;
    for i := 0 to |sm.m.chunks|
      invariant hashed == out && received == |out| % TWO_64
      invariant Assemble(h, sm.m.chunks, peers, i, out, reports) == Assemble(h, sm.m.chunks, peers, 0, [], [])
    {
      if peers.expired(i) {
        return Expired, out, reports;
      }
      if |sm.m.chunks[i]| != HASH_LEN {
        return BadLength, out, reports;
      }
      var chunk := Fetch(h, sm.m.chunks[i], peers.chunk(i));
      if !chunk.Content? {
        return Unavailable(chunk), out, reports;
      }
      hashed := hashed + chunk.bytes;
      match peers.write(i)
      case Broke(after) =>
        return WriteFailed, out + Part(chunk.bytes, after), reports;
      case Wrote =>
        Accumulates(|out|, |chunk.bytes|);
        out := out + chunk.bytes;
        received := (received + |chunk.bytes|) % TWO_64;
        reports := reports + [received];
    }
    if h(hashed) != sm.m.blobHash {
      return Corrupt, out, reports;
    }
    return Done, out, reports;
  }

  lemma {:induction false} Accumulates(a: nat, b: nat)
    ensures (a % TWO_64 + b) % TWO_64 == (a + b) % TWO_64
  {
  }

  // ---------- the round trip ----------

  /** The manifest describes the body. */
  ghost predicate Describes(h: Bytes -> Bytes, m: Manifest, body: Bytes) {
    && m.chunkSize > 0 && m.blobHash == h(body) && m.totalSize == |body|
    && m.chunks == HashAll(h, Chunks(body, m.chunkSize))
  }

  method BuildSignedManifest(h: Bytes -> Bytes, body: Bytes, size: nat, filename: Bytes, mime: Bytes, at: int,
                             pub: Bytes, sign: Bytes -> Bytes, codec: Codec)
    returns (sm: SignedManifest, bytes: Bytes, hash: Bytes, chunks: seq<Bytes>)
    requires |body| < TWO_63 && size < 0x1_0000_0000
    ensures Describes(h, sm.m, body) && sm.m.chunkSize == (if size == 0 then 0x10_0000 else size)
    ensures chunks == Chunks(body, sm.m.chunkSize)
    ensures sm.sig == sign(ManifestBytes(sm.m)) && sm.m.publisher == Hex(pub)
    ensures bytes == codec.encode(sm) && hash == h(bytes)
  {
    var chunkSize := if size == 0 then 0x10_0000 else size;
    var hashes;
    hashes, chunks := ChunkBlob(h, body, chunkSize);
    var publisher := NodeIDFromPub(pub);
    var m := Manifest(h(body), |body|, chunkSize, hashes, filename, mime, at, publisher);
    var signable := AppendManifest(m);
    sm := SignedManifest(m, sign(signable));
    bytes := codec.encode(sm);
    hash := h(bytes);
  }

  lemma {:induction false} WholeSnoc(chunks: seq<Bytes>, c: Bytes)
    ensures Whole(chunks + [c]) == Whole(chunks) + c
  {
    if chunks == [] {
      assert chunks + [c] == [c];
    } else {
      WholeSnoc(chunks[1..], c);
      assert (chunks + [c])[1..] == chunks[1..] + [c];
    }
  }

  lemma {:induction false} WholePrefix(chunks: seq<Bytes>, i: nat)
    requires i <= |chunks|
    ensures Whole(chunks[..i]) <= Whole(chunks)
  {
    if i > 0 {
      WholePrefix(chunks[1..], i - 1);
      assert chunks[..i][1..] == chunks[1..][..i - 1];
    }
  }

  lemma {:induction false} FetchedIs(h: Bytes -> Bytes, x: Bytes, holders: seq<Holder>, s: set<Bytes>)
    requires NoCollision(h, s) && x in s && Answers(holders) <= s
    ensures var r := FetchFrom(h, h(x), holders, NoHolders); r.Content? ==> r.bytes == x
  {
    FetchedHashes(h, h(x), holders, NoHolders);
  }

  predicate ChunkServed(h: Bytes -> Bytes, hashes: seq<Bytes>, peers: Peers, i: nat) {
    && i < |hashes| && !peers.expired(i) && |hashes[i]| == HASH_LEN
    && FetchFrom(h, hashes[i], peers.chunk(i), NoHolders).Content? && peers.write(i).Wrote?
  }

  /** Whatever the holders answer, the chunk loop has at every point written the chunks so far. */
  lemma {:induction false} AssembleWrites(h: Bytes -> Bytes, chunks: seq<Bytes>, peers: Peers, i: nat,
                                          reports: seq<u64>, s: set<Bytes>)
    requires i <= |chunks| && NoCollision(h, s) && (forall c | c in chunks :: c in s)
    requires forall j | 0 <= j < |chunks| :: Answers(peers.chunk(j)) <= s
    ensures var end := Assemble(h, HashAll(h, chunks), peers, i, Whole(chunks[..i]), reports);
      && end.out <= Whole(chunks) && (end.status.Done? ==> end.out == Whole(chunks))
      && (end.status.Done? <==> forall j | i <= j < |chunks| :: ChunkServed(h, HashAll(h, chunks), peers, j))
      && !end.status.Malformed? && !end.status.Corrupt?
    decreases |chunks| - i
  {
    WholePrefix(chunks, i);
    if i == |chunks| {
      assert chunks[..i] == chunks;
    } else {
      FetchedIs(h, chunks[i], peers.chunk(i), s);
      NextPrefix(chunks, i);
      AssembleWrites(h, chunks, peers, i + 1, reports + [|Whole(chunks[..i]) + chunks[i]| % TWO_64], s);
      var served := ChunkServed(h, HashAll(h, chunks), peers, i);
    }
  }

  /** The running totals of the chunks, as 64-bit numbers. */
  ghost function Totals(chunks: seq<Bytes>): seq<u64> {
    seq(|chunks|, i requires 0 <= i < |chunks| => |Whole(chunks[..i + 1])| % TWO_64)
  }

  /** And it has reported the running totals so far. */
  lemma {:induction false} AssembleReports(h: Bytes -> Bytes, chunks: seq<Bytes>, peers: Peers, i: nat, s: set<Bytes>)
    requires i <= |chunks| && NoCollision(h, s) && (forall c | c in chunks :: c in s)
    requires forall j | 0 <= j < |chunks| :: Answers(peers.chunk(j)) <= s
    ensures var end := Assemble(h, HashAll(h, chunks), peers, i, Whole(chunks[..i]), Totals(chunks)[..i]);
      end.reports <= Totals(chunks) && (end.status.Done? ==> end.reports == Totals(chunks))
    decreases |chunks| - i
  {
    if i < |chunks| {
      FetchedIs(h, chunks[i], peers.chunk(i), s);
      NextPrefix(chunks, i);
      assert Totals(chunks)[..i] + [|Whole(chunks[..i + 1])| % TWO_64] == Totals(chunks)[..i + 1];
      AssembleReports(h, chunks, peers, i + 1, s);
    }
  }

  /** One chunk further, in whole or in part, is still a prefix. */
  lemma {:induction false} NextPrefix(chunks: seq<Bytes>, i: nat)
    requires i < |chunks|
    ensures Whole(chunks[..i + 1]) == Whole(chunks[..i]) + chunks[i]
    ensures forall n: nat :: Whole(chunks[..i]) + Part(chunks[i], n) <= Whole(chunks)
  {
    WholeSnoc(chunks[..i], chunks[i]);
    assert chunks[..i + 1] == chunks[..i] + [chunks[i]];
    WholePrefix(chunks, i + 1);
    forall n: nat
      ensures Whole(chunks[..i]) + Part(chunks[i], n) <= Whole(chunks)
    {
      PartPrefix(Whole(chunks[..i]), chunks[i], n);
    }
  }

  lemma {:induction false} PartPrefix(a: Bytes, b: Bytes, n: nat)
    ensures a + Part(b, n) <= a + b
  {
  }

  /** Every string that a blob fetch can come across: what was published, and what holders answer. */
  ghost function InPlay(codec: Codec, sm: SignedManifest, chunks: seq<Bytes>, peers: Peers): set<Bytes> {
    {codec.encode(sm)} + (set c | c in chunks) + Answers(peers.manifest) + ChunkAnswers(peers, |chunks|)
  }

  ghost function ChunkAnswers(peers: Peers, n: nat): set<Bytes> {
    if n == 0 then {} else ChunkAnswers(peers, n - 1) + Answers(peers.chunk(n - 1))
  }

  lemma {:induction false} ChunkAnswersHas(peers: Peers, n: nat, j: nat)
    requires j < n
    ensures Answers(peers.chunk(j)) <= ChunkAnswers(peers, n)
  {
    if j < n - 1 {
      ChunkAnswersHas(peers, n - 1, j);
    }
  }

  /** The blob round trip: a fetch by the hash of a published manifest writes nothing but a prefix
      of the published body, and on success the whole of it, and reports its progress, whatever the
      holders answer, as long as no two of the strings in play collide; and it succeeds exactly if the
      manifest, validly signed, and every chunk are served and written. */
  lemma {:induction false} BlobRoundTrip(h: Bytes -> Bytes, codec: Codec, sm: SignedManifest, body: Bytes, peers: Peers)
    requires Describes(h, sm.m, body) && codec.decode(codec.encode(sm)) == Some(sm)
    requires NoCollision(h, InPlay(codec, sm, Chunks(body, sm.m.chunkSize), peers))
    ensures var end := Retrieve(h, codec, h(codec.encode(sm)), peers);
      var totals := Totals(Chunks(body, sm.m.chunkSize));
      && end.reports <= totals && (end.status.Done? ==> end.reports == totals)
      && end.out <= body && (end.status.Done? ==> end.out == body) && !end.status.Malformed? && !end.status.Corrupt?
      && (end.status.Done? <==>
            && FetchFrom(h, h(codec.encode(sm)), peers.manifest, NoHolders).Content?
            && codec.verify(sm) && |sm.m.blobHash| == HASH_LEN
            && forall j | 0 <= j < |sm.m.chunks| :: ChunkServed(h, sm.m.chunks, peers, j))
  {
    var chunks := Chunks(body, sm.m.chunkSize);
    var s := InPlay(codec, sm, chunks, peers);
    FetchedIs(h, codec.encode(sm), peers.manifest, s);
    ChunksExact(body, sm.m.chunkSize);
    forall j | 0 <= j < |chunks|
      ensures Answers(peers.chunk(j)) <= s
    {
      ChunkAnswersHas(peers, |chunks|, j);
    }
    assert chunks[..0] == [];
    AssembleWrites(h, chunks, peers, 0, [], s);
    assert Totals(chunks)[..0] == [];
    AssembleReports(h, chunks, peers, 0, s);
  }
}
