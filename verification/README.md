# Swarm replication engine: model and proofs

A Dafny model of the gossip engine's replication core, and proofs about whole runs of it: the
per-topic delta-CRDT store with its K-of-N death quorum, Merkle anti-entropy between two stores, the
hybrid logical clock, the publish path, Plumtree dissemination with lazy repair, the replay-to-live
gate of a new subscriber, per-peer flow control, and the canonical encodings and chunked content.

`dafny verify dfyconfig.toml` checks the whole project.

## How it is built

What one record, frame or call does is a transition function on values. Where the code updates fields
or maps in loops, a class or a method with the same loops is proved equal to that function
(`RecordStores.RecordStore`, `AntiEntropy.MerkleEngine`, `Plumtree.PlumtreeEngine`, `Nodes.Node`,
`Flow.PeerCtx`, `SubGates.SubGate`). Statements about whole runs are proved on the functions.

| file | content |
|---|---|
| `Bytes`, `Finite`, `Encoding`, `Records`, `Enumeration` | byte order, finite sets, big-endian fields, records and slots, the canonical slot order |
| `Store`, `RecordStore` | the store's transition function, and the store object proved equal to it |
| `Convergence`, `Runs` | folding owner records; runs of one topic and of the whole store |
| `Quorum`, `Fence`, `Verdict` | death verdicts and the restored-at fence |
| `Retention`, `Resurrection` | TTL on two stores, and on a network of stores that exchange and sweep |
| `Clock`, `Publish`, `Node` | the clock under interleaved compare-and-swap; threads that stamp, observe and apply on one node; the node object |
| `MerkleRoot`, `AntiEntropy`, `Pull`, `Stranding` | roots, probes and ranges, a pull run to completion, and one that loses a slot |
| `Hearing`, `Relaying` | what it takes for an attestation to be heard, by a pull and across a network |
| `Plumtree`, `Forwarding`, `Edges`, `Dissemination`, `Repair` | one node's engine, the frames it sends, its tree edges under concurrent threads, a network of engines, lazy repair |
| `SubGate`, `Flow`, `Signing`, `Content` | subscriber gate, flow control, signing bytes, blobs |

Standing conventions:

- Time, flow-control decisions, holders' answers, signing and the manifest wire format are arguments.
- A hash is a parameter. It is assumed collision-free on the strings that are actually hashed, never
  on all strings, since no 32-byte hash is.
- Integer widths are explicit where they matter: the 16-bit HLC counter, `maxHLC + 1`, the prune
  subtraction, the token product and sum, and truncated length prefixes.
- An owner record is one that is not an observer attestation.
- A call that takes no lock across its parts is several steps: a publish stamps and later applies, an
  inbound record is observed and later applied, a promotion reads the tree edges and later sets its
  flags, and other threads come in between.

## Where the code and its documentation differ

The model follows the code.

- Subscribe promises that each record is seen exactly once (`node.go:232-236`). A delivery that stalls
  past the drain repeats a replayed record: `SubGates.ReplayedTwice`. `SubGates.SeenOnceIff` says, at
  the moment the gate opens, whether that can still happen.
- A stamp taken after observing a remote stamp is meant to exceed it (`hlc.go:54-56`). It does exactly
  when the counter is not full: `Clock.ObserveThenNowIff`, `Clock.ObserveThenNowCanFall`.
- A live owner record that opens a new slot stamps the fence but keeps older witnesses, unlike an
  overwrite (`crdt.go:321-351`). Such a witness can count towards a later quorum
  (`Fence.FirstSlotNotFenced`) exactly if one is on file that the window still reaches:
  `Fence.NewSlotFencedIff`.
- A publish is stamped above everything the node has seen, and still need not take its own slot: a
  verdict can land between the stamp and the apply (`node.go:369-381`). `Publishing.PublishCanLose`
  is such a run, `Publishing.PublishTakesIff` the exact condition. Subscribers are told of the record
  either way (`node.go:384`).
- A tenant change is meant to retire all of the node's records (`node.go:505-541`). It does if none was
  on its way to the store at the snapshot (`Publishing.TenantRetires`) and can miss one that was
  (`Publishing.TenantCanMiss`); from then on none comes back exactly if no record still on its way can
  land: `Publishing.StaysRetiredIff`.
- The resume cursor strands a NodeID that extends the last one sent by a zero byte
  (`merkle.go:335-340`): `Stranding.PullCanLose` is a completed pull that lacks an offered slot, and
  `Pulling.PullDeliversIff` says which slots a pull delivers. NodeIDs of one length never meet it:
  `AntiEntropy.EqualLengthsNoGap`.
- Two nodes at the same attestation state are said to compute the same root whether or not they
  crossed quorum (`crdt.go:611-615`). The tombstone is left out of the view, and so is the record it
  replaced: `MerkleRoot.QuorumCanMoveRoot`, `MerkleRoot.CrossingKeepsRootIff`.
- Keeping tombstones for twice the TTL is meant to keep deletes from coming back through anti-entropy
  (`crdt.go:669-672`). With exchanges between the stores' sweeps they can come back, however often the
  stores sweep (`Resurrection.DeletedCanReturn`), and do not exactly if no store carries the record any
  more: `Resurrection.ResurrectsIff`.
- An answered graft is meant to bring the announced record or newer. After a sweep it can bring an
  older one (`Repair.ReapAndReturn`), and never does exactly as long as the announced record is within
  its lifetime: `Repair.AnnouncementHoldsIff`.
- Inbound traffic is meant to promote no more than four times the tree degree (`plumtrees.go:121-139`).
  Promotions that overlap pass that bound, by exactly their number at most: `TreeEdges.EdgesBounded`,
  `TreeEdges.EdgesReach`, `TreeEdges.KeepsBoundIff`.

- Tokens refill at the configured rate (`peer.go:229-267`). Rate times nanoseconds is a 64-bit product
  and overflows after a long gap, ten seconds at a gigabyte a second, which then earns nothing:
  `Flow.LongGapCanStarve`, `Flow.GapGrantsIff`.

## Model

| member | source | states |
|---|---|---|
| `Bytes.BytesLess` | merkle.go:365-376 | the byte loop decides exactly the lexicographic order, a proper prefix being smaller |
| `Bytes.LexCursorGap` | merkle.go:335-340 | the strings strictly between `a` and `a` with 0x01 appended are exactly those that extend `a` by a zero byte first |
| `Records.BeatsOrder` | crdt.go:335-353 | the (HLC, signature) rank that decides a slot is a strict order, total up to equal HLC and signature |
| `Records.SlotOrder` | crdt.go:144-149 | the canonical (NodeID, Key) order is a strict total order |
| `Enumeration.SortSorts` | crdt.go:98-107 | sorting distinct slots keeps the set and gives a strictly ascending list |
| `Enumeration.SortedUnique` | crdt.go:620-639 | a set of slots has one strictly ascending enumeration, so map iteration order cannot show |
| `Store.TopicStepAdvances` | crdt.go:265-519 | no record removes a slot or lowers its rank; only the named node's slots change; `applied` is reported exactly when some slot changed |
| `Store.TopicStepWellFiled` | crdt.go:265-519 | records and witnesses stay filed under their own identity, no slot holds an attestation and no witness set is empty |
| `Store.CappedIff` | crdt.go:265-429 | a record is counted as turned away by a cap exactly if its topic has no place, or it would have come to something else with room for one more |
| `RecordStores.RecordStore.constructor` | crdt.go:176-207 | an empty store with defaults in place of non-positive caps |
| `RecordStores.RecordStore.ApplyExt` | crdt.go:265-354 | the store object ends in exactly the state and returns exactly the outcome of the transition function, topic cap included, and counts a rejection exactly if a cap turned the record away |
| `RecordStores.RecordStore.ApplyOwner` | crdt.go:292-354 | caps and their count, first slot, HLC-max with signature tie-break, witness clearing and fence |
| `RecordStores.RecordStore.ApplyAttestation` | crdt.go:359-519 | role, skew and fence gates, supersession, cap and its count, window prune, quorum and synthesis |
| `RecordStores.NodeSlots` | crdt.go:98-107 | the node's slots in canonical order |
| `RecordStores.NodeDeadAtOrAbove` | crdt.go:115-127 | whether the node holds a slot, and whether all it holds are tombstones at or above the HLC |
| `RecordStores.Prune` | crdt.go:437-448 | deleting while walking leaves exactly the witnesses inside the window |
| `RecordStores.Bury` | crdt.go:478-519 | the synthesis loop tombstones exactly the slots it outranks, or opens the classical slot, and reports a change exactly if there was one |
| `RecordStores.RecordStore.TopicRecordsWhere` | crdt.go:620-639 | the matching records, in canonical order |
| `RecordStores.RecordStore.TopicAttestations` | crdt.go:646-667 | the witnesses on file, in the order of target and observer, whatever the map order |
| `RecordStores.RecordStore.ReapExpired` | crdt.go:673-709 | expired records, orphaned fences and vacated topics go, and nothing else; the number returned is what the record count fell by |
| `RecordStores.CountWith` | crdt.go:723-731 | the record count does not depend on the order in which topics are gone through |
| `Convergence.FoldMaximal` | crdt.go:265-354 | within the caps, any fold of owner records ends at the slot-wise maximum of what was there and what arrived |
| `Convergence.OrderIndependence` | crdt.go:265-354 | two histories that deliver the same owner records, in any order and with any repetition, end in the same slots |
| `Convergence.MaximalMerge` | crdt.go:265-354 | grouping does not matter: merging two maxima gives the maximum of everything |
| `Convergence.MergeConverges` | crdt.go:265-354 | two replicas agree after each merges the other's records |
| `Convergence.TopicsIndependent` | crdt.go:265-332 | below the topic cap, a store is the product of its topics, attestations included |
| `Runs.StoreProjects` | crdt.go:265-332 | in every run of the whole store, each topic evolves by the events that reach it, and the topic cap holds |
| `Runs.StructureKept` | crdt.go:265-519 | every reachable topic is well filed, within the per-node and witness caps, and above the record cap by at most the number of quorum crossings for absent nodes |
| `Runs.RanksRise` | crdt.go:335-353 | between any two moments of a run without sweeps no slot disappears or falls in rank |
| `Quorum.StaleExact` | crdt.go:437-448 | exactly when the wrapping subtraction calls a witness stale |
| `Quorum.PrunedWindow` | crdt.go:437-448 | the kept witnesses are exactly those within the window of the newest, and are pairwise within it |
| `Quorum.OutcomeMeans` | crdt.go:265-429 | when a record is reported as replacing something, and that an attestation is taken in exactly if its observer has the role, it was observed at most ten minutes from now and after the fence, a slot of the target is live, below or missing, and it says more than its observer did or comes from a new one with room |
| `Quorum.FilesWitness` | crdt.go:402-464 | an attestation taken in supersedes its observer's earlier one and is on file unless another is newer by more than the window; of the others exactly those stay that keep up with all; one not taken in changes nothing |
| `Quorum.WitnessWasAdmitted` | crdt.go:359-464 | every witness on file was brought by an event at which its observer had the role, it was observed at most ten minutes ahead and after the fence then standing |
| `Quorum.CrossingsAreSound` | crdt.go:359-519 | every crossing rests on at least K distinct observers within one window, each with the role and, when it arrived, at most ten minutes ahead and past the fence |
| `Quorum.QuorumSafety` | crdt.go:359-519 | every unsigned record in any reachable store was written by such a crossing, one above its highest HLC, with no other node's slots touched |
| `Fence.FenceHolds` | crdt.go:335-394 | after a live overwrite at time t, while the node keeps a slot, every later quorum consists of attestations observed after t |
| `Fence.FenceMovesIff` | crdt.go:321-353 | a node's fence moves exactly when a live owner record of the node changes a slot, and then to that moment |
| `Fence.OwnerClearsIff` | crdt.go:335-353 | an owner record empties its node's witness set exactly if it takes over a slot the node already holds, and changes no other |
| `Fence.NewSlotFencedIff` | crdt.go:321-448 | after a live owner record that opens a new slot at time t, every later quorum of every continuation is observed after t exactly if no witness on file was observed by t and within the window of t + 1, given observers left to be heard |
| `Fence.FirstSlotNotFenced` | crdt.go:321-332 | a run after which a later quorum can contain an attestation from before the opening |
| `Verdict.VerdictOrderIndependent` | crdt.go:359-519 | any order, with repetition, of a fixed corroborated set leaves alive exactly the slots that were live above the highest attested HLC |
| `Retention.NoResurrection` | crdt.go:673-709 | a store that sweeps no earlier than one ttl before a tombstone is reaped elsewhere keeps no live record that tombstone had beaten |
| `Retention.MarginIsTight` | crdt.go:673-709 | one millisecond earlier it can |
| `Retention.TopicStaysIff` | crdt.go:673-709 | a sweep keeps a topic exactly if it is not swept or some unexpired record or witness is left |
| `Retention.VacatedMakesRoom` | crdt.go:270-277 | a topic that a sweep vacates leaves its place under the topic cap to another |
| `Resurrection.StaysDead` | crdt.go:669-709 | in a network of stores that exchange records, take new ones and sweep, once no store carries a live record that a tombstone beat, none ever does again |
| `Resurrection.ResurrectsIff` | crdt.go:669-709 | a store that has let the tombstone go is safe from the retired record in every run exactly if no store carries it |
| `Resurrection.QuietRoundClears` | crdt.go:673-709 | sweeps past the ttl of the tombstone with no exchange in between leave no swept store carrying it |
| `Resurrection.DeletedCanReturn` | crdt.go:669-709 | for every n, a run in which two stores each sweep n times, past twice the ttl of a tombstone that was dropped, and both end up carrying the record it beat |
| `Clock.PackExact` | hlc.go:103-114 | packing and unpacking invert each other for in-range walls and counters |
| `Clock.OrderIsLexicographic` | hlc.go:103-114 | HLC order is wall first, then counter |
| `Clock.NowGrowsIff` | hlc.go:33-50 | a stamp exceeds the state exactly when the counter is not full or the wall moves |
| `Clock.ObserveAdvances` | hlc.go:72-100 | observing never lowers the clock and reaches any in-budget remote |
| `Clock.ObserveThenNowIff` | hlc.go:33-100 | exactly when a stamp taken after observing exceeds the remote |
| `Clock.ObserveThenNowCanFall` | hlc.go:33-100 | an in-budget remote that the next stamp does not exceed |
| `Clock.ClockMonotone` | hlc.go:33-100 | over every interleaving of load and compare-and-swap steps the state never falls, and the stamps returned increase in swap order |
| `Clock.WallBounded` | hlc.go:72-100 | the wall part never passes the largest reading plus the budget, whatever is observed |
| `Publishing.ClockDominates` | plumtrees.go:241-266 | in every interleaving of stamps, observations, applications and sweeps the clock stays at or above every signed slot, witness and pending record, and at most one below a synthesised tombstone |
| `Publishing.AdmitsIff` | harden.go:94-134 | the inbound gate lets in exactly validly signed records with a key of at most 65535 bytes, a body within the limit, an HLC within the skew, trust, and with binding on the identity of their 32-byte key |
| `Publishing.EverythingCameIn` | plumtrees.go:241-266 | in every run from an empty store, every signed slot, witness and pending record was stamped by the node or observed, and in the latter case was all of that then |
| `Publishing.IdentitiesHold` | harden.go:113-125 | with binding on and a node that stamps under its own identity, every signed slot and pending record is under the hexadecimal form of its own key, and every witness's observer is |
| `Publishing.PublishTakesIff` | node.go:351-386 | a publish takes its slot exactly if the last record written there between its stamp and its application, if any, is one it beats, or, for a slot not held, if the caps leave room |
| `Publishing.PublishCanLose` | node.go:351-386 | a run in which it loses its slot |
| `Publishing.TenantRetires` | node.go:495-541 | if no live own record is on its way at the snapshot and none comes in, then once the tombstones of the snapshot are stamped and applied, among anything else, no own slot is live |
| `Publishing.StaysRetiredIff` | node.go:351-386 | once no own slot is live, none is after any continuation that brings in no live own record, exactly if no pending one can land: its topic is swept, its slot is open, or it beats what the slot holds |
| `Publishing.TenantCanMiss` | node.go:505-541 | a run in which a record stamped before the snapshot and applied after it stays live |
| `Publishing.StampBeatsIff` | hlc.go:33-50 | a stamp beats everything a dominating clock allows in its slot exactly if the counter is not full or the wall moves |
| `Nodes.CounterRoom` | hlc.go:33-50 | a counter with m values left has room for m stamps at any readings |
| `Nodes.Node.Receive` | plumtrees.go:241-273 | size, skew, binding and trust gate, observe and apply, as the steps of an undisturbed thread; the clock goes on dominating |
| `Nodes.Node.PublishKeyed` | node.go:351-410 | size limits, stamp, public key, signature and store, as the steps of an undisturbed thread, with every frame the engine sends and the notice to subscribers; while the clock leads and can tick, an existing own slot becomes the record and no other slot of the topic changes |
| `Nodes.Node.SetTenant` | node.go:495-541 | undisturbed, one tombstone per own slot is stamped, broadcast over the same made-up edges and, if applied, made known; nobody else's slots change; and under the same condition all are applied and no own slot stays live |
| `MerkleRoot.TopicMerkleRoot` | merkle.go:26-55 | the hashing loop computes the root of the canonical view of the range |
| `MerkleRoot.RootFaithful` | merkle.go:26-55 | two stores have equal roots on a range exactly when they hold the same signed records there |
| `MerkleRoot.CrossingKeepsRootIff` | crdt.go:611-618 | crossing quorum leaves the root of a range as it was exactly if the verdict outranks no signed record of the node there |
| `MerkleRoot.QuorumCanMoveRoot` | crdt.go:611-618 | two stores with the same records and witnesses whose roots differ, since only one crossed |
| `AntiEntropy.MerkleEngine.HandleProbe` | merkle.go:226-315 | silence on equal roots, the whole view with the witnesses on file, or a prefix cut on a NodeID boundary; and a probe in return unless one went to that peer and topic within five seconds |
| `AntiEntropy.WitnessSentIff` | merkle.go:267-281 | a full-range answer carries a witness on file exactly if the view has at most 64 records and fewer than 64 witnesses come before it by target and observer |
| `AntiEntropy.AnsweredBackIff` | merkle.go:234-253 | a mismatch is answered with a probe in return exactly if none to the same peer and topic was in the five seconds before |
| `AntiEntropy.MerkleEngine.HandleRange` | merkle.go:319-341 | each admitted record, at its own clock readings, is observed, applied and handed on if it changed the store, in order, and the cursor follows the last one if more is to come |
| `AntiEntropy.RangeFolds` | merkle.go:319-333 | a range leaves the store as folding its admitted records does, and the clock at or above every one of them that is in budget |
| `AntiEntropy.RangeHandsOn` | merkle.go:319-333 | exactly the records that changed a slot are handed on, in order |
| `AntiEntropy.RangeAbsorbs` | merkle.go:319-333 | on its own topic, handling a range is the step that the pulls below are made of |
| `AntiEntropy.CursorResumes` | merkle.go:300-340 | a resumed probe asks for exactly the records behind the split, except NodeIDs that extend the last one by a zero byte |
| `AntiEntropy.EqualLengthsNoGap` | merkle.go:335-340 | NodeIDs of equal length never fall into that gap |
| `Pulling.PullEnds` | merkle.go:226-341 | every pull from an unchanging responder comes to an end |
| `Pulling.PullRequests` | merkle.go:267-341 | at most k + 1 requests drain up to 64 * 2^k records |
| `Pulling.CoveredIff` | merkle.go:300-341 | an offered record is in some answer of a pull exactly if no resumed round's last NodeID is extended by a zero byte to its NodeID |
| `Pulling.PullMerges` | merkle.go:226-341 | a pull leaves the prober at the slot-wise maximum of its own records and the covered ones |
| `Pulling.PullDeliversIff` | merkle.go:226-341 | an offered slot that the prober lacked is there afterwards exactly if no resumed round steps over its NodeID |
| `Stranding.PullCanLose` | merkle.go:226-341 | a responder of 66 slots whose completed pull lacks an offered slot, for any hash, gate-free and within the caps |
| `Pulling.PullLosesNothing` | merkle.go:226-341 | every offered slot that is not stepped over ends at the offered rank or above, with attestations appended or not |
| `Pulling.NoGapCoversAll` | merkle.go:300-341 | without NodeIDs that extend one another by a zero byte every offered record is covered |
| `Pulling.PullBothWays` | merkle.go:226-341 | a pull each way makes two stores of signed records equal, and further probes are silent |
| `Hearing.HeardAmong` | crdt.go:359-464 | among attestations that agree with it, in any order and number, a credible one ends up on file, superseded by one at least as new on both scales, or its target dead at its HLC |
| `Hearing.PullHears` | merkle.go:226-341 | after a full-range pull every witness the responder sends and the prober lets in is heard by the prober in that sense |
| `Plumtree.BestIsBest` | plumtrees.go:510-538 | the edges promoted to reach the tree degree are the highest-ranked peers there are |
| `Plumtree.PlumtreeEngine.HandleEager` | plumtrees.go:241-328 | the handler's new state and every frame it sends, for owner records and attestations |
| `Forwarding.GateStops` | plumtrees.go:255-260 | a push that the gate turns away changes nothing and sends nothing |
| `Forwarding.AcceptSends` | plumtrees.go:304-328 | a push that changes a slot makes its sender an edge within the bound, is no longer missed, goes once to each other tree edge with one hop less, and is announced once to each open peer that is not an edge |
| `Forwarding.RelaySends` | plumtrees.go:268-292 | an attestation that changes no slot but is taken in goes once to each tree edge but the sender with one hop less, and those edges number at least the degree or are all peers |
| `Forwarding.RedundantSends` | plumtrees.go:294-302 | what brings nothing goes no further, and its sender is told to prune exactly if the slot is held or the attestation is credible |
| `Forwarding.PruneCuts` | plumtrees.go:402-406 | once the prune has arrived, what the far end accepts from others is not pushed over the edge but announced |
| `Plumtree.PlumtreeEngine.Publish` | plumtrees.go:143-150 | a local publish that is applied goes to the best tree edges and is announced to the open rest; one that is not sends nothing |
| `Forwarding.PublishSends` | plumtrees.go:143-150 | a publish that changes a slot is pushed with eight hops once to each tree edge, of which there are then at least the degree or all peers, and announced once to each open other; one that does not sends nothing |
| `Plumtree.PlumtreeEngine.Broadcast` | plumtrees.go:165-168 | a broadcast goes to the best tree edges and the open rest whatever the store made of the record |
| `Forwarding.BroadcastSends` | plumtrees.go:165-168 | the same frames whether or not the store changed |
| `Plumtree.BestAgain` | plumtrees.go:510-538 | once the edges have been made up, choosing again adds nothing |
| `Plumtree.PlumtreeEngine.HandleIHave` | plumtrees.go:334-366 | what an announcement adds to the tracker, and when nothing |
| `Plumtree.PlumtreeEngine.HandleGraft` | plumtrees.go:371-398 | bounded promotion, and an answer from exactly the named slot |
| `Forwarding.GraftPromotes` | plumtrees.go:371-375 | a graft makes the asker an edge exactly if it is one or there are fewer than four times the degree, and changes no other edge |
| `Plumtree.PlumtreeEngine.ProcessGrafts` | plumtrees.go:421-443 | entries are expired, skipped or grafted, each graft once, in any map order |
| `Repair.TreeBounded` | plumtrees.go:121-139 | in every run of frames and publishes that do not overlap, the tree edges stay within four times the tree degree |
| `TreeEdges.EdgesBounded` | plumtrees.go:125-139 | in every interleaving of table calls, edges and promotions under way stay within four times the tree degree plus the promotions that were under way when another thread read the edges |
| `TreeEdges.EdgesReach` | plumtrees.go:125-139 | for every such overlap a run reaches that number of edges |
| `TreeEdges.KeepsBoundIff` | plumtrees.go:125-139 | the bound of four times the tree degree holds in all runs exactly if there is no overlap |
| `TreeEdges.AloneIsPromote` | plumtrees.go:129-139 | undisturbed, the calls of a bounded promotion are the engine's single step |
| `TreeEdges.AloneIsBest` | plumtrees.go:515-537 | and those of making up the tree degree are its choice of the best edges |
| `Dissemination.DisseminationTerminates` | plumtrees.go:143-406 | no run of publishes, deliveries and losses has more deliveries and losses than 2 N^2 per record plus the weight of the frames it started with |
| `Dissemination.AcceptsOnce` | plumtrees.go:143-328 | each node accepts or publishes each record at most once, and never one it already dominates |
| `Dissemination.ForwardsOnlyAccepted` | plumtrees.go:268-328 | a push that changes no slot and is not an attestation taken in is not forwarded |
| `Dissemination.PushesLand` | plumtrees.go:241-328 | without loss, a push is in flight until its destination holds the record or a higher rank |
| `Dissemination.AcceptedReachesEdges` | plumtrees.go:306-328 | once the network is quiet, every tree edge a node had when it accepted a record holds it or better |
| `Dissemination.PublishReachesEdges` | plumtrees.go:143-150 | once the network is quiet, every tree edge a node had when it published a record it applied holds it or better |
| `Relaying.AttestationReachesEdges` | plumtrees.go:268-328 | once the network is quiet, every tree edge a node had when it took an attestation in, other than the sender, has heard it |
| `Repair.TrackerBounded` | plumtrees.go:334-366 | in every run the tracker stays within its cap |
| `Repair.TickExpires` | plumtrees.go:421-443 | after a tick no entry is past its lifetime |
| `Repair.GraftsAreSound` | plumtrees.go:334-443 | every graft answers an announcement by the peer it goes to, for a record not held then, neither early nor stale, and is the first since |
| `Repair.GraftsAreComplete` | plumtrees.go:334-443 | an announcement of a record not held, with room in the tracker, is grafted from its announcer at the first tick between delay and lifetime unless the record arrives before |
| `Repair.AlwaysHasIff` | plumtrees.go:334-398 | with sweeps no later than T, a store has an announced slot at the announced HLC or above after every run exactly if the record held at the announcement is within the ttl at T |
| `Repair.AnnouncementHoldsIff` | plumtrees.go:143-150 | for an announcement sent by a publish or a relay, a graft answered in any run with sweeps no later than T is answered at the announced HLC or above exactly if the announced HLC is within the ttl at T |
| `Repair.LazyRepair` | plumtrees.go:306-398 | within that time the announcer has the slot at the announced HLC or above, answers with it unless it is an unsigned verdict, and a requester that takes the answer then has what was announced or newer |
| `Repair.ReapAndReturn` | plumtrees.go:371-398 | a run with a sweep after which the graft is answered below the announcement |
| `SubGates.SubGate.Pass` | node.go:277-286 | under the lock, a delivery is queued while replaying and let through otherwise |
| `SubGates.SubGate.NextBatch` | node.go:329-345 | under the lock, the drain takes the queue, or opens the gate if it is empty |
| `SubGates.Replay` | node.go:253-258 | every snapshot record is handed on in order, and the remembered HLCs decide exactly what the snapshot covers |
| `SubGates.FlushBatch` | node.go:335-340 | exactly the uncovered records are handed on, in order |
| `SubGates.ReplayThenLive` | node.go:226-345 | in every interleaving one caller at a time until the drain is done, then seen is the snapshot, the uncovered queue in order, and the live calls |
| `SubGates.NothingMissed` | node.go:226-345 | every record held or accepted is seen, or its slot is seen at an HLC no lower |
| `SubGates.SubscriberFollows` | node.go:226-345 | over a topic reached by any run of the store, whatever owner records then arrive, a subscriber whose replay and deliveries are through has seen every slot the store holds at the HLC held or above |
| `SubGates.SeenOnceIff` | node.go:226-345 | when the gate opens, nothing is seen twice in any continuation exactly if no thread carrying a record of the snapshot is still on its way to the gate |
| `SubGates.ReplayedTwice` | node.go:226-345 | a run in which a record is seen twice |
| `Flow.PeerCtx.ConsumeTokens` | peer.go:229-267 | first fill, refill with 64-bit wrap and truncation, clamp, and grant |
| `Flow.PeerCtx.EnqueueLazy` | peer.go:178-204 | prefix prune, cap, append |
| `Flow.BandwidthBound` | peer.go:229-267 | bytes granted and tokens left never exceed the initial tokens plus rate times time |
| `Flow.FreeGrants` | peer.go:229-240 | requests that cost nothing, and peers without a cap, are granted and change nothing |
| `Flow.FirstSpends` | peer.go:229-267 | the first request draws on the configured tokens, or a second's worth, and takes exactly its cost |
| `Flow.BurstConserves` | peer.go:229-267 | of requests at one instant, what is granted and what is left is what there was, and a request that fits is granted |
| `Flow.GapGrantsIff` | peer.go:229-267 | a request beyond the tokens left is granted exactly if the 64-bit product of rate and time since the last refill covers what is missing |
| `Flow.LongGapGrants` | peer.go:229-267 | without overflow a second's gap earns any request within the rate |
| `Flow.LongGapCanStarve` | peer.go:229-267 | a gap of ten seconds that earns nothing |
| `Flow.AnnouncementBound` | peer.go:178-204 | the queue is exactly the acceptances inside the window, and any cap + 1 acceptances take longer than it |
| `Flow.NextAcceptedIff` | peer.go:178-204 | after any run of offers the next is accepted exactly if fewer than the cap were accepted, or the one that many back lies before the window |
| `Signing.AppendSignable` | sig.go:57-112 | the buffer is the canonical layout |
| `Signing.SignableDecodes` | sig.go:57-112 | a decoder inverts the canonical bytes, for slot keys of any length |
| `Signing.DecodedIsSignable` | sig.go:57-112 | the decoder accepts nothing but canonical bytes of well-sized records |
| `Signing.SignableDetermines` | sig.go:57-112 | equal bytes exactly for records that differ in nothing but the signature, so no keyed record shares bytes with another slot's |
| `Signing.LegacyPrefix` | sig.go:101-109 | the bytes are the old layout plus the key suffix, and are the old layout exactly without a key |
| `Signing.AppendManifest` | sig.go:143-182 | the buffer is the canonical manifest layout |
| `Signing.ManifestDetermines` | sig.go:143-182 | equal manifest bytes mean equal manifests |
| `Signing.NodeIDFromPub` | sig.go:219-227 | the NodeID is the lower-case hexadecimal form of the key |
| `Signing.PubFromNodeID` | sig.go:201-216 | succeeds exactly on the hexadecimal form of a 32-byte key, in either case, and returns that key |
| `Signing.HexDetermines` | sig.go:201-227 | different keys have different NodeIDs, already in lower case |
| `Content.ChunkBlob` | manifest.go:18-36 | the loop yields the chunks and their hashes, and nothing for size zero |
| `Content.ChunksExact` | manifest.go:18-36 | chunks concatenate to the body, their number is the ceiling quotient, and all but the last are full |
| `Content.BuildSignedManifest` | manifest.go:44-88 | the manifest describes the body, is signed over its canonical bytes and addressed by its hash |
| `Content.Fetch` | content_impl.go:172-218 | content is returned exactly if a holder serves it before the deadline, and always hashes to the request |
| `Content.FetchBlob` | content_impl.go:353-410 | status, written bytes and reported totals, failure by failure, partial writes included |
| `Content.BlobRoundTrip` | content_impl.go:353-410 | if no two of the published and answered strings collide, only a prefix of the published body is written, all of it on success, the totals reported are the running sizes, and success comes exactly if everything is served and written |

## Left out

- Ed25519, SHA-256 and protobuf: parameters and validity assumptions.
- Transport, timers, goroutine lifecycle, pausing, `sim/`: delivery, loss and time are steps or arguments.
- Changing the quorum, window, role check or caps during a run: the configuration is fixed.
- Each store call is atomic, as its lock makes it. The handlers of `Plumtree.PlumtreeEngine` and the methods of `Nodes.Node` hold no lock throughout and are modelled undisturbed; what other threads do in between is in `Publishing` for clock and store and in `TreeEdges` for the tree edges.
- `Plumtree.PlumtreeEngine.HandleGraft`: the requested HLC is not compared, as in the code.
- Choosing probe peers by clock and salt: a heuristic.
- `Publishing.ClockDominates`: asks that local stamps do not overflow the counter; `Publishing.StampBeatsIff` shows why.
- `Fence.NewSlotFencedIff`: the failing direction needs enough observers that are not on file, pass the role check and fit the witness cap, or no later quorum could form at all.
- `Resurrection.StaysDead`: what enters the network anew for the slot is taken to beat the tombstone, as the owner's own stamps do under `Publishing.ClockDominates`.
- `Publishing.PublishTakesIff`: what subscribers are told is not part of it; the code calls `recordAccepted` (`node.go:384`) even for a publish that lost or met a cap, while `SubGates` delivers applied records only.
- `Repair.AnnouncementHoldsIff`: owner records, since the tombstone behind an announced attestation is unsigned and never sent; an announced HLC above zero and a topic within its caps, or no older record could be answered.
- `Publishing.StaysRetiredIff`: pending live own records are for slots that are held or have room, since one that a cap turns away now can land later.
- `Dissemination.DisseminationTerminates`: owner records and no ticks, since a tick adds grafts, and an attestation that is pruned at once can be relayed again.
- `Hearing.HeardAmong`: what one observer says rises on both scales alike; an observer that goes forward on one and back on the other replaces its own witness by one that is not newer.
- `Relaying.AttestationReachesEdges`: the attestations in flight against the target agree, fit the window and caps of every node, and the target itself stays silent on the topic, since its own record moves the fence past them.
- `SubGates.NothingMissed`: applied owner records and no sweep; a quorum verdict delivers the attestation rather than the tombstone it causes.
- `Flow.BandwidthBound`: a rate of 2^63 bytes per second or more turns negative in the code and is excluded, as is a saturating time difference of 292 years.
- `Flow.AnnouncementBound`: no drains; a drain empties the queue and starts the window afresh.
- Sub-millisecond TTLs, role and tenant callbacks, the holder advert index, channel pooling, debug helpers: these would only add easy members.
