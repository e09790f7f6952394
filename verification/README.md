# Racnet core: verified model

Racnet is a local-first mesh: devices hold signed entries, open encrypted links
to whoever is in radio range, and reconcile their stores over them. Its core is
free of I/O: bytes and clock readings go in, frames and events come out. This
project models that core in Dafny and proves what it is for.

The main results, each over every input, run or reachable state:

* **Reconciliation is exact.** Two Negentropy engines without frame limits end
  after a logarithmic number of messages, and the initiator has then reported
  both halves of the set difference, each id once (`Sessions.SessionExact`,
  `SessionRuns.RunSession`).
* **Under a frame limit it still ends.** Whatever the limits, every session ends
  within an explicit number of deliveries (`LimitedSessions.LimitedSessionEnds`),
  nothing false is ever reported (`Sessions.SessionSound`), every reply stays
  within its limit and decodes to what was meant
  (`Totality.ReplyDecodesWithinLimit`), and both halves of the difference are
  reported unless an engine drops its answer to a fingerprint of no items
  (`LimitedSessions.LimitedSessionExact`). If it does, items can be lost, even
  with the default limit: see below.
* **Two nodes converge.** Two honest session managers with any frame limits, over
  first-in first-out channels, never refuse a message and fall silent after a
  bounded number of moves under every interleaving; if every session was clean
  (`LimitedSessions.Clean`) they then hold the union of their stores
  (`LinkRuns.RunConverges`). Two link drivers do the same over sealed frames,
  from HELLO to equal stores (`SecureLinks.FreshLinksConverge`).
* **The order index is a sorted set.** The arena tree keeps order, exact
  summaries and weight balance through any insertions
  (`OrderIndexes.OrderIndex.Insert`, `OrderIndexes.Build`), and every query equals
  the one on the sorted sequence, so both kinds of store give identical replies
  (`SessionRuns.Interchangeable`).
* **A crash loses nothing committed.** Any appends with any faults, then a
  reopening (`EntryStores.CrashAndReopen`, `EntryStores.ReopenAfterCrash`).
* **Links are well behaved.** What any sequence of calls on arbitrary bytes can
  report and send (`DriverRuns.LifeOfALink`), what any single body leads to
  (`Verdicts.TransportVerdict`), that no link outlives its deadlines
  (`Deadlines.DeadlinesHold`), independence of segmentation
  (`DriverRuns.ChunksAreOne`), establishment between honest peers
  (`Establishment.LinkComesUp`), agreement of the XX handshake
  (`Handshakes.HandshakeAgrees`) on keys that take all three key agreements
  (`KeySchedules.HandshakeKeys`), what accepting arbitrary handshake bytes proves
  about their writer (`KeySchedules.InitiatorAccepts`,
  `KeySchedules.ResponderAccepts`), one version on both sides whatever was altered
  on the way (`Negotiation.VersionsAgree`), and transport states under any
  interleaving of calls, hostile bytes included (`Channels.AnyInterleaving`,
  `Channels.ConversationIntact`).
* **The limiter limits.** The admission rate per address across bucket
  collection, with the exact condition on the configuration
  (`LimiterRuns.RateBoundedExactly`), that only a spent rate or the cap refuses
  (`LimiterFairness.RefusedOnlyWhenSpent`), how long a ticket lives
  (`LimiterFairness.TicketLife`), and the ticket bookkeeping of a device
  (`Nodes.Node.Drive`, `Nodes.Node.Tick`).
* **No entry is forgotten.** The Android runtime's scheduling keeps every
  established link informed of every stored entry
  (`Schedulers.NodeRuntime.OnBytes`), and serves every due link if the core is
  willing (`Schedulers.WillingServesAll`).

Imperative parts of the source are classes and loops here, proved against
specification functions; the theorems are about those functions. An item order
position is a natural number (`Items.Key`, `Bounds.Pos`), so the protocol
arguments are about intervals of naturals. What is not modelled is a parameter,
and what is assumed of it is a named predicate in the contract that needs it:

* `Ciphers.Aead`: opening undoes sealing, and sealing adds a tag;
* `Handshakes.DhCommutes`: key agreement commutes;
* `Exactness.CollisionFree`: fingerprints tell two snapshots apart on every common
  interval; `Limits.Distinct`, used only under a frame limit: on any two intervals;
* `Wires.Reads`: the payload decoder reads back what the encoder writes;
* `PushFrames.Spends`: an accepted push takes at least the canonical octets of its
  entries and five more.

The last two are met by a reader of the payload layouts (`Payloads.ReadsBack`,
`Payloads.SpendsEnough`).

Where a hash would have to be injective or a ciphertext unforgeable, nothing is
assumed: the conclusion names the two inputs that collide or the associated data
under which a ciphertext opened (`Handshakes.Deceived`).

Two places where the code does less than one might expect:

* Under a frame limit `reconcile` drops an answer that no longer fits and
  fingerprints only what follows the dropped range
  (core/src/sync/negentropy/mod.rs:228-236), but the peer reads that fingerprint
  for everything after the last answer sent. `Limits.DroppedAnswerMisleads` says
  exactly when the peer takes it for agreement while the two differ: it holds
  nothing up to the end of the dropped range, the same items after it, and the
  engine does hold something before it. An honest peer then had sent a fingerprint
  of no items (`Limits.OnlyNothingMisleads`), and without such a drop the session
  is exact (`LimitedSessions.LimitedSessionExact`). `LostItems.SessionLosesItems`
  is a whole session with the limit 4096, which is the default
  (core/src/sync/session.rs:46-52): it ends after four deliveries and fifteen items
  are never reported, under every hash that tells the two sets apart and under
  one given explicitly (`LostItems.SumSessionLosesItems`). "Each id once" is
  claimed only without a limit: after a continuation an id may be reported again,
  as core/src/sync/negentropy/mod.rs:53-58 says, and the session manager passes it
  on once (`Syncers.UnseenSpec`).
* The limiter's collection deadline saturates at 2^64 - 1
  (core/src/link/limiter.rs:95-98). With `(burst - 1) * refill_interval` at or
  above that value a bucket can be dropped early and the rate bound fails;
  `LimiterRuns.RateBreaks` gives the history, `LimiterRuns.RateBoundedExactly`
  the exact condition.

`dafny verify dfyconfig.toml` checks everything.

## Model

| member | source | states |
|---|---|---|
| Items.KeyOrder | core/src/store/item.rs:11-17 | item order (sort key, then bytewise id) is exactly the order of positions, and a position determines the item |
| Varint.Write | core/src/sync/negentropy/varint.rs:10-25 | the digit loop appends the base-128 encoding of the number |
| Varint.Read | core/src/sync/negentropy/varint.rs:28-43 | the accumulating loop returns the digits' value and the rest, or the error |
| Varint.RoundTrip | core/src/sync/negentropy/varint.rs:10-43 | every u64 followed by anything decodes to itself, leaving what followed |
| Varint.Minimal | core/src/sync/negentropy/varint.rs:10-25 | no digit string for the same number is shorter than the encoding |
| Varint.ReadAccepts | core/src/sync/negentropy/varint.rs:28-43 | a terminated digit string is accepted exactly when its value is below 2^64 |
| Varint.ReadRejectsUnterminated | core/src/sync/negentropy/varint.rs:28-43 | without a final digit nothing is accepted |
| Bounds.BeforeIsBelow | core/src/sync/negentropy/bound.rs:72-78 | comparison against a zero-padded bound is comparison of positions |
| Bounds.MinSeparatingSeparates | core/src/sync/negentropy/bound.rs:80-101 | the bound lies after the left item and not after the right one |
| Bounds.MinSeparatingIsShortest | core/src/sync/negentropy/bound.rs:80-101 | no separating bound has a shorter prefix |
| Bounds.BoundCodec.Encode | core/src/sync/negentropy/bound.rs:117-131 | delta encoding against the previous timestamp, saturating |
| Bounds.BoundCodec.Decode | core/src/sync/negentropy/bound.rs:134-155 | reads back a bound, advancing the incoming timestamp |
| Bounds.BoundRoundTrip | core/src/sync/negentropy/bound.rs:110-155 | a bound whose timestamp is not below the previous one survives the wire |
| IdSums.AddLimbs | core/src/sync/negentropy/fingerprint.rs:49-58 | the carry chain adds exactly modulo 2^256 |
| IdSums.AddId | core/src/sync/negentropy/fingerprint.rs:36-42 | adds an id read as a little-endian integer, modulo 2^256 |
| IdSums.Negate | core/src/sync/negentropy/fingerprint.rs:62-69 | complement and increment is the additive inverse modulo 2^256 |
| IdSums.FingerprintIsOf | core/src/sync/negentropy/fingerprint.rs:72-90 | the fingerprint of a limb sum depends only on the items summed |
| IdSums.FingerprintTells | core/src/sync/negentropy/fingerprint.rs:81-90 | ranges with equal fingerprints have the same number of items and the same sum of ids modulo 2^256, or two different inputs have digests that agree in sixteen octets |
| Ranges.RangeRoundTrip | core/src/sync/negentropy/mod.rs:149-222 | an encoded range decodes to itself and leaves what followed |
| Ranges.RangesRoundTrip | core/src/sync/negentropy/mod.rs:143-240 | a whole message with nondecreasing timestamps is read back exactly |
| Geometry.SplitHonest | core/src/sync/negentropy/mod.rs:252-290 | splitting tiles exactly its range and describes exactly the items in it |
| Exactness.RoundExact | core/src/sync/negentropy/mod.rs:118-248 | without a limit, one round on an honest message replies honestly and reports exactly the difference on the intervals it closes |
| Descent.RoundRank | core/src/sync/negentropy/mod.rs:118-290 | each round brings every range closer to settled, or leaves nothing |
| Descent.DepthLogarithmic | core/src/sync/negentropy/mod.rs:26-30 | sixteen to the number of splits is at most the number of items |
| Soundness.RoundSound | core/src/sync/negentropy/mod.rs:173-240 | under any limit, accurate id lists in give accurate id lists out and only true differences reported |
| Soundness.CutList | core/src/sync/negentropy/mod.rs:199-222 | a truncated id list ends exactly at the first id it leaves out |
| Totality.ReplyDecodesWithinLimit | core/src/sync/negentropy/mod.rs:33-40 | for every store and every byte string that is accepted, the reply is within the limit and decodes to the intended ranges |
| Totality.InitiateSmall | core/src/sync/negentropy/mod.rs:92-107 | the opening message is at most 997 bytes and decodes to its ranges |
| Progress.ReplyBeginsWithFirstAnswer | core/src/sync/negentropy/mod.rs:33-40 | the reply to any message begins with the answer to the first range that needs one: complete for a fingerprint, every id or at least a hundred for an id list |
| Progress.RoundMoves | core/src/sync/negentropy/mod.rs:33-40 | under any limit each round's reply is one delivery closer to the end, measured in items and split depth, and at the end there is none |
| Limits.DroppedAnswerMisleads | core/src/sync/negentropy/mod.rs:228-236 | the peer passes over the continuation of a dropped answer while the two differ there if and only if it holds nothing up to the end of the dropped range, the same items after it, and the engine holds something before it |
| Limits.OnlyNothingMisleads | core/src/sync/negentropy/mod.rs:228-236 | with an honest peer this takes a dropped answer to a fingerprint of no items |
| Limits.RoundCarries | core/src/sync/negentropy/mod.rs:118-248 | if a round drops no such answer, every difference the message left open is reported or open in the reply, which cannot be taken for agreement wrongly |
| Sessions.ResponderLearnsNothing | core/src/sync/negentropy/mod.rs:189-199 | only an initiator reports differences |
| Sessions.SessionSound | core/src/sync/negentropy/mod.rs:173-240 | after any number of deliveries under any limits, no failure and only true differences reported |
| Sessions.SessionInvariant | core/src/sync/negentropy/mod.rs:92-289 | after each delivery the session is settled exactly or one step closer |
| Sessions.SessionExact | core/src/sync/negentropy/mod.rs:92-289 | unlimited sessions end within five deliveries plus the split depths of both sets, with exactly both halves of the difference, each id once |
| LimitedSessions.LimitedSessionEnds | core/src/sync/negentropy/mod.rs:35-40 | under any limits and for any fingerprints every session ends within (items of both sides + 1) times (split depths + 4) deliveries, plus one |
| LimitedSessions.LimitedSessionExact | core/src/sync/negentropy/mod.rs:92-248 | a session under any limits in which no answer to a fingerprint of no items is dropped ends with exactly both halves of the difference, as sets |
| LimitedSessions.CleanSessionExact | core/src/sync/negentropy/mod.rs:92-248 | the same for a clean session, with or without limits |
| LostItems.SessionLosesItems | core/src/sync/negentropy/mod.rs:228-236 | two sets of 3600 and 3615 items under the smallest limit: the session ends after four deliveries and the last fifteen items are never reported, under every hash that tells the two sets apart |
| LostItems.SumSessionLosesItems | core/src/sync/negentropy/mod.rs:228-236 | the same with one explicit hash, so nothing is assumed |
| Engines.NewEngine | core/src/sync/negentropy/mod.rs:79-89 | refuses exactly the frame limits below the floor |
| Engines.Negentropy.Initiate | core/src/sync/negentropy/mod.rs:92-107 | emits the encoding of the split of everything; a second call is an error |
| Engines.Negentropy.Reconcile | core/src/sync/negentropy/mod.rs:118-248 | the loop over the cursor computes exactly the specified round, on every byte string |
| Engines.Negentropy.HandleRange | core/src/sync/negentropy/mod.rs:149-240 | one range of any mode, with flush, reply, truncation and continuation |
| Engines.Negentropy.FinishRange | core/src/sync/negentropy/mod.rs:228-239 | appends the reply or stops with a continuation fingerprint |
| Engines.Negentropy.EmitSplit | core/src/sync/negentropy/mod.rs:252-290 | writes the id list or the sixteen buckets of a range |
| Engines.MatchIds | core/src/sync/negentropy/mod.rs:189-199 | each of the peer's ids matches at most one of ours; leftovers on both sides are reported |
| SessionRuns.RunSession | core/src/sync/negentropy/mod.rs:92-248 | two engine objects with any limits exchanging bytes stop; a clean session ends with both halves of the difference, and without limits each id comes once |
| SessionRuns.Interchangeable | core/src/sync/negentropy/store.rs:65-121 | over the same items the sealed vector and the live index give byte-identical replies |
| Stores.Seal | core/src/sync/negentropy/store.rs:58-63 | sorting and deduplicating keeps exactly the given items |
| Stores.Store.LowerBound | core/src/sync/negentropy/store.rs:74-108 | both stores find the first rank at or after a bound within the given ranks |
| Stores.Store.Fingerprint | core/src/sync/negentropy/store.rs:79-112 | both stores compute the fingerprint of exactly the items at those ranks |
| Stores.Store.Visit | core/src/sync/negentropy/store.rs:87-121 | both stores visit exactly those items, in order |
| BalancedTrees.BalanceInOrder | core/src/store/order.rs:253-286 | rebalancing never changes the sequence of items |
| BalancedTrees.BalanceRestores | core/src/store/order.rs:253-286 | one step of single or double rotation repairs any one insertion under the parameters 3 and 2 |
| BalancedTrees.InsertSpec | core/src/store/order.rs:217-250 | insertion keeps balance and inserts at the item's place in order, or changes nothing |
| BalancedTrees.HeightBound | core/src/store/order.rs:15-18 | four to the height is at most three to the height times the weight |
| OrderIndexes.OrderIndex.PullUp | core/src/store/order.rs:198-213 | a node's count and sum become exact for its subtree |
| OrderIndexes.OrderIndex.RotateLeftAt | core/src/store/order.rs:288-297 | relinks the arena to the rotated tree with exact summaries, touching only its slots |
| OrderIndexes.OrderIndex.RotateRightAt | core/src/store/order.rs:299-308 | the mirror image |
| OrderIndexes.OrderIndex.BalanceAt | core/src/store/order.rs:253-286 | the arena holds the rebalanced tree |
| OrderIndexes.OrderIndex.InsertAt | core/src/store/order.rs:217-250 | the arena holds the inserted tree in one more slot, or is untouched |
| OrderIndexes.OrderIndex.Insert | core/src/store/order.rs:68-75 | contents gain the item at its place; a duplicate changes nothing and returns false |
| OrderIndexes.Build | core/src/store/order.rs:68-307 | after any insertions the contents are the sorted set of the items and the tree is shallow |
| OrderIndexes.OrderIndex.ItemAt | core/src/store/order.rs:78-94 | descending by counts finds the item at a rank |
| OrderIndexes.OrderIndex.LowerBoundOf | core/src/store/order.rs:97-110 | counts the items before a bound |
| OrderIndexes.OrderIndex.PrefixSummary | core/src/store/order.rs:159-182 | count and id sum of the first k items |
| OrderIndexes.OrderIndex.Summary | core/src/store/order.rs:113-124 | count and id sum of a range as a difference of prefixes, exact modulo 2^256 |
| OrderIndexes.RangeIter.Seed | core/src/store/order.rs:127-157 | the stack stands for exactly the items from a rank on |
| OrderIndexes.RangeIter.Next | core/src/store/order.rs:318-335 | yields the next item of the range and nothing after its end |
| OrderIndexes.CollectRange | core/src/store/order.rs:127-335 | iteration yields exactly the items at the ranks of the range |
| Entries.RoundTrip | core/src/wire/entry.rs:16-57 | an encoded entry decodes to itself and leaves what followed |
| Entries.EncodeInjective | core/src/wire/entry.rs:84-92 | different entries have different canonical bytes |
| Entries.CanonicalExactly | core/src/store/journal.rs:95-98 | exactly the canonical bytes of an entry are accepted as its record |
| Journals.RecoverTorn | core/src/store/journal.rs:81-94 | a record cut at any byte before its end is not read |
| Journals.RecoverAfterCrash | core/src/store/journal.rs:78-107 | recovery finds exactly the committed entries, plus the last one if it arrived whole, and stops at a record boundary |
| EntryStores.Journal.Append | core/src/store/journal.rs:120-136 | whatever the fault, committed records stay and the tail is part of one record; only a fault-free append within both bounds commits |
| EntryStores.EntryStore.Insert | core/src/store/mod.rs:60-81 | every outcome: rejections and duplicates change nothing, journal failures leave memory and log alone, success extends both alike |
| EntryStores.EntryStore.Snapshot | core/src/store/mod.rs:114-124 | exactly the items of the sort-key window, in order, even for an inverted window |
| EntryStores.Open | core/src/store/journal.rs:46-117 | opening any file does what the description says: header completion, replay, truncation, every error |
| EntryStores.ReopenAfterCrash | core/src/store/journal.rs:46-117 | opening what any appends and failures left succeeds with what was committed and continues from magic plus records |
| EntryStores.ReopenUnfinishedHeader | core/src/store/journal.rs:58-76 | a header cut at any byte opens as an empty journal |
| EntryStores.ReopenIsStable | core/src/store/journal.rs:46-117 | opening again changes nothing |
| EntryStores.CrashAndReopen | core/src/store/journal.rs:46-136 | any insertions under any faults, a crash, a reopening: the same entries or one more, within both capacity bounds |
| Vaults.InsertSound | core/src/store/mod.rs:60-81 | insertion keeps entries filed under their own id and the order listing exactly them |
| Vaults.WindowExact | core/src/store/mod.rs:106-124 | a window holds exactly the items with since <= sort key < until |
| Vaults.FullWindow | core/src/store/mod.rs:109-113 | the window 0 to 2^64 - 1 takes everything a store can hold |
| Syncers.BatchesExact | core/src/sync/session.rs:353-380 | batches concatenate to the requested entries in order, none empty, none over 32 KiB unless alone, and none ended while the next entry still fitted |
| Syncers.AbsorbSound | core/src/sync/session.rs:203-227 | any push keeps the store sound, drops nothing and adds only pushed entries |
| Syncers.UnseenSpec | core/src/sync/session.rs:278-291 | each id is passed on once, and only if not pushed before |
| Syncers.ResponderReplies | core/src/sync/session.rs:246-247 | a non-initiating engine always replies, so the expectation never fails |
| SyncSessions.PushBatches | core/src/sync/session.rs:353-380 | the batching loop computes the specified batches |
| SyncSessions.HandlePush | core/src/sync/session.rs:203-227 | a prefix of the push is stored and reported, and what stops it is an entry the store rejects or its journal has no room for or fails on |
| SyncSessions.Syncer.Open | core/src/sync/session.rs:133-154 | opens with the next id of our parity over a sealed snapshot, or refuses |
| SyncSessions.Syncer.Abort | core/src/sync/session.rs:158-161 | ends a session of ours or does nothing |
| SyncSessions.Syncer.HandleInit | core/src/sync/session.rs:229-261 | the four refusals in order, otherwise a session and its first reply |
| SyncSessions.Syncer.HandleRecon | core/src/sync/session.rs:263-318 | one round: pushes once each, reply or completion, errors leave the state alone |
| SyncSessions.Syncer.HandleDone | core/src/sync/session.rs:320-332 | closes the session of that id and parity or refuses |
| SyncSessions.HandleMessage | core/src/sync/session.rs:183-201 | any message over an in-memory store does exactly what the description says |
| Ledgers.TableSize | core/src/sync/session.rs:138-140 | a side has fewer sessions open than were opened, if it lacks one |
| Convergence.DeliverInit | core/src/sync/session.rs:229-261 | in every reachable state RECON_INIT is accepted and advances the link |
| Convergence.DeliverToAnswerer | core/src/sync/session.rs:263-318 | a responder accepts every later message of a session |
| Convergence.DeliverToOpener | core/src/sync/session.rs:263-318 | an opener accepts every reply, and what it learnt is on its way to the peer, each id pushed once |
| Convergence.DeliverClose | core/src/sync/session.rs:320-332 | RECON_DONE always finds its session |
| Convergence.DeliverPush | core/src/sync/session.rs:203-227 | pushes between honest nodes are always accepted and land |
| Convergence.DeliverOne | core/src/sync/session.rs:183-201 | whatever is oldest in a channel is accepted, keeps the invariant and uses up potential |
| Convergence.OpenOne | core/src/sync/session.rs:133-154 | opening keeps the invariant while fewer than the allowed sessions were opened |
| LinkRuns.QuietIdle | core/src/sync/session.rs:106-107 | on a silent link no session is open on either side |
| LinkRuns.RunConverges | core/src/sync/session.rs:133-338 | with any frame limits every run is accepted throughout and bounded, on silence no session is open, and if the sessions were clean and both sides opened a full one the stores are equal and hold the union |
| Shipping.HandleShips | core/src/sync/session.rs:183-338 | with a frame limit the wire can carry and entries that fit alone, every reply of a session manager encodes, and it stays that way |
| SyncEvents.PushTells | core/src/sync/session.rs:203-227 | every pushed entry up to the first refused one is reported in order, as stored exactly when neither the store nor an earlier entry of the push had it, and the store then holds exactly what it held and these |
| SyncEvents.PushStops | core/src/sync/session.rs:203-227 | a push goes on exactly to the first entry with a bad signature or the reserved sort key |
| SyncEvents.RoundTells | core/src/sync/session.rs:263-303 | a round reports the ids the engine found: those to send that were not sent before on the session, and those to receive, each once; it reports nothing exactly when there are none |
| SyncEvents.ClosingsTell | core/src/sync/session.rs:133-346 | in any run of openings, aborts and messages of any kind, the table never exceeds its limit, and a session reported as ended was open until then and is reported as ours exactly if an opening of ours had that id, otherwise the peer had opened it |
| Wires.PaddingExact | core/src/wire/pad.rs:20-38 | padding picks the least permitted length that fits and fails only when none does; the gate accepts exactly the permitted lengths |
| Wires.MessageRoundTrip | core/src/wire/msg.rs:119-166 | an encoded message has a permitted length and decodes to itself |
| Payloads.ReadsBack | core/src/wire/payload.rs:14-106 | a reader of the payload layouts reads back every message that can be sent |
| Payloads.SpendsEnough | core/src/wire/payload.rs:39-48 | and never takes fewer octets for a push than its entries and framing have |
| Payloads.PayloadInjective | core/src/wire/msg.rs:86-100 | a payload determines its message within a type |
| Wires.EncodesExactly | core/src/wire/msg.rs:105-134 | exactly the valid messages of bounded payload encode |
| Wires.AcceptedIsTight | core/src/wire/msg.rs:140-148 | an accepted body has exactly the length its declared payload needs |
| Wires.FrameDecoder.Push | core/src/wire/frame.rs:40-42 | appends bytes to the buffer |
| Wires.FrameDecoder.Next | core/src/wire/frame.rs:45-56 | takes the next complete body off the buffer, or leaves it alone |
| Wires.SegmentationInvariant | core/src/wire/frame.rs:40-56 | feeding a stream in any chunks yields the same bodies and the same rest |
| PushFrames.BatchesEncode | core/src/sync/session.rs:353-380 | if every stored entry fits alone, every batch encodes |
| PushFrames.ReceivedFits | core/src/wire/msg.rs:140-166 | an entry that arrived in an accepted push fits alone in one, if the decoder took at least the canonical octets of the entries |
| PushFrames.ReachableFits | core/src/api/node.rs:335-365 | after any created and received entries, every batch of any ids encodes |
| PushFrames.SealedPassesGate | core/src/link/driver.rs:480-484 | a sealed message is a permitted length plus the tag and fits two octets of length |
| Ciphers.CipherState.EncryptWithAd | core/src/noise/cipher.rs:53-76 | seals under the current nonce and advances it; identity without a key; refuses the reserved nonce |
| Ciphers.CipherState.DecryptWithAd | core/src/noise/cipher.rs:81-104 | opens under the current nonce; a failure leaves the nonce unchanged |
| Ciphers.CipherState.RekeyPreservingNonce | core/src/noise/cipher.rs:109-135 | the new key is the first 32 octets of 32 zeros sealed under the old key and the nonce 2^64 - 1; the nonce is kept |
| Ciphers.CipherState.Rekey | core/src/noise/cipher.rs:109-126 | the same key, and the nonce starts again at zero |
| Ciphers.TransportState.EncryptMessage | core/src/noise/transport.rs:41-47 | rekeys when due, then seals; a failed state refuses |
| Ciphers.TransportState.DecryptMessage | core/src/noise/transport.rs:52-62 | rekeys when due, then opens; any error is latched |
| Ciphers.SendOnSchedule | core/src/noise/transport.rs:33-47 | whatever was asked before, message n is sealed under the key rekeyed n / 1024 times |
| Ciphers.ReceiveOnSchedule | core/src/noise/transport.rs:33-62 | message n is opened under the key rekeyed n / 1024 times, and failure is latched |
| Ciphers.ScheduleIs | core/src/noise/transport.rs:33-38 | the key of message n is the n / 1024-th of the keys in which each is the first 32 octets of 32 zeros sealed under the one before and the nonce 2^64 - 1 |
| Ciphers.SomeKeys | core/src/noise/cipher.rs:109-126 | there are such keys from any first key |
| Channels.AnyInterleaving | core/src/noise/transport.rs:33-62 | over any sends and receives of any bytes, message n is sealed, and opened, under the n / 1024-th sealed-zeros key of its direction until a receive fails, and from then on every call is refused |
| Channels.FailedForever | core/src/noise/transport.rs:17-21 | a failed state never changes again |
| Ciphers.Lockstep | core/src/noise/transport.rs:33-62 | any stream of fewer than 2^64 messages is read as it was sent |
| Handshakes.Message1 | core/src/noise/handshake.rs:82-86 | the first message leaves both transcripts equal |
| Handshakes.Message2 | core/src/noise/handshake.rs:87-101 | the second leaves transcripts and keys equal and gives the initiator the responder's static key |
| Handshakes.Message3 | core/src/noise/handshake.rs:102-110 | the third gives the responder the initiator's static key |
| Handshakes.HandshakeAgrees | core/src/noise/handshake.rs:76-213 | two undisturbed handshakes finish with equal hash and chaining key, each other's static keys and crosswise matching ciphers |
| KeySchedules.HandshakeKeys | core/src/noise/handshake.rs:76-213 | an undisturbed handshake ends, on both sides, with the chain of three key derivations over the agreements of ephemeral with ephemeral, ephemeral with responder static and initiator static with ephemeral, and with the transport keys derived from it, crosswise |
| KeySchedules.InitiatorAccepts | core/src/noise/handshake.rs:155-190 | whatever bytes an initiator accepts as second message: the sealed static key opened under the agreement of the ephemeral keys, the payload under a key that takes the agreement of our ephemeral key with exactly that static key, each over the transcript so far |
| KeySchedules.InitiatorFinishes | core/src/noise/handshake.rs:102-110 | the octets of the third message, under keys that take both agreements and our static secret, and the transport it leads to |
| KeySchedules.ResponderAnswers | core/src/noise/handshake.rs:87-101 | the octets of the second message: public ephemeral key, sealed static key and sealed payload under the keys of the two agreements made so far |
| KeySchedules.ResponderAccepts | core/src/noise/handshake.rs:147-190 | whatever bytes a responder accepts as first and third message: the static key and the payload opened under keys that take all agreements made, the last with exactly that static key |
| Channels.ConversationIntact | core/src/noise/transport.rs:33-62 | after an agreed handshake both sides may talk at once in any order: nothing fails, and what is heard is what was said, in order, except what is still under way |
| Handshakes.AcceptedMeansAgreed | core/src/noise/symmetric.rs:61-106 | accepting an honest responder's second message means equal prologues and an untouched first message, or one of four named collisions or a named forgery |
| Handshakes.FailedReadStays | core/src/noise/handshake.rs:132-191 | a failed read never advances the handshake and never yields a transport |
| HandshakeStates.SymmetricState.DecryptAndHash | core/src/noise/symmetric.rs:90-95 | a ciphertext enters the transcript only after it authenticated; a failure changes nothing |
| HandshakeStates.HandshakeState.WriteMessage | core/src/noise/handshake.rs:76-116 | writes the message of its step, whose octets and keys `KeySchedules` gives, or refuses out of turn and changes nothing |
| HandshakeStates.HandshakeState.ReadMessage | core/src/noise/handshake.rs:132-191 | total on arbitrary input: reads the message of its step, opened under the keys `KeySchedules` gives, or fails with exactly the part that authenticated taken in |
| HandshakeStates.HandshakeState.Split | core/src/noise/handshake.rs:200-213 | the transport with directions by role and the peer's static key |
| Drivers.HandleBodyOk | core/src/link/driver.rs:356-369 | any body in any phase keeps keys, phase, events and frames consistent |
| DriverRuns.TwoCallsAreOne | core/src/link/driver.rs:221-237 | at one clock reading, two calls and one call with the same bytes leave the same link, store and events |
| DriverRuns.ChunksAreOne | core/src/link/driver.rs:221-237 | so does any cutting of the bytes |
| DriverRuns.CallReports | core/src/link/driver.rs:188-282 | a call reports Closed last and exactly when it ends the link, Established exactly when it brings it up |
| DriverRuns.LifeOfALink | core/src/link/driver.rs:188-541 | over any calls: one Established, one Closed at the very end, silent closes send nothing, clear frames are HELLO, HANDSHAKE or ERROR 2, closed links are inert, keys are there when needed |
| Deadlines.TickCloses | core/src/link/driver.rs:284-300 | exactly when a tick ends a live link, for which of the two reasons, and that otherwise nothing changes |
| Deadlines.BytesClose | core/src/link/driver.rs:221-230 | exactly the same of bytes: past a deadline they are not looked at and the store stays, before one they never end a link for its age |
| Deadlines.DeadlinesHold | core/src/link/driver.rs:221-300 | over any calls: a link that is still up has seen no reading at or past a deadline, and one that ended for its age had seen one |
| Verdicts.TransportVerdict | core/src/link/driver.rs:473-531 | any body on a link that is up: a wrong length, a spent nonce, a ciphertext that does not open, a message that does not decode or is out of place, an ERROR and a failure of the sync layer each end the link with their own reason, the right frame and the right store; anything else reaches the sync layer and its replies go out sealed and in order |
| Verdicts.ClearVerdict | core/src/link/driver.rs:371-470 | any body before that: what is not the HELLO or HANDSHAKE expected ends the link silently, no common version ends it with ERROR 2 in the clear, reading the last message that a side is to read brings it up, and the store is never touched |
| Verdicts.WholeBody | core/src/link/driver.rs:221-237 | a framed body arriving in time does exactly that |
| Establishment.MaxCommonExact | core/src/link/driver.rs:390-402 | the negotiated version is the highest one both sides offer |
| Establishment.LinkComesUp | core/src/link/driver.rs:371-470 | two honest drivers with a common version come up with each other's identity, one version and matching keys, sync layer and store untouched |
| LinkDrivers.LinkDriver.OnHello | core/src/link/driver.rs:371-426 | the HELLO handler does what the state machine says |
| LinkDrivers.LinkDriver.OnHandshake | core/src/link/driver.rs:429-470 | so does the handshake handler |
| LinkDrivers.LinkDriver.OnTransport | core/src/link/driver.rs:473-531 | so does the transport handler: gate, decrypt, decode, dispatch |
| LinkDrivers.LinkDriver.Feed | core/src/link/driver.rs:221-237 | the byte loop handles bodies until none is left or the link closes |
| LinkDrivers.LinkDriver.Tick | core/src/link/driver.rs:240-244 | a live link ends with HandshakeTimeout exactly when it is not up and its age has reached the timeout, otherwise with LifetimeExpired exactly when its age has reached the lifetime; it sends nothing, reports just that, and in every other case nothing changes |
| LinkDrivers.LinkDriver.OpenSync | core/src/link/driver.rs:248-260 | only on an established link; the session's message is sealed and its id returned |
| LinkDrivers.LinkDriver.Originate | core/src/link/driver.rs:264-282 | refuses HELLO and HANDSHAKE, closes on ERROR, seals the rest |
| LinkDrivers.EncodedIsTight | core/src/wire/msg.rs:119-134 | an encoded body has exactly the length its own header asks for |
| LinkDrivers.PrologueInjective | core/src/link/driver.rs:409-413 | the two HELLO bodies can be told apart in the prologue |
| LinkDrivers.HellosAgreed | core/src/link/driver.rs:387-415 | acceptance means each side saw the HELLO the other sent, or a named collision or forgery |
| Negotiation.VersionsAgree | core/src/link/driver.rs:371-470 | two drivers that heard any bodies at all: if the initiator's link comes up on the responder's answer both negotiated the same version, or a named collision or forgery |
| SecureLinks.SecureRunConverges | core/src/link/driver.rs:473-541 | two established drivers over the session manager never close a link, do exactly what the session managers do, and so converge |
| SecureLinks.FreshLinksConverge | core/src/link/driver.rs:371-541 | the same from two fresh drivers: they come up, and then every run converges |
| Limiters.HandshakeLimiter.Admit | core/src/link/limiter.rs:67-109 | refill, spend, collect and issue, as specified |
| Limiters.HandshakeLimiter.Expire | core/src/link/limiter.rs:123-134 | returns exactly the tickets past their deadline, each once |
| LimiterRuns.LevelGrows | core/src/link/limiter.rs:76-84 | a bucket's level grows no faster than the clock |
| LimiterRuns.CollectedWasFull | core/src/link/limiter.rs:95-98 | a collected bucket was full, unless the deadline product saturated |
| LimiterRuns.RateHolds | core/src/link/limiter.rs:67-109 | at most burst plus one per interval begun, in any window of any history |
| LimiterRuns.RateBreaks | core/src/link/limiter.rs:95-98 | for every other configuration one history exceeds the bound |
| LimiterRuns.RateBoundedExactly | core/src/link/limiter.rs:67-109 | the rate bound holds in all histories if and only if (burst - 1) intervals stay below 2^64 - 1 |
| LimiterRuns.BucketsBounded | core/src/link/limiter.rs:89-98 | after an admission the buckets kept are at most the admissions of the last burst intervals |
| LimiterFairness.RefusedOnlyWhenSpent | core/src/link/limiter.rs:67-109 | in any history, a request below the half-open cap is refused only if its address has had, since some moment, the burst and one admission per whole interval; at the cap it is always refused |
| LimiterFairness.NoIntervalRefuses | core/src/link/limiter.rs:67-109 | with no refill interval only the cap or an empty burst refuses |
| LimiterFairness.TicketLife | core/src/link/limiter.rs:100-134 | a ticket admitted at t is held until its outcome or the first expiry at or past min(t + timeout, 2^64 - 1), is expired by exactly that one, and never comes back |
| Nodes.Node.CapHolds | core/src/api/node.rs:20-26 | links holding a ticket are exactly the unestablished responders and never exceed the cap |
| Nodes.Node.Connect | core/src/api/node.rs:152-177 | exactly one new link, started as initiator, under a new id and without a ticket |
| Nodes.Node.Accept | core/src/api/node.rs:182-209 | admitted by the limiter, exactly one new responder link holding its ticket; otherwise the links stay as they are |
| Nodes.Node.Retire | core/src/api/node.rs:50-56 | removes the link and releases its ticket |
| Nodes.Node.Settle | core/src/api/node.rs:60-74 | gives the ticket back on Established, removes the link on Closed |
| Nodes.Node.Drive | core/src/api/node.rs:216-234 | one driver call does what the driver does, keeps the ticket bijection, and the link goes exactly when its closing is reported |
| Nodes.Node.OnLinkBytes | core/src/api/node.rs:216-234 | frames, events, store and driver are exactly those of the link's driver for these bytes at the clamped clock, the link goes exactly if it ended, other links keep their drivers and tickets; unknown links yield nothing and change nothing |
| Nodes.Node.OnTransportClosed | core/src/api/node.rs:238-249 | reports a dead transport exactly once |
| Nodes.Node.Tick | core/src/api/node.rs:256-292 | each link closes for exactly its verdict at this clock, past a driver's deadline or with an expired ticket, the events are exactly those closings, and every other link and the store stay as they are |
| Nodes.Node.StartSync | core/src/api/node.rs:307-330 | each of the three refusals exactly when it applies and without effect, otherwise the session id, frames and events of the link's driver, the store and the other links unchanged; the bookkeeping holds even if the link closes |
| Schedulers.SyncScheduler.Completed | android/app/src/main/java/org/racnet/android/node/SyncScheduler.kt:14-16 | only the tracked session of a link completes |
| Schedulers.NodeRuntime.StartDue | android/app/src/main/java/org/racnet/android/node/SyncScheduler.kt:24-31 | asks the core exactly once for each due link without a running session and for no other; what is granted is tracked with its session id and no longer due, what is refused stays due, and running sessions are kept |
| Schedulers.NodeRuntime.DrainSyncs | android/app/src/main/java/org/racnet/android/node/NodeRuntime.kt:243-258 | draining ends, keeps every link covered, and leaves every due link with a session or refused when last asked for |
| Schedulers.NodeRuntime.ApplyEvents | android/app/src/main/java/org/racnet/android/node/NodeRuntime.kt:203-235 | does to the books what the events mean, in order, and keeps every established link covered |
| Schedulers.NodeRuntime.OnBytes | android/app/src/main/java/org/racnet/android/node/NodeRuntime.kt:137-147 | after bytes, every stored entry was in the latest snapshot of each established link, arrived over it, or the link is due; and every due link was asked for and has a session or was refused |
| Schedulers.NodeRuntime.CreateEntry | android/app/src/main/java/org/racnet/android/node/NodeRuntime.kt:164-170 | the same after creating an entry, which makes every established link due first |
| Schedulers.NodeRuntime.OnEvents | android/app/src/main/java/org/racnet/android/node/NodeRuntime.kt:150-152 | the same after ticks and dead transports |
| Schedulers.EventsMean | android/app/src/main/java/org/racnet/android/node/NodeRuntime.kt:203-235 | for each link: established last means up and due, closed last means forgotten, an entry from elsewhere makes it due, and its session is over exactly when its own closing or the link's is among the events |
| Schedulers.WillingServesAll | android/app/src/main/java/org/racnet/android/node/NodeRuntime.kt:237-258 | if the core refuses nothing and closes nothing, after a drain every link that was due has a session running |

## Left out

- SHA-256, HMAC, X25519, ChaCha20-Poly1305, Ed25519 and zeroization: parameters with stated assumptions.
- The tolerant CBOR payload decoder of messages, which skips unknown keys and takes any key order: a parameter that reads back what the encoder writes; `Payloads` has one that takes the encoder's key order only, and the entry codec is modelled in full.
- File locking, fsync and directory sync: a write is modelled as stopping after any number of bytes, and opening as fault-free.
- Counters at the end of their range: session ids, tickets and link ids are natural numbers here, and an order index is assumed to hold fewer than 2^32 - 1 items.
- LimitedSessions.LimitedSessionExact: one way only; whether a dropped answer misleads is decided exactly at the step (`Limits.DroppedAnswerMisleads`), and a session may drop one and still end exactly.
- SecureLinks.SecureRunConverges: frames arrive one per call and in order; cutting the bytes differently is `DriverRuns.ChunksAreOne`, and nothing but this link touches the two stores.
- Drivers.HandleBodyOk: the sync layer and the store are parameters of the link driver; `SecureLinks.Layer` puts the session manager there.
- Nodes.Node.Drive: a device holds its link drivers as values rather than as objects it updates in place.
- Schedulers.NodeRuntime.OnBytes: what the core stored and reported is a parameter; transports, flows and coroutine scopes are not part of this model.
- PushFrames.ReachableFits: histories start from an empty store; a journal that other software wrote may hold records too large for a frame.
- EntryStores.Journal.Append: what `set_len` or a write reports is one of three faults; the text of an I/O error is not modelled.
- BLE, GATT, L2CAP, Android services, identity storage, user interface and the iOS scaffold: platform I/O.
- The foreign-function mapping of core/src/api/mod.rs, the simulator and the device script: one-to-one copying and tooling.
- `abort_session` in the convergence theorem: aborting is modelled, but a run there consists of openings and deliveries.
