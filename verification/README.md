# Verified model of the Ahub relay service

This project models the Ahub relay service and the signed objects beneath it, and proves what its
protocols keep over whole runs. Every entry point of the service takes the clock as a parameter, so
a run is a sequence of timed steps: any operation, by any node, at any clock reading.

Each part has two layers. Pure step functions over plain records say what an operation does to the
tables; a class with the source's own fields does it in place, and every public method is proved to
compute exactly its step function (a transaction that fails puts every table back). The theorems are
about sequences of steps, so they hold for the objects too: `CustodyStore.AhubStore.Took` says that a
method call is one entry of a run.

| file | what it holds |
|---|---|
| `Basics.dfy`, `Crypto.dfy`, `Ordered.dfy` | results and errors, patterns, the primitives as parameters, ordered queries and sums over tables |
| `Patterns.dfy` | the regular expressions of the source as languages, and that the predicates here are exactly those |
| `Encoding.dfy` | base64url without padding (section 5 of RFC 4648), with the lenient decoder of the Python library |
| `RateLimiter.dfy` | the token-bucket limiter with its pruned, bounded, ordered dictionary |
| `ControlObjects.dfy`, `RevisionChain.dfy` | descriptors, reachability, grants and revocations; the hash-chain rule in its two implementations |
| `RevisionVerdicts.dfy` | what is accepted and what lookups return, told by the accepted histories alone |
| `Padding.dfy`, `Packet.dfy` | power-of-two buckets and framing; sealing, inspecting and opening packets |
| `PacketReading.dfy` | which bytes open, whoever made them, and which orders can be sealed |
| `Settlement.dfy` | destination settlements and their stored form |
| `Custody.dfy` | the hub's tables and transactions as functions |
| `CustodyInvariant.dfy` | what every reachable state satisfies, quotas included |
| `CustodySteps.dfy`, `CustodyRuns.dfy`, `CustodyClaims.dfy` | one step for one packet; whole runs; claim selection and draining |
| `CustodyCalls.dfy` | which calls are let through: who is admitted, which nonces are held, what is signed |
| `CustodyAnswers.dfy` | exactly when each call succeeds, what it answers, and what it is refused with |
| `CustodyEdges.dfy` | runs at the edges: upper-case packet ids, a clock at zero |
| `CustodyStore.dfy` | `AhubStore` itself |
| `Relay.dfy` | `RelayCoordinator`, every interleaving of its handlers, and the frame pump |
| `Discord.dfy`, `DiscordPolling.dfy` | the event ledger with its actor aggregates; polling and the cursor |
| `DiscordSignals.dfy` | what an event carries and which events become signals |
| `Bazaar.dfy` | the record lifecycle of the Abazr demo, and its matching |
| `BazaarRecords.dfy` | exactly which records are taken, kind by kind, and what a match says |

Beside the step functions stand independent descriptions of what they decide: `CustodyCalls`,
`CustodyAnswers`, `RevisionVerdicts`, `PacketReading`, `DiscordSignals` and `BazaarRecords` say, both ways,
which inputs are accepted and what is answered, over the primitives, the history of the run and the
rows before the call, not through the checks that the functions themselves make. Field formats are
regular expressions in the source; `Patterns` gives those a meaning of their own.

Hashes, signatures, key agreement, authenticated encryption and packing are function-valued fields of
records (`Crypto.Suite`, `Packet.Primitives`, `Bazaar.Env`, `Discord.Bridge`). Nothing is assumed
about a hash: where collision resistance matters, a theorem concludes with its claim or with a
collision among the very objects at hand -- accepted revisions, polled messages, two descriptors --
never with one that merely exists somewhere. The equations of sealing (decryption inverts encryption, the two sides of a key
agreement meet, a signature verifies) are the predicate `Packet.Primitives.Lawful`. Random draws
are parameters of the operations. Clock readings are integers of milliseconds; the limiter's seconds
and tokens are reals.

## Where the code falls short

Each of these is stated as a theorem that says exactly when the property holds.

- A packet id with an upper-case hexadecimal digit passes header validation
  (`Packet.HeaderAcceptsAnyCase`) and is stored and claimed (`CustodyEdges.UpperCaseIdIsClaimed`), but
  a live claim can be settled exactly when its packet id is lowercase hexadecimal
  (`CustodyEdges.SomeProofSettlesIff`). Any other stays until it expires, and while it is the oldest of
  its destination every claim of one packet returns it and nothing else as soon as its lease has run
  out (`CustodyClaims.StuckPacketIsReclaimed`).
- An acknowledgement stamped with clock zero is accepted again
  (`CustodyEdges.AcknowledgedTwiceAtZero`), and only then (`CustodyRuns.AcknowledgedOnce`,
  `CustodyRuns.AcknowledgementSticksIff`).
- A request can commit twice exactly when the clock may fall more than five minutes below an earlier
  reading (`CustodyRuns.ReplayBoundIff`).
- An owner enters the waiting table before it is told so, and cleans up only after. When that notice
  cannot be sent its entry stays until a peer joins it, and until then its reservation is busy
  (`Relay.FailedOwnerBlocks`, `Relay.EntryLeftBehind`). With all handlers gone the coordinator is as
  created exactly when each such owner was paired (`Relay.AllEndedIsEmpty`).
- A relay owner that starts several waits before the first is joined exceeds its connection limit,
  since joining looks only at the peer's capacity (`Relay.OwnerLimitCanBeExceeded`). Over a run a node
  stays within its limit exactly when every pairing it owned found capacity left
  (`Relay.OwnerWithinLimitIff`); counting outstanding waits at admission is what would keep it there
  (`Relay.AdmissionControlIff`).
- A page that omits an open earlier message and passes it makes the poll cursor pass that message for
  good; `DiscordPolling.PollIsSafeIff` says exactly when a page, complete or cut short by a failure,
  keeps the cursor safe, and `DiscordPolling.SafeWhereverItFailsIff` what a page must hold for that
  wherever the outbound callback fails.
- One public need or offer that has expired makes matching fail for everybody
  (`Bazaar.FindMatchesFailsIff`).

## Model

| member | source | states |
|---|---|---|
| CustodyRuns.StoredAtMostOnce | src/anet/ahub.py:1165-1258 | with a non-decreasing clock, `submit` answers `stored=True` at most once for the same bytes, over any run |
| CustodyRuns.SettledAtMostOnce | src/anet/ahub.py:1407-1489 | with a non-decreasing clock, any two successful settles of a run took different bytes: `settle` answers True at most once for the same bytes |
| CustodyRuns.QuotasHold | src/anet/ahub.py:1260-1291 | in every reachable state rows and bytes per destination and per uploader, and relay reservations per owner, are within their limits, with one reservation per owner and peer |
| CustodyRuns.LeasesAreWhole | src/anet/ahub.py:1376-1388 | in every reachable state a token hash and a deadline are both set or both absent |
| CustodyRuns.CustodyIsConserved | src/anet/ahub.py:804-835 | while the clock stays below its expiry, a stored packet is in exactly one of mailbox and settlements, with its own bytes or their hash |
| CustodyRuns.ResubmissionIsHarmless | src/anet/ahub.py:1184-1228 | a committed submit that stores nothing found the packet held already, under the expiry it reports, and adds nothing |
| CustodyRuns.HoldsUntil | src/anet/ahub.py:804-835 | until its expiry nothing removes a held packet, and a settled one never returns to the mailbox |
| CustodyRuns.SettleNeverConflicts | src/anet/ahub.py:1457-1485 | the settlement insert always finds the id unused, so its conflict clause never fires and the presented proof is the one kept |
| CustodyRuns.InvAt | src/anet/ahub.py:451-1600 | every state before and after every step of every run satisfies the invariant: rows agree with their bytes, tables are disjoint, leases are whole, quotas and relay limits hold |
| CustodyRuns.Next | src/anet/ahub.py:703-711 | every operation at every clock reading extends a run, committing or leaving the tables alone |
| CustodyRuns.RunGoesOn | src/anet/ahub.py:703-711 | every run can go on with any operation at any clock reading |
| CustodyCalls.CommitIsSigned | src/anet/ahub.py:103-140 | whatever the operation, a committed call was signed by a key pair of its caller's node id, over the hash of the very bytes it carried and within five minutes of the clock, by an admitted node and with a nonce not held |
| CustodyCalls.SignedFieldsFixBody | src/anet/ahub.py:91-101 | two commits with equal signed fields carried the same bytes, or two bodies with one hash |
| CustodyCalls.CallPassesIff | src/anet/ahub.py:1126-1145 | a transaction begins exactly for a call that is signed, well formed, admitted and not held |
| CustodyCalls.AuthenticateIff | src/anet/ahub.py:1147-1163 | `authenticate` answers exactly those calls |
| CustodyCalls.AllowedIff | src/anet/ahub.py:713-763 | a node is on the allowlist exactly when it was admitted and not removed since |
| CustodyCalls.AllowRowRemembers | src/anet/ahub.py:713-763 | its row remembers when it was first admitted and, while it is removed, when that happened |
| CustodyCalls.RemovedNodeIsOut | src/anet/ahub.py:746-763 | a removed node commits nothing until it is admitted again |
| CustodyCalls.NonceHeldIff | src/anet/ahub.py:804-835 | a nonce is held exactly since the commit that used it and until a purge that comes after its retention |
| CustodyAnswers.RefusedWith | src/anet/ahub.py:1126-1145 | what a call that is not let through is refused with |
| CustodyAnswers.SubmitStoresIff | src/anet/ahub.py:1165-1258 | exactly when a submission is stored, exactly when it is answered as held already, with what error it is refused, and the row it leaves |
| CustodyAnswers.ClaimCommitsIff | src/anet/ahub.py:1293-1330 | exactly when a claim is answered |
| CustodyAnswers.ClaimReturnsIff | src/anet/ahub.py:1331-1402 | a claim returns exactly those waiting packets, of the uploader asked for if any, that have fewer than the limit ahead of them in order of creation and fit the byte budget with those returned ahead of them |
| CustodyAnswers.ClaimHonoursUploader | src/anet/ahub.py:1343-1354 | every ticket of a claim for one uploader is that uploader's |
| CustodyAnswers.ClaimReturnsAll | src/anet/ahub.py:1331-1402 | when limit and budget admit everything that waits, a claim returns exactly that |
| CustodyAnswers.ClaimIsOldestFirst | src/anet/ahub.py:1331-1358 | tickets come in the order of creation, each once |
| CustodyAnswers.SettleIff | src/anet/ahub.py:1407-1489 | exactly when `settle` answers true and when false, over lease, token hash and the signed proof; otherwise with what error |
| CustodyAnswers.ListsIff | src/anet/ahub.py:1491-1553 | exactly when `settlements` is answered, and that it lists exactly the first pending ones up to the limit in order of settlement |
| CustodyAnswers.AcknowledgeIff | src/anet/ahub.py:1555-1600 | exactly when an acknowledgement is accepted, answered with false, or refused, and the stamp it leaves |
| CustodyAnswers.RenewIff | src/anet/ahub.py:924-1048 | exactly when a reservation is renewed, with what terms, or refused with what error |
| CustodyAnswers.ReserveIff | src/anet/ahub.py:924-1048 | the same for a new reservation |
| CustodyAnswers.AuthorizeIff | src/anet/ahub.py:1050-1087 | exactly who is authorized on a reservation, with what answer |
| CustodyAnswers.FindIff | src/anet/ahub.py:1089-1120 | exactly when a node finds an owner's reservation with it, and that it is answered with that one |
| CustodyRuns.LeaseLastsUntil | src/anet/ahub.py:813-820 | a live lease is changed by no step of anyone, short of the settlement of its packet |
| CustodyRuns.ClaimsNeverOverlap | src/anet/ahub.py:1331-1402 | of two claims that return the same bytes the later comes no earlier than the end of the earlier lease |
| CustodyRuns.LeaseHasOrigin | src/anet/ahub.py:1376-1388 | every lease in the mailbox was issued, token and deadline, by the latest claim of its packet |
| CustodyRuns.SettleUsesLatestToken | src/anet/ahub.py:1438-1445 | a successful settle comes from the claiming node and used the latest token strictly before its deadline; an expired or superseded token never settles |
| CustodyRuns.OnlyHexIdsSettle | src/anet/ahub.py:338-369 | a packet id that is not lowercase hexadecimal is never settled |
| Packet.HeaderAcceptsAnyCase | src/anet/packet.py:151-222 | header validation accepts a packet id in hexadecimal digits of either case |
| CustodyEdges.UpperCaseIdIsClaimed | src/anet/ahub.py:1165-1405 | a run in which a packet with such an id is stored and claimed |
| CustodyEdges.SomeProofSettlesIff | src/anet/ahub.py:338-448 | with a live claim and everything else in place, some proof settles the packet exactly when its id is lowercase hexadecimal and the clock admits a positive time of settlement |
| CustodyRuns.TicketTellsRow | src/anet/ahub.py:1389-1399 | the ticket a claim returns tells exactly the row and lease the claim leaves behind, its depth included |
| CustodyRuns.LiveClaimCannotBeSpoiled | src/anet/ahub_http.py:1102-1110 | after a claim, before lease end and expiry, whatever anyone did in between, the claimant's settle with the ticket's token and a proof issued for the ticket succeeds |
| CustodyRuns.SettleSucceeds | src/anet/ahub.py:1420-1486 | the same for one state: under a live lease a fresh, well-formed settle is accepted |
| CustodyRuns.NoReplay | src/anet/ahub.py:1126-1145 | if the clock falls at most retention minus skew, no signed request commits twice across any mix of operations, removal and re-admission of its node included |
| CustodyRuns.ReplayBeyondTheBound | src/anet/ahub.py:30-31 | one millisecond beyond that bound, a run in which the same request commits twice |
| CustodyRuns.ReplayBoundIff | src/anet/ahub.py:1126-1145 | no run in which the clock falls by at most a given time replays a request, exactly when that time is at most retention minus skew |
| CustodyRuns.ProofHasOrigin | src/anet/ahub.py:1457-1481 | every settlement row keeps, readable, the proof of the settle that inserted it |
| CustodyRuns.ListingIsFaithful | src/anet/ahub.py:1541-1546 | reading the stored proofs never fails and returns what the rows record |
| CustodyRuns.ListedProofsAreOriginal | src/anet/ahub.py:1491-1553 | every proof `settlements` returns equals, field for field, one that some settle of the run presented, for an unacknowledged packet of the caller |
| CustodyRuns.ListedProofsVerify | src/anet/ahub.py:338-369 | every listed proof verifies, while it lives, under any verified descriptor of its destination, or that descriptor and the one presented with the settle are two with one node id and different 32-byte keys |
| CustodyRuns.ListingIsComplete | src/anet/ahub.py:1491-1553 | when the limit admits them all, every pending settlement of the caller is listed |
| CustodyRuns.ProofOutlivesDescriptor | src/anet/identity.py:25-32 | a proof that verified under one verified descriptor of its destination verifies under every other, or those two descriptors collide: different keys, joined as the node id hashes them, with one node id |
| CustodyRuns.AcknowledgedOnce | src/anet/ahub.py:1555-1600 | with a non-zero clock an acknowledgement is accepted once, and the settlement is never listed again |
| CustodyRuns.AcknowledgementSticksIff | src/anet/ahub.py:1586-1597 | a second acknowledgement is accepted exactly when the first was stamped with zero |
| CustodyEdges.AcknowledgedTwiceAtZero | src/anet/ahub.py:1586-1597 | a run from the empty hub in which the same settlement is acknowledged twice, the first time at clock zero |
| CustodyInvariant.InsertKeepsQuotas | src/anet/ahub.py:1260-1291 | the check before an insert keeps row counts and byte sums of every destination and every uploader within their limits |
| CustodyInvariant.ThinningKeepsQuotas | src/anet/ahub.py:804-835 | deleting rows and changing leases keeps every quota |
| CustodyInvariant.SubmitKeepsInv | src/anet/ahub.py:1165-1258 | storing a packet keeps the invariant |
| CustodyInvariant.ClaimKeepsInv | src/anet/ahub.py:1331-1402 | claiming keeps the invariant |
| CustodyInvariant.SettleSpec | src/anet/ahub.py:1427-1486 | what a successful settle finds and leaves: the packet gone from the mailbox, one well-formed, signed settlement more, nothing else changed |
| CustodyInvariant.SettleKeepsInv | src/anet/ahub.py:1407-1489 | settling keeps the invariant |
| CustodyInvariant.ReserveKeepsInv | src/anet/ahub.py:970-1033 | reserving keeps at most one reservation per owner and peer and the limit per owner |
| CustodyInvariant.StepKeepsInv | src/anet/ahub.py:703-1600 | every operation keeps the invariant |
| CustodySteps.MailSettled | src/anet/ahub.py:1427-1486 | an unexpired packet is settled only by its destination under its live lease, into a settlement of exactly its bytes |
| CustodySteps.MailClaimed | src/anet/ahub.py:1331-1402 | an unexpired packet is claimed only by its destination, when it has no live lease |
| CustodySteps.MailKept | src/anet/ahub.py:804-835 | otherwise an unexpired row at most loses a lease that ran out |
| CustodySteps.SettledStep | src/anet/ahub.py:1203-1228 | until it expires a settlement stays, keeps its packet out of the mailbox, and changes only by its one acknowledgement |
| CustodySteps.StoreStep | src/anet/ahub.py:1176-1258 | a stored packet was unknown and is filed under the identity its bytes declare |
| CustodySteps.CommitSpec | src/anet/ahub.py:1126-1163 | a committed call was allowed, verified and fresh, purged the tables and recorded its nonce |
| CustodySteps.CommitPurges | src/anet/ahub.py:804-835 | across a committed call no table keeps anything expired, and no nonce older than its retention |
| CustodySteps.ReservedToParties | src/anet/ahub.py:924-1120 | a reservation is handed only to its owner or peer, stored and unexpired |
| CustodyClaims.CandidatesAreOldest | src/anet/ahub.py:1331-1358 | the rows looked at are the oldest claimable ones, in order, as many as the limit admits |
| CustodyClaims.SelectionSpec | src/anet/ahub.py:1359-1402 | the batch is an ordered part of them within the byte budget, and a row is left out exactly when it would not fit after those taken before it |
| CustodyClaims.OldestIsTaken | src/anet/ahub.py:1356-1366 | with room for one packet the oldest claimable row is always taken |
| CustodyClaims.HttpClaimTakesOldest | src/anet/ahub_http.py:613-620 | the byte cap of the HTTP service is such room, for every configuration a hub may have |
| CustodyClaims.RoundShrinks | src/anet/ahub.py:1293-1489 | a round of claiming, with everything claimed settled or expired, leaves strictly less mail, unless there was none, and no lease |
| CustodyClaims.RoundsDrain | src/anet/ahub_http.py:613-620 | with no new uploads and no other live leases, r rounds leave at most n - r of n packets |
| CustodyClaims.HttpRoundsDrain | src/anet/ahub_http.py:613-620 | n rounds of claims over HTTP, everything they return settled or expired, empty a mailbox of n packets |
| CustodyClaims.StuckPacketIsReclaimed | src/anet/ahub.py:1331-1402 | a packet that cannot be settled stays until it expires; while it is the oldest mail of its destination, a claim of one packet returns it exactly when it has no live lease, and then nothing else |
| CustodyStore.AhubStore.AllowNode | src/anet/ahub.py:713-744 | computes the allow step on the object's tables |
| CustodyStore.AhubStore.DisallowNode | src/anet/ahub.py:746-763 | computes the disallow step |
| CustodyStore.AhubStore.PurgeTables | src/anet/ahub.py:804-835 | the five purge statements in order have the effect of one purge |
| CustodyStore.AhubStore.ConsumeRequest | src/anet/ahub.py:1126-1145 | verifies, checks the allowlist and records the nonce, or changes nothing |
| CustodyStore.AhubStore.Authenticate | src/anet/ahub.py:1147-1163 | one step of a run: committed, or every table as before |
| CustodyStore.AhubStore.Submit | src/anet/ahub.py:1165-1258 | one step of a run: committed, or every table as before |
| CustodyStore.AhubStore.Claim | src/anet/ahub.py:1293-1405 | one step of a run: committed, or every table as before |
| CustodyStore.AhubStore.LeaseBatch | src/anet/ahub.py:1356-1401 | the loop with its running byte count leases exactly the specified batch and returns its tickets |
| CustodyStore.AhubStore.Settle | src/anet/ahub.py:1407-1489 | one step of a run: committed, or every table as before |
| CustodyStore.AhubStore.ListSettlements | src/anet/ahub.py:1491-1553 | one step of a run: committed, or every table as before |
| CustodyStore.AhubStore.AcknowledgeSettlement | src/anet/ahub.py:1555-1600 | one step of a run: committed, or every table as before |
| CustodyStore.AhubStore.ReserveRelay | src/anet/ahub.py:924-1048 | one step of a run: committed, or every table as before |
| CustodyStore.AhubStore.AuthorizeRelay | src/anet/ahub.py:1050-1087 | one step of a run: committed, or every table as before |
| CustodyStore.AhubStore.FindRelay | src/anet/ahub.py:1089-1120 | one step of a run: committed, or every table as before |
| Settlement.IssueSucceedsIff | src/anet/ahub.py:420-448 | a proof can be issued exactly between node ids, for a lowercase hexadecimal packet id and a time of settlement inside the packet's life, and says what it was asked to |
| Settlement.DictRoundTrip | src/anet/ahub.py:371-417 | a proof comes back from its stored form as it went in |
| Settlement.ReadsItsFields | src/anet/ahub.py:384-417 | nothing is read but from exactly the nine fields, and each into its own |
| Settlement.FieldsDetermineProof | src/anet/ahub.py:326-336 | the signature covers every field of a proof but itself |
| Custody.FieldsDetermineRequest | src/anet/ahub.py:91-101 | the signature covers every field of a request but itself |
| Encoding.RoundTrip | src/anet/encoding.py:43-49 | every byte string survives unpadded base64url text and the lenient decoder |
| Encoding.NonAsciiIsRefused | src/anet/encoding.py:43-49 | text with anything but ASCII in it is never decoded |
| Patterns.HexIdIff | src/anet/ahub.py:50-51 | the predicate for packet and reservation ids is the language of their pattern |
| Patterns.IdIff | src/anet/control_plane.py:45-46 | the same for node and human ids |
| Patterns.OpaqueIff | src/anet/ahub.py:47-47 | the same for nonces, and for opaque reservation names |
| Patterns.PathIff | src/anet/ahub.py:48-74 | the same for request paths, with no two slashes or dots together |
| Patterns.TokenIff | src/anet/control_plane.py:48-48 | the same for tokens |
| Patterns.CapabilityIff | src/anet/control_plane.py:49-49 | the same for capabilities: words joined by single separators |
| Patterns.KindIff | src/anet/packet.py:26-26 | the same for message kinds, which may be followed by one newline |
| RateLimiter.PruneDropsExactlyStale | src/anet/ahub_http.py:177-186 | in an ordered dictionary sorted by age the early exit drops exactly the stale buckets |
| RateLimiter.AllowKeepsValid | src/anet/ahub_http.py:188-222 | every request keeps the order sorted by age, tokens between zero and one burst, and the number of buckets bounded |
| RateLimiter.ReachableIsValid | src/anet/ahub_http.py:188-222 | so does every trace with a monotone clock |
| RateLimiter.StaleIsFull | src/anet/ahub_http.py:178-181 | a bucket old enough to be pruned would have been full again |
| RateLimiter.AdmittedIffCredit | src/anet/ahub_http.py:207-222 | a request is admitted exactly when its key has a whole token |
| RateLimiter.PruningIsUnobservable | src/anet/ahub_http.py:177-222 | without capacity eviction the limiter answers every monotone trace like one that never forgets a key |
| RateLimiter.AdmissionBound | src/anet/ahub_http.py:188-222 | over any window a key is admitted at most (1 + evictions) times burst plus rate times length |
| RateLimiter.OthersKeepCredit | src/anet/ahub_http.py:193-206 | requests of other keys never lower a key's tokens |
| RateLimiter.RetryAfterIsEnough | src/anet/ahub_http.py:207-215 | a denied key that waits the returned time is admitted, whatever other keys do |
| RateLimiter.RetryAfterIsLeast | src/anet/ahub_http.py:207-215 | up to one second before that time the key is still denied |
| RateLimiter.TuningIsValid | src/anet/ahub_http.py:129-149 | an accepted configuration earns its requests per minute, holds its burst and its buckets, and keeps a bucket for a minute or twice the time of a refill |
| RateLimiter.SharesBucketIff | src/anet/ahub_http.py:188-192 | two keys share a bucket exactly when they begin with the same 512 characters, an empty key being the one called unknown |
| RateLimiter.AhubRateLimiter.PruneStale | src/anet/ahub_http.py:177-186 | the loop from the oldest end computes the specified pruning |
| RateLimiter.AhubRateLimiter.MakeRoom | src/anet/ahub_http.py:195-196 | the eviction loop computes the specified eviction |
| RateLimiter.AhubRateLimiter.Allow | src/anet/ahub_http.py:188-222 | updates bucket, order and counter as specified and gives the specified answer |
| RevisionChain.TrackerAndStoreAgree | src/anet/control_plane.py:954-1058 | on every sequence of offers the tracker and the store give the same verdicts and end with the same checkpoints |
| RevisionChain.HeadEndsItsHistory | src/anet/control_plane.py:95-102 | every stored chain starts at the genesis digest, is numbered 1..n, links each revision to its predecessor's digest and ends at the head |
| RevisionChain.HeadCommitsToHistory | src/anet/control_plane.py:1180-1206 | two stores with one head digest accepted the identical sequence of revisions, or exhibit a hash collision among them |
| RevisionChain.ForksNeverHeal | src/anet/control_plane.py:1180-1206 | once two stores differ at a sequence number they never again hold the same head, or exhibit a collision |
| RevisionChain.RevocationIsFinal | src/anet/control_plane.py:1386-1441 | after an accepted revocation nothing is accepted for the pair, no lookup returns a grant for it, and it stays reported as revoked |
| RevisionChain.TerminalIsFrozen | src/anet/control_plane.py:964-984 | a terminal row never changes again |
| RevisionChain.StoredIsLast | src/anet/control_plane.py:1218-1441 | the object kept under a key is the last revision accepted for it |
| RevisionChain.GrantIsCurrent | src/anet/control_plane.py:1487-1518 | a grant that a lookup returns is the latest revision of its pair and verifies under the node's latest descriptor |
| RevisionChain.ReachabilityIsCurrent | src/anet/control_plane.py:1460-1485 | the same for a reachability record |
| RevisionVerdicts.VerdictIff | src/anet/control_plane.py:1180-1441 | the verdict on any offer after any run, both ways: accepted exactly when genuine, made for the node's latest descriptor and next in its chain; unchanged exactly when it repeats the last |
| RevisionVerdicts.AcceptedIsSigned | src/anet/control_plane.py:1218-1441 | every revision in every chain is signed by the key behind its identity, and all but descriptors were made for the descriptor that was the latest at that time |
| RevisionVerdicts.DescriptorLookupIff | src/anet/control_plane.py:1443-1458 | the last descriptor of a node is returned exactly while its window is open, and refused outside |
| RevisionVerdicts.ReachabilityLookupIff | src/anet/control_plane.py:1460-1485 | exactly when a reachability record is returned and when the lookup fails, over the accepted histories and the windows, or two descriptors at hand have one digest |
| RevisionVerdicts.GrantLookupIff | src/anet/control_plane.py:1487-1518 | the same for a grant: it is returned exactly when it is the last revision of its pair, made for the node's latest descriptor, with both windows open |
| RevisionVerdicts.RevokedIff | src/anet/control_plane.py:1520-1540 | a pair is reported as revoked exactly when its last revision is a revocation |
| ControlObjects.FieldsDetermineRevision | src/anet/control_plane.py:186-187 | what a digest covers determines the object, whatever its type |
| RevisionChain.ControlPlaneRevisionTracker.Advance | src/anet/control_plane.py:954-984 | the branches of the in-memory check decide exactly as the chain rule |
| RevisionChain.ControlPlaneRevisionTracker.AcceptDescriptor | src/anet/control_plane.py:986-996 | computes the tracker step |
| RevisionChain.ControlPlaneRevisionTracker.AcceptReachability | src/anet/control_plane.py:1003-1018 | computes the tracker step |
| RevisionChain.ControlPlaneRevisionTracker.AcceptHumanGrant | src/anet/control_plane.py:1020-1036 | computes the tracker step |
| RevisionChain.ControlPlaneRevisionTracker.AcceptHumanRevocation | src/anet/control_plane.py:1038-1061 | computes the tracker step |
| RevisionChain.ControlPlaneStore.CheckRevision | src/anet/control_plane.py:1180-1206 | the branches of the durable check decide exactly as the chain rule |
| RevisionChain.ControlPlaneStore.AcceptDescriptor | src/anet/control_plane.py:1218-1260 | computes the store step |
| RevisionChain.ControlPlaneStore.AcceptReachability | src/anet/control_plane.py:1276-1328 | computes the store step |
| RevisionChain.ControlPlaneStore.AcceptHumanGrant | src/anet/control_plane.py:1330-1384 | computes the store step |
| RevisionChain.ControlPlaneStore.AcceptHumanRevocation | src/anet/control_plane.py:1386-1441 | computes the store step |
| RevisionChain.ControlPlaneStore.Descriptor | src/anet/control_plane.py:1443-1458 | computes the descriptor lookup |
| RevisionChain.ControlPlaneStore.Reachability | src/anet/control_plane.py:1460-1485 | computes the reachability lookup |
| RevisionChain.ControlPlaneStore.Grant | src/anet/control_plane.py:1487-1518 | computes the grant lookup |
| Packet.OpenSealed | src/anet/packet.py:225-415 | opening a sealed packet returns exactly what was sealed, for every version and key mode, at every acceptable clock reading, and fails at any other |
| PacketReading.HeaderIff | src/anet/packet.py:151-222 | inspection accepts exactly the bytes whose header keeps every limit, and reports what the header says |
| PacketReading.OpenIff | src/anet/packet.py:328-415 | any bytes open exactly when they carry, authenticated and addressed to the opener, a message that its named sender signed, and then as that message; they are refused for the signature exactly when it is not the sender's |
| PacketReading.SealSucceedsIff | src/anet/packet.py:225-325 | exactly which orders can be sealed |
| PacketReading.SealedSays | src/anet/packet.py:225-325 | the header of a sealed packet says what was asked for, within the limits |
| Packet.SealedSize | src/anet/packet.py:284-292 | the plaintext length is the least power of two at least 256, the requested minimum and the framed message |
| Packet.PaddingIsIrrelevant | src/anet/packet.py:377-382 | sealings that differ only in padding read the same |
| Packet.InspectionIsStable | src/anet/packet.py:151-222 | what inspection says depends on the bytes alone; the clock can only make it fail |
| Packet.AadDeterminesHeader | src/anet/packet.py:133-148 | the authenticated fields determine everything a reader learns from the header, for every version |
| Packet.InnerFieldsDetermineMessage | src/anet/packet.py:118-130 | the signature covers every field of the inner message but itself |
| Padding.ChooseBucket | src/anet/packet.py:285-289 | the reassigned bucket is the least power of two that is large enough |
| Padding.BucketIsLeast | src/anet/packet.py:285-289 | the same for the specification function |
| Padding.AndTestsPower | src/anet/packet.py:286-287 | the bit trick vanishes exactly at the powers of two |
| Padding.UnframeFrame | src/anet/packet.py:377-382 | the big-endian length prefix recovers the message and never the padding |
| Relay.AccountingHolds | src/anet/ahub_relay.py:75-221 | under every interleaving waiting and active reservations are disjoint, counters equal live sessions with no zero entry, and sessions joined as peer stay within the limit |
| Relay.PairedAtMostOnce | src/anet/ahub_relay.py:130-145 | no owner endpoint is ever paired twice |
| Relay.VerdictsIff | src/anet/ahub_relay.py:75-145 | in every state of every run, exactly who is let in as owner or peer and why not; no peer is ever told that a reservation is busy |
| Relay.PairingStarts | src/anet/ahub_relay.py:130-145 | a peer that is let in starts its session and ends the wait; any other changes nothing |
| Relay.WaitsUntil | src/anet/ahub_relay.py:117-122 | a waiting owner is removed only by its own departure or its pairing, never by the cleanup of another |
| Relay.AllEndedIsEmpty | src/anet/ahub_relay.py:75-221 | when all sessions have ended nothing is counted or active; when all owner handlers have ended too, the coordinator is as created exactly when every owner whose waiting notice failed was paired |
| Relay.FailedOwnerBlocks | src/anet/ahub_relay.py:85-122 | an owner whose waiting notice failed keeps its entry exactly as long as no peer has joined it, and every owner of its reservation is turned away as busy meanwhile |
| Relay.EntryLeftBehind | src/anet/ahub_relay.py:85-95 | a run of two steps that ends with no handler and a busy reservation |
| Relay.OwnerWithinLimitIff | src/anet/ahub_relay.py:130-145 | over any run a node's sessions stay within the limit exactly when each pairing of a reservation it owns found it with capacity left |
| Relay.AdmissionControlIff | src/anet/ahub_relay.py:75-85 | sessions and outstanding waits of a node stay within the limit together exactly when every admission of the node found them below it; then its sessions do |
| Relay.OwnerLimitCanBeExceeded | src/anet/ahub_relay.py:75-92 | a run in which an owner exceeds its limit |
| Relay.RelayCoordinator.WaitAsOwner | src/anet/ahub_relay.py:75-85 | computes the owner's arrival |
| Relay.RelayCoordinator.JoinAsPeer | src/anet/ahub_relay.py:130-145 | computes the peer's arrival and returns the owner it takes |
| Relay.RelayCoordinator.EndSession | src/anet/ahub_relay.py:214-219 | computes the end of a session |
| Relay.RelayCoordinator.CleanUp | src/anet/ahub_relay.py:120-122 | removes the waiting entry only if it is the owner's own |
| Relay.RelayCoordinator.IncrementNode | src/anet/ahub_relay.py:306-309 | one session more for the node and no change for others |
| Relay.RelayCoordinator.DecrementNode | src/anet/ahub_relay.py:311-316 | one session less for the node, no entry at zero, no change for others |
| Relay.Pump | src/anet/ahub_relay.py:269-298 | forwards the binary frames unchanged and in order up to the first event that ends the direction, never more bytes than the limits, and names that event's reason |
| Relay.PumpEndsFor | src/anet/ahub_relay.py:269-298 | which event ends a direction and for what reason, and that every one before it fits the limits |
| Discord.IngestKeepsAggregates | src/anet/discord_social.py:813-868 | ingesting any message, new or known, keeps every actor's counters equal to the capped sums over its stored events and its last sighting their latest |
| Discord.OrderIndependent | src/anet/discord_social.py:808-868 | two ledgers fed the same messages in any order and number know the same actors with the same counters and last sightings, or two of those messages have different bodies with one hash |
| Discord.IngestAllSpec | src/anet/discord_social.py:793-812 | the event table holds exactly the events of the messages taken in, each with the body of one of them |
| DiscordSignals.IngestIff | src/anet/discord_social.py:711-919 | exactly which messages are taken in; a new event says what its message does, and carries the policy's evaluation of its author's row once it is counted in |
| DiscordSignals.RouteIff | src/anet/discord_social.py:964-979 | exactly when an event is marked as routed, once and under one id |
| DiscordPolling.ReachableAggregates | src/anet/discord_social.py:1158-1247 | counters and events agree in every state that polling reaches |
| DiscordSignals.EventHasOrigin | src/anet/discord_social.py:1158-1247 | in every state polling reaches, every event was made of one message with the evaluation of that moment, and was routed only because that lets it surface, under the id the callback returned |
| DiscordSignals.PassedIsSignalled | src/anet/discord_social.py:1195-1247 | a message that the cursor has passed has its event, and was signalled under an id the callback returned for it exactly when its evaluation lets it surface |
| DiscordPolling.CursorIsSafe | src/anet/discord_social.py:1158-1247 | over any run of polls with failures anywhere, given pages above the cursor that bring back what was left open, every returned message at or below the cursor is settled and no cursor moves back |
| DiscordPolling.PollKeepsSafe | src/anet/discord_social.py:1166-1247 | the same for one page, wherever it fails |
| DiscordPolling.WalkOnEvents | src/anet/discord_social.py:1178-1247 | exactly the messages dealt with settle their events; the one that failed and those behind it settle nothing |
| DiscordPolling.PollIsSafeIff | src/anet/discord_social.py:1166-1247 | for any page, complete or cut short by a failure: the cursor is safe afterwards exactly when the messages dealt with include an event for every open earlier message that it passed |
| DiscordPolling.SafeWhereverItFailsIff | src/anet/discord_social.py:1166-1247 | the same told from the page and the ledger alone: the cursor is safe wherever the outbound callback fails exactly when the page holds an event for every open earlier message that it goes past, or two of the messages at hand share an event key |
| DiscordPolling.OmissionLosesMessage | src/anet/discord_social.py:1166-1192 | a page that skips an open message and passes it loses it, whether or not it fails later |
| DiscordPolling.DiscordSocialStore.IngestMessage | src/anet/discord_social.py:711-919 | computes the ingest step, or changes nothing |
| DiscordPolling.DiscordSocialStore.UpdateCursor | src/anet/discord_social.py:600-616 | the cursor becomes the greater of itself and the message id |
| DiscordPolling.DiscordSocialStore.Route | src/anet/discord_social.py:964-979 | records the packet id of an event once, or changes nothing |
| DiscordPolling.DiscordSocialStore.PollChannel | src/anet/discord_social.py:1166-1247 | handles the page in id order up to the first failure |
| Bazaar.Provenance | experiments/abazr_demo.py:287-445 | after any submissions and matchings every stored evidence traces through fulfillment, agreement, proposal and match to a stored need and offer, with the issuers and the terms digest agreeing, everything in between private, and the match authorizing nothing |
| Bazaar.SubmitKeepsSound | experiments/abazr_demo.py:214-223 | a submission keeps every stored record genuine, under its own id, free of financial fields and with its references intact, and never changes a stored one |
| BazaarRecords.SubmitIff | experiments/abazr_demo.py:183-400 | exactly which records are taken in any state of the bazaar, kind by kind, and where they are stored |
| BazaarRecords.StoredIsSigned | experiments/abazr_demo.py:183-223 | every stored record was signed by the key its issuer is named after |
| BazaarRecords.FinancialIff | experiments/abazr_demo.py:74-83 | a financial field is found exactly when some path leads to one, at any depth |
| Bazaar.AllMatchesSpec | experiments/abazr_demo.py:225-258 | the list to submit holds exactly the matches of the compatible pairs |
| Bazaar.FindMatchesSpec | experiments/abazr_demo.py:225-258 | when nothing blocks it, matching returns, for exactly the pairs of a stored public need and offer with one capability, the record stored under their match's id, and adds nothing but such matches |
| BazaarRecords.MatchSays | experiments/abazr_demo.py:225-258 | who and what a match names, that it authorizes nothing, and that it is private and for an hour |
| BazaarRecords.MatchReasons | experiments/abazr_demo.py:234-241 | its score and its reasons, by the tags shared |
| Bazaar.FindMatchesFailsIff | experiments/abazr_demo.py:262-276 | matching fails, leaving the bazaar as it was, exactly when some public need or offer is not currently valid |
| Bazaar.Bazaar.SubmitRecord | experiments/abazr_demo.py:214-223 | computes the submission, or changes nothing |
| Bazaar.Bazaar.FindAllMatches | experiments/abazr_demo.py:225-258 | the nested loops compute the specified matching |

## Left out

- Database connections, retries, permissions, schema, `status`, `health` and `checkpoint`: tables are maps, and a transaction is one method.
- Exceptions of one kind are one error: a failed verification is `ValueError` whichever of its checks failed.
- Values are typed: checks that a JSON value is an integer and not a boolean, or a list, are part of the types. Text is ASCII, and `strip` and `lower` act on ASCII.
- The stored JSON of control-plane rows is the object itself; only settlement proofs go through their dictionary form.
- The body of an inner message is its packed bytes.
- The inner layout of locator strings: `Crypto.Suite.locatorOk` stands for its check.
- Floating-point rounding in the rate limiter; its clock and tokens are reals.
- The checks of the two ids that `is_human_device_revoked` makes before it reads the row.
- `mailbox_count`, `allowed_nodes` and `is_allowed`, which only read.
- The claim loop's second read of a row: `CustodyStore.LeasingFinds` shows that the row is there and unclaimed, so the read and the conditional update never miss.
- Relay time limits and control frames: a session ends at any step, which covers every timeout; pairing is modelled at the lock, sockets are not. An owner whose first notice cannot be sent is a step of its own; handlers cancelled from outside, as when the server stops, are not modelled.
- Endpoints are numbers where the source compares object identity.
- The event table of the Discord ledger keeps the digest body itself beside its hash, since the sums are about it; the source keeps the hash and the columns.
- The social policy, an actor's manual labels and the account age it sees are the parameter `Discord.Bridge.evaluate`; `SocialPolicy` is not part of this model.
- Discord identifiers are numbers: leading zeros and the database's 64-bit comparison of cursors are not modelled. The counts that a poll returns and the relationship projection callback are left out.
- The first sighting of an actor is the time of some event of it, which one depends on arrival order.
- In the bazaar, shared tags are listed in the order of the need rather than sorted, and `str` of a value that is not text is the parameter `Bazaar.Env.repr`.
- HTTP and websocket plumbing, TLS, command line, installers, carriers, friendship and relationship records, companion and agent protocols.
