# Verification model of the onboarding bridge

A Dafny 4.11 model of the off-chain half of the bridge: the relayer that carries deposits from Ethereum and
Solana to Stellar, the SDK's batch submission and caches, and the indexer's webhook fan-out and XDR reader.
`dafny verify dfyconfig.toml` checks everything.

## What is modelled

**The relayer process** (`Protocol*.dfy`, `Stores.dfy`, `Signatures.dfy`, `Service.dfy`). `Protocol` is a state
machine whose steps are the code between two `await`s: polls that may overlap, any other listener delivering
any event at any time, `handleEvent` with its nonce store and in-flight map, the two continuations of
`processEvent`, the dead-letter sweep on its stale snapshot, and a process restart between any two steps. Four
invariants run over all of it: safety (`ProtocolSafety`), coverage (`ProtocolCoverage`), bounded retries
(`ProtocolRetries`) and draining of a backlog (`ProtocolDraining`); `ProtocolOutcomes` says of the single steps what
they do, in terms of what arrives and what is stored. `Stores` and `Service` hold the same code as
classes whose methods are shown to take exactly the steps of the state machine, keys filed as strings included.

**What the listeners read** (`Abi.dfy`, `Hex.dfy`, `Base58.dfy`, `Numerals.dfy`, `Scanner.dfy`, `Backfill.dfy`,
`BackfillRuns.dfy`). The Ethereum log decoder with JavaScript's `parseInt`, `BigInt` and `slice`; base58; the
invocation-stack scan of Solana logs; the paged backfill, and a state machine of backfills that are killed, fail or
overlap, beside live notifications. `EndToEnd.dfy` and `Solana.dfy` put each chain's path together.

**What is hashed and signed** (`Preimages.dfy`): payload, nonce and commitment preimages.

**SDK and indexer** (`Batch.dfy`, `Cache.dfy`, `CachedBridge.dfy`, `Indexer.dfy`, `Webhook.dfy`, `Xdr.dfy`).

### Assumptions

- SHA-256, Ed25519, UTF-8 and the strkey checks are parameters (`Config`, `Hashing`, `Checks`, `isUtf8`); the only
  thing ever assumed of one, where it is needed, is that a digest is 32 bytes long.
- File writes succeed, and the writes of one step reach the disk together.
- A truthful node answers `eth_getLogs` with an error or with every log of the range that matters, and the logs of a
  confirmed block never change. Only the coverage theorems ask for this.
- The Ethereum listener starts from a concrete block. Stored dead-letter rows carry attempt counts, one per key,
  and none is in the nonce store (`Protocol.Init`).
- Numbers are exact integers. JavaScript's are exact below 2^53, which block numbers, counters and times stay under.

### Properties that fail, and exactly when

- *Coverage* fails when a log query is answered by something that is not an array, which is read as "no logs"
  (`relayer/index.ts:847`), while the range holds a log that matters: one that decodes to a valid event and was not
  reorged away. For every configuration, start and head, the run that answers so leaves everything behind the cursor
  accounted for if and only if no log of the range matters (`ProtocolDraining.NonArrayReplyLosesADeposit`).
- *Four retries per key* becomes four plus the number of retries of that key that a restart killed before their
  attempt was written. The bound is met for every such number, so more than four is possible if and only if one was
  killed (`ProtocolRetries.MoreThanFourRetriesIffOneWasKilled`).
- *Five POSTs* becomes five plus the number of outcomes that never reached the table, likewise met for every number
  (`Indexer.MoreThanFivePostsIffOneWasLost`).
- *Handing a Solana deposit over once* fails when the process is killed in the middle of a transaction. When backfills
  do not overlap and nothing is notified, a replay preimage is handed over again if and only if a kill came with its
  signature in progress and that deposit already handed over, and a later backfill came past it
  (`Solana.PreimageAgainIffKilledAfter`). A reconnect starts a second backfill without stopping the first
  (`relayer/index.ts:1080-1096`), and a notification may repeat what a backfill has covered; in general a deposit is
  handed over once per backfill and notification that came past it (`BackfillRuns.HandedOncePerBackfill`). Of a deposit
  handed over again at most one submission is accepted (`ProtocolSafety.AtMostOnce`).
- *No Solana deposit behind the cursor is lost* fails when a notified signature is recorded, which moves the cursor to
  it, while an earlier deposit lies behind no cursor and has not been handed over. A deposit behind a cursor was never
  handed over if and only if it was skipped like this and nothing came past it later
  (`BackfillRuns.NotHandedIffSkipped`); backfills alone skip nothing.
- *No stale reads after a confirmed mutation* fails for a read that had simulated before the mutation's commit and
  had not stored its value at the deletion after the confirmation, and for no other: an older value stored by a given
  read can still be served if and only if the read was one of these (`CachedBridge.OlderHitIffOldRead`).
- *Commitments* hash the addresses end to end without checking their lengths (`sdk/src/bridge.ts:107-116`).
  Commitments that hash the same bytes have the same fields if and only if their address lengths agree;
  `Preimages.UncheckedLengthsCollide` gives two that do not.
- *One result per chunk* fails when a nonce leaves the u64 range part-way: building its value throws outside the `try`
  (`sdk/src/bridge.ts:985-990`), and the results of the chunks already sent are lost. This is possible if and only if
  the nonce of the last chunk is out of range (`Batch.NeverThrowsIffNonceFits`).

Where comments and code disagree the model follows the code. `deliver_pending` is documented to keep FIFO order per
subscriber; a failed POST is rescheduled and reported as success (`indexer/src/webhook.rs:365-374`), so later
deliveries overtake it. The queues keep the order of the fetch; the POSTs of a run may come in any order.

## Model

| member | source | states |
|---|---|---|
| `ProtocolCoverage.NoEventIsLost` | relayer/index.ts:745-789 | In every run whose node answers with an error or leaves out nothing that matters, with overlapping polls, retries, restarts and a cursor that may move back, every log of every block the cursor has ever passed is from then on removed, undecodable, invalid, submitted or dead-lettered. |
| `ProtocolCoverage.FinishedRangeIsAccounted` | relayer/index.ts:769-785 | When a poll ends, everything from the start block to the end of its range is accounted for, so assigning the cursor is safe whatever it was. |
| `ProtocolCoverage.HandleAccounts` | relayer/index.ts:518-541 | The promise a listener awaits covers its event: invalid, already stored, or awaited from a call running for the same key. |
| `ProtocolCoverage.CallsEndInAStore` | relayer/index.ts:543-623 | No step drops a running `processEvent` call: it goes on with its event or leaves the key in the nonce store or the dead-letter queue. |
| `ProtocolCoverage.StoredForGood` | relayer/index.ts:602-622 | No step takes a key out of the nonce store and the dead-letter queue together. |
| `ProtocolSafety.AtMostOnce` | relayer/index.ts:518-541 | In every run at most one `processEvent` call is active per key, at most one submission per key comes back accepted, and accepted and dead-lettered keys are disjoint. |
| `ProtocolSafety.SubmissionsAreThresholdSigned` | relayer/index.ts:559-600 | Every submission of every run carries exactly `threshold` signatures, each verified over that event's payload hash, by pairwise distinct case-folded keys. |
| `ProtocolSafety.SubmittedIffThresholdMet` | relayer/index.ts:585-600 | An event is submitted if and only if the distinct verified keys reach the threshold; otherwise it is dead-lettered and nothing is sent. |
| `ProtocolSafety.QueriesStayConfirmed` | relayer/index.ts:758-767 | Every block any poll asks for has the required confirmations, or is block 0 because of the clamp, and no range is wider than `maxBlockRange`. |
| `ProtocolSafety.StoreChange` | relayer/index.ts:585-622 | Only a settling call changes the stores: one more attempt for its key, or its key moved to the nonce store; no other key is touched. |
| `ProtocolRetries.SweepsRetryAtMostFourTimes` | relayer/index.ts:487-501 | In every run sweeps start at most four calls per key, plus one for each retry of that key that a restart killed, and the queue never has two rows for one key. |
| `ProtocolRetries.RetryBoundIsMet` | relayer/index.ts:487-501 | For every configuration, valid event and number of killed retries, a reachable state has four more started than killed. |
| `ProtocolRetries.MoreThanFourRetriesIffOneWasKilled` | relayer/index.ts:487-501 | More than four retries of a key can be started if and only if a restart killed one of them. |
| `ProtocolRetries.SweepRetryKeepsBounded` | relayer/index.ts:491-497 | A sweep's stale snapshot cannot retry a row more often than its attempts allow, though listeners deliver the same key meanwhile. |
| `ProtocolRetries.AttemptsNeverFall` | relayer/index.ts:235-261 | While a key stays queued its attempt count only grows. |
| `ProtocolDraining.BacklogDrains` | relayer/index.ts:758-848 | With a fixed head and polls that do not overlap, ranges are contiguous, disjoint and at most `maxBlockRange` wide; every head that arrives asks for one until ceil((safe-from+1)/maxBlockRange) are asked for; and between polls the cursor is at safe+1 if and only if that many polls have been started. |
| `ProtocolDraining.RangeCountIsExact` | relayer/index.ts:835-840 | After n ranges the cursor is still inside the backlog if and only if n is below that count. |
| `ProtocolDraining.NonArrayReplyLosesADeposit` | relayer/index.ts:847-847 | For every configuration, start and head, the run whose first range is answered by a non-array moves the cursor past it, and everything behind the cursor is accounted for if and only if no log of the range matters. |
| `ProtocolOutcomes.SubmissionSettles` | relayer/index.ts:602-622 | A returned submission files its key as submitted if and only if it was accepted or failed with a message in which "ReplayedNonce" occurs, and then drops its row; otherwise the nonces stay and the queue gains a last row for the call's own event, with the next attempt number and its delay, terminal if and only if "InvalidAmount", "AssetNotWhitelisted" or "AddressBlocked" occurs. |
| `ProtocolOutcomes.SignersSettle` | relayer/index.ts:575-600 | With enough distinct keys the first `threshold` verified signatures of new keys, in node order, go out with the event; otherwise the event is queued with the number of keys that signed and nothing is sent. |
| `ProtocolOutcomes.BackoffIsDelay` | relayer/index.ts:250-250 | The delay is one minute, doubled with each attempt, and one hour from the seventh on. |
| `ProtocolOutcomes.HeadAsksForConfirmed` | relayer/index.ts:758-767 | A poll asks from the cursor up to the last confirmed block or as far as one range goes, and ends if nothing at or behind the cursor is confirmed. |
| `ProtocolOutcomes.ReplyIsDelivered` | relayer/index.ts:840-847 | An array is delivered from its first log on, an error ends the poll, anything else counts as no logs. |
| `ProtocolOutcomes.RemovedLogIsPassed` | relayer/index.ts:770-774 | A removed log, and one that does not decode, changes nothing but the poll that passes it. |
| `ProtocolOutcomes.LogIsHandedOver` | relayer/index.ts:775-776 | Any other log is ignored if invalid or submitted, joined to the running call for its key, or given a call of its own. |
| `ProtocolOutcomes.OtherListenersAreServed` | relayer/index.ts:518-541 | An event of another listener starts a call exactly if it is valid, not submitted and not in flight, and changes nothing otherwise. |
| `ProtocolOutcomes.PollEndsBehindItsRange` | relayer/index.ts:782-785 | A poll past its last log moves the cursor just behind its range and touches nothing else. |
| `ProtocolOutcomes.SweepTakesDueRows` | relayer/index.ts:490-495 | A sweep works on exactly the rows that are not terminal, have fewer than five attempts and are due, or does not start. |
| `ProtocolOutcomes.SweepHandsOverNextRow` | relayer/index.ts:497-497 | A retry hands over the event of the next row of the snapshot, as a call of the sweep's own. |
| `Service.RelayerService.HandleEvent` | relayer/index.ts:518-541 | The method on string-keyed fields takes exactly the `Handle` step and returns the call its caller awaits. |
| `Service.RelayerService.SignersAnswered` | relayer/index.ts:559-600 | Collecting, deduplicating and branching on the threshold is exactly the `SignersAnswer` step. |
| `Service.RelayerService.SubmissionReturned` | relayer/index.ts:602-622 | Each outcome changes both stores exactly as the `SubmissionReturns` step, whose effect `ProtocolOutcomes.SubmissionSettles` states. |
| `Service.RelayerService.Clear` | relayer/index.ts:536-540 | The in-flight entry goes only if it is still this call's. |
| `Service.RelayerService.StartSweep` | relayer/index.ts:487-496 | The snapshot is the retriable rows in order; nothing happens while a sweep runs. |
| `Service.RelayerService.RetryNext` | relayer/index.ts:497-497 | One turn of the sweep is exactly the `SweepRetries` step. |
| `Service.EthChainListener.PollOnce` | relayer/index.ts:745-789 | An uninterrupted poll hands over, in order, the decoded event of every log of the reply that was not removed and decodes, and of no other, and moves the cursor past the queried range; or leaves it alone and hands over nothing. |
| `Service.PollEndsWherePollOnceDoes` | relayer/index.ts:758-785 | In every run a poll that ends, whatever ran between its turns, leaves the cursor where the uninterrupted one would, from the cursor its head arrived at, and is past all logs of its own reply. |
| `Service.DeliveryTurnFollowsPollOnce` | relayer/index.ts:770-777 | Each delivery step hands over the next event of the uninterrupted poll. |
| `Stores.KeyStringInjective` | relayer/index.ts:399-406 | Two keys share a key string if and only if chain id and transaction hash agree. |
| `Stores.KeyStringReads` | relayer/index.ts:400-404 | A key string is the chain id in decimal without leading zeros, a colon, and the hash. |
| `Stores.NonceStore.Has` | relayer/index.ts:399-401 | The string set answers for exactly the keys it holds. |
| `Stores.NonceStore.Mark` | relayer/index.ts:403-406 | Marking adds one key and no other. |
| `Stores.DeadLetterQueue.Enqueue` | relayer/index.ts:235-261 | One row per key stays one row per key, its attempts are one more than before, other rows keep theirs. |
| `Stores.DeadLetterQueue.Remove` | relayer/index.ts:266-271 | Exactly the rows of the key go. |
| `Stores.EnqueuedFacts` | relayer/index.ts:238-252 | What enqueueing does to the set of queued keys, to every key's attempts and to the uniqueness of rows. |
| `Stores.DueRowsFacts` | relayer/index.ts:492-494 | A snapshot has exactly the non-terminal rows with fewer than five attempts that are due. |
| `Signatures.CollectSignatures` | relayer/index.ts:575-584 | The filter with its set of seen keys yields as many signatures as there are distinct verified keys, all verified, none repeated. |
| `Signatures.FirstPerKeyFacts` | relayer/index.ts:576-584 | Deduplication keeps the set of case-folded keys, repeats none and invents nothing. |
| `Signatures.CollectedPicks` | relayer/index.ts:575-584 | The signatures collected are the first verified one of each key, in node order, and every verified key is among them. |
| `Signatures.FoldedIffSameKey` | relayer/index.ts:577-577 | Keys count as one if and only if they differ at most in the case of letters. |
| `Signatures.CollectedPrefixIsThresholdSigned` | relayer/index.ts:597-597 | The slice submitted has exactly `threshold` verified, distinct signers. |
| `Abi.DecodeEncode` | relayer/index.ts:884-910 | Every (string, string, uint256) is decoded from its ABI encoding unchanged (Solidity Contract ABI Specification, "Formal Specification of the Encoding"). |
| `Abi.EncodeInjective` | relayer/index.ts:1743-1769 | Two deposits have the same encoding if and only if they are the same. |
| `Abi.DecodedStringIsInside` | relayer/index.ts:896-903 | For arbitrary data and offsets, an accepted string lies wholly inside the data and is never longer than its length word. |
| `Abi.HexDataDecodes` | relayer/index.ts:884-910 | Any hex data decodes to a deposit if and only if it has three words, the first two are offsets of a length word and as many bytes inside the data, spelt digit by digit, and the third is the amount. |
| `Abi.ParseHexIntReads` | relayer/index.ts:892-900 | On words that are not plain hex, white space, a sign and a radix prefix are skipped and digits are read up to the first other character. |
| `Abi.ParseHexBigReads` | relayer/index.ts:908-908 | The amount word is read only if it is digits with white space behind them. |
| `Abi.ReplayPreimageInjective` | relayer/index.ts:867-882 | Ethereum replay preimages agree if and only if the bytes read from the hashes and the log indices do; they are 36 bytes and name one transaction if and only if the hash is hex text. |
| `Abi.ReplayPreimageLayout` | relayer/index.ts:867-882 | The bytes of the transaction hash, one for two digits, then the log index as a big-endian u32; exactly for a hash of `0x` and 64 characters and an index that is a u32. |
| `EndToEnd.DepositLogDecodes` | relayer/index.ts:865-914 | A log that carries an encoded deposit decodes to an event with its target, asset and amount, under this chain and the digest of the log's own hash and index, valid if and only if amount and addresses are in order. |
| `EndToEnd.DepositReachesAStore` | relayer/index.ts:745-789 | With a truthful node, an encoded deposit in a block the cursor has passed is submitted or dead-lettered under the key of its own transaction and log index. |
| `Base58.Decode` | relayer/index.ts:932-952 | The loops compute the bytes base58 stands for, and fail exactly on the empty string and on characters outside the alphabet. |
| `Base58.EncodeDecode` | relayer/index.ts:932-952 | Every non-empty string over the alphabet is the encoding of what it decodes to (draft-msporny-base58-03 section 4). |
| `Base58.DecodeEncode` | relayer/index.ts:932-952 | Every non-empty byte string comes back from its encoding, leading zero bytes as leading '1's. |
| `Base58.PeelBytes` | relayer/index.ts:945-949 | The byte loop yields the digits of the number in base 256, without a leading zero. |
| `Base58.ReplayPreimageInjective` | relayer/index.ts:1293-1307 | Solana replay preimages are 68 bytes and agree if and only if signature and line index do. |
| `Base58.AlphabetInOrder` | relayer/index.ts:922-925 | Each of the 58 characters stands for its position in the alphabet. |
| `Base58.ReplayPreimageLayout` | relayer/index.ts:1293-1307 | The 64 bytes the signature is base58 for, then the line's number as a big-endian u32; exactly for such a signature and a number that is a u32. |
| `Scanner.ExtractBridgeFundEvents` | relayer/index.ts:1166-1202 | The loop with its mutable stack computes the scan that the theorems below are about. |
| `Scanner.ScanFindsTheDeposits` | relayer/index.ts:1166-1202 | For every properly nested log the scan emits exactly the decodable bridge_fund lines whose innermost open frame is the bridge program, in order, each numbered by all bridge_fund lines before it. |
| `Scanner.StackCountsOpenFrames` | relayer/index.ts:1173-1183 | On arbitrary logs a program is on the stack as often as its own invoke and end lines leave it open, clipped at zero. |
| `Scanner.AcceptedOnlyWhileBridgeOpen` | relayer/index.ts:1184-1198 | On arbitrary logs a line is accepted only while the bridge program has an open invocation. |
| `Solana.LineDecodesIff` | relayer/index.ts:1284-1309 | A line decodes to a target, asset and amount if and only if it is these three joined by colons, none empty or with a colon, the amount digits, and the signature base58 for 64 bytes; the event then carries this chain's id and the digest of the signature's bytes and the line's number. |
| `Solana.PreimagesDiffer` | relayer/index.ts:1166-1202 | No two deposits found in transaction logs share a replay preimage, within one transaction or across two. |
| `Solana.EventsCarryTheirKeys` | relayer/index.ts:1298-1305 | Every event found in a transaction says what one of its bridge_fund lines says, printed while the bridge program was open, and is filed under this chain and the lower-case hex digest of the 64 signature bytes and the number of bridge_fund lines before it. |
| `Solana.KeysDifferAsDigestsDo` | relayer/index.ts:1298-1305 | Two different deposits, of one transaction or two, share a key only if the digest takes two different 68-byte strings for one. |
| `Solana.BackfillsDeliverOnce` | relayer/index.ts:1257-1274 | However often backfills stop between transactions and are resumed while the chain grows, no replay preimage is handed over twice; the last complete one has handed over exactly the deposits after the first checkpoint, in order. |
| `Solana.PreimageAgainIffKilledAfter` | relayer/index.ts:1257-1274 | In every run of backfills without overlaps or notifications, kills and errors at any moment, a preimage is handed over twice if and only if the process was killed with its signature in progress and that deposit handed over, and a later backfill came past it. |
| `Solana.ItemsAreDeposits` | relayer/index.ts:1257-1274 | An undisturbed backfill of the state machine hands over exactly the deposits of its signatures, in order. |
| `BackfillRuns.NoDepositIsLost` | relayer/index.ts:1205-1275 | In every run of backfills that are killed, fail or overlap, beside live notifications, every deposit behind any cursor there has been is handed over by then and stays so, unless a notification was recorded over it. |
| `BackfillRuns.NotHandedIffSkipped` | relayer/index.ts:1205-1226 | A deposit lies behind a cursor there has been and was never handed over if and only if a notified signature was recorded over it while it was unhanded and behind no cursor, and no backfill or notification has come past it. |
| `BackfillRuns.NotificationSkips` | relayer/index.ts:1205-1221 | On every chain with a deposit behind the cursor, a notification of the next signature can be recorded over it. |
| `BackfillRuns.FirstHandedInOrder` | relayer/index.ts:1257-1274 | In every run without notifications, before any deposit is handed over every earlier one has been. |
| `BackfillRuns.HandedOncePerBackfill` | relayer/index.ts:1228-1275 | In every run a deposit is handed over exactly once for each backfill and each notification that came past it. |
| `BackfillRuns.HandedAgainIffKilledAfter` | relayer/index.ts:1257-1274 | With neither overlaps nor notifications a deposit is handed over again if and only if a kill found it handed over and its signature unrecorded, and a later backfill came past it. |
| `BackfillRuns.RecordedAgainIffKilledAfter` | relayer/index.ts:1257-1274 | For a signature recorded by now such a kill alone decides. |
| `BackfillRuns.UndisturbedBackfill` | relayer/index.ts:1257-1274 | Left alone, a backfill hands over all deposits of its signatures in order and ends with the cursor behind them. |
| `BackfillRuns.KillHandsOverTwice` | relayer/index.ts:1269-1273 | On every chain with a deposit behind the cursor, some run with a kill hands it over twice. |
| `BackfillRuns.ReconnectHandsOverTwice` | relayer/index.ts:1080-1096 | So does some run with a reconnect and no kill. |
| `Backfill.CollectPending` | relayer/index.ts:1235-1255 | Newest-first paging by 1,000 terminates with exactly the signatures after the checkpoint, no gap and no repeat. |
| `Backfill.SolanaChainListener.Backfill` | relayer/index.ts:1228-1275 | Signatures are recorded, and their deposits handed over, oldest first up to the first error, and the cursor is the last one recorded. |
| `Backfill.ResumeCompletes` | relayer/index.ts:1223-1226 | A backfill stopped anywhere leaves a cursor from which a later one, over a longer history, completes the same list. |
| `Backfill.BackfillsLeaveNoGap` | relayer/index.ts:1228-1275 | Any series of interrupted backfills over a growing history records a prefix of the signatures after the first checkpoint, and all of them once the last runs through. |
| `Preimages.PayloadPreimageInjective` | relayer/index.ts:335-360 | For validated events the 148-byte preimages agree if and only if chain id, hash bytes, amount and the two address digests do. |
| `Preimages.PayloadLayout` | relayer/index.ts:335-360 | By offset: the chain id, the hash digit by digit, the digest of the target, the digest of the asset, the amount in two halves, and the digest of the first 36 bytes, which are the nonce preimage. |
| `Preimages.ValidateBridgeEvent` | relayer/index.ts:320-333 | There is no complaint if and only if the chain id is a u32, the hash 64 hex digits, the amount decimal digits from 1 to 2^127-1, the target an account or contract, and the asset a contract. |
| `Hex.FromHexAt` | relayer/index.ts:299-299 | Each byte read from hex text is the value of its two digits, in either case. |
| `Preimages.NoncePreimageInjective` | relayer/index.ts:296-301 | Nonce preimages agree if and only if chain id and hash bytes do. |
| `Preimages.AmountRebuilds` | relayer/index.ts:344-347 | The two 64-bit halves rebuild every amount below 2^127. |
| `Preimages.CommitmentsAgreeIffLengthsDo` | sdk/src/bridge.ts:96-117 | Commitments with equal preimages have equal fields if and only if their address lengths are equal. |
| `Preimages.CommitmentInjectiveOnStrkeys` | sdk/src/bridge.ts:96-117 | With 56-byte addresses, in-range amounts and 8-byte nonces, the commitment preimage is injective. |
| `Preimages.CommitmentLayout` | sdk/src/bridge.ts:96-117 | By offset: tag, contract, passphrase digest, source, target, asset, amount and nonce; none if and only if the amount is no positive i128 or the nonce no u64. |
| `Preimages.UncheckedLengthsCollide` | sdk/src/bridge.ts:107-116 | Two different commitments that hash the same bytes. |
| `Batch.BatchFundCAddresses` | sdk/src/bridge.ts:948-1117 | Bad input gives one failed result and sends nothing; otherwise transaction i carries base+i and the recipients from the 100*i-th on, at most 100; each result tells its submission's hash, status and error; after an unconfirmed chunk the rest is reported failed with the reason and never sent; if a nonce leaves the u64 range at a chunk due to be sent, and only then, the call throws and no results are returned. |
| `Batch.NeverThrowsIffNonceFits` | sdk/src/bridge.ts:985-990 | Whatever the RPC answers the call does not throw, if and only if every chunk's nonce is a u64. |
| `Batch.ChunksAreWhole` | sdk/src/bridge.ts:981-985 | The chunks of any list, put together, are the list. |
| `Batch.AttemptsCoverTheList` | sdk/src/bridge.ts:981-1036 | What has been sent is the front of targets and of amounts in order, and all of both when every chunk was. |
| `Batch.AttemptedIffPredecessorsSettled` | sdk/src/bridge.ts:1059-1112 | With nonces in range, chunk i is sent if and only if every chunk before it was confirmed. |
| `Batch.ConfirmChunk` | sdk/src/bridge.ts:1059-1112 | The next chunk follows only a pending submission that settled without failing; every other end is told apart in the result's error and in the message for the chunks behind. |
| `Batch.AwaitConfirmation` | sdk/src/bridge.ts:1073-1077 | The calls go on to the first answer that is not NOT_FOUND, and that one decides. |
| `Cache.InMemoryCache.Get` | sdk/src/cache.ts:54-70 | A hit is the latest value set, not deleted or cleared since and not past its expiry time; a miss on one means at least `maxEntries` distinct other keys were set or hit since the key last was. |
| `Cache.InMemoryCache.Put` | sdk/src/cache.ts:72-81 | Setting records the value with its expiry, the time plus the TTL if there is one, and keeps the store explained by its history and within `maxEntries`. |
| `Cache.InMemoryCache.SweepExpired` | sdk/src/cache.ts:95-107 | A sweep that is due drops exactly the entries past their expiry time; one that is not changes nothing. |
| `Cache.InMemoryCache.EvictOverflow` | sdk/src/cache.ts:112-124 | Eviction drops from the least recently used end until the store fits. |
| `Cache.EvictionExplained` | sdk/src/cache.ts:112-124 | An evicted key has as many distinct other keys used since as stay in the store. |
| `Cache.UseExplained` | sdk/src/cache.ts:65-78 | Re-inserting a used key keeps recency order in step with the history. |
| `CachedBridge.StaleHitsComeFromReadsInFlight` | sdk/src/cachedBridge.ts:220-263 | After a mutation's confirmed deletion, an older value is served only if its read had simulated before the commit and was in flight at that deletion; with no such read every later hit is at least as new as the mutation. |
| `CachedBridge.OlderHitIffOldRead` | sdk/src/cachedBridge.ts:136-155 | After that deletion things can go on so that an older value of a given read is served, if and only if that read is one of these. |
| `CachedBridge.ReadInFlightCanServeStaleValue` | sdk/src/cachedBridge.ts:136-155 | The exception is reachable. |
| `CachedBridge.HitsAfterADeletionAreNew` | sdk/src/cachedBridge.ts:233-236 | What is served after a mutation's deletion, when it is pending or when it is confirmed, was stored after it. |
| `CachedBridge.HitsAreStoredSince` | sdk/src/cachedBridge.ts:136-155 | What an empty cache serves later was stored in between, under its own key, as its read simulated it. |
| `CachedBridge.InvalidateAfterConfirmation` | sdk/src/cachedBridge.ts:244-263 | At most `maxAttempts + 1` calls are made, and the keys are deleted if and only if the first answer other than NOT_FOUND finds the transaction. |
| `Indexer.Database.InsertEventAndQueueDeliveries` | indexer/src/db.rs:114-193 | Event and deliveries appear together or, for a duplicate, an error or a crash after any statement, not at all; either way exactly as a step of the state machine. |
| `Indexer.Database.HandleRetry` | indexer/src/webhook.rs:377-408 | One attempt is counted; the row is dead exactly if the fetched count makes it the fifth, and otherwise keeps its status and is due after a power of two of seconds; every other row is untouched; the tables move as the state machine does. |
| `Indexer.Database.MarkDeliverySuccess` | indexer/src/db.rs:420-428 | The row becomes delivered with one more attempt; everything else in the table stays. |
| `Indexer.Database.MarkDeliveryDead` | indexer/src/db.rs:448-458 | The row becomes dead with one more attempt; everything else in the table stays. |
| `Indexer.Database.RetryDelivery` | indexer/src/db.rs:551-564 | The row becomes pending and due, with no attempts; everything else in the table stays. |
| `Indexer.FifthFailureIsFinal` | indexer/src/webhook.rs:377-408 | A fresh delivery that keeps failing waits 2, 4, 8 and 16 seconds and is dead exactly from the fifth failure on. |
| `Indexer.FanOutFacts` | indexer/src/db.rs:164-191 | An event's new rows are fresh, in subscription order, and one for each active matching subscription. |
| `Indexer.ExactlyOneDeliveryEach` | indexer/src/db.rs:114-193 | In every run, replays included, the deliveries for a stored event and a subscription are one if the subscription was in the audience, plus one for each replay of the event that read the subscriptions while it was active and matching, less those a replay has still to queue or did not live to queue; unstored ids have none. |
| `Indexer.FanOutOnce` | indexer/src/db.rs:330-377 | Queueing an event's deliveries makes exactly one row for each active matching subscription and none for others. |
| `Indexer.AudienceMeans` | indexer/src/db.rs:164-178 | The audience is the active subscriptions each of whose four filters is absent or equal to that field of the event; a filter on a field the event lacks shuts it out. |
| `Indexer.SubscriptionsComeAndGo` | indexer/src/db.rs:322-328 | A new subscription hears what it asks for, a deleted one nothing more, and the others as before. |
| `Indexer.FetchTakesDueDeliveries` | indexer/src/db.rs:379-389 | A cycle takes up pending deliveries that are due and remembers the attempts they had. |
| `Indexer.PostsGoToActiveSubscriptions` | indexer/src/webhook.rs:303-322 | A delivery taken up is posted if its subscription is active and given up if it is not. |
| `Indexer.AudienceIsFixedAtCommit` | indexer/src/db.rs:134-142 | The audience is the active, matching subscriptions at the first commit, whatever is created or deleted later. |
| `Indexer.AtMostFivePosts` | indexer/src/webhook.rs:303-408 | In every run, manual retries included, a pending delivery has fewer than five attempts and at most five POSTs since its last reset, besides POSTs whose outcome was lost. |
| `Indexer.PostBoundIsMet` | indexer/src/webhook.rs:303-408 | For every number of lost outcomes, a reachable state has five more POSTs than that. |
| `Indexer.MoreThanFivePostsIffOneWasLost` | indexer/src/webhook.rs:303-408 | A delivery can receive more than five POSTs between resets if and only if the outcome of one was lost. |
| `Webhook.Partition` | indexer/src/webhook.rs:257-276 | The one-pass partition yields, per subscription in order of first delivery, exactly that subscription's deliveries. |
| `Webhook.FirstSeenOrder` | indexer/src/webhook.rs:257-276 | Of two subscribers, the one listed first has a delivery before all of the other's. |
| `Webhook.EachInExactlyOneQueue` | indexer/src/webhook.rs:262-276 | Every fetched delivery is in exactly one queue. |
| `Webhook.QueuesKeepOrder` | indexer/src/webhook.rs:257-276 | Each queue keeps the order of the fetch. |
| `Xdr.DecodeScVal` | indexer/src/poller.rs:402-445 | The decoder on one mutable cursor computes the decoding that the theorems below are about. |
| `Xdr.DecodeEncode` | indexer/src/poller.rs:402-490 | Bool, void, u32, i32, u64, i64, timepoint, duration, bytes, string and symbol values decode from their encoding, whatever follows, cursor just behind the padding (RFC 4506 sections 4.1, 4.2, 4.4, 4.5, 4.10 and 4.11). |
| `Xdr.TruncationFails` | indexer/src/poller.rs:447-490 | No proper prefix of an encoding decodes. |
| `Xdr.EncodingStartsWithItsKind` | indexer/src/poller.rs:406-442 | The discriminants of the encoding, kind by kind. |
| `Xdr.IntegersAreBigEndian` | indexer/src/poller.rs:409-422 | On arbitrary bytes integers are read big-endian, in two's complement where signed, and a bool is true unless zero. |
| `Xdr.OpaquesAreCopied` | indexer/src/poller.rs:424-433 | On arbitrary bytes opaque data is copied to the end of its padding; text has to be UTF-8; a length past the end is an error. |
| `Xdr.UnknownKindsFail` | indexer/src/poller.rs:443-444 | Every other discriminant is an error. |
| `Xdr.Decoded` | indexer/src/poller.rs:402-445 | On arbitrary bytes a successful decode leaves the cursor inside them. |
| `Xdr.Reader.ReadOpaque` | indexer/src/poller.rs:484-490 | The reader advances by length word, bytes and padding, and never past the end. |

## Left out

- The Soroban contract: its source is not part of this model, and neither are fee arithmetic, whitelists or swaps.
- Crashes between two disk writes of one step: inside `enqueue`, and between marking a nonce and removing its row.
- The first Ethereum poll while the cursor is still `'latest'`, and stored cursors that are not numbers.
- The Solana WebSocket, the delivery queue that runs one connection's notifications after its backfill (`BackfillRuns` lets them run at any time), and signature files.
- Classifying log lines by regular expression: the scanner starts from lines already told apart.
- Progress: nothing says that an RPC answers, that a queued event is ever submitted, or that a webhook arrives.
- Signer HTTP calls, the health server, env parsing, key custody, Stellar transaction building, hooks and logging.
- `poll_once` and `parse_contract_event` in the indexer, which use names that are nowhere defined, and the meaning of account addresses in ScVals.
- `sdk/src/events.ts`, retry helpers, memo helpers, fee comparison, and the URL and IP filters: flat case checks.
- The indexer's HTTP layer (the steps behind its subscription, retry and replay routes are in `Indexer`), which events a replay request selects, the other tables, and the order in which different subscriptions are served.
- Batch.BatchFundCAddresses: that a value outside the u64 range throws is the Stellar SDK's behaviour, taken as given; deadlines are left out.
- Batch.AwaitConfirmation: some answer is other than NOT_FOUND; without one the code waits for ever.
- CachedBridge.StaleHitsComeFromReadsInFlight: the cache store is abstract, its TTL and eviction any deletion at any time, and simulations see the ledger's latest commit.
- Service.EthChainListener.PollOnce: the cursor is a number, not the hex text that is stored, and the interleaved poll is the state machine's.
- Backfill.CollectPending: pages are of one history and one checkpoint; that an overlapping backfill can move the checkpoint between pages is in `BackfillRuns`, whose backfills start from any cursor there has been.
- Abi.DecodeEncode: strings are byte strings; decoding them as UTF-8 is a parameter in `EndToEnd`.
- Xdr.Reader.ReadOpaque: the cursor is unbounded, so the overflow of a 64-bit cursor is not modelled.
