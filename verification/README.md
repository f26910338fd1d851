# Verified model of the anchor worker, the canonical package and the stateful workers

A Dafny 4.11 model of the parts of this repository whose correctness rests on interleavings, crashes, loops or
inductive structure. `dafny verify dfyconfig.toml` checks all of it.

## What is modelled

**The anchor worker's send ledger** (`Chain`, `AnchorState`, `Ledger`, `AnchorRuns`, `AnchorSafety`, `AnchorHistory`, `SubmitSafety`,
`SpendCap`, `AnchorLimits`, `SendSettling`, `Tracking`, `TrackingLimits`, `LogSearch`). Several workers share the database and one signing wallet, and submit
Merkle roots to a chain that can reorg. `AnchorRuns` is a transition system: one function per SQL statement or RPC read, row
locks and the advisory lock as ownership, a crash between any two steps, answers lost after their effect, and a chain whose
final prefix never changes. `SendSettling` is `settleSends` as the loop it is, over an object that others change between any
two of its calls. `Tracking` is the row machine around `trackTransaction`. `AnchorHistory` looks back along a run: which steps must have
come before a row leaves, a send is in the ledger, or a gas row is booked.
The `Limits` modules hold the runs in which a guarantee fails, each beside the condition under which no run fails it; `Runs` and
`Numbers` are what several components share.

**Canonical form and inclusion** (`Jcs`, `JcsGraph`, `Utf8`, `Hex`, `Merkle`, `Leaf`, `ProjectExport`). The printer with a
parser that undoes it, the serializer on object graphs with its shared `seen` set, TextEncoder, the hex functions with
`Number.parseInt`'s leniency, the sorted-pair tree with promoted odd nodes, the twice-hashed leaf. Keccak-256 is a parameter: any
function from bytes to 32 bytes. Nothing says that it is injective; soundness produces the two colliding inputs instead.

**Smaller stateful cores**: the outbox with its inbox, dead letters and replay (`Outbox`, `OutboxSafety`, `OutboxDelivery`,
`OutboxReplays`, `OutboxSettlement`, `OutboxLimits`), the scan lease (`ScanLease`), the ClamAV stream writer (`ClamStream`), the
URL redactor (`Redactor`), the evidence-ledger sweep (`LedgerSweep`) and the rate-limit bucket (`RateLimitBucket`).

## Assumptions

- A mined transaction costs at most gas limit times max fee, plus an L1 fee within the quoted bound. The signed content stands for
  the transaction hash. Accounts' transactions carry their nonces in order.
- Reads are truthful. Blocks deep enough and at or below the finalized head are final; with the finality tag `none`, depth alone is
  taken as final. The configuration is constant.
- A node may answer that the signer has nothing pending although it has lost a transaction. A contract that holds a batch has code.
- A crash ends all sessions of a worker with it: no statement of a dead worker takes effect later, and a live worker keeps its
  advisory lock and row locks. A statement has taken effect, or not, before its error is seen.
- Executed Safe proposals are frozen by the trigger in `packages/db/migrations/0135_safe_execution_history.sql`; the model has
  it as the guard that a proposal is still open.
- The row id stands for the batch id in `AnchorRuns`, and `updated_at` for a row version that never repeats.
- Outbox handlers are fixed and have distinct `name@version` keys. ClamAV's chunk size is positive (zero would never end), and the
  time budget base is positive.

## Findings

Each property that fails in the code has a run or an input that shows it, and the exact condition under which it holds.

- Daily cap: the code reads the spent total and then the in-flight total as two statements
  (`apps/anchor-worker/src/anchor-submitter.ts:734-741`). With two workers a receipt recorded between them is in neither, and the cap is
  exceeded (`AnchorLimits.TwoWorkersExceedTheCap`). For that order the cap holds in all runs exactly with at most one worker per chain; read in
  one snapshot, or in-flight first, it holds for any number (`AnchorLimits.CapHoldsExactly`).
- That cap leaves out the gas of hashes settled as `nonce_consumed`. A receipt read before a reorg and stored after another worker settled its
  send that way books gas that no reservation covers (`AnchorLimits.StaleReceiptExceedsTheCap`). With every own gas row counted the cap holds in
  all runs exactly with at most one worker per chain, in any read order (`AnchorLimits.RecordedCapHoldsExactly`).
- Chain moves and tracking read a receipt before the final head they judge it by. A reorg between the two reads lets a row leave although its
  send is stored later (`AnchorLimits.ReorgBetweenReadsDefeatsTheMove`), and lets a batch be confirmed that the final chain does not hold
  (`TrackingLimits.ConfirmsDisplaced`). Both guarantees hold in all runs exactly if the final head is read first
  (`AnchorLimits.MovesAreSafeExactly`, `TrackingLimits.ConfirmsForGoodExactly`).
- The reorg log keeps the block a row is taken off exactly if the step writes `trackTransaction`'s result for anything but a reverted receipt
  (`Tracking.TakenOffIsLoggedExactly`). A revert in another block leaves no entry (`TrackingLimits.RevertLosesTheBlock`), nor does following
  another transaction, a resubmission, an adoption by a move, or leaving for another chain.
- A graph that prints prints the text of a tree exactly if it has no array hole (`JcsGraph.PrintsATreeExactly`): one hole prints like an empty
  array, and two print a lone comma, the text of no value (`JcsGraph.HolesPrintNothing`).
- `hexToBytes` accepts text that is not hex, such as `-1` or `1g` (`Hex.ParseIntIsLenient`). What it accepts are exactly the texts of even length
  whose every pair starts with a digit, other than a bare `0x`, or is a space or sign before a digit (`Hex.AcceptsExactly`); what it reads is the
  text exactly if the text is hex of either case, and prints back as it stands exactly if that is lowercase (`Hex.ReadsHexExactly`). Inclusion
  proofs stay sound for any text.
- A replay between an event's dead letter and its settlement lets another worker complete the handler that is being settled
  (`OutboxLimits.SettlesAfterReplay`). It cannot happen exactly without operators or with at most one worker
  (`OutboxLimits.SettlesOpenWorkExactly`); the export handler guards against it by the job's state.
- A replay's skip list holds for every attempt at the event until its next replay (`OutboxReplays.SkippedNeverRuns`), but not for the settlement
  of a dead letter that was set aside before: its worker goes by the row as it claimed it, and settles a handler that is on the list by now
  (`OutboxLimits.SettlesSkipped`). It still can exactly if a worker settling the event has yet to come to that handler
  (`OutboxReplays.SkippedIsSettledExactly`), and in no run exactly without operators or without workers (`OutboxLimits.SettlesUnskippedExactly`).
- `buildProjectExport` answers `built` also when another build's package stands. It means one's own package in all runs exactly with at most
  one builder (`ProjectExport.BuiltIsOwnExactly`).
- An IPv6 address with a dotted tail behind `::` is expanded with one zero group too many, so its bucket can be another /64
  (`RateLimitBucket.DottedTailCanBeWrong`; `RateLimitBucket.DottedTailIsRightIff` says exactly when it is right). Written in full a dotted tail does
  no harm (`RateLimitBucket.DottedInFullIsRight`).
- The scan lease's matching needs no clock assumption (`ScanLease.OnlyTheHolderMatches`), but the pair it matches by can recur: within one moment a
  refunded failure and a new lease give the same attempt count and the same deadline. With leases as long as `leaseOne` makes them, neither the
  pair nor the deadline recurs in any run exactly if the clock strictly advances between requests (`ScanLease.TokensDifferExactly`).

## Model

| member | source | states |
|---|---|---|
| Chain.ConsumedNonceIsDead | apps/anchor-worker/src/anchor-submitter.ts:974-982 | A nonce count taken at final blocks, then no receipt: another transaction holds that nonce in the final prefix. |
| Chain.DeadForever | apps/anchor-worker/src/anchor-submitter.ts:965-975 | A transaction whose nonce another one holds in the final prefix is mined on no chain that keeps that prefix. |
| Chain.FinalOutcome | apps/anchor-worker/src/anchor-submitter.ts:2120-2236 | A final receipt is the only outcome its transaction has, on every later chain. |
| AnchorState.CheckSubmitAllowed | apps/anchor-worker/src/anchor-state.ts:291-356 | An EOA send is admitted if and only if the chain is allowed, fee and attempts are within their caps, and its whole reservation fits under the daily cap, before a broadcast with an L1 fee together with a replacement's; a Safe takes over if and only if the worker may not sign alone and there is one; and the attempt cap is the reason only when nothing that clears by itself is. |
| AnchorState.RetryRoomWithL1Fee | apps/anchor-worker/src/anchor-state.ts:310-353 | On a chain with an L1 fee, an admitted first send leaves room for one replacement on its nonce at any fee up to the cap, in both checks. |
| AnchorState.RetryRoomFromFloor | apps/anchor-worker/src/anchor-config.ts:177-187 | Without an L1 fee the startup floor of twice gas limit times fee cap leaves the same room from an empty ledger. |
| AnchorState.FloorIsExact | apps/anchor-worker/src/anchor-config.ts:177-187 | From an empty ledger every admitted first send leaves room for its replacement, at any fee up to the cap, if and only if the startup floor is met. |
| AnchorState.TwoReplacementsFitExactly | apps/anchor-worker/src/anchor-state.ts:310-353 | From an empty ledger every admitted first send and replacement leave room for a second replacement if and only if the daily cap is at least three times gas limit times fee cap. |
| AnchorState.SecondReplacementFitsExactly | apps/anchor-worker/src/anchor-state.ts:310-353 | With an L1 bound or without, a second replacement at the fee cap is not refused for the daily cap if and only if the cap fits three such reservations beside what is booked. |
| AnchorState.ReasonIsTheHarderOne | apps/anchor-worker/src/anchor-state.ts:310-333 | Above the fee cap, a daily-cap refusal holds at every allowed price, and a fee refusal means the daily cap has room at the fee cap. |
| AnchorState.AdmissionIsMonotone | apps/anchor-worker/src/anchor-state.ts:291-356 | More spent, more in flight, a higher fee or a later attempt never opens the guard. |
| AnchorState.TrackTransaction | apps/anchor-worker/src/anchor-state.ts:113-221 | Confirmed if and only if not terminal and by a successful receipt, deep enough and at or below the finalized head; off its block, as a reorg, exactly when the receipt is gone or elsewhere, back to submitted if pending and to a person if unknown; dropped only on no block, unknown and past the timeout. |
| AnchorSafety.BroadcastIsInLedger | apps/anchor-worker/src/anchor-submitter.ts:843-860 | In every reachable state, crashes included, every broadcast or mined hash of the wallet has its ledger row. |
| AnchorSafety.ConsumedIsNeverMined | apps/anchor-worker/src/anchor-submitter.ts:1038-1097 | A send settled as nonce_consumed in any reachable state is mined on no chain that keeps the final prefix. |
| AnchorSafety.ReceiptFirstIsInconclusive | apps/anchor-worker/src/anchor-submitter.ts:977-979 | With the two reads in the other order the conclusion is false: the transaction itself took the nonce. |
| AnchorSafety.FinalityReadExact | apps/anchor-worker/src/anchor-submitter.ts:2168-2182 | A receipt at or below a final head that was read no later than the receipt is final, on every later chain; read later, all that counts is whether some final block holds the outcome, the named one or another. |
| AnchorSafety.MovedBatchIsNeverStored | apps/anchor-worker/src/anchor-submitter.ts:2120-2306 | Once a row has moved to another chain on receipts that were final when accepted, no send ever signed for it stores its batch on the old one, in any later chain. |
| AnchorSafety.MovedHashesAreHarmless | apps/anchor-worker/src/anchor-submitter.ts:2255-2306 | Every hash recorded for such a row has a final receipt that stored nothing, or a nonce taken in the final prefix. |
| AnchorHistory.LeavesOnlyWhenChecked | apps/anchor-worker/src/anchor-submitter.ts:2120-2306 | In every run a row leaves only by a pass that read it stuck, requested, with no open proposal and no open send, then heard that the signer has nothing pending, then asked the configured contract and the row's own in vain, and only if all of that still holds of the row; each tracked hash is then final, a Safe execution also successful, unless a receipt was displaced. |
| AnchorHistory.MoveDecides | apps/anchor-worker/src/anchor-submitter.ts:2231-2306 | The row leaves if and only if it still is free to leave, nobody holds it, and the pass found the batch nowhere and doubted no hash; if a contract held the batch, or a hash had no receipt or a reverted Safe execution, the request is withdrawn; if the row has changed, nothing happens. |
| AnchorHistory.SentOnlyWhenAbsent | apps/anchor-worker/src/anchor-submitter.ts:799-804 | In every run each send in the ledger was reserved under a claim of its row in which the configured contract had been asked for the batch and did not hold it. |
| AnchorHistory.GasIsWhatWasCharged | apps/anchor-worker/src/anchor-submitter.ts:1063-1074 | In every run each gas row carries the gas and L1 fee that a block of the chain, as it was when the receipt was read, charged for its hash. |
| AnchorHistory.BookedOnce | apps/anchor-worker/src/anchor-submitter.ts:1065-1074 | In every run no hash has two gas rows, whichever role records its receipt. |
| AnchorHistory.MidnightReopensTheCap | apps/anchor-worker/src/anchor-submitter.ts:647-667 | After midnight the spent total is zero, whatever was recorded before, in every run. |
| AnchorSafety.RunKeepsInv | apps/anchor-worker/src/anchor-submitter.ts:716-2466 | Every step of submitting, settling, tracking, moving, crashing and reorganizing keeps the invariant, in every run. |
| SpendCap.DailyCapHolds | apps/anchor-worker/src/anchor-submitter.ts:716-873 | In every reachable state, the day's gas of the wallet's own hashes not settled as consumed, plus every open reservation, is within the daily cap, with safe reads. |
| SpendCap.RecordedCapHolds | apps/anchor-worker/src/anchor-submitter.ts:654-702 | With at most one worker per chain, every own gas row of the day plus every open reservation is within the cap in every reachable state. |
| SpendCap.ReserveCap | apps/anchor-worker/src/anchor-submitter.ts:822-851 | The one step that commits more, the ledger insert under the chain lock, stays within the cap. |
| Ledger.RetryReservation | apps/anchor-worker/src/anchor-submitter.ts:812-832 | The answer bounds every open reservation of the row at this signer and nonce, and is one of them or zero. |
| SubmitSafety.ReplacementIsSigned | apps/anchor-worker/src/anchor-submitter.ts:806-843 | After an admitted first send with an L1 bound was reserved, and nothing else booked, both checks pass a replacement on its nonce at any fee up to the cap, by what the ledger itself answers: it is signed if attempts remain, and otherwise ends the row. |
| SubmitSafety.RefusedOnlyForRetryRoom | apps/anchor-worker/src/anchor-submitter.ts:834-840 | In every reachable state the broadcast check refuses exactly for want of room for a replacement, and then the row waits as it was. |
| SubmitSafety.AttemptsWithinCap | apps/anchor-worker/src/anchor-submitter.ts:875-909 | In every reachable state no row has more attempts than the cap, and no two workers hold one row. |
| SubmitSafety.ClaimEnds | apps/anchor-worker/src/anchor-submitter.ts:843-873 | However a claim ends, only its row changes, an attempt is counted exactly if a send was prepared, and the cap is kept. |
| SubmitSafety.ClaimEndsFollowing | apps/anchor-worker/src/anchor-submitter.ts:862-873 | A row follows a hash exactly because that was reserved, broadcast and accepted, or found on the chain, and a Safe proposal only where the worker may not sign alone. |
| SubmitSafety.ClaimEndsForGood | apps/anchor-worker/src/anchor-submitter.ts:875-901 | The preflight ends a row for good if and only if its attempts are used up and neither cap refuses it; the only other end is a search given up. A failed send leaves hash and contract as they were. |
| AnchorLimits.TwoWorkersExceedTheCap | apps/anchor-worker/src/anchor-submitter.ts:734-741 | A run of two workers in which the cap is exceeded by half, with the two totals read in the order of the code. |
| AnchorLimits.CapHoldsExactly | apps/anchor-worker/src/anchor-submitter.ts:734-741 | For each read order: the cap of `DailyCapHolds` holds in all runs of n workers if and only if the order is not that of the code or n is at most one. |
| AnchorLimits.StaleReceiptExceedsTheCap | apps/anchor-worker/src/anchor-submitter.ts:1063-1082 | For any read order and two or more workers, a run in which a receipt stored after its send was settled as nonce_consumed exceeds the cap by half. |
| AnchorLimits.RecordedCapHoldsExactly | apps/anchor-worker/src/anchor-submitter.ts:654-702 | For each read order: with every own gas row counted the cap holds in all runs of n workers if and only if n is at most one. |
| AnchorLimits.ReorgBetweenReadsDefeatsTheMove | apps/anchor-worker/src/anchor-submitter.ts:2158-2182 | A run, with the signer check passed, in which a reorg between the receipt read and the finality read lets a row leave whose send is stored later. |
| AnchorLimits.MovesAreSafeExactly | apps/anchor-worker/src/anchor-submitter.ts:2120-2236 | Moved rows are never stored on the chain they left in all runs of n workers if and only if the final head is read before the receipts, or there is no worker. |
| SendSettling.SettleAll | apps/anchor-worker/src/anchor-submitter.ts:985-1036 | The loop with its nonce cache, others interfering between any two calls: what it calls consumed is dead, a failed receipt read settles nothing, and every send settled by receipt has a gas row at the end of the pass, with the receipt's cost, the send's row and the day if it had none when the pass wrote it. |
| SendSettling.SettleSend | apps/anchor-worker/src/anchor-submitter.ts:1038-1097 | One send: the nonce is read, or taken from the cache, before the receipt; a receipt that is found settles it, and without one a taken nonce does exactly if it lies above the send's; what is written is booked once and in the world it is written to. |
| SendSettling.RecordOutcome | apps/anchor-worker/src/anchor-submitter.ts:1062-1096 | A receipt settles exactly the open sends of its hash and books its cost unless the hash is booked; a taken nonce without a receipt settles and books nothing; anything else writes nothing. |
| Ledger.ReceiptCommits | apps/anchor-worker/src/anchor-submitter.ts:1063-1082 | Recording a receipt and settling its send never commits more than the reservation it frees. |
| Tracking.ConfirmationSafety | apps/anchor-worker/src/anchor-submitter.ts:1434-1617 | In every reachable state rows hold a block exactly where they should, and a confirmed row was confirmed by its own hash's receipt carrying batch and root. |
| Tracking.ConfirmedIsForGood | apps/anchor-worker/src/anchor-submitter.ts:1434-1617 | With a finality tag, a batch confirmed on a receipt that was final when accepted stays stored on every later chain. |
| TrackingLimits.ConfirmsDisplaced | apps/anchor-worker/src/anchor-submitter.ts:1450-1530 | A run that confirms a row by a receipt whose block a final one has replaced. |
| TrackingLimits.ConfirmsForGoodExactly | apps/anchor-worker/src/anchor-submitter.ts:1450-1530 | With a finality tag, confirmed batches stay stored on every later chain in all runs if and only if the final head is read before the receipt. |
| Tracking.TakenOffIsLoggedExactly | apps/anchor-worker/src/anchor-submitter.ts:1540-1617 | In every reachable state, the block a step takes a row off is logged if and only if the step writes trackTransaction's result for anything but a reverted receipt, and the entry is there after any further steps. |
| Tracking.CommitFollowsTheChain | apps/anchor-worker/src/anchor-submitter.ts:1535-1617 | In every reachable state, writing a result confirms the row if and only if what was seen confirms it, takes it off its block if and only if no receipt was seen, pending to submitted and unknown to a person, and drops it if and only if it was submitted, unknown and past the timeout. |
| Tracking.FollowsWhereItWasSent | apps/anchor-worker/src/anchor-submitter.ts:550-572 | A sent or proposed row records the configured contract; an executed proposal is followed on the contract it was made for. |
| Tracking.HandsOver | apps/anchor-worker/src/anchor-submitter.ts:1247-1340 | A row that stops following its transaction follows the one that stored the batch, on the same contract and on no block, or goes to a person with hash and block kept; only for a receipt that stored nothing, or a search given up. |
| TrackingLimits.RevertLosesTheBlock | apps/anchor-worker/src/anchor-state.ts:124-140 | A run in which a reverted receipt takes a row off its block and the log stays empty. |
| LogSearch.FindSubmissionHash | apps/anchor-worker/src/viem-chain-client.ts:194-220 | Adjacent ranges of at most a chunk, or one empty range for an empty window, and none below a block older than the batch; a hash comes from the window, absence is true of the window and of all later blocks, a log in the window is found, and without refusals and with a head newer than the batch the search always answers. |
| Jcs.SerializeString | packages/canonical/src/jcs.ts:31-91 | The loop prints the escaped string, or rejects it exactly if a surrogate is unpaired. |
| Jcs.EscapesExactly | packages/canonical/src/jcs.ts:58-91 | Exactly control characters, the quote and the backslash are escaped, seven of them by a letter. |
| Jcs.NoControlIsPrinted | packages/canonical/src/jcs.ts:31-91 | No printed string holds a control character. |
| Jcs.CanonicalRoundTrip | packages/canonical/src/jcs.ts:106-191 | The parser reads the whole canonical text and gives back the tree with its keys in order. |
| Jcs.SortIsUnique | packages/canonical/src/jcs.ts:97-99 | Distinct keys have one sorted order, whatever sorts them. |
| Jcs.LessByFirstDifference | packages/canonical/src/jcs.ts:97-99 | Keys are ordered by the first code unit that differs, a proper prefix first. |
| Jcs.SameCanonicalIffSameTree | packages/canonical/src/jcs.ts:106-191 | Two accepted values print the same if and only if they are equal as trees with unordered keys. |
| JcsGraph.Serializer.SerializeValue | packages/canonical/src/jcs.ts:106-186 | The recursion over the shared set restores the set on return and on throw, and computes the specified outcome. |
| JcsGraph.GraphOutcome | packages/canonical/src/jcs.ts:150-185 | A graph prints if and only if no reachable cycle and no reachable fault; without a fault, a cycle is what it reports. |
| JcsGraph.PrintsItsTree | packages/canonical/src/jcs.ts:155-182 | Without array holes, what prints is the canonical text of the tree the graph unfolds to, shared objects repeated. |
| JcsGraph.FirstProblemIsReported | packages/canonical/src/jcs.ts:106-186 | An error is reported if and only if it is that of the first problem in the order of printing, cycle, value or key. |
| JcsGraph.ErrBlames | packages/canonical/src/jcs.ts:117-170 | Every error comes with a path to a value that has that fault, or back to an object on the path. |
| JcsGraph.PrintsATreeExactly | packages/canonical/src/jcs.ts:155-182 | What prints is the canonical text of a tree the graph unfolds to if and only if no array hole is reachable. |
| JcsGraph.HolesPrintNothing | packages/canonical/src/jcs.ts:156-159 | An array of one hole prints like an empty one, and two holes print a comma, which no value prints. |
| JcsGraph.Canonicalize | packages/canonical/src/jcs.ts:189-191 | Each call starts from an empty set and succeeds exactly on graphs without cycle and fault. |
| Utf8.DecodeEncode | packages/canonical/src/jcs.ts:193-196 | Well-formed text comes back from its UTF-8 bytes. |
| Utf8.SameBytesIffSameTree | packages/canonical/src/jcs.ts:193-196 | The hashed bytes of two accepted values agree if and only if the values are the same tree. |
| Utf8.SameBytesExactly | packages/canonical/src/jcs.ts:24-30 | Without the surrogate check two texts share their bytes if and only if they are the same once every unpaired surrogate is a replacement character. |
| Utf8.ToldApartExactly | packages/canonical/src/jcs.ts:24-30 | The bytes tell a text apart from all others if and only if it has no unpaired surrogate and no replacement character. |
| Hex.BytesToHex | packages/canonical/src/hash.ts:9-15 | The loop prints two lowercase digits a byte after the prefix. |
| Hex.HexToBytes | packages/canonical/src/hash.ts:17-31 | The loop fills the array with what parseInt reads, wrapped to a byte, or rejects odd length and NaN. |
| Hex.FromHexToHex | packages/canonical/src/hash.ts:9-31 | Reading what was printed gives the bytes back. |
| Hex.Bytes32IffPrinted | packages/canonical/src/hash.ts:37-40 | The accepted 32-byte strings are exactly what is printed for 32 bytes. |
| Hex.HexOrder | packages/canonical/src/merkle.ts:25-31 | Comparing hex of equal length is comparing the bytes as unsigned numbers. |
| Hex.AcceptsExactly | packages/canonical/src/hash.ts:17-31 | The texts accepted are exactly those of even length in which parseInt finds a number in every pair, spelled out by character; odd length is its own error. |
| Hex.ReadsHexExactly | packages/canonical/src/hash.ts:9-31 | An accepted text is what its bytes print as, up to letter case, if and only if it is hex of either case, and exactly so if and only if it is lowercase hex. |
| Merkle.HashPair | packages/canonical/src/merkle.ts:25-31 | The buffer code computes the specified pair hash, errors of oversized or malformed text included. |
| Merkle.PairOfDigests | packages/canonical/src/merkle.ts:25-31 | For digests the hash is that of the smaller number followed by the larger, in either argument order. |
| Merkle.BuildMerkleTree | packages/canonical/src/merkle.ts:33-74 | The loops build the specified tree exactly for non-empty lists of distinct 32-byte hex, and name the first error otherwise. |
| Merkle.GetMerkleProof | packages/canonical/src/merkle.ts:76-99 | The loop collects the siblings on the way up from the leaf, or reports that it is not there. |
| Merkle.VerifyMerkleProof | packages/canonical/src/merkle.ts:108-114 | The loop folds the proof and compares with the root, or throws where a node cannot be read. |
| Merkle.Completeness | packages/canonical/src/merkle.ts:76-114 | The proof of every leaf of a built tree verifies under its root. |
| Merkle.OrderIndependence | packages/canonical/src/merkle.ts:45-74 | Every permutation of the leaves is accepted alike and gives the same tree. |
| Merkle.ProofLength | packages/canonical/src/merkle.ts:85-98 | A proof is no longer than the number of halvings of the leaf count. |
| Merkle.HalvingsIsLog | packages/canonical/src/merkle.ts:56-68 | The number of halvings is the binary logarithm, rounded up. |
| Merkle.MembershipOrCollision | packages/canonical/src/merkle.ts:33-114 | A verifying proof for the hash of 32 bytes shows they are one of the batch's, or yields two different inputs with one hash. |
| Merkle.InnerNodePasses | packages/canonical/src/leaf.ts:78-83 | For three leaves an inner node verifies: the second hash of a leaf is needed. |
| Leaf.HashIsOfInner | packages/canonical/src/leaf.ts:84-88 | A leaf hash is the hash of the 32 bytes its canonical bytes hash to. |
| Leaf.VersionIffDecimal | packages/canonical/src/leaf.ts:62-68 | The accepted version strings are exactly the decimal spellings of natural numbers. |
| Leaf.ValidExactly | packages/canonical/src/leaf.ts:42-75 | A leaf is accepted if and only if type and status are known, the version is a decimal in its one spelling, no id is empty, and the content hash is a printed digest. |
| Leaf.HashedUnderItsName | packages/canonical/src/leaf.ts:84-88 | The hashed object holds each of the nine fields of the leaf under that field's own name, and nothing else. |
| Leaf.LeafBytesInjective | packages/canonical/src/leaf.ts:84-88 | What is hashed tells any two leaves apart. |
| Leaf.InclusionSound | packages/canonical/src/leaf.ts:84-88 | An accepted proof of a leaf, of any strings, shows the leaf is in the batch, or exhibits a collision. |
| Leaf.InclusionComplete | packages/canonical/src/merkle.ts:76-99 | Every leaf of a batch has a proof that verifies, of logarithmic length. |
| ProjectExport.ProveLeaf | apps/jobs-worker/src/project-export.ts:190-207 | A package's anchor proof verifies under the root it reports; it fails exactly for leaves no batch can hold or a leaf not among them. |
| ProjectExport.RowOrderIsHarmless | apps/jobs-worker/src/project-export.ts:317-327 | Leaves selected in any order give the same root and proof. |
| ProjectExport.GroupLeaves | apps/jobs-worker/src/project-export.ts:318-326 | Every batch gets exactly its own leaves, in the order read. |
| ProjectExport.FirstPackageStands | apps/jobs-worker/src/project-export.ts:341-365 | Under any interleaving of builds and dead letters, a stored package never changes. |
| ProjectExport.DeliveredMeansPackage | apps/jobs-worker/src/project-export.ts:341-365 | A delivery that found its job left a package. |
| ProjectExport.FailedExactly | apps/jobs-worker/src/project-export.ts:387-393 | A job becomes failed by a dead letter exactly while it is queued, and leaves that state by a package only. |
| ProjectExport.BuiltIsOwnExactly | apps/jobs-worker/src/project-export.ts:341-365 | Every build that answers built wrote the package that stands, in all runs of n builders, if and only if n is at most one. |
| ProjectExport.DeliveryCompletes | apps/jobs-worker/src/project-export.ts:341-393 | A delivery that is not stopped leaves a package, whatever state a dead letter left the job in and whatever other deliveries and dead letters do meanwhile. |
| OutboxSafety.RunKeeps | apps/jobs-worker/src/outbox-publisher.ts:95-274 | Every step of workers, crashes, lost answers and replays keeps the invariant, in every run. |
| OutboxDelivery.PublishedIsDelivered | apps/jobs-worker/src/outbox-publisher.ts:149-239 | A published event has an inbox row for every handler that accepts it and is not skipped. |
| OutboxDelivery.InboxMeansCompleted | apps/jobs-worker/src/outbox-publisher.ts:208-239 | An inbox row means its handler completed for the event. |
| OutboxDelivery.NeverRunsAgain | apps/jobs-worker/src/outbox-publisher.ts:217-229 | Once the inbox row exists, no continuation of the run starts or completes that handler for the event. |
| OutboxDelivery.OneHolder | apps/jobs-worker/src/outbox-publisher.ts:112-128 | No two workers send one event, nor one a replay has locked. |
| OutboxDelivery.DeadLetterIff | apps/jobs-worker/src/outbox-publisher.ts:149-178 | An unpublished event is dead-lettered if and only if its attempts committed since the last replay reach the cap. |
| OutboxDelivery.OneTryPerBatch | apps/jobs-worker/src/outbox-publisher.ts:104-146 | One batch commits at most one attempt at an event. |
| OutboxDelivery.RunsOncePerLostRecord | apps/jobs-worker/src/outbox-publisher.ts:199-207 | A handler completes for an event at most once more than inbox rows were lost after completions. |
| OutboxDelivery.CompletionsAccounted | apps/jobs-worker/src/outbox-publisher.ts:208-239 | In every state completions equal recorded ones, lost ones and the one in flight. |
| OutboxReplays.SkippedNeverRuns | apps/jobs-worker/src/outbox-publisher.ts:212-229 | In every reachable state a row carries the list its last replay gave, and no handler on it started or completed for the event since. |
| OutboxReplays.ReplayGivesItsList | apps/jobs-worker/src/outbox-replay.ts:141-149 | A committed replay makes every row it locked due again, without attempts and with the operator's list, and changes no other. |
| OutboxReplays.SkippedIsSettledExactly | apps/jobs-worker/src/outbox-publisher.ts:231-238 | In every reachable state a handler on the list can be settled before the next replay if and only if a worker is settling an older dead letter of the event and has yet to come to it. |
| OutboxReplays.SettledWasTriedUnskipped | apps/jobs-worker/src/outbox-publisher.ts:231-238 | Every settled handler was off the list when some attempt at the event was committed. |
| OutboxSettlement.SetsAsideToSettle | apps/jobs-worker/src/outbox-publisher.ts:131-143 | An answered commit hands the event to settlement if and only if it has set it aside. |
| OutboxSettlement.FailuresAreNotPublished | apps/jobs-worker/src/outbox-publisher.ts:149-171 | In every reachable state an attempt in which a handler, an inbox read or an inbox write is seen to fail is committed as failed, and counts. |
| OutboxSettlement.SettlementComesToAll | apps/jobs-worker/src/outbox-publisher.ts:231-238 | A settlement ends only when every handler with work on the event was settled or has its inbox row. |
| OutboxSettlement.BatchStaysWithinLimit | apps/jobs-worker/src/outbox-publisher.ts:111 | In every reachable state a batch has handled at most as many events as its limit. |
| OutboxLimits.SettlesOpenWorkExactly | apps/jobs-worker/src/outbox-publisher.ts:230-238 | A handler that is being settled has no inbox row, in all runs, if and only if there is no operator or at most one worker. |
| OutboxLimits.SettlesAfterReplay | apps/jobs-worker/src/outbox-replay.ts:141-167 | For any two workers and an operator, a run in which a handler completes while its dead letter is being settled. |
| OutboxLimits.SettlesSkipped | apps/jobs-worker/src/outbox-replay.ts:141-149 | For any worker and operator, a run in which a handler is settled after a replay has put it on the list. |
| OutboxLimits.SettlesUnskippedExactly | apps/jobs-worker/src/outbox-publisher.ts:231-238 | No handler is settled while it is on its event's list, in all runs, if and only if there is no operator or no worker. |
| ScanLease.UploadRow.LeaseOne | apps/scan-worker/src/scan-worker.ts:94-133 | A lease is granted exactly below the cap on a free or expired row, counts an attempt, and matches the row it leaves. |
| ScanLease.UploadRow.RecordFailure | apps/scan-worker/src/scan-worker.ts:136-150 | Only an exactly matching lease releases the row and refunds its attempt. |
| ScanLease.AttemptsAreLeasesLessRefunds | apps/scan-worker/src/scan-worker.ts:94-150 | In every run attempts equal leases granted less refunds, between zero and the cap. |
| ScanLease.GrantedExactlyWhenFree | apps/scan-worker/src/scan-worker.ts:94-133 | With a clock that never goes back, in every run an idle worker is granted a lease if and only if the upload is undecided, attempts remain, and every earlier lease has run out or was released. |
| ScanLease.OnlyTheHolderMatches | apps/scan-worker/src/scan-worker.ts:135-150 | In every run a worker's lease matches the row exactly if it holds it; a replaced worker's record changes nothing, whatever the clock does. |
| ScanLease.TokensDifferExactly | apps/scan-worker/src/scan-worker.ts:112-126 | With leases as long as the code makes them, no two leases of an upload share attempt count and deadline in all runs if and only if the clock strictly advances or no lease can be granted; nor do they share a deadline. |
| ScanLease.LeaseCovers | apps/scan-worker/src/scan-worker.ts:112-117 | A lease outlasts the object read, the scan deadline and two minutes, for any size, and the configured lease; and the longer of the two by less than a second. |
| ScanLease.ScanDeadlineMs | apps/scan-worker/src/scanner.ts:47-51 | The budget is the base and an eighth of a second for every started mebibyte, up to ten minutes; other sizes and timeouts are an error. |
| ScanLease.DeadlineMonotone | apps/scan-worker/src/scanner.ts:47-51 | A larger upload never gets a shorter deadline. |
| ClamStream.Writer.WriteChunks | apps/scan-worker/src/scanner.ts:107-120 | Resumed at any time, the loop extends what was written, makes progress, and writes nothing after the end. |
| ClamStream.Writer.WrittenIsPrefix | apps/scan-worker/src/scanner.ts:76-126 | At every moment a prefix of the ideal stream has been written; finished, it decodes to the upload, and before that it does not end. |
| ClamStream.ReadFrames | apps/scan-worker/src/scanner.ts:76-80 | Decoding the frames gives the bytes back. |
| ClamStream.NoEarlyEnd | apps/scan-worker/src/scanner.ts:76-120 | No strict prefix of the stream decodes: there is no zero-length frame before the terminator. |
| Redactor.ConfiguredRanges | apps/anchor-worker/src/redact-urls.ts:151-170 | A position is in the ranges if and only if an occurrence that starts before the cut covers it; ranges are sorted, disjoint and not touching. |
| Redactor.CutTailAt | apps/anchor-worker/src/redact-urls.ts:213-236 | The tail is cut before the longest start of a secret it ends in, and nowhere if it ends in none. |
| Redactor.Mask | apps/anchor-worker/src/redact-urls.ts:314-331 | The kept characters are exactly those before the cut outside the ranges, in order; putting the ranges and the cut tail back for the placeholders, one each, gives the window back; and the cut is that of `CutTailAt`. |
| Redactor.MaskConfigured | apps/anchor-worker/src/redact-urls.ts:314-331 | A character is kept if and only if it lies before the cut and no occurrence covers it. |
| Redactor.PlaceholdersAreApart | apps/anchor-worker/src/redact-urls.ts:172-178 | Two occurrences of placeholders never overlap. |
| Redactor.Bounded | apps/anchor-worker/src/redact-urls.ts:180-188 | The result is a prefix within the bound, splits no placeholder, and gives up less than the longest one. |
| LedgerSweep.Sweep.Run | apps/jobs-worker/src/evidence-ledger.ts:16-55 | A sweep attempts the next page, or the first when none is left, and moves the cursor past it whichever projects fail. |
| LedgerSweep.AboveIsWhere | apps/jobs-worker/src/evidence-ledger.ts:22-28 | The page is taken from exactly the ids above the cursor. |
| LedgerSweep.FairFromFreshStart | apps/jobs-worker/src/evidence-ledger.ts:13-56 | From a fresh start, any ceil(n / batch) consecutive sweeps attempt every project exactly once. |
| LedgerSweep.FairFromAnyCursor | apps/jobs-worker/src/evidence-ledger.ts:13-56 | From any cursor with m projects above it, every project is attempted within ceil(m / batch) + ceil(n / batch) sweeps. |
| LedgerSweep.NoRepeatInASweep | apps/jobs-worker/src/evidence-ledger.ts:29-34 | One sweep attempts no project twice. |
| RateLimitBucket.BucketIsPrefix | apps/api/src/account-crypto.ts:60-74 | For addresses in hex groups the bucket spells the first 64 bits, whatever the compression, case, leading zeros or zone. |
| RateLimitBucket.SameBucketIffSamePrefix | apps/api/src/account-crypto.ts:60-74 | Two such addresses share a bucket if and only if they share their first 64 bits. |
| RateLimitBucket.MappedCountsAsItself | apps/api/src/account-crypto.ts:61-63 | An IPv4 address counts as itself, mapped into IPv6 or not, in any letter case of the prefix. |
| RateLimitBucket.DottedTailIsRightIff | apps/api/src/account-crypto.ts:65-69 | With a dotted tail after a compression the bucket is the true /64 if and only if the displaced groups are zero. |
| RateLimitBucket.DottedTailCanBeWrong | apps/api/src/account-crypto.ts:65-69 | An address with a dotted tail whose bucket is not that of its first 64 bits. |
| RateLimitBucket.DottedInFullIsRight | apps/api/src/account-crypto.ts:60-74 | With six groups before it a dotted tail leaves the bucket right. |

## Left out

- The anchor and outbox workers are transition systems on values, because their properties are about interleavings; only `settleSends`, the
  scan row, the sweep, the stream writer, the serializer and the tree code are also written as methods that update state.
- SpendCap.DailyCapHolds: leaves out sends adopted from other signers, legacy rows without a gas limit and operator settlements; it needs one
  worker for the read order of the code, as `CapHoldsExactly` proves, and does not count gas of hashes settled as consumed, which
  `RecordedCapHoldsExactly` does.
- AnchorSafety.MovedBatchIsNeverStored: assumes that the row's own moves accepted no receipt that was not final; in the order of the code they
  can, and `MovesAreSafeExactly` says when they cannot.
- AnchorSafety.MovedHashesAreHarmless: under the same assumption on the one move.
- Tracking.ConfirmedIsForGood: under the same assumption on the row's own confirmation, and only with a finality tag.
- JcsGraph.PrintsItsTree: leaves out graphs with array holes, which print but have no tree, as `PrintsATreeExactly` says.
- LogSearch.FindSubmissionHash: assumes truthful range answers.
- Leaf.InclusionSound: a leaf has exactly its nine fields; extra properties of a JavaScript object would be hashed too.
- Merkle.GetMerkleProof: takes any tree with a bottom layer, as the code does.
- Redactor.Mask: patterns are known by their matches and the tail's lower case is the platform's; the URL class, `maskUrl`, `secretParts` and
  `contextParts` are not modelled.
- RateLimitBucket.BucketIsPrefix: whether a text is an IPv4 or IPv6 address is the platform's answer, taken as a parameter.
- A row without a batch to submit, which fails at its claim; a root on the chain that is not the row's, which goes to a person.
- Claim order and fairness, retry delays, `checked_at` rotation, heartbeats, logs, error texts and metrics.
- Safe service calls and EIP-712: proposals are open, executed or rejected.
- The manifest of an export package other than its anchor proofs.
- `createLedgerSweepRunner`, `parseClamResponse`, `validateReplayInput` and the replay plan: one-branch logic.
