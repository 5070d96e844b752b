# A verified model of the ReserveOS node core

The project models the ledger-and-consensus core of the ReserveOS node in Dafny and proves what it
keeps over every run: which chain it follows, what its ledger holds after a reorganisation, when a
checkpoint is final, how the mempool is drained, what the fetch queue may lose or duplicate, and
what its encodings and its arithmetic preserve.

`dafny verify dfyconfig.toml` checks the whole project.

## How it is built

- `Storage.Db` is the key-value database: one field per key prefix. The routines that read and
  write it are methods over a `Db`; each is proved against a function on plain values, and the
  theorems are about those functions.
- The ledger is a pair of finite maps in which a missing key reads as zero. `LedgerSpec` holds one
  interpreter for the two simulations (`RunTxs`) and one for the database engine (`DbTxs`, which
  also says what a failed run leaves behind).
- Functions that code and theorems share are themselves held to laws on raw fields: every account's gain
  (`Accounts`), hash bytes against target bytes (`Pow.MeetsTargetIff`), slashing marks and weights
  (`Finality.QuorumIff`), the fork verdict (`ForkReplay.ForkVerdictIff`), fees per byte
  (`Mempool.DrainPays`), byte layouts (`Codec.CanonicalLayout`).
- Runs are sequences of events; the theorems quantify over all of them: `BlockSubmission` (blocks and
  anchors), `Finality` (votes and finalisation attempts), `JointFinality` (blocks, votes, synced headers
  and reorganisations), `SyncQueue` (interleaved worker steps).
- Header hash, difficulty rule, signature checks and transaction ids are given functions. The header
  hash is assumed free of collisions (`HeaderCodec.HeaderBytesIff`: only the hash function itself could
  collide); the Merkle theorem assumes that only of the strings it hashes.
- Clock readings, the snapshots on disk and the genesis allocations are parameters.

## Results, in short

- **Reorganising is replaying** (`Reorg.ReorgEqualsReplay`), and exactly when the replayed blocks are
  the new tip's ancestry (`Reorg.ReplayedBlocksAreAncestryIff`).
- **Heaviest anchored chain** over every run from genesis (`BlockSubmission.HeaviestAnchoredChain`).
- **Switching index and tip is exact and all-or-nothing** (`ForkChoice.TrySwitchMainChain`,
  `BlockSubmission.SwitchIff`, `BlockSubmission.SwitchIndexExact`).
- **Finality**: accountable intersection (`Finality.ConflictIsAccountable`) and irreversibility
  (`Finality.FinalityIrreversible`), and exactly when fork choice and reorganisations respect it
  (`JointFinality.StaysIff`, `MainChain.ReorgKeepsFinalisedIff`, `JointFinality.FinalisedStays`).
- **Ledger**: the engines agree (`EngineAgreement.EnginesAgree`, `AgreesIff`, `CoinbaseAgreesIff`),
  every account moves by what the transactions say (`Accounts.RunLaw`, `Accounts.DbRunLaw`), what is paid to
  a one-time key can be claimed (`Accounts.PayThenClaim`), value is conserved
  (`Conservation.ReplayConserves`), stored spends are authorised
  (`BlockSubmission.StoredTransactionsAreAuthorised`), screened runs replay nothing and rebuild to the
  ledger they were screened on (`FastPath.AncestryIsReplayFree`, `FastPath.HarmlessRunReplays`),
  assembled blocks are valid (`BlockAssembly.AssemblySound`).
- **Mempool** (`PoolSpec.DrainTakesLanes`, `Mempool.DrainPays`), **fetch queue** (`SyncQueue.InFlightBound`,
  `InFlightBoundReached`, `DistinctIff`), **codec and Merkle root** (`Codec.SigningBytesIff`,
  `MerkleRoot.RootFixesTransactions`), **targets and work** (`Pow`), **locator** (`Locator`),
  **payout** (`Payout`).

## Where the code falls short of what it says

Each of these is proved of the model as the code stands: the runs or inputs on which it happens, and the
exact condition under which it does not. `Witness` gives an environment in which the assumptions of the
theorems hold, and `Scenarios` plays the runs in it.

- The fast path of `SubmitBlock` moves the tip without applying the block, so the next block is judged on
  a stale ledger. It fits the tip only after blocks without spends (`FastPath.FastPathFitsIff`); otherwise
  the same transfer is accepted again (`FastPath.SameTransactionsAgain`, `Scenarios.SpendTwice`). A block
  taken this way replays nothing if and only if the ledger's nonce of each sender covers what the sender
  spent in the ancestry (`FastPath.FastPathReplayFreeIff`); over runs of tip extensions, if and only if no
  account spends in two blocks (`FastPath.ExtendingRunReplayFreeIff`). Fork validation enforces just that:
  nothing is replayed, and no account can spend a second time (`FastPath.LinearRunReplayFree`,
  `FastPath.LinearRunSpendsOnce`).
- The transaction root is not compared with the transactions. A stored block keeps its transactions if and
  only if no block with its header and others is submitted (`BlockSubmission.StoredBlocksKeptIff`); such a
  block is accepted, nothing else shows, and a later rebuild runs the new transactions
  (`FastPath.RewrittenReplay`, `Scenarios.BlockRewritten`).
- A block that the fast path refuses is stored all the same, and its first heavier child brings it into the
  main chain (`BlockSubmission.RefusedIsAdopted`, `Scenarios.RefusedThenAdopted`; exactly when:
  `BlockSubmission.TipAcceptedIff`, over runs `BlockSubmission.AcceptedThroughoutIff`).
- Storing a block that loses the fork choice takes over its height in the index. The index goes on
  following the tip if and only if the block is above it or on its chain (`MainChain.SubmitFollowsIff`);
  otherwise a later rebuild runs the losing block (`MainChain.DisplacedReplay`, `Scenarios.RivalDisplaces`).
- A switch discards the result of its rebuild: it goes through with a partly replayed ledger when a block
  of the new branch does not apply (`MainChain.SwitchRebuildsLedger`, `Scenarios.SwitchWithoutLedger`).
- `trySwitchMainChain` reads the anchor under `meta:finalized_*`; `TryFinalizeHeight` and the
  reorganisation use `finality:finalized_*`. A submission leaves the tip on a block of its chain if and only
  if it does not overtake the tip on a branch that has the anchor and not that block
  (`JointFinality.SubmissionLeavesIff`); lying on the anchor's ancestry shields a finalised block from it
  (`JointFinality.CoveredIsNeverAbandoned`), and otherwise it can be left (`Scenarios.FinalisedAndAbandoned`).
- The reorganisation is meant to be safe for finalised blocks, and compares heights and the index, never the
  finalised hash. It leaves the tip on the finalised block if and only if the fork point descends from it,
  which with a linked index means that the index holds it (`MainChain.ReorgKeepsFinalisedIff`). A losing block
  that took over the finalised height is enough: the check passes, and the tip leaves the finalised block
  (`Scenarios.FinalisedAndReorganised`). Over runs of all these events: `JointFinality.StaysIff`, and for
  finalised blocks `JointFinality.FinalisedStays`.
- The registry path of `tryFinalizeHeight` adds the total weight once per matching vote. With a
  threshold above one half it finalises only on a single matching vote that reaches the threshold
  alone; a unanimous vote of two or more does not finalise (`RegistryFinality.RegistryReachedIff`,
  `UnanimityDoesNotFinalise`). It also overwrites the anchor without looking at its height; the
  fork-choice invariant survives that exactly when the new anchor lies on the tip's chain and lets in
  no accepted block that outweighs the tip (`BlockSubmission.AnchorMovesIff`, `Scenarios.LoweredAnchor`).
- A reorganisation leaves tip work and index behind. The fork-choice invariant survives it if and only if
  the new tip has the old tip's work and the anchor (`MainChain.ReorgKeepsInvIff`, `ReorgFollowsIff`); after
  it the next submission chooses the wrong chain if and only if its work lies between the recorded and the
  true work of the tip (`MainChain.StaleWorkMisleadsIff`, `ReorgThenExtendIff`). It happens that a lighter
  chain takes the tip (`Scenarios.ReorgLeavesWork`, `Scenarios.LighterTakesTip`), and that only the ledger
  moves, to a block the tip does not descend from (`Scenarios.ReorgRewinds`).
- The basic rules do not look at the sign of an amount (`EngineAgreement.NegativeOutputSplitsTheEngines`;
  exactly which spends are safe: `AgreesIff`).
- Mining sorts a drained nonce lane by fee before checking nonces: a beginning of it survives, the whole
  exactly when its fees do not rise, and what is dropped is gone from the in-memory pool
  (`Mining.MinedLaneSurvivesIff`, `Mining.RisingFeesDrop`).
- A genesis file may ask for up to 255 leading zero bits; from 240 on no hash meets the encoded target
  (`Pow.GenesisMineableIff`). `BigToCompact` re-encodes faithfully from 2^24 on only
  (`Pow.ReencodeIff`). `Work64` is monotone on the targets of one byte length and on those of no two
  (`Pow.WorkMonotoneIff`).
- Lists of transactions of different lengths can have the same root: exactly when the lists padded by the
  repetitions of the odd levels are equal (`MerkleRoot.PaddedRootIff`).
- The worker's check, pop and add are separate steps: the in-flight limit can be exceeded by one less
  than the number of workers, and a hash can be fetched twice (`SyncQueue.SplitFetchDuplicates`; exactly
  when: `DistinctIff`).
- The mempool's byte limit is not applied to replacements (`Mempool.BytesStayWithinIff`,
  `ReplacementOverfills`).

The payout conserves value among registered participants, whose weight is never below one
(`Payout.RegisteredPayoutConserves`). A listing whose last entry has no weight would lose the rounding
remainder (`PayoutConservesIff`), but registration does not produce one.

## Model

| member | source | states |
|---|---|---|
| `Storage.AddBalance` | core/state/state.go:26-40 | adds, or refuses and leaves the ledger alone if the result would be negative; so the clamp in SetBalance is never taken from here |
| `BlockRules.ValidateBlockBasic` | core/node/block_validate.go:16-59 | accepts exactly the blocks with one well-formed coinbase in front (issuance on) or none (off), and signed, fee-paying spends elsewhere |
| `BlockRules.CheckSpend` | core/node/block_validate.go:38-58 | accepts exactly the spends that meet the fee policy and carry sender, key, signature and, for a claim, a matching signed claim |
| `BlockRules.ValidateLimits` | core/node/limits_validate.go:8-15 | accepts exactly the blocks within the configured counts and size |
| `BlockRules.FeePolicy` | core/economics/fees/fees.go:30-47 | the policy fee is base fee plus fee per byte of 180 bytes and 80 per output, times the multiplier for one-time outputs, twice in defense, four times in containment, and never below the base fee, for parameters that are not negative |
| `BlockRules.BlockSizeIs` | core/chain/block.go:66-70 | the estimated block size is 256 bytes, 128 per transaction and 64 per output |
| `Simulation.ValidateBlockStateTip` | core/node/block_validate.go:74-138 | decides as the reference interpreter on the database's ledger, and then the overlay over the database is exactly the resulting ledger |
| `Simulation.OverlaySpend` | core/node/block_validate.go:103-138 | one spend through the memoising overlays is one step of the reference interpreter, with the same error |
| `Simulation.ApplyBlockToSim` | core/node/block_validate_fork.go:60-96 | accepts exactly the blocks within limits and rules that the reference interpreter accepts, with exactly its ledger; so it and the tip simulation agree |
| `Simulation.SimStep` | core/node/block_validate_fork.go:66-94 | one transaction on the self-contained maps is one step of the reference interpreter |
| `StateApply.ApplyBlockTxs` | core/node/state_apply.go:11-50 | applies in order, stops at the first write that would go negative, and leaves exactly what was written until then |
| `StateApply.ApplyTx` | core/node/state_apply.go:13-46 | one transaction of the database engine, with the ledger it leaves when it fails |
| `Accounts.StepLaw` | core/node/block_validate_fork.go:66-94 | a spend is accepted if and only if its nonce is next and the payer, sender or claimed bucket, has amount and fee; then every account moves by what addresses, one-time keys, amounts and fee say, and the sender's nonce by one |
| `Accounts.DbLaw` | core/node/state_apply.go:13-46 | whatever the database applies moves every account by the same rule and records the transaction's nonce |
| `Accounts.RunLaw` | core/node/block_validate_fork.go:60-96 | over any accepted sequence every balance moves by the sum of what its transactions say |
| `Accounts.DbRunLaw` | core/node/state_apply.go:11-50 | and over any sequence the database applies |
| `Accounts.KeyIsPaid` | core/node/state_apply.go:38-46 | an accepted transfer raises the bucket "otap:" and p by exactly the amounts sent to key p without an address, in the simulations and in the database |
| `Accounts.PayThenClaim` | core/node/block_validate_fork.go:73-94 | a claim after a payment to its key is accepted if and only if its nonce is next and amount and fee are within what the bucket held and was paid; it credits the beneficiary |
| `Accounts.DbPayThenClaim` | core/node/state_apply.go:13-46 | the same in the database, which looks at balances and not at nonces |
| `EngineAgreement.AgreesIff` | core/node/state_apply.go:22-46 | on every non-negative ledger where the simulations accept a spend the database does the same, if and only if the spend never overdraws an account it credits (or has nonce zero) |
| `EngineAgreement.CoinbaseAgreesIff` | core/node/state_apply.go:27-46 | a one-output coinbase means the same to simulations and database on every ledger if and only if it names an address and no sender and its amount is not negative |
| `EngineAgreement.EnginesAgree` | core/node/state_apply.go:11-50 | whatever sequence of safe transactions a simulation accepts, the database applies without insufficient funds and ends in the simulated ledger, without negative balances |
| `EngineAgreement.SafeChainReplays` | core/node/reorg.go:50-56 | a chain of blocks of safe transactions that the simulations accept one on the ledger of the other is replayed by the database without failure, to the same ledger |
| `EngineAgreement.ValidBlocksAgree` | core/node/block_validate.go:74-138 | the same for every block that passed the basic rules, with non-negative amounts and a plain coinbase |
| `EngineAgreement.NonNegativeAmountsSuffice` | core/node/block_validate.go:125-137 | non-negative amounts never overdraw |
| `EngineAgreement.NegativeOutputSplitsTheEngines` | core/node/block_validate.go:34-59 | a block of one signed, fee-paying transfer of a negative amount passes the basic rules and the simulations, and the database refuses it |
| `EngineAgreement.BlockConserves` | core/node/block_validate.go:94-138 | an accepted block changes the sum of all balances by coinbase outputs less fees less outputs without destination |
| `EngineAgreement.ComputeSumFees` | core/node/block_validate.go:152-159 | the fees of all transactions but coinbases, the quantity in the conservation law |
| `Conservation.ReplayConserves` | core/node/state_apply.go:11-50 | over any chain of blocks the database engine changes the sum of all balances, OTAP buckets included, by exactly what is issued and burned; and never leaves a negative balance, even when it fails |
| `NonceOrder.ChainNoncesConsecutive` | core/node/block_validate_fork.go:49-57 | over any chain of blocks each run on the ledger the previous one left, as the fork replay does, an account's nonces are exactly the numbers after its starting nonce, in order |
| `NonceOrder.NoReplay` | core/node/block_validate_fork.go:49-57 | along such a chain, of two spends of one sender the later has the higher nonce, so no pair of sender and nonce occurs twice |
| `NonceOrder.AppendReplayFreeIff` | core/node/block_validate.go:103-110 | a block that runs on a ledger, appended to an ancestry the ledger need not have seen, replays nothing if and only if the ancestry did not and the ledger's nonce of every sender is at least each nonce it used there |
| `NonceOrder.StaleReplayFreeIff` | core/node/block_validate.go:103-110 | blocks all judged on one ledger replay nothing if and only if no account spends in two of them |
| `FastPath.FastPathFitsIff` | core/node/node.go:1352-1365 | the fast path leaves the ledger alone, which fits the new tip if and only if the block holds no spend and mints nothing to a listed account |
| `FastPath.BlockLeavesLedgerIff` | core/node/block_validate.go:94-138 | running an accepted block changes nothing exactly for such blocks, with issuance on or off |
| `FastPath.SameTransactionsAgain` | core/node/node.go:1352-1365 | every admissible child of an accepted tip with the same transactions becomes the tip in turn, and the ledger has seen neither |
| `FastPath.FastPathReplayFreeIff` | core/node/node.go:1352-1365 | after the fast path the tip's ancestry is free of replays if and only if it was before and the untouched ledger's nonce of every sender covers what the sender spent in it |
| `FastPath.ExtendingRunReplayFreeIff` | core/node/node.go:1352-1365 | over every run from genesis in which connecting blocks extend the tip, under any configuration, the tip's ancestry is free of replays if and only if no account spends in two of its blocks |
| `FastPath.ScreenedRuns` | core/node/block_validate_fork.go:13-58 | a block whose parent chain is indexed and within reach is admitted by the fork validation only if its whole ancestry runs with it on top |
| `FastPath.AncestryIsReplayFree` | core/node/node.go:1281-1375 | in every run from genesis in which each block that moves the tip was so screened and no block of the tip's ancestry is rewritten, the tip's ancestry runs block by block from genesis and no sender uses a nonce twice in it |
| `FastPath.LinearRunReplayFree` | core/node/node.go:1286 | with fork validation on and truthful snapshots that covers every run in which each connecting block extends the tip, whatever is submitted |
| `FastPath.LinearRunSpendsOnce` | core/node/node.go:1286 | and in such runs no account ever spends in two blocks |
| `FastPath.ScreenedNonces` | core/node/node.go:1352-1353 | a screened block that the fast path takes finds the same nonce of each sender in the replayed and in the recorded ledger; a sender still at its genesis nonce occurs nowhere in the ancestry |
| `FastPath.RewrittenReplay` | core/node/node.go:1335-1338 | a block with the header of one on the tip's chain and other transactions is accepted, tip, tip work and index stay, and a rebuild runs the ancestry with the new transactions in that place |
| `FastPath.HarmlessRunReplays` | core/node/reorg.go:50-56 | in every run as for AncestryIsReplayFree the database replays the tip's ancestry of safe transactions without failure, to the ledger it was screened on |
| `FastPath.ScreenedSwitchFits` | core/node/forkchoice.go:51-53 | a screened block of safe transactions that overtakes the tip leaves the node with exactly the ledger of its own chain; the discarded rebuild does not fail |
| `BlockAssembly.FilterTxsBySimState` | core/node/block_assemble.go:11-84 | sorts by fee and id, and keeps greedily what is valid on the database's ledger as changed by what was kept; the memoised reads make no difference |
| `BlockAssembly.SortByFee` | core/node/block_assemble.go:30-33 | a permutation of the input, in the order of higher fee and then smaller id |
| `BlockAssembly.InOrderMeans` | core/node/block_assemble.go:30-33 | in that order fees never rise, and for equal fees the later id does not precede the earlier |
| `BlockAssembly.LexLessIff` | core/node/block_assemble.go:30-33 | an id precedes another if and only if it is smaller at the first difference or a proper beginning |
| `BlockAssembly.GreedyAppend` | core/node/block_assemble.go:35-82 | one more transaction is kept if and only if it is accepted after all that was kept before it |
| `BlockAssembly.RunShift` | core/node/block_assemble.go:35-82 | extra starting balance never invalidates a valid sequence and is carried through unchanged |
| `BlockAssembly.GreedyFixpoint` | core/node/block_assemble.go:35-82 | filtering is idempotent, and drops nothing exactly from the inputs the block simulation accepts |
| `BlockAssembly.AssemblySound` | core/node/node.go:1509-1519 | whatever the filter keeps, with any one-output coinbase of non-negative amount in front, passes the block simulation, and the coinbase leaves its whole amount behind |
| `Ancestry.GetAncestorHashAtHeight` | internal/reservestorage/header_ancestors.go:8-19 | the walk down parent pointers finds the ancestor at a height, if it is stored |
| `Ancestry.PathIsAncestry` | core/node/reorg_best.go:92-108 | the ascending path agrees with the ancestor lookup at every height, ends in the tip and is parent-linked |
| `StateReplay.PickSnapshot` | core/node/reorg.go:26-36 | the highest snapshot at or below the target, the later listed on a tie |
| `StateReplay.PickIsHighest` | core/node/block_validate_fork.go:98-107 | none is picked exactly if all are above the target; otherwise a listed one that no other at or below the target exceeds |
| `StateReplay.PickIsLast` | core/node/block_validate_fork.go:98-107 | of several of the greatest height the one listed last is picked |
| `StateReplay.ApplyStateUpTo` | core/node/reorg.go:24-58 | the ledger is the replay of the indexed blocks above the chosen snapshot, or above genesis; stops where a block is missing or does not apply |
| `StateReplay.RebuildStateToHeight` | core/node/reorg.go:12-21 | refuses targets below the finalised height without touching the ledger; otherwise rebuilds |
| `StateReplay.RebuildStateFromFinalized` | core/node/state_apply.go:52-86 | replays to the tip from the last listed snapshot, whatever its height, or from summed genesis allocations |
| `StateReplay.SnapshotChoiceIrrelevant` | core/node/reorg.go:24-58 | whichever truthful snapshot is picked, the rebuild ends where a replay from genesis does, success or failure |
| `StateReplay.GenesisWaysAgree` | core/node/reorg.go:45-47 | setting and summing the allocations give the same ledger when no address is listed twice |
| `StateReplay.FundedReads` | core/node/block_validate_fork.go:42-44 | funding adds to every balance what is allocated to it |
| `StateReplay.GenesisReads` | core/node/reorg.go:45-47 | genesis holds what is allocated, if no address is listed twice |
| `ForkReplay.ValidateBlockStateOnMainParent` | core/node/block_validate_fork.go:13-58 | a block on a main-chain parent within reach is judged on the replayed ledger; any other passes |
| `ForkReplay.ForkVerdictIgnoresSnapshots` | core/node/block_validate_fork.go:26-57 | with truthful snapshots the verdict is the one a replay from genesis gives |
| `ForkReplay.ForkVerdictIff` | core/node/block_validate_fork.go:13-58 | with fork validation on, a parent indexed one below and within the replay limit under the tip, an index without gaps and truthful snapshots: the block passes if and only if it and all indexed blocks up to the parent keep limits and rules and run one on the other from genesis |
| `ForkReplay.UnjudgedPasses` | core/node/block_validate_fork.go:14-24 | every other block passes unjudged |
| `ForkReplay.SimStartReads` | core/node/block_validate_fork.go:26-44 | the replay starts on the picked snapshot, with the allocations added unless its height is above zero |
| `ForkChoice.TrySwitchMainChain` | core/node/forkchoice.go:12-54 | from any index contents: succeeds exactly when the walk back from the new tip meets the anchor; then index and tip are those of the new chain and the ledger is what the rebuild left, whether or not that went through; otherwise nothing changed; a block is reported missing only if the walk breaks |
| `ForkChoice.CollectPath` | core/node/forkchoice.go:23-39 | collects the path of parents down to the anchor's height, with every error case |
| `ForkChoice.RewrittenAt` | core/node/forkchoice.go:45-50 | heights from the anchor's on hold the path, lowest first, and every other height is as it was |
| `BlockSubmission.SwitchIff` | core/node/forkchoice.go:23-43 | among stored trees a switch succeeds if and only if the block descends from the anchor; no block on the way is ever missing |
| `BlockSubmission.SwitchWithoutAnchorIff` | core/node/forkchoice.go:13-21 | without a stored anchor a switch succeeds if and only if the chain has the indexed genesis block |
| `BlockSubmission.SwitchToZeroIff` | core/node/forkchoice.go:23-43 | a switch to height zero below the anchor succeeds if and only if it is to the anchor's own stored hash |
| `BlockSubmission.SwitchIndexExact` | core/node/forkchoice.go:45-51 | after a switch each height from anchor to tip is indexed to the tip's ancestor there, the anchor first, all others as before |
| `BlockSubmission.SubmitBlock` | core/node/node.go:1281-1375 | the database afterwards, and the verdict, are those of the transition function Submit |
| `BlockSubmission.StoreBlock` | core/node/node.go:1335-1348 | stores block, height index, header and saturated work, and nothing else |
| `BlockSubmission.AdvanceTip` | core/node/node.go:1352-1365 | moves tip, tip work and index exactly if the simulation accepts; the ledger is not touched |
| `BlockSubmission.EnsureGenesisStored` | core/node/node.go:1245-1279 | a first start stores genesis as block, tip and anchor with its own work; a later one changes nothing and fails exactly on another chain's record |
| `BlockSubmission.ChainWorkIsCappedSum` | core/consensus/pow/work.go:34-40 | saturating at every step equals capping the true sum along the ancestry |
| `BlockSubmission.SubmitKeepsInv` | core/node/node.go:1281-1375 | one submission of any block keeps the tree, the tip and the heaviest-chain invariants; anchor unchanged, tip work never falls |
| `BlockSubmission.AnchorMovesIff` | core/node/node.go:1446-1447 | storing any anchor, higher or lower, keeps the invariant if and only if it lies on the tip's chain and lets in no accepted block that outweighs the tip |
| `BlockSubmission.RaisedAnchor` | core/node/node.go:1446-1447 | an anchor raised along the tip's chain lets nothing new in |
| `BlockSubmission.RunKeepsInv` | core/node/node.go:1281-1375 | the invariant over any run of submissions and allowed anchor moves; tip work never falls |
| `BlockSubmission.HeaviestAnchoredChain` | core/node/node.go:1367-1374 | in every run from genesis: one tree under genesis with height one above the parent, work the capped sum along the ancestry, tip work that of the tip, tip descends from the anchor, no accepted block descending from the anchor has more work |
| `BlockSubmission.StoredBlocksAreVetted` | core/node/node.go:1282-1293 | in every run each stored block but genesis is of this chain, within limits and rules, with a hash that meets its target |
| `BlockSubmission.StoredTransactionsAreAuthorised` | core/node/block_validate.go:16-59 | in every run each transaction of a stored block but genesis is signed and paid for by its sender, or is the one coinbase in front of a block under issuance, of exactly the reward |
| `BlockSubmission.StoredBlocksCameIn` | core/node/node.go:1303-1333 | in every run each stored block was there at the start or came in by a submission that met height, difficulty rule and fork verdict as they stood at that moment |
| `BlockSubmission.StoredBlocksKeptIff` | core/node/node.go:1335-1338 | a submission keeps every stored block as it was if and only if it does not land with a stored block's header and other transactions |
| `BlockSubmission.OverwritingIsAccepted` | core/node/node.go:1367-1374 | one that does so on the tip's chain is stored and accepted, and does not move the tip |
| `BlockSubmission.SubmitTip` | core/node/node.go:1350-1374 | whatever tip work is recorded and wherever the anchor is, the tip moves, to the submitted block, if and only if the block extends it and runs on the ledger, or outweighs the recorded tip work on a chain that has the anchor |
| `BlockSubmission.RefusedIsAdopted` | core/node/node.go:1352-1353 | a block the fast path refuses is stored, and any admissible child that outweighs the tip becomes the tip with the refused block as parent |
| `BlockSubmission.TipAcceptedIff` | core/node/node.go:1350-1374 | the tip's chain goes on consisting of accepted blocks if and only if the submission does not overtake the tip on top of a refused one |
| `BlockSubmission.AcceptedThroughoutIff` | core/node/node.go:1350-1374 | over every run of submissions and anchors, throughout, if and only if no submission does |
| `BlockSubmission.WorkStrictlyGrows` | core/consensus/pow/work.go:9-31 | every vetted child has strictly more total work than its parent |
| `MainChain.FollowingIsAncestry` | core/node/forkchoice.go:45-51 | an index that follows the tip is linked and lists exactly the tip's ancestry |
| `MainChain.SwitchFollows` | core/node/forkchoice.go:45-51 | a switch makes the index follow the new tip from the anchor up, and from height one if it followed the anchor below |
| `MainChain.SwitchRebuildsLedger` | core/node/forkchoice.go:51-53 | with any snapshots of which the last is truthful and not above the tip, the discarded rebuild is the replay from genesis along the new tip's ancestry, success or failure; so the ledger is the whole replay if and only if every block applies |
| `MainChain.SubmitFollowsIff` | internal/reservestorage/blocks.go:19-28 | over any submission the index goes on following the tip if and only if the block does not lose the fork choice at or below the tip's height off its chain |
| `MainChain.StoredFollowsIff` | internal/reservestorage/blocks.go:19-28 | storing a block leaves the index following a tip if and only if the block is above it or on its chain |
| `MainChain.DisplacedReplay` | core/node/reorg.go:50-56 | after such a displacement a rebuild to the tip's height replays the tip's ancestry with the losing block in place of the one it displaced |
| `MainChain.ReorgKeepsInvIff` | core/node/reorg_best.go:48-59 | a successful reorganisation leaves tip work and index; the fork-choice invariant survives if and only if the tip stayed, or the header tip has the old tip's work and descends from the anchor |
| `MainChain.StaleWorkMisleadsIff` | core/node/node.go:1367-1372 | of tip and submitted block the heavier one ends up as the tip, if and only if the block's work does not lie between the recorded and the true work of the tip |
| `MainChain.ReorgThenExtendIff` | core/node/node.go:1355-1356 | a block on the new tip brings the invariant back if and only if it descends from the anchor and has caught up with the old tip's work |
| `MainChain.ReorgFollowsIff` | core/node/reorg_best.go:48-59 | and the index follows the new tip if and only if it already held the replayed path |
| `MainChain.ReorgKeepsFinalisedIff` | core/node/node.go:1548-1560 | any attempt that applies a block leaves the fork point at or above the finalised height, and the tip on the finalised block if and only if the fork point descends from it; with a linked index, if and only if the index holds that hash |
| `MainChain.ReorgLeavesIff` | core/node/reorg_best.go:43-59 | over any attempt, successful or not, the tip stays on a block of its chain if and only if nothing is applied, or the block lies on the fork point's ancestry or the applied path |
| `Reorg.FindForkPoint` | core/node/reorg_best.go:65-90 | the highest height up to the current tip at which header chain and main chain have the same block, or zero; fails if and only if there is none and the header chain is broken above genesis |
| `Reorg.BelowForkPointShared` | core/node/reorg_best.go:65-90 | at every height up to the fork point the header chain's ancestor is the indexed block |
| `Reorg.HeaderPathFromTo` | core/node/reorg_best.go:92-108 | exactly the ascending linked path, or an error if a header on it is missing |
| `Reorg.ReverseInPlace` | core/node/reorg_best.go:106 | the two-pointer swap reverses the sequence |
| `Reorg.BlockMatchesStoredHeader` | core/node/block_header_match.go:11-26 | passes exactly if the header stored under the block's hash agrees in height, parent, bits, time and root |
| `Reorg.MismatchIff` | core/node/block_header_match.go:11-26 | a block is refused if and only if its stored header is missing or differs in height, parent, bits, time or root |
| `Reorg.EnforceFinalizedOnCandidate` | core/node/node.go:1548-1560 | refuses exactly a candidate whose stored ancestor at the finalised height is not the indexed block |
| `Reorg.PermittedIff` | core/node/node.go:1548-1560 | a candidate passes if and only if nothing above genesis is finalised, that height is not indexed to a stored block, or the candidate's ancestor there is missing or the indexed one |
| `Reorg.ApplyPath` | core/node/reorg_best.go:48-59 | applies the path's blocks in order as long as each is stored, matches its header and applies; success or failure, ledger and tip are those of the blocks applied |
| `Reorg.CollectAbandoned` | core/node/reorg_best.go:32-41 | exactly the spends of the readable abandoned blocks, in order |
| `Reorg.AbandonedLaw` | core/node/reorg_best.go:32-41 | handed back are the transactions of the readable abandoned blocks other than coinbases, in order, each as often as it occurs |
| `Reorg.ReorgToBestHeaderChain` | core/node/reorg_best.go:12-63 | without header tip an error and no change; on it already no change; otherwise it succeeds if and only if finalised block, fork point, rebuild and every block of the path allow it, and then left at the fork point, not below the finalised height, and replayed the header path; success or failure, only tip and ledger change, to what the blocks applied leave |
| `Reorg.ReplayedBlocksAreAncestryIff` | core/node/reorg_best.go:43-59 | the blocks run are the new tip's ancestry if and only if the index is linked up to the fork point |
| `Reorg.ReorgEqualsReplay` | core/node/reorg_best.go:12-63 | after success the ledger is exactly the replay from genesis along the header tip's ancestry, whichever truthful snapshot was picked; the indexed blocks up to the fork point, which is not below the finalised height, stay; the tip is the header tip if that is above the fork point |
| `Finality.TryFinalizeHeight` | core/node/finality_weighted.go:10-46 | the outcome is a function of registry, votes and finalised height, whatever the iteration orders: the quorum hash above the finalised height becomes final, otherwise nothing changes |
| `Finality.WeighValidators` | core/node/finality_weighted.go:16-23 | the weights of validators neither slashed nor non-positive, and their sum |
| `Finality.TallyVotes` | core/node/finality_weighted.go:25-30 | for every hash the summed weight of its recorded voters |
| `Finality.Heaviest` | core/node/finality_weighted.go:32-36 | in any visiting order, a hash with the greatest tally |
| `Finality.IngestVote` | core/node/node.go:615-650 | rejects unknown or badly signed votes; a validator's first vote at a height is stored and tried, a second changes nothing |
| `Finality.QuorumsIntersect` | core/node/finality_weighted.go:38 | two quorums under one registry share voters with at least a third of the weight |
| `Finality.QuorumUnique` | internal/reservestorage/finality_votes.go:21-29 | in one store at most one hash has a quorum at a height |
| `Finality.QuorumIff` | core/node/finality_weighted.go:16-39 | on listed weights and slashing marks: a quorum is two thirds of the weight of all validators that are not slashed and have positive weight, held by those of them that voted for the hash |
| `Finality.SlashedVotersDecideNothing` | core/node/finality_weighted.go:19 | a hash for which only slashed or unregistered validators voted has no quorum |
| `Finality.ClearedDecidesAlike` | core/node/finality_weighted.go:19 | removing slashed and weightless entries from the registry changes no quorum and no outcome |
| `Finality.FinalizeIff` | core/node/finality_weighted.go:38-45 | an attempt finalises a hash if and only if the height is above the finalised one and zero and the hash has a quorum |
| `Finality.FinalityIrreversible` | core/node/finality_weighted.go:38-45 | over every interleaving of votes and attempts first votes are never replaced, the finalised height only rises, what is final has and keeps its quorum and no other hash ever gets one at its height |
| `Finality.ConflictIsAccountable` | core/node/finality_weighted.go:10-46 | two fresh nodes that finalise different hashes at a height: validators with at least a third of the weight have a recorded vote for both; none of them is slashed and each has positive weight |
| `JointFinality.OnTipIffOnAnchor` | core/node/forkchoice.go:13-21 | where the tip descends from the anchor, it descends up to the anchor's height from exactly the blocks the anchor descends from |
| `JointFinality.FinalisedStays` | core/node/finality_weighted.go:38-45 | over every run of submissions, votes, synced headers and reorganisations in which votes leave the finalised block under the anchor and the anchor under the tip, and reorganisations lead over the anchor, the finalised block stays on the tip's chain |
| `JointFinality.SubmissionLeavesIff` | core/node/node.go:1367-1374 | after any submission, wherever the anchor is, the tip still descends from a given block of its chain if and only if the submission does not overtake it on a chain with the anchor and without that block |
| `JointFinality.StaysIff` | core/node/node.go:1367-1374 | over every run of submissions, votes, synced headers and reorganisations, successful or not and whatever anchors the votes set, a block stays on the tip's chain throughout if and only if no submission overtakes without it and no reorganisation leads past it |
| `JointFinality.SyncKeepsRooted` | core/node/sync.go:63-75 | storing a synced header with its work changes no stored block's work |
| `JointFinality.CoveredIsNeverAbandoned` | core/node/forkchoice.go:23-43 | no submission takes the tip off what lies on the anchor's ancestry |
| `RegistryFinality.TryFinalizeAnchor` | core/node/node.go:1408-1452 | the anchor becomes the checkpoint exactly when the count passes, at whatever height it stood before |
| `RegistryFinality.CountVotes` | core/node/node.go:1416-1443 | with a registry the total is the number of matching votes times the standing weight, without one the configured total; signed is the weight of verified matching voters |
| `RegistryFinality.HandleVote` | core/node/node.go:615-651 | a posted vote is ingested, tried with the weighted quorum if first, and its hash tried for the anchor either way |
| `RegistryFinality.RegistryReachedIff` | core/node/node.go:1419-1446 | with a registry and a threshold above one half: passes if and only if there is one matching vote and its validator alone reaches the threshold |
| `RegistryFinality.RegisteredReachedIff` | core/node/node.go:1419-1446 | for any threshold and weights, on votes and slashing marks as stored: the verified votes of validators not slashed against the total of those, taken once per matching vote |
| `RegistryFinality.ConfiguredReachedIff` | core/node/node.go:1433-1446 | without a registry the anchor moves if and only if a matching vote is stored and the configured validators with a verified one reach the threshold of all configured weight |
| `RegistryFinality.ConfiguredUnanimityReaches` | core/node/node.go:1433-1446 | so a verified vote of all configured validators moves it, if the threshold is at most one |
| `RegistryFinality.UnanimityDoesNotFinalise` | core/node/node.go:1419-1446 | a verified vote of all validators, two or more, does not pass |
| `RegistryFinality.MatchingVotesBound` | core/node/node.go:1419-1446 | whatever the threshold, no more matching votes than its inverse can pass |
| `RegistryFinality.AnyAnchorReached` | core/node/node.go:1445-1447 | the first vote of a sole registered and configured validator at any height makes any hash the anchor, however low and whatever it voted for elsewhere |
| `Mempool.Mempool.constructor` | core/node/mempool.go:38-43 | starts empty and consistent |
| `Mempool.Mempool.PruneLocked` | core/node/mempool.go:45-59 | drops exactly the entries that have outlived their time, keeping the counters true |
| `Mempool.Mempool.Add` | core/node/mempool.go:61-129 | after pruning, stores the transaction under account and nonce exactly if admitted; counters stay the true count and byte sum, count within the maximum |
| `Mempool.AdmitsIff` | core/node/mempool.go:77-127 | admitted if and only if a sender is named, the nonce is the next or within the allowed gap, and there is room, or the bumped fee of the entry replaced is paid, rounded towards zero |
| `Mempool.Mempool.Drain` | core/node/mempool.go:131-179 | what is taken is a drain run of the pruned pool, up to the cap or until no account has a head; terminates; counters stay true; each transaction taken pays for its size no less than any that could have been taken instead |
| `Mempool.HeadStep` | core/node/mempool.go:158-176 | an entry popped from the queue is the one its account waits for, so the stale-entry skip is never taken; the next entry of its lane takes its place |
| `Mempool.BytesStayWithinIff` | core/node/mempool.go:108-123 | adding keeps the byte limit exactly unless it replaces a smaller entry and the difference does not fit |
| `Mempool.ReplacementOverfills` | core/node/mempool.go:108-116 | two admitted adds from the empty pool that end above the byte limit |
| `PoolSpec.BestExists` | core/node/mempool.go:181-198 | under the heap's order every non-empty queue has a best entry |
| `PoolSpec.HeadsAfter` | core/node/mempool.go:166-176 | taking a head leaves the other heads and adds the account's next entry |
| `PoolSpec.DrainTakesLanes` | core/node/mempool.go:156-178 | per account a drain takes the contiguous entries after its state nonce in order, and all of that run when no head is left |
| `PoolSpec.DrainTakesBestPayers` | core/node/mempool.go:184-189 | whatever is taken has, cross-multiplied, no lower fee for its size than any head at that moment, and for equal rates no lower fee |
| `Mempool.DrainPays` | core/node/mempool.go:156-189 | the same on the drained transactions' own fees and outputs |
| `Mining.LaneSurvivesIff` | core/node/block_assemble.go:30-39 | a lane in nonce order that is affordable survives the filter whole if and only if its fees do not rise along the nonces, equal fees in the order of ids |
| `Mining.LaneKeepsPrefix` | core/node/block_assemble.go:35-82 | whatever the fees, what the filter keeps of a lane is a beginning of it |
| `Mining.MinedLaneSurvivesIff` | core/node/node.go:1509-1512 | both from pool to block: drained, sorted and filtered; and whatever the filter drops has left the in-memory pool too |
| `Mining.RisingFeesDrop` | core/node/node.go:1509-1512 | two admitted spends with rising fees: both drained, the in-memory pool empty, and only the first kept |
| `SyncQueue.SyncManager.SetHeaders` | core/node/sync_manager.go:40-55 | appends in order exactly the new, non-empty hashes |
| `SyncQueue.EnqueueInTurn` | core/node/sync_manager.go:40-55 | hashes are queued in turn, a new one at the end, one that is empty, queued or in flight not at all |
| `SyncQueue.SyncManager.PopPending` | core/node/sync_manager.go:74-81 | takes the first hash, if there is one |
| `SyncQueue.SyncManager.RequeueTimedOut` | core/node/sync_manager.go:255-272 | moves exactly the timed-out hashes, each once, to the front |
| `SyncQueue.InFlightBound` | core/node/sync_manager.go:129-153 | in every interleaving the blocks in flight stay within maximum plus workers less one |
| `SyncQueue.InFlightBoundReached` | core/node/sync_manager.go:129-153 | for every maximum and number of workers some interleaving reaches that bound |
| `SyncQueue.RunLosesNothing` | core/node/sync_manager.go:129-153 | no hash asked for and not cleared is ever lost |
| `SyncQueue.DistinctIff` | core/node/sync_manager.go:40-81 | from a state with every hash in one place, a step breaks that if and only if it announces a hash some worker has popped and not yet added |
| `SyncQueue.AtomicFetchStaysDistinct` | core/node/sync_manager.go:137-143 | with pop and add as one step the queue stays free of duplicates and disjoint from the flight |
| `SyncQueue.SplitFetchDuplicates` | core/node/sync_manager.go:137-143 | as separate steps a reachable state has a hash both queued and in flight |
| `Codec.CanonicalTxBytes` | core/chain/codec.go:21-69 | the appended buffer is the canonical encoding |
| `Codec.CanonicalLayout` | core/chain/codec.go:21-69 | the bytes are the domain tag and the fields in source order, strings after their length, a mark before the claim, signatures empty for signing |
| `Codec.LowByteFirst` | core/chain/codec.go:8-10 | numbers start with their low byte |
| `Codec.RoundTrip` | core/chain/codec.go:21-69 | a decoder inverts the encoding of every transaction that fits its widths, with and without signatures |
| `Codec.SigningBytesIff` | core/chain/tx.go:38-40 | two transactions sign the same bytes if and only if they agree in every field but memo and signatures |
| `HeaderCodec.HeaderRoundTrip` | core/chain/block.go:39-56 | a decoder inverts the header bytes of every header that fits its widths |
| `HeaderCodec.HeaderBytesIff` | core/chain/block.go:39-58 | two headers are hashed from the same bytes if and only if they are the same header |
| `HeaderCodec.HeaderLayout` | core/chain/block.go:39-56 | the bytes hashed are the header's fields in source order |
| `MerkleRoot.TxRoot` | core/chain/txroot.go:5-28 | the level-by-level loop computes the recursive root of the ids |
| `MerkleRoot.SmallRoots` | core/chain/txroot.go:5-28 | the roots of none, one, two and three ids, written out |
| `MerkleRoot.RootIff` | core/chain/txroot.go:13-24 | two lists of ids of whatever lengths have the same root if and only if they stand for the same tree, unless hashed strings collide |
| `MerkleRoot.PaddedRootIff` | core/chain/txroot.go:13-24 | that is, if and only if the lists padded with the repetitions of the odd levels are equal; the padded list begins with the list |
| `MerkleRoot.RootInjective` | core/chain/txroot.go:13-24 | so equally many ids with the same root are the same ids |
| `MerkleRoot.RootFixesTransactions` | core/chain/txroot.go:5-28 | equally many transactions with the same root agree in every signed field, in order, unless something hashed collides |
| `MerkleRoot.RepeatedLastSameRoot` | core/chain/txroot.go:15-20 | for example an odd list above one and the list with its last id repeated, whatever the hash function |
| `Pow.ComputeBigToCompact` | core/consensus/pow/target.go:22-39 | the byte-wise encoder computes BigToCompact |
| `Pow.RoundTripDropsLowBytes` | core/consensus/pow/target.go:8-39 | from 2^24 to 32 bytes decoding an encoded target rounds it down by less than one unit of the last kept byte |
| `Pow.RoundTripMonotone` | core/consensus/pow/target.go:8-39 | and respects the order of targets |
| `Pow.ReencodeIff` | core/consensus/pow/target.go:22-39 | re-encoding gives the same bits if and only if the target is at least 2^24 |
| `Pow.GenesisWorkHasLeadingZeros` | core/chain/genesis_block.go:13-14 | every 32-byte hash meeting the genesis bits has the configured leading zero bits, read off its bytes from the front, for 1 to 255 |
| `Pow.LeadingZerosIff` | core/consensus/pow/verify.go:8 | a hash is below the power of two for its length less lz if and only if its first lz bits are zero |
| `Pow.HashPlaces` | core/consensus/pow/verify.go:8 | each byte of the hash weighs 256 times the one after it |
| `Pow.MeetsTargetIff` | core/consensus/pow/verify.go:10-14 | a 32-byte hash meets a positive target if and only if it is the target's big-endian bytes or smaller where it first differs from them |
| `Pow.CompactSpells` | core/consensus/pow/target.go:8-20 | for a top byte of 3 to 34, compact bits spell the low 23 bits with as many zero bytes behind as the top byte exceeds three |
| `Pow.GenesisMineableIff` | core/chain/genesis.go:55-57 | some 32-byte hash meets the genesis bits if and only if at most 239 leading zeros are asked for |
| `Pow.ComputeWork64` | core/consensus/pow/work.go:9-31 | the byte loop computes Work64, without division by zero |
| `Pow.WorkBounds` | core/consensus/pow/work.go:9-31 | every positive target has a work from 1 to 255, a zero target none |
| `Pow.WorkMonotoneWithinByteLength` | core/consensus/pow/work.go:7-31 | among targets of one byte length a smaller one never has less work |
| `Pow.WorkFallsAcross` | core/consensus/pow/work.go:7-8 | for every two byte lengths a harder target of the shorter has less work than a target of the longer |
| `Pow.WorkMonotoneIff` | core/consensus/pow/work.go:7-31 | the estimate respects the order of the targets of two byte lengths if and only if they are one |
| `Pow.CompactLength` | core/consensus/pow/target.go:8-20 | a decoded target has at most 34 bytes, so these are all the lengths |
| `Pow.CumulativeSaturates` | core/consensus/pow/work.go:34-40 | the wrapped sum is detected exactly when the true sum does not fit |
| `Locator.BuildBlockLocator` | core/node/locator.go:12-37 | the hashes at the visited heights up to the first not stored, or the tip hash alone |
| `Locator.FindFirstKnown` | core/node/locator.go:39-49 | the first entry that is stored, with its height, or none |
| `Locator.LocatorHeights` | core/node/locator.go:19-30 | the i-th height in closed form; strictly falling; ends in genesis or after the maximum |
| `Locator.ReachesGenesisIff` | core/node/locator.go:21-30 | the locator reaches genesis if and only if the tip is not above the last entry's depth |
| `Locator.DefaultReach` | core/node/locator.go:13 | with 32 entries, every tip up to 8 + 2^22 |
| `Locator.LocatorFindsForkWithin` | core/node/locator.go:12-49 | a peer sharing our chain from depth d down first knows an entry at least d and at most max(d, 2d - 10) deep |
| `Payout.DistributeIfEpoch` | core/economics/pop/pop.go:22-68 | either nothing is due and nothing changes, or the whole pool is paid in shares and the scores start over |
| `Payout.WeighParticipants` | core/economics/pop/pop.go:39-48 | a score replaces the registered weight; no weight, no share |
| `Payout.ScoresDecide` | core/economics/pop/pop.go:39-58 | if all have positive weight and score, each floor is the largest whole number not above pool times score over all scores, whatever the registered weights |
| `Payout.OtherwiseWeightsDecide` | core/economics/pop/pop.go:41-46 | without a positive score the registered weight counts, and without weight nothing |
| `Payout.EachIsPaid` | core/economics/pop/pop.go:55-64 | the account "pop:" and id of each participant is credited with its share, if no id is listed twice |
| `Payout.DueIff` | core/economics/pop/pop.go:23-33 | due exactly at positive multiples of the epoch length with the minimum in the pool and somebody of weight; a zero epoch length means 50 blocks and 100 |
| `Payout.SharesAreFair` | core/economics/pop/pop.go:55-64 | everyone gets at least the floor of the proportional share, all but the last exactly that, the last fewer extra units than there are participants |
| `Payout.DustBound` | core/economics/pop/pop.go:58 | rounding down never exceeds the pool and leaves less than one unit per participant |
| `Payout.Register` | core/node/node.go:838-846 | registration never stores a weight below one, keeps one entry per id and leaves the others alone |
| `Payout.RegisteredPayoutConserves` | core/economics/pop/pop.go:55-64 | among registered participants a payout moves exactly the pool into their balances, whatever the scores and the remainder |
| `Payout.PayoutConservesIff` | core/economics/pop/pop.go:55-64 | for any listing: conserved if and only if the last participant has weight or every proportional share is a whole number; otherwise exactly the remainder is lost |
| `Scenarios.SpendTwice` | core/node/node.go:1352-1365 | a run of two accepted blocks after which the tip's chain holds one sender and nonce twice |
| `Scenarios.RivalDisplaces` | internal/reservestorage/blocks.go:26 | a run in which an accepted losing block ends the index's following the tip |
| `Scenarios.RivalIsReplayed` | core/node/reorg.go:50-56 | the rebuild to the tip's height then runs the losing block |
| `Scenarios.SwitchWithoutLedger` | core/node/forkchoice.go:52 | a run in which a switch goes through though its rebuild fails |
| `Scenarios.BlockRewritten` | core/node/node.go:1335-1338 | a block is submitted again under the same header with other transactions, accepted, and rebuilt with them |
| `Scenarios.RefusedThenAdopted` | core/node/node.go:1352-1353 | a refused block becomes the parent of the tip |
| `Scenarios.ReorgLeavesWork` | core/node/reorg_best.go:48-59 | a block refused on the stale ledger is the header tip: the reorganisation goes through and leaves the parent's work recorded, so the invariant fails |
| `Scenarios.LighterTakesTip` | core/node/node.go:1367-1372 | a lighter chain then takes the tip |
| `Scenarios.ReorgRewinds` | core/node/reorg_best.go:65-90 | with a displaced index a reorganisation goes through without moving the tip, and leaves the ledger of a block the tip does not descend from |
| `Scenarios.LoweredAnchor` | core/node/node.go:639-651 | a run of a vote, a heavier rival and a second vote of the same validator: the anchor goes up, shuts the rival out, goes down again and leaves the tip outweighed |
| `Scenarios.FinalisedAndAbandoned` | core/node/node.go:639-651 | a run in which two votes finalise a block, the anchor stays, and a heavier block takes the tip off it |
| `Scenarios.FinalisedAndReorganised` | core/node/node.go:1548-1560 | a run in which two votes finalise the tip, two losing blocks are accepted, and a reorganisation towards them passes the finality check and takes the tip off the finalised block |
| `Scenarios.CastsExist` | core/node/node.go:1281-1375 | there are blocks for each of these runs, with wrong ledgers where the rebuild is wrong |
| `Witness.BenchCollisionFree` | core/chain/block.go:58 | there is an environment in which no two headers share a hash and every hash meets every positive target |

## Left out

- 64-bit overflow of amounts, fees, weights, nonces and heights outside compact targets, work and the codec: these are unbounded integers here.
- BlockRules.ValidateBlockBasic: the trailing coinbase-covers-fees check is not modelled; it reads a configuration field that does not exist and contradicts the exact-reward check.
- Simulation.ValidateBlockStateTip: the same trailing check is not modelled there.
- StateApply.ApplyBlockTxs: the transaction index and the per-block fee record (always zero) are not modelled.
- BlockSubmission.SubmitBlock: checkpoint voting on the fast path is not part of it; anchors move by separate events, and the routine that moves them is RegistryFinality.TryFinalizeAnchor.
- ForkChoice.TrySwitchMainChain: the slice capacity hint is not modelled; it fails at run time for some tips below the anchor, where the model returns an error.
- Reorg.FindForkPoint: assumes that a stored parent header sits one height lower, without which the walk need not end.
- Reorg.HeaderPathFromTo: the same assumption, and that the tip header is not above the given height.
- Reorg.EnforceFinalizedOnCandidate: the same assumption about stored blocks.
- Ancestry.GetAncestorHashAtHeight: the same assumption about the headers it walks.
- Reorg.ReorgToBestHeaderChain: assumes the recorded header tip carries its header's height; handing the abandoned spends back to the mempool is modelled as returning them.
- Reorg.ReorgEqualsReplay: is about ledgers on success; what a failed reorganisation leaves is in ReorgToBestHeaderChain.
- JointFinality.StaysIff: reorganisations are those of ReorgToBestHeaderChain, with the same assumptions; synced headers are above genesis.
- Mining.MinedLaneSurvivesIff: the persisted copy of the mempool, from which a restart reloads what was dropped, is not modelled.
- StateReplay.RebuildStateFromFinalized: unreadable snapshot files are not in the list it is given.
- RegistryFinality.TryFinalizeAnchor: configured validators are a map, so a key listed twice counts once.
- Mempool.Mempool.Drain: the binary heap is a queue whose pop returns a best entry; fee rates are exact rationals instead of floats.
- Mempool.Mempool.Add: the per-sender cap is not modelled; it reads a field that does not exist.
- BlockAssembly.FilterTxsBySimState: the library sort is an insertion sort with the same order; sorting the caller's slice in place is modelled as returning the sorted sequence.
- Payout.DistributeIfEpoch: scores are naturals below 2^63, and the claim is for ledgers without negative balances, which the database engine never leaves.
- BlockSubmission.AdvanceTip: the checkpoint record and vote at the end of the fast path are not part of it.
- ForkReplay.ValidateBlockStateOnMainParent: the fallback to genesis when the chosen snapshot file cannot be read is not modelled.
- RegistryFinality.CountVotes: configured validators are a map, as for TryFinalizeAnchor.
- RegistryFinality.RegistryReachedIff: is for thresholds above one half, such as the promised two thirds; RegisteredReachedIff covers all thresholds.
- Payout.Register: where a new participant is listed is not modelled; no result depends on it.
- TryCommitNext, TryAdvanceTip and the best-chain cache: they follow candidate lists whose producer is not in the repository.
- Listing limits (5000 rows), snapshot file names and formats, allocation strings: parameters.
- HTTP, gossip, sessions, wallets, key vault, web file system and cryptography: input and output, or code outside the repository.
