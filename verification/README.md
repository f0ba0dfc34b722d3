# Hassan BlockDAG node: a verified model

Hassan is a BlockDAG node. This project models the part of it that decides what the chain is and
what it is worth, in Dafny, and proves that it does what it promises.

The development is layered; each layer rests on the ones above it.

| files | what they model |
|---|---|
| `Types`, `Lists`, `Dag` | blocks, transactions, the ledger; the DAG, path ancestry and the plain search |
| `Forest`, `Reindex`, `ReindexLoops`, `Reachability`, `OracleRuns` | the reachability oracle: an interval-labelled forest with sorted covering sets, updated in place, and its whole runs |
| `Ordering`, `Ghostdag`, `GhostdagProperties`, `GhostdagLocality`, `GhostdagCompute` | GHOSTDAG: selection, mergesets, merge order, greedy k-cluster colouring; what the colouring guarantees; the loops that compute it through the oracle |
| `Canonical`, `Replay`, `ChainState`, `ChainNode`, `ArchivalNode`, `Acceptance`, `NodeRuns`, `HonestRuns` | the chain state machine: canonical order, tips, finality, the folded base, admission and exactly which blocks it takes, whole runs of an archival node, and runs of honestly mined blocks |
| `Pruning`, `PrunedColoring`, `PruningExample` | history pruning, and what a pruned node computes for new blocks |
| `Regroup`, `LinearRegister`, `Checksum`, `Address`, `Bip350`, `Fingerprint` | bech32m addresses, after the "Bech32m" section of BIP-350 and the "Bech32" section of BIP-173 |
| `Spending`, `Vault` | spend predicates and the escrow vault |
| `Sums`, `LedgerSteps`, `BlockEffects`, `Supply`, `SpendHistory`, `Issuance`, `NodeSupply`, `Authority`, `Outcomes`, `Nonces` | transactions, registry, custody, coinbase; admission against replay; supply; what became of every output; who can move what; exactly when an operation succeeds and what it does then; that it succeeds once |
| `Difficulty`, `EraFloors` | difficulty adjustment, and how it depends on the era floor |
| `Mempool`, `MempoolAdmission`, `MempoolExample` | UTXO mempool admission, replacement and eviction; a run in which a refusal shows |

`dafny verify dfyconfig.toml` checks all of it.

## How to read it

Two theorems tie most of the project together. `OracleRuns.Run` says that after any sequence of
arrivals, leaf removals and prunings the indexed blocks and their tree are a function of the events
and the oracle answers exactly as path ancestry does.
`NodeRuns.Run` says that after any arrivals an archival node's tip, main chain, finality point,
folded base and live ledger are functions of the blocks it holds and of its seed, that every header
commits to the replay of its block's canonical order, and that what was final stays final. It holds
for every body semantics in which strict admission agrees with replay; `BlockEffects` proves that
of the node's own rules and `NodeSupply.RunSupply` instantiates it with them.

Code that updates fields in place is modelled by classes and methods with loops (`Reachability`,
`ChainState`, `PrunedNode`, `LiveLedger`, `UtxoMempool`), each proved against functions whose
properties are lemmas. Hashes are natural numbers, ordered as the digests are. Signatures, digests
and key hashing are function parameters or fields of the records that carry their outcome, so every
theorem holds for all of their values. A predicate guarded by a `Key` is an ordinary predicate whose
definition the solver unfolds only where a proof asks for it.

## Findings

Places where the code does something other than its comments say, each with a lemma.

- The supply check (`src/lib.rs:1200-1209`) leaves out what lies in escrow: `FundEscrow` moves
  balance into the registry, which the check does not count. `NodeSupply.FundingBreaksCheck` and
  `NodeSupply.EscrowCounterexample` show the failure; `Supply.SupplyCheckExact` says exactly when
  the check holds.
- A coinbase id does not depend on nonce or state root (`src/utxo.rs:36-53`), so two blocks can
  share one and the later coinbase overwrites the earlier (`NodeSupply.CoinbaseCollision`,
  `SpendHistory.CollisionDestroys`). The conservation theorems carry what was overwritten as an
  explicit term; `SpendHistory.FreshReplayLosesNothing` says that it is zero when the replayed
  coinbase ids are pairwise distinct and new and transactions of one hash spend the same outputs.
- A UTXO transaction with an account credit nested so that it names no address passes every check
  and fails only after its inputs are spent (`Supply.CreditWithoutAddressDestroys`). Admission
  refuses such a block, so none is ever replayed (`Supply.AdmittedIsCreditable`).
- A registry operation that fails after its nonce check still advances the signer's nonce, and one
  that fails it still opens the signer's account (`src/registry.rs:441-456`).
  `Authority.FailureLeavesNoTrace` says exactly when a failure changes nothing, and
  `Authority.FailureUsesNonce` is an operation for which it does not.
- A signer's nonce saturates at the last 64-bit value (`src/registry.rs:452`), so an operation that
  carries that nonce can succeed again (`Nonces.LastNonceRepeats`); with any other nonce it never
  does (`Nonces.OnceOnly`).
- For difficulties near 2^64 the last cast of `retarget_difficulty` can wrap
  (`Difficulty.RetargetWraps`); `Difficulty.RetargetBounds` says exactly when its bounds hold. The
  required difficulty itself stays within its bounds for all 64-bit inputs
  (`Difficulty.ExpectedDifficultyAt`).
- The required difficulty depends on the node's live minted supply through the era floor
  (`src/lib.rs:2444-2445`), so nodes with the same blocks below the parents but different tips can
  disagree about it. `EraFloors.FloorsWhileFilling` and `EraFloors.FloorsWhenFull` say exactly when
  they agree, and `HonestRuns.NodesDisagree` gives two runs of one seed and a block that the first
  node accepts and the second refuses.
- Pruning is said to leave the scoring of new blocks unaffected (`src/lib.rs:1785-1788`). The blue
  set a pruned node colours against still lists every blue the pruning point merged; one that the
  point does not name as a parent is in nobody's visible past, so all blues are in its anticone and
  nothing can be coloured blue beside it. `PrunedColoring.PruningExactly` says exactly when pruning
  goes unseen, and `PruningExample.PruningShows` is a DAG in which it does not.
- A mempool transaction refused for lack of room has already removed its conflicts
  (`src/lib.rs:3050-3139`). `MempoolAdmission.RefusalExactly` says exactly when a refusal changes
  the queue and how, and `MempoolExample.RefusalRemoves` is a run in which it does.

## Model

| member | source | states |
|---|---|---|
| `Dag.BfsAncestors` | src/reachability.rs:452-471 | the plain search over parent edges finds exactly the path ancestors of a block, also when parents are missing |
| `Dag.ExtensionKeepsPast` | src/reachability.rs:122-144 | a block nobody names as a parent gets exactly its parents' inclusive pasts as its past, changes nobody else's, and creates no cycle |
| `Dag.RestrictionKeepsAncestry` | src/reachability.rs:339-358 | dropping the complement of a future-closed set keeps ancestry from every kept block: no path between kept blocks runs through a dropped one |
| `Forest.ContainmentFollowsTree` | src/reachability.rs:268-287 | in a sound index interval containment is tree ancestry: the node itself, or whatever contains its tree parent |
| `Forest.ContainmentIsTree` | src/reachability.rs:268-287 | so containment is being reached by climbing tree parents |
| `Forest.OnlyCandidate` | src/reachability.rs:289-297 | in a sorted antichain only the last entry starting at or before the target can cover it, so one candidate decides the covering question |
| `Forest.CarveIndex` | src/reachability.rs:185-222 | carving a child window out of a parent's free space keeps the index sound: laminar intervals, tight links, ascending covering sets |
| `Forest.DropIndex` | src/reachability.rs:309-358 | removing a droppable set keeps the index sound |
| `Forest.DropAnswers` | src/reachability.rs:309-358 | removing a droppable set changes no ancestry or chain answer between survivors |
| `Reindex.ReindexKeepsAnswers` | src/reachability.rs:363-408 | relabelling the whole forest by subtree size and resorting the covering sets changes no chain or ancestry answer, for any pair |
| `Reindex.ReindexKeepsIndex` | src/reachability.rs:363-408 | after relabelling and resorting the index is sound again |
| `ReachabilityOracle.SameAnswersReach` | src/reachability.rs:259-264 | two indexes with the same chain answers and the same covering-set members give the same ancestry answers |
| `ReachabilityOracle.AgreesMeansAncestry` | src/reachability.rs:244-256 | agreement with the past map is agreement with path ancestry for every pair of indexed blocks |
| `ReachabilityOracle.Reachability.PartitionPoint` | src/reachability.rs:289-297 | binary search: where a start falls in an ascending covering set |
| `ReachabilityOracle.Reachability.FcsContainsCover` | src/reachability.rs:289-297 | answers whether any entry of the covering set contains the target, looking at one |
| `ReachabilityOracle.Reachability.IsAncestor` | src/reachability.rs:244-264 | answers strict ancestry for any two hashes, by the index when both are indexed and by search otherwise |
| `ReachabilityOracle.Reachability.InAnticone` | src/reachability.rs:301-303 | distinct, and neither is an ancestor of the other |
| `ReachabilityOracle.Reachability.IsChainAncestor` | src/reachability.rs:278-283 | when both are indexed, whether climbing tree parents from one reaches the other; otherwise no answer |
| `ReachabilityOracle.Reachability.AddBlock` | src/reachability.rs:122-144 | a known block changes nothing; a new one enters the tree under its selected parent, or as a root if that is not indexed, and with its true past and mergeset leaves every ancestry answer and every chain answer right for the extended DAG; the interval space is not exceeded while the blocks fit |
| `ReachabilityOracle.Reachability.Place` | src/reachability.rs:131-136 | the block becomes a leaf under its selected parent, or a root if that is not indexed; all old answers stay |
| `ReachabilityOracle.Reachability.MergeInto` | src/reachability.rs:137-143 | exactly the indexed merged blocks get the new block covered in their covering sets |
| `ReachabilityOracle.Reachability.InsertRoot` | src/reachability.rs:147-163 | a fresh root beyond every window, after a reindex if the space is exhausted |
| `ReachabilityOracle.Reachability.InsertTreeChild` | src/reachability.rs:168-181 | afterwards the block is a tree child of its parent: the retry after a reindex always fits and the fallback to a fresh root is never taken |
| `ReachabilityOracle.Reachability.TryPlaceChild` | src/reachability.rs:185-222 | places the child exactly when the parent has room, then as a new leaf with every old answer kept; otherwise changes nothing |
| `ReachabilityOracle.Reachability.InsertToFcs` | src/reachability.rs:226-240 | the new leaf is covered afterwards, the set stays an ascending antichain, and nothing is added if an entry covered it already |
| `ReachabilityOracle.Reachability.DropLeaf` | src/reachability.rs:309-334 | exactly an indexed block that no indexed block names as tree parent leaves; every other tree link and every answer between the others stays; any other block is left alone |
| `ReachabilityOracle.Reachability.Retain` | src/reachability.rs:339-358 | keeps exactly the indexed members of a future-closed set with their tree links, cuts the links out of it, and keeps every answer between them |
| `ReachabilityOracle.Reachability.ReindexAll` | src/reachability.rs:363-408 | all answers stay, the index is sound, every node has room for a child, and the labels used are bounded by the number of blocks |
| `ReachabilityOracle.Reachability.SubtreeSizes` | src/reachability.rs:413-442 | the two-phase stack walk computes the number of blocks in every subtree |
| `ReachabilityOracle.Reachability.AssignWindows` | src/reachability.rs:383-408 | the stack walk labels every node with a window proportional to its subtree, children inside parents and side by side |
| `OracleRuns.Run` | src/reachability.rs:122-358 | for any arrivals, leaf removals and future-closed prunings, in any order: the blocks held, the blocks indexed, the tree parent of each and which events took effect are functions of the events, and the index is sound and answers every pair of indexed blocks as path ancestry in the resulting DAG does |
| `OracleRuns.TakenMeans` | src/reachability.rs:122-358 | an event took effect exactly when it may on what the events before it leave: a new block whose parents are held and whose selected parent is indexed, a leaf nobody indexed names, or a pruning |
| `OracleRuns.Step` | src/reachability.rs:122-358 | one event on any reachable oracle: whether it takes effect, the DAG, the indexed blocks and their tree parents afterwards, and that the index agrees with the DAG |
| `Ghostdag.Heaviest` | src/ghostdag.rs:178-188 | the (blue score, hash) maximum among the listed blocks that have data, none if there is none |
| `Ghostdag.HeaviestUnique` | src/ghostdag.rs:310-319 | only one block can be that maximum, so the list order does not matter |
| `Ghostdag.SelectionOfTwo` | src/ghostdag.rs:178-188 | of two blocks the higher score is selected and at equal scores the higher hash, however they are listed |
| `Ghostdag.MergeOrder` | src/ghostdag.rs:154-174 | there is a listing of a set by (number of ancestors within it, hash) |
| `Ghostdag.MergeOrderUnique` | src/ghostdag.rs:154-174 | it is the only one: the order depends on the set alone |
| `Ghostdag.MergeOrderOfTwo` | src/ghostdag.rs:154-174 | of two blocks the ancestor is merged first, and of two unrelated ones the lower hash |
| `Ghostdag.MergeOrderIsTopological` | src/ghostdag.rs:154-174 | ancestors come before descendants in it |
| `GhostdagProperties.ScoreRisesOnEdge` | src/ghostdag.rs:246-252 | blue score rises strictly across every parent edge, not only selected-parent edges |
| `GhostdagProperties.ScoreRisesOnPast` | src/ghostdag.rs:246-252 | blue score rises strictly from every ancestor to every descendant |
| `GhostdagProperties.MergedIsConcurrent` | src/ghostdag.rs:116-148 | every merged block lies in the selected parent's anticone |
| `GhostdagProperties.PastSplits` | src/ghostdag.rs:116-148 | a block's past is its selected parent's inclusive past plus its mergeset, disjointly |
| `GhostdagProperties.BlueScoreCountsBlues` | src/ghostdag.rs:63-66 | blue score is the number of blues strictly in the block's past |
| `GhostdagProperties.BluesAreKCluster` | src/ghostdag.rs:233-244 | every member of every block's blue set has at most K others of that set in its anticone |
| `GhostdagProperties.BlueMeansJoining` | src/ghostdag.rs:262-292 | a candidate is coloured blue exactly when it can join the k-cluster of the blues and leave it a k-cluster |
| `GhostdagProperties.RedExactly` | src/ghostdag.rs:233-244 | a merged block is red exactly when it, the selected parent's blues and the blues merged before it are together no k-cluster: nothing that could have been blue is red |
| `GhostdagProperties.ColorsFollowMergeOrder` | src/ghostdag.rs:239-248 | the merged blues follow the merge order among themselves, and so do the merged reds |
| `GhostdagProperties.MergedBluesBounded` | src/ghostdag.rs:235-246 | a block has 1 to K + 1 mergeset blues and its score is its selected parent's plus their number |
| `GhostdagProperties.MergesetPartition` | src/ghostdag.rs:233-254 | the selected parent comes first among the blues; the other blues and the reds list the mergeset, each block once |
| `GhostdagLocality.SamePastSameData` | src/ghostdag.rs:209-254 | a block's data is a function of its past: two DAGs that agree on a block's inclusive past give it the same past and the same data |
| `GhostdagLocality.ColoringIsUnique` | src/ghostdag.rs:209-254 | a DAG has one colouring |
| `GhostdagLocality.ExtensionIsConsistent` | src/ghostdag.rs:209-254 | a DAG stays consistently coloured when a new block gets the data computed from its parents |
| `GhostdagCompute.MaterializedBlues` | src/ghostdag.rs:91-111 | the walk down the selected chain collects exactly the blue set |
| `GhostdagCompute.Mergeset` | src/ghostdag.rs:116-148 | the worklist lists exactly the past of the parents, themselves included, outside the inclusive past of the selected parent |
| `GhostdagCompute.TopologicalOrder` | src/ghostdag.rs:154-174 | sorting by (rank, hash) yields the one merge order of the set |
| `GhostdagCompute.ColorCandidateBlue` | src/ghostdag.rs:262-292 | the oracle-driven check decides the k-cluster rule for one candidate: against blues that are a k-cluster, whether they and the candidate are one |
| `GhostdagCompute.ColorMergeset` | src/ghostdag.rs:233-244 | the colouring loop colours greedily in merge order against the growing blue set |
| `GhostdagCompute.TryComputeGhostdagData` | src/ghostdag.rs:209-254 | refuses exactly when the mergeset exceeds the cap, and otherwise returns the data as a function of the pasts |
| `Canonical.ChainTransitive` | src/ghostdag.rs:297-306 | being on a chain is transitive |
| `Canonical.OrderListsPast` | src/lib.rs:1387-1412 | the canonical order ending at a block lists its inclusive past, every block once |
| `Canonical.OrderPrefix` | src/lib.rs:1387-1412 | the order of a chain block is a prefix of the order of every block above it |
| `Canonical.OrderPlaces` | src/lib.rs:1387-1412 | after the past of the selected parent and that parent come the merged blues in their order, then the merged reds in theirs, then the block: each at its exact place |
| `Canonical.ChainBlockAfterItsPast` | src/lib.rs:1387-1412 | a chain block stands right after its entire past |
| `Canonical.NewTips` | src/lib.rs:883-886 | the tip list stays exactly the childless blocks when a block is added |
| `Canonical.SelectedTipIsHeaviest` | src/ghostdag.rs:310-319 | the heaviest tip is the (score, hash) maximum of the whole DAG |
| `Canonical.FinalityDepthBounds` | src/lib.rs:997-1019 | the finality point exists once the score exceeds the depth and lies depth to depth + K levels below the tip, on its chain |
| `Canonical.FinalityAdvances` | src/lib.rs:997-1019 | if a tip at least as heavy still has the old finality point on its chain, the new one lies on or above it |
| `ChainStateMachine.AllDistinct` | src/lib.rs:728-735 | duplicate parents are found with a set of what was seen |
| `ChainStateMachine.SelectedChain` | src/ghostdag.rs:297-306 | the walk and reversal yield the selected chain from genesis up |
| `ChainStateMachine.FinalityPointOf` | src/lib.rs:997-1019 | the scan from genesis up finds the last chain block at least the depth below the tip |
| `ChainStateMachine.CanonicalOrderAt` | src/lib.rs:1387-1412 | emitting merged blocks and chain blocks, skipping what was emitted, yields the canonical order, in which a block's merged blues stand before its merged reds at their exact places |
| `ChainStateMachine.ReplayStart` | src/lib.rs:1531-1540 | the position just after the frontier, or the beginning |
| `ChainStateMachine.VirtualStateAt` | src/lib.rs:1424-1495 | base plus the rest of the order is the replay of the whole order from the seed, wherever the base stands |
| `ChainStateMachine.PostMergesetState` | src/lib.rs:1093-1113 | the strict application of the block on its selected parent's replayed state plus its merged blocks |
| `Replay.FoldingDoesNotShow` | src/lib.rs:1560-1566 | replaying what a base leaves out gives the state at any block above its frontier |
| `Replay.StateStep` | src/lib.rs:1093-1113 | the state at a block is its selected parent's state, then its merged blocks, then itself |
| `Replay.StateKept` | src/lib.rs:1542-1546 | the state seen from an old block does not change when blocks are added |
| `ChainNode.AcceptedRootAgrees` | src/lib.rs:860-873 | an admitted block's header commits to the replay of its canonical order: strict admission on the mergeset state agrees with conflict-skip replay |
| `ChainNode.AcceptedFinality` | src/lib.rs:752-761 | after a block passes the finality check the heaviest chain still holds the old finality point, and the new finality point is on or above it |
| `ChainNode.FoldsEachOnce` | src/lib.rs:1557-1566 | the slice a fold replays lists exactly the blocks at or below the new finality point that were not at or below the old one, each once |
| `ArchivalNode.FoldBase` | src/lib.rs:1577-1592 | the fold replays exactly the slice between the two frontiers and gives the state at the finality point; the defensive branches are never taken |
| `ArchivalNode.DropTips` | src/lib.rs:883-885 | removing the parents one by one removes them all |
| `ArchivalNode.ChainState.constructor` | src/lib.rs:684-695 | a fresh node holds genesis and its seed and satisfies the invariant |
| `ArchivalNode.ChainState.AddBlock` | src/lib.rs:697-934 | accepts exactly the well-shaped admissible blocks that claim the difficulty required under the live supply and pass the remaining checks; a refusal changes nothing; acceptance adds the block and its data; the old finality point stays on the main chain, at or below the new one; what was folded stays folded; the invariant holds again |
| `Acceptance.AdmissibleExactly` | src/lib.rs:743-871 | a well-shaped block is admissible exactly when, in the DAG that it would become part of, the finality point is on its chain, it brings at most 512 blocks its selected parent did not have, it applies in full right after everything it orders before itself, and its header commits to the ledger it leads to |
| `ArchivalNode.ChainState.CheckDifficulty` | src/lib.rs:763-773 | decides whether the block claims the difficulty its parents require under the live ledger's era floor |
| `ArchivalNode.ChainState.Check` | src/lib.rs:743-871 | finality, mergeset cap, strict body and state root, decided exactly |
| `ArchivalNode.ChainState.Accept` | src/lib.rs:876-912 | recording, capturing the seed, folding and replaying restore the invariant on the extended DAG |
| `ArchivalNode.ChainState.Insert` | src/lib.rs:876-886 | DAG, data, oracle and tips after a block is recorded |
| `ArchivalNode.ChainState.AdvanceFinalizedBase` | src/lib.rs:1567-1595 | the list of folded blocks grows by exactly the blocks replayed onto the base, those at or below the new finality point and not at or below the old one; the base becomes the state at the finality point, which never moves down |
| `ArchivalNode.ChainState.FoldedOnce` | src/lib.rs:1567-1595 | in every reachable node the folded blocks are the inclusive past of the frontier, each folded once, and the base is their replay from the seed |
| `ArchivalNode.ChainState.RecomputeVirtualState` | src/lib.rs:1547-1557 | the live ledger becomes the replay of the canonical order of the selected tip |
| `NodeRuns.LedgerAtIs` | src/lib.rs:1542-1546 | the ledger seen from a block is determined by the DAG alone, whichever colouring is at hand |
| `NodeRuns.Run` | src/lib.rs:697-934 | for any arrivals in any order: the blocks held are those acceptable in turn, required difficulty included; tip, main chain, finality point, base and live ledger are functions of those blocks; over the run each block at or below the finality point was folded into the base once and no other was; every header commits to the replay of its order, the live root to the tip's; blue sets are k-clusters; the finality point lies in its window; every later main chain holds every earlier finality point |
| `NodeRuns.TwoNodes` | src/lib.rs:899-906 | two nodes with the same seed that end up with the same blocks, received in any orders, have the same tip, ledger and finality point |
| `NodeRuns.BelowCarries` | src/lib.rs:752-761 | a block below another on one main chain is below it on every later main chain that holds both |
| `Pruning.AtLeastIsClosed` | src/lib.rs:1829-1841 | the blocks at or above a score are future-closed |
| `Pruning.CutDescends` | src/lib.rs:1853-1868 | after the links are cut no kept block names a dropped selected parent |
| `Pruning.CutChain` | src/lib.rs:1853-1875 | the main chain loses exactly what lies below the pruning point |
| `Pruning.PruningKeeps` | src/lib.rs:1789-1876 | pruning keeps the selected tip, the absolute tip height and the main chain from the pruning point up, and can be repeated |
| `Pruning.PruningCloses` | src/lib.rs:1827-1851 | exactly the blocks at or above the pruning point's score stay, and with each everything above it |
| `Pruning.PruningKeepsData` | src/lib.rs:1827-1876 | a kept block and its data are as they were, except that a selected-parent link to a dropped block is gone; the tips are the kept ones, and the pruning point is recorded exactly when something was dropped |
| `Pruning.PruningKeepsAncestry` | src/lib.rs:1843-1851 | ancestry between kept blocks is unchanged |
| `Pruning.GraphIsPrunable` | src/lib.rs:1789-1876 | every state an archival node can reach can be pruned |
| `Pruning.PrunedNode.PruneHistory` | src/lib.rs:1789-1876 | the fields after pruning are exactly the pruned view, the oracle keeps exactly the kept blocks and every answer between them |
| `Pruning.PruningPointOf` | src/lib.rs:1804-1824 | the scan finds the last chain block at least the pruning depth below the tip, with its index |
| `PrunedColoring.PruningUnseen` | src/lib.rs:1785-1788 | if no walk of a new block reaches across the pruning point and the point names every blue it merged, a pruned node computes the data an archival node computes |
| `PrunedColoring.PruningReddens` | src/ghostdag.rs:235-292 | if the point does not name one of them and the chain is K levels above it, a pruned node colours everything the new block merges red |
| `PrunedColoring.PruningExactly` | src/lib.rs:1785-1788 | so K levels above the point pruning goes unseen exactly when the point names every blue it merged, or the new block has no blue to lose |
| `PrunedColoring.DroppedIsListed` | src/ghostdag.rs:134-147 | where a merged block names a dropped one that the selected parent does not see, the pruned node lists it as merged though it does not hold it |
| `PruningExample.PruningShows` | src/lib.rs:1785-1788 | a DAG, for every height from K on, in which an archival node merges a block blue, a pruned node merges it red, and the new block's score differs |
| `Regroup.ConvertBits` | src/address.rs:55-79 | returns the regrouping, padded or exact, and fails exactly when there is none |
| `Regroup.RegroupedUnique` | src/address.rs:55-79 | there is at most one regrouping |
| `Regroup.RegroupInverse` | src/address.rs:55-79 | bytes to symbols with padding and symbols to bytes without are one relation read both ways |
| `Regroup.BytesRoundTrip` | src/address.rs:55-79 | every byte string survives bytes to symbols and back |
| `Regroup.SymbolsRoundTrip` | src/address.rs:55-79 | every symbol string accepted as bytes survives symbols to bytes and back |
| `LinearRegister.SixPinned` | src/address.rs:26-41 | in any such register exactly one choice of six symbols leads from a state to a target |
| `LinearRegister.BurstDetected` | src/address.rs:26-41 | in any such register two strings that differ within six consecutive symbols and lead to one state are equal |
| `Checksum.RunPolymod` | src/address.rs:26-41 | the loop computes the register after the values |
| `Checksum.StepView` | src/address.rs:26-41 | a step of the 32-bit word is a step of the six-symbol register with the five generators |
| `Checksum.BechIsLawful` | src/address.rs:26-41 | the generators are linear and their lowest symbols tell the symbol shifted out |
| `Checksum.Bip350Vector` | src/address.rs:22-41 | the shortest valid string of BIP-350 checks, so the constants are those of the standard |
| `Checksum.CheckDigitsPin` | src/address.rs:81-95 | a string checks if and only if it ends in the checksum of what comes before |
| `Checksum.BurstChecks` | src/address.rs:112-116 | two strings that check and differ within six consecutive symbols are equal |
| `Address.AlphabetIs` | src/address.rs:21 | the alphabet is that of BIP-173, in order |
| `Address.HrpExpandIs` | src/address.rs:44-54 | the prefix enters the checksum as the high bits of its bytes, a zero and their low five bits, the two halves together being the byte |
| `Address.DecodedOfEncoded` | src/address.rs:81-120 | decoding undoes encoding exactly for a prefix that is not empty and has no upper-case letter |
| `Address.EncodedOfDecoded` | src/address.rs:97-120 | an accepted string is, but for case, the encoding of what it decodes to |
| `Address.AcceptedExactly` | src/address.rs:97-120 | a string decodes to a prefix and data exactly when it is their encoding, or that encoding in upper case throughout |
| `Bip350.Shortest` | src/address.rs:81-120 | `a1lqfn3a` and `A1LQFN3A`, valid strings of BIP-350, are accepted: no data under the prefix `a` |
| `Bip350.LongPrefix` | src/address.rs:44-120 | `abcdef1l7aum6echk45nj3s0wdvt2fg8x9yrzpqzd3ryx`, a valid string of BIP-350, is the encoding of its data under `abcdef` and is accepted |
| `Address.BurstRefused` | src/address.rs:97-120 | two accepted strings with one prefix that differ, but for case, within six consecutive symbols are the same |
| `Address.Encode` | src/address.rs:81-95 | the loop builds that encoding, which decodes to the same prefix and data if the prefix is not empty and in lower case |
| `Address.Decode` | src/address.rs:97-120 | mixed case, missing separator, empty prefix, short data, unknown letters and bad checksums are refused; otherwise prefix and data are returned: exactly those whose encoding, in one case throughout, the string is |
| `Fingerprint.PayloadOfAddress` | src/address.rs:129-153 | decoding the address of 32 bytes gives them back |
| `Fingerprint.AddressOfPayload` | src/address.rs:141-153 | every string that carries a payload is, but for case, that payload's one address |
| `Fingerprint.EncodeHash` | src/address.rs:129-133 | the address of a digest carries its first 32 bytes |
| `Fingerprint.DecodeAddress` | src/address.rs:141-153 | returns the payload, and none exactly when there is none |
| `Fingerprint.AddressFingerprint` | src/address.rs:156-171 | bech32m payload first, then the legacy form's first 32 bytes |
| `Fingerprint.AddressesEquivalent` | src/address.rs:174-182 | decides whether two strings name the same key |
| `Fingerprint.EquivalentIsEquivalence` | src/address.rs:174-182 | naming the same key is an equivalence |
| `Fingerprint.BothForms` | src/address.rs:136-171 | both forms of a digest's address name its first 32 bytes |
| `Fingerprint.LegacyExactly` | src/address.rs:160-171 | a legacy string names the first 32 bytes of the one digest whose hexadecimal digits, of either case, follow `hsn:`, and no other string is one |
| `Fingerprint.SameKeySameString` | src/address.rs:174-182 | two bech32m strings name the same key exactly when they differ in case alone |
| `Spending.EvalMultisig` | src/predicate.rs:331-413 | the loop decides: a valid n of m, the spender in the set, nothing but markers and valid cosignatures on the stack, and at least n distinct members signing |
| `Spending.CountedMembersSign` | src/predicate.rs:350-405 | every member counted is in the set and signs, and no two counted members name one key |
| `Spending.MultiSigCounts` | src/predicate.rs:331-413 | a multisignature unlocks exactly when n, from 1 to the number of addresses, members that name different keys sign, the spender is a member and the stack is in order |
| `Spending.StackIsClean` | src/predicate.rs:350-405 | all that lies on such a stack is bare markers and signatures of the right size by keys of the right size that belong to the set; at most 16 entries |
| `Spending.TwoOfTwo` | src/predicate.rs:331-413 | a two-of-two unlocks exactly when both parties sign and are not one |
| `Spending.StaysUnlocked` | src/predicate.rs:147-329 | what has no expiry and is unlocked at one blue score is unlocked at every later one |
| `Spending.WasUnlocked` | src/predicate.rs:147-329 | what has no start lock and is unlocked at one blue score was unlocked at every earlier one |
| `Spending.ExpiryEndsWhereLockOpens` | src/predicate.rs:186-298 | the owner can spend an output that expires at a score exactly when they cannot spend one locked until it; nobody else can spend either |
| `Spending.SpendingWindow` | src/predicate.rs:186-298 | a start and an expiry joined open, for their owner, from the one up to the other |
| `Spending.RelativeIsAbsolute` | src/predicate.rs:200-214 | a relative lock unlocks exactly as the absolute lock that many scores above the output's creation, or at the last score there is |
| `Spending.ExactValueIsInner` | src/predicate.rs:299-310 | a value covenant unlocks exactly as what is inside, within one level less of nesting |
| `Spending.OpenableIsBoolean` | src/predicate.rs:88-283 | whether some witness unlocks a predicate is read off as from a formula: And asks for both parts and Or for one, within the nesting bound |
| `Spending.OwnerOpens` | src/predicate.rs:170-298 | some witness unlocks a plain, a locked or an expiring output exactly for its owner, at any score, from its score on, or before its score |
| `Spending.HashLockAsksPreimage` | src/predicate.rs:215-327 | the witnesses that open a hash lock or a data commitment are the preimages of its hash under any number of one-item stacks, and no others |
| `Spending.KeylessForAnyone` | src/predicate.rs:147-329 | a predicate built from hash locks and commitments answers every spender, at every score and under every message, alike |
| `Spending.OwnedHashLock` | src/predicate.rs:9-10 | a hash lock joined to an address asks, for every witness, for the preimage and the owner |
| `Spending.CreditIsNeverSpent` | src/predicate.rs:284 | no witness spends an account credit, alone or joined to anything by And |
| `Vault.VaultUnlocks` | src/bdpe.rs:22-33 | for every witness tree: a vault unlocks exactly when both parties sign in what reaches its branches or the buyer spends at or after the timeout |
| `Vault.VaultIsUnlockable` | src/bdpe.rs:22-33 | some witness unlocks a vault exactly when one party spends and the other can cosign, or the buyer spends at or after the timeout |
| `Vault.RecognisedIsVault` | src/bdpe.rs:40-65 | whatever is recognised as a vault unlocks, for every witness, exactly as the vault it is recognised as |
| `Vault.VaultIsRecognised` | src/bdpe.rs:22-65 | a vault is recognised with its own terms |
| `Vault.AddressesAreEquivalence` | src/address.rs:174-182 | the address module's notion of one key satisfies what the vault theorems ask of it |
| `BlockEffects.LiveLedger.ApplyTx` | src/utxo_tx.rs:268-369 | checks, spends and creates in order, stopping where the code stops; the ledger a failure leaves is stated too |
| `BlockEffects.LiveLedger.ApplyBlockEffects` | src/lib.rs:1263-1313 | replay of a block: transactions, registry, custody, coinbase, skipping failures |
| `BlockEffects.LiveLedger.SimulateBlock` | src/lib.rs:1119-1157 | admission of a block: the first failure refuses it |
| `BlockEffects.AdmittedIsReplayed` | src/lib.rs:1119-1313 | a block admitted on a ledger does to it exactly what replaying it does |
| `BlockEffects.NodeSemanticsIsLawful` | src/lib.rs:1093-1113 | so the node's own ledger rules satisfy what the chain theorems ask of them |
| `Outcomes.AppliesExactly` | src/utxo_tx.rs:268-369 | a transaction applies exactly when it fails none of the named checks: form, inputs, fee, lock score, and for each input existence, maturity, relative lock, predicate and value covenant, then balance and addresses to credit |
| `Outcomes.CreditIsNested` | src/predicate.rs:61-70 | an output is an account credit exactly when a credit is nested in it anywhere |
| `Outcomes.BindingIsNested` | src/utxo_tx.rs:14-30 | the exact-value check holds exactly when every covenant, wherever it is nested, binds the output's value |
| `Outcomes.AddressIsLeftmost` | src/predicate.rs:72-85 | the address an output is credited to is that of its leftmost leaf |
| `Outcomes.TxCredits` | src/utxo_tx.rs:337-353 | a transaction that applies raises each balance by exactly what its outputs credit to that address |
| `Outcomes.SucceedsExactly` | src/registry.rs:428-699 | a registry operation succeeds exactly when it is signed, carries the signer's next nonce and the signer is entitled to it |
| `Outcomes.TitlesAfter` | src/registry.rs:458-699 | the titles after a success: issued to the owner named, transferred to the recipient, pledged to the escrow, handed to the buyer on release, freed on refund; no other title moves |
| `Outcomes.EscrowsAfter` | src/registry.rs:515-699 | the escrows after a success: opened as written, funded by the amount and Funded once the price is reached, or closed and empty |
| `Outcomes.BalancesAfter` | src/registry.rs:561-699 | the balances after a success: the funder pays the amount, the seller of a released escrow or the buyer of a refunded one gets all it held, nobody else's moves |
| `Outcomes.CustodyExactly` | src/lib.rs:1317-1369 | a custody operation succeeds exactly when it is well formed, moves something the owner has and carries the owner's next nonce; locking moves the amount from balance to stake and unlocking back |
| `Outcomes.BodyInOrder` | src/lib.rs:1263-1313 | a body acts as three: its transactions, then its registry operations, then its custody operations |
| `Outcomes.AdmittedExactly` | src/lib.rs:1119-1157 | a block is admitted on a ledger exactly when replaying it there skips nothing: every transaction is for this chain and fails no check, and every operation succeeds |
| `Nonces.ReplayIsEvents` | src/lib.rs:1263-1313 | every replay is a run of single ledger events, transactions, operations and coinbases, in block order |
| `Nonces.NonceNeverFalls` | src/registry.rs:440-453 | no run of ledger events lowers a nonce |
| `Nonces.OnceOnly` | src/registry.rs:440-453 | once a registry or custody operation has succeeded, after any further ledger events no operation of that signer with that nonce succeeds, unless it is the last 64-bit nonce |
| `Nonces.OnceOnlyInReplay` | src/registry.rs:440-453 | the same across the blocks of any replay |
| `Nonces.LastNonceRepeats` | src/registry.rs:452 | with the last nonce, which saturates, a funding goes through twice |
| `Supply.SpendAllRemoves` | src/utxo.rs:105-115 | distinct live inputs can all be spent and take exactly their value along |
| `Supply.UtxoTxConserves` | src/utxo_tx.rs:268-369 | an applied transaction moves value, pays its fee and destroys exactly the live outputs it overwrites; one that does not apply changes nothing |
| `Supply.CreditWithoutAddressDestroys` | src/utxo_tx.rs:337-354 | a transaction with an account credit that names no address fails only after its inputs are gone |
| `Supply.CreditWithoutAddressExample` | src/utxo_tx.rs:337-354 | such a ledger and transaction: a hash lock joined to a credit |
| `Supply.AdmittedIsCreditable` | src/lib.rs:1127-1141 | no admitted block carries such a transaction |
| `Supply.RegistryOpConserves` | src/registry.rs:428-699 | a registry operation, failed or not, moves value between accounts and escrows only |
| `Supply.CustodyOpConserves` | src/lib.rs:1317-1369 | a custody operation moves value between an account and its stake, and a failed one changes nothing |
| `Supply.BlockConserves` | src/lib.rs:1161-1313 | a block widens the gap between minted and held by exactly what it overwrites, and never mints beyond the cap |
| `Supply.ReplayConserves` | src/lib.rs:1200-1209 | so does any replay |
| `Supply.MintsTheSchedule` | src/lib.rs:1161-1183 | any replay mints exactly the subsidies that the schedule sets for its blocks, up to the cap |
| `Supply.SupplyCheckExact` | src/lib.rs:1200-1209 | from a balanced seed the node's supply check holds after a replay exactly when nothing was overwritten and nothing lies in escrow |
| `SpendHistory.TxEffect` | src/utxo_tx.rs:337-366 | the unspent outputs after a transaction: its inputs gone, its outputs there, every other one as it was |
| `SpendHistory.FreshTxLosesNothing` | src/utxo.rs:99-103 | a transaction whose outpoints are fresh destroys nothing |
| `SpendHistory.ReplayAccounted` | src/utxo.rs:99-115 | over any replay of blocks with their own coinbase ids and transactions with their own hashes: every live output comes from the seed, a replayed coinbase or an applied transaction, live coinbases are as their blocks made them, and what was spent never lives again |
| `SpendHistory.FreshReplayLosesNothing` | src/utxo.rs:19-53 | such a replay overwrites nothing: the total loss is zero |
| `SpendHistory.FreshReplayBalances` | src/lib.rs:1200-1209 | from a balanced seed, after every block of such a replay all that is minted is held, and the node's check holds exactly when nothing lies in escrow |
| `SpendHistory.CollisionDestroys` | src/utxo.rs:19-53 | two blocks of one replay that pay under one coinbase id, the second before the first's coin has matured: the replay loses value |
| `SpendHistory.LossExactly` | src/utxo.rs:19-53 | of blocks that all pay, within maturity, with coinbases and transactions new to the seed, a replay loses nothing exactly when every coinbase has its own id |
| `SpendHistory.SiblingsCollide` | src/utxo.rs:35-53 | two empty siblings that differ in their nonce alone, replayed from nothing, lose one reward |
| `NodeSupply.RunSupply` | src/lib.rs:1200-1313 | the same for the live ledger after any arrivals at a node, with the node's own rules; if the replayed blocks have their own coinbase ids and their transactions their own hashes, nothing is lost, all that is minted is held, and the check holds exactly when nothing lies in escrow |
| `Authority.OnlyTheSignerPays` | src/registry.rs:561-580 | a registry operation lowers no balance but its signer's, and that only to fund an escrow of which the signer is the buyer, by the amount funded |
| `Authority.OnlyOwnSignaturesTake` | src/lib.rs:1263-1313 | over any replay, account and stake of an address together lose no more than what that address itself signed into escrow |
| `Authority.OnlyTheOwnerStakes` | src/lib.rs:1317-1369 | over any replay without a well-formed custody operation of its owner a stake stays as it is |
| `Authority.FailureLeavesNoTrace` | src/registry.rs:436-456 | a failed registry operation leaves the ledger as it was exactly when its signature is bad, or the signer has an account and the nonce is wrong or can rise no further; otherwise it opened the account or used up the nonce and did nothing else |
| `Authority.FailureUsesNonce` | src/registry.rs:436-456 | an operation that fails and still moves its signer's nonce |
| `Authority.EscrowPaysOut` | src/registry.rs:581-699 | what an escrow holds leaves it all at once, to the seller or back to the buyer, only on the signature entitled to it |
| `Authority.TitleChangesHands` | src/registry.rs:487-623 | a title changes hands only by its owner while it is not in escrow, or to the buyer who releases a funded escrow on it |
| `Authority.ReplayKeepsPledges` | src/registry.rs:509-699 | at every point of every replay a pending escrow on a title has it locked in the seller's name, a locked title is locked by one pending escrow on it, and a funded escrow holds its full price |
| `Authority.DeliveryAgainstPayment` | src/registry.rs:581-623 | at any point of any replay a release that succeeds moves the title from the seller to the buyer and pays the seller at least the agreed price |
| `Authority.CustodyIsOwn` | src/lib.rs:1317-1369 | custody moves value between an account and its own stake and touches nobody else |
| `Authority.NoDoubleSpend` | src/utxo.rs:105-115 | once a transaction has passed its checks, no transaction that shares an input with it applies at any later point of the replay |
| `Authority.CoinbaseIsTheMiners` | src/lib.rs:1161-1183 | at every later point of a replay a block's coinbase is spent by its miner's key only, and not before it has matured |
| `Authority.RewardIsTheMiners` | src/lib.rs:1161-1183 | the same right after a reward, whatever the ledger was before it |
| `NodeSupply.CoinbaseCollision` | src/utxo.rs:19-53 | of two paying coinbases with one id the later destroys the earlier one's whole value |
| `NodeSupply.FundingBreaksCheck` | src/registry.rs:561-582 | funding an escrow breaks the node's own supply check, whatever the ledger |
| `NodeSupply.EscrowCounterexample` | src/lib.rs:1200-1209 | a concrete ledger and operation for which the check fails after it held |
| `Issuance.CumulativeIssuance` | src/genesis.rs:192-203 | the loop computes the sum of the subsidies below a score, and the cap never binds |
| `Issuance.SubsidyInEra` | src/genesis.rs:183-189 | within an era the subsidy is the reward halved once per era; the cut-off at 128 halvings changes nothing |
| `Difficulty.BluesDownOnce` | src/lib.rs:2479-2511 | the walk meets each blue below a block once, as many as its blue score |
| `Difficulty.CollectDaaBlueSamples` | src/lib.rs:2479-2511 | exactly min(window, max(1, blue score)) samples, the first blues of the walk; no duplicate is ever met |
| `Difficulty.SamplesAre` | src/lib.rs:2479-2511 | each sample is the timestamp of its block and its difficulty, counted as one at least |
| `Difficulty.SpanIsWidest` | src/lib.rs:2461-2462 | the span measured is the widest between two samples |
| `Difficulty.WorkAdds` | src/lib.rs:2463 | work is a sum: that of one sample is its difficulty, and two stretches add up |
| `Difficulty.QuarterClamps` | src/lib.rs:2466-2470 | the clamps lie a quarter of the base, or one, above it and a quarter, or at the floor, below it, as near as whole numbers allow |
| `Difficulty.RetargetBounds` | src/lib.rs:3900-3914 | for all 64-bit inputs the retarget stays within 3/4 and max(5/4, + 1) of its floored base exactly when the clamped value fits 64 bits or the floor is at the lower bound already; if it fits, slow blocks never raise it and fast blocks never lower it; below 2^63 it always fits |
| `Difficulty.RetargetWraps` | src/lib.rs:3900-3914 | whenever it does not fit, the blocks came too fast and the difficulty, which should rise, falls by more than a quarter or to the floor |
| `Difficulty.RetargetWrapsAt` | src/lib.rs:3900-3914 | the largest base with equal timestamps is such an input |
| `Difficulty.AverageFits` | src/lib.rs:2461-2464 | the average of 64-bit difficulties is not cut by its cast |
| `Difficulty.ExpectedDifficultyAt` | src/lib.rs:2444-2474 | for all 64-bit difficulties the required one is at least the era floor and within 3/4 and max(5/4, + 1) of the floored parent difficulty, exactly that difficulty until the window is full; the outer cast never cuts and every clamp is well formed |
| `EraFloors.UniformWindow` | src/lib.rs:2444-2474 | a full window of one difficulty is scaled by the ratio of the target span to its own, within the clamps |
| `EraFloors.SteadyState` | src/lib.rs:2444-2474 | blocks of one difficulty that took exactly the target span require that difficulty again |
| `Difficulty.SamePastSameDifficulty` | src/lib.rs:2444-2474 | nodes that hold the same inclusive past of the parents and whose live supplies give one era floor require the same difficulty |
| `EraFloors.FloorsWhileFilling` | src/lib.rs:2444-2474 | while the window fills, two nodes that hold the same inclusive past of the parents require the same difficulty exactly when their live supplies give one floor or neither floor exceeds the selected parent's difficulty |
| `EraFloors.FloorsWhenFull` | src/lib.rs:2444-2474 | once it is full, and if the scaled average fits 64 bits, they do exactly when the floors are the same, or the higher floor's scaling stays under three quarters of the parent's difficulty, or the average and its scaling reach the higher floor and the parent's upper clamp does not come between |
| `EraFloors.FarAboveFloors` | src/lib.rs:2466-2470 | in particular when three quarters of the parent's difficulty are above the higher floor's upper clamp |
| `HonestRuns.HonestRun` | src/lib.rs:697-934 | a fresh node that receives any number of honestly mined empty blocks below the first halving accepts each, holds exactly that chain, and its live supply is the reward times the height |
| `HonestRuns.AcceptedInFirstEra` | src/lib.rs:763-773 | one block on genesis, offered to nodes of one seed with such chains of different heights, is accepted exactly while the live supply is in the first era |
| `HonestRuns.NodesDisagree` | src/lib.rs:763-773 | two runs of one seed, the second with 20 000 blocks more: the first node accepts a block on what both hold and the second refuses it |
| `Mempool.ConflictSet` | src/lib.rs:2968-3002 | grows the direct conflicts to the least set closed under spending its members' outputs |
| `Mempool.ConflictSetUnique` | src/lib.rs:2968-3002 | there is only one such set |
| `Mempool.AncestorPackage` | src/lib.rs:3013-3033 | below the count limit the package is closed under parents |
| `Mempool.PackageIsLeast` | src/lib.rs:3013-3033 | nothing but ancestors is in a package: every set with the first entries that is closed under parents holds it |
| `Mempool.EvictionOrder` | src/lib.rs:3080-3092 | every entry once, by ascending package rate, the later entry first among equals |
| `Mempool.HowFar` | src/lib.rs:3093-3104 | how many entries of the order leave: as long as the bytes do not fit and the rate is lower |
| `Mempool.MakeRoom` | src/lib.rs:3079-3113 | exactly the entries go that are cheaper than the incoming package and whose predecessors in eviction order do not free enough; room is made exactly when all cheaper entries together would make it |
| `Mempool.PreviewIsComplete` | src/lib.rs:3142-3177 | one round more than there are queued transactions is enough: nothing left over applies on the preview |
| `Mempool.Worst` | src/lib.rs:3114-3135 | finds the first entry with the lowest (package rate, package fee) |
| `MempoolAdmission.ConflictsAreLeast` | src/lib.rs:2968-3002 | the entries in every set that covers the conflicts are the least such set |
| `MempoolAdmission.LedgerLinks` | src/lib.rs:2968-3018 | two transactions conflict exactly when some output is spent by both, and one that spends an output the other creates has it as a parent |
| `MempoolAdmission.IncomingPackageIs` | src/lib.rs:3013-3033 | below the limit the package of an offered transaction is the least set that holds its parents and theirs, without what it replaces |
| `MempoolAdmission.IncomingRateIs` | src/lib.rs:3039-3054 | its rate is the fees of the transaction and its ancestors over their bytes, rounded down |
| `MempoolAdmission.EntryRateIs` | src/lib.rs:3082-3090 | so is that of a queued entry, whose package holds the entry itself |
| `MempoolAdmission.OutbidsMeans` | src/lib.rs:3056-3070 | a replacement is allowed exactly when it pays for what it replaces and the least fee besides and some whole rate is reached by it and not by that; then it pays more per byte |
| `MempoolAdmission.ReplacementOutbids` | src/lib.rs:3056-3070 | whatever replaces conflicting entries pays more than they did, in total and per byte |
| `MempoolAdmission.AdmittedPasses` | src/lib.rs:2955-3048 | an admitted transaction is new and for this chain, fails no named check on the preview of the queue without its conflicts, and has a package of at most 25 transactions and 512 KiB |
| `MempoolAdmission.AdmittedStandsLast` | src/lib.rs:3136-3139 | it stands last, after entries that were queued and do not conflict with it |
| `MempoolAdmission.FullQueueTradesUp` | src/lib.rs:3114-3135 | a full queue takes a transaction whose bytes fit exactly when some entry's package pays a lower rate, or the same rate and a lower fee than the transaction; then an entry leaves that no other is below |
| `MempoolAdmission.UtxoMempool.Assess` | src/lib.rs:2955-3066 | the checks before any change, decided exactly, and the rate of the incoming package |
| `MempoolAdmission.UtxoMempool.AdmitUtxo` | src/lib.rs:2954-3139 | the outcome and the whole new queue as a function of the old one: nothing changes unless every check passes; then exactly the conflict set leaves, and the transaction is queued in free room, in the worst entry's place or after exactly the needed evictions; a replacement pays the removed fees plus the minimum, and more per byte; disjoint inputs, bytes and count hold again |
| `MempoolAdmission.RefusalExactly` | src/lib.rs:3050-3139 | a transaction is refused exactly when a check fails, when its bytes do not fit without all cheaper packages, or when it does not beat the worst of a full queue; a refusal leaves the queue alone exactly when a check failed or no entry shares an input, and otherwise removes the conflict set and nothing else |
| `MempoolExample.RefusalRemoves` | src/lib.rs:3050-3139 | for every owner, a run of offers against one ledger, each paying for its bytes and with an output, after which a replacement offered against that ledger is refused and has removed the transaction it would have replaced |
| `MempoolAdmission.Run` | src/lib.rs:2954-3139 | the queue is that function of the offers and confirmations, whatever they are; queued transactions have pairwise disjoint inputs and respect the byte and count limits |

## Left out

- Networking, HTTP API, command line roles, policy, explorer and persistence: plumbing around the modelled core.
- Signature, digest, proof-of-work and STARK internals: parameters or outcome fields here.
- The remaining checks of `add_block`: one boolean per arrival in `NodeRuns`. Sizes, proof of work, merkle root, witnesses, issuance and body form read the block alone; median time, parent timestamps and interlinks also read the blocks held.
- Error messages: an operation succeeds or fails, and its failure leaves what the code leaves.
- Account transfers between peers: disabled by `src/genesis.rs:29`, so blocks carry none here.
- The treasury counter, title histories, escrow memos, arbiters and display metadata: they move no value and nothing modelled reads them.
- 128-bit overflow of balances and sums: values are unbounded here; under the proved identity every total is at most the supply cap, far below the limit.
- The state commitment: an uninterpreted function of the ledger, although the code's leaves out registry and stake.
- Body pruning, and ledger theorems for nodes that prune: bodies go by blue score while folding goes by canonical prefix, so the ledger theorems are about archival nodes.
- Whole runs of a node after it has pruned: the pruning theorems cover any archival state, any number of prunings after it, and the data a pruned node computes for one new block.
- PrunedColoring.PruningExactly: is about the functions of `Ghostdag` over what a search of the kept blocks sees, and that the loops compute these functions is proved for archival graphs only; it assumes, as the comment it examines does, that no walk of the new block reaches across the pruning point, and `PrunedColoring.DroppedIsListed` shows one thing that happens otherwise.
- Oracle answers for a block whose selected parent is no longer indexed: it becomes a fresh root, as in the code, and `OracleRuns` does not let such an arrival take effect.
- A parents-first canonical order: each mergeset is emitted blues before reds, and a red can be an ancestor of a blue.
- `expected_difficulty_linear`, hop bounds, superblock proofs and pruning proofs: other formulas for other readers.
- Mempools of registry and custody operations, fee estimation, first-seen bookkeeping and block templates: easy members over the modelled ones.
- Vault transaction builders: they assemble transactions of the modelled kind.
- MempoolAdmission.UtxoMempool.DropIncluded: takes the entries to drop as a set; which queued transactions a block confirms or invalidates is up to the caller.
