/** Runs of a node whose blocks are all empty and honestly mined, and what the live supply then
    does to the acceptance of one more block. */
module HonestRuns {
  import opened Types
  import opened Lists
  import opened Dag
  import opened Ghostdag
  import opened GhostdagLocality
  import opened Canonical
  import opened Replay
  import opened LedgerSteps
  import opened BlockEffects
  import opened ChainStateMachine
  import opened ChainNode
  import opened ArchivalNode
  import opened NodeRuns
  import Difficulty

  const NO_OPS: Body := Body([], [], [])

  // ----- Empty blocks -----

  /** The state a node shows: its graph with the tips, and the ledgers seen from its blocks. */
  ghost predicate Stands(dag: BlockDag, past: Pasts, gd: Coloring, tips: seq<Hash>) {
    past == PastMap(dag) && Graph(dag, past, gd, tips)
  }

  /** An empty block on `parent` with the difficulty and the state root that a node asks for. */
  ghost function Mined(sem: Semantics, seed: Ledger, dag: BlockDag, past: Pasts, gd: Coloring, tips: seq<Hash>,
                       parent: Hash, coinbase: Hash): Block
    requires Stands(dag, past, gd, tips) && parent in gd
  {
    var score := gd[parent].blueScore + 1;
    var live := StateAt(sem, dag, gd, seed, Tip(gd, tips));
    var b := Block([parent], Difficulty.TARGET_BLOCK_TIME_MS * score,
                   Difficulty.Required(dag, past, gd, [parent], sem.floor(live)), 0, "miner", coinbase, NO_OPS);
    b.(stateRoot := sem.commit(sem.apply(StateAt(sem, dag, gd, seed, parent), b, score)))
  }

  lemma {:induction false} EmptyApplies(rules: Rules, l: Ledger, b: Block, score: nat)
    requires b.body == NO_OPS
    ensures Apply(rules, l, b, score) == Reward(l, b, score, 0)
    ensures Admit(rules, l, b, score) == Some(Reward(l, b, score, 0))
  {
  }

  /** All that is asked of a block's effect here: an empty block always applies, whatever its
      state root says, and mints the full reward before the first halving. */
  ghost predicate PaysForEmpty(sem: Semantics) {
    forall l: Ledger, b: Block, s: nat {:trigger sem.apply(l, b, s)} :: b.body == NO_OPS ==>
      && sem.admit(l, b, s) == Some(sem.apply(l, b, s))
      && sem.apply(l, b, s) == sem.apply(l, b.(stateRoot := 0), s)
      && (0 < s < HALVING_INTERVAL && l.minted == (s - 1) * BLOCK_REWARD ==>
            sem.apply(l, b, s).minted == s * BLOCK_REWARD)
  }

  /** The floor is that of the era the minted supply is in. */
  ghost predicate EraFloor(sem: Semantics) {
    forall l: Ledger {:trigger sem.floor(l)} :: sem.floor(l) == EraMinDifficulty(l.minted, false)
  }

  lemma {:induction false} FullSubsidy(l: Ledger, s: nat)
    requires 0 < s < HALVING_INTERVAL && l.minted == (s - 1) * BLOCK_REWARD
    ensures Subsidy(l, s) == BLOCK_REWARD
  {
    assert s / HALVING_INTERVAL == 0;
    assert l.minted + BLOCK_REWARD == s * BLOCK_REWARD <= HALVING_INTERVAL * BLOCK_REWARD;
  }

  lemma {:induction false} NodePays(rules: Rules, commit: Ledger -> Hash)
    ensures PaysForEmpty(NodeSemantics(rules, commit))
    ensures !rules.labEasy ==> EraFloor(NodeSemantics(rules, commit))
  {
    var sem := NodeSemantics(rules, commit);
    forall l: Ledger, b: Block, s: nat | b.body == NO_OPS
      ensures sem.admit(l, b, s) == Some(sem.apply(l, b, s))
      ensures sem.apply(l, b, s) == sem.apply(l, b.(stateRoot := 0), s)
      ensures 0 < s < HALVING_INTERVAL && l.minted == (s - 1) * BLOCK_REWARD ==>
              sem.apply(l, b, s).minted == s * BLOCK_REWARD
    {
      EmptyApplies(rules, l, b, s);
      EmptyApplies(rules, l, b.(stateRoot := 0), s);
      if 0 < s < HALVING_INTERVAL && l.minted == (s - 1) * BLOCK_REWARD {
        FullSubsidy(l, s);
      }
    }
  }

  lemma {:induction false} NothingToOrder(past: Pasts)
    ensures MergeOrder(past, {}) == []
  {
    MergeOrderUnique(past, {}, []);
  }

  lemma {:induction false} NothingToMerge(past: Pasts, p: Hash)
    requires p in past
    ensures MergeSet(past, [p], p) == {}
  {
    assert NewPast(past, [p]) == {p} + past[p];
  }

  /** The data of a block with one parent: one level up, nothing merged. */
  lemma {:induction false} SingleParentData(past: Pasts, gd: Coloring, p: Hash)
    requires DataReady(past, gd, [p]) && p in gd
    ensures Data(past, gd, [p]) == GhostdagData(gd[p].blueScore + 1, Some(p), [p], [])
  {
    HeaviestUnique(gd, [p], p);
    NothingToMerge(past, p);
    NothingToOrder(past);
  }

  /** Acceptance in terms of the node's own fields. */
  lemma {:induction false} AcceptableIs(sem: Semantics, seed: Ledger, dag: BlockDag, past: Pasts, gd: Coloring,
                                        tips: seq<Hash>, a: Arrival)
    requires Stands(dag, past, gd, tips)
    ensures Acceptable(sem, seed, dag, a) <==>
            && a.otherChecks && WellShaped(dag, a.h, a.block)
            && RightDifficulty(sem, past, dag, gd, StateAt(sem, dag, gd, seed, Tip(gd, tips)), a.block)
            && Admissible(sem, seed, past, dag, gd, FinalityOf(gd, Tip(gd, tips), FINALITY_DEPTH), a.block)
  {
    var t := Tip(gd, tips);
    ColoringOfIs(dag, gd);
    SelectedTipIs(dag, gd, t);
    LedgerAtIs(sem, dag, gd, seed, t);
  }

  lemma {:induction false} MinedRoot(sem: Semantics, seed: Ledger, dag: BlockDag, past: Pasts, gd: Coloring,
                                     tips: seq<Hash>, parent: Hash, coinbase: Hash)
    requires PaysForEmpty(sem) && Stands(dag, past, gd, tips) && parent in gd
    ensures var b := Mined(sem, seed, dag, past, gd, tips, parent, coinbase);
            var after := sem.admit(StateAt(sem, dag, gd, seed, parent), b, gd[parent].blueScore + 1);
            after.Some? && b.stateRoot == sem.commit(after.value)
  {
    var b, l := Mined(sem, seed, dag, past, gd, tips, parent, coinbase), StateAt(sem, dag, gd, seed, parent);
    assert sem.apply(l, b, gd[parent].blueScore + 1) == sem.apply(l, b.(stateRoot := 0), gd[parent].blueScore + 1);
  }

  /** A block on one parent passes once its ledger step does. */
  lemma {:induction false} SinglePasses(sem: Semantics, seed: Ledger, dag: BlockDag, past: Pasts, gd: Coloring,
                                        parent: Hash, b: Block)
    requires Consistent(dag, past, gd) && Replayable(dag, gd) && parent in dag && b.parents == [parent]
    requires var after := sem.admit(StateAt(sem, dag, gd, seed, parent), b, gd[parent].blueScore + 1);
             after.Some? && b.stateRoot == sem.commit(after.value)
    ensures Admissible(sem, seed, past, dag, gd, None, b)
  {
    UnfoldAdmissible(sem, seed, past, dag, gd, None, b);
    NewDataHeld(dag, past, gd, [parent]);
    SingleParentData(past, gd, parent);
    var d := NewData(past, gd, [parent]);
    assert Merged(d) == [];
    assert StateBefore(sem, dag, gd, seed, d) == StateAt(sem, dag, gd, seed, parent);
    assert Elements(Merged(d)) == {};
  }

  lemma {:induction false} SingleDifficulty(sem: Semantics, past: Pasts, dag: BlockDag, gd: Coloring, live: Ledger,
                                            parent: Hash, b: Block)
    requires Consistent(dag, past, gd) && b.parents == [parent]
    ensures RightDifficulty(sem, past, dag, gd, live, b) <==>
            b.difficulty == Difficulty.Required(dag, past, gd, [parent], sem.floor(live))
  {
    UnfoldDifficulty(sem, past, dag, gd, live, b);
  }

  lemma {:induction false} SingleShape(dag: BlockDag, gd: Coloring, parent: Hash, h: Hash, b: Block)
    requires gd.Keys == dag.Keys && parent in gd && h !in dag && b.parents == [parent]
    ensures WellShaped(dag, h, b)
  {
  }

  lemma {:induction false} SingleAcceptable(sem: Semantics, seed: Ledger, dag: BlockDag, past: Pasts, gd: Coloring,
                                            tips: seq<Hash>, parent: Hash, h: Hash, b: Block)
    requires Stands(dag, past, gd, tips) && parent in gd && h !in dag && b.parents == [parent]
    requires gd[Tip(gd, tips)].blueScore <= FINALITY_DEPTH
    requires var after := sem.admit(StateAt(sem, dag, gd, seed, parent), b, gd[parent].blueScore + 1);
             after.Some? && b.stateRoot == sem.commit(after.value)
    ensures Acceptable(sem, seed, dag, Arrival(h, b, true)) <==>
            b.difficulty == Difficulty.Required(dag, past, gd, [parent],
                                                sem.floor(StateAt(sem, dag, gd, seed, Tip(gd, tips))))
  {
    var live := StateAt(sem, dag, gd, seed, Tip(gd, tips));
    var right := b.difficulty == Difficulty.Required(dag, past, gd, [parent], sem.floor(live));
    SingleDifficulty(sem, past, dag, gd, live, parent, b);
    SingleShape(dag, gd, parent, h, b);
    SinglePasses(sem, seed, dag, past, gd, parent, b);
    AcceptableWhen(sem, seed, dag, past, gd, tips, h, b, live, right);
  }

  lemma {:induction false} AcceptableWhen(sem: Semantics, seed: Ledger, dag: BlockDag, past: Pasts, gd: Coloring,
                                          tips: seq<Hash>, h: Hash, b: Block, live: Ledger, right: bool)
    requires Stands(dag, past, gd, tips) && WellShaped(dag, h, b) && gd[Tip(gd, tips)].blueScore <= FINALITY_DEPTH
    requires live == StateAt(sem, dag, gd, seed, Tip(gd, tips)) && RightDifficulty(sem, past, dag, gd, live, b) == right
    requires Admissible(sem, seed, past, dag, gd, None, b)
    ensures Acceptable(sem, seed, dag, Arrival(h, b, true)) == right
  {
    AcceptableIs(sem, seed, dag, past, gd, tips, Arrival(h, b, true));
  }

  /** A node whose chain is not deeper than finality accepts such a block on any block it holds. */
  lemma {:induction false} MinedAcceptable(sem: Semantics, seed: Ledger, dag: BlockDag, past: Pasts, gd: Coloring,
                                           tips: seq<Hash>, parent: Hash, h: Hash, coinbase: Hash)
    requires PaysForEmpty(sem) && Stands(dag, past, gd, tips) && parent in gd && h !in dag
    requires gd[Tip(gd, tips)].blueScore <= FINALITY_DEPTH
    ensures Acceptable(sem, seed, dag, Arrival(h, Mined(sem, seed, dag, past, gd, tips, parent, coinbase), true))
  {
    var b := Mined(sem, seed, dag, past, gd, tips, parent, coinbase);
    MinedRoot(sem, seed, dag, past, gd, tips, parent, coinbase);
    SingleAcceptable(sem, seed, dag, past, gd, tips, parent, h, b);
  }

  // ----- Adding one -----

  function OneUp(d: GhostdagData, parent: Hash): GhostdagData {
    GhostdagData(d.blueScore + 1, Some(parent), [parent], [])
  }

  /** The graph after a block on one parent. */
  lemma {:induction false} SingleAdded(dag: BlockDag, past: Pasts, gd: Coloring, tips: seq<Hash>, parent: Hash,
                                       h: Hash, b: Block)
    requires Stands(dag, past, gd, tips) && parent in gd && h !in dag && b.parents == [parent]
    ensures Stands(dag[h := b], past[h := {parent} + past[parent]], gd[h := OneUp(gd[parent], parent)],
                   Filter(tips, {parent}) + [h])
  {
    var d := NewData(past, gd, [parent]);
    assert IsNewData(dag, past, gd, [parent], d) && d == OneUp(gd[parent], parent) by {
      NewDataHeld(dag, past, gd, [parent]);
      SingleParentData(past, gd, parent);
    }
    assert NewPast(past, [parent]) == {parent} + past[parent] && Elements([parent]) == {parent};
    SingleShape(dag, gd, parent, h, b);
    AcceptedGraph(dag, past, gd, tips, h, b, d);
    AcceptedPast(dag, past, h, b);
  }

  /** The ledger after it. */
  lemma {:induction false} SingleState(sem: Semantics, seed: Ledger, dag: BlockDag, gd: Coloring, parent: Hash,
                                       h: Hash, b: Block)
    requires Replayable(dag, gd) && parent in gd && h !in dag && b.parents == [parent]
    requires Replayable(dag[h := b], gd[h := OneUp(gd[parent], parent)])
    ensures StateAt(sem, dag[h := b], gd[h := OneUp(gd[parent], parent)], seed, h)
            == sem.apply(StateAt(sem, dag, gd, seed, parent), b, gd[parent].blueScore + 1)
  {
    var dag2, gd2 := dag[h := b], gd[h := OneUp(gd[parent], parent)];
    StateStep(sem, dag2, gd2, seed, h);
    StateKept(sem, dag, gd, dag2, gd2, seed, parent);
    assert Merged(gd2[h]) == [];
  }

  // ----- A chain of them -----

  datatype View = View(dag: BlockDag, past: Pasts, gd: Coloring)

  predicate Opens(key: Key, v: View, tip: Hash) { true }

  /** The node with this view has this one tip; unfolded only where a proof presents the key. */
  ghost predicate Topped(v: View, tip: Hash) {
    forall key {:trigger Opens(key, v, tip)} :: Opens(key, v, tip) ==> Stands(v.dag, v.past, v.gd, [tip])
  }

  lemma {:induction false} OpenTopped(v: View, tip: Hash)
    ensures Topped(v, tip) <==> Stands(v.dag, v.past, v.gd, [tip])
  {
    assert Opens(Key, v, tip);
  }

  ghost function LedgerIn(sem: Semantics, seed: Ledger, v: View, h: Hash): Ledger {
    if Replayable(v.dag, v.gd) && h in v.gd then StateAt(sem, v.dag, v.gd, seed, h) else seed
  }

  /** The block to be mined on `parent` by a node with one tip. */
  ghost function ToMine(sem: Semantics, seed: Ledger, v: View, tip: Hash, parent: Hash, coinbase: Hash): Block {
    if Stands(v.dag, v.past, v.gd, [tip]) && parent in v.gd
    then Mined(sem, seed, v.dag, v.past, v.gd, [tip], parent, coinbase)
    else Block([parent], 0, 0, 0, "", 0, NO_OPS)
  }

  ghost function Added(v: View, parent: Hash, h: Hash, b: Block): View {
    if parent in v.past && parent in v.gd
    then View(v.dag[h := b], v.past[h := {parent} + v.past[parent]], v.gd[h := OneUp(v.gd[parent], parent)]) else v
  }

  /** Genesis, named 0, with `n` empty blocks on top of each other, named after their height. */
  ghost function Grown(sem: Semantics, seed: Ledger, genesis: Block, n: nat): View {
    if n == 0 then View(map[0 := genesis], map[0 := {}], map[0 := GENESIS_DATA])
    else
      var v := Grown(sem, seed, genesis, n - 1);
      Added(v, n - 1, n, ToMine(sem, seed, v, n - 1, n - 1, n))
  }

  ghost function Honest(sem: Semantics, seed: Ledger, genesis: Block, n: nat): seq<Arrival> {
    if n == 0 then []
    else Honest(sem, seed, genesis, n - 1)
         + [Arrival(n, ToMine(sem, seed, Grown(sem, seed, genesis, n - 1), n - 1, n - 1, n), true)]
  }

  /** What the chain looks like at height `n`. */
  ghost predicate IsChain(sem: Semantics, seed: Ledger, genesis: Block, v: View, n: nat) {
    && Topped(v, n) && n in v.gd && v.gd[n].blueScore == n && (forall h :: h in v.dag ==> h <= n)
    && 0 in v.dag && v.dag[0] == genesis && 0 in v.gd && v.gd[0] == GENESIS_DATA
    && LedgerIn(sem, seed, v, n).minted == n * BLOCK_REWARD
  }

  lemma {:induction false} GenesisLedger(sem: Semantics, seed: Ledger, dag: BlockDag, gd: Coloring, g: Hash)
    requires Replayable(dag, gd) && g in gd && gd[g] == GENESIS_DATA && dag[g].parents == []
    ensures StateAt(sem, dag, gd, seed, g) == seed
  {
    assert Order(gd, g) == [g];
    assert Held(dag, gd, []) && [g][..0] == [];
    assert Replayed(sem, dag, gd, seed, [g]) == Effect(sem, seed, dag[g], 0);
  }

  lemma {:induction false} GenesisTopped(genesis: Block, v: View)
    requires genesis.parents == [] && v == View(map[0 := genesis], map[0 := {}], map[0 := GENESIS_DATA])
    ensures Topped(v, 0) && Replayable(v.dag, v.gd)
  {
    GenesisGraph(0, genesis);
    OpenTopped(v, 0);
  }

  lemma {:induction false} GenesisMinted(sem: Semantics, seed: Ledger, genesis: Block, v: View)
    requires genesis.parents == [] && v == View(map[0 := genesis], map[0 := {}], map[0 := GENESIS_DATA])
    requires Replayable(v.dag, v.gd)
    ensures LedgerIn(sem, seed, v, 0) == seed
  {
    GenesisLedger(sem, seed, v.dag, v.gd, 0);
  }

  lemma {:induction false} ChainStarts(sem: Semantics, seed: Ledger, genesis: Block)
    requires genesis.parents == [] && seed.minted == 0
    ensures IsChain(sem, seed, genesis, Grown(sem, seed, genesis, 0), 0)
  {
    var v := View(map[0 := genesis], map[0 := {}], map[0 := GENESIS_DATA]);
    GenesisTopped(genesis, v);
    GenesisMinted(sem, seed, genesis, v);
  }

  lemma {:induction false} ToMineShape(sem: Semantics, seed: Ledger, v: View, tip: Hash, parent: Hash, coinbase: Hash)
    ensures var b := ToMine(sem, seed, v, tip, parent, coinbase); b.body == NO_OPS && b.parents == [parent]
  {
  }

  lemma {:induction false} SingleOnTop(dag: BlockDag, past: Pasts, gd: Coloring, t: Hash, h: Hash, b: Block)
    requires Stands(dag, past, gd, [t]) && t in gd && h !in dag && b.parents == [t]
    ensures Stands(dag[h := b], past[h := {t} + past[t]], gd[h := OneUp(gd[t], t)], [h])
  {
    SingleAdded(dag, past, gd, [t], t, h, b);
    assert Filter([t], {t}) + [h] == [h];
  }

  lemma {:induction false} ChainTop(v: View, n: nat, b: Block)
    requires Topped(v, n) && n in v.gd && n in v.past && n + 1 !in v.dag && b.parents == [n]
    ensures Topped(Added(v, n, n + 1, b), n + 1)
  {
    OpenTopped(v, n);
    SingleOnTop(v.dag, v.past, v.gd, n, n + 1, b);
    OpenTopped(Added(v, n, n + 1, b), n + 1);
  }

  lemma {:induction false} ChainLedger(sem: Semantics, seed: Ledger, v: View, n: nat, b: Block)
    requires Topped(v, n) && n in v.gd && n in v.past && n + 1 !in v.dag && b.parents == [n]
    requires Topped(Added(v, n, n + 1, b), n + 1)
    ensures LedgerIn(sem, seed, Added(v, n, n + 1, b), n + 1) ==
            sem.apply(LedgerIn(sem, seed, v, n), b, v.gd[n].blueScore + 1)
  {
    var w := Added(v, n, n + 1, b);
    assert Replayable(v.dag, v.gd) by {
      OpenTopped(v, n);
    }
    assert Replayable(w.dag, w.gd) by {
      OpenTopped(w, n + 1);
    }
    SingleState(sem, seed, v.dag, v.gd, n, n + 1, b);
  }

  lemma {:induction false} ToppedShape(v: View, n: Hash)
    requires Topped(v, n)
    ensures v.past.Keys == v.dag.Keys == v.gd.Keys
  {
    OpenTopped(v, n);
  }

  lemma {:induction false} ChainExtends(sem: Semantics, seed: Ledger, genesis: Block, v: View, n: nat, b: Block)
    requires IsChain(sem, seed, genesis, v, n) && b.parents == [n]
    requires sem.apply(LedgerIn(sem, seed, v, n), b, n + 1).minted == (n + 1) * BLOCK_REWARD
    ensures IsChain(sem, seed, genesis, Added(v, n, n + 1, b), n + 1)
  {
    ToppedShape(v, n);
    ChainTop(v, n, b);
    ChainLedger(sem, seed, v, n, b);
  }

  lemma {:induction false} ChainGrows(sem: Semantics, seed: Ledger, genesis: Block, v: View, n: nat)
    requires PaysForEmpty(sem) && n + 1 < HALVING_INTERVAL && IsChain(sem, seed, genesis, v, n)
    ensures IsChain(sem, seed, genesis, Added(v, n, n + 1, ToMine(sem, seed, v, n, n, n + 1)), n + 1)
  {
    var b := ToMine(sem, seed, v, n, n, n + 1);
    ToMineShape(sem, seed, v, n, n, n + 1);
    assert sem.apply(LedgerIn(sem, seed, v, n), b, n + 1).minted == (n + 1) * BLOCK_REWARD;
    ChainExtends(sem, seed, genesis, v, n, b);
  }

  lemma {:induction false} OneTip(gd: Coloring, t: Hash)
    requires t in gd
    ensures Heaviest(gd, [t]) == Some(t) && Tip(gd, [t]) == t
  {
    HeaviestUnique(gd, [t], t);
  }

  lemma {:induction false} NextIsAccepted(sem: Semantics, seed: Ledger, genesis: Block, v: View, n: nat)
    requires PaysForEmpty(sem) && n < HALVING_INTERVAL && IsChain(sem, seed, genesis, v, n)
    ensures Acceptable(sem, seed, v.dag, Arrival(n + 1, ToMine(sem, seed, v, n, n, n + 1), true))
  {
    OpenTopped(v, n);
    OneTip(v.gd, n);
    MinedAcceptable(sem, seed, v.dag, v.past, v.gd, [n], n, n + 1, n + 1);
  }

  /** A fresh node that receives the blocks up to `n` holds exactly that chain. */
  ghost predicate Ran(sem: Semantics, seed: Ledger, genesis: Block, n: nat) {
    var v := Grown(sem, seed, genesis, n);
    && IsChain(sem, seed, genesis, v, n)
    && v.dag == After(sem, seed, map[0 := genesis], Honest(sem, seed, genesis, n))
  }

  /** It holds it block by block, and its live supply is the reward times the height. */
  lemma {:induction false} HonestRun(sem: Semantics, seed: Ledger, genesis: Block, n: nat)
    requires PaysForEmpty(sem) && genesis.parents == [] && seed.minted == 0 && n < HALVING_INTERVAL
    ensures Ran(sem, seed, genesis, n)
  {
    var ran := (k: nat) => Ran(sem, seed, genesis, k);
    HonestStart(sem, seed, genesis);
    forall k: nat | k + 1 < HALVING_INTERVAL && ran(k)
      ensures ran(k + 1)
    {
      HonestNext(sem, seed, genesis, k);
    }
    StepByStep(ran, n, HALVING_INTERVAL);
  }

  lemma {:induction false} StepByStep(ran: nat -> bool, n: nat, limit: nat)
    requires n < limit && ran(0) && forall k: nat :: k + 1 < limit && ran(k) ==> ran(k + 1)
    ensures ran(n)
  {
    for k := 0 to n
      invariant ran(k)
    {
    }
  }

  lemma {:induction false} HonestStart(sem: Semantics, seed: Ledger, genesis: Block)
    requires genesis.parents == [] && seed.minted == 0
    ensures Ran(sem, seed, genesis, 0)
  {
    ChainStarts(sem, seed, genesis);
  }

  lemma {:induction false} HonestNext(sem: Semantics, seed: Ledger, genesis: Block, n: nat)
    requires PaysForEmpty(sem) && n + 1 < HALVING_INTERVAL && Ran(sem, seed, genesis, n)
    ensures Ran(sem, seed, genesis, n + 1)
  {
    var v := Grown(sem, seed, genesis, n);
    ChainGrows(sem, seed, genesis, v, n);
    NextIsAccepted(sem, seed, genesis, v, n);
    ToppedShape(v, n);
    HonestStep(sem, seed, genesis, n + 1);
  }

  lemma {:induction false} HonestStep(sem: Semantics, seed: Ledger, genesis: Block, n: nat)
    requires n > 0
    requires var v := Grown(sem, seed, genesis, n - 1);
             && n - 1 in v.past && n - 1 in v.gd
             && v.dag == After(sem, seed, map[0 := genesis], Honest(sem, seed, genesis, n - 1))
             && Acceptable(sem, seed, v.dag, Arrival(n, ToMine(sem, seed, v, n - 1, n - 1, n), true))
    ensures Grown(sem, seed, genesis, n).dag == After(sem, seed, map[0 := genesis], Honest(sem, seed, genesis, n))
  {
    var h := Honest(sem, seed, genesis, n - 1);
    var a := Arrival(n, ToMine(sem, seed, Grown(sem, seed, genesis, n - 1), n - 1, n - 1, n), true);
    assert (h + [a])[..|h|] == h;
  }

  // ----- The live supply decides -----

  /** An empty block on genesis, as a fresh node asks for it. */
  ghost function OnGenesis(sem: Semantics, seed: Ledger, genesis: Block, coinbase: Hash): Block {
    ToMine(sem, seed, Grown(sem, seed, genesis, 0), 0, 0, coinbase)
  }

  ghost function RequiredIn(v: View, parent: Hash, floor: nat): nat {
    if Consistent(v.dag, v.past, v.gd) then Difficulty.Required(v.dag, v.past, v.gd, [parent], floor) else 0
  }

  /** A block on one parent, offered to a node with one tip, stands or falls with its difficulty. */
  lemma {:induction false} ToppedAccepts(sem: Semantics, seed: Ledger, v: View, t: Hash, parent: Hash, h: Hash,
                                         b: Block)
    requires Topped(v, t) && t in v.gd && v.gd[t].blueScore <= FINALITY_DEPTH && parent in v.gd && h !in v.dag
    requires b.parents == [parent]
    requires var after := sem.admit(LedgerIn(sem, seed, v, parent), b, v.gd[parent].blueScore + 1);
             after.Some? && b.stateRoot == sem.commit(after.value)
    ensures Acceptable(sem, seed, v.dag, Arrival(h, b, true)) <==>
            b.difficulty == RequiredIn(v, parent, sem.floor(LedgerIn(sem, seed, v, t)))
  {
    OpenTopped(v, t);
    OneTip(v.gd, t);
    SingleAcceptable(sem, seed, v.dag, v.past, v.gd, [t], parent, h, b);
  }

  /** Whatever chain a node holds, a block on its genesis needs the floor of its live supply. */
  lemma {:induction false} OnGenesisAt(sem: Semantics, seed: Ledger, genesis: Block, v: View, n: nat, floor: nat)
    requires IsChain(sem, seed, genesis, v, n) && genesis.parents == []
    ensures LedgerIn(sem, seed, v, 0) == seed && RequiredIn(v, 0, floor) == Difficulty.Max(genesis.difficulty, floor)
  {
    OpenTopped(v, n);
    OneTip(v.gd, 0);
    GenesisLedger(sem, seed, v.dag, v.gd, 0);
  }

  /** The block a fresh node asks for, offered to a node with a chain of height `n`. */
  lemma {:induction false} OfferedOnGenesis(sem: Semantics, seed: Ledger, genesis: Block, v: View, n: nat, h: Hash,
                                            b: Block)
    requires IsChain(sem, seed, genesis, v, n) && genesis.parents == [] && n <= FINALITY_DEPTH && h !in v.dag
    requires b.parents == [0]
    requires var after := sem.admit(seed, b, 1); after.Some? && b.stateRoot == sem.commit(after.value)
    ensures Acceptable(sem, seed, v.dag, Arrival(h, b, true)) <==>
            b.difficulty == Difficulty.Max(genesis.difficulty, sem.floor(LedgerIn(sem, seed, v, n)))
  {
    OnGenesisAt(sem, seed, genesis, v, n, sem.floor(LedgerIn(sem, seed, v, n)));
    ToppedAccepts(sem, seed, v, n, 0, h, b);
  }

  lemma {:induction false} OnGenesisBlock(sem: Semantics, seed: Ledger, genesis: Block, h: Hash)
    requires PaysForEmpty(sem) && genesis.parents == [] && seed.minted == 0
    ensures var b := OnGenesis(sem, seed, genesis, h);
            && b.parents == [0] && b.difficulty == Difficulty.Max(genesis.difficulty, sem.floor(seed))
            && sem.admit(seed, b, 1).Some? && b.stateRoot == sem.commit(sem.admit(seed, b, 1).value)
  {
    var v := Grown(sem, seed, genesis, 0);
    ChainStarts(sem, seed, genesis);
    OpenTopped(v, 0);
    OneTip(v.gd, 0);
    OnGenesisAt(sem, seed, genesis, v, 0, sem.floor(seed));
    MinedRoot(sem, seed, v.dag, v.past, v.gd, [0], 0, h);
  }

  /** One block on genesis, offered to nodes of one seed that hold honest chains of different
      heights: it is accepted exactly while the live supply is in the first era. */
  lemma {:induction false} AcceptedInFirstEra(sem: Semantics, seed: Ledger, genesis: Block, n: nat, h: Hash)
    requires PaysForEmpty(sem) && EraFloor(sem) && genesis.parents == []
    requires genesis.difficulty < HARD_ERA_MIN_DIFFICULTY && seed.minted == 0
    requires n < HALVING_INTERVAL && h > n
    ensures var dag := After(sem, seed, map[0 := genesis], Honest(sem, seed, genesis, n));
            Acceptable(sem, seed, dag, Arrival(h, OnGenesis(sem, seed, genesis, h), true)) <==>
            n * BLOCK_REWARD < BOOTSTRAP_ERA_END
  {
    HonestRun(sem, seed, genesis, n);
    OnGenesisBlock(sem, seed, genesis, h);
    OfferedOnGenesis(sem, seed, genesis, Grown(sem, seed, genesis, n), n, h, OnGenesis(sem, seed, genesis, h));
  }

  lemma {:induction false} AcceptedFresh(sem: Semantics, seed: Ledger, genesis: Block, h: Hash)
    requires PaysForEmpty(sem) && genesis.parents == [] && seed.minted == 0 && h > 0
    ensures Acceptable(sem, seed, map[0 := genesis], Arrival(h, OnGenesis(sem, seed, genesis, h), true))
  {
    var v := Grown(sem, seed, genesis, 0);
    ChainStarts(sem, seed, genesis);
    OnGenesisBlock(sem, seed, genesis, h);
    OnGenesisAt(sem, seed, genesis, v, 0, 0);
    OfferedOnGenesis(sem, seed, genesis, v, 0, h, OnGenesis(sem, seed, genesis, h));
  }

  lemma {:induction false} RefusedLater(sem: Semantics, seed: Ledger, genesis: Block, n: nat, dag: BlockDag, a: Arrival)
    requires PaysForEmpty(sem) && EraFloor(sem)
    requires genesis.parents == [] && genesis.difficulty < HARD_ERA_MIN_DIFFICULTY && seed.minted == 0
    requires n < HALVING_INTERVAL && n * BLOCK_REWARD >= BOOTSTRAP_ERA_END
    requires dag == After(sem, seed, map[0 := genesis], Honest(sem, seed, genesis, n))
    requires a == Arrival(n + 1, OnGenesis(sem, seed, genesis, n + 1), true)
    ensures !Acceptable(sem, seed, dag, a)
  {
    AcceptedInFirstEra(sem, seed, genesis, n, n + 1);
  }

  /** Two nodes of one seed, the second with 20 000 blocks more, and one block on what both hold:
      the first accepts it, the second refuses it. */
  lemma {:induction false} NodesDisagree(rules: Rules, commit: Ledger -> Hash, sem: Semantics, seed: Ledger,
                                         genesis: Block, n: nat, a: Arrival)
    requires sem == NodeSemantics(rules, commit) && !rules.labEasy && seed.minted == 0
    requires genesis.parents == [] && genesis.difficulty < HARD_ERA_MIN_DIFFICULTY
    requires n * BLOCK_REWARD == BOOTSTRAP_ERA_END
    requires a == Arrival(n + 1, OnGenesis(sem, seed, genesis, n + 1), true)
    ensures Acceptable(sem, seed, map[0 := genesis], a)
    ensures !Acceptable(sem, seed, After(sem, seed, map[0 := genesis], Honest(sem, seed, genesis, n)), a)
  {
    NodePays(rules, commit);
    AcceptedFresh(sem, seed, genesis, n + 1);
    RefusedLater(sem, seed, genesis, n, After(sem, seed, map[0 := genesis], Honest(sem, seed, genesis, n)), a);
  }
}
