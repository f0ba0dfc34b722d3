/** The archival node itself (src/lib.rs, `ChainState`): the fields `add_block` updates in
    place and the invariant every accepted or refused block keeps. */
module ArchivalNode {
  import opened Types
  import opened Lists
  import opened Dag
  import opened Forest
  import opened ReachabilityOracle
  import opened Ghostdag
  import opened GhostdagLocality
  import opened GhostdagCompute
  import opened Canonical
  import opened Replay
  import opened ChainStateMachine
  import opened ChainNode
  import Difficulty

  // ----- What the fields mean -----

  /** The chain of the selected tip. */
  ghost function MainChain(gd: Coloring, tips: seq<Hash>): seq<Hash> {
    if ChainDown(gd) && Heaviest(gd, tips).Some? then Chain(gd, Tip(gd, tips)) else []
  }

  /** The replay of the canonical order of the selected tip from the seed. */
  ghost function LiveState(sem: Semantics, dag: BlockDag, gd: Coloring, tips: seq<Hash>, seed: Ledger): Ledger {
    if Replayable(dag, gd) && Heaviest(gd, tips).Some? then StateAt(sem, dag, gd, seed, Tip(gd, tips)) else seed
  }

  /** The finality point of the selected tip. */
  ghost function FinalityPoint(gd: Coloring, tips: seq<Hash>): Option<Hash> {
    if ChainDown(gd) && Heaviest(gd, tips).Some? then FinalityOf(gd, Tip(gd, tips), FINALITY_DEPTH) else None
  }

  /** The base a replay starts from: the live ledger until the first block captures it. */
  function ReplayBase(ledger: Ledger, base: Ledger, captured: bool): Ledger {
    if captured then base else ledger
  }

  /** `f` is none, or both are on the chain with `f` at or below `g`. */
  ghost predicate AtOrBelow(chain: seq<Hash>, f: Option<Hash>, g: Option<Hash>) {
    f.Some? ==> g.Some? && exists i, j :: 0 <= i <= j < |chain| && chain[i] == f.value && chain[j] == g.value
  }

  /** What the block graph, the oracle and the base satisfy between two steps of `add_block`:
      the data is consistent, the oracle answers, every header agrees with replay, and the
      base is the state at a frontier that the finality point has not passed below. */
  ghost predicate StagedFacts(sem: Semantics, seed: Ledger, past: Pasts, dag: BlockDag, gd: Coloring, tips: seq<Hash>,
                              nodes: Nodes, base: Ledger, frontier: Option<Hash>)
  {
    && Lawful(sem) && Graph(dag, past, gd, tips) && OracleServes(nodes, past, gd)
    && HeadersAgree(sem, dag, gd, seed)
    && BaseBelow(sem, dag, gd, seed, base, frontier, Tip(gd, tips))
    && FrontierBehind(gd, Tip(gd, tips), frontier)
  }

  predicate Unlocks(key: Key, dag: BlockDag, gd: Coloring, nodes: Nodes, base: Ledger, frontier: Option<Hash>) { true }

  predicate UnlocksBlock(key: Key, dag: BlockDag, block: Block) { true }

  /** The same facts, unfolded only in proofs that present the key. */
  ghost predicate Staged(sem: Semantics, seed: Ledger, past: Pasts, dag: BlockDag, gd: Coloring, tips: seq<Hash>,
                         nodes: Nodes, base: Ledger, frontier: Option<Hash>)
  {
    forall key {:trigger Unlocks(key, dag, gd, nodes, base, frontier)} ::
      Unlocks(key, dag, gd, nodes, base, frontier) ==>
      StagedFacts(sem, seed, past, dag, gd, tips, nodes, base, frontier)
  }

  lemma {:induction false} UnfoldStaged(sem: Semantics, seed: Ledger, past: Pasts, dag: BlockDag, gd: Coloring,
                                        tips: seq<Hash>, nodes: Nodes, base: Ledger, frontier: Option<Hash>)
    requires Staged(sem, seed, past, dag, gd, tips, nodes, base, frontier)
    ensures StagedFacts(sem, seed, past, dag, gd, tips, nodes, base, frontier)
  {
    assert Unlocks(Key, dag, gd, nodes, base, frontier);
  }

  lemma {:induction false} StagedShape(sem: Semantics, seed: Ledger, past: Pasts, dag: BlockDag, gd: Coloring,
                                       tips: seq<Hash>, nodes: Nodes, base: Ledger, frontier: Option<Hash>)
    requires Staged(sem, seed, past, dag, gd, tips, nodes, base, frontier)
    ensures ChainDown(gd) && gd.Keys == dag.Keys && (frontier.Some? ==> frontier.value in gd)
  {
    UnfoldStaged(sem, seed, past, dag, gd, tips, nodes, base, frontier);
  }

  lemma {:induction false} InsertKeepsFolded(sem: Semantics, seed: Ledger, past: Pasts, dag: BlockDag, gd: Coloring,
                                             tips: seq<Hash>, nodes: Nodes, base: Ledger, frontier: Option<Hash>,
                                             h: Hash, block: Block, d: GhostdagData, hpast: set<Hash>, nodes2: Nodes)
    requires Staged(sem, seed, past, dag, gd, tips, nodes, base, frontier) && h !in dag
    requires Staged(sem, seed, past[h := hpast], dag[h := block], gd[h := d],
                    Filter(tips, Elements(block.parents)) + [h], nodes2, base, frontier)
    ensures FoldedList(gd[h := d], frontier) == FoldedList(gd, frontier)
  {
    StagedShape(sem, seed, past, dag, gd, tips, nodes, base, frontier);
    StagedShape(sem, seed, past[h := hpast], dag[h := block], gd[h := d], Filter(tips, Elements(block.parents)) + [h],
                nodes2, base, frontier);
    FoldedListKept(gd, gd[h := d], frontier);
  }

  /** The data of a new block with these parents. */
  ghost function NewData(past: Pasts, gd: Coloring, parents: seq<Hash>): GhostdagData {
    if DataReady(past, gd, parents) then Data(past, gd, parents) else GENESIS_DATA
  }

  /** What admission decides about a block whose parents are held. */
  ghost predicate AdmissibleFacts(sem: Semantics, seed: Ledger, past: Pasts, dag: BlockDag, gd: Coloring,
                                  fp: Option<Hash>, block: Block)
  {
    && IsNewData(dag, past, gd, block.parents, NewData(past, gd, block.parents))
    && Replayable(dag, gd) && Passes(sem, dag, gd, seed, fp, block, NewData(past, gd, block.parents))
  }

  ghost predicate Admissible(sem: Semantics, seed: Ledger, past: Pasts, dag: BlockDag, gd: Coloring, fp: Option<Hash>,
                             block: Block)
  {
    forall key {:trigger UnlocksBlock(key, dag, block)} :: UnlocksBlock(key, dag, block) ==>
      AdmissibleFacts(sem, seed, past, dag, gd, fp, block)
  }

  lemma {:induction false} UnfoldAdmissible(sem: Semantics, seed: Ledger, past: Pasts, dag: BlockDag, gd: Coloring,
                                            fp: Option<Hash>, block: Block)
    ensures Admissible(sem, seed, past, dag, gd, fp, block) <==> AdmissibleFacts(sem, seed, past, dag, gd, fp, block)
  {
    assert UnlocksBlock(Key, dag, block);
  }

  predicate UnlocksDifficulty(key: Key, dag: BlockDag, live: Ledger, block: Block) { true }

  /** The block claims the difficulty its parents require while `live` is the live ledger. */
  ghost predicate DifficultyFacts(sem: Semantics, past: Pasts, dag: BlockDag, gd: Coloring, live: Ledger,
                                  block: Block)
  {
    Consistent(dag, past, gd) && block.difficulty == Difficulty.Required(dag, past, gd, block.parents, sem.floor(live))
  }

  ghost predicate RightDifficulty(sem: Semantics, past: Pasts, dag: BlockDag, gd: Coloring, live: Ledger,
                                  block: Block)
  {
    forall key {:trigger UnlocksDifficulty(key, dag, live, block)} ::
      UnlocksDifficulty(key, dag, live, block) ==> DifficultyFacts(sem, past, dag, gd, live, block)
  }

  lemma {:induction false} UnfoldDifficulty(sem: Semantics, past: Pasts, dag: BlockDag, gd: Coloring, live: Ledger,
                                            block: Block)
    ensures RightDifficulty(sem, past, dag, gd, live, block) <==> DifficultyFacts(sem, past, dag, gd, live, block)
  {
    assert UnlocksDifficulty(Key, dag, live, block);
  }

  // ----- Steps on values -----

  lemma {:induction false} GenesisStaged(sem: Semantics, seed: Ledger, g: Hash, genesis: Block, nodes: Nodes)
    requires Lawful(sem) && genesis.parents == [] && nodes.Keys == {g}
    requires Answers(nodes, map[g := {}]) && ChainAnswers(nodes, map[g := {g}])
    ensures Staged(sem, seed, map[g := {}], map[g := genesis], map[g := GENESIS_DATA], [g], nodes, seed, None)
  {
    var dag: BlockDag, gd: Coloring := map[g := genesis], map[g := GENESIS_DATA];
    assert Graph(dag, map[g := {}], gd, [g]) by {
      GenesisGraph(g, genesis);
    }
    assert ChainSets(gd) == map[g := {g}] && HeadersAgree(sem, dag, gd, seed) by {
      GenesisState(sem, g, genesis, seed);
    }
  }

  lemma {:induction false} GenesisValues(sem: Semantics, seed: Ledger, g: Hash, genesis: Block)
    requires genesis.parents == []
    ensures var dag: BlockDag, gd: Coloring := map[g := genesis], map[g := GENESIS_DATA];
            [g] == MainChain(gd, [g]) && seed == LiveState(sem, dag, gd, [g], seed) && FinalityPoint(gd, [g]) == None
  {
    GenesisGraph(g, genesis);
    GenesisState(sem, g, genesis, seed);
    var gd: Coloring := map[g := GENESIS_DATA];
    assert Tip(gd, [g]) == g;
  }

  /** The base can serve the replay at the selected parent of an admissible block. */
  lemma {:induction false} BaseServes(sem: Semantics, dag: BlockDag, gd: Coloring, seed: Ledger, base: Ledger,
                                      frontier: Option<Hash>, t: Hash, sp: Hash)
    requires Replayable(dag, gd) && t in gd && sp in gd && BaseBelow(sem, dag, gd, seed, base, frontier, t)
    requires frontier.Some? ==> OnChain(gd, frontier.value, sp)
    ensures BaseBelow(sem, dag, gd, seed, base, frontier, sp)
  {
  }

  lemma {:induction false} ChainQuery(nodes: Nodes, past: Pasts, gd: Coloring, a: Hash, b: Hash)
    requires ChainDown(gd) && OracleServes(nodes, past, gd) && a in gd && b in gd
    ensures ChainReaches(nodes, a, b) <==> OnChain(gd, a, b)
  {
    assert a in ChainSets(gd)[b] <==> a in Chain(gd, b);
  }

  /** What the oracle is told about an admitted block is true. */
  lemma {:induction false} OracleUpdate(sem: Semantics, seed: Ledger, past: Pasts, dag: BlockDag, gd: Coloring,
                                        tips: seq<Hash>, nodes: Nodes, base: Ledger, frontier: Option<Hash>, h: Hash,
                                        block: Block, d: GhostdagData)
    requires Staged(sem, seed, past, dag, gd, tips, nodes, base, frontier) && WellShaped(dag, h, block)
    requires Admissible(sem, seed, past, dag, gd, frontier, block) && d == NewData(past, gd, block.parents)
    ensures forall p :: p in block.parents ==> p in past
    ensures ChainDown(gd) && Answers(nodes, past) && ChainAnswers(nodes, ChainSets(gd))
    ensures h !in nodes && (forall b :: b in nodes ==> h !in ChainSets(gd)[b])
    ensures TruePast(nodes, past, TreeParent(nodes, d.selectedParent), Merged(d), h, NewPast(past, block.parents))
  {
    UnfoldStaged(sem, seed, past, dag, gd, tips, nodes, base, frontier);
    UnfoldAdmissible(sem, seed, past, dag, gd, frontier, block);
    AcceptedIsNew(dag, past, gd, h, block);
    AcceptedGraph(dag, past, gd, tips, h, block, d);
    ChainSetsExtend(gd, h, d);
    NewPastIsTrue(nodes, dag, past, gd, h, block.parents, d);
  }

  /** After a block is recorded, its header agrees with replay, and the base and the
      frontier serve the new selected tip. */
  lemma {:induction false} InsertedBase(sem: Semantics, seed: Ledger, dag: BlockDag, gd: Coloring, t: Hash,
                                        base: Ledger, frontier: Option<Hash>, h: Hash, block: Block, d: GhostdagData,
                                        dag2: BlockDag, gd2: Coloring, t2: Hash)
    requires Replayable(dag, gd) && h !in gd && IsHeaviest(gd, t) && dag2 == dag[h := block]
    requires BaseBelow(sem, dag, gd, seed, base, frontier, t) && frontier == FinalityOf(gd, t, FINALITY_DEPTH)
    requires d.selectedParent.Some? && d.selectedParent.value in gd
    requires frontier.Some? ==> OnChain(gd, frontier.value, d.selectedParent.value)
    requires gd2 == gd[h := d] && Replayable(dag2, gd2) && IsHeaviest(gd2, t2)
    ensures BaseBelow(sem, dag2, gd2, seed, base, frontier, t2) && FrontierBehind(gd2, t2, frontier)
  {
    AcceptedFinality(gd, gd2, h, d, t, t2, frontier);
    AcceptedBaseBelow(sem, dag, gd, dag2, gd2, seed, base, frontier, t, t2);
  }

  lemma {:induction false} InsertedHeaders(sem: Semantics, seed: Ledger, dag: BlockDag, gd: Coloring,
                                           frontier: Option<Hash>, h: Hash, block: Block, d: GhostdagData,
                                           dag2: BlockDag, gd2: Coloring)
    requires Lawful(sem) && Replayable(dag, gd) && HeadersAgree(sem, dag, gd, seed) && h !in dag
    requires d.selectedParent.Some? && d.selectedParent.value in gd && Held(dag, gd, Merged(d)) && block.parents != []
    requires Passes(sem, dag, gd, seed, frontier, block, d)
    requires dag2 == dag[h := block] && gd2 == gd[h := d] && Replayable(dag2, gd2)
    ensures HeadersAgree(sem, dag2, gd2, seed)
  {
    AcceptedRootAgrees(sem, dag, gd, seed, h, block, d, frontier, dag2, gd2);
    HeadersStillAgree(sem, dag, gd, dag2, gd2, seed, h);
  }

  lemma {:induction false} InsertedServes(nodes: Nodes, gd: Coloring, h: Hash, d: GhostdagData, past2: Pasts,
                                          gd2: Coloring, nodes2: Nodes)
    requires ChainDown(gd) && h !in gd && gd2 == gd[h := d] && ChainDown(gd2) && nodes.Keys == gd.Keys
    requires d.selectedParent.Some? && d.selectedParent.value in gd && nodes2.Keys == nodes.Keys + {h}
    requires Answers(nodes2, past2)
    requires ChainAnswers(nodes2, ChainSets(gd)[h := NewChain(ChainSets(gd), TreeParent(nodes, d.selectedParent), h)])
    ensures OracleServes(nodes2, past2, gd2)
  {
    ChainSetsExtend(gd, h, d);
  }

  /** After a block is recorded the node is staged again, on the extended graph. */
  lemma {:induction false} InsertStages(sem: Semantics, seed: Ledger, past: Pasts, dag: BlockDag, gd: Coloring,
                                        tips: seq<Hash>, nodes: Nodes, base: Ledger, frontier: Option<Hash>, h: Hash,
                                        block: Block, d: GhostdagData, nodes2: Nodes)
    requires Staged(sem, seed, past, dag, gd, tips, nodes, base, frontier) && frontier == FinalityPoint(gd, tips)
    requires WellShaped(dag, h, block) && Admissible(sem, seed, past, dag, gd, frontier, block)
    requires d == NewData(past, gd, block.parents)
    requires ChainDown(gd) && (forall p :: p in block.parents ==> p in past) && nodes2.Keys == nodes.Keys + {h}
    requires Answers(nodes2, past[h := NewPast(past, block.parents)])
    requires ChainAnswers(nodes2, ChainSets(gd)[h := NewChain(ChainSets(gd), TreeParent(nodes, d.selectedParent), h)])
    ensures Staged(sem, seed, past[h := NewPast(past, block.parents)], dag[h := block], gd[h := d],
                   Filter(tips, Elements(block.parents)) + [h], nodes2, base, frontier)
  {
    var dag2, past2, gd2 := dag[h := block], past[h := NewPast(past, block.parents)], gd[h := d];
    var tips2 := Filter(tips, Elements(block.parents)) + [h];
    assert Lawful(sem) && Graph(dag2, past2, gd2, tips2) && OracleServes(nodes2, past2, gd2) by {
      UnfoldStaged(sem, seed, past, dag, gd, tips, nodes, base, frontier);
      UnfoldAdmissible(sem, seed, past, dag, gd, frontier, block);
      AcceptedGraph(dag, past, gd, tips, h, block, d);
      InsertedServes(nodes, gd, h, d, past2, gd2, nodes2);
    }
    var t2 := Tip(gd2, tips2);
    InsertedLedgers(sem, seed, past, dag, gd, tips, nodes, base, frontier, h, block, d, dag2, gd2, t2);
    Stage(sem, seed, past2, dag2, gd2, tips2, nodes2, base, frontier);
  }

  lemma {:induction false} Stage(sem: Semantics, seed: Ledger, past: Pasts, dag: BlockDag, gd: Coloring,
                                 tips: seq<Hash>, nodes: Nodes, base: Ledger, frontier: Option<Hash>)
    requires StagedFacts(sem, seed, past, dag, gd, tips, nodes, base, frontier)
    ensures Staged(sem, seed, past, dag, gd, tips, nodes, base, frontier)
  {
  }

  lemma {:induction false} InsertedLedgers(sem: Semantics, seed: Ledger, past: Pasts, dag: BlockDag, gd: Coloring,
                                           tips: seq<Hash>, nodes: Nodes, base: Ledger, frontier: Option<Hash>,
                                           h: Hash, block: Block, d: GhostdagData, dag2: BlockDag, gd2: Coloring,
                                           t2: Hash)
    requires Staged(sem, seed, past, dag, gd, tips, nodes, base, frontier) && frontier == FinalityPoint(gd, tips)
    requires h !in dag && block.parents != [] && Admissible(sem, seed, past, dag, gd, frontier, block)
    requires d == NewData(past, gd, block.parents)
    requires dag2 == dag[h := block] && gd2 == gd[h := d] && Replayable(dag2, gd2) && IsHeaviest(gd2, t2)
    ensures HeadersAgree(sem, dag2, gd2, seed)
    ensures BaseBelow(sem, dag2, gd2, seed, base, frontier, t2) && FrontierBehind(gd2, t2, frontier)
  {
    assert HeadersAgree(sem, dag2, gd2, seed) by {
      UnfoldStaged(sem, seed, past, dag, gd, tips, nodes, base, frontier);
      UnfoldAdmissible(sem, seed, past, dag, gd, frontier, block);
      InsertedHeaders(sem, seed, dag, gd, frontier, h, block, d, dag2, gd2);
    }
    BaseAfterInsert(sem, seed, past, dag, gd, tips, nodes, base, frontier, h, block, d, dag2, gd2, t2);
  }

  lemma {:induction false} BaseAfterInsert(sem: Semantics, seed: Ledger, past: Pasts, dag: BlockDag, gd: Coloring,
                                           tips: seq<Hash>, nodes: Nodes, base: Ledger, frontier: Option<Hash>,
                                           h: Hash, block: Block, d: GhostdagData, dag2: BlockDag, gd2: Coloring,
                                           t2: Hash)
    requires Staged(sem, seed, past, dag, gd, tips, nodes, base, frontier) && frontier == FinalityPoint(gd, tips)
    requires h !in dag && Admissible(sem, seed, past, dag, gd, frontier, block) && d == NewData(past, gd, block.parents)
    requires dag2 == dag[h := block] && gd2 == gd[h := d] && Replayable(dag2, gd2) && IsHeaviest(gd2, t2)
    ensures BaseBelow(sem, dag2, gd2, seed, base, frontier, t2) && FrontierBehind(gd2, t2, frontier)
  {
    StagedBase(sem, seed, past, dag, gd, tips, nodes, base, frontier);
    AdmissibleParent(sem, seed, past, dag, gd, frontier, block);
    InsertedBase(sem, seed, dag, gd, Tip(gd, tips), base, frontier, h, block, d, dag2, gd2, t2);
  }

  lemma {:induction false} StagedBase(sem: Semantics, seed: Ledger, past: Pasts, dag: BlockDag, gd: Coloring,
                                      tips: seq<Hash>, nodes: Nodes, base: Ledger, frontier: Option<Hash>)
    requires Staged(sem, seed, past, dag, gd, tips, nodes, base, frontier) && frontier == FinalityPoint(gd, tips)
    ensures Replayable(dag, gd) && Heaviest(gd, tips).Some? && IsHeaviest(gd, Tip(gd, tips))
    ensures frontier == FinalityOf(gd, Tip(gd, tips), FINALITY_DEPTH)
    ensures BaseBelow(sem, dag, gd, seed, base, frontier, Tip(gd, tips))
  {
    UnfoldStaged(sem, seed, past, dag, gd, tips, nodes, base, frontier);
  }

  lemma {:induction false} AdmissibleParent(sem: Semantics, seed: Ledger, past: Pasts, dag: BlockDag, gd: Coloring,
                                            fp: Option<Hash>, block: Block)
    requires Admissible(sem, seed, past, dag, gd, fp, block)
    ensures var d := NewData(past, gd, block.parents);
            && d.selectedParent.Some? && d.selectedParent.value in gd && ChainDown(gd)
            && (fp.Some? ==> OnChain(gd, fp.value, d.selectedParent.value))
  {
    UnfoldAdmissible(sem, seed, past, dag, gd, fp, block);
  }

  // ----- Loops -----

  /** `tips` without every member of `gone`, removing one value after another. */
  method DropTips(tips: seq<Hash>, gone: seq<Hash>) returns (left: seq<Hash>)
    ensures left == Filter(tips, Elements(gone))
  {
    left := tips;
    FilterNothing(tips, Elements(gone[..0]));
    for i := 0 to |gone|
      invariant left == Filter(tips, Elements(gone[..i]))
    {
      FilterTwice(tips, Elements(gone[..i]), {gone[i]});
      assert Elements(gone[..i + 1]) == Elements(gone[..i]) + {gone[i]};
      left := Filter(left, {gone[i]});
    }
    assert gone[..|gone|] == gone;
  }

  /** `after` is `base` with exactly the blocks replayed, each once, that lie at or below `fp`
      and not at or below `frontier`. */
  ghost predicate FoldsOnto(sem: Semantics, past: Pasts, dag: BlockDag, gd: Coloring, base: Ledger,
                            frontier: Option<Hash>, after: Ledger, fp: Option<Hash>, part: seq<Hash>)
  {
    && Held(dag, gd, part) && after == Replayed(sem, dag, gd, base, part)
    && Distinct(part) && Elements(part) == FoldedBlocks(past, fp) - FoldedBlocks(past, frontier)
  }

  /** The base after folding every block up to and including the finality point `fp`. */
  method FoldBase(sem: Semantics, dag: BlockDag, gd: Coloring, tip: Hash, fp: Hash, base: Ledger,
                  frontier: Option<Hash>, ghost past: Pasts, ghost seed: Ledger) returns (folded: Ledger)
    requires Consistent(dag, past, gd) && Replayable(dag, gd) && tip in gd && fp in gd && OnChain(gd, fp, tip)
    requires BaseBelow(sem, dag, gd, seed, base, frontier, tip) && (frontier.Some? ==> OnChain(gd, frontier.value, fp))
    ensures folded == StateAt(sem, dag, gd, seed, fp)
    ensures frontier.Some? ==> frontier.value in gd && |Order(gd, frontier.value)| <= |Order(gd, fp)|
    ensures FoldsOnto(sem, past, dag, gd, base, frontier, folded, Some(fp), Unfolded(gd, frontier, fp))
  {
    var order := CanonicalOrderAt(dag, gd, tip, past);
    var stop := ReplayStart(order, Some(fp));
    StartIsUnfolded(dag, past, gd, Some(fp), tip, stop);
    var start := ReplayStart(order, frontier);
    StartIsUnfolded(dag, past, gd, frontier, tip, start);
    FoldTo(sem, dag, gd, seed, base, frontier, fp, tip);
    if start > stop {
      assert false;
    }
    FoldedPart(gd, frontier, fp, tip, start, stop);
    FoldsEachOnce(dag, past, gd, frontier, fp);
    folded := ReplayBlocks(sem, dag, gd, base, order[start..stop]);
  }

  /** The new finality point and the base folded up to it. */
  method FinalizedBase(sem: Semantics, dag: BlockDag, gd: Coloring, tips: seq<Hash>, base: Ledger,
                       frontier: Option<Hash>, ghost past: Pasts, ghost seed: Ledger, ghost nodes: Nodes)
    returns (fp: Option<Hash>, folded: Ledger, ghost part: seq<Hash>)
    requires Staged(sem, seed, past, dag, gd, tips, nodes, base, frontier)
    ensures Staged(sem, seed, past, dag, gd, tips, nodes, folded, fp)
    ensures fp == FinalityPoint(gd, tips) && AtOrBelow(MainChain(gd, tips), frontier, fp)
    ensures fp == frontier ==> folded == base && part == []
    ensures FoldedList(gd, fp) == FoldedList(gd, frontier) + part
    ensures FoldsOnto(sem, past, dag, gd, base, frontier, folded, fp, part)
  {
    StagedFold(sem, seed, past, dag, gd, tips, nodes, base, frontier);
    var tip := Heaviest(gd, tips).value;
    fp := FinalityPointOf(gd, tip);
    if fp.None? || frontier == fp {
      assert Held(dag, gd, []);
      return fp, base, [];
    }
    folded := FoldBase(sem, dag, gd, tip, fp.value, base, frontier, past, seed);
    part := Unfolded(gd, frontier, fp.value);
    FoldedListGrows(gd, frontier, fp.value);
    Restage(sem, seed, past, dag, gd, tips, nodes, base, frontier, folded);
  }

  /** What folding needs of a staged node. */
  lemma {:induction false} StagedFold(sem: Semantics, seed: Ledger, past: Pasts, dag: BlockDag, gd: Coloring,
                                      tips: seq<Hash>, nodes: Nodes, base: Ledger, frontier: Option<Hash>)
    requires Staged(sem, seed, past, dag, gd, tips, nodes, base, frontier)
    ensures Consistent(dag, past, gd) && Replayable(dag, gd) && Heaviest(gd, tips).Some?
    ensures BaseBelow(sem, dag, gd, seed, base, frontier, Tip(gd, tips))
    ensures AtOrBelow(MainChain(gd, tips), frontier, FinalityPoint(gd, tips))
    ensures var fp := FinalityPoint(gd, tips);
            fp.Some? ==>
              && fp.value in gd && OnChain(gd, fp.value, Tip(gd, tips))
              && (frontier.Some? ==> OnChain(gd, frontier.value, fp.value))
    ensures FinalityPoint(gd, tips).None? ==> frontier.None?
  {
    UnfoldStaged(sem, seed, past, dag, gd, tips, nodes, base, frontier);
    BehindIsBelow(gd, Tip(gd, tips), frontier);
  }

  /** The state at the finality point can serve as the base. */
  lemma {:induction false} Restage(sem: Semantics, seed: Ledger, past: Pasts, dag: BlockDag, gd: Coloring,
                                   tips: seq<Hash>, nodes: Nodes, base: Ledger, frontier: Option<Hash>,
                                   folded: Ledger)
    requires Staged(sem, seed, past, dag, gd, tips, nodes, base, frontier)
    requires FinalityPoint(gd, tips).Some? && Replayable(dag, gd) && FinalityPoint(gd, tips).value in gd
    requires folded == StateAt(sem, dag, gd, seed, FinalityPoint(gd, tips).value)
    ensures Staged(sem, seed, past, dag, gd, tips, nodes, folded, FinalityPoint(gd, tips))
  {
    UnfoldStaged(sem, seed, past, dag, gd, tips, nodes, base, frontier);
    BehindIsBelow(gd, Tip(gd, tips), frontier);
    Stage(sem, seed, past, dag, gd, tips, nodes, folded, FinalityPoint(gd, tips));
  }

  method GenesisOracle(g: Hash) returns (oracle: Reachability)
    ensures fresh(oracle) && oracle.Valid() && oracle.nodes.Keys == {g}
    ensures Answers(oracle.nodes, map[g := {}]) && ChainAnswers(oracle.nodes, map[g := {g}])
  {
    oracle := new Reachability();
    oracle.AddBlock(g, None, [], map[], {}, map[]);
  }

  class ChainState {
    const sem: Semantics
    const reach: Reachability
    ghost const seed: Ledger
    ghost var past: Pasts
    /** The blocks folded into the base, in the order they were. */
    ghost var foldedBlocks: seq<Hash>
    var dag: BlockDag
    var gd: Coloring
    var tips: seq<Hash>
    var mainChain: seq<Hash>
    var ledger: Ledger
    var base: Ledger
    var baseCaptured: bool
    var baseFrontier: Option<Hash>

    ghost predicate Ready()
      reads this, reach
    {
      && reach.Valid()
      && Staged(sem, seed, past, dag, gd, tips, reach.nodes, ReplayBase(ledger, base, baseCaptured), baseFrontier)
      && foldedBlocks == FoldedList(gd, baseFrontier)
    }

    ghost predicate Valid()
      reads this, reach
    {
      && Ready()
      && mainChain == MainChain(gd, tips)
      && ledger == LiveState(sem, dag, gd, tips, seed)
      && baseFrontier == FinalityPoint(gd, tips)
      && (!baseCaptured ==> baseFrontier.None?)
    }

    /** A fresh node: genesis only, and whatever ledger it is seeded with. */
    constructor (sem: Semantics, g: Hash, genesis: Block, seed: Ledger)
      requires Lawful(sem) && genesis.parents == []
      ensures Valid() && fresh(reach) && this.sem == sem && this.seed == seed
      ensures dag == map[g := genesis] && ledger == seed && foldedBlocks == []
    {
      var oracle := GenesisOracle(g);
      this.sem, this.seed, reach := sem, seed, oracle;
      past := map[g := {}];
      foldedBlocks := [];
      dag := map[g := genesis];
      gd := map[g := GENESIS_DATA];
      tips := [g];
      mainChain := [g];
      ledger := seed;
      base := seed;
      baseCaptured := false;
      baseFrontier := None;
      new;
      GenesisValues(sem, seed, g, genesis);
      GenesisStaged(sem, seed, g, genesis, reach.nodes);
    }


    /** Accept a block if it is well shaped and admissible and passes the other checks; otherwise
        change nothing. */
    method AddBlock(h: Hash, block: Block, otherChecks: bool) returns (accepted: bool)
      requires Valid()
      modifies this, reach
      ensures Valid()
      ensures accepted <==> otherChecks && WellShaped(old(dag), h, block)
                            && RightDifficulty(sem, old(past), old(dag), old(gd), old(ledger), block)
                            && Admissible(sem, seed, old(past), old(dag), old(gd), old(baseFrontier), block)
      ensures !accepted ==> dag == old(dag) && gd == old(gd) && tips == old(tips) && mainChain == old(mainChain)
                            && ledger == old(ledger) && base == old(base) && baseFrontier == old(baseFrontier)
                            && foldedBlocks == old(foldedBlocks)
      ensures old(foldedBlocks) <= foldedBlocks
      ensures accepted ==> dag == old(dag)[h := block] && gd == old(gd)[h := NewData(old(past), old(gd), block.parents)]
      ensures AtOrBelow(mainChain, old(baseFrontier), baseFrontier)
    {
      var distinct := AllDistinct(block.parents);
      if !otherChecks || h in dag || block.parents == [] || |block.parents| > MAX_BLOCK_PARENTS || !distinct
         || exists p :: p in block.parents && p !in dag
      {
        StillBelow();
        return false;
      }
      var right := CheckDifficulty(block);
      if !right {
        StillBelow();
        return false;
      }
      var ok, data := Check(block);
      if !ok {
        StillBelow();
        return false;
      }
      Accept(h, block, data);
      accepted := true;
    }

    lemma {:induction false} Shows()
      requires Valid()
      ensures ChainDown(gd) && Heaviest(gd, tips).Some? && gd.Keys == dag.Keys
    {
      UnfoldStaged(sem, seed, past, dag, gd, tips, reach.nodes, ReplayBase(ledger, base, baseCaptured), baseFrontier);
    }

    lemma {:induction false} StillBelow()
      requires Valid()
      ensures AtOrBelow(mainChain, baseFrontier, baseFrontier)
    {
      UnfoldStaged(sem, seed, past, dag, gd, tips, reach.nodes, ReplayBase(ledger, base, baseCaptured), baseFrontier);
      BehindIsBelow(gd, Tip(gd, tips), baseFrontier);
    }

    /** The claimed difficulty against the one required now. */
    method CheckDifficulty(block: Block) returns (ok: bool)
      requires Valid()
      ensures ok <==> RightDifficulty(sem, past, dag, gd, ledger, block)
    {
      UnfoldStaged(sem, seed, past, dag, gd, tips, reach.nodes, ReplayBase(ledger, base, baseCaptured), baseFrontier);
      UnfoldDifficulty(sem, past, dag, gd, ledger, block);
      var d := Difficulty.ExpectedDifficultyAt(dag, gd, block.parents, sem.floor(ledger), past);
      ok := block.difficulty == d;
    }

    /** Finality, mergeset bound, strict body admission and state root. */
    method Check(block: Block) returns (ok: bool, d: GhostdagData)
      requires Valid() && block.parents != [] && forall p :: p in block.parents ==> p in dag
      ensures ok <==> Admissible(sem, seed, past, dag, gd, baseFrontier, block)
      ensures ok ==> d == NewData(past, gd, block.parents)
    {
      UnfoldStaged(sem, seed, past, dag, gd, tips, reach.nodes, ReplayBase(ledger, base, baseCaptured), baseFrontier);
      UnfoldAdmissible(sem, seed, past, dag, gd, baseFrontier, block);
      NewDataHeld(dag, past, gd, block.parents);
      d := GENESIS_DATA;
      var fp := FinalityPointOf(gd, Heaviest(gd, tips).value);
      var sp := Heaviest(gd, block.parents).value;
      if fp.Some? {
        LastAtMostOnChain(gd, Tip(gd, tips), gd[Tip(gd, tips)].blueScore - FINALITY_DEPTH);
        ChainQuery(reach.nodes, past, gd, fp.value, sp);
        var below := reach.IsChainAncestor(fp.value, sp);
        if below == Some(false) {
          return false, d;
        }
      }
      var data := TryComputeGhostdagData(dag, gd, reach, block.parents, MAX_MERGESET_SIZE);
      if data.None? {
        return false, d;
      }
      d := data.value;
      BaseServes(sem, dag, gd, seed, ReplayBase(ledger, base, baseCaptured), baseFrontier, Tip(gd, tips), sp);
      var after := PostMergesetState(sem, dag, gd, ReplayBase(ledger, base, baseCaptured), baseFrontier, d, block,
                                     past, seed);
      ok := after.Some? && block.stateRoot == sem.commit(after.value);
    }

    method Accept(h: Hash, block: Block, d: GhostdagData)
      requires Valid() && WellShaped(dag, h, block) && Admissible(sem, seed, past, dag, gd, baseFrontier, block)
      requires d == NewData(past, gd, block.parents)
      modifies this, reach
      ensures Valid()
      ensures dag == old(dag)[h := block] && gd == old(gd)[h := d]
      ensures AtOrBelow(mainChain, old(baseFrontier), baseFrontier) && old(foldedBlocks) <= foldedBlocks
    {
      Insert(h, block, d);
      CaptureBase();
      Settle();
    }

    /** The first block fixes the base: the ledger the node was seeded with. */
    method CaptureBase()
      requires Ready()
      modifies this`base, this`baseCaptured
      ensures Ready() && baseCaptured
    {
      if !baseCaptured {
        base := ledger;
        baseCaptured := true;
      }
    }

    /** Bring main chain, base and live ledger up to date with the block graph. */
    method Settle()
      requires Ready() && baseCaptured
      modifies this`mainChain, this`ledger, this`base, this`baseFrontier, this`foldedBlocks
      ensures Valid() && AtOrBelow(mainChain, old(baseFrontier), baseFrontier) && old(foldedBlocks) <= foldedBlocks
    {
      OrderMainChain();
      ghost var part := AdvanceFinalizedBase();
      RecomputeVirtualState();
    }

    /** Record the block, its data, its place in the oracle and the new tips. */
    method Insert(h: Hash, block: Block, d: GhostdagData)
      requires Ready() && WellShaped(dag, h, block) && baseFrontier == FinalityPoint(gd, tips)
      requires Admissible(sem, seed, past, dag, gd, baseFrontier, block) && d == NewData(past, gd, block.parents)
      modifies this`dag, this`gd, this`past, this`tips, reach
      ensures Ready()
      ensures dag == old(dag)[h := block] && gd == old(gd)[h := d]
    {
      ghost var nodes := reach.nodes;
      ghost var hpast := Register(h, block, d);
      InsertKeepsFolded(sem, seed, past, dag, gd, tips, nodes, ReplayBase(ledger, base, baseCaptured), baseFrontier,
                        h, block, d, hpast, reach.nodes);
      var left := DropTips(tips, block.parents);
      dag := dag[h := block];
      gd := gd[h := d];
      tips := left + [h];
      past := past[h := hpast];
    }

    /** Place the block in the oracle. */
    method Register(h: Hash, block: Block, d: GhostdagData) returns (ghost hpast: set<Hash>)
      requires Ready() && WellShaped(dag, h, block) && baseFrontier == FinalityPoint(gd, tips)
      requires Admissible(sem, seed, past, dag, gd, baseFrontier, block) && d == NewData(past, gd, block.parents)
      modifies reach
      ensures reach.Valid()
      ensures Staged(sem, seed, past[h := hpast], dag[h := block], gd[h := d],
                     Filter(tips, Elements(block.parents)) + [h], reach.nodes,
                     ReplayBase(ledger, base, baseCaptured), baseFrontier)
    {
      ghost var nodes, from := reach.nodes, ReplayBase(ledger, base, baseCaptured);
      OracleUpdate(sem, seed, past, dag, gd, tips, nodes, from, baseFrontier, h, block, d);
      hpast := NewPast(past, block.parents);
      reach.AddBlock(h, d.selectedParent, Merged(d), past, hpast, ChainSets(gd));
      InsertStages(sem, seed, past, dag, gd, tips, nodes, from, baseFrontier, h, block, d, reach.nodes);
    }

    /** The main chain is the selected chain of the heaviest tip. */
    method OrderMainChain()
      requires Staged(sem, seed, past, dag, gd, tips, reach.nodes, ReplayBase(ledger, base, baseCaptured), baseFrontier)
      modifies this`mainChain
      ensures mainChain == MainChain(gd, tips)
    {
      UnfoldStaged(sem, seed, past, dag, gd, tips, reach.nodes, ReplayBase(ledger, base, baseCaptured), baseFrontier);
      mainChain := SelectedChain(gd, Heaviest(gd, tips).value);
    }

    /** Fold the blocks that have become final, and no others, into the base, each once. */
    method AdvanceFinalizedBase() returns (ghost part: seq<Hash>)
      requires Staged(sem, seed, past, dag, gd, tips, reach.nodes, base, baseFrontier)
      requires foldedBlocks == FoldedList(gd, baseFrontier)
      modifies this`ledger, this`base, this`baseFrontier, this`foldedBlocks
      ensures Staged(sem, seed, past, dag, gd, tips, reach.nodes, base, baseFrontier)
      ensures foldedBlocks == FoldedList(gd, baseFrontier)
      ensures baseFrontier == FinalityPoint(gd, tips)
      ensures AtOrBelow(MainChain(gd, tips), old(baseFrontier), baseFrontier)
      ensures foldedBlocks == old(foldedBlocks) + part
      ensures FoldsOnto(sem, past, dag, gd, old(base), old(baseFrontier), base, baseFrontier, part)
    {
      var fp, folded;
      fp, folded, part := FinalizedBase(sem, dag, gd, tips, base, baseFrontier, past, seed, reach.nodes);
      if fp == baseFrontier {
        return;
      }
      ledger := folded;
      base := folded;
      baseFrontier := fp;
      foldedBlocks := foldedBlocks + part;
    }

    /** Every block at or below the frontier was folded, exactly once. */
    lemma {:induction false} FoldedOnce()
      requires Valid()
      ensures Distinct(foldedBlocks) && Elements(foldedBlocks) == FoldedBlocks(past, baseFrontier)
      ensures Held(dag, gd, foldedBlocks)
      ensures ReplayBase(ledger, base, baseCaptured) == Replayed(sem, dag, gd, seed, foldedBlocks)
    {
      UnfoldStaged(sem, seed, past, dag, gd, tips, reach.nodes, ReplayBase(ledger, base, baseCaptured), baseFrontier);
      FoldedListIs(dag, past, gd, baseFrontier);
    }

    /** The live ledger is the base plus the rest of the canonical order. */
    method RecomputeVirtualState()
      requires Staged(sem, seed, past, dag, gd, tips, reach.nodes, base, baseFrontier)
      modifies this`ledger
      ensures ledger == LiveState(sem, dag, gd, tips, seed)
    {
      UnfoldStaged(sem, seed, past, dag, gd, tips, reach.nodes, base, baseFrontier);
      ledger := VirtualStateAt(sem, dag, gd, base, baseFrontier, Heaviest(gd, tips).value, past, seed);
    }
  }

  /** The finality point is on the chain of the tip, and on or above the frontier behind it. */
  lemma {:induction false} BehindIsBelow(gd: Coloring, t: Hash, frontier: Option<Hash>)
    requires ChainDown(gd) && t in gd && FrontierBehind(gd, t, frontier)
    ensures var fp := FinalityOf(gd, t, FINALITY_DEPTH);
            && (fp.Some? ==> fp.value in gd && OnChain(gd, fp.value, t) && FrontierBehind(gd, t, fp))
            && AtOrBelow(Chain(gd, t), frontier, fp)
  {
    var fp := FinalityOf(gd, t, FINALITY_DEPTH);
    if fp.Some? {
      LastAtMostOnChain(gd, t, gd[t].blueScore - FINALITY_DEPTH);
      if frontier.Some? {
        var j :| 0 <= j < |Chain(gd, t)| && Chain(gd, t)[j] == fp.value;
        ChainPrefix(gd, t, j);
        var i :| 0 <= i < |Chain(gd, fp.value)| && Chain(gd, fp.value)[i] == frontier.value;
        assert Chain(gd, t)[i] == frontier.value;
      }
    }
  }
}
