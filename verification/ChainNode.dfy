/** The archival node: what every accepted block keeps. */
module ChainNode {
  import opened Types
  import opened Lists
  import opened Dag
  import opened Forest
  import opened ReachabilityOracle
  import opened Ghostdag
  import opened GhostdagLocality
  import opened Canonical
  import opened Replay
  import opened ChainStateMachine

  // ----- The block graph -----

  ghost predicate Graph(dag: BlockDag, past: Pasts, gd: Coloring, tips: seq<Hash>) {
    && WellFormed(dag) && past == PastMap(dag)
    && Consistent(dag, past, gd) && Replayable(dag, gd)
    && AreTips(dag, tips) && Heaviest(gd, tips).Some? && IsHeaviest(gd, Heaviest(gd, tips).value)
  }

  /** The selected tip. */
  ghost function Tip(gd: Coloring, tips: seq<Hash>): (t: Hash)
    requires Heaviest(gd, tips).Some?
    ensures t in gd
  {
    Heaviest(gd, tips).value
  }

  lemma {:induction false} GraphFrom(dag: BlockDag, past: Pasts, gd: Coloring, tips: seq<Hash>)
    requires WellFormed(dag) && past == PastMap(dag) && Consistent(dag, past, gd) && AreTips(dag, tips) && dag != map[]
    ensures Graph(dag, past, gd, tips)
  {
    ConsistentIsReplayable(dag, past, gd);
    SelectedTipIsHeaviest(dag, past, gd, tips);
  }

  lemma {:induction false} AcceptedPast(dag: BlockDag, past: Pasts, h: Hash, block: Block)
    requires WellFormed(dag) && past == PastMap(dag) && WellShaped(dag, h, block)
    ensures Extends(dag, h, block)
    ensures var past2 := past[h := NewPast(past, block.parents)];
            WellFormed(dag[h := block]) && past2 == PastMap(dag[h := block]) && IsPast(dag[h := block], past2)
    ensures h !in NewPast(past, block.parents)
  {
    UnknownIsUnmentioned(dag, h);
    ExtensionKeepsPast(dag, h, block);
    PastMapIsPast(dag[h := block]);
  }

  lemma {:induction false} AcceptedGraph(dag: BlockDag, past: Pasts, gd: Coloring, tips: seq<Hash>, h: Hash,
                                         block: Block, d: GhostdagData)
    requires Graph(dag, past, gd, tips) && WellShaped(dag, h, block) && IsNewData(dag, past, gd, block.parents, d)
    ensures Graph(dag[h := block], past[h := NewPast(past, block.parents)], gd[h := d],
                  Filter(tips, Elements(block.parents)) + [h])
  {
    AcceptedPast(dag, past, h, block);
    var dag2, past2, gd2 := dag[h := block], past[h := NewPast(past, block.parents)], gd[h := d];
    ExtensionIsConsistent(dag, past, gd, h, block, past2);
    NewTips(dag, tips, h, block);
    assert h in dag2;
    GraphFrom(dag2, past2, gd2, Filter(tips, Elements(block.parents)) + [h]);
  }

  lemma {:induction false} AcceptedIsNew(dag: BlockDag, past: Pasts, gd: Coloring, h: Hash, block: Block)
    requires WellFormed(dag) && past == PastMap(dag) && WellShaped(dag, h, block) && IsPast(dag, past)
    requires gd.Keys == dag.Keys
    ensures h !in NewPast(past, block.parents) && h !in gd && forall b :: b in past ==> h !in past[b]
  {
    AcceptedPast(dag, past, h, block);
    forall b | b in past
      ensures h !in past[b]
    {
      assert past[b] <= dag.Keys;
    }
  }

  // ----- Headers -----

  /** The header of an accepted block commits to the replay of its canonical order. */
  lemma {:induction false} AcceptedRootAgrees(sem: Semantics, dag: BlockDag, gd: Coloring, seed: Ledger, h: Hash,
                                              block: Block, d: GhostdagData, fp: Option<Hash>, dag2: BlockDag,
                                              gd2: Coloring)
    requires Lawful(sem) && Replayable(dag, gd) && Replayable(dag2, gd2) && Grows(dag, gd, dag2, gd2)
    requires d.selectedParent.Some? && d.selectedParent.value in gd && Held(dag, gd, Merged(d))
    requires Passes(sem, dag, gd, seed, fp, block, d) && block.parents != []
    requires h in gd2 && dag2[h] == block && gd2[h] == d
    ensures RootAgrees(sem, dag2, gd2, seed, h)
  {
    var sp := d.selectedParent.value;
    assert sem.admit(StateBefore(sem, dag, gd, seed, d), block, d.blueScore).Some?;
    StateStep(sem, dag2, gd2, seed, h);
    StateKept(sem, dag, gd, dag2, gd2, seed, sp);
    ReplayedKept(sem, dag, gd, dag2, gd2, StateAt(sem, dag, gd, seed, sp), Merged(d));
  }

  // ----- Finality and the base -----

  /** The frontier is none, or the finality point lies on or above it. */
  ghost predicate FrontierBehind(gd: Coloring, t: Hash, frontier: Option<Hash>)
    requires ChainDown(gd) && t in gd
  {
    frontier.Some? ==>
      var fp := FinalityOf(gd, t, FINALITY_DEPTH);
      fp.Some? && fp.value in gd && OnChain(gd, frontier.value, fp.value)
  }

  /** After a block is accepted the selected tip is the old one or the new block, so its chain
      still holds the finality point. */
  lemma {:induction false} TipKeepsFrontier(gd: Coloring, gd2: Coloring, h: Hash, d: GhostdagData, t: Hash, t2: Hash,
                                            f: Hash)
    requires ChainDown(gd) && ChainDown(gd2) && h !in gd && gd2 == gd[h := d]
    requires IsHeaviest(gd, t) && IsHeaviest(gd2, t2)
    requires d.selectedParent.Some? && d.selectedParent.value in gd
    requires OnChain(gd, f, t) && OnChain(gd, f, d.selectedParent.value)
    ensures (t2 == h || t2 == t) && gd2[t2].blueScore >= gd[t].blueScore
    ensures OnChain(gd2, f, t2)
  {
    HeaviestOfExtension(gd, gd2, h, t, t2);
    ChainKept(gd, gd2, t);
    ChainKept(gd, gd2, d.selectedParent.value);
    OnChainStep(gd2, f, h);
  }

  /** No reorganisation below finality: the finality point only moves up its chain. */
  lemma {:induction false} FinalityMovesUp(gd: Coloring, gd2: Coloring, t: Hash, t2: Hash, frontier: Option<Hash>)
    requires ChainDown(gd) && ChainDown(gd2) && t in gd && t2 in gd2 && gd.Keys <= gd2.Keys
    requires forall x {:trigger gd[x]} :: x in gd ==> gd2[x] == gd[x]
    requires frontier == FinalityOf(gd, t, FINALITY_DEPTH) && gd2[t2].blueScore >= gd[t].blueScore
    requires frontier.Some? ==> OnChain(gd2, frontier.value, t2)
    ensures FrontierBehind(gd2, t2, frontier)
  {
    if frontier.Some? {
      LastAtMostKept(gd, gd2, t, gd[t].blueScore - FINALITY_DEPTH);
      FinalityAdvances(gd2, t, t2, FINALITY_DEPTH);
    }
  }

  /** An admitted block's selected chain holds the finality point, so the heaviest chain
      still does after it. */
  lemma {:induction false} AcceptedFinality(gd: Coloring, gd2: Coloring, h: Hash, d: GhostdagData, t: Hash, t2: Hash,
                                            frontier: Option<Hash>)
    requires ChainDown(gd) && ChainDown(gd2) && h !in gd && gd2 == gd[h := d]
    requires IsHeaviest(gd, t) && IsHeaviest(gd2, t2) && frontier == FinalityOf(gd, t, FINALITY_DEPTH)
    requires d.selectedParent.Some? && d.selectedParent.value in gd
    requires frontier.Some? ==> OnChain(gd, frontier.value, d.selectedParent.value)
    ensures frontier.Some? ==> OnChain(gd2, frontier.value, t2)
    ensures FrontierBehind(gd2, t2, frontier)
  {
    if frontier.Some? {
      LastAtMostOnChain(gd, t, gd[t].blueScore - FINALITY_DEPTH);
      TipKeepsFrontier(gd, gd2, h, d, t, t2, frontier.value);
      FinalityMovesUp(gd, gd2, t, t2, frontier);
    }
  }

  lemma {:induction false} AcceptedBaseBelow(sem: Semantics, dag: BlockDag, gd: Coloring, dag2: BlockDag,
                                             gd2: Coloring, seed: Ledger, base: Ledger, frontier: Option<Hash>,
                                             t: Hash, t2: Hash)
    requires Replayable(dag, gd) && Replayable(dag2, gd2) && Grows(dag, gd, dag2, gd2) && t in gd && t2 in gd2
    requires BaseBelow(sem, dag, gd, seed, base, frontier, t)
    requires frontier.Some? ==> OnChain(gd2, frontier.value, t2)
    ensures BaseBelow(sem, dag2, gd2, seed, base, frontier, t2)
  {
    if frontier.Some? {
      StateKept(sem, dag, gd, dag2, gd2, seed, frontier.value);
    }
  }

  /** Folding the base up to a later chain block gives the state there. */
  lemma {:induction false} FoldTo(sem: Semantics, dag: BlockDag, gd: Coloring, seed: Ledger, base: Ledger,
                                  frontier: Option<Hash>, f: Hash, t: Hash)
    requires Replayable(dag, gd) && t in gd && OnChain(gd, f, t) && f in gd
    requires BaseBelow(sem, dag, gd, seed, base, frontier, t) && (frontier.Some? ==> OnChain(gd, frontier.value, f))
    ensures frontier.Some? ==> frontier.value in gd && |Order(gd, frontier.value)| <= |Order(gd, f)|
    ensures Held(dag, gd, Unfolded(gd, frontier, f))
    ensures BaseBelow(sem, dag, gd, seed, Replayed(sem, dag, gd, base, Unfolded(gd, frontier, f)), Some(f), t)
  {
    FoldingDoesNotShow(sem, dag, gd, seed, base, frontier, f);
  }

  /** The blocks already folded into a base with this frontier. */
  ghost function FoldedBlocks(past: Pasts, frontier: Option<Hash>): set<Hash> {
    if frontier.Some? && frontier.value in past then past[frontier.value] + {frontier.value} else {}
  }

  /** The order in which a base with this frontier was folded. */
  ghost function FoldedList(gd: Coloring, frontier: Option<Hash>): seq<Hash> {
    if ChainDown(gd) && frontier.Some? && frontier.value in gd then Order(gd, frontier.value) else []
  }

  /** The list holds each folded block once. */
  lemma {:induction false} FoldedListIs(dag: BlockDag, past: Pasts, gd: Coloring, frontier: Option<Hash>)
    requires Consistent(dag, past, gd) && (frontier.Some? ==> frontier.value in gd)
    ensures Distinct(FoldedList(gd, frontier)) && Elements(FoldedList(gd, frontier)) == FoldedBlocks(past, frontier)
  {
    if frontier.Some? {
      OrderListsPast(dag, past, gd, frontier.value);
    }
  }

  /** New blocks do not change what was folded. */
  lemma {:induction false} FoldedListKept(gd: Coloring, gd2: Coloring, frontier: Option<Hash>)
    requires ChainDown(gd) && ChainDown(gd2) && gd.Keys <= gd2.Keys && (frontier.Some? ==> frontier.value in gd)
    requires forall x {:trigger gd[x]} :: x in gd ==> gd2[x] == gd[x]
    ensures FoldedList(gd2, frontier) == FoldedList(gd, frontier)
  {
    if frontier.Some? {
      OrderKept(gd, gd2, frontier.value);
    }
  }

  lemma {:induction false} FoldedListGrows(gd: Coloring, frontier: Option<Hash>, f: Hash)
    requires ChainDown(gd) && f in gd && (frontier.Some? ==> OnChain(gd, frontier.value, f))
    ensures frontier.Some? ==> frontier.value in gd && |Order(gd, frontier.value)| <= |Order(gd, f)|
    ensures FoldedList(gd, Some(f)) == FoldedList(gd, frontier) + Unfolded(gd, frontier, f)
  {
    if frontier.Some? {
      OrderPrefix(gd, frontier.value, f);
    }
  }

  /** A fold replays every block of the inclusive past of `f` that was not folded before, once. */
  lemma {:induction false} FoldsEachOnce(dag: BlockDag, past: Pasts, gd: Coloring, frontier: Option<Hash>, f: Hash)
    requires Consistent(dag, past, gd) && f in gd && (frontier.Some? ==> OnChain(gd, frontier.value, f))
    ensures frontier.Some? ==> frontier.value in gd && |Order(gd, frontier.value)| <= |Order(gd, f)|
    ensures Distinct(Unfolded(gd, frontier, f))
    ensures Elements(Unfolded(gd, frontier, f)) == past[f] + {f} - FoldedBlocks(past, frontier)
  {
    OrderListsPast(dag, past, gd, f);
    if frontier.Some? {
      OrderPrefix(gd, frontier.value, f);
      OrderListsPast(dag, past, gd, frontier.value);
      SplitDistinct(Order(gd, f), Order(gd, frontier.value));
    }
  }

  lemma {:induction false} SplitDistinct(s: seq<Hash>, p: seq<Hash>)
    requires Distinct(s) && p <= s
    ensures Distinct(s[|p|..]) && Elements(s[|p|..]) == Elements(s) - Elements(p)
  {
    forall x
      ensures x in s[|p|..] <==> x in s && x !in p
    {
      assert s == p + s[|p|..];
      assert x in s <==> x in p || x in s[|p|..];
    }
  }

  /** The slice of the tip's order that a fold replays. */
  lemma {:induction false} FoldedPart(gd: Coloring, frontier: Option<Hash>, f: Hash, t: Hash, start: nat, stop: nat)
    requires ChainDown(gd) && t in gd && OnChain(gd, f, t) && f in gd && start <= stop && stop == |Order(gd, f)|
    requires frontier.Some? ==> frontier.value in gd
    requires start == if frontier.Some? then |Order(gd, frontier.value)| else 0
    ensures stop <= |Order(gd, t)| && Order(gd, t)[start..stop] == Unfolded(gd, frontier, f)
  {
    OrderPrefix(gd, f, t);
    assert Order(gd, t)[..stop] == Order(gd, f);
    assert Order(gd, t)[start..stop] == Order(gd, t)[..stop][start..];
  }

  // ----- The oracle -----

  lemma {:induction false} ChainSetsExtend(gd: Coloring, h: Hash, d: GhostdagData)
    requires ChainDown(gd) && h !in gd && ChainDown(gd[h := d]) && d.selectedParent.Some?
    requires d.selectedParent.value in gd
    ensures ChainSets(gd[h := d]) == ChainSets(gd)[h := NewChain(ChainSets(gd), d.selectedParent, h)]
    ensures forall b :: b in gd ==> h !in ChainSets(gd)[b]
  {
    var gd2 := gd[h := d];
    forall b | b in gd
      ensures Chain(gd2, b) == Chain(gd, b) && h !in ChainSets(gd)[b]
    {
      ChainKept(gd, gd2, b);
      ChainHeld(gd, b);
    }
    assert Descends(gd2, h);
    assert Elements(Chain(gd2, h)) == Elements(Chain(gd, d.selectedParent.value)) + {h};
  }

  /** The mergeset handed to the oracle is what separates the new block's past from its
      selected parent's. */
  lemma {:induction false} NewPastIsTrue(nodes: Nodes, dag: BlockDag, past: Pasts, gd: Coloring, h: Hash,
                                         parents: seq<Hash>, d: GhostdagData)
    requires nodes.Keys == gd.Keys && IsNewData(dag, past, gd, parents, d)
    requires h !in NewPast(past, parents) && forall b :: b in past ==> h !in past[b]
    ensures TruePast(nodes, past, TreeParent(nodes, d.selectedParent), Merged(d), h, NewPast(past, parents))
  {
    var sp := d.selectedParent.value;
    forall a
      ensures a in Merged(d) <==> a in MergeSet(past, parents, sp)
    {
      assert a in Merged(d) <==> a in Elements(Merged(d));
    }
    forall a | a == sp || a in past[sp]
      ensures a in NewPast(past, parents)
    {
      NewPastMember(past, parents, a);
    }
  }

  // ----- Genesis -----

  lemma {:induction false} GenesisGraph(g: Hash, genesis: Block)
    requires genesis.parents == []
    ensures Graph(map[g := genesis], map[g := {}], map[g := GENESIS_DATA], [g])
  {
    var dag: BlockDag := map[g := genesis];
    forall a
      ensures !Ancestor(dag, a, g)
    {
      AncestorViaParent(dag, a, g);
    }
    assert Past(dag, g) == {};
    assert PastMap(dag).Keys == {g};
    SingletonIsConsistent(g, genesis);
    assert Childless(dag, g);
    GraphFrom(dag, map[g := {}], map[g := GENESIS_DATA], [g]);
  }

  lemma {:induction false} GenesisState(sem: Semantics, g: Hash, genesis: Block, seed: Ledger)
    requires genesis.parents == [] && Replayable(map[g := genesis], map[g := GENESIS_DATA])
    ensures var dag: BlockDag, gd: Coloring := map[g := genesis], map[g := GENESIS_DATA];
            && Chain(gd, g) == [g] && ChainSets(gd) == map[g := {g}]
            && HeadersAgree(sem, dag, gd, seed) && StateAt(sem, dag, gd, seed, g) == seed
  {
    var dag: BlockDag, gd: Coloring := map[g := genesis], map[g := GENESIS_DATA];
    assert Chain(gd, g) == [g];
    assert Elements([g]) == {g};
    assert ChainSets(gd).Keys == {g};
    assert Order(gd, g) == [g];
    assert Held(dag, gd, [g]) && Held(dag, gd, []);
    assert Replayed(sem, dag, gd, seed, [g][..0]) == seed;
    assert Replayed(sem, dag, gd, seed, [g]) == Effect(sem, seed, dag[g], 0);
    assert RootAgrees(sem, dag, gd, seed, g);
  }
}
