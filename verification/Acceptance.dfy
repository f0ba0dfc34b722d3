/** Admission seen from the block graph that results: exactly which blocks a node takes. */
module Acceptance {
  import opened Types
  import opened Lists
  import opened Dag
  import opened Ghostdag
  import opened GhostdagLocality
  import opened Canonical
  import opened Replay
  import opened ChainStateMachine
  import opened ChainNode
  import opened ArchivalNode

  /** The ledger just before `b` in its own canonical order. */
  ghost function LedgerBefore(sem: Semantics, dag: BlockDag, gd: Coloring, seed: Ledger, b: Hash): Ledger
    requires Replayable(dag, gd) && b in gd
  {
    var o := Order(gd, b);
    assert Held(dag, gd, o[..|o| - 1]);
    Replayed(sem, dag, gd, seed, o[..|o| - 1])
  }

  /** In a graph that holds `b`: the finality point `fp` is on its chain, it brings at most 512
      blocks that its selected parent did not have, it applies in full right after everything
      it orders before itself, and its header commits to the ledger it leads to. */
  ghost predicate Fits(sem: Semantics, seed: Ledger, past: Pasts, dag: BlockDag, gd: Coloring, fp: Option<Hash>,
                       b: Hash)
    requires Replayable(dag, gd) && b in gd && past.Keys == gd.Keys
  {
    && (fp.Some? ==> OnChain(gd, fp.value, b))
    && gd[b].selectedParent.Some? && gd[b].selectedParent.value in past
    && |past[b] - past[gd[b].selectedParent.value] - {gd[b].selectedParent.value}| <= 512
    && sem.admit(LedgerBefore(sem, dag, gd, seed, b), dag[b], gd[b].blueScore).Some?
    && dag[b].stateRoot == sem.commit(StateAt(sem, dag, gd, seed, b))
  }

  /** What a new block is admitted on is the ledger just before it in the extended graph. */
  lemma {:induction false} BeforeIs(sem: Semantics, seed: Ledger, dag: BlockDag, gd: Coloring, dag2: BlockDag,
                                    gd2: Coloring, h: Hash, d: GhostdagData)
    requires Replayable(dag, gd) && Replayable(dag2, gd2) && Grows(dag, gd, dag2, gd2) && h in gd2 && gd2[h] == d
    requires d.selectedParent.Some? && d.selectedParent.value in gd && Held(dag, gd, Merged(d))
    ensures LedgerBefore(sem, dag2, gd2, seed, h) == StateBefore(sem, dag, gd, seed, d)
  {
    var sp := d.selectedParent.value;
    assert Descends(gd2, h);
    OrderKept(gd, gd2, sp);
    var o, m := Order(gd, sp), Merged(d);
    assert Order(gd2, h) == o + m + [h];
    assert Order(gd2, h)[..|Order(gd2, h)| - 1] == o + m;
    assert Held(dag, gd, o + m);
    ReplayedInParts(sem, dag, gd, seed, o, m);
    ReplayedKept(sem, dag, gd, dag2, gd2, seed, o + m);
  }

  /** The state at a block is its effect on the ledger just before it. */
  lemma {:induction false} StateIsEffect(sem: Semantics, seed: Ledger, dag: BlockDag, gd: Coloring, b: Hash)
    requires Replayable(dag, gd) && b in gd && dag[b].parents != []
    ensures StateAt(sem, dag, gd, seed, b) ==
            sem.apply(LedgerBefore(sem, dag, gd, seed, b), dag[b], gd[b].blueScore)
  {
  }

  /** Being on the chain of a new block is being on that of its selected parent. */
  lemma {:induction false} ChainOfNew(gd: Coloring, h: Hash, d: GhostdagData, f: Hash)
    requires ChainDown(gd) && ChainDown(gd[h := d]) && h !in gd && f in gd
    requires d.selectedParent.Some? && d.selectedParent.value in gd
    ensures OnChain(gd[h := d], f, h) <==> OnChain(gd, f, d.selectedParent.value)
  {
    OnChainStep(gd[h := d], f, h);
    ChainKept(gd, gd[h := d], d.selectedParent.value);
  }

  lemma {:induction false} PassesIsFits(sem: Semantics, seed: Ledger, dag: BlockDag, gd: Coloring, past2: Pasts,
                                        dag2: BlockDag, gd2: Coloring, fp: Option<Hash>, h: Hash, block: Block,
                                        d: GhostdagData)
    requires Lawful(sem) && Replayable(dag, gd) && Replayable(dag2, gd2) && block.parents != []
    requires h !in dag && dag2 == dag[h := block] && gd2 == gd[h := d] && past2.Keys == gd2.Keys
    requires d.selectedParent.Some? && d.selectedParent.value in gd && Held(dag, gd, Merged(d))
    requires past2[h] - past2[d.selectedParent.value] - {d.selectedParent.value} == Elements(Merged(d))
    requires fp.Some? ==> fp.value in gd
    ensures Passes(sem, dag, gd, seed, fp, block, d) <==> Fits(sem, seed, past2, dag2, gd2, fp, h)
  {
    BeforeIs(sem, seed, dag, gd, dag2, gd2, h, d);
    StateIsEffect(sem, seed, dag2, gd2, h);
    if fp.Some? {
      ChainOfNew(gd, h, d, fp.value);
    }
  }

  lemma {:induction false} NewGraph(past: Pasts, dag: BlockDag, gd: Coloring, tips: seq<Hash>, h: Hash, block: Block)
    requires Graph(dag, past, gd, tips) && WellShaped(dag, h, block)
    ensures DataReady(past, gd, block.parents)
    ensures IsNewData(dag, past, gd, block.parents, Data(past, gd, block.parents))
    ensures Replayable(dag, gd) && Replayable(dag[h := block], gd[h := Data(past, gd, block.parents)])
    ensures past[h := NewPast(past, block.parents)].Keys == gd[h := Data(past, gd, block.parents)].Keys
  {
    NewDataHeld(dag, past, gd, block.parents);
    AcceptedGraph(dag, past, gd, tips, h, block, Data(past, gd, block.parents));
  }

  /** A well-shaped block is admissible exactly when it fits the graph it would become part of. */
  lemma {:induction false} AdmissibleExactly(sem: Semantics, seed: Ledger, past: Pasts, dag: BlockDag, gd: Coloring,
                                             tips: seq<Hash>, fp: Option<Hash>, h: Hash, block: Block)
    requires Lawful(sem) && Graph(dag, past, gd, tips) && WellShaped(dag, h, block)
    requires fp.Some? ==> fp.value in gd
    ensures DataReady(past, gd, block.parents)
    ensures var dag2, gd2 := dag[h := block], gd[h := Data(past, gd, block.parents)];
            var past2 := past[h := NewPast(past, block.parents)];
            && Replayable(dag2, gd2) && past2.Keys == gd2.Keys
            && (Admissible(sem, seed, past, dag, gd, fp, block) <==> Fits(sem, seed, past2, dag2, gd2, fp, h))
  {
    NewGraph(past, dag, gd, tips, h, block);
    var d := Data(past, gd, block.parents);
    UnfoldAdmissible(sem, seed, past, dag, gd, fp, block);
    PassesIsFits(sem, seed, dag, gd, past[h := NewPast(past, block.parents)], dag[h := block], gd[h := d], fp, h,
                 block, d);
  }
}
