/** The chain state machine (src/lib.rs, `ChainState`) of an archival node: admission of a
    block, tips, finality, the folded base ledger and the replayed live ledger. */
module ChainStateMachine {
  import opened Types
  import opened Lists
  import opened Dag
  import opened Forest
  import opened ReachabilityOracle
  import opened Ghostdag
  import opened GhostdagProperties
  import opened GhostdagLocality
  import opened Canonical
  import opened Replay

  const MAX_BLOCK_PARENTS: nat := 10
  const MAX_MERGESET_SIZE: nat := 512

  /** Duplicate detection with a set of what was seen. */
  method AllDistinct(s: seq<Hash>) returns (yes: bool)
    ensures yes <==> Distinct(s)
  {
    var seen: set<Hash> := {};
    for i := 0 to |s|
      invariant seen == Elements(s[..i]) && Distinct(s[..i])
    {
      if s[i] in seen {
        return false;
      }
      assert s[..i + 1] == s[..i] + [s[i]];
      seen := seen + {s[i]};
    }
    assert s[..|s|] == s;
    yes := true;
  }

  ghost function ChainSets(gd: Coloring): map<Hash, set<Hash>>
    requires ChainDown(gd)
  {
    map b | b in gd :: Elements(Chain(gd, b))
  }

  /** The oracle indexes every block and answers ancestry and chain ancestry. */
  ghost predicate OracleServes(nodes: Nodes, past: Pasts, gd: Coloring)
    requires ChainDown(gd)
  {
    nodes.Keys == gd.Keys && Answers(nodes, past) && ChainAnswers(nodes, ChainSets(gd))
  }

  /** The state a block is admitted on: its selected parent's state plus its merged blocks. */
  ghost function StateBefore(sem: Semantics, dag: BlockDag, gd: Coloring, seed: Ledger, d: GhostdagData): Ledger
    requires Replayable(dag, gd) && d.selectedParent.Some? && d.selectedParent.value in gd && Held(dag, gd, Merged(d))
  {
    Replayed(sem, dag, gd, StateAt(sem, dag, gd, seed, d.selectedParent.value), Merged(d))
  }

  lemma {:induction false} MergedIsMergeset(past: Pasts, gd: Coloring, sp: Hash, ms: set<Hash>)
    requires ChainDown(gd) && sp in gd && ms <= past.Keys
    ensures var d := DataWith(past, gd, sp, ms);
            d.selectedParent == Some(sp) && d.mergesetBlues != [] && Elements(Merged(d)) == ms && Distinct(Merged(d))
  {
    var c := ColorAll(past, Blues(gd, sp), MergeOrder(past, ms));
    ColorMembers(past, ms, Blues(gd, sp), c);
    assert Tail([sp] + c.blues) == c.blues;
    assert Elements(c.blues + c.reds) == Elements(c.blues) + Elements(c.reds);
  }

  /** `d` is what a new block with these parents gets, and all it names is held. */
  ghost predicate IsNewData(dag: BlockDag, past: Pasts, gd: Coloring, parents: seq<Hash>, d: GhostdagData) {
    && DataReady(past, gd, parents) && d == Data(past, gd, parents)
    && Heaviest(gd, parents).Some? && d.selectedParent == Heaviest(gd, parents)
    && d.selectedParent.value in gd && d.mergesetBlues != []
    && Held(dag, gd, Merged(d))
    && Elements(Merged(d)) == MergeSet(past, parents, d.selectedParent.value)
  }

  lemma {:induction false} NewDataHeld(dag: BlockDag, past: Pasts, gd: Coloring, parents: seq<Hash>)
    requires Consistent(dag, past, gd) && parents != [] && forall p :: p in parents ==> p in dag
    ensures DataReady(past, gd, parents)
    ensures IsNewData(dag, past, gd, parents, Data(past, gd, parents))
  {
    ConsistentIsReady(dag, past, gd, parents);
    assert parents[0] in parents;
    var sp := Heaviest(gd, parents).value;
    MergeSetInside(past, parents, sp);
    MergedIsMergeset(past, gd, sp, MergeSet(past, parents, sp));
    var d := Data(past, gd, parents);
    forall h | h in Merged(d)
      ensures h in dag
    {
      assert h in Elements(Merged(d));
    }
  }

  ghost predicate WellShaped(dag: BlockDag, h: Hash, block: Block) {
    && h !in dag
    && block.parents != [] && |block.parents| <= MAX_BLOCK_PARENTS && Distinct(block.parents)
    && forall p :: p in block.parents ==> p in dag
  }

  /** A block with data `d` extends the chain of the finality point `fp`, merges no more than
      the cap, applies strictly on the state before it and commits to the state after it. */
  ghost predicate Passes(sem: Semantics, dag: BlockDag, gd: Coloring, seed: Ledger, fp: Option<Hash>, block: Block,
                         d: GhostdagData)
    requires Replayable(dag, gd) && d.selectedParent.Some? && d.selectedParent.value in gd && Held(dag, gd, Merged(d))
  {
    var after := sem.admit(StateBefore(sem, dag, gd, seed, d), block, d.blueScore);
    && (fp.Some? ==> OnChain(gd, fp.value, d.selectedParent.value))
    && |Elements(Merged(d))| <= MAX_MERGESET_SIZE
    && after.Some? && block.stateRoot == sem.commit(after.value)
  }

  // ----- Loops over the selected chain -----

  /** Walk selected parents from `tip`, then reverse. */
  method SelectedChain(gd: Coloring, tip: Hash) returns (chain: seq<Hash>)
    requires ChainDown(gd) && tip in gd
    ensures chain == Chain(gd, tip)
  {
    var rev: seq<Hash> := [];
    var cursor: Option<Hash> := Some(tip);
    ghost var walked: seq<Hash> := [];
    while cursor.Some?
      invariant cursor.Some? ==> cursor.value in gd && Chain(gd, tip) == Chain(gd, cursor.value) + walked
      invariant cursor.None? ==> Chain(gd, tip) == walked
      invariant |walked| == |rev| && forall i :: 0 <= i < |rev| ==> walked[i] == rev[|rev| - 1 - i]
      decreases if cursor.Some? then gd[cursor.value].blueScore + 1 else 0
    {
      var h := cursor.value;
      assert Descends(gd, h);
      rev := rev + [h];
      walked := [h] + walked;
      cursor := gd[h].selectedParent;
    }
    chain := seq(|rev|, i requires 0 <= i < |rev| => rev[|rev| - 1 - i]);
    assert chain == walked;
  }

  lemma {:induction false} ChainAscends(gd: Coloring, b: Hash, i: nat, j: nat)
    requires ChainDown(gd) && b in gd && i < j < |Chain(gd, b)|
    ensures Chain(gd, b)[i] in gd && Chain(gd, b)[j] in gd
    ensures gd[Chain(gd, b)[i]].blueScore < gd[Chain(gd, b)[j]].blueScore
    decreases gd[b].blueScore
  {
    assert Descends(gd, b);
    var c := Chain(gd, b);
    if j < |c| - 1 {
      ChainAscends(gd, gd[b].selectedParent.value, i, j);
    } else {
      assert OnChain(gd, c[i], gd[b].selectedParent.value);
      ChainScores(gd, c[i], gd[b].selectedParent.value);
    }
  }

  lemma {:induction false} LastAtMostAt(gd: Coloring, b: Hash, limit: nat, n: nat)
    requires ChainDown(gd) && b in gd && n <= |Chain(gd, b)|
    requires forall i :: 0 <= i < |Chain(gd, b)| ==> Chain(gd, b)[i] in gd
    requires forall i :: 0 <= i < n ==> gd[Chain(gd, b)[i]].blueScore <= limit
    requires n < |Chain(gd, b)| ==> gd[Chain(gd, b)[n]].blueScore > limit
    ensures LastAtMost(gd, b, limit) == if n == 0 then None else Some(Chain(gd, b)[n - 1])
    decreases gd[b].blueScore
  {
    assert Descends(gd, b);
    var c := Chain(gd, b);
    if n < |c| {
      if n < |c| - 1 {
        ChainAscends(gd, b, n, |c| - 1);
      }
      if gd[b].selectedParent.Some? {
        var sp := gd[b].selectedParent.value;
        assert c == Chain(gd, sp) + [b];
        assert forall i :: 0 <= i < |Chain(gd, sp)| ==> Chain(gd, sp)[i] == c[i];
        LastAtMostAt(gd, sp, limit, n);
      }
    }
  }

  lemma {:induction false} ChainHeld(gd: Coloring, b: Hash)
    requires ChainDown(gd) && b in gd
    ensures forall i :: 0 <= i < |Chain(gd, b)| ==> Chain(gd, b)[i] in gd
  {
    forall i | 0 <= i < |Chain(gd, b)|
      ensures Chain(gd, b)[i] in gd
    {
      assert OnChain(gd, Chain(gd, b)[i], b);
      ChainScores(gd, Chain(gd, b)[i], b);
    }
  }

  /** The last block, from genesis up, before the score passes `FINALITY_DEPTH` below the tip. */
  method FinalityPointOf(gd: Coloring, tip: Hash) returns (fp: Option<Hash>)
    requires ChainDown(gd) && tip in gd
    ensures fp == FinalityOf(gd, tip, FINALITY_DEPTH)
  {
    if gd[tip].blueScore <= FINALITY_DEPTH {
      return None;
    }
    var threshold := gd[tip].blueScore - FINALITY_DEPTH;
    var chain := SelectedChain(gd, tip);
    ChainHeld(gd, tip);
    fp := None;
    var i := 0;
    while i < |chain|
      invariant 0 <= i <= |chain|
      invariant forall j :: 0 <= j < i ==> gd[chain[j]].blueScore <= threshold
      invariant fp == if i == 0 then None else Some(chain[i - 1])
    {
      if gd[chain[i]].blueScore > threshold {
        break;
      }
      fp := Some(chain[i]);
      i := i + 1;
    }
    LastAtMostAt(gd, tip, threshold, i);
  }

  lemma {:induction false} ChainPrefix(gd: Coloring, b: Hash, i: nat)
    requires ChainDown(gd) && b in gd && i < |Chain(gd, b)|
    ensures Chain(gd, b)[i] in gd && Chain(gd, Chain(gd, b)[i]) == Chain(gd, b)[..i + 1]
    decreases gd[b].blueScore
  {
    assert Descends(gd, b);
    var c := Chain(gd, b);
    if i < |c| - 1 {
      ChainPrefix(gd, gd[b].selectedParent.value, i);
      assert c[..i + 1] == Chain(gd, gd[b].selectedParent.value)[..i + 1];
    } else {
      assert c[..i + 1] == c;
    }
  }

  /** The `i`-th chain block's order continues the previous one's. */
  lemma {:induction false} OrderAtChain(gd: Coloring, b: Hash, i: nat)
    requires ChainDown(gd) && b in gd && i < |Chain(gd, b)|
    ensures Chain(gd, b)[i] in gd
    ensures i == 0 ==> Order(gd, Chain(gd, b)[i]) == Merged(gd[Chain(gd, b)[i]]) + [Chain(gd, b)[i]]
    ensures i > 0 ==> Chain(gd, b)[i - 1] in gd && gd[Chain(gd, b)[i]].selectedParent == Some(Chain(gd, b)[i - 1])
                      && Order(gd, Chain(gd, b)[i]) ==
                         Order(gd, Chain(gd, b)[i - 1]) + Merged(gd[Chain(gd, b)[i]]) + [Chain(gd, b)[i]]
  {
    ChainPrefix(gd, b, i);
    var h := Chain(gd, b)[i];
    assert Descends(gd, h);
    if i > 0 {
      ChainPrefix(gd, b, i - 1);
      assert |Chain(gd, h)| == i + 1;
      assert gd[h].selectedParent.Some?;
      var sp := gd[h].selectedParent.value;
      assert Chain(gd, h) == Chain(gd, sp) + [h];
      assert Chain(gd, sp) == Chain(gd, b)[..i];
      assert sp == Chain(gd, sp)[|Chain(gd, sp)| - 1];
    } else {
      assert |Chain(gd, h)| == 1;
    }
  }

  /** The canonical order at a block; empty for an unknown one. */
  method CanonicalOrderAt(dag: BlockDag, gd: Coloring, tip: Hash, ghost past: Pasts) returns (order: seq<Hash>)
    requires Consistent(dag, past, gd)
    ensures order == if tip in gd then Order(gd, tip) else []
    ensures tip in gd && dag[tip].parents != [] ==> InPlaces(past, gd, tip, order)
  {
    if tip !in gd {
      return [];
    }
    order := EmitChain(dag, gd, tip, past);
    if dag[tip].parents != [] {
      OrderPlaces(dag, past, gd, tip);
    }
  }

  /** Emit each chain block's merged blocks, blues before reds, then the block, skipping what was
      emitted. */
  method EmitChain(dag: BlockDag, gd: Coloring, tip: Hash, ghost past: Pasts) returns (order: seq<Hash>)
    requires Consistent(dag, past, gd) && tip in gd
    ensures order == Order(gd, tip)
  {
    var chain := SelectedChain(gd, tip);
    order := [];
    var seen: set<Hash> := {};
    for i := 0 to |chain|
      invariant i > 0 ==> chain[i - 1] in gd && order == Order(gd, chain[i - 1])
      invariant i == 0 ==> order == []
      invariant seen == Elements(order)
    {
      var h := chain[i];
      OrderAtChain(gd, tip, i);
      ghost var before := order;
      FreshAtStep(dag, past, gd, h, before);
      order, seen := EmitNew(dag, order, seen, Merged(gd[h]));
      if h !in seen {
        seen := seen + {h};
        order := order + [h];
      }
      assert Elements(order) == Elements(before + Merged(gd[h])) + {h};
    }
  }

  /** Nothing a chain block emits was emitted before it. */
  lemma {:induction false} FreshAtStep(dag: BlockDag, past: Pasts, gd: Coloring, h: Hash, before: seq<Hash>)
    requires Consistent(dag, past, gd) && h in gd
    requires gd[h].selectedParent.Some? ==>
             gd[h].selectedParent.value in gd && before == Order(gd, gd[h].selectedParent.value)
    requires gd[h].selectedParent.None? ==> before == []
    ensures Distinct(Merged(gd[h])) && Elements(Merged(gd[h])) !! Elements(before)
    ensures Elements(Merged(gd[h])) <= dag.Keys
    ensures h !in Elements(before) + Elements(Merged(gd[h]))
  {
    DataInPast(dag, past, gd, h);
    if gd[h].selectedParent.Some? {
      MergedFacts(dag, past, gd, h);
      OrderListsPast(dag, past, gd, gd[h].selectedParent.value);
    } else {
      GenesisData(dag, past, gd, h);
    }
  }

  method EmitNew(dag: BlockDag, order: seq<Hash>, seen: set<Hash>, blocks: seq<Hash>)
    returns (order2: seq<Hash>, seen2: set<Hash>)
    requires seen == Elements(order) && Distinct(blocks) && Elements(blocks) !! seen && Elements(blocks) <= dag.Keys
    ensures order2 == order + blocks && seen2 == Elements(order2)
  {
    order2, seen2 := order, seen;
    for i := 0 to |blocks|
      invariant order2 == order + blocks[..i] && seen2 == Elements(order2)
    {
      var m := blocks[i];
      assert m in Elements(blocks);
      assert m !in blocks[..i];
      if m in dag && m !in seen2 {
        seen2 := seen2 + {m};
        order2 := order2 + [m];
      }
      assert blocks[..i + 1] == blocks[..i] + [m];
    }
    assert blocks[..|blocks|] == blocks;
  }

  // ----- Replay loops -----

  /** Just after the frontier, or the beginning if there is none or it is not listed. */
  method ReplayStart(order: seq<Hash>, frontier: Option<Hash>) returns (start: nat)
    ensures start <= |order|
    ensures frontier.None? ==> start == 0
    ensures frontier.Some? && frontier.value in order ==> start > 0 && order[start - 1] == frontier.value
    ensures frontier.Some? && frontier.value !in order ==> start == 0
  {
    if frontier.Some? {
      for i := 0 to |order|
        invariant frontier.value !in order[..i]
      {
        if order[i] == frontier.value {
          return i + 1;
        }
      }
    }
    start := 0;
  }

  method ReplayBlocks(sem: Semantics, dag: BlockDag, gd: Coloring, l: Ledger, order: seq<Hash>) returns (r: Ledger)
    requires Held(dag, gd, order)
    ensures r == Replayed(sem, dag, gd, l, order)
  {
    r := l;
    for i := 0 to |order|
      invariant Held(dag, gd, order[..i]) && r == Replayed(sem, dag, gd, l, order[..i])
    {
      assert order[..i + 1][..i] == order[..i];
      r := Effect(sem, r, dag[order[i]], gd[order[i]].blueScore);
    }
    assert order[..|order|] == order;
  }

  lemma {:induction false} StartIsUnfolded(dag: BlockDag, past: Pasts, gd: Coloring, frontier: Option<Hash>, b: Hash,
                                           start: nat)
    requires Consistent(dag, past, gd) && b in gd && (frontier.Some? ==> OnChain(gd, frontier.value, b))
    requires start <= |Order(gd, b)| && (frontier.None? ==> start == 0)
    requires frontier.Some? && frontier.value in Order(gd, b) ==> start > 0 && Order(gd, b)[start - 1] == frontier.value
    ensures frontier.Some? ==> frontier.value in gd && |Order(gd, frontier.value)| <= |Order(gd, b)|
    ensures Order(gd, b)[start..] == Unfolded(gd, frontier, b)
    ensures start == if frontier.Some? then |Order(gd, frontier.value)| else 0
  {
    if frontier.Some? {
      FrontierStart(dag, past, gd, frontier.value, b, start);
    }
  }

  lemma {:induction false} FrontierStart(dag: BlockDag, past: Pasts, gd: Coloring, f: Hash, b: Hash, start: nat)
    requires Consistent(dag, past, gd) && b in gd && OnChain(gd, f, b) && start <= |Order(gd, b)|
    requires f in Order(gd, b) ==> start > 0 && Order(gd, b)[start - 1] == f
    ensures f in gd && start == |Order(gd, f)|
  {
    ChainBlockAfterItsPast(dag, past, gd, f, b);
    assert Order(gd, b)[|Order(gd, f)| - 1] in Order(gd, b);
    FrontierPosition(dag, past, gd, f, b, start - 1);
  }

  /** Base plus the rest of the canonical order: the state at `b`, wherever the base stands. */
  method VirtualStateAt(sem: Semantics, dag: BlockDag, gd: Coloring, base: Ledger, frontier: Option<Hash>, b: Hash,
                        ghost past: Pasts, ghost seed: Ledger) returns (l: Ledger)
    requires Consistent(dag, past, gd) && Replayable(dag, gd) && b in gd
    requires BaseBelow(sem, dag, gd, seed, base, frontier, b)
    ensures l == StateAt(sem, dag, gd, seed, b)
  {
    var order := CanonicalOrderAt(dag, gd, b, past);
    var start := ReplayStart(order, frontier);
    StartIsUnfolded(dag, past, gd, frontier, b, start);
    FoldingDoesNotShow(sem, dag, gd, seed, base, frontier, b);
    l := ReplayBlocks(sem, dag, gd, base, order[start..]);
  }

  /** Strict admission of `block` on its selected parent's state plus its merged blocks. */
  method PostMergesetState(sem: Semantics, dag: BlockDag, gd: Coloring, base: Ledger, frontier: Option<Hash>,
                           d: GhostdagData, block: Block, ghost past: Pasts, ghost seed: Ledger)
      returns (after: Option<Ledger>)
    requires Consistent(dag, past, gd) && Replayable(dag, gd)
    requires d.selectedParent.Some? && d.selectedParent.value in gd && Held(dag, gd, Merged(d))
    requires BaseBelow(sem, dag, gd, seed, base, frontier, d.selectedParent.value)
    ensures after == sem.admit(StateBefore(sem, dag, gd, seed, d), block, d.blueScore)
  {
    var sim := VirtualStateAt(sem, dag, gd, base, frontier, d.selectedParent.value, past, seed);
    sim := ReplayBlocks(sem, dag, gd, sim, Merged(d));
    after := sem.admit(sim, block, d.blueScore);
  }
}
