/** History pruning (src/lib.rs, `prune_history`): blocks below the pruning point's score are
    dropped, links to them are cut, and nothing a later query can see of the kept blocks
    changes. */
module Pruning {
  import opened Types
  import opened Lists
  import opened Dag
  import opened Forest
  import opened ReachabilityOracle
  import opened OracleRuns
  import opened Ghostdag
  import opened GhostdagProperties
  import opened Canonical
  import opened Replay
  import opened ChainStateMachine
  import opened ChainNode
  import opened Sums

  const PRUNING_DEPTH: nat := 2 * FINALITY_DEPTH

  // ----- Values -----

  /** A block outscores each of its parents that is still held. */
  ghost predicate ScoresRise(dag: BlockDag, gd: Coloring) {
    forall b, p {:trigger p in dag[b].parents} :: b in dag && p in dag[b].parents && p in dag && p in gd && b in gd ==>
      gd[p].blueScore < gd[b].blueScore
  }

  /** The blocks at or above a score. */
  function AtLeast(gd: Coloring, score: nat): set<Hash> {
    set h | h in gd && gd[h].blueScore >= score
  }

  /** The data of kept blocks, with selected-parent links out of `keep` cut. */
  function Cut(gd: Coloring, keep: set<Hash>): Coloring {
    map h | h in gd && h in keep ::
      if gd[h].selectedParent.Some? && gd[h].selectedParent.value !in keep then gd[h].(selectedParent := None)
      else gd[h]
  }

  function KeepOnly(tips: seq<Hash>, keep: set<Hash>): seq<Hash> {
    Filter(tips, Elements(tips) - keep)
  }

  lemma {:induction false} KeepOnlyMembers(tips: seq<Hash>, keep: set<Hash>)
    ensures forall x :: x in KeepOnly(tips, keep) <==> x in tips && x in keep
  {
    FilterMembers(tips, Elements(tips) - keep);
  }

  lemma {:induction false} ScoreRisesOnPath(dag: BlockDag, gd: Coloring, a: Hash, b: Hash, n: nat)
    requires ScoresRise(dag, gd) && gd.Keys == dag.Keys && a in dag && b in dag && n > 0 && Path(dag, a, b, n)
    ensures gd[a].blueScore < gd[b].blueScore
    decreases n
  {
    var p :| p in dag[b].parents && Path(dag, a, p, n - 1);
    if n > 1 {
      ScoreRisesOnPath(dag, gd, a, p, n - 1);
    }
  }

  /** Everything above a kept block is kept. */
  lemma {:induction false} AtLeastIsClosed(dag: BlockDag, gd: Coloring, score: nat)
    requires ScoresRise(dag, gd) && gd.Keys == dag.Keys
    ensures FutureClosed(dag, AtLeast(gd, score))
  {
    var keep := AtLeast(gd, score);
    forall x, y | x in keep && y in dag && Ancestor(dag, x, y)
      ensures y in keep
    {
      var n: nat :| n > 0 && Path(dag, x, y, n);
      ScoreRisesOnPath(dag, gd, x, y, n);
    }
  }

  /** No kept block names a dropped selected parent. */
  lemma {:induction false} CutDescends(gd: Coloring, keep: set<Hash>)
    requires ChainDown(gd)
    ensures ChainDown(Cut(gd, keep))
  {
    var gd2 := Cut(gd, keep);
    forall b | b in gd2
      ensures Descends(gd2, b)
    {
      assert Descends(gd, b);
    }
  }

  lemma {:induction false} CutRises(dag: BlockDag, gd: Coloring, keep: set<Hash>)
    requires ScoresRise(dag, gd)
    ensures ScoresRise(Restrict(dag, keep), Cut(gd, keep))
  {
    var d := Restrict(dag, keep);
    assert forall b :: b in d ==> d[b] == dag[b];
  }

  /** The chain of a block above the pruning point loses what lies below that point. */
  lemma {:induction false} CutChain(gd: Coloring, pp: Hash, b: Hash, k: nat)
    requires ChainDown(gd) && pp in gd && b in gd && k < |Chain(gd, b)| && Chain(gd, b)[k] == pp
    requires ChainDown(Cut(gd, AtLeast(gd, gd[pp].blueScore)))
    ensures b in Cut(gd, AtLeast(gd, gd[pp].blueScore))
    ensures Chain(Cut(gd, AtLeast(gd, gd[pp].blueScore)), b) == Chain(gd, b)[k..]
    decreases gd[b].blueScore
  {
    var keep := AtLeast(gd, gd[pp].blueScore);
    var gd2 := Cut(gd, keep);
    assert OnChain(gd, pp, b);
    ChainScores(gd, pp, b);
    assert Descends(gd, b) && Descends(gd2, b);
    var c := Chain(gd, b);
    if k == |c| - 1 {
      assert Chain(gd2, b) == [b];
    } else {
      var sp := gd[b].selectedParent.value;
      CutChain(gd, pp, sp, k);
      assert c == Chain(gd, sp) + [b];
      assert c[k..] == Chain(gd, sp)[k..] + [b];
    }
  }

  lemma {:induction false} CutTip(gd: Coloring, tips: seq<Hash>, t: Hash, keep: set<Hash>)
    requires t in tips && IsHeaviest(gd, t) && t in keep
    ensures IsHeaviest(Cut(gd, keep), t) && Heaviest(Cut(gd, keep), KeepOnly(tips, keep)) == Some(t)
  {
    var gd2 := Cut(gd, keep);
    forall x | x in gd2 && x != t
      ensures Heavier(gd2, t, x)
    {
      assert Heavier(gd, t, x);
    }
    KeepOnlyMembers(tips, keep);
    HeaviestUnique(gd2, KeepOnly(tips, keep), t);
  }

  /** What pruning needs and keeps. */
  ghost predicate Prunable(dag: BlockDag, gd: Coloring, tips: seq<Hash>, mainChain: seq<Hash>) {
    && gd.Keys == dag.Keys && ChainDown(gd) && ScoresRise(dag, gd)
    && (forall t :: t in tips ==> t in dag)
    && Heaviest(gd, tips).Some? && IsHeaviest(gd, Tip(gd, tips))
    && mainChain == Chain(gd, Tip(gd, tips))
  }

  /** The pruning point: the last block of the main chain at least `PRUNING_DEPTH` below the tip. */
  ghost function PruningPoint(gd: Coloring, tips: seq<Hash>): Option<Hash> {
    if ChainDown(gd) && Heaviest(gd, tips).Some? then FinalityOf(gd, Tip(gd, tips), PRUNING_DEPTH) else None
  }

  /** The blocks pruning keeps. */
  ghost function Kept(gd: Coloring, tips: seq<Hash>): set<Hash> {
    var pp := PruningPoint(gd, tips);
    if pp.Some? && pp.value in gd then AtLeast(gd, gd[pp.value].blueScore) else gd.Keys
  }

  /** Every archival node is prunable. */
  lemma {:induction false} GraphIsPrunable(dag: BlockDag, past: Pasts, gd: Coloring, tips: seq<Hash>)
    requires Graph(dag, past, gd, tips)
    ensures Prunable(dag, gd, tips, Chain(gd, Tip(gd, tips)))
  {
    forall b, p | b in dag && p in dag[b].parents && p in dag
      ensures gd[p].blueScore < gd[b].blueScore
    {
      ScoreRisesOnEdge(dag, past, gd, p, b);
    }
  }

  lemma {:induction false} CutPrunable(dag: BlockDag, gd: Coloring, tips: seq<Hash>, mainChain: seq<Hash>, pp: Hash,
                                       k: nat)
    requires Prunable(dag, gd, tips, mainChain) && pp in gd && k < |mainChain| && mainChain[k] == pp
    ensures var keep := AtLeast(gd, gd[pp].blueScore);
            && Prunable(Restrict(dag, keep), Cut(gd, keep), KeepOnly(tips, keep), mainChain[k..])
            && Heaviest(Cut(gd, keep), KeepOnly(tips, keep)) == Heaviest(gd, tips)
  {
    var keep := AtLeast(gd, gd[pp].blueScore);
    var t := Tip(gd, tips);
    assert OnChain(gd, pp, t);
    ChainScores(gd, pp, t);
    CutDescends(gd, keep);
    CutRises(dag, gd, keep);
    CutTip(gd, tips, t, keep);
    CutChain(gd, pp, t, k);
    KeepOnlyMembers(tips, keep);
  }

  /** The first place of `x`, or the length if it is not there. */
  function Position(s: seq<Hash>, x: Hash): (k: nat)
    ensures k <= |s| && (x in s ==> k < |s| && s[k] == x)
  {
    if s == [] || s[0] == x then 0 else 1 + Position(s[1..], x)
  }

  lemma {:induction false} PositionIs(gd: Coloring, t: Hash, k: nat)
    requires ChainDown(gd) && t in gd && k < |Chain(gd, t)|
    ensures Position(Chain(gd, t), Chain(gd, t)[k]) == k
  {
    var c := Chain(gd, t);
    var p := Position(c, c[k]);
    if p < k {
      ChainAscends(gd, t, p, k);
    } else if k < p {
      ChainAscends(gd, t, k, p);
    }
  }

  /** The part of the node that pruning touches, the oracle aside. */
  datatype View = View(dag: BlockDag, gd: Coloring, tips: seq<Hash>, mainChain: seq<Hash>, prunedSelected: nat,
                       pruningPoint: Option<Hash>)

  /** Absolute height of the selected tip; genesis has height 0. */
  function TipHeight(v: View): nat {
    if v.prunedSelected + |v.mainChain| == 0 then 0 else v.prunedSelected + |v.mainChain| - 1
  }

  ghost predicate PrunableView(v: View) {
    Prunable(v.dag, v.gd, v.tips, v.mainChain)
  }

  /** The view after everything below the block at `index` of the main chain is dropped. */
  ghost function DropBelow(v: View, index: nat): View
    requires index < |v.mainChain| && v.mainChain[index] in v.gd
  {
    var keep := AtLeast(v.gd, v.gd[v.mainChain[index]].blueScore);
    View(Restrict(v.dag, keep), Cut(v.gd, keep), KeepOnly(v.tips, keep), v.mainChain[index..],
         v.prunedSelected + index, Some(v.mainChain[index]))
  }

  /** The view after pruning: nothing changes if nothing lies below the pruning point. */
  ghost function Pruned(v: View): View {
    var pp := PruningPoint(v.gd, v.tips);
    if pp.Some? && pp.value in v.mainChain && pp.value in v.gd && Kept(v.gd, v.tips) != v.gd.Keys
    then DropBelow(v, Position(v.mainChain, pp.value)) else v
  }

  /** What pruning keeps of a view: the selected tip, the tip's height and the main chain from
      the pruning point up; afterwards no block names a dropped selected parent, and the view
      can be pruned again. */
  lemma {:induction false} PruningKeeps(v: View)
    requires PrunableView(v)
    ensures var w := Pruned(v);
            && PrunableView(w) && Heaviest(w.gd, w.tips) == Heaviest(v.gd, v.tips) && TipHeight(w) == TipHeight(v)
            && |w.mainChain| <= |v.mainChain| && w.mainChain == v.mainChain[|v.mainChain| - |w.mainChain|..]
  {
    var pp := PruningPoint(v.gd, v.tips);
    if pp.Some? && pp.value in v.mainChain && pp.value in v.gd {
      CutPrunable(v.dag, v.gd, v.tips, v.mainChain, pp.value, Position(v.mainChain, pp.value));
    }
  }

  /** Exactly the blocks at or above the pruning point's score stay, and with every block
      everything above it. */
  lemma {:induction false} PruningCloses(v: View)
    requires PrunableView(v)
    ensures var w := Pruned(v);
            w.dag.Keys == Kept(v.gd, v.tips) && FutureClosed(v.dag, w.dag.Keys) && w.dag == Restrict(v.dag, w.dag.Keys)
  {
    var pp := PruningPoint(v.gd, v.tips);
    if pp.Some? {
      var t := Tip(v.gd, v.tips);
      LastAtMostOnChain(v.gd, t, v.gd[t].blueScore - PRUNING_DEPTH);
      AtLeastIsClosed(v.dag, v.gd, v.gd[pp.value].blueScore);
    }
  }

  /** A kept block is as it was, and so is its data, except that a selected-parent link to a
      dropped block is gone; the tips are the kept ones, and the pruning point is recorded
      exactly when something was dropped. */
  lemma {:induction false} PruningKeepsData(v: View, b: Hash)
    requires PrunableView(v) && b in Pruned(v).dag
    ensures var w := Pruned(v);
            && b in v.dag && b in v.gd && b in w.gd && w.dag[b] == v.dag[b]
            && w.gd[b] == (if v.gd[b].selectedParent.Some? && v.gd[b].selectedParent.value !in w.dag
                           then v.gd[b].(selectedParent := None) else v.gd[b])
            && (b in w.tips <==> b in v.tips)
            && (w.dag.Keys != v.dag.Keys ==> w.pruningPoint == PruningPoint(v.gd, v.tips))
            && (w.dag.Keys == v.dag.Keys ==> w == v)
  {
    PruningCloses(v);
    var keep := Kept(v.gd, v.tips);
    KeepOnlyMembers(v.tips, keep);
    assert v.gd[b].selectedParent.Some? ==> v.gd[b].selectedParent.value in v.gd by {
      assert Descends(v.gd, b);
    }
  }

  /** Ancestry between kept blocks is what it was. */
  lemma {:induction false} PruningKeepsAncestry(v: View, a: Hash, b: Hash)
    requires PrunableView(v) && a in Pruned(v).dag && b in Pruned(v).dag
    ensures Ancestor(Pruned(v).dag, a, b) <==> Ancestor(v.dag, a, b)
  {
    PruningCloses(v);
    RestrictionKeepsAncestry(v.dag, Pruned(v).dag.Keys, a, b);
  }

  /** The last chain block whose score is at most `threshold`, with its index. */
  method PruningPointOf(gd: Coloring, chain: seq<Hash>, threshold: nat, ghost tip: Hash)
      returns (pp: Option<Hash>, index: nat)
    requires ChainDown(gd) && tip in gd && chain == Chain(gd, tip)
    ensures pp == LastAtMost(gd, tip, threshold)
    ensures pp.Some? ==> index < |chain| && chain[index] == pp.value && pp.value in gd
  {
    ChainHeld(gd, tip);
    pp, index := None, 0;
    var i := 0;
    while i < |chain|
      invariant 0 <= i <= |chain|
      invariant forall j :: 0 <= j < i ==> gd[chain[j]].blueScore <= threshold
      invariant pp == if i == 0 then None else Some(chain[i - 1])
      invariant i > 0 ==> index == i - 1
    {
      if gd[chain[i]].blueScore > threshold {
        break;
      }
      pp, index := Some(chain[i]), i;
      i := i + 1;
    }
    LastAtMostAt(gd, tip, threshold, i);
  }

  predicate Opens(key: Key, nodes: Nodes, bound: nat, v: View) { true }

  /** The oracle is sound and agrees with the DAG, and the view is prunable; unfolded only in
      proofs that present the key. */
  ghost predicate Sound(nodes: Nodes, bound: nat, v: View) {
    forall key {:trigger Opens(key, nodes, bound, v)} :: Opens(key, nodes, bound, v) ==> SoundFacts(nodes, bound, v)
  }

  ghost predicate SoundFacts(nodes: Nodes, bound: nat, v: View) {
    Index(nodes) && Below(nodes, bound) && SPACE_START <= bound && Agrees(nodes, v.dag) && PrunableView(v)
  }

  lemma {:induction false} UnfoldSound(nodes: Nodes, bound: nat, v: View)
    requires Sound(nodes, bound, v)
    ensures SoundFacts(nodes, bound, v)
  {
    assert Opens(Key, nodes, bound, v);
  }

  /** Dropping what lies below a main-chain block keeps all of that. */
  lemma {:induction false} DropSound(n0: Nodes, nodes: Nodes, bound: nat, v: View, index: nat)
    requires PrunableView(v) && Agrees(n0, v.dag) && index < |v.mainChain| && v.mainChain[index] in v.gd
    requires Index(nodes) && Below(nodes, bound) && SPACE_START <= bound
    requires var keep := AtLeast(v.gd, v.gd[v.mainChain[index]].blueScore);
             FutureClosed(v.dag, keep) && nodes.Keys == n0.Keys * keep && SameBetweenSurvivors(n0, nodes)
    ensures Sound(nodes, bound, DropBelow(v, index))
  {
    CutPrunable(v.dag, v.gd, v.tips, v.mainChain, v.mainChain[index], index);
    PrunedAgrees(n0, nodes, v.dag, AtLeast(v.gd, v.gd[v.mainChain[index]].blueScore));
  }

  class PrunedNode {
    const reach: Reachability
    var dag: BlockDag
    var gd: Coloring
    var tips: seq<Hash>
    var mainChain: seq<Hash>
    var prunedSelected: nat
    var pruningPoint: Option<Hash>

    ghost predicate Valid()
      reads this, reach
    {
      Sound(reach.nodes, reach.nextRootStart, TheView())
    }

    /** A node that starts to prune, from any state an archival node can be in. */
    constructor (reach: Reachability, dag: BlockDag, gd: Coloring, tips: seq<Hash>, ghost past: Pasts)
      requires Graph(dag, past, gd, tips) && reach.Valid() && Agrees(reach.nodes, dag)
      ensures Valid() && this.reach == reach && this.dag == dag && this.gd == gd && this.tips == tips
      ensures prunedSelected == 0 && pruningPoint == None
    {
      GraphIsPrunable(dag, past, gd, tips);
      var chain := SelectedChain(gd, Heaviest(gd, tips).value);
      this.reach, this.dag, this.gd, this.tips, this.mainChain := reach, dag, gd, tips, chain;
      prunedSelected, pruningPoint := 0, None;
    }

    ghost function TheView(): View
      reads this
    {
      View(dag, gd, tips, mainChain, prunedSelected, pruningPoint)
    }

    /** Drop every block below the score of the pruning point. */
    method PruneHistory()
      requires Valid()
      modifies this, reach
      ensures Valid() && TheView() == Pruned(old(TheView()))
      ensures reach.nodes.Keys == old(reach.nodes).Keys * dag.Keys
      ensures SameBetweenSurvivors(old(reach.nodes), reach.nodes)
    {
      var pp, index, keep := Choose();
      if pp.Some? {
        Discard(index, keep);
      } else {
        UnfoldSound(reach.nodes, reach.nextRootStart, TheView());
      }
    }

    /** The pruning point to move to, with its place on the main chain and the blocks to keep,
        or none if nothing would be dropped. */
    method Choose() returns (pp: Option<Hash>, index: nat, keep: set<Hash>)
      requires Valid()
      ensures pp.None? ==> Pruned(TheView()) == TheView()
      ensures pp.Some? ==> index < |mainChain| && mainChain[index] in gd
                           && Pruned(TheView()) == DropBelow(TheView(), index)
                           && keep == AtLeast(gd, gd[mainChain[index]].blueScore)
    {
      UnfoldSound(reach.nodes, reach.nextRootStart, TheView());
      index, keep := 0, dag.Keys;
      var tip := Heaviest(gd, tips).value;
      if gd[tip].blueScore <= PRUNING_DEPTH {
        return None, index, keep;
      }
      pp, index := PruningPointOf(gd, mainChain, gd[tip].blueScore - PRUNING_DEPTH, tip);
      if pp.None? {
        return None, index, keep;
      }
      PositionIs(gd, tip, index);
      keep := AtLeast(gd, gd[pp.value].blueScore);
      if |keep| == |dag| {
        SameSizeIsAll(keep, dag.Keys);
        pp := None;
      }
    }

    method Discard(index: nat, keep: set<Hash>)
      requires Valid() && index < |mainChain| && mainChain[index] in gd
      requires keep == AtLeast(gd, gd[mainChain[index]].blueScore)
      modifies this, reach
      ensures Valid() && TheView() == DropBelow(old(TheView()), index)
      ensures reach.nodes.Keys == old(reach.nodes).Keys * dag.Keys
      ensures SameBetweenSurvivors(old(reach.nodes), reach.nodes)
    {
      var chain := Rebuild(index, keep);
      Forget(index, keep);
      prunedSelected, pruningPoint := prunedSelected + index, Some(mainChain[index]);
      dag, gd, tips, mainChain := Restrict(dag, keep), Cut(gd, keep), KeepOnly(tips, keep), chain;
    }

    /** The main chain of what is kept. */
    method Rebuild(index: nat, keep: set<Hash>) returns (chain: seq<Hash>)
      requires Valid() && index < |mainChain| && mainChain[index] in gd
      requires keep == AtLeast(gd, gd[mainChain[index]].blueScore)
      ensures chain == mainChain[index..]
    {
      UnfoldSound(reach.nodes, reach.nextRootStart, TheView());
      CutPrunable(dag, gd, tips, mainChain, mainChain[index], index);
      var kept, ends := Cut(gd, keep), KeepOnly(tips, keep);
      chain := SelectedChain(kept, Heaviest(kept, ends).value);
    }

    /** Retain the kept blocks in the oracle. */
    method Forget(index: nat, keep: set<Hash>)
      requires Valid() && index < |mainChain| && mainChain[index] in gd
      requires keep == AtLeast(gd, gd[mainChain[index]].blueScore)
      modifies reach
      ensures Sound(reach.nodes, reach.nextRootStart, DropBelow(TheView(), index))
      ensures reach.nodes.Keys == old(reach.nodes).Keys * Restrict(dag, keep).Keys
      ensures SameBetweenSurvivors(old(reach.nodes), reach.nodes)
    {
      UnfoldSound(reach.nodes, reach.nextRootStart, TheView());
      AtLeastIsClosed(dag, gd, gd[mainChain[index]].blueScore);
      ghost var n0 := reach.nodes;
      forall x, y | x in n0 && y in n0 && x in keep && Reaches(n0, x, y)
        ensures y in keep
      {
        KeepIsClosedInIndex(n0, dag, keep, x, y);
      }
      reach.Retain(keep);
      DropSound(n0, reach.nodes, reach.nextRootStart, TheView(), index);
    }
  }
}
