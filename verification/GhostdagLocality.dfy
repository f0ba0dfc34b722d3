/** A block's data is a function of its past alone: it is the same on every node, whatever
    else the node holds and in whatever order the blocks arrived. */
module GhostdagLocality {
  import opened Types
  import opened Lists
  import opened Dag
  import opened Ghostdag
  import opened GhostdagProperties

  lemma {:induction false} HeaviestAgrees(gd1: Coloring, gd2: Coloring, hs: seq<Hash>)
    requires forall h :: h in hs ==> h in gd1 && h in gd2 && gd1[h] == gd2[h]
    ensures Heaviest(gd1, hs) == Heaviest(gd2, hs)
  {
    if hs != [] {
      HeaviestAgrees(gd1, gd2, hs[..|hs| - 1]);
    }
  }

  lemma {:induction false} NewPastAgrees(past1: Pasts, past2: Pasts, parents: seq<Hash>)
    requires forall p :: p in parents ==> p in past1 && p in past2 && past1[p] == past2[p]
    ensures NewPast(past1, parents) == NewPast(past2, parents)
  {
    if parents != [] {
      NewPastAgrees(past1, past2, parents[1..]);
    }
  }

  /** Both records agree on `s`, which is closed under pasts, selected parents and blues. */
  ghost predicate AgreeOn(past1: Pasts, gd1: Coloring, past2: Pasts, gd2: Coloring, s: set<Hash>) {
    && s <= past1.Keys && s <= past2.Keys && s <= gd1.Keys && s <= gd2.Keys
    && (forall x {:trigger past1[x]} :: x in s ==> past1[x] == past2[x] && past1[x] <= s)
    && (forall x {:trigger gd1[x]} :: x in s ==> gd1[x] == gd2[x])
    && (forall x {:trigger Elements(gd1[x].mergesetBlues)} :: x in s ==> Elements(gd1[x].mergesetBlues) <= s)
    && (forall x {:trigger gd1[x].selectedParent} :: x in s && gd1[x].selectedParent.Some? ==>
          gd1[x].selectedParent.value in s)
  }

  lemma {:induction false} BluesAgree(past1: Pasts, gd1: Coloring, past2: Pasts, gd2: Coloring, s: set<Hash>, b: Hash)
    requires AgreeOn(past1, gd1, past2, gd2, s) && ChainDown(gd1) && ChainDown(gd2) && b in s
    ensures Blues(gd1, b) == Blues(gd2, b) && Blues(gd1, b) <= s
    decreases gd1[b].blueScore
  {
    assert Descends(gd1, b);
    assert Elements(gd1[b].mergesetBlues) <= s;
    if gd1[b].selectedParent.Some? {
      BluesAgree(past1, gd1, past2, gd2, s, gd1[b].selectedParent.value);
    }
  }

  lemma {:induction false} AnticoneAgrees(past1: Pasts, past2: Pasts, t: set<Hash>, s: set<Hash>, x: Hash)
    requires s <= past1.Keys && s <= past2.Keys && (forall y :: y in s ==> past1[y] == past2[y]) && t <= s && x in s
    ensures Anticone(past1, t, x) == Anticone(past2, t, x)
  {
  }

  lemma {:induction false} IsBlueAgrees(past1: Pasts, past2: Pasts, t: set<Hash>, s: set<Hash>, c: Hash)
    requires s <= past1.Keys && s <= past2.Keys && (forall y :: y in s ==> past1[y] == past2[y]) && t <= s && c in s
    ensures IsBlue(past1, t, c) <==> IsBlue(past2, t, c)
  {
    AnticoneAgrees(past1, past2, t, s, c);
    forall d | d in Anticone(past1, t, c)
      ensures Anticone(past1, t, d) == Anticone(past2, t, d)
    {
      AnticoneAgrees(past1, past2, t, s, d);
    }
  }

  lemma {:induction false} ColorAllAgrees(past1: Pasts, past2: Pasts, seed: set<Hash>, order: seq<Hash>, s: set<Hash>)
    requires s <= past1.Keys && s <= past2.Keys && (forall y :: y in s ==> past1[y] == past2[y])
    requires seed <= s && forall x :: x in order ==> x in s
    ensures ColorAll(past1, seed, order) == ColorAll(past2, seed, order)
  {
    if order != [] {
      var k := |order| - 1;
      ColorAllAgrees(past1, past2, seed, order[..k], s);
      ColorsPartition(past1, seed, order[..k]);
      IsBlueAgrees(past1, past2, seed + Elements(ColorAll(past1, seed, order[..k]).blues), s, order[k]);
    }
  }

  lemma {:induction false} MergeOrderAgrees(past1: Pasts, past2: Pasts, s: set<Hash>)
    requires s <= past1.Keys && s <= past2.Keys && forall y :: y in s ==> past1[y] == past2[y]
    ensures MergeOrder(past1, s) == MergeOrder(past2, s)
  {
    assert Ranks(past1, s) == Ranks(past2, s);
    MergeOrderUnique(past2, s, MergeOrder(past1, s));
  }

  ghost predicate DataReady(past: Pasts, gd: Coloring, parents: seq<Hash>) {
    && ChainDown(gd) && gd.Keys == past.Keys
    && (forall x :: x in past ==> past[x] <= past.Keys)
    && (forall p :: p in parents ==> p in past)
  }

  lemma {:induction false} MergeSetAgrees(past1: Pasts, past2: Pasts, parents: seq<Hash>, sp: Hash, s: set<Hash>)
    requires s <= past1.Keys && s <= past2.Keys && (forall x :: x in s ==> past1[x] == past2[x] && past1[x] <= s)
    requires sp in s && forall p :: p in parents ==> p in s
    ensures MergeSet(past1, parents, sp) == MergeSet(past2, parents, sp) <= s
  {
    NewPastAgrees(past1, past2, parents);
    forall a | a in MergeSet(past1, parents, sp)
      ensures a in s
    {
      NewPastMember(past1, parents, a);
    }
  }

  lemma {:induction false} DataWithAgrees(past1: Pasts, gd1: Coloring, past2: Pasts, gd2: Coloring, sp: Hash,
                                          ms: set<Hash>, s: set<Hash>)
    requires AgreeOn(past1, gd1, past2, gd2, s) && ChainDown(gd1) && ChainDown(gd2) && sp in s && ms <= s
    ensures DataWith(past1, gd1, sp, ms) == DataWith(past2, gd2, sp, ms)
  {
    assert gd1[sp] == gd2[sp];
    BluesAgree(past1, gd1, past2, gd2, s, sp);
    ColorsAgree(past1, past2, Blues(gd1, sp), ms, s);
  }

  lemma {:induction false} ColorsAgree(past1: Pasts, past2: Pasts, seed: set<Hash>, ms: set<Hash>, s: set<Hash>)
    requires s <= past1.Keys && s <= past2.Keys && (forall y :: y in s ==> past1[y] == past2[y])
    requires seed <= s && ms <= s
    ensures ColorAll(past1, seed, MergeOrder(past1, ms)) == ColorAll(past2, seed, MergeOrder(past2, ms))
  {
    MergeOrderAgrees(past1, past2, ms);
    ColorAllAgrees(past1, past2, seed, MergeOrder(past1, ms), s);
  }

  lemma {:induction false} DataAgrees(past1: Pasts, gd1: Coloring, past2: Pasts, gd2: Coloring, parents: seq<Hash>,
                                      s: set<Hash>)
    requires DataReady(past1, gd1, parents) && DataReady(past2, gd2, parents)
    requires AgreeOn(past1, gd1, past2, gd2, s) && forall p :: p in parents ==> p in s
    ensures Data(past1, gd1, parents) == Data(past2, gd2, parents)
  {
    HeaviestAgrees(gd1, gd2, parents);
    if Heaviest(gd1, parents).Some? {
      var sp := Heaviest(gd1, parents).value;
      MergeSetAgrees(past1, past2, parents, sp, s);
      DataWithAgrees(past1, gd1, past2, gd2, sp, MergeSet(past1, parents, sp), s);
    }
  }

  /** What a block's data names lies in its past. */
  lemma {:induction false} DataInPast(dag: BlockDag, past: Pasts, gd: Coloring, b: Hash)
    requires Consistent(dag, past, gd) && b in dag
    ensures Elements(gd[b].mergesetBlues) <= past[b] && Elements(gd[b].mergesetReds) <= past[b]
    ensures gd[b].selectedParent.Some? ==> gd[b].selectedParent.value in past[b]
    ensures gd[b].selectedParent.Some? <==> dag[b].parents != []
  {
    if dag[b].parents == [] {
      GenesisData(dag, past, gd, b);
    } else {
      var sp, c := Unfold(dag, past, gd, b);
      PastSplits(dag, past, b, sp);
      ColorMembers(past, MergeSet(past, dag[b].parents, sp), Blues(gd, sp), c);
    }
  }

  lemma {:induction false} ConsistentAgreesWithExtension(dag: BlockDag, past: Pasts, gd: Coloring, past2: Pasts,
                                                         gd2: Coloring)
    requires Consistent(dag, past, gd) && past.Keys <= past2.Keys && gd.Keys <= gd2.Keys
    requires forall x :: x in dag ==> past2[x] == past[x] && gd2[x] == gd[x]
    ensures AgreeOn(past, gd, past2, gd2, dag.Keys)
  {
    forall x | x in dag
      ensures Elements(gd[x].mergesetBlues) <= dag.Keys
      ensures gd[x].selectedParent.Some? ==> gd[x].selectedParent.value in dag
    {
      DataInPast(dag, past, gd, x);
    }
  }

  lemma {:induction false} ConsistentIsReady(dag: BlockDag, past: Pasts, gd: Coloring, parents: seq<Hash>)
    requires Consistent(dag, past, gd) && forall p :: p in parents ==> p in dag
    ensures DataReady(past, gd, parents)
  {
  }

  lemma {:induction false} NewDataDescends(dag: BlockDag, past: Pasts, gd: Coloring, h: Hash, parents: seq<Hash>)
    requires ChainDown(gd) && DataReady(past, gd, parents) && h !in gd
    ensures ChainDown(gd[h := Data(past, gd, parents)])
  {
    var gd2 := gd[h := Data(past, gd, parents)];
    forall b | b in gd2
      ensures Descends(gd2, b)
    {
      assert b != h ==> Descends(gd, b);
    }
  }

  /** Recording a new block's data keeps every block's data right. */
  lemma {:induction false} ExtensionIsConsistent(dag: BlockDag, past: Pasts, gd: Coloring, h: Hash, block: Block,
                                                 past2: Pasts)
    requires Consistent(dag, past, gd) && Extends(dag, h, block) && DataReady(past, gd, block.parents)
    requires past2 == past[h := NewPast(past, block.parents)] && IsPast(dag[h := block], past2)
    ensures Consistent(dag[h := block], past2, gd[h := Data(past, gd, block.parents)])
  {
    var dag2 := dag[h := block];
    var gd2 := gd[h := Data(past, gd, block.parents)];
    NewDataDescends(dag, past, gd, h, block.parents);
    ConsistentAgreesWithExtension(dag, past, gd, past2, gd2);
    forall b | b in dag2
      ensures HasData(dag2, past2, gd2, b)
    {
      if b != h {
        assert HasData(dag, past, gd, b);
      }
      assert DataReady(past, gd, dag2[b].parents);
      DataAgrees(past, gd, past2, gd2, dag2[b].parents, dag.Keys);
    }
  }

  lemma {:induction false} SingletonIsConsistent(g: Hash, block: Block)
    requires block.parents == []
    ensures Consistent(map[g := block], map[g := {}], map[g := GENESIS_DATA])
  {
    var dag: BlockDag, past: Pasts, gd: Coloring := map[g := block], map[g := {}], map[g := GENESIS_DATA];
    assert Descends(gd, g);
    assert HasData(dag, past, gd, g);
  }

  /** Two nodes that hold the same inclusive past of `b` give it the same past and data. */
  lemma {:induction false} SamePastSameData(dag1: BlockDag, past1: Pasts, gd1: Coloring,
                                            dag2: BlockDag, past2: Pasts, gd2: Coloring, b: Hash)
    requires Consistent(dag1, past1, gd1) && Consistent(dag2, past2, gd2) && b in dag1
    requires forall x :: x in past1[b] + {b} ==> x in dag2 && dag2[x].parents == dag1[x].parents
    ensures past1[b] == past2[b] && gd1[b] == gd2[b]
    decreases gd1[b].blueScore
  {
    forall x | x in past1[b]
      ensures x in dag2 && past1[x] == past2[x] && gd1[x] == gd2[x] && past1[x] <= past1[b]
      ensures Elements(gd1[x].mergesetBlues) <= past1[b]
      ensures gd1[x].selectedParent.Some? ==> gd1[x].selectedParent.value in past1[b]
    {
      assert Nests(past1, x, b);
      ScoreRisesOnPast(dag1, past1, gd1, x, b);
      SamePastSameData(dag1, past1, gd1, dag2, past2, gd2, x);
      DataInPast(dag1, past1, gd1, x);
    }
    PastIsNewPast(dag1, past1, b);
    PastIsNewPast(dag2, past2, b);
    NewPastAgrees(past1, past2, dag1[b].parents);
    assert HasData(dag1, past1, gd1, b) && HasData(dag2, past2, gd2, b);
    DataAgrees(past1, gd1, past2, gd2, dag1[b].parents, past1[b]);
  }

  /** A DAG has one colouring, however it was built up. */
  lemma {:induction false} ColoringIsUnique(dag: BlockDag, past: Pasts, gd1: Coloring, gd2: Coloring)
    requires Consistent(dag, past, gd1) && Consistent(dag, past, gd2)
    ensures gd1 == gd2
  {
    forall b | b in dag
      ensures gd1[b] == gd2[b]
    {
      SamePastSameData(dag, past, gd1, dag, past, gd2, b);
    }
  }
}
