/** The selected chain, the canonical order it induces, the tips and the finality point. */
module Canonical {
  import opened Types
  import opened Lists
  import opened Dag
  import opened Ghostdag
  import opened GhostdagProperties

  // ----- The selected chain -----

  /** Selected parents from genesis up to `b`. */
  ghost function Chain(gd: Coloring, b: Hash): (c: seq<Hash>)
    requires ChainDown(gd) && b in gd
    ensures c != [] && c[|c| - 1] == b
    decreases gd[b].blueScore
  {
    assert Descends(gd, b);
    if gd[b].selectedParent.Some? then Chain(gd, gd[b].selectedParent.value) + [b] else [b]
  }

  ghost predicate OnChain(gd: Coloring, a: Hash, b: Hash)
    requires ChainDown(gd) && b in gd
  {
    a in Chain(gd, b)
  }

  lemma {:induction false} OnChainStep(gd: Coloring, a: Hash, b: Hash)
    requires ChainDown(gd) && b in gd
    ensures Descends(gd, b)
    ensures OnChain(gd, a, b) <==> a == b || (gd[b].selectedParent.Some? && OnChain(gd, a, gd[b].selectedParent.value))
  {
    assert Descends(gd, b);
  }

  lemma {:induction false} ChainScores(gd: Coloring, a: Hash, b: Hash)
    requires ChainDown(gd) && b in gd && OnChain(gd, a, b)
    ensures a in gd && (a == b || gd[a].blueScore < gd[b].blueScore)
    decreases gd[b].blueScore
  {
    OnChainStep(gd, a, b);
    if a != b {
      ChainScores(gd, a, gd[b].selectedParent.value);
    }
  }

  lemma {:induction false} ChainTransitive(gd: Coloring, a: Hash, b: Hash, c: Hash)
    requires ChainDown(gd) && b in gd && c in gd && OnChain(gd, a, b) && OnChain(gd, b, c)
    ensures OnChain(gd, a, c)
    decreases gd[c].blueScore
  {
    OnChainStep(gd, b, c);
    OnChainStep(gd, a, c);
    if b != c {
      ChainTransitive(gd, a, b, gd[c].selectedParent.value);
    }
  }

  /** Two blocks of one chain are on each other's chains. */
  lemma {:induction false} ChainTotal(gd: Coloring, a: Hash, b: Hash, c: Hash)
    requires ChainDown(gd) && c in gd && OnChain(gd, a, c) && OnChain(gd, b, c)
    ensures a in gd && b in gd && (OnChain(gd, a, b) || OnChain(gd, b, a))
    decreases gd[c].blueScore
  {
    OnChainStep(gd, a, c);
    OnChainStep(gd, b, c);
    if a != c && b != c {
      ChainTotal(gd, a, b, gd[c].selectedParent.value);
    } else {
      ChainScores(gd, a, c);
      ChainScores(gd, b, c);
    }
  }

  /** Adding data for further blocks leaves chains as they are. */
  lemma {:induction false} ChainKept(gd: Coloring, gd2: Coloring, b: Hash)
    requires ChainDown(gd) && ChainDown(gd2) && b in gd && gd.Keys <= gd2.Keys
    requires forall x {:trigger gd[x]} :: x in gd ==> gd2[x] == gd[x]
    ensures Chain(gd2, b) == Chain(gd, b)
    decreases gd[b].blueScore
  {
    assert Descends(gd, b) && Descends(gd2, b);
    if gd[b].selectedParent.Some? {
      ChainKept(gd, gd2, gd[b].selectedParent.value);
    }
  }

  // ----- The canonical order -----

  function Tail(s: seq<Hash>): seq<Hash> {
    if s == [] then [] else s[1..]
  }

  /** The blocks emitted just before `b`: merged blues, then merged reds. */
  function Merged(d: GhostdagData): seq<Hash> {
    Tail(d.mergesetBlues) + d.mergesetReds
  }

  /** The canonical order ending at `b`. */
  ghost function Order(gd: Coloring, b: Hash): (o: seq<Hash>)
    requires ChainDown(gd) && b in gd
    ensures o != [] && o[|o| - 1] == b
    decreases gd[b].blueScore
  {
    assert Descends(gd, b);
    (if gd[b].selectedParent.Some? then Order(gd, gd[b].selectedParent.value) else []) + Merged(gd[b]) + [b]
  }

  lemma {:induction false} OrderKept(gd: Coloring, gd2: Coloring, b: Hash)
    requires ChainDown(gd) && ChainDown(gd2) && b in gd && gd.Keys <= gd2.Keys
    requires forall x {:trigger gd[x]} :: x in gd ==> gd2[x] == gd[x]
    ensures Order(gd2, b) == Order(gd, b)
    decreases gd[b].blueScore
  {
    assert Descends(gd, b) && Descends(gd2, b);
    if gd[b].selectedParent.Some? {
      OrderKept(gd, gd2, gd[b].selectedParent.value);
    }
  }

  /** What one chain step adds to the order. */
  lemma {:induction false} MergedFacts(dag: BlockDag, past: Pasts, gd: Coloring, b: Hash)
    requires Consistent(dag, past, gd) && b in dag && dag[b].parents != []
    ensures gd[b].selectedParent.Some? && gd[b].selectedParent.value in past
    ensures var sp := gd[b].selectedParent.value;
            && Distinct(Merged(gd[b])) && Elements(Merged(gd[b])) !! past[sp] + {sp}
            && past[b] == past[sp] + {sp} + Elements(Merged(gd[b]))
  {
    MergesetPartition(dag, past, gd, b);
    var sp := gd[b].selectedParent.value;
    PastSplits(dag, past, b, sp);
    assert Elements(Merged(gd[b])) == Elements(gd[b].mergesetBlues[1..]) + Elements(gd[b].mergesetReds);
  }

  /** The order ending at `b` lists the inclusive past of `b`, every block once. */
  lemma {:induction false} OrderListsPast(dag: BlockDag, past: Pasts, gd: Coloring, b: Hash)
    requires Consistent(dag, past, gd) && b in dag
    ensures Distinct(Order(gd, b)) && Elements(Order(gd, b)) == past[b] + {b}
    decreases gd[b].blueScore
  {
    assert Descends(gd, b);
    if dag[b].parents == [] {
      GenesisData(dag, past, gd, b);
      assert Order(gd, b) == [b];
    } else {
      MergedFacts(dag, past, gd, b);
      var sp := gd[b].selectedParent.value;
      OrderListsPast(dag, past, gd, sp);
      AppendDistinct(Order(gd, sp), Merged(gd[b]));
      AppendDistinct(Order(gd, sp) + Merged(gd[b]), [b]);
    }
  }

  /** The order of a chain block is a prefix of the order of every block above it. */
  lemma {:induction false} OrderPrefix(gd: Coloring, a: Hash, b: Hash)
    requires ChainDown(gd) && b in gd && OnChain(gd, a, b)
    ensures a in gd && Order(gd, a) <= Order(gd, b)
    decreases gd[b].blueScore
  {
    OnChainStep(gd, a, b);
    if a != b {
      OrderPrefix(gd, a, gd[b].selectedParent.value);
      assert Order(gd, gd[b].selectedParent.value) <= Order(gd, b);
    }
  }

  /** A chain block comes right after its entire past. */
  lemma {:induction false} ChainBlockAfterItsPast(dag: BlockDag, past: Pasts, gd: Coloring, a: Hash, b: Hash)
    requires Consistent(dag, past, gd) && b in dag && OnChain(gd, a, b)
    ensures a in gd && 0 < |Order(gd, a)| <= |Order(gd, b)|
    ensures Order(gd, b)[|Order(gd, a)| - 1] == a
    ensures Elements(Order(gd, b)[..|Order(gd, a)| - 1]) == past[a]
  {
    OrderPrefix(gd, a, b);
    OrderListsPast(dag, past, gd, a);
    var o := Order(gd, a);
    var front := o[..|o| - 1];
    assert o == front + [a] && Order(gd, b)[..|o| - 1] == front;
    assert a !in front;
    forall x
      ensures x in front <==> x in past[a]
    {
      assert x in o <==> x in front || x == a;
      assert x in o <==> x in Elements(o);
    }
  }

  lemma {:induction false} ThreeParts(a: seq<Hash>, s: seq<Hash>, t: seq<Hash>, b: Hash)
    requires a != [] && s != []
    ensures var o := a + (s[1..] + t) + [b];
            && |o| == |a| + |s| + |t| && o[|a| - 1] == a[|a| - 1]
            && (forall i :: 1 <= i < |s| ==> o[|a| - 1 + i] == s[i])
            && (forall j :: 0 <= j < |t| ==> o[|a| - 1 + |s| + j] == t[j])
  {
  }

  lemma {:induction false} OrderLength(dag: BlockDag, past: Pasts, gd: Coloring, b: Hash)
    requires Consistent(dag, past, gd) && b in dag
    ensures |Order(gd, b)| == |past[b]| + 1
  {
    OrderListsPast(dag, past, gd, b);
    DistinctCount(Order(gd, b));
    assert b !in past[b] by {
      if b in past[b] {
        ScoreRisesOnPast(dag, past, gd, b, b);
        assert false;
      }
    }
  }

  /** Where everything stands: the past of the selected parent, the selected parent, the merged
      blues in their order, the merged reds in theirs, and the block. */
  ghost predicate InPlaces(past: Pasts, gd: Coloring, b: Hash, order: seq<Hash>) {
    && b in gd && gd[b].selectedParent.Some? && gd[b].selectedParent.value in past && gd[b].mergesetBlues != []
    && var n, m := |past[gd[b].selectedParent.value]|, |gd[b].mergesetBlues|;
    && |order| == n + m + |gd[b].mergesetReds| + 1
    && order[n] == gd[b].selectedParent.value && order[|order| - 1] == b
    && (forall i :: 1 <= i < m ==> order[n + i] == gd[b].mergesetBlues[i])
    && (forall j :: 0 <= j < |gd[b].mergesetReds| ==> order[n + m + j] == gd[b].mergesetReds[j])
  }

  lemma {:induction false} OrderPlaces(dag: BlockDag, past: Pasts, gd: Coloring, b: Hash)
    requires Consistent(dag, past, gd) && b in dag && dag[b].parents != []
    ensures InPlaces(past, gd, b, Order(gd, b))
  {
    MergesetPartition(dag, past, gd, b);
    assert Descends(gd, b);
    var sp := gd[b].selectedParent.value;
    OrderLength(dag, past, gd, sp);
    assert Order(gd, b) == Order(gd, sp) + (gd[b].mergesetBlues[1..] + gd[b].mergesetReds) + [b];
    ThreeParts(Order(gd, sp), gd[b].mergesetBlues, gd[b].mergesetReds, b);
  }

  // ----- Tips -----

  ghost predicate Childless(dag: BlockDag, x: Hash) {
    forall b :: b in dag ==> x !in dag[b].parents
  }

  /** The tip list holds exactly the blocks without children, once each. */
  ghost predicate AreTips(dag: BlockDag, tips: seq<Hash>) {
    Distinct(tips) && forall x :: x in tips <==> x in dag && Childless(dag, x)
  }

  lemma {:induction false} NewTips(dag: BlockDag, tips: seq<Hash>, h: Hash, block: Block)
    requires AreTips(dag, tips) && Extends(dag, h, block)
    ensures AreTips(dag[h := block], Filter(tips, Elements(block.parents)) + [h])
  {
    FilterMembers(tips, Elements(block.parents));
    FilterDistinct(tips, Elements(block.parents));
    var t := Filter(tips, Elements(block.parents)) + [h];
    var d := dag[h := block];
    assert h !in tips && h !in block.parents;
    forall x
      ensures x in t <==> x in d && Childless(d, x)
    {
      if x == h {
        assert forall b :: b in dag && h in dag[b].parents ==> h in Mentioned(dag);
      } else {
        assert x in t <==> x in tips && x !in block.parents;
        assert Childless(d, x) <==> Childless(dag, x) && x !in block.parents by {
          assert d[h].parents == block.parents;
          assert forall b :: b in dag ==> d[b] == dag[b];
        }
      }
    }
  }

  /** `t` is the (score, hash) maximum of the whole DAG. */
  ghost predicate IsHeaviest(gd: Coloring, t: Hash) {
    t in gd && forall x :: x in gd && x != t ==> Heavier(gd, t, x)
  }

  lemma {:induction false} HeaviestExists(gd: Coloring, s: set<Hash>) returns (t: Hash)
    requires s <= gd.Keys && s != {}
    ensures t in s && forall x :: x in s && x != t ==> Heavier(gd, t, x)
  {
    var x :| x in s;
    t := x;
    if s != {x} {
      var u := HeaviestExists(gd, s - {x});
      assert s == (s - {x}) + {x};
      if Heavier(gd, u, x) {
        t := u;
      } else {
        assert Heavier(gd, x, u);
      }
    }
  }

  /** The selected tip is the (score, hash) maximum of the whole DAG, not only of the tips. */
  lemma {:induction false} SelectedTipIsHeaviest(dag: BlockDag, past: Pasts, gd: Coloring, tips: seq<Hash>)
    requires Consistent(dag, past, gd) && AreTips(dag, tips) && dag != map[]
    ensures Heaviest(gd, tips).Some? && IsHeaviest(gd, Heaviest(gd, tips).value)
  {
    var t := HeaviestExists(gd, gd.Keys);
    forall b | b in dag
      ensures t !in dag[b].parents
    {
      if t in dag[b].parents {
        ScoreRisesOnEdge(dag, past, gd, t, b);
        assert false;
      }
    }
    assert Childless(dag, t);
    HeaviestUnique(gd, tips, t);
  }

  lemma {:induction false} HeaviestOfExtension(gd: Coloring, gd2: Coloring, h: Hash, t: Hash, t2: Hash)
    requires h !in gd && gd2.Keys == gd.Keys + {h} && (forall x :: x in gd ==> gd2[x] == gd[x])
    requires IsHeaviest(gd, t) && IsHeaviest(gd2, t2)
    ensures t2 == t || t2 == h
    ensures gd2[t2].blueScore >= gd[t].blueScore
  {
    if t2 != t {
      assert Heavier(gd2, t2, t);
    }
  }

  // ----- Finality -----

  /** The highest block of the chain of `b` whose score is at most `limit`. */
  ghost function LastAtMost(gd: Coloring, b: Hash, limit: nat): Option<Hash>
    requires ChainDown(gd) && b in gd
    decreases gd[b].blueScore
  {
    assert Descends(gd, b);
    if gd[b].blueScore <= limit then Some(b)
    else if gd[b].selectedParent.Some? then LastAtMost(gd, gd[b].selectedParent.value, limit)
    else None
  }

  ghost function FinalityOf(gd: Coloring, tip: Hash, depth: nat): Option<Hash>
    requires ChainDown(gd) && tip in gd
  {
    if gd[tip].blueScore <= depth then None else LastAtMost(gd, tip, gd[tip].blueScore - depth)
  }

  lemma {:induction false} LastAtMostOnChain(gd: Coloring, b: Hash, limit: nat)
    requires ChainDown(gd) && b in gd && LastAtMost(gd, b, limit).Some?
    ensures var f := LastAtMost(gd, b, limit).value;
            OnChain(gd, f, b) && f in gd && gd[f].blueScore <= limit
    decreases gd[b].blueScore
  {
    OnChainStep(gd, LastAtMost(gd, b, limit).value, b);
    if gd[b].blueScore > limit {
      LastAtMostOnChain(gd, gd[b].selectedParent.value, limit);
    }
  }

  /** A chain block at or below the limit is on the chain of the last such block. */
  lemma {:induction false} LastAtMostIsLast(gd: Coloring, b: Hash, limit: nat, f: Hash)
    requires ChainDown(gd) && b in gd && OnChain(gd, f, b) && f in gd && gd[f].blueScore <= limit
    ensures LastAtMost(gd, b, limit).Some? && LastAtMost(gd, b, limit).value in gd
    ensures OnChain(gd, f, LastAtMost(gd, b, limit).value)
    decreases gd[b].blueScore
  {
    OnChainStep(gd, f, b);
    if gd[b].blueScore > limit {
      LastAtMostIsLast(gd, gd[b].selectedParent.value, limit, f);
    }
  }

  /** The finality point lies `depth` to `depth + K` blue-score levels below the tip. */
  lemma {:induction false} LastAtMostIsClose(dag: BlockDag, past: Pasts, gd: Coloring, b: Hash, limit: nat)
    requires Consistent(dag, past, gd) && b in dag && gd[b].blueScore > limit
    ensures LastAtMost(gd, b, limit).Some? && LastAtMost(gd, b, limit).value in gd
    ensures limit <= gd[LastAtMost(gd, b, limit).value].blueScore + K
    decreases gd[b].blueScore
  {
    assert Descends(gd, b);
    if dag[b].parents == [] {
      GenesisData(dag, past, gd, b);
    } else {
      MergedBluesBounded(dag, past, gd, b);
      var sp := gd[b].selectedParent.value;
      if gd[sp].blueScore > limit {
        LastAtMostIsClose(dag, past, gd, sp, limit);
      }
    }
  }

  lemma {:induction false} FinalityDepthBounds(dag: BlockDag, past: Pasts, gd: Coloring, tip: Hash, depth: nat)
    requires Consistent(dag, past, gd) && tip in dag && gd[tip].blueScore > depth > 0
    ensures FinalityOf(gd, tip, depth).Some?
    ensures var f := FinalityOf(gd, tip, depth).value;
            f in gd && OnChain(gd, f, tip) && depth <= gd[tip].blueScore - gd[f].blueScore <= depth + K
  {
    LastAtMostIsClose(dag, past, gd, tip, gd[tip].blueScore - depth);
    LastAtMostOnChain(gd, tip, gd[tip].blueScore - depth);
  }

  /** As long as the heavier tip's chain holds the old finality point, the new one lies on or
      above it. */
  lemma {:induction false} FinalityAdvances(gd: Coloring, tip: Hash, tip2: Hash, depth: nat)
    requires ChainDown(gd) && tip in gd && tip2 in gd && gd[tip].blueScore <= gd[tip2].blueScore
    requires FinalityOf(gd, tip, depth).Some? && OnChain(gd, FinalityOf(gd, tip, depth).value, tip2)
    ensures FinalityOf(gd, tip2, depth).Some? && FinalityOf(gd, tip2, depth).value in gd
    ensures OnChain(gd, FinalityOf(gd, tip, depth).value, FinalityOf(gd, tip2, depth).value)
  {
    LastAtMostOnChain(gd, tip, gd[tip].blueScore - depth);
    LastAtMostIsLast(gd, tip2, gd[tip2].blueScore - depth, FinalityOf(gd, tip, depth).value);
  }

  lemma {:induction false} LastAtMostKept(gd: Coloring, gd2: Coloring, b: Hash, limit: nat)
    requires ChainDown(gd) && ChainDown(gd2) && b in gd && gd.Keys <= gd2.Keys
    requires forall x {:trigger gd[x]} :: x in gd ==> gd2[x] == gd[x]
    ensures LastAtMost(gd2, b, limit) == LastAtMost(gd, b, limit)
    decreases gd[b].blueScore
  {
    assert Descends(gd, b) && Descends(gd2, b);
    if gd[b].blueScore > limit && gd[b].selectedParent.Some? {
      LastAtMostKept(gd, gd2, gd[b].selectedParent.value, limit);
    }
  }
}
