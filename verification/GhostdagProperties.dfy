/** What the colouring guarantees on every DAG whose blocks carry their computed data. */
module GhostdagProperties {
  import opened Types
  import opened Lists
  import opened Dag
  import opened Ordering
  import opened Sums
  import opened Ghostdag

  // ----- Unfolding one block's data -----

  /** The selected parent `sp` and the colours `c` that the data of `b` was built from. */
  ghost predicate BuiltFrom(dag: BlockDag, past: Pasts, gd: Coloring, b: Hash, sp: Hash, c: Colors)
    requires ChainDown(gd) && b in gd && b in dag
  {
    && sp in dag[b].parents && sp in gd && sp in past
    && (forall p :: p in dag[b].parents ==> p in gd && p in past && (p == sp || Heavier(gd, sp, p)))
    && MergeSet(past, dag[b].parents, sp) <= past.Keys
    && c == ColorAll(past, Blues(gd, sp), MergeOrder(past, MergeSet(past, dag[b].parents, sp)))
    && gd[b] == GhostdagData(gd[sp].blueScore + 1 + |c.blues|, Some(sp), [sp] + c.blues, c.reds)
  }

  lemma {:induction false} Unfold(dag: BlockDag, past: Pasts, gd: Coloring, b: Hash) returns (sp: Hash, c: Colors)
    requires Consistent(dag, past, gd) && b in dag && dag[b].parents != []
    ensures BuiltFrom(dag, past, gd, b, sp, c)
  {
    var parents := dag[b].parents;
    assert HasData(dag, past, gd, b);
    assert parents[0] in parents;
    sp := Heaviest(gd, parents).value;
    MergeSetInside(past, parents, sp);
    c := ColorAll(past, Blues(gd, sp), MergeOrder(past, MergeSet(past, parents, sp)));
  }

  lemma {:induction false} GenesisData(dag: BlockDag, past: Pasts, gd: Coloring, b: Hash)
    requires Consistent(dag, past, gd) && b in dag && dag[b].parents == []
    ensures gd[b] == GENESIS_DATA && past[b] == {}
  {
    assert HasData(dag, past, gd, b);
    forall x
      ensures x !in past[b]
    {
      assert ViaParent(dag, past, x, b) ==> false;
    }
  }

  // ----- Blue score -----

  lemma {:induction false} ScoreRisesOnEdge(dag: BlockDag, past: Pasts, gd: Coloring, p: Hash, b: Hash)
    requires Consistent(dag, past, gd) && b in dag && p in dag[b].parents
    ensures p in dag && gd[p].blueScore < gd[b].blueScore
  {
    var sp, c := Unfold(dag, past, gd, b);
  }

  /** Blue score strictly rises along every path, not only along selected parents. */
  lemma {:induction false} ScoreRisesOnPast(dag: BlockDag, past: Pasts, gd: Coloring, a: Hash, b: Hash)
    requires Consistent(dag, past, gd) && b in dag && a in past[b]
    ensures a in dag && gd[a].blueScore < gd[b].blueScore
    decreases gd[b].blueScore
  {
    assert ViaParent(dag, past, a, b);
    var p :| p in dag[b].parents && (a == p || (p in past && a in past[p]));
    ScoreRisesOnEdge(dag, past, gd, p, b);
    if a != p {
      ScoreRisesOnPast(dag, past, gd, a, p);
    }
  }

  /** A merged block and the selected parent are in each other's anticone. */
  lemma {:induction false} MergedIsConcurrent(dag: BlockDag, past: Pasts, gd: Coloring, b: Hash, sp: Hash, c: Colors,
                                              m: Hash)
    requires Consistent(dag, past, gd) && b in dag && BuiltFrom(dag, past, gd, b, sp, c)
    requires m in MergeSet(past, dag[b].parents, sp)
    ensures Concurrent(past, m, sp)
  {
    NewPastMember(past, dag[b].parents, m);
    var p :| p in dag[b].parents && (m == p || m in past[p]);
    if m in past && sp in past[m] {
      ScoreRisesOnPast(dag, past, gd, sp, m);
      if m != p {
        ScoreRisesOnPast(dag, past, gd, m, p);
      }
      assert false;
    }
  }

  // ----- The past of a block -----

  lemma {:induction false} PastIsNewPast(dag: BlockDag, past: Pasts, b: Hash)
    requires IsPast(dag, past) && b in dag
    ensures (forall p :: p in dag[b].parents ==> p in past)
    ensures past[b] == NewPast(past, dag[b].parents)
  {
    forall a
      ensures a in past[b] <==> a in NewPast(past, dag[b].parents)
    {
      NewPastMember(past, dag[b].parents, a);
      if a in past[b] {
        assert ViaParent(dag, past, a, b);
      }
      if p :| p in dag[b].parents && (a == p || a in past[p]) {
        assert Nests(past, p, b);
      }
    }
  }

  /** The past of a block is its selected parent, that block's past and the mergeset. */
  lemma {:induction false} PastSplits(dag: BlockDag, past: Pasts, b: Hash, sp: Hash)
    requires IsPast(dag, past) && b in dag && sp in dag[b].parents
    ensures (forall p :: p in dag[b].parents ==> p in past) && sp in past
    ensures past[b] == past[sp] + {sp} + MergeSet(past, dag[b].parents, sp)
    ensures MergeSet(past, dag[b].parents, sp) !! past[sp] + {sp}
  {
    PastIsNewPast(dag, past, b);
    forall a | a in past[sp] + {sp}
      ensures a in past[b]
    {
      assert sp in past[b];
      assert Nests(past, sp, b);
    }
  }

  // ----- Blue sets -----

  lemma {:induction false} ColorMembers(past: Pasts, s: set<Hash>, seed: set<Hash>, c: Colors)
    requires s <= past.Keys && c == ColorAll(past, seed, MergeOrder(past, s))
    ensures Elements(c.blues) + Elements(c.reds) == s && Distinct(c.blues + c.reds)
    ensures Elements(c.blues) !! Elements(c.reds) && |Elements(c.blues)| == |c.blues|
  {
    var order := MergeOrder(past, s);
    ColorsPartition(past, seed, order);
    forall i, j | 0 <= i < j < |order|
      ensures order[i] != order[j]
    {
      assert Before(Ranks(past, s), order[i], order[j]);
    }
    ColorsDistinct(past, seed, order);
    DistinctParts(c.blues, c.reds);
    DistinctCount(c.blues);
  }

  lemma {:induction false} DistinctParts(s: seq<Hash>, t: seq<Hash>)
    requires Distinct(s + t)
    ensures Distinct(s) && Distinct(t) && Elements(s) !! Elements(t)
  {
    var u := s + t;
    forall i, j | 0 <= i < j < |s|
      ensures s[i] != s[j]
    {
      assert u[i] != u[j];
    }
    forall i, j | 0 <= i < j < |t|
      ensures t[i] != t[j]
    {
      assert u[|s| + i] != u[|s| + j];
    }
    forall i, j | 0 <= i < |s| && 0 <= j < |t|
      ensures s[i] != t[j]
    {
      assert u[i] != u[|s| + j];
    }
  }

  /** The blues of `b`: itself, its merged blues and the blues of its selected parent. */
  lemma {:induction false} BluesInPast(dag: BlockDag, past: Pasts, gd: Coloring, b: Hash)
    requires Consistent(dag, past, gd) && b in dag
    ensures Blues(gd, b) <= past[b] + {b}
    decreases gd[b].blueScore
  {
    if dag[b].parents == [] {
      GenesisData(dag, past, gd, b);
    } else {
      var sp, c := Unfold(dag, past, gd, b);
      PastSplits(dag, past, b, sp);
      ColorMembers(past, MergeSet(past, dag[b].parents, sp), Blues(gd, sp), c);
      BluesInPast(dag, past, gd, sp);
      BluesUnfold(gd, b, sp, c.blues);
    }
  }

  lemma {:induction false} BluesUnfold(gd: Coloring, b: Hash, sp: Hash, blues: seq<Hash>)
    requires ChainDown(gd) && b in gd && gd[b].selectedParent == Some(sp) && gd[b].mergesetBlues == [sp] + blues
    ensures sp in gd && Blues(gd, b) == {b} + Elements(blues) + Blues(gd, sp)
  {
    assert Descends(gd, b);
    assert sp in Blues(gd, sp);
    forall x
      ensures x in gd[b].mergesetBlues <==> x == sp || x in blues
    {
    }
  }

  lemma {:induction false} BluesSplit(dag: BlockDag, past: Pasts, gd: Coloring, b: Hash, sp: Hash, c: Colors)
    requires Consistent(dag, past, gd) && b in dag && BuiltFrom(dag, past, gd, b, sp, c)
    ensures Blues(gd, b) == {b} + Elements(c.blues) + Blues(gd, sp)
    ensures b !in Elements(c.blues) + Blues(gd, sp) && Elements(c.blues) !! Blues(gd, sp)
    ensures Elements(c.blues) <= MergeSet(past, dag[b].parents, sp) && |Elements(c.blues)| == |c.blues|
  {
    PastSplits(dag, past, b, sp);
    ColorMembers(past, MergeSet(past, dag[b].parents, sp), Blues(gd, sp), c);
    BluesInPast(dag, past, gd, sp);
    BluesUnfold(gd, b, sp, c.blues);
  }

  /** Blue score is the number of blues strictly in the past. */
  lemma {:induction false} BlueScoreCountsBlues(dag: BlockDag, past: Pasts, gd: Coloring, b: Hash)
    requires Consistent(dag, past, gd) && b in dag
    ensures Blues(gd, b) - {b} <= past[b]
    ensures gd[b].blueScore == |Blues(gd, b) - {b}| && |Blues(gd, b)| == gd[b].blueScore + 1
    decreases gd[b].blueScore
  {
    BluesInPast(dag, past, gd, b);
    if dag[b].parents == [] {
      GenesisData(dag, past, gd, b);
      assert Blues(gd, b) == {b};
    } else {
      var sp, c := Unfold(dag, past, gd, b);
      BluesSplit(dag, past, gd, b, sp, c);
      BlueScoreCountsBlues(dag, past, gd, sp);
      CountSplit(b, Elements(c.blues), Blues(gd, sp));
    }
  }

  lemma {:induction false} CountSplit(b: Hash, e: set<Hash>, s: set<Hash>)
    requires b !in e + s && e !! s
    ensures |{b} + e + s| == 1 + |e| + |s| && |{b} + e + s - {b}| == |e| + |s|
  {
    assert |e + s| == |e| + |s|;
    assert {b} + e + s == {b} + (e + s);
    assert {b} + e + s - {b} == e + s;
  }

  // ----- The k-cluster -----

  /** Every member has at most `K` others in its anticone. */
  ghost predicate KCluster(past: Pasts, s: set<Hash>) {
    forall x :: x in s ==> |Anticone(past, s, x)| <= K
  }

  lemma {:induction false} AddBlueKeepsCluster(past: Pasts, s: set<Hash>, c: Hash)
    requires KCluster(past, s) && IsBlue(past, s, c)
    ensures KCluster(past, s + {c})
  {
    forall x | x in s + {c}
      ensures |Anticone(past, s + {c}, x)| <= K
    {
      if x == c {
        assert Anticone(past, s + {c}, c) == Anticone(past, s, c);
      } else if Concurrent(past, c, x) {
        assert x in Anticone(past, s, c);
        assert Anticone(past, s + {c}, x) == Anticone(past, s, x) + {c};
      } else {
        assert Anticone(past, s + {c}, x) == Anticone(past, s, x);
      }
    }
  }

  /** A candidate is blue exactly when it can join a k-cluster and leave it one. */
  lemma {:induction false} BlueMeansJoining(past: Pasts, s: set<Hash>, c: Hash)
    requires KCluster(past, s) && c !in s
    ensures IsBlue(past, s, c) <==> KCluster(past, s + {c})
  {
    if IsBlue(past, s, c) {
      AddBlueKeepsCluster(past, s, c);
    }
    if KCluster(past, s + {c}) {
      assert Anticone(past, s + {c}, c) == Anticone(past, s, c);
      forall d | d in Anticone(past, s, c)
        ensures |Anticone(past, s, d)| < K
      {
        assert Anticone(past, s + {c}, d) == Anticone(past, s, d) + {c};
        assert d in s + {c};
      }
    }
  }

  lemma {:induction false} ColoringKeepsCluster(past: Pasts, seed: set<Hash>, order: seq<Hash>)
    requires KCluster(past, seed)
    ensures KCluster(past, seed + Elements(ColorAll(past, seed, order).blues))
  {
    if order == [] {
      assert seed + Elements([]) == seed;
    } else {
      var k := |order| - 1;
      ColoringKeepsCluster(past, seed, order[..k]);
      var c := ColorAll(past, seed, order[..k]);
      var s := seed + Elements(c.blues);
      if IsBlue(past, s, order[k]) {
        AddBlueKeepsCluster(past, s, order[k]);
        assert Elements(c.blues + [order[k]]) == Elements(c.blues) + {order[k]};
        assert s + {order[k]} == seed + Elements(ColorAll(past, seed, order).blues);
      }
    }
  }

  /** A block above everything in `s` joins without meeting anyone's anticone. */
  lemma {:induction false} AddTopKeepsCluster(past: Pasts, s: set<Hash>, b: Hash)
    requires KCluster(past, s) && b in past && s <= past[b]
    ensures KCluster(past, s + {b})
  {
    forall x | x in s + {b}
      ensures |Anticone(past, s + {b}, x)| <= K
    {
      if x == b {
        assert Anticone(past, s + {b}, b) == {};
      } else {
        assert Anticone(past, s + {b}, x) == Anticone(past, s, x);
      }
    }
  }

  lemma {:induction false} TopJoinsCluster(past: Pasts, all: set<Hash>, s: set<Hash>, e: set<Hash>, b: Hash)
    requires KCluster(past, s + e) && b in past && all <= past[b] + {b} && all == {b} + e + s && b !in e + s
    ensures KCluster(past, all)
  {
    AddTopKeepsCluster(past, s + e, b);
    assert s + e + {b} == all;
  }

  /** The blue set of every block is a k-cluster. */
  lemma {:induction false} BluesAreKCluster(dag: BlockDag, past: Pasts, gd: Coloring, b: Hash)
    requires Consistent(dag, past, gd) && b in dag
    ensures KCluster(past, Blues(gd, b))
    decreases gd[b].blueScore
  {
    if dag[b].parents == [] {
      GenesisData(dag, past, gd, b);
      assert Blues(gd, b) == {b} && Anticone(past, {b}, b) == {};
    } else {
      var sp, c := Unfold(dag, past, gd, b);
      BluesAreKCluster(dag, past, gd, sp);
      ColoringKeepsCluster(past, Blues(gd, sp), MergeOrder(past, MergeSet(past, dag[b].parents, sp)));
      BluesSplit(dag, past, gd, b, sp, c);
      BluesInPast(dag, past, gd, b);
      TopJoinsCluster(past, Blues(gd, b), Blues(gd, sp), Elements(c.blues), b);
    }
  }

  /** A block merges at most `K` blues besides its selected parent, so blue score rises by 1
      to `K + 1` at each selected-chain step. */
  lemma {:induction false} MergedBluesBounded(dag: BlockDag, past: Pasts, gd: Coloring, b: Hash)
    requires Consistent(dag, past, gd) && b in dag && dag[b].parents != []
    ensures gd[b].selectedParent.Some? && gd[b].selectedParent.value in gd
    ensures 1 <= |gd[b].mergesetBlues| <= K + 1
    ensures gd[b].blueScore == gd[gd[b].selectedParent.value].blueScore + |gd[b].mergesetBlues|
  {
    var sp, c := Unfold(dag, past, gd, b);
    BluesSplit(dag, past, gd, b, sp, c);
    BluesAreKCluster(dag, past, gd, b);
    assert sp in Blues(gd, sp) && sp in Blues(gd, b);
    var a := Anticone(past, Blues(gd, b), sp);
    forall m | m in Elements(c.blues)
      ensures m in a
    {
      MergedIsConcurrent(dag, past, gd, b, sp, c, m);
    }
    SubsetIsAtMost(Elements(c.blues), a);
  }

  /** Merged blues and reds together are the mergeset, each block once. */
  lemma {:induction false} MergesetPartition(dag: BlockDag, past: Pasts, gd: Coloring, b: Hash)
    requires Consistent(dag, past, gd) && b in dag && dag[b].parents != []
    ensures |gd[b].mergesetBlues| >= 1
    ensures gd[b].selectedParent == Some(gd[b].mergesetBlues[0]) && gd[b].mergesetBlues[0] in dag[b].parents
    ensures (forall p :: p in dag[b].parents ==> p in past) && gd[b].mergesetBlues[0] in past
    ensures Distinct(gd[b].mergesetBlues[1..] + gd[b].mergesetReds)
    ensures Elements(gd[b].mergesetBlues[1..]) + Elements(gd[b].mergesetReds)
            == MergeSet(past, dag[b].parents, gd[b].mergesetBlues[0])
  {
    var sp, c := Unfold(dag, past, gd, b);
    ColorMembers(past, MergeSet(past, dag[b].parents, sp), Blues(gd, sp), c);
    assert gd[b].mergesetBlues[1..] == c.blues;
  }

  // ----- What is red, and in which order -----

  /** Colouring a longer list starts with the colours of a shorter one. */
  lemma {:induction false} ColorsGrow(past: Pasts, seed: set<Hash>, order: seq<Hash>, i: nat)
    requires i <= |order|
    ensures ColorAll(past, seed, order[..i]).blues <= ColorAll(past, seed, order).blues
    ensures ColorAll(past, seed, order[..i]).reds <= ColorAll(past, seed, order).reds
  {
    if i == |order| {
      assert order[..i] == order;
    } else {
      var k := |order| - 1;
      ColorsGrow(past, seed, order[..k], i);
      assert order[..k][..i] == order[..i];
    }
  }

  /** The blues that `order[i]` is coloured against are the seed and the blues listed before it. */
  lemma {:induction false} BluesBefore(past: Pasts, seed: set<Hash>, order: seq<Hash>, i: nat)
    requires Distinct(order) && i <= |order|
    ensures Elements(ColorAll(past, seed, order[..i]).blues)
            == Elements(order[..i]) * Elements(ColorAll(past, seed, order).blues)
  {
    var c, d := ColorAll(past, seed, order), ColorAll(past, seed, order[..i]);
    ColorsGrow(past, seed, order, i);
    ColorsPartition(past, seed, order[..i]);
    ColorsDistinct(past, seed, order);
    DistinctParts(c.blues, c.reds);
    forall x
      ensures x in d.blues <==> x in order[..i] && x in c.blues
    {
      assert x in d.blues ==> x in c.blues;
      assert x in d.reds ==> x in Elements(c.reds);
      assert x in c.blues ==> x in Elements(c.blues);
    }
  }

  lemma {:induction false} ColorOf(past: Pasts, seed: set<Hash>, order: seq<Hash>, i: nat)
    requires Distinct(order) && i < |order|
    ensures var c := ColorAll(past, seed, order);
            order[i] in c.reds <==> !IsBlue(past, seed + Elements(order[..i]) * Elements(c.blues), order[i])
  {
    var c, d := ColorAll(past, seed, order), ColorAll(past, seed, order[..i]);
    var e := ColorAll(past, seed, order[..i + 1]);
    assert order[..i + 1][..i] == order[..i];
    BluesBefore(past, seed, order, i);
    ColorsGrow(past, seed, order, i + 1);
    ColorsDistinct(past, seed, order);
    DistinctParts(c.blues, c.reds);
    if IsBlue(past, seed + Elements(d.blues), order[i]) {
      assert e.blues[|d.blues|] == order[i];
      assert order[i] in Elements(c.blues);
    } else {
      assert e.reds[|d.reds|] == order[i];
    }
  }

  /** What a merged block is coloured against: the blues of the selected parent and the blues
      merged before it. */
  ghost function Standing(gd: Coloring, b: Hash, sp: Hash, order: seq<Hash>, i: nat): set<Hash>
    requires ChainDown(gd) && b in gd && sp in gd && i <= |order|
  {
    Blues(gd, sp) + Elements(order[..i]) * Elements(gd[b].mergesetBlues)
  }

  /** A merged block is red exactly when it and the blues it is coloured against are no
      k-cluster: nothing that could have been blue is red. */
  lemma {:induction false} RedExactly(dag: BlockDag, past: Pasts, gd: Coloring, b: Hash, i: nat)
    requires Consistent(dag, past, gd) && b in dag && dag[b].parents != []
    ensures gd[b].selectedParent.Some? && gd[b].selectedParent.value in past
    ensures (forall p :: p in dag[b].parents ==> p in past)
    ensures var sp := gd[b].selectedParent.value;
            var ms := MergeSet(past, dag[b].parents, sp);
            && ms <= past.Keys
            && (i < |MergeOrder(past, ms)| ==>
                  var order := MergeOrder(past, ms);
                  order[i] in gd[b].mergesetReds <==> !KCluster(past, Standing(gd, b, sp, order, i) + {order[i]}))
  {
    var sp, c := Unfold(dag, past, gd, b);
    var ms := MergeSet(past, dag[b].parents, sp);
    var order := MergeOrder(past, ms);
    if i < |order| {
      RankedDistinct(Ranks(past, ms), order);
      PastSplits(dag, past, b, sp);
      BluesInPast(dag, past, gd, sp);
      BluesAreKCluster(dag, past, gd, sp);
      StandingIs(past, gd, b, sp, ms, c, i);
      var s := Standing(gd, b, sp, order, i);
      assert KCluster(past, s) by {
        ColoringKeepsCluster(past, Blues(gd, sp), order[..i]);
        BluesBefore(past, Blues(gd, sp), order, i);
      }
      assert order[i] !in s by {
        assert order[i] in order && order[i] !in order[..i];
      }
      ColorOf(past, Blues(gd, sp), order, i);
      BlueMeansJoining(past, s, order[i]);
    }
  }

  lemma {:induction false} RankedDistinct(rank: map<Hash, nat>, s: seq<Hash>)
    requires Ranked(rank, s)
    ensures Distinct(s)
  {
    forall i, j | 0 <= i < j < |s|
      ensures s[i] != s[j]
    {
      assert Before(rank, s[i], s[j]);
    }
  }

  /** The selected parent, first among the merged blues, is not in the mergeset. */
  lemma {:induction false} StandingIs(past: Pasts, gd: Coloring, b: Hash, sp: Hash, ms: set<Hash>, c: Colors, i: nat)
    requires ChainDown(gd) && b in gd && sp in gd && ms <= past.Keys && sp !in ms && i <= |MergeOrder(past, ms)|
    requires gd[b].mergesetBlues == [sp] + c.blues
    ensures Standing(gd, b, sp, MergeOrder(past, ms), i)
            == Blues(gd, sp) + Elements(MergeOrder(past, ms)[..i]) * Elements(c.blues)
  {
    var order := MergeOrder(past, ms);
    forall x | x in order[..i]
      ensures x in gd[b].mergesetBlues <==> x in c.blues
    {
      assert x in order;
    }
  }

  /** Colouring keeps the order of the list within each colour. */
  lemma {:induction false} ColorsRanked(past: Pasts, seed: set<Hash>, rank: map<Hash, nat>, order: seq<Hash>)
    requires Ranked(rank, order)
    ensures Ranked(rank, ColorAll(past, seed, order).blues) && Ranked(rank, ColorAll(past, seed, order).reds)
  {
    if order != [] {
      var k := |order| - 1;
      ColorsRanked(past, seed, rank, order[..k]);
      ColorsPartition(past, seed, order[..k]);
      var c := ColorAll(past, seed, order[..k]);
      forall x | x in c.blues || x in c.reds
        ensures Before(rank, x, order[k])
      {
        assert x in order[..k];
      }
    }
  }

  /** Merged blues follow the merge order among themselves, and so do merged reds. */
  lemma {:induction false} ColorsFollowMergeOrder(dag: BlockDag, past: Pasts, gd: Coloring, b: Hash)
    requires Consistent(dag, past, gd) && b in dag && dag[b].parents != []
    ensures gd[b].mergesetBlues != [] && gd[b].mergesetBlues[0] in past
    ensures (forall p :: p in dag[b].parents ==> p in past)
    ensures var rank := Ranks(past, MergeSet(past, dag[b].parents, gd[b].mergesetBlues[0]));
            Ranked(rank, gd[b].mergesetBlues[1..]) && Ranked(rank, gd[b].mergesetReds)
  {
    var sp, c := Unfold(dag, past, gd, b);
    var ms := MergeSet(past, dag[b].parents, sp);
    ColorsRanked(past, Blues(gd, sp), Ranks(past, ms), MergeOrder(past, ms));
    assert gd[b].mergesetBlues[1..] == c.blues;
  }
}
