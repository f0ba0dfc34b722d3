/** What a pruned node computes for a new block: the same functions as an archival node, over
    what a search of the kept blocks still sees. A dropped block is seen only where a kept block
    names it as a parent, yet the blue set a new block is coloured against still lists every
    blue the pruning point merged. */
module PrunedColoring {
  import opened Types
  import opened Lists
  import opened Dag
  import opened Ghostdag
  import opened GhostdagProperties
  import opened GhostdagLocality
  import opened Sums
  import opened Pruning

  // ----- What the kept blocks show -----

  /** The ancestors a search of the kept blocks finds, dropped ones that are named included. */
  ghost function Visible(dag: BlockDag, keep: set<Hash>): Pasts {
    map b | b in dag :: set a | a in dag && Ancestor(Restrict(dag, keep), a, b)
  }

  lemma {:induction false} VisibleKept(dag: BlockDag, keep: set<Hash>, a: Hash, b: Hash)
    requires FutureClosed(dag, keep) && a in keep && a in dag && b in dag
    ensures a in Visible(dag, keep)[b] <==> a in PastMap(dag)[b]
  {
    RestrictionKeepsAncestry(dag, keep, a, b);
  }

  lemma {:induction false} DroppedSeesNothing(dag: BlockDag, keep: set<Hash>, b: Hash)
    requires b in dag && b !in keep
    ensures Visible(dag, keep)[b] == {}
  {
    forall a
      ensures !Ancestor(Restrict(dag, keep), a, b)
    {
      AncestorViaParent(Restrict(dag, keep), a, b);
    }
  }

  /** A search ends at a dropped block only through a kept block that names it. */
  lemma {:induction false} NamedByKept(dag: BlockDag, keep: set<Hash>, a: Hash, b: Hash, n: nat) returns (z: Hash)
    requires n > 0 && Path(Restrict(dag, keep), a, b, n)
    ensures z in keep && z in dag && a in dag[z].parents && (z == b || Ancestor(dag, z, b))
    decreases n
  {
    var kept := Restrict(dag, keep);
    var p :| p in kept[b].parents && Path(kept, a, p, n - 1);
    if n == 1 {
      z := b;
    } else {
      z := NamedByKept(dag, keep, a, p, n - 1);
      ParentIsAncestor(dag, p, b);
      if z != p {
        AncestorTransitive(dag, z, p, b);
      }
    }
  }

  /** All of the new block's past lies below the pruning point or descends from it, and nothing
      that descends from it names a dropped block: no walk reaches across it. */
  ghost predicate Bottleneck(dag: BlockDag, keep: set<Hash>, pp: Hash, parents: seq<Hash>) {
    && WellFormed(dag) && FutureClosed(dag, keep) && keep <= dag.Keys && pp in keep && PastMap(dag)[pp] !! keep
    && parents != [] && (forall p :: p in parents ==> p in keep)
    && (forall x :: x in NewPast(PastMap(dag), parents) ==>
          x == pp || x in PastMap(dag)[pp]
          || (x in dag && pp in PastMap(dag)[x] && forall q :: q in dag[x].parents ==> q in keep))
  }

  /** The part of the new block's past that descends from the pruning point, itself included. */
  ghost function Upper(dag: BlockDag, keep: set<Hash>, parents: seq<Hash>): set<Hash>
    requires forall p :: p in parents ==> p in dag
  {
    NewPast(PastMap(dag), parents) * keep
  }

  /** What the node keeps: the pruning point and everything not scored below it. */
  lemma {:induction false} KeepIsCut(dag: BlockDag, past: Pasts, gd: Coloring, pp: Hash)
    requires Consistent(dag, past, gd) && pp in dag
    ensures var keep := AtLeast(gd, gd[pp].blueScore);
            FutureClosed(dag, keep) && keep <= dag.Keys && pp in keep && past[pp] !! keep
  {
    var keep := AtLeast(gd, gd[pp].blueScore);
    forall b, p | b in dag && p in dag[b].parents && p in dag
      ensures gd[p].blueScore < gd[b].blueScore
    {
      ScoreRisesOnEdge(dag, past, gd, p, b);
    }
    AtLeastIsClosed(dag, gd, gd[pp].blueScore);
    forall x | x in past[pp]
      ensures x !in keep
    {
      ScoreRisesOnPast(dag, past, gd, x, pp);
    }
  }

  // ----- Colouring over two views of one past -----

  /** `up` descends from `pp`, `low` is its past. Among `up` both views agree; of `low`, the view
      `vis` shows every member of `up` exactly the blocks in `named`, and itself sees nothing. */
  ghost predicate TwoViews(past: Pasts, vis: Pasts, pp: Hash, up: set<Hash>, low: set<Hash>, named: set<Hash>) {
    && pp in up && up !! low && up + low <= past.Keys && up + low <= vis.Keys
    && (forall x :: x in up && x != pp ==> pp in past[x])
    && (forall x, y :: x in low && y in up ==> x in past[y] && y !in past[x])
    && (forall x, y :: x in up && y in up ==> (x in vis[y] <==> x in past[y]))
    && (forall x, y :: x in low && y in up ==> (x in vis[y] <==> x in named))
    && (forall y :: y in low ==> vis[y] == {})
  }

  /** The blue set a pruned node has: the upper part of the full one, and `merged`, all that the
      pruning point merged. */
  ghost predicate TwoBlueSets(up: set<Hash>, low: set<Hash>, full: set<Hash>, cut: set<Hash>, merged: set<Hash>) {
    full <= up + low && merged <= low && cut == full * up + merged
  }

  /** For a block above the pruning point, the unnamed merged blues join the anticone. */
  lemma {:induction false} AnticoneGrows(past: Pasts, vis: Pasts, pp: Hash, up: set<Hash>, low: set<Hash>,
                                         named: set<Hash>, full: set<Hash>, cut: set<Hash>, merged: set<Hash>,
                                         x: Hash)
    requires TwoViews(past, vis, pp, up, low, named) && TwoBlueSets(up, low, full, cut, merged) && x in up && x != pp
    ensures Anticone(vis, cut, x) == Anticone(past, full, x) + (merged - named)
    ensures Anticone(past, full, x) <= up - {pp}
  {
    forall y
      ensures y in Anticone(vis, cut, x) <==> y in Anticone(past, full, x) || y in merged - named
    {
    }
  }

  /** An unnamed merged blue is in nobody's past and has none: all blues are in its anticone. */
  lemma {:induction false} HiddenAnticone(past: Pasts, vis: Pasts, pp: Hash, up: set<Hash>, low: set<Hash>,
                                          named: set<Hash>, full: set<Hash>, cut: set<Hash>, merged: set<Hash>,
                                          d: Hash)
    requires TwoViews(past, vis, pp, up, low, named) && TwoBlueSets(up, low, full, cut, merged) && d in merged - named
    ensures Anticone(vis, cut, d) == cut - {d}
  {
  }

  lemma {:induction false} SameColor(past: Pasts, vis: Pasts, pp: Hash, up: set<Hash>, low: set<Hash>, named: set<Hash>,
                                     full: set<Hash>, cut: set<Hash>, merged: set<Hash>, c: Hash)
    requires TwoViews(past, vis, pp, up, low, named) && TwoBlueSets(up, low, full, cut, merged) && c in up && c != pp
    requires merged <= named
    ensures IsBlue(vis, cut, c) <==> IsBlue(past, full, c)
  {
    assert merged - named == {};
    AnticoneGrows(past, vis, pp, up, low, named, full, cut, merged, c);
    forall d | d in Anticone(past, full, c)
      ensures Anticone(vis, cut, d) == Anticone(past, full, d)
    {
      AnticoneGrows(past, vis, pp, up, low, named, full, cut, merged, d);
    }
  }

  lemma {:induction false} NeverBlue(past: Pasts, vis: Pasts, pp: Hash, up: set<Hash>, low: set<Hash>, named: set<Hash>,
                                     full: set<Hash>, cut: set<Hash>, merged: set<Hash>, c: Hash)
    requires TwoViews(past, vis, pp, up, low, named) && TwoBlueSets(up, low, full, cut, merged) && c in up && c != pp
    requires !(merged <= named) && |cut| > K
    ensures !IsBlue(vis, cut, c)
  {
    var d :| d in merged && d !in named;
    AnticoneGrows(past, vis, pp, up, low, named, full, cut, merged, c);
    HiddenAnticone(past, vis, pp, up, low, named, full, cut, merged, d);
    assert d in Anticone(vis, cut, c) && |cut - {d}| == |cut| - 1;
  }

  lemma {:induction false} MoreBlues(up: set<Hash>, low: set<Hash>, full: set<Hash>, cut: set<Hash>,
                                     merged: set<Hash>, more: set<Hash>)
    requires TwoBlueSets(up, low, full, cut, merged) && more <= up
    ensures TwoBlueSets(up, low, full + more, cut + more, merged)
  {
  }

  /** If every merged blue is named, both nodes colour alike. */
  lemma {:induction false} SameColors(past: Pasts, vis: Pasts, pp: Hash, up: set<Hash>, low: set<Hash>,
                                      named: set<Hash>, full: set<Hash>, cut: set<Hash>, merged: set<Hash>,
                                      order: seq<Hash>)
    requires TwoViews(past, vis, pp, up, low, named) && TwoBlueSets(up, low, full, cut, merged) && merged <= named
    requires forall x :: x in order ==> x in up && x != pp
    ensures ColorAll(vis, cut, order) == ColorAll(past, full, order)
  {
    if order != [] {
      var k := |order| - 1;
      SameColors(past, vis, pp, up, low, named, full, cut, merged, order[..k]);
      ColorsPartition(past, full, order[..k]);
      var more := Elements(ColorAll(past, full, order[..k]).blues);
      MoreBlues(up, low, full, cut, merged, more);
      SameColor(past, vis, pp, up, low, named, full + more, cut + more, merged, order[k]);
    }
  }

  lemma {:induction false} RedStep(vis: Pasts, cut: set<Hash>, order: seq<Hash>)
    requires order != [] && !IsBlue(vis, cut, order[|order| - 1])
    requires ColorAll(vis, cut, order[..|order| - 1]) == Colors([], order[..|order| - 1])
    ensures ColorAll(vis, cut, order) == Colors([], order)
  {
    assert cut + Elements([]) == cut;
    assert order == order[..|order| - 1] + [order[|order| - 1]];
  }

  /** If one is not, and there are more than `K` blues, the pruned node colours all red. */
  lemma {:induction false} AllRed(past: Pasts, vis: Pasts, pp: Hash, up: set<Hash>, low: set<Hash>, named: set<Hash>,
                                  full: set<Hash>, cut: set<Hash>, merged: set<Hash>, order: seq<Hash>)
    requires TwoViews(past, vis, pp, up, low, named) && TwoBlueSets(up, low, full, cut, merged)
    requires !(merged <= named) && |cut| > K && forall x :: x in order ==> x in up && x != pp
    ensures ColorAll(vis, cut, order) == Colors([], order)
  {
    if order != [] {
      var k := |order| - 1;
      AllRed(past, vis, pp, up, low, named, full, cut, merged, order[..k]);
      assert !IsBlue(vis, cut, order[k]) by {
        NeverBlue(past, vis, pp, up, low, named, full, cut, merged, order[k]);
      }
      RedStep(vis, cut, order);
    }
  }

  // ----- The two views of a pruned DAG -----

  lemma {:induction false} NewPastClosed(dag: BlockDag, parents: seq<Hash>, x: Hash, a: Hash)
    requires WellFormed(dag) && (forall p :: p in parents ==> p in dag)
    requires x in NewPast(PastMap(dag), parents) && x in dag && a in PastMap(dag)[x]
    ensures a in NewPast(PastMap(dag), parents)
  {
    var past := PastMap(dag);
    NewPastMember(past, parents, x);
    NewPastMember(past, parents, a);
    var p :| p in parents && (x == p || x in past[p]);
    if x != p {
      AncestorTransitive(dag, a, x, p);
    }
  }

  lemma {:induction false} ParentsAreNew(dag: BlockDag, parents: seq<Hash>, p: Hash)
    requires p in parents && forall q :: q in parents ==> q in dag
    ensures p in NewPast(PastMap(dag), parents)
  {
    NewPastMember(PastMap(dag), parents, p);
  }

  /** The kept part of the new block's past is the pruning point and what descends from it. */
  lemma {:induction false} UpperIsAbove(dag: BlockDag, keep: set<Hash>, pp: Hash, parents: seq<Hash>, x: Hash)
    requires Bottleneck(dag, keep, pp, parents) && x in Upper(dag, keep, parents)
    ensures x in dag && x !in PastMap(dag)[pp] && (x == pp || pp in PastMap(dag)[x])
  {
  }

  lemma {:induction false} PointIsUpper(dag: BlockDag, keep: set<Hash>, pp: Hash, parents: seq<Hash>)
    requires Bottleneck(dag, keep, pp, parents)
    ensures pp in Upper(dag, keep, parents)
  {
    var p := parents[0];
    assert p in parents;
    ParentsAreNew(dag, parents, p);
    UpperIsAbove(dag, keep, pp, parents, p);
    if p != pp {
      NewPastClosed(dag, parents, p, pp);
    }
  }

  /** Of the dropped blocks, one above the pruning point sees those the point names. */
  lemma {:induction false} SeesNamed(dag: BlockDag, keep: set<Hash>, pp: Hash, parents: seq<Hash>, x: Hash, y: Hash)
    requires Bottleneck(dag, keep, pp, parents) && y in Upper(dag, keep, parents) && x in PastMap(dag)[pp]
    ensures y in dag && (x in Visible(dag, keep)[y] <==> x in dag[pp].parents)
  {
    UpperIsAbove(dag, keep, pp, parents, y);
    var kept := Restrict(dag, keep);
    if x in dag[pp].parents {
      ParentIsAncestor(kept, x, pp);
      if y != pp {
        VisibleKept(dag, keep, pp, y);
        AncestorTransitive(kept, x, pp, y);
      }
    }
    if x in Visible(dag, keep)[y] {
      var n: nat :| n > 0 && Path(kept, x, y, n);
      var z := NamedByKept(dag, keep, x, y, n);
      if z != y {
        NewPastClosed(dag, parents, y, z);
      }
      UpperIsAbove(dag, keep, pp, parents, z);
    }
  }

  /** The DAG with its two views. */
  ghost predicate Pruned(dag: BlockDag, keep: set<Hash>, pp: Hash, parents: seq<Hash>, past: Pasts, vis: Pasts,
                         up: set<Hash>)
  {
    && Bottleneck(dag, keep, pp, parents) && past == PastMap(dag) && vis == Visible(dag, keep)
    && up == Upper(dag, keep, parents)
  }

  lemma {:induction false} UpperPart(dag: BlockDag, keep: set<Hash>, pp: Hash, parents: seq<Hash>, past: Pasts,
                                     vis: Pasts, up: set<Hash>)
    requires Pruned(dag, keep, pp, parents, past, vis, up)
    ensures pp in past && pp in up && up !! past[pp] && up + past[pp] <= past.Keys && up + past[pp] <= vis.Keys
    ensures forall x :: x in up && x != pp ==> pp in past[x]
  {
    PointIsUpper(dag, keep, pp, parents);
    forall x | x in up
      ensures x in dag && x !in past[pp] && (x == pp || pp in past[x])
    {
      UpperIsAbove(dag, keep, pp, parents, x);
    }
  }

  lemma {:induction false} UpperAgrees(dag: BlockDag, keep: set<Hash>, pp: Hash, parents: seq<Hash>, past: Pasts,
                                       vis: Pasts, up: set<Hash>)
    requires Pruned(dag, keep, pp, parents, past, vis, up) && up <= past.Keys && up <= vis.Keys
    ensures forall x, y :: x in up && y in up ==> (x in vis[y] <==> x in past[y])
  {
    forall x, y | x in up && y in up
      ensures x in vis[y] <==> x in past[y]
    {
      VisibleKept(dag, keep, x, y);
    }
  }

  lemma {:induction false} LowerSeen(dag: BlockDag, keep: set<Hash>, pp: Hash, parents: seq<Hash>, past: Pasts,
                                     vis: Pasts, up: set<Hash>)
    requires Pruned(dag, keep, pp, parents, past, vis, up) && pp in dag
    requires up + past[pp] <= past.Keys && up + past[pp] <= vis.Keys
    ensures forall x, y :: x in past[pp] && y in up ==> x in past[y] && y !in past[x]
    ensures forall x, y :: x in past[pp] && y in up ==> (x in vis[y] <==> x in Elements(dag[pp].parents))
  {
    forall x, y | x in past[pp] && y in up
      ensures x in past[y] && y !in past[x] && (x in vis[y] <==> x in Elements(dag[pp].parents))
    {
      UpperIsAbove(dag, keep, pp, parents, y);
      SeesNamed(dag, keep, pp, parents, x, y);
      BelowIsBelow(dag, pp, x, y);
    }
  }

  lemma {:induction false} LowerSeesNothing(dag: BlockDag, keep: set<Hash>, pp: Hash, parents: seq<Hash>, past: Pasts,
                                            vis: Pasts, up: set<Hash>)
    requires Pruned(dag, keep, pp, parents, past, vis, up) && past[pp] <= vis.Keys
    ensures forall y :: y in past[pp] ==> vis[y] == {}
  {
    forall y | y in past[pp]
      ensures vis[y] == {}
    {
      DroppedSeesNothing(dag, keep, y);
    }
  }

  lemma {:induction false} PointView(dag: BlockDag, keep: set<Hash>, pp: Hash, parents: seq<Hash>, past: Pasts,
                                     vis: Pasts, up: set<Hash>)
    requires Pruned(dag, keep, pp, parents, past, vis, up)
    ensures pp in past && TwoViews(past, vis, pp, up, past[pp], Elements(dag[pp].parents))
  {
    UpperPart(dag, keep, pp, parents, past, vis, up);
    UpperAgrees(dag, keep, pp, parents, past, vis, up);
    LowerSeen(dag, keep, pp, parents, past, vis, up);
    LowerSeesNothing(dag, keep, pp, parents, past, vis, up);
  }

  lemma {:induction false} BelowIsBelow(dag: BlockDag, pp: Hash, x: Hash, y: Hash)
    requires WellFormed(dag) && pp in dag && y in dag && x in PastMap(dag)[pp] && (y == pp || pp in PastMap(dag)[y])
    ensures x in PastMap(dag)[y] && y !in PastMap(dag)[x]
  {
    if y != pp {
      AncestorTransitive(dag, x, pp, y);
    }
    if Ancestor(dag, y, x) {
      AncestorTransitive(dag, x, y, x);
    }
  }

  // ----- What is merged -----

  lemma {:induction false} VisibleInside(dag: BlockDag, keep: set<Hash>, b: Hash)
    requires b in dag
    ensures Visible(dag, keep)[b] <= PastMap(dag)[b]
  {
    forall a | a in Visible(dag, keep)[b]
      ensures a in PastMap(dag)[b]
    {
      var n: nat :| n > 0 && Path(Restrict(dag, keep), a, b, n);
      RestrictionAddsNoPath(dag, keep, a, b, n);
    }
  }

  lemma {:induction false} NewIsSplit(dag: BlockDag, keep: set<Hash>, pp: Hash, parents: seq<Hash>, past: Pasts,
                                      vis: Pasts, up: set<Hash>)
    requires Pruned(dag, keep, pp, parents, past, vis, up)
    ensures (forall p :: p in parents ==> p in past && p in vis && p in up && vis[p] <= past[p])
    ensures pp in past && NewPast(past, parents) <= up + past[pp]
  {
    forall p | p in parents
      ensures p in past && p in vis && p in up && vis[p] <= past[p]
    {
      ParentsAreNew(dag, parents, p);
      VisibleInside(dag, keep, p);
    }
  }

  /** Both views merge the same blocks, all of them above the pruning point. */
  lemma {:induction false} MergesAgree(past: Pasts, vis: Pasts, pp: Hash, up: set<Hash>, low: set<Hash>,
                                       named: set<Hash>, parents: seq<Hash>, sp: Hash)
    requires TwoViews(past, vis, pp, up, low, named) && sp in parents
    requires forall p :: p in parents ==> p in past && p in vis && p in up && vis[p] <= past[p]
    requires NewPast(past, parents) <= up + low
    ensures MergeSet(vis, parents, sp) == MergeSet(past, parents, sp) <= up - {pp}
  {
    forall a
      ensures a in MergeSet(vis, parents, sp) <==> a in MergeSet(past, parents, sp)
      ensures a in MergeSet(past, parents, sp) ==> a in up && a != pp
    {
      NewPastMember(past, parents, a);
      NewPastMember(vis, parents, a);
    }
  }

  lemma {:induction false} OrdersAgree(past: Pasts, vis: Pasts, up: set<Hash>, ms: set<Hash>)
    requires ms <= up && up <= past.Keys && up <= vis.Keys
    requires forall x, y :: x in up && y in up ==> (x in vis[y] <==> x in past[y])
    ensures MergeOrder(vis, ms) == MergeOrder(past, ms)
  {
    forall x | x in ms
      ensures ms * vis[x] == ms * past[x]
    {
    }
    assert Ranks(vis, ms) == Ranks(past, ms);
    MergeOrderUnique(past, ms, MergeOrder(vis, ms));
  }

  /** Where a merged block above the point does name a dropped one that the selected parent does
      not see, the pruned node lists that block as merged although it does not hold it. */
  lemma {:induction false} DroppedIsListed(dag: BlockDag, keep: set<Hash>, parents: seq<Hash>, sp: Hash, z: Hash,
                                           x: Hash)
    requires WellFormed(dag) && sp in dag && (forall p :: p in parents ==> p in dag)
    requires z in MergeSet(Visible(dag, keep), parents, sp) && z in keep && z in dag && x in dag[z].parents
    requires x !in keep && x != sp && x !in Visible(dag, keep)[sp]
    ensures x in MergeSet(Visible(dag, keep), parents, sp) && x !in Restrict(dag, keep)
  {
    var vis, kept := Visible(dag, keep), Restrict(dag, keep);
    NewPastMember(vis, parents, z);
    NewPastMember(vis, parents, x);
    ParentIsAncestor(kept, x, z);
    var p :| p in parents && (z == p || z in vis[p]);
    if z != p {
      AncestorTransitive(kept, x, z, p);
    }
  }

  // ----- The blue set -----

  lemma {:induction false} PointBlues(dag: BlockDag, past: Pasts, gd: Coloring, keep: set<Hash>, pp: Hash)
    requires Consistent(dag, past, gd) && pp in dag && pp in keep && past[pp] !! keep && ChainDown(Cut(gd, keep))
    ensures Blues(Cut(gd, keep), pp) == {pp} + Elements(gd[pp].mergesetBlues)
    ensures Blues(gd, pp) - {pp} <= past[pp] && Elements(gd[pp].mergesetBlues) <= past[pp]
  {
    DataInPast(dag, past, gd, pp);
    BlueScoreCountsBlues(dag, past, gd, pp);
    assert Descends(Cut(gd, keep), pp);
  }

  /** A block above the pruning point has its selected parent and its merged blues there too. */
  lemma {:induction false} StepAbove(dag: BlockDag, keep: set<Hash>, pp: Hash, parents: seq<Hash>, past: Pasts,
                                     vis: Pasts, up: set<Hash>, gd: Coloring, c: Hash) returns (sp: Hash)
    requires Pruned(dag, keep, pp, parents, past, vis, up) && Consistent(dag, past, gd) && c in up && c != pp
    ensures c in gd && c in keep && gd[c].selectedParent == Some(sp) && sp in up && sp in keep && sp in gd
    ensures gd[sp].blueScore < gd[c].blueScore && Elements(gd[c].mergesetBlues) <= up
  {
    UpperIsAbove(dag, keep, pp, parents, c);
    assert ViaParent(dag, past, pp, c);
    MergesetPartition(dag, past, gd, c);
    sp := gd[c].mergesetBlues[0];
    assert Descends(gd, c);
    NewPastClosed(dag, parents, c, sp);
    forall x | x in gd[c].mergesetBlues
      ensures x in up
    {
      MergedIsUpper(dag, keep, pp, parents, past, vis, up, gd, c, sp, x);
    }
  }

  lemma {:induction false} MergedIsUpper(dag: BlockDag, keep: set<Hash>, pp: Hash, parents: seq<Hash>, past: Pasts,
                                         vis: Pasts, up: set<Hash>, gd: Coloring, c: Hash, sp: Hash, x: Hash)
    requires Pruned(dag, keep, pp, parents, past, vis, up) && Consistent(dag, past, gd) && c in up && c in dag
    requires dag[c].parents != []
    requires gd[c].mergesetBlues != [] && sp == gd[c].mergesetBlues[0] && sp in up && x in gd[c].mergesetBlues
    ensures x in up
  {
    if x != sp {
      MergesetPartition(dag, past, gd, c);
      var i :| 0 <= i < |gd[c].mergesetBlues| && gd[c].mergesetBlues[i] == x;
      assert gd[c].mergesetBlues[1..][i - 1] == x;
      assert x in MergeSet(past, dag[c].parents, sp);
      DataInPast(dag, past, gd, c);
      assert x in Elements(gd[c].mergesetBlues);
      NewPastClosed(dag, parents, c, x);
      NewIsSplit(dag, keep, pp, parents, past, vis, up);
      PointView(dag, keep, pp, parents, past, vis, up);
    }
  }

  /** The blues of `c` above the pruning point, and none below it but the point's own. */
  ghost predicate CutAt(gd: Coloring, cut: Coloring, pp: Hash, up: set<Hash>, low: set<Hash>, c: Hash)
    requires ChainDown(gd) && ChainDown(cut) && pp in gd && c in gd && c in cut
  {
    && TwoBlueSets(up, low, Blues(gd, c), Blues(cut, c), Elements(gd[pp].mergesetBlues))
    && Blues(gd, pp) <= Blues(gd, c) <= up + Blues(gd, pp)
  }

  lemma {:induction false} CutAtStep(gd: Coloring, cut: Coloring, pp: Hash, up: set<Hash>, low: set<Hash>, c: Hash,
                                     sp: Hash)
    requires ChainDown(gd) && ChainDown(cut) && pp in gd && sp in gd && sp in cut && CutAt(gd, cut, pp, up, low, sp)
    requires c in gd && c in cut && cut[c] == gd[c] && gd[c].selectedParent == Some(sp) && c in up
    requires Elements(gd[c].mergesetBlues) <= up
    ensures CutAt(gd, cut, pp, up, low, c)
  {
    assert Descends(gd, c) && Descends(cut, c);
  }

  lemma {:induction false} CutAtPoint(dag: BlockDag, past: Pasts, gd: Coloring, keep: set<Hash>, pp: Hash,
                                      up: set<Hash>)
    requires Consistent(dag, past, gd) && pp in dag && pp in keep && past[pp] !! keep && ChainDown(Cut(gd, keep))
    requires pp in up && up !! past[pp]
    ensures CutAt(gd, Cut(gd, keep), pp, up, past[pp], pp)
  {
    PointBlues(dag, past, gd, keep, pp);
  }

  lemma {:induction false} CutBlues(dag: BlockDag, keep: set<Hash>, pp: Hash, parents: seq<Hash>, past: Pasts,
                                    vis: Pasts, up: set<Hash>, gd: Coloring, cut: Coloring, c: Hash)
    requires Pruned(dag, keep, pp, parents, past, vis, up) && Consistent(dag, past, gd) && cut == Cut(gd, keep)
    requires ChainDown(cut)
    requires pp in gd && pp in past && pp in up && up !! past[pp] && c in up && c in gd && c in cut
    ensures CutAt(gd, cut, pp, up, past[pp], c)
    decreases gd[c].blueScore
  {
    if c == pp {
      CutAtPoint(dag, past, gd, keep, pp, up);
    } else {
      var sp := StepAbove(dag, keep, pp, parents, past, vis, up, gd, c);
      CutBlues(dag, keep, pp, parents, past, vis, up, gd, cut, sp);
      CutAtStep(gd, cut, pp, up, past[pp], c, sp);
    }
  }

  lemma {:induction false} CountRest(full: set<Hash>, lower: set<Hash>, rest: set<Hash>)
    requires lower <= full && full - lower <= rest
    ensures |rest| >= |full| - |lower|
  {
    SubsetIsAtMost(full - lower, rest);
    assert full == (full - lower) + lower;
  }

  /** The blue set is large once the chain is `K` levels above the pruning point. */
  lemma {:induction false} CutBluesCount(dag: BlockDag, past: Pasts, gd: Coloring, cut: Coloring, pp: Hash,
                                         up: set<Hash>, c: Hash)
    requires Consistent(dag, past, gd) && ChainDown(cut) && pp in dag && c in dag && c in cut && pp in up
    requires up !! past[pp]
    requires CutAt(gd, cut, pp, up, past[pp], c) && gd[c].blueScore >= gd[pp].blueScore + K
    ensures |Blues(cut, c)| > K
  {
    BlueScoreCountsBlues(dag, past, gd, c);
    BlueScoreCountsBlues(dag, past, gd, pp);
    CountRest(Blues(gd, c), Blues(gd, pp) - {pp}, Blues(cut, c));
  }

  // ----- The data of a new block -----

  /** What a pruned node computes: selection, mergeset, order and colouring over what the kept
      blocks show and the cut links. */
  ghost function PrunedData(dag: BlockDag, gd: Coloring, keep: set<Hash>, parents: seq<Hash>): GhostdagData
    requires ChainDown(gd) && gd.Keys == dag.Keys && forall p :: p in parents ==> p in dag
  {
    CutDescends(gd, keep);
    var vis, cut := Visible(dag, keep), Cut(gd, keep);
    match Heaviest(cut, parents)
    case None => GENESIS_DATA
    case Some(sp) =>
      MergeSetInside(vis, parents, sp);
      DataWith(vis, cut, sp, MergeSet(vis, parents, sp))
  }

  /** Every blue the pruning point merged is one of its parents. */
  ghost predicate AllNamed(dag: BlockDag, gd: Coloring, pp: Hash)
    requires pp in dag && pp in gd
  {
    Elements(gd[pp].mergesetBlues) <= Elements(dag[pp].parents)
  }

  lemma {:induction false} CutHeaviest(gd: Coloring, keep: set<Hash>, parents: seq<Hash>)
    requires forall p :: p in parents ==> p in keep && p in gd
    ensures Heaviest(Cut(gd, keep), parents) == Heaviest(gd, parents)
  {
    if parents != [] {
      CutHeaviest(gd, keep, parents[..|parents| - 1]);
    }
  }

  /** The ingredients both nodes use. */
  lemma {:induction false} SameIngredients(dag: BlockDag, past: Pasts, gd: Coloring, keep: set<Hash>, pp: Hash,
                                           parents: seq<Hash>, vis: Pasts, up: set<Hash>, sp: Hash, ms: set<Hash>)
    requires Pruned(dag, keep, pp, parents, past, vis, up) && Consistent(dag, past, gd) && DataReady(past, gd, parents)
    requires Heaviest(gd, parents) == Some(sp) && ms == MergeSet(past, parents, sp)
    ensures Heaviest(Cut(gd, keep), parents) == Some(sp) && sp in up && sp in vis
    ensures (forall p :: p in parents ==> p in vis)
    ensures MergeSet(vis, parents, sp) == ms <= up - {pp} && ms <= past.Keys && ms <= vis.Keys
    ensures MergeOrder(vis, ms) == MergeOrder(past, ms)
  {
    CutHeaviest(gd, keep, parents);
    NewIsSplit(dag, keep, pp, parents, past, vis, up);
    PointView(dag, keep, pp, parents, past, vis, up);
    MergesAgree(past, vis, pp, up, past[pp], Elements(dag[pp].parents), parents, sp);
    OrdersAgree(past, vis, up, ms);
  }

  /** The data from its ingredients. */
  ghost function Colored(past: Pasts, gd: Coloring, sp: Hash, order: seq<Hash>): GhostdagData
    requires ChainDown(gd) && sp in gd
  {
    var c := ColorAll(past, Blues(gd, sp), order);
    GhostdagData(gd[sp].blueScore + 1 + |c.blues|, Some(sp), [sp] + c.blues, c.reds)
  }

  lemma {:induction false} FullIsColored(past: Pasts, gd: Coloring, parents: seq<Hash>, sp: Hash)
    requires DataReady(past, gd, parents) && Heaviest(gd, parents) == Some(sp)
    ensures MergeSet(past, parents, sp) <= past.Keys
    ensures Data(past, gd, parents) == Colored(past, gd, sp, MergeOrder(past, MergeSet(past, parents, sp)))
  {
    MergeSetInside(past, parents, sp);
  }

  lemma {:induction false} PrunedIsColored(dag: BlockDag, gd: Coloring, keep: set<Hash>, parents: seq<Hash>,
                                           vis: Pasts, cut: Coloring, sp: Hash)
    requires ChainDown(gd) && gd.Keys == dag.Keys && (forall p :: p in parents ==> p in dag)
    requires vis == Visible(dag, keep) && cut == Cut(gd, keep) && ChainDown(cut) && Heaviest(cut, parents) == Some(sp)
    ensures MergeSet(vis, parents, sp) <= vis.Keys
    ensures PrunedData(dag, gd, keep, parents) == Colored(vis, cut, sp, MergeOrder(vis, MergeSet(vis, parents, sp)))
  {
    MergeSetInside(vis, parents, sp);
  }

  lemma {:induction false} DataIsColored(dag: BlockDag, past: Pasts, gd: Coloring, keep: set<Hash>, pp: Hash,
                                         parents: seq<Hash>, vis: Pasts, up: set<Hash>, cut: Coloring)
      returns (sp: Hash, order: seq<Hash>)
    requires Pruned(dag, keep, pp, parents, past, vis, up) && Consistent(dag, past, gd) && DataReady(past, gd, parents)
    requires cut == Cut(gd, keep) && ChainDown(cut)
    ensures Heaviest(gd, parents) == Some(sp) && sp in gd && sp in cut && sp in up
    ensures (forall x :: x in order ==> x in up && x != pp)
    ensures MergeSet(past, parents, sp) <= past.Keys && order == MergeOrder(past, MergeSet(past, parents, sp))
    ensures Data(past, gd, parents) == Colored(past, gd, sp, order)
    ensures PrunedData(dag, gd, keep, parents) == Colored(vis, cut, sp, order)
  {
    assert parents[0] in parents;
    sp := Heaviest(gd, parents).value;
    FullIsColored(past, gd, parents, sp);
    SameIngredients(dag, past, gd, keep, pp, parents, vis, up, sp, MergeSet(past, parents, sp));
    PrunedIsColored(dag, gd, keep, parents, vis, cut, sp);
    order := MergeOrder(past, MergeSet(past, parents, sp));
  }

  /** If the pruning point names every blue it merged, a pruned node gives a new block the data
      an archival node gives it. */
  lemma {:induction false} PruningUnseen(dag: BlockDag, past: Pasts, gd: Coloring, keep: set<Hash>, pp: Hash,
                                         parents: seq<Hash>, vis: Pasts, up: set<Hash>)
    requires Pruned(dag, keep, pp, parents, past, vis, up) && Consistent(dag, past, gd) && DataReady(past, gd, parents)
    requires AllNamed(dag, gd, pp)
    ensures PrunedData(dag, gd, keep, parents) == Data(past, gd, parents)
  {
    CutDescends(gd, keep);
    var cut := Cut(gd, keep);
    var sp, order := DataIsColored(dag, past, gd, keep, pp, parents, vis, up, cut);
    PointView(dag, keep, pp, parents, past, vis, up);
    CutBlues(dag, keep, pp, parents, past, vis, up, gd, cut, sp);
    SameColored(past, vis, gd, cut, pp, up, past[pp], Elements(dag[pp].parents), sp, order);
  }

  lemma {:induction false} SameColored(past: Pasts, vis: Pasts, gd: Coloring, cut: Coloring, pp: Hash, up: set<Hash>,
                                       low: set<Hash>, named: set<Hash>, sp: Hash, order: seq<Hash>)
    requires ChainDown(gd) && ChainDown(cut) && pp in gd && sp in gd && sp in cut
    requires cut[sp].blueScore == gd[sp].blueScore
    requires TwoViews(past, vis, pp, up, low, named) && CutAt(gd, cut, pp, up, low, sp)
    requires Elements(gd[pp].mergesetBlues) <= named && forall x :: x in order ==> x in up && x != pp
    ensures Colored(vis, cut, sp, order) == Colored(past, gd, sp, order)
  {
    SameColors(past, vis, pp, up, low, named, Blues(gd, sp), Blues(cut, sp), Elements(gd[pp].mergesetBlues), order);
  }

  lemma {:induction false} RedColored(past: Pasts, vis: Pasts, cut: Coloring, pp: Hash, up: set<Hash>, low: set<Hash>,
                                      named: set<Hash>, full: set<Hash>, rest: set<Hash>, merged: set<Hash>, sp: Hash,
                                      order: seq<Hash>)
    requires TwoViews(past, vis, pp, up, low, named) && TwoBlueSets(up, low, full, rest, merged)
    requires ChainDown(cut) && sp in cut && rest == Blues(cut, sp) && |rest| > K
    requires !(merged <= named) && forall x :: x in order ==> x in up && x != pp
    ensures Colored(vis, cut, sp, order) == GhostdagData(cut[sp].blueScore + 1, Some(sp), [sp], order)
  {
    AllRed(past, vis, pp, up, low, named, full, rest, merged, order);
    ColoredRed(vis, cut, sp, order);
  }

  lemma {:induction false} ColoredRed(past: Pasts, gd: Coloring, sp: Hash, order: seq<Hash>)
    requires ChainDown(gd) && sp in gd
    ensures |Colored(past, gd, sp, order).mergesetBlues| == 1 <==>
            Colored(past, gd, sp, order) == GhostdagData(gd[sp].blueScore + 1, Some(sp), [sp], order)
    ensures ColorAll(past, Blues(gd, sp), order).blues == [] <==> |Colored(past, gd, sp, order).mergesetBlues| == 1
  {
    var c := ColorAll(past, Blues(gd, sp), order);
    if c.blues == [] {
      RedsAreOrder(past, Blues(gd, sp), order);
      assert [sp] + c.blues == [sp];
    }
  }

  /** If it does not, and the chain is `K` levels above it, a pruned node colours every block
      the new one merges red. */
  lemma {:induction false} PruningReddens(dag: BlockDag, past: Pasts, gd: Coloring, keep: set<Hash>, pp: Hash,
                                          parents: seq<Hash>, vis: Pasts, up: set<Hash>)
    requires Pruned(dag, keep, pp, parents, past, vis, up) && Consistent(dag, past, gd) && DataReady(past, gd, parents)
    requires Heaviest(gd, parents).Some? && gd[Heaviest(gd, parents).value].blueScore >= gd[pp].blueScore + K
    requires !AllNamed(dag, gd, pp)
    ensures var sp := Heaviest(gd, parents).value;
            && MergeSet(past, parents, sp) <= past.Keys
            && PrunedData(dag, gd, keep, parents)
               == GhostdagData(gd[sp].blueScore + 1, Some(sp), [sp], MergeOrder(past, MergeSet(past, parents, sp)))
  {
    CutDescends(gd, keep);
    var cut := Cut(gd, keep);
    var sp, order := DataIsColored(dag, past, gd, keep, pp, parents, vis, up, cut);
    PointView(dag, keep, pp, parents, past, vis, up);
    CutBlues(dag, keep, pp, parents, past, vis, up, gd, cut, sp);
    CutBluesCount(dag, past, gd, cut, pp, up, sp);
    RedColored(past, vis, cut, pp, up, past[pp], Elements(dag[pp].parents), Blues(gd, sp), Blues(cut, sp),
               Elements(gd[pp].mergesetBlues), sp, order);
  }

  /** So, `K` levels above it, pruning goes unseen exactly when the pruning point names every
      blue it merged, or the new block has no blue to lose. */
  lemma {:induction false} PruningExactly(dag: BlockDag, past: Pasts, gd: Coloring, keep: set<Hash>, pp: Hash,
                                          parents: seq<Hash>, vis: Pasts, up: set<Hash>)
    requires Pruned(dag, keep, pp, parents, past, vis, up) && Consistent(dag, past, gd) && DataReady(past, gd, parents)
    requires Heaviest(gd, parents).Some? && gd[Heaviest(gd, parents).value].blueScore >= gd[pp].blueScore + K
    ensures PrunedData(dag, gd, keep, parents) == Data(past, gd, parents) <==>
            AllNamed(dag, gd, pp) || |Data(past, gd, parents).mergesetBlues| == 1
  {
    if AllNamed(dag, gd, pp) {
      PruningUnseen(dag, past, gd, keep, pp, parents, vis, up);
    } else {
      PruningReddens(dag, past, gd, keep, pp, parents, vis, up);
      NoBlueToLose(past, gd, parents);
    }
  }

  lemma {:induction false} NoBlueToLose(past: Pasts, gd: Coloring, parents: seq<Hash>)
    requires DataReady(past, gd, parents) && Heaviest(gd, parents).Some?
    ensures var sp := Heaviest(gd, parents).value;
            && MergeSet(past, parents, sp) <= past.Keys
            && (|Data(past, gd, parents).mergesetBlues| == 1 <==>
                Data(past, gd, parents)
                == GhostdagData(gd[sp].blueScore + 1, Some(sp), [sp], MergeOrder(past, MergeSet(past, parents, sp))))
  {
    var sp := Heaviest(gd, parents).value;
    FullIsColored(past, gd, parents, sp);
    ColoredRed(past, gd, sp, MergeOrder(past, MergeSet(past, parents, sp)));
  }

  lemma {:induction false} RedsAreOrder(past: Pasts, seed: set<Hash>, order: seq<Hash>)
    requires ColorAll(past, seed, order).blues == []
    ensures ColorAll(past, seed, order).reds == order
  {
    if order != [] {
      RedsAreOrder(past, seed, order[..|order| - 1]);
      assert order == order[..|order| - 1] + [order[|order| - 1]];
    }
  }
}
