/** The loops of src/ghostdag.rs, proved to compute the functions of module `Ghostdag`. */
module GhostdagCompute {
  import opened Types
  import opened Lists
  import opened Dag
  import opened Forest
  import opened ReachabilityOracle
  import opened Ordering
  import opened Ghostdag
  import opened GhostdagProperties
  import opened GhostdagLocality

  /** The first mergeset blue is the selected parent. */
  ghost predicate SelectsFirst(gd: Coloring, b: Hash)
    requires b in gd
  {
    gd[b].selectedParent.Some? ==>
      gd[b].mergesetBlues != [] && gd[b].selectedParent == Some(gd[b].mergesetBlues[0])
  }

  ghost predicate AllSelectFirst(gd: Coloring) {
    forall b {:trigger SelectsFirst(gd, b)} :: b in gd ==> SelectsFirst(gd, b)
  }

  lemma {:induction false} ConsistentSelectsFirst(dag: BlockDag, past: Pasts, gd: Coloring)
    requires Consistent(dag, past, gd)
    ensures AllSelectFirst(gd)
  {
    forall b | b in gd
      ensures SelectsFirst(gd, b)
    {
      if dag[b].parents == [] {
        GenesisData(dag, past, gd, b);
      } else {
        MergesetPartition(dag, past, gd, b);
      }
    }
  }

  /** Union of the mergeset blues along the selected-parent chain, `block` included. */
  method MaterializedBlues(gd: Coloring, block: Hash) returns (blues: set<Hash>)
    requires ChainDown(gd) && AllSelectFirst(gd)
    ensures blues == if block in gd then Blues(gd, block) else {block}
  {
    blues := {block};
    var cursor: Option<Hash> := Some(block);
    while cursor.Some?
      invariant cursor.Some? && cursor.value in gd ==>
                  block in gd && cursor.value in blues && blues + Blues(gd, cursor.value) == Blues(gd, block)
      invariant cursor.Some? && cursor.value !in gd ==> block == cursor.value && blues == {block}
      invariant cursor.None? ==> block in gd && blues == Blues(gd, block)
      decreases if cursor.Some? then 1 + (if cursor.value in gd then gd[cursor.value].blueScore + 1 else 0) else 0
    {
      var h := cursor.value;
      if h !in gd {
        break;
      }
      assert Descends(gd, h) && SelectsFirst(gd, h);
      blues := blues + (set b | b in gd[h].mergesetBlues);
      cursor := gd[h].selectedParent;
    }
  }

  lemma {:induction false} PastIsAncestry(dag: BlockDag, a: Hash, b: Hash)
    requires WellFormed(dag) && b in dag
    ensures a in PastMap(dag)[b] <==> Ancestor(dag, a, b)
  {
    if Ancestor(dag, a, b) {
      var n: nat :| n > 0 && Path(dag, a, b, n);
      PathStaysInside(dag, a, b, n);
    }
  }

  /** Inclusive ancestry of a list of held blocks. */
  ghost predicate Reached(dag: BlockDag, parents: seq<Hash>, x: Hash) {
    exists p :: p in parents && (x == p || Ancestor(dag, x, p))
  }

  lemma {:induction false} ReachedIsNewPast(dag: BlockDag, parents: seq<Hash>, x: Hash)
    requires WellFormed(dag) && forall p :: p in parents ==> p in dag
    ensures Reached(dag, parents, x) <==> x in NewPast(PastMap(dag), parents)
  {
    NewPastMember(PastMap(dag), parents, x);
    forall p | p in parents
      ensures x in PastMap(dag)[p] <==> Ancestor(dag, x, p)
    {
      PastIsAncestry(dag, x, p);
    }
  }

  lemma {:induction false} ReachedStep(dag: BlockDag, parents: seq<Hash>, x: Hash, q: Hash)
    requires Reached(dag, parents, x) && x in dag && q in dag[x].parents
    ensures Reached(dag, parents, q)
  {
    var p :| p in parents && (x == p || Ancestor(dag, x, p));
    ParentIsAncestor(dag, q, x);
    if x != p {
      AncestorTransitive(dag, q, x, p);
    }
  }

  /** A parent-closed set holding the listed blocks holds everything they reach. */
  lemma {:induction false} ClosedHoldsReached(dag: BlockDag, parents: seq<Hash>, t: set<Hash>, x: Hash)
    requires (forall p :: p in parents ==> p in t) && Reached(dag, parents, x)
    requires forall y, q :: y in t && y in dag && q in dag[y].parents ==> q in t
    ensures x in t
  {
    var p :| p in parents && (x == p || Ancestor(dag, x, p));
    if x != p {
      var n: nat :| n > 0 && Path(dag, x, p, n);
      ClosedSetHoldsAncestors(dag, t, x, p, n);
    }
  }

  lemma {:induction false} AncestorsAreClosed(dag: BlockDag, sp: Hash, t: set<Hash>)
    requires forall a :: a in t <==> a == sp || Ancestor(dag, a, sp)
    ensures forall y, q :: y in t && y in dag && q in dag[y].parents ==> q in t
  {
    forall y, q | y in t && y in dag && q in dag[y].parents
      ensures q in t
    {
      ParentIsAncestor(dag, q, y);
      if y != sp {
        AncestorTransitive(dag, q, y, sp);
      }
    }
  }

  /** Everything the worklist still owes is on the stack. */
  ghost predicate WorkDone(dag: BlockDag, t: set<Hash>, parents: seq<Hash>, stack: seq<Hash>) {
    && (forall p :: p in parents ==> p in t || p in stack)
    && (forall y, q :: y in t && y in dag && q in dag[y].parents ==> q in t || q in stack)
  }

  lemma {:induction false} WorkStep(dag: BlockDag, t: set<Hash>, parents: seq<Hash>, stack: seq<Hash>,
                                    rest: seq<Hash>, x: Hash)
    requires WorkDone(dag, t, parents, stack) && stack == rest + [x]
    ensures x in t ==> WorkDone(dag, t, parents, rest)
    ensures WorkDone(dag, t + {x}, parents, if x in dag then rest + dag[x].parents else rest)
  {
    assert forall y :: y in stack <==> y in rest || y == x;
  }

  /** What the parents reach and the selected parent does not, by a worklist that stops at
      the selected parent's inclusive past. The listing order is arbitrary. */
  method Mergeset(dag: BlockDag, parents: seq<Hash>, sp: Hash) returns (ms: seq<Hash>)
    requires WellFormed(dag) && sp in dag && forall p :: p in parents ==> p in dag
    ensures Distinct(ms) && Elements(ms) == MergeSet(PastMap(dag), parents, sp)
  {
    var spPast := BfsAncestors(dag, sp);
    spPast := spPast + {sp};
    AncestorsAreClosed(dag, sp, spPast);
    var found: set<Hash> := {};
    var stack := parents;
    while stack != []
      invariant found <= dag.Keys && found !! spPast
      invariant forall x :: x in stack ==> x in dag && Reached(dag, parents, x)
      invariant forall x :: x in found ==> Reached(dag, parents, x)
      invariant WorkDone(dag, spPast + found, parents, stack)
      decreases dag.Keys - found, |stack|
    {
      var x := stack[|stack| - 1];
      ghost var before := stack;
      stack := stack[..|stack| - 1];
      assert before == stack + [x] && x in before;
      WorkStep(dag, spPast + found, parents, before, stack, x);
      if x in spPast || x in found {
        continue;
      }
      found := found + {x};
      assert spPast + found == spPast + (found - {x}) + {x};
      forall q | q in dag[x].parents
        ensures Reached(dag, parents, q)
      {
        ReachedStep(dag, parents, x, q);
      }
      stack := stack + dag[x].parents;
    }
    MergesetComplete(dag, parents, sp, spPast, found);
    ms := ListSet(found);
  }

  lemma {:induction false} MergesetComplete(dag: BlockDag, parents: seq<Hash>, sp: Hash, spPast: set<Hash>,
                                            found: set<Hash>)
    requires WellFormed(dag) && sp in dag && forall p :: p in parents ==> p in dag
    requires forall a :: a in spPast <==> a == sp || Ancestor(dag, a, sp)
    requires found !! spPast && (forall x :: x in found ==> Reached(dag, parents, x))
    requires WorkDone(dag, spPast + found, parents, [])
    ensures found == MergeSet(PastMap(dag), parents, sp)
  {
    forall x
      ensures x in found <==> x in MergeSet(PastMap(dag), parents, sp)
    {
      ReachedIsNewPast(dag, parents, x);
      PastIsAncestry(dag, x, sp);
      if Reached(dag, parents, x) {
        ClosedHoldsReached(dag, parents, spPast + found, x);
      }
    }
  }

  /** How many listed blocks are ancestors of `h`. */
  method RankOf(dag: BlockDag, reach: Reachability, ms: seq<Hash>, h: Hash) returns (rank: nat)
    requires WellFormed(dag) && Index(reach.nodes) && Agrees(reach.nodes, dag)
    requires Distinct(ms) && h in dag
    ensures rank == |Elements(ms) * PastMap(dag)[h]|
  {
    rank := 0;
    for i := 0 to |ms|
      invariant rank == |Elements(ms[..i]) * PastMap(dag)[h]|
    {
      var below := reach.IsAncestor(ms[i], h, dag);
      PastIsAncestry(dag, ms[i], h);
      RankStep(ms, i, PastMap(dag)[h]);
      if ms[i] != h && below {
        rank := rank + 1;
      }
    }
    assert ms[..|ms|] == ms;
  }

  lemma {:induction false} RankStep(ms: seq<Hash>, i: nat, p: set<Hash>)
    requires Distinct(ms) && i < |ms|
    ensures |Elements(ms[..i + 1]) * p| == |Elements(ms[..i]) * p| + if ms[i] in p then 1 else 0
  {
    assert Elements(ms[..i + 1]) == Elements(ms[..i]) + {ms[i]};
    assert ms[i] !in Elements(ms[..i]);
    if ms[i] in p {
      assert Elements(ms[..i + 1]) * p == Elements(ms[..i]) * p + {ms[i]};
    } else {
      assert Elements(ms[..i + 1]) * p == Elements(ms[..i]) * p;
    }
  }

  /** The rank of every listed block. */
  method RankAll(dag: BlockDag, reach: Reachability, ms: seq<Hash>) returns (rank: map<Hash, nat>)
    requires WellFormed(dag) && Index(reach.nodes) && Agrees(reach.nodes, dag)
    requires Distinct(ms) && Elements(ms) <= dag.Keys
    ensures rank.Keys == Elements(ms)
    ensures forall h :: h in rank ==> rank[h] == |Elements(ms) * PastMap(dag)[h]|
  {
    rank := map[];
    for i := 0 to |ms|
      invariant IsRanking(PastMap(dag), Elements(ms), ms[..i], rank)
    {
      assert ms[i] in Elements(ms);
      var r := RankOf(dag, reach, ms, ms[i]);
      RankingStep(PastMap(dag), Elements(ms), ms, i, rank, r);
      rank := rank[ms[i] := r];
    }
    assert ms[..|ms|] == ms;
  }

  /** `rank` gives every listed block its rank within `s`. */
  ghost predicate IsRanking(past: Pasts, s: set<Hash>, listed: seq<Hash>, rank: map<Hash, nat>) {
    && rank.Keys == Elements(listed)
    && forall h :: h in rank ==> h in past && rank[h] == |s * past[h]|
  }

  lemma {:induction false} RankingStep(past: Pasts, s: set<Hash>, ms: seq<Hash>, i: nat, rank: map<Hash, nat>, r: nat)
    requires i < |ms| && IsRanking(past, s, ms[..i], rank) && ms[i] in past && r == |s * past[ms[i]]|
    ensures IsRanking(past, s, ms[..i + 1], rank[ms[i] := r])
  {
    assert Elements(ms[..i + 1]) == Elements(ms[..i]) + {ms[i]};
  }

  /** Sort by (number of listed ancestors, hash). The result depends on the set alone. */
  method TopologicalOrder(dag: BlockDag, reach: Reachability, ms: seq<Hash>) returns (order: seq<Hash>)
    requires WellFormed(dag) && Index(reach.nodes) && Agrees(reach.nodes, dag)
    requires Distinct(ms) && Elements(ms) <= dag.Keys
    ensures order == MergeOrder(PastMap(dag), Elements(ms))
  {
    var rank := RankAll(dag, reach, ms);
    assert forall h :: h in ms ==> h in Elements(ms);
    order := SortByRank(rank, ms);
    SortIsMergeOrder(PastMap(dag), rank, ms, Elements(ms));
  }

  lemma {:induction false} SortIsMergeOrder(past: Pasts, rank: map<Hash, nat>, ms: seq<Hash>, s: set<Hash>)
    requires Distinct(ms) && s == Elements(ms) && s <= past.Keys && rank.Keys == s
    requires forall h :: h in rank ==> rank[h] == |s * past[h]|
    ensures SortByRank(rank, ms) == MergeOrder(past, s)
  {
    assert rank == Ranks(past, s);
    SortRanked(rank, ms);
    MergeOrderUnique(past, s, SortByRank(rank, ms));
  }

  lemma {:induction false} ConcurrentIsAnticone(dag: BlockDag, x: Hash, y: Hash)
    requires WellFormed(dag) && x in dag && y in dag
    ensures Concurrent(PastMap(dag), x, y) <==> x != y && !Ancestor(dag, x, y) && !Ancestor(dag, y, x)
  {
    PastIsAncestry(dag, x, y);
    PastIsAncestry(dag, y, x);
  }

  /** The members of `blues` concurrent with `x`. */
  method AnticoneOf(dag: BlockDag, reach: Reachability, blues: set<Hash>, x: Hash) returns (anticone: set<Hash>)
    requires WellFormed(dag) && Index(reach.nodes) && Agrees(reach.nodes, dag)
    requires blues <= dag.Keys && x in dag
    ensures anticone == Anticone(PastMap(dag), blues, x)
  {
    anticone := {};
    var todo := blues;
    while todo != {}
      invariant todo <= blues && anticone == Anticone(PastMap(dag), blues - todo, x)
    {
      var b :| b in todo;
      var apart := reach.InAnticone(b, x, dag);
      ConcurrentIsAnticone(dag, b, x);
      AnticoneStep(PastMap(dag), blues - todo, b, x);
      assert blues - (todo - {b}) == (blues - todo) + {b};
      if apart {
        anticone := anticone + {b};
      }
      todo := todo - {b};
    }
    assert blues - {} == blues;
  }

  lemma {:induction false} AnticoneStep(past: Pasts, s: set<Hash>, b: Hash, x: Hash)
    ensures Anticone(past, s + {b}, x) == Anticone(past, s, x) + if Concurrent(past, b, x) then {b} else {}
  {
  }

  /** The k-cluster rule for one candidate: among blues that are a k-cluster, whether it can join
      and leave them one. */
  method ColorCandidateBlue(dag: BlockDag, reach: Reachability, blues: set<Hash>, candidate: Hash) returns (blue: bool)
    requires WellFormed(dag) && Index(reach.nodes) && Agrees(reach.nodes, dag)
    requires blues <= dag.Keys && candidate in dag
    ensures blue <==> IsBlue(PastMap(dag), blues, candidate)
    ensures KCluster(PastMap(dag), blues) && candidate !in blues ==>
              (blue <==> KCluster(PastMap(dag), blues + {candidate}))
  {
    if KCluster(PastMap(dag), blues) && candidate !in blues {
      BlueMeansJoining(PastMap(dag), blues, candidate);
    }
    var anticone := AnticoneOf(dag, reach, blues, candidate);
    if |anticone| > K {
      return false;
    }
    var todo := anticone;
    while todo != {}
      invariant todo <= anticone
      invariant forall d :: d in anticone && d !in todo ==> |Anticone(PastMap(dag), blues, d)| < K
    {
      var d :| d in todo;
      var theirs := AnticoneOf(dag, reach, blues, d);
      if |theirs| >= K {
        return false;
      }
      todo := todo - {d};
    }
    blue := true;
  }

  /** Colour the ordered mergeset against the selected parent's blues. */
  method ColorMergeset(dag: BlockDag, reach: Reachability, seed: set<Hash>, order: seq<Hash>)
    returns (blues: seq<Hash>, reds: seq<Hash>)
    requires WellFormed(dag) && Index(reach.nodes) && Agrees(reach.nodes, dag)
    requires seed <= dag.Keys && forall x :: x in order ==> x in dag
    ensures Colors(blues, reds) == ColorAll(PastMap(dag), seed, order)
  {
    var current := seed;
    blues, reds := [], [];
    for i := 0 to |order|
      invariant Colors(blues, reds) == ColorAll(PastMap(dag), seed, order[..i])
      invariant current == seed + Elements(blues) && current <= dag.Keys
    {
      assert order[..i + 1][..i] == order[..i] && order[..i + 1][i] == order[i];
      var blue := ColorCandidateBlue(dag, reach, current, order[i]);
      if blue {
        ghost var before := blues;
        current := current + {order[i]};
        blues := blues + [order[i]];
        assert Elements(blues) == Elements(before) + {order[i]};
      } else {
        reds := reds + [order[i]];
      }
    }
    assert order[..|order|] == order;
  }

  /** The data of a new block with these parents, refused when its mergeset is over the cap. */
  method TryComputeGhostdagData(dag: BlockDag, gd: Coloring, reach: Reachability, parents: seq<Hash>, cap: nat)
    returns (data: Option<GhostdagData>)
    requires WellFormed(dag) && Consistent(dag, PastMap(dag), gd)
    requires Index(reach.nodes) && Agrees(reach.nodes, dag)
    requires forall p :: p in parents ==> p in dag
    ensures DataReady(PastMap(dag), gd, parents)
    ensures data.None? <==>
            Heaviest(gd, parents).Some? && |MergeSet(PastMap(dag), parents, Heaviest(gd, parents).value)| > cap
    ensures data.Some? ==> data.value == Data(PastMap(dag), gd, parents)
  {
    ConsistentIsReady(dag, PastMap(dag), gd, parents);
    var best := Heaviest(gd, parents);
    if best.None? {
      return Some(GENESIS_DATA);
    }
    var sp := best.value;
    var ms := Mergeset(dag, parents, sp);
    DistinctCount(ms);
    if |ms| > cap {
      return None;
    }
    MergeSetInside(PastMap(dag), parents, sp);
    var d := DataForMergeset(dag, gd, reach, sp, ms);
    data := Some(d);
  }

  method DataForMergeset(dag: BlockDag, gd: Coloring, reach: Reachability, sp: Hash, ms: seq<Hash>)
    returns (data: GhostdagData)
    requires WellFormed(dag) && Consistent(dag, PastMap(dag), gd)
    requires Index(reach.nodes) && Agrees(reach.nodes, dag)
    requires sp in gd && Distinct(ms) && Elements(ms) <= dag.Keys
    ensures data == DataWith(PastMap(dag), gd, sp, Elements(ms))
  {
    ConsistentSelectsFirst(dag, PastMap(dag), gd);
    var seed := MaterializedBlues(gd, sp);
    BluesInPast(dag, PastMap(dag), gd, sp);
    var order := TopologicalOrder(dag, reach, ms);
    var blues, reds := ColorMergeset(dag, reach, seed, order);
    data := GhostdagData(gd[sp].blueScore + |[sp] + blues|, Some(sp), [sp] + blues, reds);
  }
}
