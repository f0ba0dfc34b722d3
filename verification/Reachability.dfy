/** The reachability oracle (src/reachability.rs): an index updated in place whose answers
    are those of a plain search over parent edges. */
module ReachabilityOracle {
  import opened Types
  import opened Lists
  import opened Dag
  import opened Forest
  import opened Reindex
  import opened ReindexLoops
  import opened Sums

  /** Enough room for `n` blocks and one more below the end of the interval space. */
  predicate FitsInSpace(n: nat) {
    SPACE_START + SCALE * (n + 1) < SPACE_END
  }

  /** The same blocks with the same tree, the same covering-set members and the same chain
      answers; labels may differ. */
  ghost predicate SameAnswers(n0: Nodes, n1: Nodes) {
    && n1.Keys == n0.Keys
    && (forall h :: h in n0 ==> n1[h].treeParent == n0[h].treeParent && n1[h].treeChildren == n0[h].treeChildren)
    && (forall a, b :: a in n0 && b in n0 ==> (ChainReaches(n1, a, b) <==> ChainReaches(n0, a, b)))
    && (forall a, e :: a in n0 ==> (e in n1[a].fcs <==> e in n0[a].fcs))
  }

  /** `n1` is `n0` plus the new leaf `h` under `parent` (or as a root). */
  ghost predicate Grafted(n0: Nodes, n1: Nodes, parent: Option<Hash>, h: Hash) {
    && h !in n0
    && n1.Keys == n0.Keys + {h}
    && (parent.Some? ==> parent.value in n0)
    && TreeOf(n1) == TreeOf(n0)[h := parent]
    && n1[h].fcs == [] && n1[h].nextFree == n1[h].interval.start
    && (forall a, e :: a in n0 ==> (e in n1[a].fcs <==> e in n0[a].fcs))
    && (forall a, b :: a in n0 && b in n0 ==> (ChainReaches(n1, a, b) <==> ChainReaches(n0, a, b)))
    && (forall a :: a in n0 ==> (ChainReaches(n1, a, h) <==> parent.Some? && ChainReaches(n0, a, parent.value)))
    && (forall b :: b in n0 ==> !ChainReaches(n1, h, b))
  }

  /** `m` is `n1` with `h` added to the covering set of every block of `done` that had no
      entry covering `h`, and to no other. */
  ghost predicate Recorded(n1: Nodes, m: Nodes, h: Hash, done: set<Hash>) {
    && SameForest(n1, m)
    && h in n1
    && (forall a, e :: a in n1 && e != h ==> (e in m[a].fcs <==> e in n1[a].fcs))
    && (forall a :: a in n1 && h in m[a].fcs ==> a in done)
    && (forall a :: a in n1 && a in done && a != h ==> Covers(m, m[a].fcs, m[h].interval))
  }

  /** The index entry of a new block is right: it is answered to be reached by exactly its
      selected parent's inclusive past and by the blocks it merges. */
  lemma {:induction false} MergedAnswers(n0: Nodes, n1: Nodes, m: Nodes, parent: Option<Hash>, h: Hash, done: set<Hash>,
                      past: map<Hash, set<Hash>>, hpast: set<Hash>)
    requires Answers(n0, past) && Grafted(n0, n1, parent, h) && Recorded(n1, m, h, done)
    requires forall a :: a in n0 ==>
               (a in hpast <==> a in done || (parent.Some? && (a == parent.value || a in past[parent.value])))
    requires h !in hpast && forall b :: b in n0 ==> h !in past[b]
    ensures Answers(m, past[h := hpast])
  {
    var q := past[h := hpast];
    forall a, b | a in m && b in m
      ensures Reaches(m, a, b) <==> a == b || a in q[b]
    {
      if a == h {
        MergedNewSource(n0, n1, m, parent, h, done, b);
      } else if b == h {
        MergedNewTarget(n0, n1, m, parent, h, done, past, hpast, a);
      } else {
        MergedOldPair(n0, n1, m, parent, h, done, a, b);
        assert Reaches(n0, a, b) <==> a == b || a in past[b];
      }
    }
  }

  lemma {:induction false} MergedNewSource(n0: Nodes, n1: Nodes, m: Nodes, parent: Option<Hash>, h: Hash,
                                           done: set<Hash>, b: Hash)
    requires Grafted(n0, n1, parent, h) && Recorded(n1, m, h, done) && b in m
    ensures Reaches(m, h, b) <==> h == b
  {
    if b != h {
      assert !ChainReaches(n1, h, b);
      assert forall e :: e in m[h].fcs ==> e == h;
    }
  }

  lemma {:induction false} MergedOldPair(n0: Nodes, n1: Nodes, m: Nodes, parent: Option<Hash>, h: Hash,
                                         done: set<Hash>, a: Hash, b: Hash)
    requires Grafted(n0, n1, parent, h) && Recorded(n1, m, h, done) && a in n0 && b in n0
    ensures Reaches(m, a, b) <==> Reaches(n0, a, b)
  {
    assert ChainReaches(n1, a, b) <==> ChainReaches(n0, a, b);
    if Covers(m, m[a].fcs, m[b].interval) {
      var e :| e in m[a].fcs && e in m && m[e].interval.Contains(m[b].interval);
      assert ChainReaches(n1, e, b);
      assert e != h && e in n0[a].fcs && ChainReaches(n0, e, b);
    }
    if Covers(n0, n0[a].fcs, n0[b].interval) {
      var e :| e in n0[a].fcs && e in n0 && n0[e].interval.Contains(n0[b].interval);
      assert ChainReaches(n0, e, b) && ChainReaches(n1, e, b);
      assert e in m[a].fcs;
    }
  }

  lemma {:induction false} MergedNewTarget(n0: Nodes, n1: Nodes, m: Nodes, parent: Option<Hash>, h: Hash,
                                           done: set<Hash>, past: map<Hash, set<Hash>>, hpast: set<Hash>, a: Hash)
    requires Answers(n0, past) && Grafted(n0, n1, parent, h) && Recorded(n1, m, h, done) && a in n0
    requires a in hpast <==> a in done || (parent.Some? && (a == parent.value || a in past[parent.value]))
    ensures Reaches(m, a, h) <==> a in hpast
  {
    assert ChainReaches(n1, a, h) <==> parent.Some? && ChainReaches(n0, a, parent.value);
    assert parent.Some? ==> (Reaches(n0, a, parent.value) <==> a == parent.value || a in past[parent.value]);
    if Covers(m, m[a].fcs, m[h].interval) {
      var e :| e in m[a].fcs && e in m && m[e].interval.Contains(m[h].interval);
      if e != h {
        assert ChainReaches(n1, e, h);
        assert e in n0[a].fcs && ChainReaches(n0, e, parent.value);
      }
    }
    if parent.Some? && Covers(n0, n0[a].fcs, n0[parent.value].interval) {
      var e :| e in n0[a].fcs && e in n0 && n0[e].interval.Contains(n0[parent.value].interval);
      assert ChainReaches(n0, e, parent.value) && ChainReaches(n1, e, h);
      assert e in m[a].fcs && m[e].interval.Contains(m[h].interval);
    }
  }

  lemma {:induction false} SameAnswersGrafted(n0: Nodes, n1: Nodes, n2: Nodes, parent: Option<Hash>, h: Hash)
    requires SameAnswers(n0, n1) && Grafted(n1, n2, parent, h)
    ensures Grafted(n0, n2, parent, h)
  {
    assert TreeOf(n1) == TreeOf(n0);
  }

  lemma {:induction false} SameAnswersReach(n0: Nodes, n1: Nodes, a: Hash, b: Hash)
    requires SameAnswers(n0, n1) && a in n0 && b in n0
    ensures Reaches(n1, a, b) <==> Reaches(n0, a, b)
  {
    SameCover(n0, n1, n0[a].fcs, n1[a].fcs, b);
  }

  /** The root stack: one entry per placed root, each with its window's start. */
  ghost predicate RootStack(nodes: Nodes, stack: seq<(Hash, nat)>, rootWin: map<Hash, nat>) {
    && (forall i :: 0 <= i < |stack| ==> stack[i].0 in nodes && IsRoot(nodes, stack[i].0) && stack[i].0 in rootWin)
    && (forall i, j :: 0 <= i < j < |stack| ==> stack[i].0 != stack[j].0)
    && (forall r :: r in rootWin ==> (r, rootWin[r]) in stack)
  }

  lemma {:induction false} RootStackPush(nodes: Nodes, stack: seq<(Hash, nat)>, rootWin: map<Hash, nat>, r: Hash,
                                         v: nat)
    requires RootStack(nodes, stack, rootWin) && r in nodes && IsRoot(nodes, r) && r !in rootWin
    ensures RootStack(nodes, stack + [(r, v)], rootWin[r := v])
  {
    var t := stack + [(r, v)];
    assert t[|stack|] == (r, v);
    var w := rootWin[r := v];
    forall x | x in w
      ensures (x, w[x]) in t
    {
      if x != r {
        assert (x, rootWin[x]) in stack;
      }
    }
  }

  lemma {:induction false} RootStackWalks(nodes: Nodes, stack: seq<(Hash, nat)>, rootWin: map<Hash, nat>)
    requires Nested(nodes) && RootStack(nodes, stack, rootWin)
    requires forall r :: r in nodes && IsRoot(nodes, r) ==> r in rootWin
    ensures WindowWalk(nodes, nodes, {}, stack, rootWin)
  {
  }

  /** Roots are placed one by one, each window as long as `SCALE` units per block counted. */
  ghost predicate RootWalk(nodes: Nodes, roots: set<Hash>, stack: seq<(Hash, nat)>, rootWin: map<Hash, nat>,
                           counted: set<Hash>, cursor: nat)
  {
    && Nested(nodes)
    && (forall r :: r in roots ==> r in nodes && IsRoot(nodes, r) && r !in rootWin)
    && RootsPlaced(nodes, rootWin, cursor)
    && RootStack(nodes, stack, rootWin)
    && counted <= nodes.Keys && cursor == SPACE_START + SCALE * |counted|
    && (forall x, r :: x in counted && r in roots ==> !ChainReaches(nodes, r, x))
  }

  lemma {:induction false} RootsPlacedPush(nodes: Nodes, rootWin: map<Hash, nat>, cursor: nat, r: Hash)
    requires Nested(nodes) && RootsPlaced(nodes, rootWin, cursor) && SPACE_START <= cursor
    requires r in nodes && IsRoot(nodes, r) && r !in rootWin
    ensures RootsPlaced(nodes, rootWin[r := cursor], cursor + SCALE * Size(nodes, r))
  {
  }

  lemma {:induction false} RootStep(nodes: Nodes, roots: set<Hash>, stack: seq<(Hash, nat)>, rootWin: map<Hash, nat>,
                 counted: set<Hash>, cursor: nat, r: Hash)
    requires RootWalk(nodes, roots, stack, rootWin, counted, cursor) && r in roots
    ensures RootWalk(nodes, roots - {r}, stack + [(r, cursor)], rootWin[r := cursor],
                     counted + Subtree(nodes, r), cursor + SCALE * Size(nodes, r))
  {
    SubtreeCount(nodes, r);
    assert Subtree(nodes, r) !! counted;
    forall x, t | x in Subtree(nodes, r) && t in roots && t != r
      ensures !ChainReaches(nodes, t, x)
    {
      RootsDisjoint(nodes, r, t);
    }
    RootStackPush(nodes, stack, rootWin, r, cursor);
    RootsPlacedPush(nodes, rootWin, cursor, r);
  }

  lemma {:induction false} ReindexSame(nodes: Nodes, m: Nodes, cursor: nat, bound: nat)
    requires Index(nodes) && Labelled(nodes, m, cursor) && Below(nodes, bound)
    requires forall a, x :: a in m && x in m[a].fcs ==> x in m
    ensures SameAnswers(nodes, Resorted(m))
  {
    var r := Resorted(m);
    forall h | h in nodes
      ensures r[h].treeParent == nodes[h].treeParent && r[h].treeChildren == nodes[h].treeChildren
      ensures forall e :: e in r[h].fcs <==> e in nodes[h].fcs
    {
      assert LabelledAt(nodes, m, h);
      assert r[h].fcs == SortByStart(m, m[h].fcs);
    }
    forall a, b | a in nodes && b in nodes
      ensures ChainReaches(r, a, b) <==> ChainReaches(nodes, a, b)
    {
      ReindexKeepsAnswers(nodes, m, cursor, bound, a, b);
    }
  }

  lemma {:induction false} RecordedTree(n1: Nodes, m: Nodes, h: Hash, done: set<Hash>)
    requires Recorded(n1, m, h, done)
    ensures TreeOf(m) == TreeOf(n1)
  {
    assert forall a :: a in n1 ==> m[a].treeParent == n1[a].treeParent;
  }

  lemma {:induction false} RecordedStart(n1: Nodes, h: Hash)
    requires h in n1 && Unlisted(n1, h)
    ensures Recorded(n1, n1, h, {})
  {
  }

  /** Recording `h` in one more covering set. */
  lemma {:induction false} RecordedStep(n1: Nodes, before: Nodes, after: Nodes, h: Hash, done: set<Hash>, m: Hash)
    requires Recorded(n1, before, h, done) && m in n1 && m != h && SameForest(before, after)
    requires forall a :: a in before && a != m ==> after[a] == before[a]
    requires Covers(after, after[m].fcs, after[h].interval)
    requires after[m].fcs == before[m].fcs
             || forall e :: e in after[m].fcs <==> e in before[m].fcs || e == h
    ensures Recorded(n1, after, h, done + {m})
  {
    forall a | a in n1 && a in done + {m} && a != h
      ensures Covers(after, after[a].fcs, after[h].interval)
    {
      if a != m {
        assert Covers(before, before[a].fcs, before[h].interval);
        var e :| e in before[a].fcs && e in before && before[e].interval.Contains(before[h].interval);
        assert e in after[a].fcs && e in after && after[e].interval.Contains(after[h].interval);
      }
    }
  }

  /** No covering set lists `h`. */
  ghost predicate Unlisted(nodes: Nodes, h: Hash) {
    forall a :: a in nodes ==> h !in nodes[a].fcs
  }

  /** A block that was not indexed before a graft is in no covering set after it. */
  lemma {:induction false} GraftUnlisted(n0: Nodes, n1: Nodes, parent: Option<Hash>, h: Hash)
    requires CoversAscend(n0) && Grafted(n0, n1, parent, h)
    ensures Unlisted(n1, h)
  {
    forall a | a in n0
      ensures h !in n1[a].fcs
    {
      assert Ascending(n0, n0[a].fcs);
    }
  }

  lemma {:induction false} PlantGrafts(nodes: Nodes, start: nat, h: Hash)
    requires Index(nodes) && h !in nodes && Below(nodes, start) && SPACE_START <= start
    ensures Grafted(nodes, Plant(nodes, start, h), None, h)
  {
    var m := Plant(nodes, start, h);
    forall a | a in nodes
      ensures !ChainReaches(m, a, h) && !ChainReaches(m, h, a)
    {
      assert WellSized(nodes[a]);
    }
  }

  lemma {:induction false} CarveGrafts(nodes: Nodes, parent: Hash, h: Hash)
    requires Index(nodes) && parent in nodes && h !in nodes && HasRoom(nodes[parent])
    ensures Grafted(nodes, Carve(nodes, parent, h), Some(parent), h)
  {
    CarveAnswers(nodes, parent, h);
  }

  lemma {:induction false} CarveBelow(nodes: Nodes, parent: Hash, h: Hash, bound: nat)
    requires Below(nodes, bound) && parent in nodes && HasRoom(nodes[parent])
    ensures Below(Carve(nodes, parent, h), bound)
  {
  }

  /** The tree parent a new block gets: its selected parent if that is indexed. */
  function TreeParent(nodes: Nodes, selectedParent: Option<Hash>): Option<Hash> {
    if selectedParent.Some? && selectedParent.value in nodes then selectedParent else None
  }

  /** Restricted to the index, `hpast` is the inclusive past of the tree parent plus the
      mergeset, and nobody descends from `h` yet. */
  ghost predicate TruePast(nodes: Nodes, past: map<Hash, set<Hash>>, parent: Option<Hash>, mergeset: seq<Hash>,
                           h: Hash, hpast: set<Hash>)
    requires nodes.Keys <= past.Keys
  {
    && (forall a :: a in nodes ==>
          (a in hpast <==> a in mergeset || (parent.Some? && parent.value in past
                                             && (a == parent.value || a in past[parent.value]))))
    && h !in mergeset && h !in hpast
    && forall b :: b in nodes ==> h !in past[b]
  }

  /** Interval containment answers chain ancestry as recorded in `chain`. */
  ghost predicate ChainAnswers(nodes: Nodes, chain: map<Hash, set<Hash>>) {
    && nodes.Keys <= chain.Keys
    && forall a, b :: a in nodes && b in nodes ==> (ChainReaches(nodes, a, b) <==> a in chain[b])
  }

  /** The chain of a new block: itself and its tree parent's chain. */
  ghost function NewChain(chain: map<Hash, set<Hash>>, parent: Option<Hash>, h: Hash): set<Hash> {
    if parent.Some? && parent.value in chain then chain[parent.value] + {h} else {h}
  }

  lemma {:induction false} MergedChain(n0: Nodes, n1: Nodes, m: Nodes, parent: Option<Hash>, h: Hash, done: set<Hash>,
                    chain: map<Hash, set<Hash>>)
    requires Grafted(n0, n1, parent, h) && Recorded(n1, m, h, done) && ChainAnswers(n0, chain)
    requires forall b :: b in n0 ==> h !in chain[b]
    ensures ChainAnswers(m, chain[h := NewChain(chain, parent, h)])
  {
    var q := chain[h := NewChain(chain, parent, h)];
    forall a, b | a in m && b in m
      ensures ChainReaches(m, a, b) <==> a in q[b]
    {
      assert ChainReaches(m, a, b) <==> ChainReaches(n1, a, b);
      if a in n0 && b in n0 {
        assert ChainReaches(n1, a, b) <==> ChainReaches(n0, a, b);
      } else if a in n0 {
        assert parent.Some? ==> (ChainReaches(n0, a, parent.value) <==> a in chain[parent.value]);
      }
    }
  }

  /** Answers between the blocks of `m`, all of them in `n0`, are those of `n0`. */
  ghost predicate SameBetweenSurvivors(n0: Nodes, m: Nodes) {
    && m.Keys <= n0.Keys
    && (forall a, b :: a in m && b in m ==> (ChainReaches(m, a, b) <==> ChainReaches(n0, a, b)))
    && (forall a, b :: a in m && b in m ==> (Reaches(m, a, b) <==> Reaches(n0, a, b)))
  }

  lemma {:induction false} DropSurvivors(nodes: Nodes, out: set<Hash>, bound: nat)
    requires Index(nodes) && Droppable(nodes, out) && Below(nodes, bound)
    ensures Index(Drop(nodes, out)) && Below(Drop(nodes, out), bound)
    ensures SameBetweenSurvivors(nodes, Drop(nodes, out))
  {
    DropIndex(nodes, out);
    var m := Drop(nodes, out);
    forall a, b | a in m && b in m
      ensures ChainReaches(m, a, b) <==> ChainReaches(nodes, a, b)
      ensures Reaches(m, a, b) <==> Reaches(nodes, a, b)
    {
      DropAnswers(nodes, out, a, b);
    }
  }

  lemma {:induction false} LeafIsDroppable(nodes: Nodes, h: Hash)
    requires h in nodes && nodes[h].treeChildren == []
    ensures Droppable(nodes, {h})
  {
  }

  /** The three updates of a leaf removal amount to dropping it. */
  lemma {:induction false} LeafDropShape(nodes: Nodes, h: Hash, m: Nodes)
    requires Linked(nodes) && h in nodes && nodes[h].treeChildren == []
    requires m.Keys == nodes.Keys - {h}
    requires forall a :: a in m ==>
               m[a] == nodes[a].(fcs := Filter(nodes[a].fcs, {h}),
                                 treeChildren := if nodes[h].treeParent == Some(a)
                                                 then Filter(nodes[a].treeChildren, {h}) else nodes[a].treeChildren)
    ensures m == Drop(nodes, {h})
  {
    forall a | a in m
      ensures m[a] == Drop(nodes, {h})[a]
    {
      assert UpLink(nodes, a) && DownLink(nodes, a);
      if nodes[h].treeParent != Some(a) {
        FilterNothing(nodes[a].treeChildren, {h});
      }
    }
  }

  /** A removed leaf leaves a sound index with the rest of the tree and its answers. */
  lemma {:induction false} LeafGone(nodes: Nodes, h: Hash, bound: nat)
    requires Index(nodes) && Below(nodes, bound) && h in nodes && nodes[h].treeChildren == []
    ensures IsLeaf(TreeOf(nodes), h) && TreeOf(Drop(nodes, {h})) == TreeOf(nodes) - {h}
    ensures Index(Drop(nodes, {h})) && Below(Drop(nodes, {h}), bound)
    ensures SameBetweenSurvivors(nodes, Drop(nodes, {h}))
  {
    LeafHasNoChildren(nodes, h);
    DropLeafTree(nodes, h);
    LeafIsDroppable(nodes, h);
    DropSurvivors(nodes, {h}, bound);
  }

  lemma {:induction false} RetainShape(nodes: Nodes, keep: set<Hash>, m: Nodes)
    requires Linked(nodes)
    requires m.Keys == nodes.Keys * keep
    requires forall h :: h in m ==>
               m[h] == nodes[h].(treeParent := if nodes[h].treeParent.Some? && nodes[h].treeParent.value !in keep
                                               then None else nodes[h].treeParent,
                                 treeChildren := Filter(nodes[h].treeChildren, nodes.Keys - keep),
                                 fcs := Filter(nodes[h].fcs, nodes.Keys - keep))
    ensures m == Drop(nodes, nodes.Keys - keep)
  {
    forall h | h in m
      ensures m[h] == Drop(nodes, nodes.Keys - keep)[h]
    {
      assert UpLink(nodes, h);
    }
  }

  lemma {:induction false} SuffixIsDroppable(nodes: Nodes, keep: set<Hash>)
    requires forall a, b :: a in nodes && b in nodes && a in keep && Reaches(nodes, a, b) ==> b in keep
    ensures Droppable(nodes, nodes.Keys - keep)
  {
  }

  /** The index agrees with path ancestry for every pair of indexed blocks. */
  ghost predicate Agrees(nodes: Nodes, dag: BlockDag) {
    Acyclic(dag) && nodes.Keys <= dag.Keys && Answers(nodes, PastMap(dag))
  }

  lemma {:induction false} AgreesMeansAncestry(nodes: Nodes, dag: BlockDag)
    requires Agrees(nodes, dag)
    ensures forall x, y :: x in nodes && y in nodes ==> (Reaches(nodes, x, y) <==> x == y || Ancestor(dag, x, y))
  {
    forall x, y | x in nodes && y in nodes
      ensures Reaches(nodes, x, y) <==> x == y || Ancestor(dag, x, y)
    {
      assert Reaches(nodes, x, y) <==> x == y || x in PastMap(dag)[y];
    }
  }

  /** When nothing is waiting every node has its size. */
  lemma {:induction false} WalkIsComplete(nodes: Nodes, sizes: map<Hash, nat>, bound: nat)
    requires Below(nodes, bound) && SizingWalk(nodes, sizes, [])
    ensures sizes.Keys == nodes.Keys && forall h :: h in nodes ==> sizes[h] == Size(nodes, h) == |Subtree(nodes, h)|
  {
    forall h | h in nodes
      ensures h in sizes && Size(nodes, h) == |Subtree(nodes, h)|
    {
      RootsAndChildrenAreAll(nodes, sizes.Keys, h, bound);
      SubtreeCount(nodes, h);
    }
  }

  class Reachability {
    var nodes: Nodes
    var nextRootStart: nat

    ghost predicate Valid()
      reads this
    {
      Index(nodes) && Below(nodes, nextRootStart) && SPACE_START <= nextRootStart
    }

    constructor ()
      ensures Valid() && nodes == map[] && nextRootStart == SPACE_START
    {
      nodes := map[];
      nextRootStart := SPACE_START;
    }

    // ----- Queries -----

    /** Where `target` falls among the interval starts of an ascending covering set. */
    method PartitionPoint(fcs: seq<Hash>, target: nat) returns (pos: nat)
      requires Laminar(nodes) && Ascending(nodes, fcs)
      ensures Splits(nodes, fcs, target, pos)
    {
      var lo, hi := 0, |fcs|;
      while lo < hi
        invariant 0 <= lo <= hi <= |fcs|
        invariant forall i :: 0 <= i < lo ==> nodes[fcs[i]].interval.start <= target
        invariant forall i :: hi <= i < |fcs| ==> target < nodes[fcs[i]].interval.start
      {
        var mid := (lo + hi) / 2;
        if nodes[fcs[mid]].interval.start <= target {
          forall i | 0 <= i < mid
            ensures nodes[fcs[i]].interval.start <= target
          {
            assert WellSized(nodes[fcs[i]]);
          }
          lo := mid + 1;
        } else {
          forall i | mid < i < |fcs|
            ensures target < nodes[fcs[i]].interval.start
          {
            assert WellSized(nodes[fcs[mid]]);
          }
          hi := mid;
        }
      }
      pos := lo;
    }

    /** Does some entry of the covering set of `block` contain `target`? One candidate decides. */
    method FcsContainsCover(block: Hash, target: Interval) returns (covered: bool)
      requires Index(nodes) && block in nodes && target.start <= target.end
      ensures covered <==> Covers(nodes, nodes[block].fcs, target)
    {
      var fcs := nodes[block].fcs;
      assert Ascending(nodes, fcs);
      var pos := PartitionPoint(fcs, target.start);
      OnlyCandidate(nodes, fcs, target, pos);
      if pos == 0 {
        return false;
      }
      covered := nodes[fcs[pos - 1]].interval.Contains(target);
    }

    /** Strict ancestry of any two blocks: by the index when it holds both, else by search. */
    method IsAncestor(a: Hash, b: Hash, dag: BlockDag) returns (yes: bool)
      requires Index(nodes) && Agrees(nodes, dag)
      ensures yes <==> Ancestor(dag, a, b)
    {
      if a in nodes && b in nodes {
        if a == b {
          return false;
        }
        assert Reaches(nodes, a, b) <==> a == b || a in PastMap(dag)[b];
        if nodes[a].interval.Contains(nodes[b].interval) {
          return true;
        }
        yes := FcsContainsCover(a, nodes[b].interval);
      } else {
        var found := BfsAncestors(dag, b);
        yes := a in found;
      }
    }

    method InAnticone(x: Hash, y: Hash, dag: BlockDag) returns (yes: bool)
      requires Index(nodes) && Agrees(nodes, dag)
      ensures yes <==> x != y && !Ancestor(dag, x, y) && !Ancestor(dag, y, x)
    {
      var up := IsAncestor(x, y, dag);
      var down := IsAncestor(y, x, dag);
      yes := x != y && !up && !down;
    }

    /** Being above in the tree, itself included, when both blocks are indexed; otherwise no
        answer. */
    method IsChainAncestor(a: Hash, b: Hash) returns (answer: Option<bool>)
      ensures answer == if a in nodes && b in nodes then Some(ChainReaches(nodes, a, b)) else None
      ensures Valid() && answer.Some? ==> answer.value == AboveInTree(TreeOf(nodes), a, b)
    {
      if a in nodes && b in nodes {
        if Valid() {
          ContainmentIsTree(nodes, a, b, nextRootStart);
        }
        answer := Some(nodes[a].interval.Contains(nodes[b].interval));
      } else {
        answer := None;
      }
    }

    // ----- Insertion -----

    /** Register a block; a known block is left alone. If `hpast` is its true past, every
        answer is then right for the extended ancestry and the extended chains. */
    method AddBlock(h: Hash, selectedParent: Option<Hash>, mergeset: seq<Hash>,
                    ghost past: map<Hash, set<Hash>>, ghost hpast: set<Hash>, ghost chain: map<Hash, set<Hash>>)
      requires Valid() && Answers(nodes, past) && ChainAnswers(nodes, chain)
      requires h !in nodes ==> TruePast(nodes, past, TreeParent(nodes, selectedParent), mergeset, h, hpast)
      requires forall b :: b in nodes ==> h in chain[b] ==> h in nodes
      modifies this
      ensures Valid()
      ensures h in old(nodes) ==> nodes == old(nodes) && nextRootStart == old(nextRootStart)
      ensures h !in old(nodes) ==> TreeOf(nodes) == TreeOf(old(nodes))[h := TreeParent(old(nodes), selectedParent)]
      ensures h !in old(nodes) ==> nodes.Keys == old(nodes).Keys + {h}
      ensures h !in old(nodes) ==> Answers(nodes, past[h := hpast])
      ensures h !in old(nodes) ==>
                ChainAnswers(nodes, chain[h := NewChain(chain, TreeParent(old(nodes), selectedParent), h)])
      ensures old(nextRootStart) <= SPACE_END && FitsInSpace(|old(nodes)|) ==> nextRootStart <= SPACE_END
    {
      if h !in nodes {
        ghost var n0, parent := nodes, TreeParent(nodes, selectedParent);
        ghost var n1 := Place(h, selectedParent);
        GraftUnlisted(n0, n1, parent, h);
        ghost var done := MergeInto(h, mergeset);
        RecordedTree(n1, nodes, h, done);
        MergedChain(n0, n1, nodes, parent, h, done, chain);
        MergedAnswers(n0, n1, nodes, parent, h, done, past, hpast);
      }
    }

    /** Insert `h` under its selected parent, or as a root if that is not indexed. */
    method Place(h: Hash, selectedParent: Option<Hash>) returns (ghost n1: Nodes)
      requires Valid() && h !in nodes
      modifies this
      ensures Valid() && nodes == n1
      ensures Grafted(old(nodes), n1, TreeParent(old(nodes), selectedParent), h)
      ensures old(nextRootStart) <= SPACE_END && FitsInSpace(|old(nodes)|) ==> nextRootStart <= SPACE_END
    {
      if selectedParent.Some? && selectedParent.value in nodes {
        InsertTreeChild(selectedParent.value, h);
      } else {
        InsertRoot(h);
      }
      n1 := nodes;
    }

    /** Record the new leaf `h` in the covering set of every indexed block it merges. */
    method MergeInto(h: Hash, mergeset: seq<Hash>) returns (ghost done: set<Hash>)
      requires Valid() && h in nodes && nodes[h].nextFree == nodes[h].interval.start
      requires nodes[h].fcs == [] && Unlisted(nodes, h)
      modifies this
      ensures Valid() && nextRootStart == old(nextRootStart)
      ensures Recorded(old(nodes), nodes, h, done)
      ensures forall a :: a in done <==> a in mergeset && a in old(nodes) && a != h
    {
      done := {};
      RecordedStart(nodes, h);
      for i := 0 to |mergeset|
        invariant Valid() && nextRootStart == old(nextRootStart)
        invariant Recorded(old(nodes), nodes, h, done)
        invariant forall a :: a in done <==> a in mergeset[..i] && a in old(nodes) && a != h
      {
        var m := mergeset[i];
        assert mergeset[..i + 1] == mergeset[..i] + [m];
        if m != h && m in nodes {
          ghost var before := nodes;
          InsertToFcs(m, h);
          RecordedStep(old(nodes), before, nodes, h, done, m);
          done := done + {m};
        }
      }
      assert mergeset[..|mergeset|] == mergeset;
    }

    method InsertRoot(h: Hash)
      requires Valid() && h !in nodes
      modifies this
      ensures Valid() && Grafted(old(nodes), nodes, None, h)
      ensures FitsInSpace(|old(nodes)|) ==> nextRootStart <= SPACE_END
    {
      if nextRootStart + SCALE >= SPACE_END {
        ReindexAll();
      }
      ghost var n1 := nodes;
      var start := nextRootStart;
      nextRootStart := start + SCALE;
      nodes := Plant(nodes, start, h);
      PlantIndex(n1, start, h);
      PlantGrafts(n1, start, h);
      SameAnswersGrafted(old(nodes), n1, nodes, None, h);
    }

    /** Afterwards `h` is a tree child of `parent`: after a reindex the retry always fits, so
        the fallback to a fresh root is never taken. */
    method InsertTreeChild(parent: Hash, h: Hash)
      requires Valid() && parent in nodes && h !in nodes
      modifies this
      ensures Valid() && Grafted(old(nodes), nodes, Some(parent), h)
      ensures nodes[h].treeParent == Some(parent)
      ensures old(nextRootStart) <= SPACE_END && FitsInSpace(|old(nodes)|) ==> nextRootStart <= SPACE_END
    {
      ghost var n1 := nodes;
      var placed := TryPlaceChild(parent, h);
      if !placed {
        ReindexAll();
        n1 := nodes;
        placed := TryPlaceChild(parent, h);
        if !placed {
          assert false;
        }
      }
      SameAnswersGrafted(old(nodes), n1, nodes, Some(parent), h);
    }

    /** Carve a window for `h` out of the free space of `parent`, if there is any; it is then a
        new leaf there and all else is as it was. */
    method TryPlaceChild(parent: Hash, h: Hash) returns (placed: bool)
      requires parent in nodes
      modifies this
      ensures nextRootStart == old(nextRootStart)
      ensures placed <==> HasRoom(old(nodes)[parent])
      ensures nodes == if placed then Carve(old(nodes), parent, h) else old(nodes)
      ensures old(Valid()) && h !in old(nodes) ==> Valid() && (placed ==> Grafted(old(nodes), nodes, Some(parent), h))
    {
      if !HasRoom(nodes[parent]) {
        return false;
      }
      if Valid() && h !in nodes {
        CarveIndex(nodes, parent, h);
        CarveGrafts(nodes, parent, h);
        CarveBelow(nodes, parent, h, nextRootStart);
      }
      nodes := Carve(nodes, parent, h);
      placed := true;
    }

    /** Record the new leaf `h` in the future of `block` unless an entry covers it already. */
    method InsertToFcs(block: Hash, h: Hash)
      requires Valid() && block in nodes && h in nodes
      requires nodes[h].nextFree == nodes[h].interval.start
      modifies this
      ensures Valid() && nextRootStart == old(nextRootStart)
      ensures SameForest(old(nodes), nodes)
      ensures forall a :: a in nodes && a != block ==> nodes[a] == old(nodes)[a]
      ensures Covers(nodes, nodes[block].fcs, nodes[h].interval)
      ensures nodes[block].fcs == old(nodes)[block].fcs
              || forall e :: e in nodes[block].fcs <==> e in old(nodes)[block].fcs || e == h
    {
      var ni := nodes[h].interval;
      var covered := FcsContainsCover(block, ni);
      if covered {
        return;
      }
      var fcs := nodes[block].fcs;
      assert Ascending(nodes, fcs);
      var pos := PartitionPoint(fcs, ni.start);
      InsertAscends(nodes, fcs, h, pos);
      InsertAtMembers(fcs, pos, h);
      SetFcsIndex(nodes, block, InsertAt(fcs, pos, h));
      nodes := nodes[block := nodes[block].(fcs := fcs[..pos] + [h] + fcs[pos..])];
      assert h in nodes[block].fcs && nodes[h].interval.Contains(ni);
    }

    // ----- Removal -----

    /** Remove a block without tree children; anything else is left as it is. */
    method DropLeaf(h: Hash)
      requires Valid()
      modifies this
      ensures Valid() && nextRootStart == old(nextRootStart)
      ensures !(h in old(nodes) && old(nodes)[h].treeChildren == []) ==> nodes == old(nodes)
      ensures h in old(nodes) && old(nodes)[h].treeChildren == [] ==>
                nodes.Keys == old(nodes).Keys - {h} && SameBetweenSurvivors(old(nodes), nodes)
      ensures IsLeaf(TreeOf(old(nodes)), h) <==> h in old(nodes) && old(nodes)[h].treeChildren == []
      ensures TreeOf(nodes) == if IsLeaf(TreeOf(old(nodes)), h) then TreeOf(old(nodes)) - {h} else TreeOf(old(nodes))
    {
      if h !in nodes || nodes[h].treeChildren != [] {
        LeafHasNoChildren(nodes, h);
        return;
      }
      var parent := nodes[h].treeParent;
      nodes := nodes - {h};
      if parent.Some? && parent.value in nodes {
        nodes := nodes[parent.value :=
                         nodes[parent.value].(treeChildren := Without(nodes[parent.value].treeChildren, h))];
      }
      nodes := map a | a in nodes :: nodes[a].(fcs := Without(nodes[a].fcs, h));
      LeafDropShape(old(nodes), h, nodes);
      LeafGone(old(nodes), h, nextRootStart);
    }

    /** Keep only the blocks of `keep`, which must hold every indexed block reached from one of
        its members. Answers between survivors do not change. */
    method Retain(keep: set<Hash>)
      requires Valid()
      requires forall a, b :: a in nodes && b in nodes && a in keep && Reaches(nodes, a, b) ==> b in keep
      modifies this
      ensures Valid() && nodes.Keys == old(nodes).Keys * keep
      ensures SameBetweenSurvivors(old(nodes), nodes)
      ensures TreeOf(nodes) == CutTo(TreeOf(old(nodes)), keep)
      ensures nextRootStart <= old(nextRootStart)
    {
      var out := nodes.Keys - keep;
      nodes := map h | h in nodes && h in keep :: nodes[h];
      nodes := map h | h in nodes ::
        nodes[h].(treeParent := if nodes[h].treeParent.Some? && nodes[h].treeParent.value !in keep
                                then None else nodes[h].treeParent,
                  treeChildren := Filter(nodes[h].treeChildren, out),
                  fcs := Filter(nodes[h].fcs, out));
      RetainShape(old(nodes), keep, nodes);
      SuffixIsDroppable(old(nodes), keep);
      DropTree(old(nodes), keep);
      DropSurvivors(old(nodes), out, nextRootStart);
      nextRootStart := HighestEnd();
    }

    /** One past the highest label in use. */
    method HighestEnd() returns (top: nat)
      ensures SPACE_START <= top && Below(nodes, top)
      ensures forall bound :: SPACE_START <= bound && Below(nodes, bound) ==> top <= bound
    {
      top := SPACE_START;
      var todo := nodes.Keys;
      while todo != {}
        invariant todo <= nodes.Keys && SPACE_START <= top
        invariant forall h :: h in nodes && h !in todo ==> nodes[h].interval.end < top
        invariant top == SPACE_START || exists h :: h in nodes && top == nodes[h].interval.end + 1
      {
        var h :| h in todo;
        if nodes[h].interval.end + 1 > top {
          top := nodes[h].interval.end + 1;
        }
        todo := todo - {h};
      }
    }

    // ----- Reindexing -----

    /** Every root, waiting to be visited. */
    method QueueRoots() returns (stack: seq<(Hash, bool)>)
      requires Nested(nodes)
      ensures SizingWalk(nodes, map[], stack)
    {
      var roots := set h | h in nodes && IsRoot(nodes, h);
      stack := [];
      while roots != {}
        invariant roots <= nodes.Keys
        invariant forall i :: 0 <= i < |stack| ==> stack[i].0 in nodes && !stack[i].1
        invariant forall r :: r in nodes && IsRoot(nodes, r) ==> r in roots || OnStack(stack, 0, r)
      {
        var r :| r in roots;
        ghost var before := stack;
        stack := stack + [(r, false)];
        roots := roots - {r};
        assert stack[|before|].0 == r;
        forall t | OnStack(before, 0, t)
          ensures OnStack(stack, 0, t)
        {
          VisitOnStack(before, stack, 0, t);
        }
      }
    }

    /** The number of blocks in each node's subtree, by an explicit post-order stack. */
    method SubtreeSizes() returns (sizes: map<Hash, nat>)
      requires Valid()
      ensures sizes.Keys == nodes.Keys
      ensures forall h :: h in nodes ==> sizes[h] == Size(nodes, h) == |Subtree(nodes, h)|
    {
      var roots := QueueRoots();
      sizes := WalkSizes(roots);
      WalkIsComplete(nodes, sizes, nextRootStart);
    }

    /** Visit the queued nodes, and size each when its children are done. */
    method WalkSizes(queued: seq<(Hash, bool)>) returns (sizes: map<Hash, nat>)
      requires SizingWalk(nodes, map[], queued)
      ensures SizingWalk(nodes, sizes, [])
    {
      sizes := map[];
      var stack := queued;
      while stack != []
        invariant SizingWalk(nodes, sizes, stack)
        decreases StackWeight(nodes, stack)
      {
        var (node, processed) := stack[|stack| - 1];
        ghost var before := stack;
        stack := stack[..|stack| - 1];
        assert before == stack + [(node, processed)];
        if processed {
          LeaveStep(nodes, sizes, before, stack, node);
          var total := SizeFromChildren(node, sizes);
          sizes := sizes[node := total];
        } else {
          VisitStep(nodes, sizes, before, stack, node);
          stack := stack + [(node, true)] + Waiting(nodes[node].treeChildren);
        }
      }
    }

    method SizeFromChildren(node: Hash, sizes: map<Hash, nat>) returns (total: nat)
      requires Nested(nodes) && node in nodes && SizesSound(nodes, sizes)
      requires forall c :: c in nodes[node].treeChildren ==> c in sizes
      ensures total == Size(nodes, node)
    {
      total := 1;
      for i := 0 to |nodes[node].treeChildren|
        invariant total == 1 + ChildSpan(nodes, node, i)
      {
        total := total + sizes[nodes[node].treeChildren[i]];
      }
    }

    /** Recompute every label. The tree, the covering sets' members and every answer stay as
        they were; every node gets room for a child; the labels take `SCALE` units per block. */
    method ReindexAll()
      requires Valid()
      modifies this
      ensures Valid() && SameAnswers(old(nodes), nodes)
      ensures forall h :: h in nodes ==> HasRoom(nodes[h])
      ensures nextRootStart <= SPACE_START + SCALE * |nodes|
    {
      var sizes := SubtreeSizes();
      ghost var n0, bound := nodes, nextRootStart;
      var stack: seq<(Hash, nat)>, cursor: nat;
      ghost var rootWin: map<Hash, nat>;
      stack, cursor, rootWin := PlaceRoots(sizes);
      nextRootStart := cursor;
      AssignWindows(sizes, stack, rootWin, cursor, bound);
      ghost var m := nodes;
      ReindexKeepsIndex(n0, m, cursor, bound);
      ReindexSame(n0, m, cursor, bound);
      nodes := map k | k in nodes :: nodes[k].(fcs := SortByStart(nodes, nodes[k].fcs));
      assert nodes == Resorted(m);
    }

    /** Walk down from the queued roots, labelling every node with its window. */
    method AssignWindows(sizes: map<Hash, nat>, roots: seq<(Hash, nat)>, ghost rootWin: map<Hash, nat>,
                         ghost cursor: nat, ghost bound: nat)
      requires WindowWalk(nodes, nodes, {}, roots, rootWin) && RootsPlaced(nodes, rootWin, cursor)
      requires Below(nodes, bound)
      requires sizes.Keys == nodes.Keys && forall h :: h in nodes ==> sizes[h] == Size(nodes, h)
      modifies this
      ensures Labelled(old(nodes), nodes, cursor) && nextRootStart == old(nextRootStart)
    {
      ghost var n0, labelled: set<Hash> := nodes, {};
      var stack := roots;
      while stack != []
        invariant WindowWalk(n0, nodes, labelled, stack, rootWin)
        invariant nextRootStart == old(nextRootStart)
        decreases n0.Keys - labelled
      {
        var node: Hash, start: nat := stack[|stack| - 1].0, stack[|stack| - 1].1;
        ghost var before := stack;
        stack := stack[..|stack| - 1];
        assert before == stack + [(node, start)];
        ghost var rest: seq<(Hash, nat)>, n := stack, nodes;
        assert node in n0 && n[node] == n0[node] && node !in labelled by {
          assert before[|before| - 1] == (node, start);
        }
        var end := start + sizes[node] * SCALE - 1;
        var childCursor: nat;
        stack, childCursor := QueueChildren(n0, node, nodes[node].treeChildren, start, sizes, stack);
        nodes := nodes[node := nodes[node].(interval := Interval(start, end), nextFree := childCursor)];
        WindowStep(n0, n, labelled, before, rest, node, start, nodes[node], rootWin);
        labelled := labelled + {node};
      }
      WalkEnds(n0, nodes, labelled, rootWin, cursor, bound);
    }

    /** Queue the children of a node side by side from the start of its window. */
    method QueueChildren(ghost n0: Nodes, ghost node: Hash, children: seq<Hash>, start: nat, sizes: map<Hash, nat>,
                         rest: seq<(Hash, nat)>)
      returns (stack: seq<(Hash, nat)>, cursor: nat)
      requires Nested(n0) && node in n0 && children == n0[node].treeChildren
      requires sizes.Keys == n0.Keys && forall h :: h in n0 ==> sizes[h] == Size(n0, h)
      ensures stack == rest + ChildEntries(n0, node, start, |children|)
      ensures cursor == start + SCALE * ChildSpan(n0, node, |children|)
    {
      stack, cursor := rest, start;
      for i := 0 to |children|
        invariant cursor == start + SCALE * ChildSpan(n0, node, i)
        invariant stack == rest + ChildEntries(n0, node, start, i)
      {
        ChildBelow(n0, node, i);
        stack := stack + [(children[i], cursor)];
        cursor := cursor + sizes[children[i]] * SCALE;
      }
    }

    /** Queue every root, its window right after the previous one's. */
    method PlaceRoots(sizes: map<Hash, nat>)
        returns (stack: seq<(Hash, nat)>, cursor: nat, ghost rootWin: map<Hash, nat>)
      requires Nested(nodes) && sizes.Keys == nodes.Keys && forall h :: h in nodes ==> sizes[h] == Size(nodes, h)
      ensures WindowWalk(nodes, nodes, {}, stack, rootWin) && RootsPlaced(nodes, rootWin, cursor)
      ensures SPACE_START <= cursor <= SPACE_START + SCALE * |nodes|
    {
      var roots := set h | h in nodes && IsRoot(nodes, h);
      cursor := SPACE_START;
      stack := [];
      rootWin := map[];
      ghost var counted: set<Hash> := {};
      while roots != {}
        invariant forall r :: r in nodes && IsRoot(nodes, r) ==> r in roots || r in rootWin
        invariant RootWalk(nodes, roots, stack, rootWin, counted, cursor)
      {
        var r :| r in roots;
        RootStep(nodes, roots, stack, rootWin, counted, cursor, r);
        counted := counted + Subtree(nodes, r);
        roots := roots - {r};
        stack := stack + [(r, cursor)];
        rootWin := rootWin[r := cursor];
        cursor := cursor + sizes[r] * SCALE;
      }
      SubsetIsAtMost(counted, nodes.Keys);
      RootStackWalks(nodes, stack, rootWin);
    }
  }
}
