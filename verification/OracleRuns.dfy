/** Whole runs of the reachability oracle: blocks arrive, buried leaves are forgotten and old
    prefixes are pruned, in any order; the answers are always those of a plain search. */
module OracleRuns {
  import opened Types
  import opened Lists
  import opened Dag
  import opened Forest
  import opened ReachabilityOracle

  datatype Event =
    | Add(h: Hash, block: Block, selectedParent: Hash)
    | Forget(leaf: Hash)
    | Prune(seed: set<Hash>)

  /** The blocks of `seed` and all their held descendants. */
  ghost function FutureOf(dag: BlockDag, seed: set<Hash>): set<Hash> {
    set b | b in dag && exists a :: a in seed && (a == b || Ancestor(dag, a, b))
  }

  /** What a run is about: the blocks held, and the indexed ones with their tree parents. */
  datatype Tracked = Tracked(dag: BlockDag, tree: Tree)

  /** An arrival takes effect when the block is new, its parents are held and its selected
      parent is one of them and indexed; a leaf is forgotten when it is indexed and nobody's
      tree parent; a prune always takes effect. */
  ghost predicate Takes(s: Tracked, event: Event) {
    match event
    case Add(h, block, sp) => Extends(s.dag, h, block) && sp in block.parents && sp in s.tree
    case Forget(leaf) => IsLeaf(s.tree, leaf)
    case Prune(_) => true
  }

  ghost function Next(s: Tracked, event: Event): Tracked {
    if !Takes(s, event) then s
    else match event
      case Add(h, block, sp) => Tracked(s.dag[h := block], s.tree[h := Some(sp)])
      case Forget(leaf) => s.(tree := s.tree - {leaf})
      case Prune(seed) =>
        var keep := FutureOf(s.dag, seed);
        Tracked(Restrict(s.dag, keep), CutTo(s.tree, keep))
  }

  ghost function After(s: Tracked, events: seq<Event>): Tracked {
    if events == [] then s else Next(After(s, events[..|events| - 1]), events[|events| - 1])
  }

  /** For every event, whether it takes effect on what the events before it leave. */
  ghost function TakenIn(s: Tracked, events: seq<Event>): (t: seq<bool>)
    ensures |t| == |events|
  {
    if events == [] then []
    else
      var k := |events| - 1;
      TakenIn(s, events[..k]) + [Takes(After(s, events[..k]), events[k])]
  }

  lemma {:induction false} AfterStep(s: Tracked, events: seq<Event>, i: nat)
    requires i < |events|
    ensures After(s, events[..i + 1]) == Next(After(s, events[..i]), events[i])
    ensures TakenIn(s, events[..i + 1]) == TakenIn(s, events[..i]) + [Takes(After(s, events[..i]), events[i])]
  {
    assert events[..i + 1][..i] == events[..i];
  }

  lemma {:induction false} TakenMeans(s: Tracked, events: seq<Event>, k: nat)
    requires k < |events|
    ensures TakenIn(s, events)[k] <==> Takes(After(s, events[..k]), events[k])
  {
    var n := |events| - 1;
    if k < n {
      TakenMeans(s, events[..n], k);
      assert events[..n][..k] == events[..k];
    }
  }

  ghost function ChainMap(nodes: Nodes): map<Hash, set<Hash>> {
    map b | b in nodes :: set a | a in nodes && ChainReaches(nodes, a, b)
  }

  lemma {:induction false} FutureIsClosed(dag: BlockDag, seed: set<Hash>)
    ensures FutureClosed(dag, FutureOf(dag, seed))
  {
    var keep := FutureOf(dag, seed);
    forall x, y | x in keep && y in dag && Ancestor(dag, x, y)
      ensures y in keep
    {
      var a :| a in seed && (a == x || Ancestor(dag, a, x));
      if a != x {
        AncestorTransitive(dag, a, x, y);
      }
    }
  }

  lemma {:induction false} RestrictedPast(dag: BlockDag, keep: set<Hash>)
    requires Acyclic(dag) && FutureClosed(dag, keep)
    ensures Acyclic(Restrict(dag, keep))
    ensures forall b :: b in Restrict(dag, keep) ==> Past(Restrict(dag, keep), b) == Past(dag, b) * keep
  {
    forall a, b | a in keep
      ensures Ancestor(Restrict(dag, keep), a, b) <==> Ancestor(dag, a, b)
    {
      RestrictionKeepsAncestry(dag, keep, a, b);
    }
  }

  lemma {:induction false} ForgottenAgrees(n0: Nodes, n1: Nodes, dag: BlockDag)
    requires Agrees(n0, dag) && SameBetweenSurvivors(n0, n1)
    ensures Agrees(n1, dag)
  {
    forall a, b | a in n1 && b in n1
      ensures Reaches(n1, a, b) <==> a == b || a in PastMap(dag)[b]
    {
      assert Reaches(n0, a, b) <==> a == b || a in PastMap(dag)[b];
    }
  }

  lemma {:induction false} PrunedAgrees(n0: Nodes, n1: Nodes, dag: BlockDag, keep: set<Hash>)
    requires Agrees(n0, dag) && FutureClosed(dag, keep) && n1.Keys == n0.Keys * keep && SameBetweenSurvivors(n0, n1)
    ensures Agrees(n1, Restrict(dag, keep))
  {
    ForgottenAgrees(n0, n1, dag);
    RestrictedPast(dag, keep);
    var d := Restrict(dag, keep);
    forall a, b | a in n1 && b in n1
      ensures Reaches(n1, a, b) <==> a == b || a in PastMap(d)[b]
    {
      assert Reaches(n1, a, b) <==> a == b || a in PastMap(dag)[b];
      assert PastMap(d)[b] == Past(dag, b) * keep;
    }
  }

  lemma {:induction false} KeepIsClosedInIndex(nodes: Nodes, dag: BlockDag, keep: set<Hash>, a: Hash, b: Hash)
    requires Agrees(nodes, dag) && FutureClosed(dag, keep) && a in nodes && b in nodes && a in keep
    requires Reaches(nodes, a, b)
    ensures b in keep
  {
    assert Reaches(nodes, a, b) <==> a == b || a in PastMap(dag)[b];
  }

  /** The mergeset of a block: what its parents reach and its selected parent does not. */
  method TrueMergeset(dag: BlockDag, parents: seq<Hash>, sp: Hash) returns (ms: set<Hash>)
    requires sp in dag && forall p :: p in parents ==> p in dag
    ensures forall a :: a in ms <==> a !in Past(dag, sp) && a != sp && a in NewPast(PastMap(dag), parents)
  {
    var spPast := BfsAncestors(dag, sp);
    ms := {};
    for i := 0 to |parents|
      invariant forall a :: a in ms <==> a !in Past(dag, sp) && a != sp && a in NewPast(PastMap(dag), parents[..i])
    {
      var above := BfsAncestors(dag, parents[i]);
      assert parents[..i + 1] == parents[..i] + [parents[i]];
      NewPastAppend(PastMap(dag), parents[..i], parents[i]);
      ms := ms + (set a | a in above + {parents[i]} && a in dag && a !in spPast && a != sp);
    }
    assert parents[..|parents|] == parents;
  }

  lemma {:induction false} AddIsTrue(nodes: Nodes, dag: BlockDag, h: Hash, block: Block, sp: Hash, ms: seq<Hash>)
    requires Agrees(nodes, dag) && Extends(dag, h, block) && sp in block.parents && sp in nodes
    requires forall a :: a in ms <==> a !in Past(dag, sp) && a != sp && a in NewPast(PastMap(dag), block.parents)
    ensures TruePast(nodes, PastMap(dag), Some(sp), ms, h, NewPast(PastMap(dag), block.parents))
  {
    ExtensionKeepsPast(dag, h, block);
    NewPastMember(PastMap(dag), block.parents, sp);
    forall a | a in nodes && a in Past(dag, sp)
      ensures a in NewPast(PastMap(dag), block.parents)
    {
      NewPastMember(PastMap(dag), block.parents, a);
    }
  }

  lemma {:induction false} AddedAgrees(n1: Nodes, nodes: Nodes, dag: BlockDag, h: Hash, block: Block)
    requires Agrees(nodes, dag) && Extends(dag, h, block) && n1.Keys == nodes.Keys + {h}
    requires Answers(n1, PastMap(dag)[h := NewPast(PastMap(dag), block.parents)])
    ensures Agrees(n1, dag[h := block])
  {
    ExtensionKeepsPast(dag, h, block);
  }

  lemma {:induction false} GenesisAgrees(nodes: Nodes, g: Hash, block: Block)
    requires block.parents == [] && nodes.Keys == {g} && Answers(nodes, map[g := {}])
    ensures Agrees(nodes, map[g := block])
  {
    var dag: BlockDag := map[g := block];
    forall a
      ensures !Ancestor(dag, a, g)
    {
      AncestorViaParent(dag, a, g);
    }
    assert Past(dag, g) == {};
    assert PastMap(dag).Keys == {g};
  }

  /** Run any sequence of events from genesis. The blocks held, the blocks indexed, their tree
      parents and the events that took effect are functions of the events; the index is sound
      and answers every pair of indexed blocks as a plain search of the resulting DAG does;
      `yes` answers one arbitrary query. */
  method Run(g: Hash, genesis: Block, events: seq<Event>, a: Hash, b: Hash)
    returns (dag: BlockDag, nodes: Nodes, taken: seq<bool>, yes: bool)
    requires genesis.parents == []
    ensures var s := Tracked(map[g := genesis], map[g := None]);
            Tracked(dag, TreeOf(nodes)) == After(s, events) && taken == TakenIn(s, events)
    ensures Index(nodes) && nodes.Keys <= dag.Keys && Acyclic(dag)
    ensures forall x, y :: x in nodes && y in nodes ==> (Reaches(nodes, x, y) <==> x == y || Ancestor(dag, x, y))
    ensures yes <==> Ancestor(dag, a, b)
  {
    var oracle := new Reachability();
    oracle.AddBlock(g, None, [], map[], {}, map[]);
    dag := map[g := genesis];
    GenesisAgrees(oracle.nodes, g, genesis);
    taken := [];
    ghost var s := Tracked(map[g := genesis], map[g := None]);
    for i := 0 to |events|
      invariant fresh(oracle) && oracle.Valid() && Agrees(oracle.nodes, dag)
      invariant Tracked(dag, TreeOf(oracle.nodes)) == After(s, events[..i])
      invariant taken == TakenIn(s, events[..i])
    {
      AfterStep(s, events, i);
      var t;
      dag, t := Step(oracle, dag, events[i]);
      taken := taken + [t];
    }
    assert events[..|events|] == events;
    nodes := oracle.nodes;
    AgreesMeansAncestry(nodes, dag);
    yes := oracle.IsAncestor(a, b, dag);
  }

  method Step(oracle: Reachability, dag: BlockDag, event: Event) returns (after: BlockDag, took: bool)
    requires oracle.Valid() && Agrees(oracle.nodes, dag)
    modifies oracle
    ensures oracle.Valid() && Agrees(oracle.nodes, after)
    ensures took <==> Takes(Tracked(dag, TreeOf(old(oracle.nodes))), event)
    ensures Tracked(after, TreeOf(oracle.nodes)) == Next(Tracked(dag, TreeOf(old(oracle.nodes))), event)
  {
    match event
    case Add(h, block, sp) =>
      if !Extends(dag, h, block) || sp !in block.parents || sp !in oracle.nodes {
        return dag, false;
      }
      Arrive(oracle, dag, h, block, sp);
      after, took := dag[h := block], true;
    case Forget(leaf) =>
      after := dag;
      took := ForgetLeaf(oracle, dag, leaf);
    case Prune(seed) =>
      after := PruneTo(oracle, dag, seed);
      took := true;
  }

  method ForgetLeaf(oracle: Reachability, ghost dag: BlockDag, leaf: Hash) returns (took: bool)
    requires oracle.Valid() && Agrees(oracle.nodes, dag)
    modifies oracle
    ensures oracle.Valid() && Agrees(oracle.nodes, dag)
    ensures took <==> IsLeaf(TreeOf(old(oracle.nodes)), leaf)
    ensures TreeOf(oracle.nodes) == if took then TreeOf(old(oracle.nodes)) - {leaf} else TreeOf(old(oracle.nodes))
  {
    ghost var n0 := oracle.nodes;
    took := leaf in oracle.nodes && oracle.nodes[leaf].treeChildren == [];
    oracle.DropLeaf(leaf);
    if took {
      ForgottenAgrees(n0, oracle.nodes, dag);
    }
  }

  method PruneTo(oracle: Reachability, dag: BlockDag, seed: set<Hash>) returns (after: BlockDag)
    requires oracle.Valid() && Agrees(oracle.nodes, dag)
    modifies oracle
    ensures oracle.Valid() && Agrees(oracle.nodes, after)
    ensures after == Restrict(dag, FutureOf(dag, seed))
    ensures TreeOf(oracle.nodes) == CutTo(TreeOf(old(oracle.nodes)), FutureOf(dag, seed))
  {
    var keep := FutureSet(dag, seed);
    FutureIsClosed(dag, seed);
    ghost var n0 := oracle.nodes;
    forall x, y | x in n0 && y in n0 && x in keep && Reaches(n0, x, y)
      ensures y in keep
    {
      KeepIsClosedInIndex(n0, dag, keep, x, y);
    }
    oracle.Retain(keep);
    PrunedAgrees(n0, oracle.nodes, dag, keep);
    after := Restrict(dag, keep);
  }

  method Arrive(oracle: Reachability, dag: BlockDag, h: Hash, block: Block, sp: Hash)
    requires oracle.Valid() && Agrees(oracle.nodes, dag)
    requires Extends(dag, h, block) && sp in block.parents && sp in oracle.nodes
    modifies oracle
    ensures oracle.Valid() && Agrees(oracle.nodes, dag[h := block])
    ensures TreeOf(oracle.nodes) == TreeOf(old(oracle.nodes))[h := Some(sp)]
  {
    ghost var n0 := oracle.nodes;
    var merged := TrueMergeset(dag, block.parents, sp);
    var ms := ListSet(merged);
    assert forall a :: a in ms <==> a in Elements(ms);
    AddIsTrue(n0, dag, h, block, sp, ms);
    oracle.AddBlock(h, Some(sp), ms, PastMap(dag), NewPast(PastMap(dag), block.parents), ChainMap(n0));
    AddedAgrees(oracle.nodes, n0, dag, h, block);
  }

  method FutureSet(dag: BlockDag, seed: set<Hash>) returns (keep: set<Hash>)
    ensures keep == FutureOf(dag, seed)
  {
    keep := {};
    var todo := dag.Keys;
    while todo != {}
      invariant todo <= dag.Keys
      invariant forall b :: b in keep <==> b in FutureOf(dag, seed) && b !in todo
    {
      var b :| b in todo;
      todo := todo - {b};
      var above := BfsAncestors(dag, b);
      assert forall a :: a in seed && Ancestor(dag, a, b) ==> a in above * seed;
      if b in seed || above * seed != {} {
        if b !in seed {
          var a :| a in above * seed;
          assert a in seed && Ancestor(dag, a, b);
        }
        keep := keep + {b};
      }
    }
  }
}
