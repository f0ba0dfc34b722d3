/** Whole runs of an archival node: any blocks, in any order, accepted or refused. What the
    node ends with is a function of the blocks it holds and of its seed, never of the order
    they came in, and what was final stays final. */
module NodeRuns {
  import opened Types
  import opened Lists
  import opened Dag
  import opened Ghostdag
  import opened GhostdagProperties
  import opened GhostdagLocality
  import opened Canonical
  import opened Replay
  import opened ChainStateMachine
  import opened ChainNode
  import opened ArchivalNode

  // ----- The reference: functions of the DAG alone -----

  /** `gd` is the colouring of `dag`. */
  ghost predicate IsColoring(dag: BlockDag, gd: Coloring) {
    WellFormed(dag) && Consistent(dag, PastMap(dag), gd)
  }

  /** The one colouring of a DAG that has one. */
  ghost function ColoringOf(dag: BlockDag): Coloring {
    if exists gd :: IsColoring(dag, gd) then var gd :| IsColoring(dag, gd); gd else map[]
  }

  lemma {:induction false} ColoringOfIs(dag: BlockDag, gd: Coloring)
    requires IsColoring(dag, gd)
    ensures ColoringOf(dag) == gd
  {
    var gd2 := ColoringOf(dag);
    assert IsColoring(dag, gd2);
    ColoringIsUnique(dag, PastMap(dag), gd, gd2);
  }

  /** The ledger as seen from `b`: its canonical order replayed from the seed. */
  ghost function LedgerAt(sem: Semantics, dag: BlockDag, seed: Ledger, b: Hash): Ledger {
    var gd := ColoringOf(dag);
    if Replayable(dag, gd) && b in gd then StateAt(sem, dag, gd, seed, b) else seed
  }

  /** The (score, hash) maximum of the DAG. */
  ghost function SelectedTip(dag: BlockDag): Option<Hash> {
    var gd := ColoringOf(dag);
    if exists t :: IsHeaviest(gd, t) then var t :| IsHeaviest(gd, t); Some(t) else None
  }

  lemma {:induction false} SelectedTipIs(dag: BlockDag, gd: Coloring, t: Hash)
    requires gd == ColoringOf(dag) && IsHeaviest(gd, t)
    ensures SelectedTip(dag) == Some(t)
  {
    var u := SelectedTip(dag).value;
    assert IsHeaviest(gd, u);
  }

  ghost function FinalityAt(dag: BlockDag): Option<Hash> {
    var gd, tip := ColoringOf(dag), SelectedTip(dag);
    if ChainDown(gd) && tip.Some? && tip.value in gd then FinalityOf(gd, tip.value, FINALITY_DEPTH) else None
  }

  ghost function ChainAt(dag: BlockDag): seq<Hash> {
    var gd, tip := ColoringOf(dag), SelectedTip(dag);
    if ChainDown(gd) && tip.Some? && tip.value in gd then Chain(gd, tip.value) else []
  }

  lemma {:induction false} LedgerAtIs(sem: Semantics, dag: BlockDag, gd: Coloring, seed: Ledger, b: Hash)
    requires IsColoring(dag, gd) && b in gd
    ensures Replayable(dag, gd) && LedgerAt(sem, dag, seed, b) == StateAt(sem, dag, gd, seed, b)
  {
    ConsistentIsReplayable(dag, PastMap(dag), gd);
    ColoringOfIs(dag, gd);
  }

  /** Every non-genesis header commits to the ledger as seen from its block. */
  ghost predicate RootsAgree(sem: Semantics, dag: BlockDag, seed: Ledger) {
    forall b {:trigger LedgerAt(sem, dag, seed, b)} :: b in dag && dag[b].parents != [] ==>
      dag[b].stateRoot == sem.commit(LedgerAt(sem, dag, seed, b))
  }

  /** Every non-genesis block applied in full when it was admitted. */
  ghost predicate AllAdmitted(sem: Semantics, dag: BlockDag) {
    forall b {:trigger b in dag} :: b in dag && dag[b].parents != [] ==> exists score :: Admitted(sem, dag[b], score)
  }

  // ----- What a valid node shows -----

  lemma {:induction false} NodeShows(sem: Semantics, seed: Ledger, past: Pasts, dag: BlockDag, gd: Coloring,
                                     tips: seq<Hash>, nodes: Forest.Nodes, base: Ledger, frontier: Option<Hash>)
    requires Staged(sem, seed, past, dag, gd, tips, nodes, base, frontier)
    ensures past == PastMap(dag) && gd == ColoringOf(dag)
    ensures MainChain(gd, tips) == ChainAt(dag) && FinalityPoint(gd, tips) == FinalityAt(dag)
  {
    UnfoldStaged(sem, seed, past, dag, gd, tips, nodes, base, frontier);
    ColoringOfIs(dag, gd);
    SelectedTipIs(dag, gd, Tip(gd, tips));
  }

  lemma {:induction false} NodeTip(sem: Semantics, seed: Ledger, past: Pasts, dag: BlockDag, gd: Coloring,
                                   tips: seq<Hash>, nodes: Forest.Nodes, base: Ledger, frontier: Option<Hash>)
    requires Staged(sem, seed, past, dag, gd, tips, nodes, base, frontier)
    ensures Heaviest(gd, tips).Some? && Tip(gd, tips) in dag && SelectedTip(dag) == Some(Tip(gd, tips))
    ensures IsColoring(dag, ColoringOf(dag)) && AreTips(dag, tips)
  {
    UnfoldStaged(sem, seed, past, dag, gd, tips, nodes, base, frontier);
    ColoringOfIs(dag, gd);
    SelectedTipIs(dag, gd, Tip(gd, tips));
  }

  lemma {:induction false} NodeLedger(sem: Semantics, seed: Ledger, past: Pasts, dag: BlockDag, gd: Coloring,
                                      tips: seq<Hash>, nodes: Forest.Nodes, base: Ledger, frontier: Option<Hash>)
    requires Staged(sem, seed, past, dag, gd, tips, nodes, base, frontier) && Heaviest(gd, tips).Some?
    ensures LiveState(sem, dag, gd, tips, seed) == LedgerAt(sem, dag, seed, Tip(gd, tips))
  {
    UnfoldStaged(sem, seed, past, dag, gd, tips, nodes, base, frontier);
    LedgerAtIs(sem, dag, gd, seed, Tip(gd, tips));
  }

  lemma {:induction false} NodeLive(sem: Semantics, seed: Ledger, past: Pasts, dag: BlockDag, gd: Coloring,
                                    tips: seq<Hash>, nodes: Forest.Nodes, base: Ledger, frontier: Option<Hash>)
    requires Staged(sem, seed, past, dag, gd, tips, nodes, base, frontier)
    ensures LiveState(sem, dag, gd, tips, seed) == LiveAt(sem, dag, seed)
  {
    NodeTip(sem, seed, past, dag, gd, tips, nodes, base, frontier);
    NodeLedger(sem, seed, past, dag, gd, tips, nodes, base, frontier);
  }

  lemma {:induction false} NodeRoot(sem: Semantics, seed: Ledger, past: Pasts, dag: BlockDag, gd: Coloring,
                                    tips: seq<Hash>, nodes: Forest.Nodes, base: Ledger, frontier: Option<Hash>,
                                    b: Hash)
    requires Staged(sem, seed, past, dag, gd, tips, nodes, base, frontier) && b in dag && dag[b].parents != []
    ensures dag[b].stateRoot == sem.commit(LedgerAt(sem, dag, seed, b)) && exists score :: Admitted(sem, dag[b], score)
  {
    UnfoldStaged(sem, seed, past, dag, gd, tips, nodes, base, frontier);
    LedgerAtIs(sem, dag, gd, seed, b);
    assert RootAgrees(sem, dag, gd, seed, b);
    assert Admitted(sem, dag[b], gd[b].blueScore);
  }

  lemma {:induction false} NodeRoots(sem: Semantics, seed: Ledger, past: Pasts, dag: BlockDag, gd: Coloring,
                                     tips: seq<Hash>, nodes: Forest.Nodes, base: Ledger, frontier: Option<Hash>)
    requires Staged(sem, seed, past, dag, gd, tips, nodes, base, frontier)
    ensures RootsAgree(sem, dag, seed) && AllAdmitted(sem, dag)
  {
    forall b | b in dag && dag[b].parents != []
      ensures dag[b].stateRoot == sem.commit(LedgerAt(sem, dag, seed, b))
      ensures exists score :: Admitted(sem, dag[b], score)
    {
      NodeRoot(sem, seed, past, dag, gd, tips, nodes, base, frontier, b);
    }
  }

  /** The folded base: the ledger as seen from the finality point. */
  ghost function FinalLedger(sem: Semantics, dag: BlockDag, seed: Ledger): Ledger {
    match FinalityAt(dag)
    case None => seed
    case Some(f) => LedgerAt(sem, dag, seed, f)
  }

  /** The base came about by replaying, from the seed, each block at or below the finality point
      exactly once and no other. */
  ghost predicate FoldedExactly(sem: Semantics, dag: BlockDag, seed: Ledger, base: Ledger, folded: seq<Hash>) {
    && Distinct(folded) && Elements(folded) == FoldedBlocks(PastMap(dag), FinalityAt(dag))
    && Held(dag, ColoringOf(dag), folded) && base == Replayed(sem, dag, ColoringOf(dag), seed, folded)
  }

  lemma {:induction false} NodeBase(sem: Semantics, seed: Ledger, past: Pasts, dag: BlockDag, gd: Coloring,
                                    tips: seq<Hash>, nodes: Forest.Nodes, base: Ledger, frontier: Option<Hash>)
    requires Staged(sem, seed, past, dag, gd, tips, nodes, base, frontier) && frontier == FinalityPoint(gd, tips)
    ensures base == FinalLedger(sem, dag, seed)
  {
    NodeShows(sem, seed, past, dag, gd, tips, nodes, base, frontier);
    UnfoldStaged(sem, seed, past, dag, gd, tips, nodes, base, frontier);
    if frontier.Some? {
      LedgerAtIs(sem, dag, gd, seed, frontier.value);
    }
  }

  // ----- What holds of every reachable DAG -----

  /** Every member of every block's blue set has at most `K` others of that set in its
      anticone. */
  ghost predicate AllKClusters(dag: BlockDag) {
    var gd := ColoringOf(dag);
    ChainDown(gd) && gd.Keys == dag.Keys && forall b {:trigger Blues(gd, b)} :: b in dag ==>
      KCluster(PastMap(dag), Blues(gd, b))
  }

  /** Once the tip's score exceeds the depth there is a finality point, `FINALITY_DEPTH` to
      `FINALITY_DEPTH + K` levels below the tip on its chain. */
  ghost predicate FinalityInPlace(dag: BlockDag) {
    var gd, tip := ColoringOf(dag), SelectedTip(dag);
    && ChainDown(gd) && tip.Some? && tip.value in gd
    && (gd[tip.value].blueScore > FINALITY_DEPTH ==>
          && FinalityAt(dag).Some? && FinalityAt(dag).value in gd && OnChain(gd, FinalityAt(dag).value, tip.value)
          && FINALITY_DEPTH <= gd[tip.value].blueScore - gd[FinalityAt(dag).value].blueScore <= FINALITY_DEPTH + K)
  }

  lemma {:induction false} ReachableClusters(dag: BlockDag)
    requires IsColoring(dag, ColoringOf(dag))
    ensures AllKClusters(dag)
  {
    var gd := ColoringOf(dag);
    forall b | b in dag
      ensures KCluster(PastMap(dag), Blues(gd, b))
    {
      BluesAreKCluster(dag, PastMap(dag), gd, b);
    }
  }

  lemma {:induction false} ReachableFinality(dag: BlockDag, t: Hash)
    requires IsColoring(dag, ColoringOf(dag)) && SelectedTip(dag) == Some(t) && t in dag
    ensures FinalityInPlace(dag)
  {
    var gd := ColoringOf(dag);
    if gd[t].blueScore > FINALITY_DEPTH {
      FinalityDepthBounds(dag, PastMap(dag), gd, t, FINALITY_DEPTH);
    }
  }

  // ----- Finality over a run -----

  /** A block below another on one chain is below it on every later chain that holds both. */
  lemma {:induction false} BelowCarries(gd: Coloring, gd2: Coloring, t: Hash, t2: Hash, f: Option<Hash>,
                                        g: Option<Hash>, k: Option<Hash>)
    requires ChainDown(gd) && ChainDown(gd2) && t in gd && t2 in gd2 && gd.Keys <= gd2.Keys
    requires forall x {:trigger gd[x]} :: x in gd ==> gd2[x] == gd[x]
    requires AtOrBelow(Chain(gd, t), f, g) && AtOrBelow(Chain(gd2, t2), g, k)
    ensures AtOrBelow(Chain(gd2, t2), f, k)
  {
    if f.Some? {
      var i, j :| 0 <= i <= j < |Chain(gd, t)| && Chain(gd, t)[i] == f.value && Chain(gd, t)[j] == g.value;
      var i2, j2 :| 0 <= i2 <= j2 < |Chain(gd2, t2)| && Chain(gd2, t2)[i2] == g.value && Chain(gd2, t2)[j2] == k.value;
      SamePlace(gd, gd2, t, t2, j, i2);
      assert Chain(gd2, t2)[i] == Chain(gd2, t2)[..i2 + 1][i] == f.value;
    }
  }

  /** A block has one place on every chain that holds it. */
  lemma {:induction false} SamePlace(gd: Coloring, gd2: Coloring, t: Hash, t2: Hash, j: nat, j2: nat)
    requires ChainDown(gd) && ChainDown(gd2) && t in gd && t2 in gd2 && gd.Keys <= gd2.Keys
    requires forall x {:trigger gd[x]} :: x in gd ==> gd2[x] == gd[x]
    requires j < |Chain(gd, t)| && j2 < |Chain(gd2, t2)| && Chain(gd, t)[j] == Chain(gd2, t2)[j2]
    ensures j == j2 && Chain(gd, t)[..j + 1] == Chain(gd2, t2)[..j2 + 1]
  {
    ChainPrefix(gd, t, j);
    ChainPrefix(gd2, t2, j2);
    ChainKept(gd, gd2, Chain(gd, t)[j]);
  }

  /** Every earlier finality point is on the chain, at or below `fp`. */
  ghost predicate AllBelow(chain: seq<Hash>, history: seq<Option<Hash>>, fp: Option<Hash>) {
    forall i :: 0 <= i < |history| ==> AtOrBelow(chain, history[i], fp)
  }

  lemma {:induction false} AllBelowCarries(gd: Coloring, gd2: Coloring, tips: seq<Hash>, tips2: seq<Hash>,
                                           history: seq<Option<Hash>>, fp: Option<Hash>, fp2: Option<Hash>)
    requires ChainDown(gd) && ChainDown(gd2) && Heaviest(gd, tips).Some? && Heaviest(gd2, tips2).Some?
    requires gd.Keys <= gd2.Keys
    requires forall x {:trigger gd[x]} :: x in gd ==> gd2[x] == gd[x]
    requires AllBelow(MainChain(gd, tips), history, fp) && AtOrBelow(MainChain(gd2, tips2), fp, fp2)
    ensures AllBelow(MainChain(gd2, tips2), history, fp2)
  {
    forall i | 0 <= i < |history|
      ensures AtOrBelow(MainChain(gd2, tips2), history[i], fp2)
    {
      BelowCarries(gd, gd2, Tip(gd, tips), Tip(gd2, tips2), history[i], fp, fp2);
    }
  }

  // ----- Runs -----

  /** A block offered to the node; `otherChecks` is the outcome of the checks that are not part
      of acceptance here: size, proof of work and witnesses, which read the block alone, and
      median time, parent timestamps and interlinks, which also read the blocks held. */
  datatype Arrival = Arrival(h: Hash, block: Block, otherChecks: bool)

  /** The ledger as seen from the selected tip. */
  ghost function LiveAt(sem: Semantics, dag: BlockDag, seed: Ledger): Ledger {
    match SelectedTip(dag)
    case None => seed
    case Some(t) => LedgerAt(sem, dag, seed, t)
  }

  /** Apart from those checks, acceptance depends on the blocks already held and on nothing else. */
  ghost predicate Acceptable(sem: Semantics, seed: Ledger, dag: BlockDag, a: Arrival) {
    && a.otherChecks && WellShaped(dag, a.h, a.block)
    && RightDifficulty(sem, PastMap(dag), dag, ColoringOf(dag), LiveAt(sem, dag, seed), a.block)
    && Admissible(sem, seed, PastMap(dag), dag, ColoringOf(dag), FinalityAt(dag), a.block)
  }

  /** The blocks held after the arrivals. */
  ghost function After(sem: Semantics, seed: Ledger, dag: BlockDag, arrivals: seq<Arrival>): BlockDag {
    if arrivals == [] then dag
    else
      var k := |arrivals| - 1;
      Next(sem, seed, After(sem, seed, dag, arrivals[..k]), arrivals[k])
  }

  /** Main chain and finality point after an arrival. */
  datatype Sight = Sight(chain: seq<Hash>, finality: Option<Hash>)

  ghost function SightOf(dag: BlockDag): Sight {
    Sight(ChainAt(dag), FinalityAt(dag))
  }

  ghost predicate Saw(sem: Semantics, seed: Ledger, dag: BlockDag, arrivals: seq<Arrival>, seen: seq<Sight>) {
    && |seen| == |arrivals| + 1
    && forall n {:trigger seen[n]} :: 0 <= n <= |arrivals| ==> seen[n] == SightOf(After(sem, seed, dag, arrivals[..n]))
  }

  /** Every later main chain holds every earlier finality point, at or below its own. */
  ghost predicate FinalityHolds(seen: seq<Sight>) {
    forall i, j {:trigger seen[i], seen[j]} :: 0 <= i <= j < |seen| ==>
      AtOrBelow(seen[j].chain, seen[i].finality, seen[j].finality)
  }

  function Finalities(seen: seq<Sight>): (f: seq<Option<Hash>>)
    ensures |f| == |seen| && forall i :: 0 <= i < |seen| ==> f[i] == seen[i].finality
  {
    seq(|seen|, i requires 0 <= i < |seen| => seen[i].finality)
  }

  /** Feed a fresh node any arrivals. The blocks it holds are those acceptable in turn; tip,
      main chain, finality point and live ledger are functions of those blocks; every header
      commits to the replay of its canonical order; what was final stays final; over the whole
      run each block that became final was folded into the base once. */
  method Run(sem: Semantics, g: Hash, genesis: Block, seed: Ledger, arrivals: seq<Arrival>)
    returns (dag: BlockDag, tip: Hash, ledger: Ledger, base: Ledger, seen: seq<Sight>, ghost folded: seq<Hash>)
    requires Lawful(sem) && genesis.parents == []
    ensures dag == After(sem, seed, map[g := genesis], arrivals)
    ensures IsColoring(dag, ColoringOf(dag)) && tip in dag
    ensures SelectedTip(dag) == Some(tip) && ledger == LedgerAt(sem, dag, seed, tip)
    ensures base == FinalLedger(sem, dag, seed) && FoldedExactly(sem, dag, seed, base, folded)
    ensures RootsAgree(sem, dag, seed) && AllAdmitted(sem, dag)
    ensures AllKClusters(dag) && FinalityInPlace(dag)
    ensures dag[tip].parents != [] ==> sem.commit(ledger) == dag[tip].stateRoot
    ensures Saw(sem, seed, map[g := genesis], arrivals, seen) && FinalityHolds(seen)
  {
    var node := new ChainState(sem, g, genesis, seed);
    seen := Feed(node, arrivals);
    dag, tip, ledger, base, folded := Observe(node);
    ReachableClusters(dag);
    ReachableFinality(dag, tip);
  }

  method Observe(node: ChainState)
      returns (dag: BlockDag, tip: Hash, ledger: Ledger, base: Ledger, ghost folded: seq<Hash>)
    requires node.Valid()
    ensures dag == node.dag && IsColoring(dag, ColoringOf(dag)) && tip in dag
    ensures SelectedTip(dag) == Some(tip) && ledger == LedgerAt(node.sem, dag, node.seed, tip)
    ensures base == FinalLedger(node.sem, dag, node.seed)
    ensures folded == node.foldedBlocks && FoldedExactly(node.sem, dag, node.seed, base, folded)
    ensures RootsAgree(node.sem, dag, node.seed) && AllAdmitted(node.sem, dag)
  {
    ghost var from := ReplayBase(node.ledger, node.base, node.baseCaptured);
    NodeTip(node.sem, node.seed, node.past, node.dag, node.gd, node.tips, node.reach.nodes, from, node.baseFrontier);
    NodeLedger(node.sem, node.seed, node.past, node.dag, node.gd, node.tips, node.reach.nodes, from, node.baseFrontier);
    NodeRoots(node.sem, node.seed, node.past, node.dag, node.gd, node.tips, node.reach.nodes, from, node.baseFrontier);
    NodeBase(node.sem, node.seed, node.past, node.dag, node.gd, node.tips, node.reach.nodes, from, node.baseFrontier);
    dag, tip, ledger := node.dag, Heaviest(node.gd, node.tips).value, node.ledger;
    base := if node.baseCaptured then node.base else node.ledger;
    folded := node.foldedBlocks;
    node.FoldedOnce();
    NodeShows(node.sem, node.seed, node.past, node.dag, node.gd, node.tips, node.reach.nodes, from, node.baseFrontier);
  }

  method Feed(node: ChainState, arrivals: seq<Arrival>) returns (seen: seq<Sight>)
    requires node.Valid()
    modifies node, node.reach
    ensures node.Valid() && node.dag == After(node.sem, node.seed, old(node.dag), arrivals)
    ensures Saw(node.sem, node.seed, old(node.dag), arrivals, seen) && FinalityHolds(seen)
  {
    ghost var sem, seed, dag := node.sem, node.seed, node.dag;
    var s := Look(node);
    seen := [s];
    for n := 0 to |arrivals|
      invariant node.Valid() && node.dag == After(sem, seed, dag, arrivals[..n])
      invariant Saw(sem, seed, dag, arrivals[..n], seen) && FinalityHolds(seen)
      invariant AllBelow(MainChain(node.gd, node.tips), Finalities(seen), node.baseFrontier)
    {
      s := Arrive(node, arrivals[n], seen);
      FinalityStep(seen, s);
      SawStep(sem, seed, dag, arrivals, n, seen, s);
      seen := seen + [s];
    }
    assert arrivals[..|arrivals|] == arrivals;
  }

  method Look(node: ChainState) returns (s: Sight)
    requires node.Valid()
    ensures s == Sight(node.mainChain, node.baseFrontier) == SightOf(node.dag)
    ensures AtOrBelow(s.chain, s.finality, s.finality)
  {
    s := Sight(node.mainChain, node.baseFrontier);
    NodeShows(node.sem, node.seed, node.past, node.dag, node.gd, node.tips, node.reach.nodes,
              ReplayBase(node.ledger, node.base, node.baseCaptured), node.baseFrontier);
    node.StillBelow();
  }

  lemma {:induction false} FinalityStep(seen: seq<Sight>, s: Sight)
    requires FinalityHolds(seen) && AllBelow(s.chain, Finalities(seen + [s]), s.finality)
    ensures FinalityHolds(seen + [s])
  {
    var after := seen + [s];
    forall i, j | 0 <= i <= j < |after|
      ensures AtOrBelow(after[j].chain, after[i].finality, after[j].finality)
    {
      assert Finalities(after)[i] == after[i].finality;
    }
  }

  /** The blocks held after one more arrival. */
  ghost function Next(sem: Semantics, seed: Ledger, dag: BlockDag, a: Arrival): BlockDag {
    if Acceptable(sem, seed, dag, a) then dag[a.h := a.block] else dag
  }

  lemma {:induction false} SawStep(sem: Semantics, seed: Ledger, dag: BlockDag, arrivals: seq<Arrival>, n: nat,
                                   seen: seq<Sight>, s: Sight)
    requires n < |arrivals| && Saw(sem, seed, dag, arrivals[..n], seen)
    requires s == SightOf(Next(sem, seed, After(sem, seed, dag, arrivals[..n]), arrivals[n]))
    ensures Saw(sem, seed, dag, arrivals[..n + 1], seen + [s])
    ensures After(sem, seed, dag, arrivals[..n + 1]) ==
            Next(sem, seed, After(sem, seed, dag, arrivals[..n]), arrivals[n])
  {
    AfterStep(sem, seed, dag, arrivals, n);
    PrefixesStep(arrivals, n, seen, s, x => SightOf(After(sem, seed, dag, x)));
  }

  lemma {:induction false} AfterStep(sem: Semantics, seed: Ledger, dag: BlockDag, arrivals: seq<Arrival>, n: nat)
    requires n < |arrivals|
    ensures After(sem, seed, dag, arrivals[..n + 1]) ==
            Next(sem, seed, After(sem, seed, dag, arrivals[..n]), arrivals[n])
  {
    assert arrivals[..n + 1][..n] == arrivals[..n];
  }

  /** `seen` lists `f` of every prefix; one more arrival, one more entry. */
  lemma {:induction false} PrefixesStep(arrivals: seq<Arrival>, n: nat, seen: seq<Sight>, s: Sight,
                                        f: seq<Arrival> -> Sight)
    requires n < |arrivals| && |seen| == n + 1 && s == f(arrivals[..n + 1])
    requires forall m {:trigger seen[m]} :: 0 <= m <= n ==> seen[m] == f(arrivals[..n][..m])
    ensures var after := seen + [s];
            forall m {:trigger after[m]} :: 0 <= m <= n + 1 ==> after[m] == f(arrivals[..n + 1][..m])
  {
    var after := seen + [s];
    forall m | 0 <= m <= n + 1
      ensures after[m] == f(arrivals[..n + 1][..m])
    {
      if m <= n {
        assert arrivals[..n + 1][..m] == arrivals[..n][..m];
        assert after[m] == seen[m];
      } else {
        assert arrivals[..n + 1][..m] == arrivals[..n + 1];
      }
    }
  }

  /** One arrival: the earlier finality points are still on the main chain. */
  method Arrive(node: ChainState, a: Arrival, ghost seen: seq<Sight>) returns (s: Sight)
    requires node.Valid() && AllBelow(MainChain(node.gd, node.tips), Finalities(seen), node.baseFrontier)
    modifies node, node.reach
    ensures node.Valid() && node.dag == Next(node.sem, node.seed, old(node.dag), a)
    ensures s == SightOf(node.dag) && s.finality == node.baseFrontier && s.chain == MainChain(node.gd, node.tips)
    ensures AllBelow(s.chain, Finalities(seen + [s]), s.finality)
  {
    ghost var gd, tips, fp := node.gd, node.tips, node.baseFrontier;
    node.Shows();
    Offer(node, a);
    node.Shows();
    s := Look(node);
    AllBelowCarries(gd, node.gd, tips, node.tips, Finalities(seen), fp, node.baseFrontier);
    AllBelowAppend(s, seen);
  }

  lemma {:induction false} AllBelowAppend(s: Sight, seen: seq<Sight>)
    requires AllBelow(s.chain, Finalities(seen), s.finality) && AtOrBelow(s.chain, s.finality, s.finality)
    ensures AllBelow(s.chain, Finalities(seen + [s]), s.finality)
  {
    forall i | 0 <= i < |seen| + 1
      ensures AtOrBelow(s.chain, Finalities(seen + [s])[i], s.finality)
    {
      if i < |seen| {
        assert Finalities(seen)[i] == seen[i].finality;
      }
    }
  }

  ghost predicate Grew(gd: Coloring, gd2: Coloring) {
    gd.Keys <= gd2.Keys && forall x {:trigger gd[x]} :: x in gd ==> gd2[x] == gd[x]
  }

  method Offer(node: ChainState, a: Arrival)
    requires node.Valid()
    modifies node, node.reach
    ensures node.Valid() && node.dag == Next(node.sem, node.seed, old(node.dag), a)
    ensures AtOrBelow(MainChain(node.gd, node.tips), old(node.baseFrontier), node.baseFrontier)
    ensures Grew(old(node.gd), node.gd)
  {
    node.Shows();
    ghost var from := ReplayBase(node.ledger, node.base, node.baseCaptured);
    NodeShows(node.sem, node.seed, node.past, node.dag, node.gd, node.tips, node.reach.nodes, from, node.baseFrontier);
    NodeLive(node.sem, node.seed, node.past, node.dag, node.gd, node.tips, node.reach.nodes, from, node.baseFrontier);
    var ok := node.AddBlock(a.h, a.block, a.otherChecks);
  }

  /** Two nodes with the same seed that end up holding the same blocks, in whatever order each
      received and folded them, have the same tip, ledger and finality point. */
  method TwoNodes(sem: Semantics, g: Hash, genesis: Block, seed: Ledger, first: seq<Arrival>, second: seq<Arrival>)
    returns (tip1: Hash, ledger1: Ledger, tip2: Hash, ledger2: Ledger, finality1: Option<Hash>, finality2: Option<Hash>)
    requires Lawful(sem) && genesis.parents == []
    requires After(sem, seed, map[g := genesis], first) == After(sem, seed, map[g := genesis], second)
    ensures tip1 == tip2 && ledger1 == ledger2 && finality1 == finality2
    ensures ledger1 == LedgerAt(sem, After(sem, seed, map[g := genesis], first), seed, tip1)
  {
    var dag1, dag2, base1, base2, seen1, seen2;
    ghost var folded1, folded2;
    dag1, tip1, ledger1, base1, seen1, folded1 := Run(sem, g, genesis, seed, first);
    dag2, tip2, ledger2, base2, seen2, folded2 := Run(sem, g, genesis, seed, second);
    assert first[..|first|] == first && second[..|second|] == second;
    finality1, finality2 := seen1[|first|].finality, seen2[|second|].finality;
  }
}
