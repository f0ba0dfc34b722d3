/** Supply over whole runs of the node, with the node's own ledger rules. */
module NodeSupply {
  import opened Types
  import opened Dag
  import opened Ghostdag
  import opened Canonical
  import opened Replay
  import opened LedgerSteps
  import opened BlockEffects
  import opened Sums
  import opened Supply
  import opened SpendHistory
  import opened NodeRuns

  /** The blocks of an order that have an effect, with their scores. */
  ghost function ScoredOf(dag: BlockDag, gd: Coloring, order: seq<Hash>): seq<Scored>
    requires Held(dag, gd, order)
  {
    if order == [] then []
    else
      var k := |order| - 1;
      assert Held(dag, gd, order[..k]);
      var before := ScoredOf(dag, gd, order[..k]);
      if dag[order[k]].parents == [] then before else before + [Scored(dag[order[k]], gd[order[k]].blueScore)]
  }

  /** The node's replay is the replay of those blocks. */
  lemma {:induction false} ReplayedIsReplayAll(rules: Rules, commit: Ledger -> Hash, dag: BlockDag, gd: Coloring,
                                               l: Ledger, order: seq<Hash>)
    requires Held(dag, gd, order)
    ensures Replayed(NodeSemantics(rules, commit), dag, gd, l, order) == ReplayAll(rules, l, ScoredOf(dag, gd, order))
    decreases |order|
  {
    if order != [] {
      var k := |order| - 1;
      assert Held(dag, gd, order[..k]);
      ReplayedIsReplayAll(rules, commit, dag, gd, l, order[..k]);
      var before := ScoredOf(dag, gd, order[..k]);
      if dag[order[k]].parents != [] {
        var s := Scored(dag[order[k]], gd[order[k]].blueScore);
        assert (before + [s])[..|before|] == before;
      }
    }
  }

  lemma {:induction false} ScoredAreHeld(dag: BlockDag, gd: Coloring, order: seq<Hash>, s: Scored)
    requires Held(dag, gd, order) && s in ScoredOf(dag, gd, order)
    ensures s.block.parents != [] && exists h :: h in dag && dag[h] == s.block
    decreases |order|
  {
    var k := |order| - 1;
    assert order[k] in order;
    if s in ScoredOf(dag, gd, order[..k]) {
      ScoredAreHeld(dag, gd, order[..k], s);
    }
  }

  /** A block that applied in full has no account credit without an address. */
  lemma {:induction false} AdmittedBlockIsCreditable(rules: Rules, commit: Ledger -> Hash, b: Block, score: nat)
    requires Admitted(NodeSemantics(rules, commit), b, score)
    ensures BlockCreditable(b)
  {
    var l :| NodeSemantics(rules, commit).admit(l, b, score).Some?;
    assert Admit(rules, l, b, score).Some?;
    AdmittedIsCreditable(rules, l, b.body.utxoTxs, score);
  }

  /** The blocks that the ledger at `b` replays. */
  ghost function BlocksAt(dag: BlockDag, b: Hash): seq<Scored> {
    var gd := ColoringOf(dag);
    if Replayable(dag, gd) && b in gd then ScoredOf(dag, gd, Order(gd, b)) else []
  }

  lemma {:induction false} LedgerAtIsReplay(rules: Rules, commit: Ledger -> Hash, dag: BlockDag, seed: Ledger, b: Hash)
    ensures LedgerAt(NodeSemantics(rules, commit), dag, seed, b) == ReplayAll(rules, seed, BlocksAt(dag, b))
  {
    var gd := ColoringOf(dag);
    if Replayable(dag, gd) && b in gd {
      ReplayedIsReplayAll(rules, commit, dag, gd, seed, Order(gd, b));
    }
  }

  lemma {:induction false} BlocksAtAreCreditable(rules: Rules, commit: Ledger -> Hash, dag: BlockDag, b: Hash)
    requires AllAdmitted(NodeSemantics(rules, commit), dag)
    ensures forall s :: s in BlocksAt(dag, b) ==> BlockCreditable(s.block)
  {
    var gd := ColoringOf(dag);
    forall s | s in BlocksAt(dag, b)
      ensures BlockCreditable(s.block)
    {
      ScoredAreHeld(dag, gd, Order(gd, b), s);
      var h :| h in dag && dag[h] == s.block;
      var score :| Admitted(NodeSemantics(rules, commit), dag[h], score);
      AdmittedBlockIsCreditable(rules, commit, s.block, score);
    }
  }

  /** Whatever arrives at a node seeded with a balanced ledger, the live ledger never mints
      beyond the cap, what is minted but not held is exactly what was overwritten, and the
      node's own supply check holds exactly when nothing was overwritten and nothing lies in
      escrow. If the replayed blocks have their own coinbase ids and their transactions their
      own hashes, nothing was overwritten and all that is minted is held. */
  method RunSupply(rules: Rules, commit: Ledger -> Hash, g: Hash, genesis: Block, seed: Ledger, arrivals: seq<Arrival>)
    returns (dag: BlockDag, tip: Hash, ledger: Ledger)
    requires genesis.parents == [] && SpentApart(seed) && seed.minted == Wealth(seed) <= MAX_SUPPLY
    ensures dag == After(NodeSemantics(rules, commit), seed, map[g := genesis], arrivals)
    ensures ledger == ReplayAll(rules, seed, BlocksAt(dag, tip))
    ensures ledger.minted <= MAX_SUPPLY
    ensures ledger.minted == Wealth(ledger) + TotalLoss(rules, seed, BlocksAt(dag, tip))
    ensures SupplyInvariantOk(ledger) <==> TotalLoss(rules, seed, BlocksAt(dag, tip)) == 0 && Escrowed(ledger) == 0
    ensures FreshBlocks(seed, BlocksAt(dag, tip)) ==>
              && TotalLoss(rules, seed, BlocksAt(dag, tip)) == 0 && ledger.minted == Wealth(ledger)
              && (SupplyInvariantOk(ledger) <==> Escrowed(ledger) == 0)
  {
    NodeSemanticsIsLawful(rules, commit);
    var base, seen;
    ghost var folded;
    dag, tip, ledger, base, seen, folded := Run(NodeSemantics(rules, commit), g, genesis, seed, arrivals);
    LedgerAtIsReplay(rules, commit, dag, seed, tip);
    BlocksAtAreCreditable(rules, commit, dag, tip);
    ReplayConserves(rules, seed, BlocksAt(dag, tip));
    SupplyCheckExact(rules, seed, BlocksAt(dag, tip));
    if FreshBlocks(seed, BlocksAt(dag, tip)) {
      FreshReplayLosesNothing(rules, seed, BlocksAt(dag, tip));
    }
  }

  // ----- Where the node's own check fails -----

  /** Funding an escrow breaks the node's own supply check, whatever the ledger. */
  lemma {:induction false} FundingBreaksCheck(l: Ledger, op: RegistryOp, blue: nat)
    requires SupplyInvariantOk(l) && op.action.FundEscrow? && op.action.amount > 0 && ApplyRegistryOp(l, op, blue).ok
    ensures !SupplyInvariantOk(ApplyRegistryOp(l, op, blue).ledger)
  {
    var r := ApplyRegistryOp(l, op, blue).ledger;
    RegistryOpConserves(l, op, blue);
    var id := op.action.escrowId;
    TotalUpdated(l.escrows, FundedOf, id, r.escrows[id]);
  }

  /** Two coinbases with one id: the later one destroys the earlier one's value. */
  lemma {:induction false} CoinbaseCollision(l: Ledger, first: Block, second: Block, blue1: nat, blue2: nat,
                                             fees1: nat, fees2: nat)
    requires SpentApart(l) && first.coinbaseTxid == second.coinbaseTxid
    requires Subsidy(l, blue1) + fees1 > 0 && Subsidy(Reward(l, first, blue1, fees1), blue2) + fees2 > 0
    ensures CoinbaseLoss(Reward(l, first, blue1, fees1), second, blue2, fees2) == Subsidy(l, blue1) + fees1
  {
  }

  /** A ledger and an operation for which the check fails after it held. */
  lemma {:induction false} EscrowCounterexample() returns (l: Ledger, op: RegistryOp)
    ensures SupplyInvariantOk(l) && ApplyRegistryOp(l, op, 0).ok && !SupplyInvariantOk(ApplyRegistryOp(l, op, 0).ledger)
  {
    var e := Escrow("buyer", "seller", 5, 0, Open, None, 0);
    l := Ledger(map["buyer" := Account(5, 0)], map[], map[], {}, map[], map[0 := e], 5, 0);
    op := RegistryOp("buyer", true, 0, FundEscrow(0, 5));
    TotalWithout(l.accounts, BalanceOf, "buyer");
    assert l.accounts - {"buyer"} == map[];
    FundingBreaksCheck(l, op, 0);
  }
}
