/** Supply accounting: where every minted unit is, exactly. */
module Supply {
  import opened Types
  import opened LedgerSteps
  import opened BlockEffects
  import opened Sums

  function BalanceOf(a: Account): nat { a.balance }

  function ValueOf(o: TxOut): nat { o.value }

  function FundedOf(e: Escrow): nat { e.funded }

  function Itself(n: nat): nat { n }

  ghost function Escrowed(l: Ledger): nat { Total(l.escrows, FundedOf) }

  /** What the node's own supply check adds up. */
  ghost function Counted(l: Ledger): nat {
    Total(l.accounts, BalanceOf) + Total(l.staked, Itself) + Total(l.utxo, ValueOf) + l.feesBurned
  }

  ghost function Wealth(l: Ledger): nat {
    Counted(l) + Escrowed(l)
  }

  ghost predicate SupplyInvariantOk(l: Ledger) {
    Counted(l) == l.minted
  }

  // ----- Single updates -----

  lemma {:induction false} SetAccount(l: Ledger, addr: string, a: Account)
    ensures Wealth(l.(accounts := l.accounts[addr := a])) + AccountAt(l, addr).balance == Wealth(l) + a.balance
  {
    TotalUpdated(l.accounts, BalanceOf, addr, a);
  }

  lemma {:induction false} SetStake(l: Ledger, addr: string, n: nat)
    ensures Wealth(l.(staked := l.staked[addr := n])) + StakedAt(l, addr) == Wealth(l) + n
  {
    TotalUpdated(l.staked, Itself, addr, n);
  }

  lemma {:induction false} SetEscrow(l: Ledger, id: Hash, e: Escrow)
    ensures Wealth(l.(escrows := l.escrows[id := e])) + At(l.escrows, FundedOf, id) == Wealth(l) + e.funded
  {
    TotalUpdated(l.escrows, FundedOf, id, e);
  }

  lemma {:induction false} CreditAdds(l: Ledger, addr: string, amount: nat)
    ensures Wealth(CreditTo(l, addr, amount)) == Wealth(l) + amount
  {
    var a := AccountAt(l, addr);
    SetAccount(l, addr, a.(balance := a.balance + amount));
  }

  /** Inserting an output adds its value and destroys whatever was there. */
  lemma {:induction false} InsertAdds(l: Ledger, op: OutPoint, out: TxOut)
    ensures Wealth(Insert(l, op, out)) + At(l.utxo, ValueOf, op) == Wealth(l) + out.value
  {
    TotalUpdated(l.utxo, ValueOf, op, out);
  }

  lemma {:induction false} SpendRemoves(l: Ledger, op: OutPoint)
    requires Spend(l, op).Some?
    ensures Wealth(Spend(l, op).value) + l.utxo[op].value == Wealth(l)
  {
    TotalRemoved(l.utxo, ValueOf, op);
  }

  // ----- UTXO transactions -----

  /** No live output is also marked spent. */
  ghost predicate SpentApart(l: Ledger) {
    l.utxo.Keys !! l.spent
  }

  /** Distinct live inputs can all be spent, and take their value along. */
  lemma {:induction false} SpendAllRemoves(l: Ledger, inputs: seq<TxIn>)
    requires SpentApart(l) && DistinctInputs(inputs) && forall x :: x in inputs ==> x.previous in l.utxo
    ensures var s := SpendAll(l, inputs);
            && s.ok && SpentApart(s.ledger) && Wealth(s.ledger) + InputSum(l, inputs) == Wealth(l)
            && s.ledger.minted == l.minted
            && (forall op :: op in s.ledger.utxo <==> op in l.utxo && forall x :: x in inputs ==> x.previous != op)
            && (forall op :: op in s.ledger.utxo ==> s.ledger.utxo[op] == l.utxo[op])
  {
    if inputs != [] {
      var k := |inputs| - 1;
      SpendAllRemoves(l, inputs[..k]);
      var before := SpendAll(l, inputs[..k]).ledger;
      assert forall x :: x in inputs <==> x in inputs[..k] || x == inputs[k];
      assert inputs[k].previous in before.utxo;
      SpendRemoves(before, inputs[k].previous);
    }
  }

  /** The value of live outputs that creating the first `n` outputs overwrites. */
  ghost function Overwritten(l: Ledger, tx: UtxoTx, n: nat, blue: nat): nat
    requires n <= |tx.outputs|
  {
    if n == 0 then 0
    else Overwritten(l, tx, n - 1, blue)
         + if IsAccountCredit(tx.outputs[n - 1].lock) then 0
           else At(CreateAll(l, tx, n - 1, blue).ledger.utxo, ValueOf, OutPoint(tx.txHash, n - 1))
  }

  lemma {:induction false} CreateAllAdds(l: Ledger, tx: UtxoTx, n: nat, blue: nat)
    requires n <= |tx.outputs| && Creditable(tx) && SpentApart(l)
    ensures var s := CreateAll(l, tx, n, blue);
            && s.ok && s.fee == tx.fee && SpentApart(s.ledger) && s.ledger.minted == l.minted
            && Wealth(s.ledger) + Overwritten(l, tx, n, blue) == Wealth(l) + OutputSum(tx.outputs[..n])
  {
    if n > 0 {
      CreateAllAdds(l, tx, n - 1, blue);
      var before := CreateAll(l, tx, n - 1, blue).ledger;
      var out := tx.outputs[n - 1];
      assert tx.outputs[..n][..n - 1] == tx.outputs[..n - 1];
      if IsAccountCredit(out.lock) {
        CreditAdds(before, LockedAddress(out.lock).value, out.value);
      } else {
        InsertAdds(before, OutPoint(tx.txHash, n - 1), out.(createdBlue := blue));
      }
    }
  }

  /** What an applied transaction destroys by overwriting live outputs. */
  ghost function TxLoss(rules: Rules, l: Ledger, tx: UtxoTx, blue: nat): nat {
    if ApplyUtxoTx(rules, l, tx, blue).ok then Overwritten(SpendAll(l, tx.inputs).ledger, tx, |tx.outputs|, blue) else 0
  }

  /** A transaction that applies moves value and pays its fee; one that does not changes
      nothing. */
  lemma {:induction false} UtxoTxConserves(rules: Rules, l: Ledger, tx: UtxoTx, blue: nat)
    requires SpentApart(l) && Creditable(tx)
    ensures var s := ApplyUtxoTx(rules, l, tx, blue);
            && SpentApart(s.ledger) && s.ledger.minted == l.minted
            && (s.ok <==> Spendable(rules, l, tx, blue)) && (!s.ok ==> s.ledger == l)
            && Wealth(s.ledger) + (if s.ok then s.fee else 0) + TxLoss(rules, l, tx, blue) == Wealth(l)
  {
    if Spendable(rules, l, tx, blue) {
      SpendAllRemoves(l, tx.inputs);
      CreateAllAdds(SpendAll(l, tx.inputs).ledger, tx, |tx.outputs|, blue);
      assert tx.outputs[..|tx.outputs|] == tx.outputs;
    }
  }

  lemma {:induction false} CreationBounded(l: Ledger, tx: UtxoTx, n: nat, blue: nat)
    requires n <= |tx.outputs|
    ensures Wealth(CreateAll(l, tx, n, blue).ledger) <= Wealth(l) + OutputSum(tx.outputs[..n])
    ensures CreateAll(l, tx, n, blue).ok ==>
              forall i :: 0 <= i < n && IsAccountCredit(tx.outputs[i].lock) ==> LockedAddress(tx.outputs[i].lock).Some?
  {
    if n > 0 {
      CreationBounded(l, tx, n - 1, blue);
      var before := CreateAll(l, tx, n - 1, blue).ledger;
      var out := tx.outputs[n - 1];
      assert tx.outputs[..n][..n - 1] == tx.outputs[..n - 1];
      if IsAccountCredit(out.lock) {
        if LockedAddress(out.lock).Some? {
          CreditAdds(before, LockedAddress(out.lock).value, out.value);
        }
      } else {
        InsertAdds(before, OutPoint(tx.txHash, n - 1), out.(createdBlue := blue));
      }
    }
  }

  /** A transaction with an account credit that names no address fails only after its inputs
      are gone: the value is destroyed. */
  lemma {:induction false} CreditWithoutAddressDestroys(rules: Rules, l: Ledger, tx: UtxoTx, blue: nat)
    requires SpentApart(l) && Spendable(rules, l, tx, blue) && !Creditable(tx)
    ensures !ApplyUtxoTx(rules, l, tx, blue).ok && Wealth(ApplyUtxoTx(rules, l, tx, blue).ledger) < Wealth(l)
  {
    SpendAllRemoves(l, tx.inputs);
    CreationBounded(SpendAll(l, tx.inputs).ledger, tx, |tx.outputs|, blue);
    assert tx.outputs[..|tx.outputs|] == tx.outputs;
  }

  lemma {:induction false} SumsOfOne(l: Ledger, x: TxIn, out: TxOut)
    requires x.previous in l.utxo
    ensures InputSum(l, [x]) == l.utxo[x.previous].value && OutputSum([out]) == out.value
  {
    assert [x][..0] == [] && [out][..0] == [];
    assert InputSum(l, []) == 0 && OutputSum([]) == 0;
  }

  /** Such a transaction: a hash lock joined to a credit, so that no address leads. */
  lemma {:induction false} CreditWithoutAddressExample(rules: Rules, owner: string) returns (l: Ledger, tx: UtxoTx)
    requires rules.same(owner, owner)
    ensures SpentApart(l) && Spendable(rules, l, tx, 0) && !Creditable(tx)
    ensures !ApplyUtxoTx(rules, l, tx, 0).ok && Wealth(ApplyUtxoTx(rules, l, tx, 0).ledger) < Wealth(l)
  {
    var op := OutPoint(1, 0);
    l := Ledger(map[], map[], map[op := TxOut(10_000, PayToAddress(owner), 0)], {}, map[], map[], 10_000, 0);
    tx := UtxoTx([TxIn(op, 0, Signature)], [TxOut(1000, And(HashLock(0), CreditAccount(owner)), 0)],
                 0, 9000, rules.chainId, owner, [], true, 2, 2, 8000);
    assert forall x :: x in tx.inputs ==> x == tx.inputs[0];
    assert InputOk(rules, l, tx, tx.inputs[0], 0);
    SumsOfOne(l, tx.inputs[0], tx.outputs[0]);
    var lock := And(HashLock(0), CreditAccount(owner));
    assert IsAccountCredit(lock.right) && LockedAddress(lock.left).None?;
    assert tx.outputs[0].lock == lock && IsAccountCredit(lock) && LockedAddress(lock).None?;
    CreditWithoutAddressDestroys(rules, l, tx, 0);
  }

  /** No admitted block carries such a transaction. */
  lemma {:induction false} AdmittedIsCreditable(rules: Rules, l: Ledger, txs: seq<UtxoTx>, blue: nat)
    requires AdmitUtxoTxs(rules, l, txs, blue).Some?
    ensures forall tx :: tx in txs ==> Creditable(tx)
  {
    if txs != [] {
      var k := |txs| - 1;
      AdmittedIsCreditable(rules, l, txs[..k], blue);
      var before := AdmitUtxoTxs(rules, l, txs[..k], blue).value.ledger;
      CreationBounded(SpendAll(before, txs[k].inputs).ledger, txs[k], |txs[k].outputs|, blue);
      assert forall tx :: tx in txs <==> tx in txs[..k] || tx == txs[k];
    }
  }

  // ----- Registry and custody -----

  /** What an operation that is not a transaction keeps. */
  ghost predicate Conserves(l: Ledger, m: Ledger) {
    Wealth(m) == Wealth(l) && m.minted == l.minted && m.utxo == l.utxo && m.spent == l.spent
  }

  lemma {:induction false} PayOutConserves(l: Ledger, id: Hash, to: string, status: EscrowStatus)
    requires id in l.escrows
    ensures Conserves(l, PayOut(l, id, to, status))
  {
    var esc := l.escrows[id];
    var e := esc.(funded := 0, status := status);
    SetEscrow(l, id, e);
    CreditAdds(l.(escrows := l.escrows[id := e]), to, esc.funded);
  }

  lemma {:induction false} RefundConserves(l: Ledger, id: Hash)
    requires id in l.escrows
    ensures Conserves(l, Refund(l, id))
  {
    var esc := l.escrows[id];
    if esc.funded > 0 {
      PayOutConserves(l, id, esc.buyer, Refunded);
    } else {
      SetEscrow(l, id, esc.(status := Refunded));
    }
  }

  lemma {:induction false} FundConserves(l: Ledger, signer: string, id: Hash, amount: nat, e: Escrow)
    requires id in l.escrows && signer in l.accounts && l.accounts[signer].balance >= amount
    requires e.funded == l.escrows[id].funded + amount
    ensures var a := l.accounts[signer];
            Conserves(l, l.(accounts := l.accounts[signer := a.(balance := a.balance - amount)],
                            escrows := l.escrows[id := e]))
  {
    var a := l.accounts[signer];
    var m := l.(accounts := l.accounts[signer := a.(balance := a.balance - amount)]);
    SetAccount(l, signer, a.(balance := a.balance - amount));
    SetEscrow(m, id, e);
  }

  lemma {:induction false} OpenConserves(l: Ledger, signer: string, action: RegistryAction, blue: nat)
    requires action.OpenEscrow? && Act(l, signer, action, blue).ok
    ensures Conserves(l, Act(l, signer, action, blue).ledger)
  {
    SetEscrow(l, action.escrowId, Escrow(action.buyer, action.seller, action.amount, 0, Open, action.title,
                                         action.timeoutBlue));
  }

  lemma {:induction false} ActConserves(l: Ledger, signer: string, action: RegistryAction, blue: nat)
    ensures Conserves(l, Act(l, signer, action, blue).ledger)
  {
    var r := Act(l, signer, action, blue);
    if r.ok {
      match action
      case IssueTitle(_, _) =>
      case TransferTitle(_, _) =>
      case OpenEscrow(_, _, _, _, _, _) => OpenConserves(l, signer, action, blue);
      case FundEscrow(id, amount) => FundConserves(l, signer, id, amount, r.ledger.escrows[id]);
      case ReleaseEscrow(id) => PayOutConserves(l, id, l.escrows[id].seller, Released);
      case RefundEscrow(id) => RefundConserves(l, id);
      case TimeoutClaimEscrow(id) => RefundConserves(l, id);
    }
  }

  /** A registry operation moves value between accounts and escrows, whether or not it
      succeeds. */
  lemma {:induction false} RegistryOpConserves(l: Ledger, op: RegistryOp, blue: nat)
    ensures Conserves(l, ApplyRegistryOp(l, op, blue).ledger)
  {
    var a := AccountAt(l, op.signer);
    var b := a.(nonce := SaturatingAdd(a.nonce, 1));
    SetAccount(l, op.signer, a);
    SetAccount(l, op.signer, b);
    ActConserves(l.(accounts := l.accounts[op.signer := b]), op.signer, op.action, blue);
  }

  /** A custody operation moves value between an account and its stake. */
  lemma {:induction false} CustodyOpConserves(l: Ledger, op: CustodyOp)
    ensures Conserves(l, ApplyCustodyOp(l, op).ledger)
    ensures !ApplyCustodyOp(l, op).ok ==> ApplyCustodyOp(l, op).ledger == l
  {
    var r := ApplyCustodyOp(l, op);
    if r.ok {
      var a := r.ledger.accounts[op.owner];
      SetAccount(l, op.owner, a);
      SetStake(l.(accounts := l.accounts[op.owner := a]), op.owner, r.ledger.staked[op.owner]);
    }
  }

  // ----- Blocks -----

  ghost function TxsLoss(rules: Rules, l: Ledger, txs: seq<UtxoTx>, blue: nat): nat {
    if txs == [] then 0
    else TxsLoss(rules, l, txs[..|txs| - 1], blue)
         + TxLoss(rules, ReplayUtxoTxs(rules, l, txs[..|txs| - 1], blue).ledger, txs[|txs| - 1], blue)
  }

  lemma {:induction false} TxsConserve(rules: Rules, l: Ledger, txs: seq<UtxoTx>, blue: nat)
    requires SpentApart(l) && forall tx :: tx in txs ==> Creditable(tx)
    ensures var s := ReplayUtxoTxs(rules, l, txs, blue);
            && SpentApart(s.ledger) && s.ledger.minted == l.minted
            && Wealth(s.ledger) + s.fees + TxsLoss(rules, l, txs, blue) == Wealth(l)
  {
    if txs != [] {
      var k := |txs| - 1;
      TxsConserve(rules, l, txs[..k], blue);
      UtxoTxConserves(rules, ReplayUtxoTxs(rules, l, txs[..k], blue).ledger, txs[k], blue);
    }
  }

  lemma {:induction false} RegistryOpsConserve(l: Ledger, ops: seq<RegistryOp>, blue: nat)
    ensures Conserves(l, ReplayRegistryOps(l, ops, blue))
  {
    if ops != [] {
      RegistryOpsConserve(l, ops[..|ops| - 1], blue);
      RegistryOpConserves(ReplayRegistryOps(l, ops[..|ops| - 1], blue), ops[|ops| - 1], blue);
    }
  }

  lemma {:induction false} CustodyOpsConserve(l: Ledger, ops: seq<CustodyOp>)
    ensures Conserves(l, ReplayCustodyOps(l, ops))
  {
    if ops != [] {
      CustodyOpsConserve(l, ops[..|ops| - 1]);
      CustodyOpConserves(ReplayCustodyOps(l, ops[..|ops| - 1]), ops[|ops| - 1]);
    }
  }

  /** What a coinbase destroys by overwriting a live output of the same id. */
  ghost function CoinbaseLoss(l: Ledger, block: Block, blue: nat, fees: nat): nat {
    if Subsidy(l, blue) + fees == 0 then 0 else At(l.utxo, ValueOf, OutPoint(block.coinbaseTxid, U32_MAX))
  }

  lemma {:induction false} RewardAdds(l: Ledger, block: Block, blue: nat, fees: nat)
    requires SpentApart(l)
    ensures var r := Reward(l, block, blue, fees);
            && SpentApart(r) && r.minted == l.minted + Subsidy(l, blue)
            && Wealth(r) + CoinbaseLoss(l, block, blue, fees) == Wealth(l) + Subsidy(l, blue) + fees
  {
    var subsidy := Subsidy(l, blue);
    if subsidy + fees > 0 {
      MintAdds(l, subsidy, OutPoint(block.coinbaseTxid, U32_MAX),
               TxOut(subsidy + fees, PayToAddress(block.miner), blue));
    }
  }

  lemma {:induction false} MintAdds(l: Ledger, subsidy: nat, op: OutPoint, out: TxOut)
    requires SpentApart(l)
    ensures var r := Insert(l.(minted := l.minted + subsidy), op, out);
            && SpentApart(r) && r.minted == l.minted + subsidy
            && Wealth(r) + At(l.utxo, ValueOf, op) == Wealth(l) + out.value
  {
    var minted := l.(minted := l.minted + subsidy);
    assert Wealth(minted) == Wealth(l);
    InsertAdds(minted, op, out);
  }

  /** All that a block destroys. */
  ghost function BlockLoss(rules: Rules, l: Ledger, block: Block, blue: nat): nat {
    var body := ReplayBody(rules, l, block.body, blue);
    TxsLoss(rules, l, block.body.utxoTxs, blue) + CoinbaseLoss(body.ledger, block, blue, body.fees)
  }

  ghost predicate BlockCreditable(block: Block) {
    forall tx :: tx in block.body.utxoTxs ==> Creditable(tx)
  }

  /** Minted units not accounted for. */
  ghost function Gap(l: Ledger): int {
    l.minted - Wealth(l)
  }

  /** A block widens the gap by exactly what it destroys, and never mints beyond the cap. */
  lemma {:induction false} BlockConserves(rules: Rules, l: Ledger, block: Block, blue: nat)
    requires SpentApart(l) && BlockCreditable(block)
    ensures var r := Apply(rules, l, block, blue);
            && SpentApart(r) && Gap(r) == Gap(l) + BlockLoss(rules, l, block, blue)
            && l.minted <= r.minted && (l.minted <= MAX_SUPPLY ==> r.minted <= MAX_SUPPLY)
  {
    var utxo := ReplayUtxoTxs(rules, l, block.body.utxoTxs, blue);
    TxsConserve(rules, l, block.body.utxoTxs, blue);
    RegistryOpsConserve(utxo.ledger, block.body.registryOps, blue);
    var registry := ReplayRegistryOps(utxo.ledger, block.body.registryOps, blue);
    CustodyOpsConserve(registry, block.body.custodyOps);
    RewardAdds(ReplayCustodyOps(registry, block.body.custodyOps), block, blue, utxo.fees);
  }

  // ----- Any replay -----

  datatype Scored = Scored(block: Block, blue: nat)

  ghost function ReplayAll(rules: Rules, l: Ledger, blocks: seq<Scored>): Ledger {
    if blocks == [] then l
    else Apply(rules, ReplayAll(rules, l, blocks[..|blocks| - 1]), blocks[|blocks| - 1].block,
               blocks[|blocks| - 1].blue)
  }

  ghost function TotalLoss(rules: Rules, l: Ledger, blocks: seq<Scored>): nat {
    if blocks == [] then 0
    else
      var k := |blocks| - 1;
      TotalLoss(rules, l, blocks[..k])
      + BlockLoss(rules, ReplayAll(rules, l, blocks[..k]), blocks[k].block, blocks[k].blue)
  }

  /** Over any replay the gap is what was destroyed, and minting stays under the cap. */
  lemma {:induction false} ReplayConserves(rules: Rules, l: Ledger, blocks: seq<Scored>)
    requires SpentApart(l) && l.minted <= MAX_SUPPLY && forall b :: b in blocks ==> BlockCreditable(b.block)
    ensures var r := ReplayAll(rules, l, blocks);
            SpentApart(r) && r.minted <= MAX_SUPPLY && Gap(r) == Gap(l) + TotalLoss(rules, l, blocks)
  {
    if blocks != [] {
      var k := |blocks| - 1;
      ReplayConserves(rules, l, blocks[..k]);
      BlockConserves(rules, ReplayAll(rules, l, blocks[..k]), blocks[k].block, blocks[k].blue);
    }
  }

  /** From a balanced seed, the node's own supply check holds after a replay exactly when
      nothing was overwritten and nothing lies in escrow. */
  lemma {:induction false} SupplyCheckExact(rules: Rules, l: Ledger, blocks: seq<Scored>)
    requires SpentApart(l) && l.minted == Wealth(l) <= MAX_SUPPLY
    requires forall b :: b in blocks ==> BlockCreditable(b.block)
    ensures var r := ReplayAll(rules, l, blocks);
            SupplyInvariantOk(r) <==> TotalLoss(rules, l, blocks) == 0 && Escrowed(r) == 0
  {
    ReplayConserves(rules, l, blocks);
  }

  // ----- What is minted -----

  /** The subsidies that the schedule sets for these blocks. */
  function Schedule(blocks: seq<Scored>): nat {
    if blocks == [] then 0 else Schedule(blocks[..|blocks| - 1]) + BlockSubsidy(blocks[|blocks| - 1].blue)
  }

  lemma {:induction false} TxKeepsMinted(l: Ledger, tx: UtxoTx, inputs: seq<TxIn>, n: nat, blue: nat)
    requires n <= |tx.outputs|
    ensures SpendAll(l, inputs).ledger.minted == l.minted && CreateAll(l, tx, n, blue).ledger.minted == l.minted
    decreases |inputs| + n
  {
    if inputs != [] {
      TxKeepsMinted(l, tx, inputs[..|inputs| - 1], n, blue);
    } else if n > 0 {
      TxKeepsMinted(l, tx, inputs, n - 1, blue);
    }
  }

  lemma {:induction false} TxsKeepMinted(rules: Rules, l: Ledger, txs: seq<UtxoTx>, blue: nat)
    ensures ReplayUtxoTxs(rules, l, txs, blue).ledger.minted == l.minted
  {
    if txs != [] {
      var k := |txs| - 1;
      TxsKeepMinted(rules, l, txs[..k], blue);
      var m, tx := ReplayUtxoTxs(rules, l, txs[..k], blue).ledger, txs[k];
      TxKeepsMinted(m, tx, tx.inputs, 0, blue);
      TxKeepsMinted(SpendAll(m, tx.inputs).ledger, tx, [], |tx.outputs|, blue);
    }
  }

  lemma {:induction false} OpKeepsMinted(l: Ledger, op: RegistryOp, blue: nat)
    ensures ApplyRegistryOp(l, op, blue).ledger.minted == l.minted
  {
  }

  lemma {:induction false} RegistryKeepsMinted(l: Ledger, ops: seq<RegistryOp>, blue: nat)
    ensures ReplayRegistryOps(l, ops, blue).minted == l.minted
  {
    if ops != [] {
      var k := |ops| - 1;
      RegistryKeepsMinted(l, ops[..k], blue);
      OpKeepsMinted(ReplayRegistryOps(l, ops[..k], blue), ops[k], blue);
    }
  }

  lemma {:induction false} CustodyKeepsMinted(l: Ledger, ops: seq<CustodyOp>)
    ensures ReplayCustodyOps(l, ops).minted == l.minted
  {
    if ops != [] {
      CustodyKeepsMinted(l, ops[..|ops| - 1]);
    }
  }

  /** Over any replay exactly the schedule is minted, up to the cap. */
  lemma {:induction false} MintsTheSchedule(rules: Rules, l: Ledger, blocks: seq<Scored>)
    requires l.minted <= MAX_SUPPLY
    ensures ReplayAll(rules, l, blocks).minted ==
            if l.minted + Schedule(blocks) <= MAX_SUPPLY then l.minted + Schedule(blocks) else MAX_SUPPLY
  {
    if blocks != [] {
      var k := |blocks| - 1;
      MintsTheSchedule(rules, l, blocks[..k]);
      var m, b := ReplayAll(rules, l, blocks[..k]), blocks[k];
      var utxo := ReplayUtxoTxs(rules, m, b.block.body.utxoTxs, b.blue).ledger;
      TxsKeepMinted(rules, m, b.block.body.utxoTxs, b.blue);
      RegistryKeepsMinted(utxo, b.block.body.registryOps, b.blue);
      CustodyKeepsMinted(ReplayRegistryOps(utxo, b.block.body.registryOps, b.blue), b.block.body.custodyOps);
    }
  }
}
