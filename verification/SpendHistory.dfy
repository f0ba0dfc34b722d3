/** What became of every output over a whole replay: where each live one came from, and that
    none of the spent ones comes back. */
module SpendHistory {
  import opened Types
  import opened LedgerSteps
  import opened BlockEffects
  import opened Sums
  import opened Supply

  // ----- UTXO transactions -----

  /** The outpoint is one the transaction creates. */
  predicate CreatedBy(tx: UtxoTx, n: nat, op: OutPoint) {
    op.txid == tx.txHash && op.vout < n && op.vout < |tx.outputs| && !IsAccountCredit(tx.outputs[op.vout].lock)
  }

  lemma {:induction false} CreateEffect(l: Ledger, tx: UtxoTx, n: nat, blue: nat, op: OutPoint)
    requires n <= |tx.outputs| && CreateAll(l, tx, n, blue).ok
    ensures var after := CreateAll(l, tx, n, blue).ledger;
            && (op in after.utxo <==> op in l.utxo || CreatedBy(tx, n, op))
            && (op in after.utxo ==>
                  after.utxo[op] == if CreatedBy(tx, n, op) then tx.outputs[op.vout].(createdBlue := blue)
                                    else l.utxo[op])
  {
    if n > 0 {
      CreateEffect(l, tx, n - 1, blue, op);
    }
  }

  /** The unspent outputs after a transaction that applies: its inputs gone, its outputs that
      are not account credits there with its blue score, every other one as it was. */
  lemma {:induction false} TxEffect(rules: Rules, l: Ledger, tx: UtxoTx, blue: nat, op: OutPoint)
    requires SpentApart(l) && ApplyUtxoTx(rules, l, tx, blue).ok
    ensures var after := ApplyUtxoTx(rules, l, tx, blue).ledger;
            && (op in after.utxo <==>
                  || CreatedBy(tx, |tx.outputs|, op)
                  || (op in l.utxo && forall x :: x in tx.inputs ==> x.previous != op))
            && (op in after.utxo ==>
                  after.utxo[op] == if CreatedBy(tx, |tx.outputs|, op) then tx.outputs[op.vout].(createdBlue := blue)
                                    else l.utxo[op])
  {
    SpendAllRemoves(l, tx.inputs);
    CreateEffect(SpendAll(l, tx.inputs).ledger, tx, |tx.outputs|, blue, op);
  }

  /** Also when a later output cannot be created: nothing comes back, nothing else appears. */
  lemma {:induction false} CreateOrigin(l: Ledger, tx: UtxoTx, n: nat, blue: nat, op: OutPoint)
    requires n <= |tx.outputs| && op in CreateAll(l, tx, n, blue).ledger.utxo && !CreatedBy(tx, n, op)
    ensures op in l.utxo && CreateAll(l, tx, n, blue).ledger.utxo[op] == l.utxo[op]
  {
    if n > 0 {
      CreateOrigin(l, tx, n - 1, blue, op);
    }
  }

  lemma {:induction false} CreateKeepsApart(l: Ledger, tx: UtxoTx, n: nat, blue: nat)
    requires n <= |tx.outputs| && SpentApart(l)
    ensures SpentApart(CreateAll(l, tx, n, blue).ledger)
  {
    if n > 0 {
      CreateKeepsApart(l, tx, n - 1, blue);
    }
  }

  lemma {:induction false} TxOrigin(rules: Rules, l: Ledger, tx: UtxoTx, blue: nat, op: OutPoint)
    requires SpentApart(l) && Spendable(rules, l, tx, blue)
    requires op in ApplyUtxoTx(rules, l, tx, blue).ledger.utxo && !CreatedBy(tx, |tx.outputs|, op)
    ensures op in l.utxo && op !in Spends(tx) && ApplyUtxoTx(rules, l, tx, blue).ledger.utxo[op] == l.utxo[op]
  {
    SpendAllRemoves(l, tx.inputs);
    CreateOrigin(SpendAll(l, tx.inputs).ledger, tx, |tx.outputs|, blue, op);
  }

  // ----- When nothing is overwritten -----

  /** None of the outpoints a transaction creates is live. */
  ghost predicate FreshTx(l: Ledger, tx: UtxoTx) {
    forall i {:trigger OutPoint(tx.txHash, i)} :: 0 <= i < |tx.outputs| ==> OutPoint(tx.txHash, i) !in l.utxo
  }

  lemma {:induction false} FreshOverwritesNothing(l: Ledger, tx: UtxoTx, n: nat, blue: nat)
    requires n <= |tx.outputs| && FreshTx(l, tx)
    ensures Overwritten(l, tx, n, blue) == 0
    ensures forall i :: n <= i < |tx.outputs| ==> OutPoint(tx.txHash, i) !in CreateAll(l, tx, n, blue).ledger.utxo
  {
    if n > 0 {
      FreshOverwritesNothing(l, tx, n - 1, blue);
    }
  }

  /** A transaction whose outpoints are fresh destroys nothing. */
  lemma {:induction false} FreshTxLosesNothing(rules: Rules, l: Ledger, tx: UtxoTx, blue: nat)
    requires SpentApart(l) && FreshTx(l, tx)
    ensures TxLoss(rules, l, tx, blue) == 0
  {
    if ApplyUtxoTx(rules, l, tx, blue).ok {
      SpendAllRemoves(l, tx.inputs);
      FreshOverwritesNothing(SpendAll(l, tx.inputs).ledger, tx, |tx.outputs|, blue);
    }
  }

  // ----- Conditions on the blocks -----

  /** The outpoints a transaction spends. */
  function Spends(tx: UtxoTx): set<OutPoint> {
    set x | x in tx.inputs :: x.previous
  }

  /** Transactions with one hash spend the same outpoints, which the hash covers; none creates
      an outpoint the seed holds, or as many outputs as would reach the coinbase index. */
  ghost predicate FreshTxs(seed: Ledger, txs: set<UtxoTx>) {
    && (forall s, t :: s in txs && t in txs && s.txHash == t.txHash ==> Spends(s) == Spends(t))
    && (forall t :: t in txs ==> |t.outputs| <= U32_MAX && FreshTx(seed, t))
  }

  function CoinbaseOf(b: Scored): OutPoint {
    OutPoint(b.block.coinbaseTxid, U32_MAX)
  }

  /** Every coinbase has its own id, and the seed holds none of them. */
  ghost predicate FreshCoinbases(seed: Ledger, blocks: seq<Scored>) {
    && (forall i, j :: 0 <= i < j < |blocks| ==> CoinbaseOf(blocks[i]) != CoinbaseOf(blocks[j]))
    && (forall i :: 0 <= i < |blocks| ==> CoinbaseOf(blocks[i]) !in seed.utxo)
  }

  ghost function AllTxs(blocks: seq<Scored>): set<UtxoTx> {
    set b, tx | b in blocks && tx in b.block.body.utxoTxs :: tx
  }

  ghost predicate FreshBlocks(seed: Ledger, blocks: seq<Scored>) {
    FreshTxs(seed, AllTxs(blocks)) && FreshCoinbases(seed, blocks)
  }

  // ----- History -----

  /** The coinbases created so far with their blocks, and the transactions that passed all
      their checks. */
  datatype History = History(coinbases: map<OutPoint, Scored>, done: set<UtxoTx>)

  ghost function DoneIn(rules: Rules, l: Ledger, txs: seq<UtxoTx>, blue: nat): set<UtxoTx> {
    if txs == [] then {}
    else
      var k := |txs| - 1;
      var before := DoneIn(rules, l, txs[..k], blue);
      if Spendable(rules, ReplayUtxoTxs(rules, l, txs[..k], blue).ledger, txs[k], blue)
      then before + {txs[k]}
      else before
  }

  ghost function CoinbasesOf(blocks: seq<Scored>): map<OutPoint, Scored> {
    if blocks == [] then map[]
    else CoinbasesOf(blocks[..|blocks| - 1])[CoinbaseOf(blocks[|blocks| - 1]) := blocks[|blocks| - 1]]
  }

  ghost function DoneOver(rules: Rules, seed: Ledger, blocks: seq<Scored>): set<UtxoTx> {
    if blocks == [] then {}
    else
      var k := |blocks| - 1;
      DoneOver(rules, seed, blocks[..k])
      + DoneIn(rules, ReplayAll(rules, seed, blocks[..k]), blocks[k].block.body.utxoTxs, blocks[k].blue)
  }

  ghost function HistoryOf(rules: Rules, seed: Ledger, blocks: seq<Scored>): History {
    History(CoinbasesOf(blocks), DoneOver(rules, seed, blocks))
  }

  /** The outpoint was in the seed, or a coinbase or a transaction of the history made it. */
  ghost predicate Known(seed: Ledger, past: History, op: OutPoint) {
    op in seed.utxo || op in past.coinbases || exists t :: t in past.done && CreatedBy(t, |t.outputs|, op)
  }

  /** A live coinbase entry is the one its block made. */
  predicate MinersOwn(out: TxOut, b: Scored) {
    out.lock == PayToAddress(b.block.miner) && out.createdBlue == b.blue
  }

  /** Every live output has a known origin, live coinbases are as made, and whatever a
      transaction of the history spent is known and dead. */
  ghost predicate Accounted(seed: Ledger, past: History, l: Ledger) {
    && SpentApart(l)
    && (forall op :: op in l.utxo ==> Known(seed, past, op))
    && (forall op :: op in l.utxo && op in past.coinbases ==> MinersOwn(l.utxo[op], past.coinbases[op]))
    && (forall t, op :: t in past.done && op in Spends(t) ==> Known(seed, past, op) && op !in l.utxo)
  }

  /** The history speaks of these transactions and of coinbase outpoints only. */
  ghost predicate Within(past: History, txs: set<UtxoTx>) {
    past.done <= txs && forall op :: op in past.coinbases ==> op.vout == U32_MAX
  }

  /** What a transaction outside the history creates is new. */
  lemma {:induction false} NewOutputUnknown(seed: Ledger, past: History, txs: set<UtxoTx>, tx: UtxoTx, op: OutPoint)
    requires FreshTxs(seed, txs) && Within(past, txs) && tx in txs && op.txid == tx.txHash && op.vout < |tx.outputs|
    requires forall t :: t in past.done ==> Spends(t) != Spends(tx)
    ensures !Known(seed, past, op)
  {
    assert op == OutPoint(tx.txHash, op.vout);
    assert FreshTx(seed, tx);
  }

  lemma {:induction false} DoneIsDead(rules: Rules, seed: Ledger, past: History, l: Ledger, tx: UtxoTx, blue: nat,
                                      t: UtxoTx)
    requires Accounted(seed, past, l) && Spendable(rules, l, tx, blue) && t in past.done
    ensures Spends(t) !! Spends(tx)
  {
    forall op | op in Spends(tx)
      ensures op !in Spends(t)
    {
      var x :| x in tx.inputs && x.previous == op;
      assert InputOk(rules, l, tx, x, blue);
    }
  }

  /** One transaction that passes its checks: it loses nothing and the account goes on. */
  lemma {:induction false} SpendAccounted(rules: Rules, seed: Ledger, past: History, txs: set<UtxoTx>, l: Ledger,
                                          tx: UtxoTx, blue: nat)
    requires FreshTxs(seed, txs) && Within(past, txs) && tx in txs && Accounted(seed, past, l)
    requires Spendable(rules, l, tx, blue)
    ensures TxLoss(rules, l, tx, blue) == 0
    ensures Accounted(seed, past.(done := past.done + {tx}), ApplyUtxoTx(rules, l, tx, blue).ledger)
  {
    assert tx.inputs[0] in tx.inputs && tx.inputs[0].previous in Spends(tx);
    forall t | t in past.done
      ensures Spends(t) != Spends(tx)
    {
      DoneIsDead(rules, seed, past, l, tx, blue, t);
    }
    assert FreshTx(l, tx) by {
      forall i | 0 <= i < |tx.outputs|
        ensures OutPoint(tx.txHash, i) !in l.utxo
      {
        NewOutputUnknown(seed, past, txs, tx, OutPoint(tx.txHash, i));
      }
    }
    FreshTxLosesNothing(rules, l, tx, blue);
    SpendAllRemoves(l, tx.inputs);
    CreateKeepsApart(SpendAll(l, tx.inputs).ledger, tx, |tx.outputs|, blue);
    var now, after := past.(done := past.done + {tx}), ApplyUtxoTx(rules, l, tx, blue).ledger;
    forall op | op in after.utxo
      ensures Known(seed, now, op) && (op in past.coinbases ==> MinersOwn(after.utxo[op], past.coinbases[op]))
    {
      SpendKeepsOrigins(rules, seed, past, txs, l, tx, blue, op);
    }
    forall t, op | t in now.done && op in Spends(t)
      ensures Known(seed, now, op) && op !in after.utxo
    {
      SpendKeepsDead(rules, seed, past, txs, l, tx, blue, t, op);
    }
  }

  lemma {:induction false} SpendKeepsOrigins(rules: Rules, seed: Ledger, past: History, txs: set<UtxoTx>, l: Ledger,
                                             tx: UtxoTx, blue: nat, op: OutPoint)
    requires FreshTxs(seed, txs) && Within(past, txs) && tx in txs && Accounted(seed, past, l)
    requires Spendable(rules, l, tx, blue)
    requires op in ApplyUtxoTx(rules, l, tx, blue).ledger.utxo
    ensures Known(seed, past.(done := past.done + {tx}), op)
    ensures op in past.coinbases ==> MinersOwn(ApplyUtxoTx(rules, l, tx, blue).ledger.utxo[op], past.coinbases[op])
  {
    if CreatedBy(tx, |tx.outputs|, op) {
      assert tx in past.done + {tx};
    } else {
      TxOrigin(rules, l, tx, blue, op);
      KnownGrows(seed, past, tx, op);
    }
  }

  lemma {:induction false} KnownGrows(seed: Ledger, past: History, tx: UtxoTx, op: OutPoint)
    requires Known(seed, past, op)
    ensures Known(seed, past.(done := past.done + {tx}), op)
  {
    if op !in seed.utxo && op !in past.coinbases {
      var t :| t in past.done && CreatedBy(t, |t.outputs|, op);
      assert t in past.done + {tx};
    }
  }

  lemma {:induction false} SpendKeepsDead(rules: Rules, seed: Ledger, past: History, txs: set<UtxoTx>, l: Ledger,
                                          tx: UtxoTx, blue: nat, t: UtxoTx, op: OutPoint)
    requires FreshTxs(seed, txs) && Within(past, txs) && tx in txs && Accounted(seed, past, l)
    requires Spendable(rules, l, tx, blue)
    requires forall s :: s in past.done ==> Spends(s) != Spends(tx)
    requires t in past.done + {tx} && op in Spends(t)
    ensures Known(seed, past.(done := past.done + {tx}), op) && op !in ApplyUtxoTx(rules, l, tx, blue).ledger.utxo
  {
    if t == tx {
      var x :| x in tx.inputs && x.previous == op;
      assert InputOk(rules, l, tx, x, blue);
    }
    assert Known(seed, past, op);
    KnownGrows(seed, past, tx, op);
    if CreatedBy(tx, |tx.outputs|, op) {
      NewOutputUnknown(seed, past, txs, tx, op);
    } else if op in ApplyUtxoTx(rules, l, tx, blue).ledger.utxo {
      TxOrigin(rules, l, tx, blue, op);
    }
  }

  /** The transactions of one block. */
  lemma {:induction false} TxsAccounted(rules: Rules, seed: Ledger, past: History, txs: set<UtxoTx>, l: Ledger,
                                        list: seq<UtxoTx>, blue: nat)
    requires FreshTxs(seed, txs) && Within(past, txs) && Accounted(seed, past, l) && forall t :: t in list ==> t in txs
    ensures var done := past.done + DoneIn(rules, l, list, blue);
            && done <= txs && TxsLoss(rules, l, list, blue) == 0
            && Accounted(seed, past.(done := done), ReplayUtxoTxs(rules, l, list, blue).ledger)
  {
    if list != [] {
      var k := |list| - 1;
      TxsAccounted(rules, seed, past, txs, l, list[..k], blue);
      var now := past.(done := past.done + DoneIn(rules, l, list[..k], blue));
      var before := ReplayUtxoTxs(rules, l, list[..k], blue).ledger;
      if Spendable(rules, before, list[k], blue) {
        SpendAccounted(rules, seed, now, txs, before, list[k], blue);
        assert past.done + DoneIn(rules, l, list, blue) == now.done + {list[k]};
      }
    } else {
      assert past.done + {} == past.done;
    }
  }

  /** Operations that leave the outputs alone leave the account alone. */
  lemma {:induction false} OtherOpsAccounted(seed: Ledger, past: History, l: Ledger, m: Ledger)
    requires Accounted(seed, past, l) && m.utxo == l.utxo && m.spent == l.spent
    ensures Accounted(seed, past, m)
  {
  }

  /** A coinbase with a new id. */
  lemma {:induction false} RewardAccounted(seed: Ledger, past: History, txs: set<UtxoTx>, l: Ledger, b: Scored,
                                           fees: nat)
    requires FreshTxs(seed, txs) && Within(past, txs) && Accounted(seed, past, l)
    requires CoinbaseOf(b) !in seed.utxo && CoinbaseOf(b) !in past.coinbases
    ensures CoinbaseLoss(l, b.block, b.blue, fees) == 0
    ensures Accounted(seed, past.(coinbases := past.coinbases[CoinbaseOf(b) := b]), Reward(l, b.block, b.blue, fees))
  {
    var op, after := CoinbaseOf(b), past.(coinbases := past.coinbases[CoinbaseOf(b) := b]);
    assert !Known(seed, past, op);
    assert forall x :: Known(seed, past, x) ==> Known(seed, after, x);
  }

  lemma {:induction false} BlockAccounted(rules: Rules, seed: Ledger, past: History, txs: set<UtxoTx>, l: Ledger,
                                          b: Scored)
    requires FreshTxs(seed, txs) && Within(past, txs) && Accounted(seed, past, l)
    requires forall t :: t in b.block.body.utxoTxs ==> t in txs
    requires CoinbaseOf(b) !in seed.utxo && CoinbaseOf(b) !in past.coinbases
    ensures BlockLoss(rules, l, b.block, b.blue) == 0
    ensures var after := History(past.coinbases[CoinbaseOf(b) := b],
                                 past.done + DoneIn(rules, l, b.block.body.utxoTxs, b.blue));
            Within(after, txs) && Accounted(seed, after, Apply(rules, l, b.block, b.blue))
  {
    var body := b.block.body;
    var now := past.(done := past.done + DoneIn(rules, l, body.utxoTxs, b.blue));
    var utxo := ReplayUtxoTxs(rules, l, body.utxoTxs, b.blue);
    TxsAccounted(rules, seed, past, txs, l, body.utxoTxs, b.blue);
    RegistryOpsConserve(utxo.ledger, body.registryOps, b.blue);
    var registry := ReplayRegistryOps(utxo.ledger, body.registryOps, b.blue);
    CustodyOpsConserve(registry, body.custodyOps);
    var custody := ReplayCustodyOps(registry, body.custodyOps);
    OtherOpsAccounted(seed, now, utxo.ledger, custody);
    RewardAccounted(seed, now, txs, custody, b, utxo.fees);
  }

  lemma {:induction false} CoinbaseHasBlock(blocks: seq<Scored>, op: OutPoint)
    requires op in CoinbasesOf(blocks)
    ensures exists k :: 0 <= k < |blocks| && op == CoinbaseOf(blocks[k])
  {
    var n := |blocks| - 1;
    if op != CoinbaseOf(blocks[n]) {
      CoinbaseHasBlock(blocks[..n], op);
    }
  }

  lemma {:induction false} BlockHasCoinbase(seed: Ledger, blocks: seq<Scored>, k: nat)
    requires FreshCoinbases(seed, blocks) && k < |blocks|
    ensures CoinbaseOf(blocks[k]) in CoinbasesOf(blocks) && CoinbasesOf(blocks)[CoinbaseOf(blocks[k])] == blocks[k]
  {
    if k < |blocks| - 1 {
      BlockHasCoinbase(seed, blocks[..|blocks| - 1], k);
    }
  }

  /** Over any replay of blocks with their own coinbase ids and transactions with their own
      hashes: nothing live is ever overwritten, and every output is accounted for. */
  lemma {:induction false} ReplayAccounted(rules: Rules, seed: Ledger, txs: set<UtxoTx>, blocks: seq<Scored>)
    requires SpentApart(seed) && FreshTxs(seed, txs) && FreshCoinbases(seed, blocks) && AllTxs(blocks) <= txs
    ensures var past := HistoryOf(rules, seed, blocks);
            Within(past, txs) && Accounted(seed, past, ReplayAll(rules, seed, blocks))
    ensures TotalLoss(rules, seed, blocks) == 0
  {
    if blocks != [] {
      var k := |blocks| - 1;
      var b := blocks[k];
      assert b in blocks && forall t :: t in b.block.body.utxoTxs ==> t in AllTxs(blocks);
      assert AllTxs(blocks[..k]) <= AllTxs(blocks);
      ReplayAccounted(rules, seed, txs, blocks[..k]);
      var past := HistoryOf(rules, seed, blocks[..k]);
      if CoinbaseOf(b) in past.coinbases {
        CoinbaseHasBlock(blocks[..k], CoinbaseOf(b));
      }
      BlockAccounted(rules, seed, past, txs, ReplayAll(rules, seed, blocks[..k]), b);
    }
  }

  lemma {:induction false} FreshReplayLosesNothing(rules: Rules, seed: Ledger, blocks: seq<Scored>)
    requires SpentApart(seed) && FreshBlocks(seed, blocks)
    ensures TotalLoss(rules, seed, blocks) == 0
  {
    ReplayAccounted(rules, seed, AllTxs(blocks), blocks);
  }

  lemma {:induction false} FreshPrefix(seed: Ledger, blocks: seq<Scored>, k: nat)
    requires FreshBlocks(seed, blocks) && k <= |blocks|
    ensures FreshBlocks(seed, blocks[..k])
  {
    assert AllTxs(blocks[..k]) <= AllTxs(blocks);
  }

  /** From a balanced seed, after every block of such a replay all that is minted is held, and
      the node's own supply check holds exactly when nothing lies in escrow. */
  lemma {:induction false} FreshReplayBalances(rules: Rules, seed: Ledger, blocks: seq<Scored>, k: nat)
    requires SpentApart(seed) && seed.minted == Wealth(seed) <= MAX_SUPPLY && FreshBlocks(seed, blocks) && k <= |blocks|
    requires forall b :: b in blocks ==> BlockCreditable(b.block)
    ensures var r := ReplayAll(rules, seed, blocks[..k]);
            r.minted == Wealth(r) && (SupplyInvariantOk(r) <==> Escrowed(r) == 0)
  {
    FreshPrefix(seed, blocks, k);
    FreshReplayLosesNothing(rules, seed, blocks[..k]);
    ReplayConserves(rules, seed, blocks[..k]);
  }

  // ----- Coinbases with one id -----

  lemma {:induction false} OverwrittenCounts(l: Ledger, tx: UtxoTx, n: nat, blue: nat, op: OutPoint)
    requires n <= |tx.outputs| && CreateAll(l, tx, n, blue).ok && CreatedBy(tx, n, op)
    ensures Overwritten(l, tx, n, blue) >= At(l.utxo, ValueOf, op)
  {
    if op.vout == n - 1 {
      CreateEffect(l, tx, n - 1, blue, op);
      assert op == OutPoint(tx.txHash, n - 1);
    } else {
      OverwrittenCounts(l, tx, n - 1, blue, op);
    }
  }

  /** A coinbase entry with a value, made at score `made`. */
  predicate Coin(l: Ledger, op: OutPoint, made: nat) {
    op.vout == U32_MAX && op in l.utxo && l.utxo[op].createdBlue == made && l.utxo[op].value > 0
  }

  /** Before it matures a coin stays, unless something overwrites it. */
  lemma {:induction false} TxKeepsCoin(rules: Rules, l: Ledger, tx: UtxoTx, blue: nat, op: OutPoint, made: nat)
    requires SpentApart(l) && Creditable(tx) && Coin(l, op, made) && blue < SaturatingAdd(made, COINBASE_MATURITY_BLUES)
    ensures Coin(ApplyUtxoTx(rules, l, tx, blue).ledger, op, made) || TxLoss(rules, l, tx, blue) > 0
  {
    UtxoTxConserves(rules, l, tx, blue);
    if ApplyUtxoTx(rules, l, tx, blue).ok {
      forall x | x in tx.inputs
        ensures x.previous != op
      {
        assert InputOk(rules, l, tx, x, blue);
      }
      TxEffect(rules, l, tx, blue, op);
      if CreatedBy(tx, |tx.outputs|, op) {
        SpendAllRemoves(l, tx.inputs);
        OverwrittenCounts(SpendAll(l, tx.inputs).ledger, tx, |tx.outputs|, blue, op);
      }
    }
  }

  lemma {:induction false} TxsKeepCoin(rules: Rules, l: Ledger, list: seq<UtxoTx>, blue: nat, op: OutPoint, made: nat)
    requires SpentApart(l) && (forall tx :: tx in list ==> Creditable(tx))
    requires Coin(l, op, made) && blue < SaturatingAdd(made, COINBASE_MATURITY_BLUES)
    ensures Coin(ReplayUtxoTxs(rules, l, list, blue).ledger, op, made) || TxsLoss(rules, l, list, blue) > 0
  {
    if list != [] {
      var k := |list| - 1;
      TxsKeepCoin(rules, l, list[..k], blue, op, made);
      TxsConserve(rules, l, list[..k], blue);
      if TxsLoss(rules, l, list[..k], blue) == 0 {
        TxKeepsCoin(rules, ReplayUtxoTxs(rules, l, list[..k], blue).ledger, list[k], blue, op, made);
      }
    }
  }

  /** What the block at position `k` pays its miner. */
  ghost function PaidAt(rules: Rules, l: Ledger, blocks: seq<Scored>, k: nat): nat
    requires k < |blocks|
  {
    var body := ReplayBody(rules, ReplayAll(rules, l, blocks[..k]), blocks[k].block.body, blocks[k].blue);
    Subsidy(body.ledger, blocks[k].blue) + body.fees
  }

  lemma {:induction false} BodyKeepsCoin(rules: Rules, l: Ledger, b: Scored, op: OutPoint, made: nat)
    requires SpentApart(l) && BlockCreditable(b.block)
    requires Coin(l, op, made) && b.blue < SaturatingAdd(made, COINBASE_MATURITY_BLUES)
    ensures || Coin(ReplayBody(rules, l, b.block.body, b.blue).ledger, op, made)
            || BlockLoss(rules, l, b.block, b.blue) > 0
  {
    var body := b.block.body;
    var utxo := ReplayUtxoTxs(rules, l, body.utxoTxs, b.blue).ledger;
    TxsKeepCoin(rules, l, body.utxoTxs, b.blue, op, made);
    RegistryOpsConserve(utxo, body.registryOps, b.blue);
    CustodyOpsConserve(ReplayRegistryOps(utxo, body.registryOps, b.blue), body.custodyOps);
  }

  /** A later block keeps a coin that has not matured, or destroys something. */
  lemma {:induction false} BlockKeepsCoin(rules: Rules, l: Ledger, b: Scored, op: OutPoint, made: nat)
    requires SpentApart(l) && BlockCreditable(b.block)
    requires Coin(l, op, made) && b.blue < SaturatingAdd(made, COINBASE_MATURITY_BLUES)
    ensures Coin(Apply(rules, l, b.block, b.blue), op, made) || BlockLoss(rules, l, b.block, b.blue) > 0
  {
    BodyKeepsCoin(rules, l, b, op, made);
  }

  lemma {:induction false} RewardIsCoin(rules: Rules, l: Ledger, b: Scored)
    requires var body := ReplayBody(rules, l, b.block.body, b.blue); Subsidy(body.ledger, b.blue) + body.fees > 0
    ensures Coin(Apply(rules, l, b.block, b.blue), CoinbaseOf(b), b.blue)
  {
  }

  lemma {:induction false} CoinStep(rules: Rules, l: Ledger, blocks: seq<Scored>, op: OutPoint, made: nat)
    requires SpentApart(l) && l.minted <= MAX_SUPPLY && AllCreditable(blocks) && blocks != []
    requires blocks[|blocks| - 1].blue < SaturatingAdd(made, COINBASE_MATURITY_BLUES)
    requires var before := blocks[..|blocks| - 1];
             Coin(ReplayAll(rules, l, before), op, made) || TotalLoss(rules, l, before) > 0
    ensures Coin(ReplayAll(rules, l, blocks), op, made) || TotalLoss(rules, l, blocks) > 0
  {
    var k := |blocks| - 1;
    if TotalLoss(rules, l, blocks[..k]) == 0 {
      ReplayConserves(rules, l, blocks[..k]);
      BlockKeepsCoin(rules, ReplayAll(rules, l, blocks[..k]), blocks[k], op, made);
    }
  }

  ghost predicate AllCreditable(blocks: seq<Scored>) {
    forall b :: b in blocks ==> BlockCreditable(b.block)
  }

  /** The blocks after position `i` and before `n` come before a coin made at `made` matures. */
  ghost predicate AllBefore(blocks: seq<Scored>, i: nat, n: nat, made: nat)
    requires n <= |blocks|
  {
    forall k :: i < k < n ==> blocks[k].blue < SaturatingAdd(made, COINBASE_MATURITY_BLUES)
  }

  lemma {:induction false} CoinStays(rules: Rules, l: Ledger, blocks: seq<Scored>, i: nat, op: OutPoint, made: nat)
    requires SpentApart(l) && l.minted <= MAX_SUPPLY && AllCreditable(blocks)
    requires i < |blocks| && AllBefore(blocks, i, |blocks|, made)
    requires Coin(ReplayAll(rules, l, blocks[..i + 1]), op, made)
    ensures Coin(ReplayAll(rules, l, blocks), op, made) || TotalLoss(rules, l, blocks) > 0
  {
    var stays := (upTo: seq<Scored>) => Coin(ReplayAll(rules, l, upTo), op, made) || TotalLoss(rules, l, upTo) > 0;
    forall n | i < n < |blocks| && stays(blocks[..n])
      ensures stays(blocks[..n + 1])
    {
      CoinStaysNext(rules, l, blocks, n, op, made);
    }
    AlongPrefixes(stays, blocks, i);
  }

  lemma {:induction false} CoinStaysNext(rules: Rules, l: Ledger, blocks: seq<Scored>, n: nat, op: OutPoint, made: nat)
    requires SpentApart(l) && l.minted <= MAX_SUPPLY && AllCreditable(blocks) && n < |blocks|
    requires blocks[n].blue < SaturatingAdd(made, COINBASE_MATURITY_BLUES)
    requires Coin(ReplayAll(rules, l, blocks[..n]), op, made) || TotalLoss(rules, l, blocks[..n]) > 0
    ensures Coin(ReplayAll(rules, l, blocks[..n + 1]), op, made) || TotalLoss(rules, l, blocks[..n + 1]) > 0
  {
    var upTo := blocks[..n + 1];
    assert upTo[..n] == blocks[..n];
    assert AllCreditable(upTo);
    CoinStep(rules, l, upTo, op, made);
  }

  lemma {:induction false} AlongPrefixes(holds: seq<Scored> -> bool, blocks: seq<Scored>, i: nat)
    requires i < |blocks| && holds(blocks[..i + 1])
    requires forall n :: i < n < |blocks| && holds(blocks[..n]) ==> holds(blocks[..n + 1])
    ensures holds(blocks)
  {
    for n := i + 1 to |blocks|
      invariant holds(blocks[..n])
    {
    }
    assert blocks[..|blocks|] == blocks;
  }

  lemma {:induction false} PaidIsCoin(rules: Rules, l: Ledger, blocks: seq<Scored>, i: nat)
    requires i < |blocks| && PaidAt(rules, l, blocks, i) > 0
    ensures Coin(ReplayAll(rules, l, blocks[..i + 1]), CoinbaseOf(blocks[i]), blocks[i].blue)
  {
    assert blocks[..i + 1][..i] == blocks[..i];
    RewardIsCoin(rules, ReplayAll(rules, l, blocks[..i]), blocks[i]);
  }

  /** What is lost stays lost. */
  lemma {:induction false} LossStays(rules: Rules, l: Ledger, blocks: seq<Scored>, k: nat)
    requires k < |blocks| && TotalLoss(rules, l, blocks[..k + 1]) > 0
    ensures TotalLoss(rules, l, blocks) > 0
  {
    var lost := (upTo: seq<Scored>) => TotalLoss(rules, l, upTo) > 0;
    forall n | k < n < |blocks| && lost(blocks[..n])
      ensures lost(blocks[..n + 1])
    {
      LossStaysNext(rules, l, blocks, n);
    }
    AlongPrefixes(lost, blocks, k);
  }

  lemma {:induction false} LossStaysNext(rules: Rules, l: Ledger, blocks: seq<Scored>, n: nat)
    requires n < |blocks| && TotalLoss(rules, l, blocks[..n]) > 0
    ensures TotalLoss(rules, l, blocks[..n + 1]) > 0
  {
    assert blocks[..n + 1][..n] == blocks[..n];
  }

  lemma {:induction false} CoinUntil(rules: Rules, l: Ledger, blocks: seq<Scored>, i: nat, j: nat)
    requires SpentApart(l) && l.minted <= MAX_SUPPLY && AllCreditable(blocks)
    requires i < j < |blocks| && PaidAt(rules, l, blocks, i) > 0 && AllBefore(blocks, i, j + 1, blocks[i].blue)
    ensures || Coin(ReplayAll(rules, l, blocks[..j]), CoinbaseOf(blocks[i]), blocks[i].blue)
            || TotalLoss(rules, l, blocks[..j]) > 0
    ensures blocks[j].blue < SaturatingAdd(blocks[i].blue, COINBASE_MATURITY_BLUES)
  {
    PaidIsCoin(rules, l, blocks, i);
    var upTo := blocks[..j];
    assert upTo[..i + 1] == blocks[..i + 1];
    CoinStays(rules, l, upTo, i, CoinbaseOf(blocks[i]), blocks[i].blue);
  }

  /** A block that pays under the id of a live coin destroys it, or something before. */
  lemma {:induction false} CollisionStep(rules: Rules, l: Ledger, blocks: seq<Scored>, j: nat, made: nat)
    requires SpentApart(l) && l.minted <= MAX_SUPPLY && AllCreditable(blocks)
    requires j < |blocks| && blocks[j].blue < SaturatingAdd(made, COINBASE_MATURITY_BLUES)
    requires PaidAt(rules, l, blocks, j) > 0
    requires Coin(ReplayAll(rules, l, blocks[..j]), CoinbaseOf(blocks[j]), made) || TotalLoss(rules, l, blocks[..j]) > 0
    ensures TotalLoss(rules, l, blocks[..j + 1]) > 0
  {
    assert blocks[..j + 1][..j] == blocks[..j];
    if TotalLoss(rules, l, blocks[..j]) == 0 {
      ReplayConserves(rules, l, blocks[..j]);
      BodyKeepsCoin(rules, ReplayAll(rules, l, blocks[..j]), blocks[j], CoinbaseOf(blocks[j]), made);
    }
  }

  lemma {:induction false} Collides(rules: Rules, l: Ledger, blocks: seq<Scored>, i: nat, j: nat)
    requires SpentApart(l) && l.minted <= MAX_SUPPLY && AllCreditable(blocks)
    requires i < j < |blocks| && CoinbaseOf(blocks[i]) == CoinbaseOf(blocks[j])
    requires PaidAt(rules, l, blocks, i) > 0 && PaidAt(rules, l, blocks, j) > 0
    requires AllBefore(blocks, i, j + 1, blocks[i].blue)
    ensures TotalLoss(rules, l, blocks[..j + 1]) > 0
  {
    CoinUntil(rules, l, blocks, i, j);
    CollisionStep(rules, l, blocks, j, blocks[i].blue);
  }

  /** Two blocks of one replay that both pay under one coinbase id, the second before the
      first's coin has matured: value is destroyed. */
  lemma {:induction false} CollisionDestroys(rules: Rules, l: Ledger, blocks: seq<Scored>, i: nat, j: nat)
    requires SpentApart(l) && l.minted <= MAX_SUPPLY && AllCreditable(blocks)
    requires i < j < |blocks| && CoinbaseOf(blocks[i]) == CoinbaseOf(blocks[j])
    requires PaidAt(rules, l, blocks, i) > 0 && PaidAt(rules, l, blocks, j) > 0
    requires AllBefore(blocks, i, j + 1, blocks[i].blue)
    ensures TotalLoss(rules, l, blocks) > 0
  {
    Collides(rules, l, blocks, i, j);
    LossStays(rules, l, blocks, j);
  }

  /** No coin of one of these blocks matures before the last of them. */
  ghost predicate WithinMaturity(blocks: seq<Scored>) {
    forall i :: 0 <= i < |blocks| ==> AllBefore(blocks, i, |blocks|, blocks[i].blue)
  }

  ghost predicate AllPay(rules: Rules, l: Ledger, blocks: seq<Scored>) {
    forall i :: 0 <= i < |blocks| ==> PaidAt(rules, l, blocks, i) > 0
  }

  ghost predicate DistinctCoinbases(blocks: seq<Scored>) {
    forall i, j :: 0 <= i < j < |blocks| ==> CoinbaseOf(blocks[i]) != CoinbaseOf(blocks[j])
  }

  /** Of blocks that all pay, within maturity, with transactions and coinbases the seed does not
      know: a replay loses nothing exactly when every coinbase has its own id. */
  lemma {:induction false} LossExactly(rules: Rules, seed: Ledger, blocks: seq<Scored>)
    requires SpentApart(seed) && seed.minted <= MAX_SUPPLY && AllCreditable(blocks)
    requires FreshTxs(seed, AllTxs(blocks)) && forall i :: 0 <= i < |blocks| ==> CoinbaseOf(blocks[i]) !in seed.utxo
    requires AllPay(rules, seed, blocks) && WithinMaturity(blocks)
    ensures TotalLoss(rules, seed, blocks) == 0 <==> DistinctCoinbases(blocks)
  {
    if DistinctCoinbases(blocks) {
      assert FreshCoinbases(seed, blocks);
      FreshReplayLosesNothing(rules, seed, blocks);
    } else {
      var i, j :| 0 <= i < j < |blocks| && CoinbaseOf(blocks[i]) == CoinbaseOf(blocks[j]);
      LossShows(rules, seed, blocks, i, j);
    }
  }

  lemma {:induction false} LossShows(rules: Rules, seed: Ledger, blocks: seq<Scored>, i: nat, j: nat)
    requires SpentApart(seed) && seed.minted <= MAX_SUPPLY && AllCreditable(blocks)
    requires AllPay(rules, seed, blocks) && WithinMaturity(blocks)
    requires i < j < |blocks| && CoinbaseOf(blocks[i]) == CoinbaseOf(blocks[j])
    ensures TotalLoss(rules, seed, blocks) > 0
  {
    assert AllBefore(blocks, i, |blocks|, blocks[i].blue);
    assert PaidAt(rules, seed, blocks, i) > 0 && PaidAt(rules, seed, blocks, j) > 0;
    CollisionDestroys(rules, seed, blocks, i, j);
  }

  /** Two empty siblings that differ in their nonce alone, which their coinbase id does not
      cover, replayed from nothing: one reward is lost. */
  lemma {:induction false} SiblingsCollide(rules: Rules, parent: Hash, timestamp: nat, difficulty: nat, root: Hash,
                                           miner: string, id: Hash)
    ensures var b := Scored(Block([parent], timestamp, difficulty, root, miner, id, Body([], [], [])), 1);
            TotalLoss(rules, Ledger(map[], map[], map[], {}, map[], map[], 0, 0), [b, b]) == BLOCK_REWARD
  {
    var l := Ledger(map[], map[], map[], {}, map[], map[], 0, 0);
    var b := Scored(Block([parent], timestamp, difficulty, root, miner, id, Body([], [], [])), 1);
    EmptyPays(rules, l, b.block);
    var m := Apply(rules, l, b.block, 1);
    EmptyPays(rules, m, b.block);
    assert [b, b][..1] == [b] && [b][..0] == [];
    assert ReplayAll(rules, l, []) == l && ReplayAll(rules, l, [b]) == m;
    assert TotalLoss(rules, l, [b]) == BlockLoss(rules, l, b.block, 1);
  }

  lemma {:induction false} EmptyPays(rules: Rules, l: Ledger, b: Block)
    requires b.body == Body([], [], []) && l.minted <= BLOCK_REWARD
    ensures Apply(rules, l, b, 1) == Reward(l, b, 1, 0) && Subsidy(l, 1) == BLOCK_REWARD
    ensures BlockLoss(rules, l, b, 1) == At(l.utxo, ValueOf, OutPoint(b.coinbaseTxid, U32_MAX))
  {
    assert 1 / HALVING_INTERVAL == 0;
  }
}
