/** What a block does to the ledger: replay, which skips what no longer applies, and
    admission, which refuses a block if anything does not apply (src/lib.rs). */
module BlockEffects {
  import opened Types
  import opened LedgerSteps
  import opened Replay

  const COIN: nat := 100_000_000
  const MAX_SUPPLY: nat := 25_000_000 * COIN
  const BLOCK_REWARD: nat := 50 * COIN
  const HALVING_INTERVAL: nat := 250_000

  const BOOTSTRAP_ERA_END: nat := 1_000_000 * COIN
  const BOOTSTRAP_MIN_DIFFICULTY: nat := 7000
  const HARD_ERA_MIN_DIFFICULTY: nat := 0x100_0000

  /** The least difficulty of the era that the minted supply is in. */
  function EraMinDifficulty(minted: nat, labEasy: bool): nat {
    if labEasy || minted < BOOTSTRAP_ERA_END then BOOTSTRAP_MIN_DIFFICULTY else HARD_ERA_MIN_DIFFICULTY
  }

  function Halved(reward: nat, times: nat): nat {
    if times == 0 then reward else Halved(reward, times - 1) / 2
  }

  function BlockSubsidy(blue: nat): nat {
    var halvings := blue / HALVING_INTERVAL;
    if halvings >= 128 then 0 else Halved(BLOCK_REWARD, halvings)
  }

  // ----- Replay -----

  datatype Sum = Sum(ledger: Ledger, fees: nat)

  function ReplayUtxoTxs(rules: Rules, l: Ledger, txs: seq<UtxoTx>, blue: nat): Sum {
    if txs == [] then Sum(l, 0)
    else
      var before := ReplayUtxoTxs(rules, l, txs[..|txs| - 1], blue);
      var step := ApplyUtxoTx(rules, before.ledger, txs[|txs| - 1], blue);
      Sum(step.ledger, before.fees + if step.ok then step.fee else 0)
  }

  function ReplayRegistryOps(l: Ledger, ops: seq<RegistryOp>, blue: nat): Ledger {
    if ops == [] then l else ApplyRegistryOp(ReplayRegistryOps(l, ops[..|ops| - 1], blue), ops[|ops| - 1], blue).ledger
  }

  function ReplayCustodyOps(l: Ledger, ops: seq<CustodyOp>): Ledger {
    if ops == [] then l else ApplyCustodyOp(ReplayCustodyOps(l, ops[..|ops| - 1]), ops[|ops| - 1]).ledger
  }

  function ReplayBody(rules: Rules, l: Ledger, body: Body, blue: nat): Sum {
    var utxo := ReplayUtxoTxs(rules, l, body.utxoTxs, blue);
    Sum(ReplayCustodyOps(ReplayRegistryOps(utxo.ledger, body.registryOps, blue), body.custodyOps), utxo.fees)
  }

  /** New issuance at this score, never beyond the cap. */
  function Subsidy(l: Ledger, blue: nat): nat {
    var left := if l.minted <= MAX_SUPPLY then MAX_SUPPLY - l.minted else 0;
    if BlockSubsidy(blue) <= left then BlockSubsidy(blue) else left
  }

  /** The coinbase output: subsidy plus fees, paid to the miner. */
  function Reward(l: Ledger, block: Block, blue: nat, fees: nat): Ledger {
    var subsidy := Subsidy(l, blue);
    if subsidy + fees == 0 then l
    else
      Insert(l.(minted := l.minted + subsidy), OutPoint(block.coinbaseTxid, U32_MAX),
             TxOut(subsidy + fees, PayToAddress(block.miner), blue))
  }

  /** A block's effect in replay. */
  function Apply(rules: Rules, l: Ledger, block: Block, blue: nat): Ledger {
    var body := ReplayBody(rules, l, block.body, blue);
    Reward(body.ledger, block, blue, body.fees)
  }

  // ----- Admission -----

  function AdmitTx(rules: Rules, before: Sum, tx: UtxoTx, blue: nat): Option<Sum> {
    if tx.chainId != rules.chainId then None
    else
      var step := ApplyUtxoTx(rules, before.ledger, tx, blue);
      if step.ok then Some(Sum(step.ledger, before.fees + step.fee)) else None
  }

  function AdmitUtxoTxs(rules: Rules, l: Ledger, txs: seq<UtxoTx>, blue: nat): Option<Sum> {
    if txs == [] then Some(Sum(l, 0))
    else
      var before := AdmitUtxoTxs(rules, l, txs[..|txs| - 1], blue);
      if before.None? then None else AdmitTx(rules, before.value, txs[|txs| - 1], blue)
  }

  function AdmitRegistryOps(l: Ledger, ops: seq<RegistryOp>, blue: nat): Option<Ledger> {
    if ops == [] then Some(l)
    else
      var before := AdmitRegistryOps(l, ops[..|ops| - 1], blue);
      if before.None? then None
      else
        var step := ApplyRegistryOp(before.value, ops[|ops| - 1], blue);
        if step.ok then Some(step.ledger) else None
  }

  function AdmitCustodyOps(l: Ledger, ops: seq<CustodyOp>): Option<Ledger> {
    if ops == [] then Some(l)
    else
      var before := AdmitCustodyOps(l, ops[..|ops| - 1]);
      if before.None? then None
      else
        var step := ApplyCustodyOp(before.value, ops[|ops| - 1]);
        if step.ok then Some(step.ledger) else None
  }

  /** Admission of a block: everything applies, or nothing does. */
  function Admit(rules: Rules, l: Ledger, block: Block, blue: nat): Option<Ledger> {
    var utxo := AdmitUtxoTxs(rules, l, block.body.utxoTxs, blue);
    if utxo.None? then None else
    var registry := AdmitRegistryOps(utxo.value.ledger, block.body.registryOps, blue);
    if registry.None? then None else
    var custody := AdmitCustodyOps(registry.value, block.body.custodyOps);
    if custody.None? then None else Some(Reward(custody.value, block, blue, utxo.value.fees))
  }

  // ----- Admission agrees with replay -----

  lemma {:induction false} AdmittedUtxoTxs(rules: Rules, l: Ledger, txs: seq<UtxoTx>, blue: nat)
    requires AdmitUtxoTxs(rules, l, txs, blue).Some?
    ensures AdmitUtxoTxs(rules, l, txs, blue).value == ReplayUtxoTxs(rules, l, txs, blue)
  {
    if txs != [] {
      AdmittedUtxoTxs(rules, l, txs[..|txs| - 1], blue);
    }
  }

  lemma {:induction false} AdmittedRegistryOps(l: Ledger, ops: seq<RegistryOp>, blue: nat)
    requires AdmitRegistryOps(l, ops, blue).Some?
    ensures AdmitRegistryOps(l, ops, blue).value == ReplayRegistryOps(l, ops, blue)
  {
    if ops != [] {
      AdmittedRegistryOps(l, ops[..|ops| - 1], blue);
    }
  }

  lemma {:induction false} AdmittedCustodyOps(l: Ledger, ops: seq<CustodyOp>)
    requires AdmitCustodyOps(l, ops).Some?
    ensures AdmitCustodyOps(l, ops).value == ReplayCustodyOps(l, ops)
  {
    if ops != [] {
      AdmittedCustodyOps(l, ops[..|ops| - 1]);
    }
  }

  /** A block that is admitted on a ledger does to it exactly what replaying it does. */
  lemma {:induction false} AdmittedIsReplayed(rules: Rules, l: Ledger, block: Block, blue: nat)
    requires Admit(rules, l, block, blue).Some?
    ensures Admit(rules, l, block, blue).value == Apply(rules, l, block, blue)
  {
    var utxo := AdmitUtxoTxs(rules, l, block.body.utxoTxs, blue).value;
    AdmittedUtxoTxs(rules, l, block.body.utxoTxs, blue);
    AdmittedRegistryOps(utxo.ledger, block.body.registryOps, blue);
    AdmittedCustodyOps(AdmitRegistryOps(utxo.ledger, block.body.registryOps, blue).value, block.body.custodyOps);
  }

  /** The node's semantics with these rules. */
  function NodeSemantics(rules: Rules, commit: Ledger -> Hash): Semantics {
    Semantics((l: Ledger, b: Block, s: nat) => Apply(rules, l, b, s),
              (l: Ledger, b: Block, s: nat) => Admit(rules, l, b, s), commit,
              (l: Ledger) => EraMinDifficulty(l.minted, rules.labEasy))
  }

  lemma {:induction false} NodeSemanticsIsLawful(rules: Rules, commit: Ledger -> Hash)
    ensures Lawful(NodeSemantics(rules, commit))
  {
    var sem := NodeSemantics(rules, commit);
    forall l, b, s | sem.admit(l, b, s).Some?
      ensures sem.admit(l, b, s).value == sem.apply(l, b, s)
    {
      AdmittedIsReplayed(rules, l, b, s);
    }
  }

  // ----- The loops, over a ledger updated in place -----

  lemma {:induction false} SpendAllStops(l: Ledger, inputs: seq<TxIn>, i: nat)
    requires i <= |inputs| && !SpendAll(l, inputs[..i]).ok
    ensures SpendAll(l, inputs) == SpendAll(l, inputs[..i])
  {
    if i < |inputs| {
      var k := |inputs| - 1;
      assert inputs[..k][..i] == inputs[..i];
      SpendAllStops(l, inputs[..k], i);
    } else {
      assert inputs[..i] == inputs;
    }
  }

  lemma {:induction false} CreateAllStops(l: Ledger, tx: UtxoTx, i: nat, n: nat, blue: nat)
    requires i <= n <= |tx.outputs| && !CreateAll(l, tx, i, blue).ok
    ensures CreateAll(l, tx, n, blue) == CreateAll(l, tx, i, blue)
  {
    if i < n {
      CreateAllStops(l, tx, i, n - 1, blue);
    }
  }

  lemma {:induction false} AdmitUtxoTake(rules: Rules, l: Ledger, txs: seq<UtxoTx>, i: nat, blue: nat)
    requires i < |txs| && AdmitUtxoTxs(rules, l, txs[..i], blue).Some?
    ensures AdmitUtxoTxs(rules, l, txs[..i + 1], blue) ==
            AdmitTx(rules, AdmitUtxoTxs(rules, l, txs[..i], blue).value, txs[i], blue)
  {
    assert txs[..i + 1][..i] == txs[..i];
  }

  lemma {:induction false} AdmitUtxoStops(rules: Rules, l: Ledger, txs: seq<UtxoTx>, i: nat, blue: nat)
    requires i <= |txs| && AdmitUtxoTxs(rules, l, txs[..i], blue).None?
    ensures AdmitUtxoTxs(rules, l, txs, blue).None?
  {
    if i < |txs| {
      var k := |txs| - 1;
      assert txs[..k][..i] == txs[..i];
      AdmitUtxoStops(rules, l, txs[..k], i, blue);
    } else {
      assert txs[..i] == txs;
    }
  }

  lemma {:induction false} AdmitRegistryStops(l: Ledger, ops: seq<RegistryOp>, i: nat, blue: nat)
    requires i <= |ops| && AdmitRegistryOps(l, ops[..i], blue).None?
    ensures AdmitRegistryOps(l, ops, blue).None?
  {
    if i < |ops| {
      var k := |ops| - 1;
      assert ops[..k][..i] == ops[..i];
      AdmitRegistryStops(l, ops[..k], i, blue);
    } else {
      assert ops[..i] == ops;
    }
  }

  lemma {:induction false} AdmitCustodyStops(l: Ledger, ops: seq<CustodyOp>, i: nat)
    requires i <= |ops| && AdmitCustodyOps(l, ops[..i]).None?
    ensures AdmitCustodyOps(l, ops).None?
  {
    if i < |ops| {
      var k := |ops| - 1;
      assert ops[..k][..i] == ops[..i];
      AdmitCustodyStops(l, ops[..k], i);
    } else {
      assert ops[..i] == ops;
    }
  }

  class LiveLedger {
    var ledger: Ledger

    constructor (l: Ledger)
      ensures ledger == l
    {
      ledger := l;
    }

    method SpendInputs(inputs: seq<TxIn>) returns (ok: bool)
      modifies this
      ensures Step(ledger, ok, 0) == SpendAll(old(ledger), inputs)
    {
      assert inputs[..0] == [];
      for i := 0 to |inputs|
        invariant Step(ledger, true, 0) == SpendAll(old(ledger), inputs[..i])
      {
        assert inputs[..i + 1][..i] == inputs[..i];
        var after := Spend(ledger, inputs[i].previous);
        if after.None? {
          SpendAllStops(old(ledger), inputs, i + 1);
          return false;
        }
        ledger := after.value;
      }
      assert inputs[..|inputs|] == inputs;
      ok := true;
    }

    method CreateOutputs(tx: UtxoTx, blue: nat) returns (ok: bool)
      modifies this
      ensures Step(ledger, ok, if ok then tx.fee else 0) == CreateAll(old(ledger), tx, |tx.outputs|, blue)
    {
      for i := 0 to |tx.outputs|
        invariant Step(ledger, true, tx.fee) == CreateAll(old(ledger), tx, i, blue)
      {
        var after := Create(ledger, tx, i, blue);
        if after.None? {
          CreateAllStops(old(ledger), tx, i + 1, |tx.outputs|, blue);
          return false;
        }
        ledger := after.value;
      }
      ok := true;
    }

    method ApplyTx(rules: Rules, tx: UtxoTx, blue: nat) returns (ok: bool, fee: nat)
      modifies this
      ensures Step(ledger, ok, fee) == ApplyUtxoTx(rules, old(ledger), tx, blue)
    {
      if !Spendable(rules, ledger, tx, blue) {
        return false, 0;
      }
      ok := SpendInputs(tx.inputs);
      if !ok {
        return false, 0;
      }
      ok := CreateOutputs(tx, blue);
      fee := if ok then tx.fee else 0;
    }

    // ----- Replay -----

    method ReplayTxs(rules: Rules, txs: seq<UtxoTx>, blue: nat) returns (fees: nat)
      modifies this
      ensures Sum(ledger, fees) == ReplayUtxoTxs(rules, old(ledger), txs, blue)
    {
      fees := 0;
      for i := 0 to |txs|
        invariant Sum(ledger, fees) == ReplayUtxoTxs(rules, old(ledger), txs[..i], blue)
      {
        assert txs[..i + 1][..i] == txs[..i];
        var ok, fee := ApplyTx(rules, txs[i], blue);
        if ok {
          fees := fees + fee;
        }
      }
      assert txs[..|txs|] == txs;
    }

    method ReplayRegistry(ops: seq<RegistryOp>, blue: nat)
      modifies this
      ensures ledger == ReplayRegistryOps(old(ledger), ops, blue)
    {
      for i := 0 to |ops|
        invariant ledger == ReplayRegistryOps(old(ledger), ops[..i], blue)
      {
        assert ops[..i + 1][..i] == ops[..i];
        ledger := ApplyRegistryOp(ledger, ops[i], blue).ledger;
      }
      assert ops[..|ops|] == ops;
    }

    method ReplayCustody(ops: seq<CustodyOp>)
      modifies this
      ensures ledger == ReplayCustodyOps(old(ledger), ops)
    {
      for i := 0 to |ops|
        invariant ledger == ReplayCustodyOps(old(ledger), ops[..i])
      {
        assert ops[..i + 1][..i] == ops[..i];
        ledger := ApplyCustodyOp(ledger, ops[i]).ledger;
      }
      assert ops[..|ops|] == ops;
    }

    /** Replay a block, skipping what no longer applies. */
    method ApplyBlockEffects(rules: Rules, block: Block, blue: nat)
      modifies this
      ensures ledger == if block.parents == [] then old(ledger) else Apply(rules, old(ledger), block, blue)
    {
      if block.parents == [] {
        return;
      }
      var fees := ReplayTxs(rules, block.body.utxoTxs, blue);
      ReplayRegistry(block.body.registryOps, blue);
      ReplayCustody(block.body.custodyOps);
      ledger := Reward(ledger, block, blue, fees);
    }

    // ----- Admission -----

    method AdmitTxs(rules: Rules, txs: seq<UtxoTx>, blue: nat) returns (ok: bool, fees: nat)
      modifies this
      ensures ok <==> AdmitUtxoTxs(rules, old(ledger), txs, blue).Some?
      ensures ok ==> Some(Sum(ledger, fees)) == AdmitUtxoTxs(rules, old(ledger), txs, blue)
    {
      fees := 0;
      for i := 0 to |txs|
        invariant Some(Sum(ledger, fees)) == AdmitUtxoTxs(rules, old(ledger), txs[..i], blue)
      {
        AdmitUtxoTake(rules, old(ledger), txs, i, blue);
        ok, fees := AdmitOne(rules, txs[i], blue, fees);
        if !ok {
          AdmitUtxoStops(rules, old(ledger), txs, i + 1, blue);
          return;
        }
      }
      assert txs[..|txs|] == txs;
      ok := true;
    }

    method AdmitOne(rules: Rules, tx: UtxoTx, blue: nat, fees0: nat) returns (ok: bool, fees: nat)
      modifies this
      ensures ok <==> AdmitTx(rules, Sum(old(ledger), fees0), tx, blue).Some?
      ensures ok ==> Some(Sum(ledger, fees)) == AdmitTx(rules, Sum(old(ledger), fees0), tx, blue)
    {
      if tx.chainId != rules.chainId {
        return false, fees0;
      }
      var fee;
      ok, fee := ApplyTx(rules, tx, blue);
      fees := fees0 + fee;
    }

    method AdmitRegistry(ops: seq<RegistryOp>, blue: nat) returns (ok: bool)
      modifies this
      ensures ok <==> AdmitRegistryOps(old(ledger), ops, blue).Some?
      ensures ok ==> Some(ledger) == AdmitRegistryOps(old(ledger), ops, blue)
    {
      for i := 0 to |ops|
        invariant Some(ledger) == AdmitRegistryOps(old(ledger), ops[..i], blue)
      {
        assert ops[..i + 1][..i] == ops[..i];
        var step := ApplyRegistryOp(ledger, ops[i], blue);
        if !step.ok {
          AdmitRegistryStops(old(ledger), ops, i + 1, blue);
          return false;
        }
        ledger := step.ledger;
      }
      assert ops[..|ops|] == ops;
      ok := true;
    }

    method AdmitCustody(ops: seq<CustodyOp>) returns (ok: bool)
      modifies this
      ensures ok <==> AdmitCustodyOps(old(ledger), ops).Some?
      ensures ok ==> Some(ledger) == AdmitCustodyOps(old(ledger), ops)
    {
      for i := 0 to |ops|
        invariant Some(ledger) == AdmitCustodyOps(old(ledger), ops[..i])
      {
        assert ops[..i + 1][..i] == ops[..i];
        var step := ApplyCustodyOp(ledger, ops[i]);
        if !step.ok {
          AdmitCustodyStops(old(ledger), ops, i + 1);
          return false;
        }
        ledger := step.ledger;
      }
      assert ops[..|ops|] == ops;
      ok := true;
    }

    /** Apply a new block in full, stopping at the first operation that does not apply. */
    method SimulateBlock(rules: Rules, block: Block, blue: nat) returns (ok: bool)
      modifies this
      ensures ok <==> Admit(rules, old(ledger), block, blue).Some?
      ensures ok ==> Some(ledger) == Admit(rules, old(ledger), block, blue)
    {
      var fees;
      ok, fees := AdmitTxs(rules, block.body.utxoTxs, blue);
      if !ok {
        return;
      }
      ok := AdmitRegistry(block.body.registryOps, blue);
      if !ok {
        return;
      }
      ok := AdmitCustody(block.body.custodyOps);
      if !ok {
        return;
      }
      ledger := Reward(ledger, block, blue, fees);
    }
  }
}
