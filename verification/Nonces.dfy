/** Nonces: an operation that succeeded once never succeeds again, whatever happens in between. */
module Nonces {
  import opened Types
  import opened LedgerSteps
  import opened BlockEffects
  import opened Supply
  import opened Authority

  function Nonce(l: Ledger, addr: string): nat { AccountAt(l, addr).nonce }

  // ----- Ledger events -----

  /** One change of the ledger: a transaction or operation that is tried, or a coinbase. */
  datatype Event =
    | Transaction(tx: UtxoTx, blue: nat)
    | Registry(op: RegistryOp, blue: nat)
    | Custody(custody: CustodyOp)
    | Coinbase(block: Block, blue: nat, fees: nat)

  function After(rules: Rules, l: Ledger, e: Event): Ledger {
    match e
    case Transaction(tx, blue) => ApplyUtxoTx(rules, l, tx, blue).ledger
    case Registry(op, blue) => ApplyRegistryOp(l, op, blue).ledger
    case Custody(op) => ApplyCustodyOp(l, op).ledger
    case Coinbase(block, blue, fees) => Reward(l, block, blue, fees)
  }

  function AfterAll(rules: Rules, l: Ledger, es: seq<Event>): Ledger {
    if es == [] then l else After(rules, AfterAll(rules, l, es[..|es| - 1]), es[|es| - 1])
  }

  lemma {:induction false} AfterBoth(rules: Rules, l: Ledger, es: seq<Event>, fs: seq<Event>)
    ensures AfterAll(rules, l, es + fs) == AfterAll(rules, AfterAll(rules, l, es), fs)
  {
    if fs == [] {
      assert es + fs == es;
    } else {
      var k := |fs| - 1;
      AfterBoth(rules, l, es, fs[..k]);
      assert (es + fs)[..|es| + k] == es + fs[..k];
    }
  }

  lemma {:induction false} AfterOneMore(rules: Rules, l: Ledger, es: seq<Event>, e: Event)
    ensures AfterAll(rules, l, es + [e]) == After(rules, AfterAll(rules, l, es), e)
  {
    assert (es + [e])[..|es|] == es;
  }

  // ----- Replay is made of them -----

  function TxEvents(txs: seq<UtxoTx>, blue: nat): seq<Event> {
    if txs == [] then [] else TxEvents(txs[..|txs| - 1], blue) + [Transaction(txs[|txs| - 1], blue)]
  }

  function RegistryEvents(ops: seq<RegistryOp>, blue: nat): seq<Event> {
    if ops == [] then [] else RegistryEvents(ops[..|ops| - 1], blue) + [Registry(ops[|ops| - 1], blue)]
  }

  function CustodyEvents(ops: seq<CustodyOp>): seq<Event> {
    if ops == [] then [] else CustodyEvents(ops[..|ops| - 1]) + [Custody(ops[|ops| - 1])]
  }

  lemma {:induction false} TxsAreEvents(rules: Rules, l: Ledger, txs: seq<UtxoTx>, blue: nat)
    ensures ReplayUtxoTxs(rules, l, txs, blue).ledger == AfterAll(rules, l, TxEvents(txs, blue))
  {
    if txs != [] {
      var k := |txs| - 1;
      TxsAreEvents(rules, l, txs[..k], blue);
      AfterOneMore(rules, l, TxEvents(txs[..k], blue), Transaction(txs[k], blue));
    }
  }

  lemma {:induction false} RegistryIsEvents(rules: Rules, l: Ledger, ops: seq<RegistryOp>, blue: nat)
    ensures ReplayRegistryOps(l, ops, blue) == AfterAll(rules, l, RegistryEvents(ops, blue))
  {
    if ops != [] {
      var k := |ops| - 1;
      RegistryIsEvents(rules, l, ops[..k], blue);
      AfterOneMore(rules, l, RegistryEvents(ops[..k], blue), Registry(ops[k], blue));
    }
  }

  lemma {:induction false} CustodyIsEvents(rules: Rules, l: Ledger, ops: seq<CustodyOp>)
    ensures ReplayCustodyOps(l, ops) == AfterAll(rules, l, CustodyEvents(ops))
  {
    if ops != [] {
      var k := |ops| - 1;
      CustodyIsEvents(rules, l, ops[..k]);
      AfterOneMore(rules, l, CustodyEvents(ops[..k]), Custody(ops[k]));
    }
  }

  /** The events of a block: transactions, registry operations, custody operations, coinbase. */
  function BlockEvents(rules: Rules, l: Ledger, b: Scored): seq<Event> {
    var body := b.block.body;
    TxEvents(body.utxoTxs, b.blue) + RegistryEvents(body.registryOps, b.blue) + CustodyEvents(body.custodyOps)
    + [Coinbase(b.block, b.blue, ReplayUtxoTxs(rules, l, body.utxoTxs, b.blue).fees)]
  }

  lemma {:induction false} BlockIsEvents(rules: Rules, l: Ledger, b: Scored)
    ensures Apply(rules, l, b.block, b.blue) == AfterAll(rules, l, BlockEvents(rules, l, b))
  {
    var body := b.block.body;
    var t, r, c := TxEvents(body.utxoTxs, b.blue), RegistryEvents(body.registryOps, b.blue),
      CustodyEvents(body.custodyOps);
    var utxo := ReplayUtxoTxs(rules, l, body.utxoTxs, b.blue);
    TxsAreEvents(rules, l, body.utxoTxs, b.blue);
    RegistryIsEvents(rules, utxo.ledger, body.registryOps, b.blue);
    CustodyIsEvents(rules, ReplayRegistryOps(utxo.ledger, body.registryOps, b.blue), body.custodyOps);
    AfterBoth(rules, l, t, r);
    AfterBoth(rules, l, t + r, c);
    AfterOneMore(rules, l, t + r + c, Coinbase(b.block, b.blue, utxo.fees));
  }

  ghost function ReplayEvents(rules: Rules, l: Ledger, blocks: seq<Scored>): seq<Event> {
    if blocks == [] then []
    else
      var k := |blocks| - 1;
      ReplayEvents(rules, l, blocks[..k]) + BlockEvents(rules, ReplayAll(rules, l, blocks[..k]), blocks[k])
  }

  /** Every replay is a run of ledger events. */
  lemma {:induction false} ReplayIsEvents(rules: Rules, l: Ledger, blocks: seq<Scored>)
    ensures ReplayAll(rules, l, blocks) == AfterAll(rules, l, ReplayEvents(rules, l, blocks))
  {
    if blocks != [] {
      var k := |blocks| - 1;
      ReplayIsEvents(rules, l, blocks[..k]);
      BlockIsEvents(rules, ReplayAll(rules, l, blocks[..k]), blocks[k]);
      AfterBoth(rules, l, ReplayEvents(rules, l, blocks[..k]),
                BlockEvents(rules, ReplayAll(rules, l, blocks[..k]), blocks[k]));
    }
  }

  // ----- Nonces only rise -----

  lemma {:induction false} CreatingKeepsNonce(l: Ledger, tx: UtxoTx, n: nat, blue: nat, addr: string)
    requires n <= |tx.outputs|
    ensures Nonce(CreateAll(l, tx, n, blue).ledger, addr) == Nonce(l, addr)
  {
    if n > 0 {
      CreatingKeepsNonce(l, tx, n - 1, blue, addr);
    }
  }

  lemma {:induction false} TxKeepsNonce(rules: Rules, l: Ledger, tx: UtxoTx, blue: nat, addr: string)
    ensures Nonce(ApplyUtxoTx(rules, l, tx, blue).ledger, addr) == Nonce(l, addr)
  {
    SpendingKeepsAccounts(l, tx.inputs);
    CreatingKeepsNonce(SpendAll(l, tx.inputs).ledger, tx, |tx.outputs|, blue, addr);
  }

  lemma {:induction false} ActKeepsNonce(l: Ledger, signer: string, action: RegistryAction, blue: nat, addr: string)
    ensures Nonce(Act(l, signer, action, blue).ledger, addr) == Nonce(l, addr)
  {
  }

  /** Only its signer's nonce moves, by one, and only if the operation carries it. */
  lemma {:induction false} OpMovesNonce(l: Ledger, op: RegistryOp, blue: nat, addr: string)
    ensures Nonce(ApplyRegistryOp(l, op, blue).ledger, addr) ==
            if addr == op.signer && op.signed && op.nonce == Nonce(l, addr) && op.nonce < U64_MAX then op.nonce + 1
            else if addr == op.signer && op.signed && op.nonce == Nonce(l, addr) then U64_MAX
            else Nonce(l, addr)
  {
    ActKeepsNonce(Advanced(l, op.signer), op.signer, op.action, blue, addr);
  }

  lemma {:induction false} CustodyMovesNonce(l: Ledger, op: CustodyOp, addr: string)
    ensures Nonce(ApplyCustodyOp(l, op).ledger, addr) ==
            if addr == op.owner && ApplyCustodyOp(l, op).ok then SaturatingAdd(Nonce(l, addr), 1) else Nonce(l, addr)
    ensures ApplyCustodyOp(l, op).ok ==> op.nonce == Nonce(l, op.owner)
  {
  }

  /** A nonce is a 64-bit number and no event lowers it. */
  lemma {:induction false} EventKeepsNonce(rules: Rules, l: Ledger, e: Event, addr: string)
    requires Nonce(l, addr) <= U64_MAX
    ensures Nonce(l, addr) <= Nonce(After(rules, l, e), addr) <= U64_MAX
  {
    match e
    case Transaction(tx, blue) => TxKeepsNonce(rules, l, tx, blue, addr);
    case Registry(op, blue) => OpMovesNonce(l, op, blue, addr);
    case Custody(op) => CustodyMovesNonce(l, op, addr);
    case Coinbase(_, _, _) =>
  }

  lemma {:induction false} NonceNeverFalls(rules: Rules, l: Ledger, es: seq<Event>, addr: string)
    requires Nonce(l, addr) <= U64_MAX
    ensures Nonce(l, addr) <= Nonce(AfterAll(rules, l, es), addr) <= U64_MAX
  {
    if es != [] {
      var k := |es| - 1;
      NonceNeverFalls(rules, l, es[..k], addr);
      EventKeepsNonce(rules, AfterAll(rules, l, es[..k]), es[k], addr);
    }
  }

  /** What succeeded once, a registry or a custody operation, leaves its nonce used up exactly
      when it is not the last nonce there is. */
  lemma {:induction false} SuccessUsesNonce(rules: Rules, l: Ledger, e: Event, signer: string, nonce: nat)
    requires Succeeds(rules, l, e, signer, nonce) && nonce <= U64_MAX
    ensures Nonce(l, signer) == nonce
    ensures nonce < Nonce(After(rules, l, e), signer) <==> nonce < U64_MAX
    ensures Nonce(After(rules, l, e), signer) <= U64_MAX
  {
    if e.Registry? {
      OpMovesNonce(l, e.op, e.blue, signer);
    } else {
      CustodyMovesNonce(l, e.custody, signer);
    }
  }

  /** The event is an operation of this signer with this nonce, and it succeeds. */
  predicate Succeeds(rules: Rules, l: Ledger, e: Event, signer: string, nonce: nat) {
    match e
    case Registry(op, blue) => op.signer == signer && op.nonce == nonce && ApplyRegistryOp(l, op, blue).ok
    case Custody(op) => op.owner == signer && op.nonce == nonce && ApplyCustodyOp(l, op).ok
    case _ => false
  }

  /** An operation that succeeded never succeeds again: after it and any further events, no
      registry or custody operation of the same signer with the same nonce does. */
  lemma {:induction false} OnceOnly(rules: Rules, l: Ledger, first: Event, between: seq<Event>, again: Event,
                                    signer: string, nonce: nat)
    requires Succeeds(rules, l, first, signer, nonce) && nonce < U64_MAX
    ensures !Succeeds(rules, AfterAll(rules, After(rules, l, first), between), again, signer, nonce)
  {
    SuccessUsesNonce(rules, l, first, signer, nonce);
    NonceNeverFalls(rules, After(rules, l, first), between, signer);
    var m := AfterAll(rules, After(rules, l, first), between);
    if Succeeds(rules, m, again, signer, nonce) {
      SuccessUsesNonce(rules, m, again, signer, nonce);
      assert false;
    }
  }

  /** The same from block to block: whatever a replay did up to some event, nothing that
      succeeded there succeeds in any later block of the replay. */
  lemma {:induction false} OnceOnlyInReplay(rules: Rules, l: Ledger, first: Event, rest: seq<Event>,
                                            blocks: seq<Scored>, some: seq<Event>, again: Event,
                                            signer: string, nonce: nat)
    requires Succeeds(rules, l, first, signer, nonce) && nonce < U64_MAX
    ensures var after := AfterAll(rules, After(rules, l, first), rest);
            !Succeeds(rules, AfterAll(rules, ReplayAll(rules, after, blocks), some), again, signer, nonce)
  {
    var m := After(rules, l, first);
    var after := AfterAll(rules, m, rest);
    ReplayIsEvents(rules, after, blocks);
    AfterBoth(rules, m, rest, ReplayEvents(rules, after, blocks));
    AfterBoth(rules, m, rest + ReplayEvents(rules, after, blocks), some);
    OnceOnly(rules, l, first, rest + ReplayEvents(rules, after, blocks) + some, again, signer, nonce);
  }

  /** With the last nonce it can: the nonce saturates, and a funding goes through twice. */
  lemma {:induction false} LastNonceRepeats(rules: Rules) returns (l: Ledger, e: Event)
    ensures Succeeds(rules, l, e, "buyer", U64_MAX) && Succeeds(rules, After(rules, l, e), e, "buyer", U64_MAX)
  {
    var escrow := Escrow("buyer", "seller", 9, 0, Open, None, 0);
    l := Ledger(map["buyer" := Account(2, U64_MAX)], map[], map[], {}, map[], map[7 := escrow], 2, 0);
    var op := RegistryOp("buyer", true, U64_MAX, FundEscrow(7, 1));
    e := Registry(op, 0);
    var m := After(rules, l, e);
    assert m.accounts["buyer"] == Account(1, U64_MAX) && m.escrows[7].status == Open;
  }
}
