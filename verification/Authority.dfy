/** Who can move what: the ledger operations seen from the holder of value. */
module Authority {
  import opened Types
  import opened LedgerSteps
  import opened BlockEffects
  import opened Supply
  import opened SpendHistory

  function Balance(l: Ledger, addr: string): nat { AccountAt(l, addr).balance }

  function FundedAt(l: Ledger, id: Hash): nat { if id in l.escrows then l.escrows[id].funded else 0 }

  // ----- Registry -----

  lemma {:induction false} PayOutBalances(l: Ledger, id: Hash, to: string, status: EscrowStatus, addr: string)
    requires id in l.escrows
    ensures Balance(PayOut(l, id, to, status), addr) ==
            Balance(l, addr) + if addr == to then l.escrows[id].funded else 0
  {
  }

  lemma {:induction false} RefundBalances(l: Ledger, id: Hash, addr: string)
    requires id in l.escrows
    ensures Balance(Refund(l, id), addr) ==
            Balance(l, addr) + if addr == l.escrows[id].buyer then l.escrows[id].funded else 0
    ensures FundedAt(Refund(l, id), id) == 0
  {
    PayOutBalances(l, id, l.escrows[id].buyer, Refunded, addr);
  }

  /** What an action does to one balance. */
  lemma {:induction false} ActBalances(l: Ledger, signer: string, action: RegistryAction, blue: nat, addr: string)
    ensures var r := Act(l, signer, action, blue);
            Balance(r.ledger, addr) < Balance(l, addr) ==>
              && addr == signer && action.FundEscrow? && action.escrowId in l.escrows
              && l.escrows[action.escrowId].buyer == addr
              && Balance(r.ledger, addr) + action.amount == Balance(l, addr)
              && FundedAt(r.ledger, action.escrowId) == FundedAt(l, action.escrowId) + action.amount
  {
    if Act(l, signer, action, blue).ok {
      match action
      case ReleaseEscrow(id) => PayOutBalances(l, id, l.escrows[id].seller, Released, addr);
      case RefundEscrow(id) => RefundBalances(l, id, addr);
      case TimeoutClaimEscrow(id) => RefundBalances(l, id, addr);
      case _ =>
    }
  }

  /** The ledger after the signer's nonce has been advanced. */
  function Advanced(l: Ledger, signer: string): Ledger {
    var a := AccountAt(l, signer);
    l.(accounts := l.accounts[signer := a.(nonce := SaturatingAdd(a.nonce, 1))])
  }

  /** A registry operation lowers no balance but its signer's, and that only to fund an
      escrow of which the signer is the buyer, by the amount funded. */
  lemma {:induction false} OnlyTheSignerPays(l: Ledger, op: RegistryOp, blue: nat, addr: string)
    requires Balance(ApplyRegistryOp(l, op, blue).ledger, addr) < Balance(l, addr)
    ensures addr == op.signer && op.signed && op.action.FundEscrow? && op.action.escrowId in l.escrows
    ensures l.escrows[op.action.escrowId].buyer == addr
    ensures Balance(ApplyRegistryOp(l, op, blue).ledger, addr) + op.action.amount == Balance(l, addr)
    ensures FundedAt(ApplyRegistryOp(l, op, blue).ledger, op.action.escrowId) ==
            FundedAt(l, op.action.escrowId) + op.action.amount
  {
    ActBalances(Advanced(l, op.signer), op.signer, op.action, blue, addr);
  }

  lemma {:induction false} FailedActChangesNothing(l: Ledger, signer: string, action: RegistryAction, blue: nat)
    requires !Act(l, signer, action, blue).ok
    ensures Act(l, signer, action, blue).ledger == l
  {
  }

  /** A registry operation that fails leaves no trace exactly when its signature is bad, or the
      signer has an account already and the nonce is wrong or can rise no further. Otherwise
      it has opened the account or used up the nonce, and done nothing else. */
  lemma {:induction false} FailureLeavesNoTrace(l: Ledger, op: RegistryOp, blue: nat)
    requires !ApplyRegistryOp(l, op, blue).ok
    ensures var r := ApplyRegistryOp(l, op, blue).ledger;
            && (r == l <==>
                  !op.signed || (op.signer in l.accounts
                                 && (op.nonce != l.accounts[op.signer].nonce || op.nonce == U64_MAX)))
            && (r == l || (op.signer in r.accounts
                           && var a := AccountAt(l, op.signer).(nonce := r.accounts[op.signer].nonce);
                              r == l.(accounts := l.accounts[op.signer := a])))
  {
    if op.signed {
      var a := AccountAt(l, op.signer);
      if op.nonce == a.nonce {
        FailedActChangesNothing(Advanced(l, op.signer), op.signer, op.action, blue);
        assert Advanced(l, op.signer).accounts[op.signer].nonce == SaturatingAdd(a.nonce, 1);
      }
      assert op.signer in l.accounts ==> l.accounts[op.signer := a] == l.accounts;
    }
  }

  /** An operation that fails and still moves its signer's nonce. */
  lemma {:induction false} FailureUsesNonce() returns (l: Ledger, op: RegistryOp)
    ensures !ApplyRegistryOp(l, op, 0).ok && ApplyRegistryOp(l, op, 0).ledger != l
  {
    l := Ledger(map["owner" := Account(5, 0)], map[], map[], {}, map[], map[], 5, 0);
    op := RegistryOp("owner", true, 0, TransferTitle(0, "other"));
    FailureLeavesNoTrace(l, op, 0);
  }

  lemma {:induction false} ActPaysOut(l: Ledger, signer: string, action: RegistryAction, blue: nat, id: Hash)
    requires FundedAt(Act(l, signer, action, blue).ledger, id) < FundedAt(l, id)
    ensures id in l.escrows && FundedAt(Act(l, signer, action, blue).ledger, id) == 0
    ensures PaidRightly(l, Act(l, signer, action, blue).ledger, signer, action, blue, id)
  {
    PaysOutOf(l, signer, action, blue, id);
    if action.ReleaseEscrow? {
      PayOutBalances(l, id, l.escrows[id].seller, Released, l.escrows[id].seller);
    } else {
      RefundBalances(l, id, l.escrows[id].buyer);
    }
  }

  /** Only the three closing actions take anything out of an escrow, and only out of their own. */
  lemma {:induction false} PaysOutOf(l: Ledger, signer: string, action: RegistryAction, blue: nat, id: Hash)
    requires FundedAt(Act(l, signer, action, blue).ledger, id) < FundedAt(l, id)
    ensures Act(l, signer, action, blue).ok && id in l.escrows
    ensures action == ReleaseEscrow(id) || action == RefundEscrow(id) || action == TimeoutClaimEscrow(id)
  {
  }

  /** The escrow's whole holding went to the seller, on the buyer's release of a funded escrow;
      or back to the buyer, when the buyer asked before it was funded, the seller after, or the
      buyer claimed a funded one at or after its timeout. */
  ghost predicate PaidRightly(l: Ledger, after: Ledger, signer: string, action: RegistryAction, blue: nat, id: Hash)
    requires id in l.escrows
  {
    var esc := l.escrows[id];
    || (action == ReleaseEscrow(id) && signer == esc.buyer && esc.status == Funded
        && Balance(after, esc.seller) == Balance(l, esc.seller) + esc.funded)
    || (action == RefundEscrow(id) && ((esc.status == Open && signer == esc.buyer)
                                       || (esc.status == Funded && signer == esc.seller))
        && Balance(after, esc.buyer) == Balance(l, esc.buyer) + esc.funded)
    || (action == TimeoutClaimEscrow(id) && signer == esc.buyer && esc.status == Funded && blue >= esc.timeoutBlue > 0
        && Balance(after, esc.buyer) == Balance(l, esc.buyer) + esc.funded)
  }

  /** What an escrow holds leaves it all at once, to the party entitled to it. */
  lemma {:induction false} EscrowPaysOut(l: Ledger, op: RegistryOp, blue: nat, id: Hash)
    requires FundedAt(ApplyRegistryOp(l, op, blue).ledger, id) < FundedAt(l, id)
    ensures op.signed && id in l.escrows && FundedAt(ApplyRegistryOp(l, op, blue).ledger, id) == 0
    ensures PaidRightly(l, ApplyRegistryOp(l, op, blue).ledger, op.signer, op.action, blue, id)
  {
    ActPaysOut(Advanced(l, op.signer), op.signer, op.action, blue, id);
  }

  /** A title changes hands only by its owner while it is not in escrow, or to the buyer of a
      funded escrow on it that the buyer releases. */
  lemma {:induction false} TitleChangesHands(l: Ledger, op: RegistryOp, blue: nat, id: Hash)
    requires id in l.titles && id in ApplyRegistryOp(l, op, blue).ledger.titles
    requires ApplyRegistryOp(l, op, blue).ledger.titles[id].owner != l.titles[id].owner
    ensures op.signed
    ensures || (op.action.TransferTitle? && op.action.titleId == id && op.signer == l.titles[id].owner
                && l.titles[id].escrow.None?)
            || (op.action.ReleaseEscrow? && op.action.escrowId in l.escrows
                && var esc := l.escrows[op.action.escrowId];
                   op.signer == esc.buyer && esc.status == Funded && esc.title == Some(id)
                   && ApplyRegistryOp(l, op, blue).ledger.titles[id].owner == esc.buyer)
  {
  }

  // ----- Custody -----

  /** Custody moves value between an account and its own stake, and touches nobody else. */
  lemma {:induction false} CustodyIsOwn(l: Ledger, op: CustodyOp, addr: string)
    ensures var after := ApplyCustodyOp(l, op).ledger;
            && (addr != op.owner ==>
                  Balance(after, addr) == Balance(l, addr) && StakedAt(after, addr) == StakedAt(l, addr))
            && Balance(after, addr) + StakedAt(after, addr) == Balance(l, addr) + StakedAt(l, addr)
  {
  }

  // ----- Over a whole replay -----

  /** What `addr` holds in its account and its stake. */
  function Holding(l: Ledger, addr: string): nat { Balance(l, addr) + StakedAt(l, addr) }

  /** The sum of the amounts `addr` signed into escrow. */
  function SignedAway(ops: seq<RegistryOp>, addr: string): nat {
    if ops == [] then 0
    else
      var op := ops[|ops| - 1];
      SignedAway(ops[..|ops| - 1], addr)
      + if op.signed && op.signer == addr && op.action.FundEscrow? then op.action.amount else 0
  }

  function SignedAwayIn(blocks: seq<Scored>, addr: string): nat {
    if blocks == [] then 0
    else SignedAwayIn(blocks[..|blocks| - 1], addr) + SignedAway(blocks[|blocks| - 1].block.body.registryOps, addr)
  }

  lemma {:induction false} CreatingOnlyCredits(l: Ledger, tx: UtxoTx, n: nat, blue: nat, addr: string)
    requires n <= |tx.outputs|
    ensures Balance(CreateAll(l, tx, n, blue).ledger, addr) >= Balance(l, addr)
    ensures CreateAll(l, tx, n, blue).ledger.staked == l.staked
  {
    if n > 0 {
      CreatingOnlyCredits(l, tx, n - 1, blue, addr);
    }
  }

  lemma {:induction false} SpendingKeepsAccounts(l: Ledger, inputs: seq<TxIn>)
    ensures var m := SpendAll(l, inputs).ledger; m.accounts == l.accounts && m.staked == l.staked
  {
    if inputs != [] {
      SpendingKeepsAccounts(l, inputs[..|inputs| - 1]);
    }
  }

  lemma {:induction false} TxsOnlyCredit(rules: Rules, l: Ledger, txs: seq<UtxoTx>, blue: nat, addr: string)
    ensures Balance(ReplayUtxoTxs(rules, l, txs, blue).ledger, addr) >= Balance(l, addr)
    ensures ReplayUtxoTxs(rules, l, txs, blue).ledger.staked == l.staked
  {
    if txs != [] {
      var k := |txs| - 1;
      TxsOnlyCredit(rules, l, txs[..k], blue, addr);
      var before := ReplayUtxoTxs(rules, l, txs[..k], blue).ledger;
      SpendingKeepsAccounts(before, txs[k].inputs);
      CreatingOnlyCredits(SpendAll(before, txs[k].inputs).ledger, txs[k], |txs[k].outputs|, blue, addr);
    }
  }

  lemma {:induction false} OpTakes(l: Ledger, op: RegistryOp, blue: nat, addr: string)
    ensures var r := ApplyRegistryOp(l, op, blue).ledger;
            && r.staked == l.staked
            && Balance(l, addr) <= Balance(r, addr)
               + if op.signed && op.signer == addr && op.action.FundEscrow? then op.action.amount else 0
  {
    if Balance(ApplyRegistryOp(l, op, blue).ledger, addr) < Balance(l, addr) {
      OnlyTheSignerPays(l, op, blue, addr);
    }
  }

  lemma {:induction false} RegistryTakes(l: Ledger, ops: seq<RegistryOp>, blue: nat, addr: string)
    ensures Balance(l, addr) <= Balance(ReplayRegistryOps(l, ops, blue), addr) + SignedAway(ops, addr)
    ensures ReplayRegistryOps(l, ops, blue).staked == l.staked
  {
    if ops != [] {
      var k := |ops| - 1;
      RegistryTakes(l, ops[..k], blue, addr);
      OpTakes(ReplayRegistryOps(l, ops[..k], blue), ops[k], blue, addr);
    }
  }

  lemma {:induction false} CustodyKeepsHolding(l: Ledger, ops: seq<CustodyOp>, addr: string)
    ensures Holding(ReplayCustodyOps(l, ops), addr) == Holding(l, addr)
    ensures (forall op :: op in ops && op.wellFormed ==> op.owner != addr) ==>
            StakedAt(ReplayCustodyOps(l, ops), addr) == StakedAt(l, addr)
  {
    if ops != [] {
      var k := |ops| - 1;
      CustodyKeepsHolding(l, ops[..k], addr);
      assert ops[k] in ops;
      CustodyIsOwn(ReplayCustodyOps(l, ops[..k]), ops[k], addr);
    }
  }

  lemma {:induction false} BlockTakes(rules: Rules, l: Ledger, b: Scored, addr: string)
    ensures var r := Apply(rules, l, b.block, b.blue);
            && Holding(l, addr) <= Holding(r, addr) + SignedAway(b.block.body.registryOps, addr)
            && ((forall op :: op in b.block.body.custodyOps && op.wellFormed ==> op.owner != addr) ==>
                  StakedAt(r, addr) == StakedAt(l, addr))
  {
    var body := b.block.body;
    var utxo := ReplayUtxoTxs(rules, l, body.utxoTxs, b.blue).ledger;
    var registry := ReplayRegistryOps(utxo, body.registryOps, b.blue);
    TxsOnlyCredit(rules, l, body.utxoTxs, b.blue, addr);
    RegistryTakes(utxo, body.registryOps, b.blue, addr);
    CustodyKeepsHolding(registry, body.custodyOps, addr);
  }

  /** Over any replay, account and stake of an address together lose no more than what that
      address itself signed into escrow. */
  lemma {:induction false} OnlyOwnSignaturesTake(rules: Rules, l: Ledger, blocks: seq<Scored>, addr: string)
    ensures Holding(l, addr) <= Holding(ReplayAll(rules, l, blocks), addr) + SignedAwayIn(blocks, addr)
  {
    if blocks != [] {
      var k := |blocks| - 1;
      OnlyOwnSignaturesTake(rules, l, blocks[..k], addr);
      BlockTakes(rules, ReplayAll(rules, l, blocks[..k]), blocks[k], addr);
    }
  }

  /** Over any replay without a well-formed custody operation of that owner, its stake stays. */
  lemma {:induction false} OnlyTheOwnerStakes(rules: Rules, l: Ledger, blocks: seq<Scored>, addr: string)
    requires forall b, op :: b in blocks && op in b.block.body.custodyOps && op.wellFormed ==> op.owner != addr
    ensures StakedAt(ReplayAll(rules, l, blocks), addr) == StakedAt(l, addr)
  {
    if blocks != [] {
      var k := |blocks| - 1;
      assert blocks[k] in blocks;
      OnlyTheOwnerStakes(rules, l, blocks[..k], addr);
      BlockTakes(rules, ReplayAll(rules, l, blocks[..k]), blocks[k], addr);
    }
  }

  // ----- Titles in escrow -----

  predicate Pending(e: Escrow) {
    e.status == Open || e.status == Funded
  }

  /** A pending escrow on a title has it locked, in the seller's name; once funded it holds its
      full price. */
  predicate PledgeOf(l: Ledger, id: Hash)
    requires id in l.escrows
  {
    var e := l.escrows[id];
    && (e.status == Funded ==> e.funded >= e.amount)
    && (Pending(e) && e.title.Some? ==>
          e.title.value in l.titles && l.titles[e.title.value] == Deed(e.seller, Some(id)))
  }

  /** A locked title is locked by a pending escrow on it. */
  predicate LockOf(l: Ledger, t: Hash)
    requires t in l.titles
  {
    l.titles[t].escrow.Some? ==>
      && l.titles[t].escrow.value in l.escrows
      && Pending(l.escrows[l.titles[t].escrow.value]) && l.escrows[l.titles[t].escrow.value].title == Some(t)
  }

  ghost predicate Pledged(l: Ledger) {
    && (forall id {:trigger PledgeOf(l, id)} :: id in l.escrows ==> PledgeOf(l, id))
    && (forall t {:trigger LockOf(l, t)} :: t in l.titles ==> LockOf(l, t))
  }

  /** The titles with the escrow's one, if it has one, set to `deed`. */
  function Settled(titles: map<Hash, Deed>, title: Option<Hash>, deed: Deed): map<Hash, Deed> {
    if title.Some? && title.value in titles then titles[title.value := deed] else titles
  }

  /** Closing an escrow, with its title freed or handed over, breaks no other pledge. */
  lemma {:induction false} CloseKeepsPledges(l: Ledger, m: Ledger, id: Hash, e: Escrow, deed: Deed)
    requires Pledged(l) && id in l.escrows && Pending(l.escrows[id]) && !Pending(e) && deed.escrow.None?
    requires m.escrows == l.escrows[id := e] && m.titles == Settled(l.titles, l.escrows[id].title, deed)
    ensures Pledged(m)
  {
    assert PledgeOf(l, id);
    forall k | k in m.escrows
      ensures PledgeOf(m, k)
    {
      assert PledgeOf(l, k);
    }
    forall t | t in m.titles
      ensures LockOf(m, t)
    {
      assert LockOf(l, t);
    }
  }

  lemma {:induction false} OpenKeepsPledges(l: Ledger, signer: string, action: RegistryAction, blue: nat)
    requires Pledged(l) && action.OpenEscrow? && Act(l, signer, action, blue).ok
    ensures Pledged(Act(l, signer, action, blue).ledger)
  {
    var e := Escrow(action.buyer, action.seller, action.amount, 0, Open, action.title, action.timeoutBlue);
    PledgeAdded(l, Act(l, signer, action, blue).ledger, action.escrowId, e);
  }

  lemma {:induction false} PledgeAdded(l: Ledger, m: Ledger, id: Hash, e: Escrow)
    requires Pledged(l) && id !in l.escrows && e.status == Open && m.escrows == l.escrows[id := e]
    requires e.title.Some? ==> e.title.value in l.titles && l.titles[e.title.value] == Deed(e.seller, None)
    requires m.titles == Settled(l.titles, e.title, Deed(e.seller, Some(id)))
    ensures Pledged(m)
  {
    forall k | k in m.escrows
      ensures PledgeOf(m, k)
    {
      assert k in l.escrows ==> PledgeOf(l, k);
    }
    forall t | t in m.titles
      ensures LockOf(m, t)
    {
      assert LockOf(l, t);
    }
  }

  lemma {:induction false} ReleaseKeepsPledges(l: Ledger, id: Hash)
    requires Pledged(l) && id in l.escrows && Pending(l.escrows[id])
    ensures Pledged(HandTitle(PayOut(l, id, l.escrows[id].seller, Released), l.escrows[id].title, l.escrows[id].buyer))
  {
    var e := l.escrows[id];
    CloseKeepsPledges(l, HandTitle(PayOut(l, id, e.seller, Released), e.title, e.buyer), id,
                      e.(funded := 0, status := Released), Deed(e.buyer, None));
  }

  lemma {:induction false} RefundKeepsPledges(l: Ledger, id: Hash)
    requires Pledged(l) && id in l.escrows && Pending(l.escrows[id])
    ensures Pledged(Refund(l, id))
  {
    var e := l.escrows[id];
    assert e.funded == 0 ==> e.(status := Refunded) == e.(funded := 0, status := Refunded);
    var deed := if e.title.Some? && e.title.value in l.titles then l.titles[e.title.value].(escrow := None)
                else Deed("", None);
    CloseKeepsPledges(l, Refund(l, id), id, e.(funded := 0, status := Refunded), deed);
  }

  /** Issuing, transferring and funding. */
  lemma {:induction false} PlainKeepsPledges(l: Ledger, signer: string, action: RegistryAction, blue: nat)
    requires Pledged(l) && (action.IssueTitle? || action.TransferTitle? || action.FundEscrow?)
    ensures Pledged(Act(l, signer, action, blue).ledger)
  {
    var m := Act(l, signer, action, blue).ledger;
    forall k | k in m.escrows
      ensures PledgeOf(m, k)
    {
      assert PledgeOf(l, k);
    }
    forall t | t in m.titles
      ensures LockOf(m, t)
    {
      assert t in l.titles ==> LockOf(l, t);
    }
  }

  lemma {:induction false} ActKeepsPledges(l: Ledger, signer: string, action: RegistryAction, blue: nat)
    requires Pledged(l)
    ensures Pledged(Act(l, signer, action, blue).ledger)
  {
    if Act(l, signer, action, blue).ok {
      match action
      case OpenEscrow(_, _, _, _, _, _) => OpenKeepsPledges(l, signer, action, blue);
      case ReleaseEscrow(id) => ReleaseKeepsPledges(l, id);
      case RefundEscrow(id) => RefundKeepsPledges(l, id);
      case TimeoutClaimEscrow(id) => RefundKeepsPledges(l, id);
      case _ => PlainKeepsPledges(l, signer, action, blue);
    }
  }

  /** Pledges depend on titles and escrows alone. */
  lemma {:induction false} SamePledges(l: Ledger, m: Ledger)
    requires Pledged(l) && m.titles == l.titles && m.escrows == l.escrows
    ensures Pledged(m)
  {
    assert forall id :: id in m.escrows ==> PledgeOf(l, id) == PledgeOf(m, id);
    assert forall t :: t in m.titles ==> LockOf(l, t) == LockOf(m, t);
  }

  lemma {:induction false} RegistryKeepsPledges(l: Ledger, ops: seq<RegistryOp>, blue: nat)
    requires Pledged(l)
    ensures Pledged(ReplayRegistryOps(l, ops, blue))
  {
    if ops != [] {
      var k := |ops| - 1;
      RegistryKeepsPledges(l, ops[..k], blue);
      var before := ReplayRegistryOps(l, ops[..k], blue);
      var touched := before.(accounts := before.accounts[ops[k].signer := AccountAt(before, ops[k].signer)]);
      SamePledges(before, touched);
      SamePledges(before, Advanced(before, ops[k].signer));
      ActKeepsPledges(Advanced(before, ops[k].signer), ops[k].signer, ops[k].action, blue);
    }
  }

  lemma {:induction false} TxsKeepRegistry(rules: Rules, l: Ledger, txs: seq<UtxoTx>, blue: nat)
    ensures var m := ReplayUtxoTxs(rules, l, txs, blue).ledger; m.titles == l.titles && m.escrows == l.escrows
  {
    if txs != [] {
      var k := |txs| - 1;
      TxsKeepRegistry(rules, l, txs[..k], blue);
      var before := ReplayUtxoTxs(rules, l, txs[..k], blue).ledger;
      SpendingKeepsRegistry(before, txs[k].inputs);
      CreatingKeepsRegistry(SpendAll(before, txs[k].inputs).ledger, txs[k], |txs[k].outputs|, blue);
    }
  }

  lemma {:induction false} SpendingKeepsRegistry(l: Ledger, inputs: seq<TxIn>)
    ensures var m := SpendAll(l, inputs).ledger; m.titles == l.titles && m.escrows == l.escrows
  {
    if inputs != [] {
      SpendingKeepsRegistry(l, inputs[..|inputs| - 1]);
    }
  }

  lemma {:induction false} CreatingKeepsRegistry(l: Ledger, tx: UtxoTx, n: nat, blue: nat)
    requires n <= |tx.outputs|
    ensures var m := CreateAll(l, tx, n, blue).ledger; m.titles == l.titles && m.escrows == l.escrows
  {
    if n > 0 {
      CreatingKeepsRegistry(l, tx, n - 1, blue);
    }
  }

  lemma {:induction false} CustodyKeepsRegistry(l: Ledger, ops: seq<CustodyOp>)
    ensures var m := ReplayCustodyOps(l, ops); m.titles == l.titles && m.escrows == l.escrows
  {
    if ops != [] {
      CustodyKeepsRegistry(l, ops[..|ops| - 1]);
    }
  }

  /** After the blocks of a replay and the transactions and some registry operations of the
      next one, every pledge is in order. */
  lemma {:induction false} ReplayKeepsPledges(rules: Rules, l: Ledger, blocks: seq<Scored>, body: Body, blue: nat)
    requires Pledged(l)
    ensures Pledged(ReplayAll(rules, l, blocks))
    ensures Pledged(ReplayRegistryOps(ReplayUtxoTxs(rules, ReplayAll(rules, l, blocks), body.utxoTxs, blue).ledger,
                                      body.registryOps, blue))
    decreases |blocks|
  {
    if blocks != [] {
      var k := |blocks| - 1;
      var b := blocks[k].block.body;
      ReplayKeepsPledges(rules, l, blocks[..k], b, blocks[k].blue);
      var utxo := ReplayUtxoTxs(rules, ReplayAll(rules, l, blocks[..k]), b.utxoTxs, blocks[k].blue).ledger;
      var registry := ReplayRegistryOps(utxo, b.registryOps, blocks[k].blue);
      CustodyKeepsRegistry(registry, b.custodyOps);
      SamePledges(registry, ReplayAll(rules, l, blocks));
    }
    TxsKeepRegistry(rules, ReplayAll(rules, l, blocks), body.utxoTxs, blue);
    SamePledges(ReplayAll(rules, l, blocks),
                ReplayUtxoTxs(rules, ReplayAll(rules, l, blocks), body.utxoTxs, blue).ledger);
    RegistryKeepsPledges(ReplayUtxoTxs(rules, ReplayAll(rules, l, blocks), body.utxoTxs, blue).ledger,
                         body.registryOps, blue);
  }

  /** At any point of any replay: a release that succeeds takes the title out of the seller's
      name into the buyer's and pays the seller at least the agreed price. */
  lemma {:induction false} DeliveryAgainstPayment(rules: Rules, seed: Ledger, blocks: seq<Scored>, body: Body,
                                                  op: RegistryOp, blue: nat)
    requires Pledged(seed) && op.action.ReleaseEscrow?
    requires ApplyRegistryOp(ReplayRegistryOps(ReplayUtxoTxs(rules, ReplayAll(rules, seed, blocks), body.utxoTxs,
                                                             blue).ledger, body.registryOps, blue), op, blue).ok
    ensures var l := ReplayRegistryOps(ReplayUtxoTxs(rules, ReplayAll(rules, seed, blocks), body.utxoTxs,
                                                     blue).ledger, body.registryOps, blue);
            var r := ApplyRegistryOp(l, op, blue).ledger;
            && op.action.escrowId in l.escrows
            && var e := l.escrows[op.action.escrowId];
            && op.signed && op.signer == e.buyer && Balance(r, e.seller) >= Balance(l, e.seller) + e.amount
            && (e.title.Some? ==>
                  && e.title.value in l.titles && l.titles[e.title.value].owner == e.seller
                  && e.title.value in r.titles && r.titles[e.title.value] == Deed(e.buyer, None))
  {
    ReplayKeepsPledges(rules, seed, blocks, body, blue);
    var l := ReplayRegistryOps(ReplayUtxoTxs(rules, ReplayAll(rules, seed, blocks), body.utxoTxs, blue).ledger,
                               body.registryOps, blue);
    ReleaseDelivers(l, op, blue);
  }

  lemma {:induction false} ReleaseDelivers(l: Ledger, op: RegistryOp, blue: nat)
    requires Pledged(l) && op.action.ReleaseEscrow? && ApplyRegistryOp(l, op, blue).ok
    ensures var r := ApplyRegistryOp(l, op, blue).ledger;
            && op.action.escrowId in l.escrows
            && var e := l.escrows[op.action.escrowId];
            && op.signed && op.signer == e.buyer && Balance(r, e.seller) >= Balance(l, e.seller) + e.amount
            && (e.title.Some? ==>
                  && e.title.value in l.titles && l.titles[e.title.value].owner == e.seller
                  && e.title.value in r.titles && r.titles[e.title.value] == Deed(e.buyer, None))
  {
    var id := op.action.escrowId;
    assert PledgeOf(l, id);
    PayOutBalances(Advanced(l, op.signer), id, l.escrows[id].seller, Released, l.escrows[id].seller);
  }

  // ----- UTXO transactions -----

  /** The ledger as the next transaction meets it: after the blocks of a replay and some
      transactions of the next block. */
  ghost function Midway(rules: Rules, seed: Ledger, blocks: seq<Scored>, list: seq<UtxoTx>, blue: nat): Ledger {
    ReplayUtxoTxs(rules, ReplayAll(rules, seed, blocks), list, blue).ledger
  }

  /** The transactions that passed all their checks on the way there. */
  ghost function DoneBy(rules: Rules, seed: Ledger, blocks: seq<Scored>, list: seq<UtxoTx>, blue: nat): set<UtxoTx> {
    DoneOver(rules, seed, blocks) + DoneIn(rules, ReplayAll(rules, seed, blocks), list, blue)
  }

  ghost function Listed(list: seq<UtxoTx>): set<UtxoTx> {
    set tx | tx in list
  }

  lemma {:induction false} MidwayAccounted(rules: Rules, seed: Ledger, blocks: seq<Scored>, list: seq<UtxoTx>,
                                           blue: nat)
    requires SpentApart(seed) && FreshTxs(seed, AllTxs(blocks) + Listed(list)) && FreshCoinbases(seed, blocks)
    ensures Accounted(seed, History(CoinbasesOf(blocks), DoneBy(rules, seed, blocks, list, blue)),
                      Midway(rules, seed, blocks, list, blue))
  {
    var txs := AllTxs(blocks) + Listed(list);
    ReplayAccounted(rules, seed, txs, blocks);
    TxsAccounted(rules, seed, HistoryOf(rules, seed, blocks), txs, ReplayAll(rules, seed, blocks), list, blue);
  }

  /** Once a transaction has passed its checks, no transaction that shares an input with it
      applies at any later point of the replay. */
  lemma {:induction false} NoDoubleSpend(rules: Rules, seed: Ledger, blocks: seq<Scored>, list: seq<UtxoTx>, blue: nat,
                                         first: UtxoTx, second: UtxoTx, now: nat)
    requires SpentApart(seed) && FreshTxs(seed, AllTxs(blocks) + Listed(list)) && FreshCoinbases(seed, blocks)
    requires first in DoneBy(rules, seed, blocks, list, blue) && Spends(first) * Spends(second) != {}
    ensures !ApplyUtxoTx(rules, Midway(rules, seed, blocks, list, blue), second, now).ok
  {
    MidwayAccounted(rules, seed, blocks, list, blue);
    if Spendable(rules, Midway(rules, seed, blocks, list, blue), second, now) {
      DoneIsDead(rules, seed, History(CoinbasesOf(blocks), DoneBy(rules, seed, blocks, list, blue)),
                 Midway(rules, seed, blocks, list, blue), second, now, first);
    }
  }

  /** A block's coinbase is spent, at any later point of the replay, by its miner's key only,
      and not before it has matured. */
  lemma {:induction false} CoinbaseIsTheMiners(rules: Rules, seed: Ledger, blocks: seq<Scored>, list: seq<UtxoTx>,
                                               blue: nat, k: nat, tx: UtxoTx, now: nat)
    requires SpentApart(seed) && FreshTxs(seed, AllTxs(blocks) + Listed(list)) && FreshCoinbases(seed, blocks)
    requires k < |blocks| && CoinbaseOf(blocks[k]) in Spends(tx)
    requires ApplyUtxoTx(rules, Midway(rules, seed, blocks, list, blue), tx, now).ok
    ensures rules.same(blocks[k].block.miner, tx.signer)
    ensures now >= SaturatingAdd(blocks[k].blue, COINBASE_MATURITY_BLUES)
  {
    MidwayAccounted(rules, seed, blocks, list, blue);
    BlockHasCoinbase(seed, blocks, k);
    var x :| x in tx.inputs && x.previous == CoinbaseOf(blocks[k]);
    assert InputOk(rules, Midway(rules, seed, blocks, list, blue), tx, x, now);
  }

  /** Right after a reward, whatever the ledger was before. */
  lemma {:induction false} RewardIsTheMiners(rules: Rules, l: Ledger, block: Block, blue: nat, fees: nat, tx: UtxoTx,
                                             x: TxIn, now: nat)
    requires Subsidy(l, blue) + fees > 0 && x in tx.inputs && x.previous == OutPoint(block.coinbaseTxid, U32_MAX)
    requires ApplyUtxoTx(rules, Reward(l, block, blue, fees), tx, now).ok
    ensures rules.same(block.miner, tx.signer) && now >= SaturatingAdd(blue, COINBASE_MATURITY_BLUES)
  {
    assert InputOk(rules, Reward(l, block, blue, fees), tx, x, now);
  }
}
