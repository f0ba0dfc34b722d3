/** What each ledger operation does when it succeeds, and exactly when it does: a transaction
    and the checks it can fail, registry operations, custody operations (src/utxo_tx.rs,
    src/registry.rs, src/lib.rs). */
module Outcomes {
  import opened Types
  import opened Spending
  import opened LedgerSteps
  import opened BlockEffects
  import opened Authority

  // ----- What a predicate contains -----

  /** A predicate and everything nested in it. */
  ghost function Parts(p: Predicate): (s: set<Predicate>)
    ensures p in s
  {
    match p
    case And(left, right) => {p} + Parts(left) + Parts(right)
    case Or(left, right) => {p} + Parts(left) + Parts(right)
    case ExactValue(_, inner) => {p} + Parts(inner)
    case _ => {p}
  }

  /** Some account credit is nested in it. */
  ghost predicate HasCredit(p: Predicate) {
    exists q :: q in Parts(p) && q.CreditAccount?
  }

  /** An output is an account credit exactly when a credit is nested in it anywhere. */
  lemma {:induction false} CreditIsNested(p: Predicate)
    ensures IsAccountCredit(p) <==> HasCredit(p)
  {
    match p
    case And(left, right) =>
      CreditIsNested(left);
      CreditIsNested(right);
    case Or(left, right) =>
      CreditIsNested(left);
      CreditIsNested(right);
    case ExactValue(_, inner) =>
      CreditIsNested(inner);
    case _ =>
      assert Parts(p) == {p};
  }

  /** A value covenant nested in it binds another value. */
  ghost predicate BindsOther(p: Predicate, value: nat) {
    exists q :: q in Parts(p) && q.ExactValue? && q.value != value
  }

  /** The exact-value check looks at every covenant, wherever it is nested. */
  lemma {:induction false} BindingIsNested(p: Predicate, value: nat)
    ensures ExactValueBinds(p, value) <==> !BindsOther(p, value)
  {
    match p
    case And(left, right) =>
      BindingIsNested(left, value);
      BindingIsNested(right, value);
    case Or(left, right) =>
      BindingIsNested(left, value);
      BindingIsNested(right, value);
    case ExactValue(_, inner) =>
      BindingIsNested(inner, value);
    case _ =>
      assert Parts(p) == {p};
  }

  // ----- Which checks a transaction can fail -----

  datatype Refusal =
    | BadForm
    | NoInputs
    | SameInput(i: nat, j: nat)
    | FeeTooLow
    | TooEarly
    | Missing(i: nat)
    | AlreadySpent(i: nat)
    | Immature(i: nat)
    | StillLocked(i: nat)
    | NotUnlocked(i: nat)
    | OtherValue(i: nat)
    | Unbalanced
    | NoAccount(i: nat)

  /** The score at which something made at `created` has aged by `blues`, or the last there is. */
  function Aged(created: nat, blues: nat): nat {
    if created + blues <= U64_MAX then created + blues else U64_MAX
  }

  /** What evaluating the lock of an output of this age sees of the spending transaction. */
  function Seen(rules: Rules, tx: UtxoTx, created: nat, blue: nat): Context {
    Context(rules.same, rules.addressOf, rules.verifies, rules.digest, tx.signer, blue, created, Some(tx.sighash))
  }

  /** Input `i` names a live output, and that output is `out`. */
  predicate Names(l: Ledger, tx: UtxoTx, i: nat, out: TxOut) {
    i < |tx.inputs| && tx.inputs[i].previous in l.utxo && l.utxo[tx.inputs[i].previous] == out
  }

  /** The transaction fails this check. */
  ghost predicate Fails(rules: Rules, l: Ledger, tx: UtxoTx, blue: nat, why: Refusal) {
    match why
    case BadForm => !tx.formOk
    case NoInputs => tx.inputs == []
    case SameInput(i, j) => i < j < |tx.inputs| && tx.inputs[i].previous == tx.inputs[j].previous
    case FeeTooLow => tx.fee < 1000 || tx.fee < tx.relayBytes
    case TooEarly => blue < tx.lockBlueScore
    case Missing(i) => i < |tx.inputs| && tx.inputs[i].previous !in l.utxo
    case AlreadySpent(i) => i < |tx.inputs| && tx.inputs[i].previous in l.spent
    case Immature(i) =>
      exists out :: Names(l, tx, i, out) && tx.inputs[i].previous.vout == U32_MAX && blue < Aged(out.createdBlue, 100)
    case StillLocked(i) =>
      exists out :: Names(l, tx, i, out) && tx.inputs[i].relativeLockBlues > 0
                    && blue < Aged(out.createdBlue, tx.inputs[i].relativeLockBlues)
    case NotUnlocked(i) =>
      exists out :: Names(l, tx, i, out)
                    && !Unlocks(Seen(rules, tx, out.createdBlue, blue), out.lock, tx.inputs[i].unlock)
    case OtherValue(i) => exists out :: Names(l, tx, i, out) && BindsOther(out.lock, out.value)
    case Unbalanced =>
      (forall x :: x in tx.inputs ==> x.previous in l.utxo) && InputSum(l, tx.inputs) != OutputSum(tx.outputs) + tx.fee
    case NoAccount(i) => i < |tx.outputs| && HasCredit(tx.outputs[i].lock) && LockedAddress(tx.outputs[i].lock).None?
  }

  /** An input is in order exactly when it fails none of its own checks. */
  lemma {:induction false} InputInOrder(rules: Rules, l: Ledger, tx: UtxoTx, blue: nat, i: nat)
    requires i < |tx.inputs|
    ensures InputOk(rules, l, tx, tx.inputs[i], blue) <==>
            && !Fails(rules, l, tx, blue, Missing(i)) && !Fails(rules, l, tx, blue, Immature(i))
            && !Fails(rules, l, tx, blue, StillLocked(i)) && !Fails(rules, l, tx, blue, NotUnlocked(i))
            && !Fails(rules, l, tx, blue, OtherValue(i))
  {
    var op := tx.inputs[i].previous;
    if op in l.utxo {
      var out := l.utxo[op];
      BindingIsNested(out.lock, out.value);
      assert forall o :: Names(l, tx, i, o) <==> o == out;
    }
  }

  lemma {:induction false} SpendsUnlessSpent(l: Ledger, inputs: seq<TxIn>)
    requires DistinctInputs(inputs) && forall x :: x in inputs ==> x.previous in l.utxo
    ensures SpendAll(l, inputs).ok <==> forall x :: x in inputs ==> x.previous !in l.spent
    ensures SpendAll(l, inputs).ok ==>
              forall op :: op !in Previous(inputs) ==>
                             && (op in SpendAll(l, inputs).ledger.utxo <==> op in l.utxo)
                             && (op in SpendAll(l, inputs).ledger.spent <==> op in l.spent)
  {
    if inputs != [] {
      var k := |inputs| - 1;
      SpendsUnlessSpent(l, inputs[..k]);
      assert forall x :: x in inputs <==> x in inputs[..k] || x == inputs[k];
      assert inputs[k].previous !in Previous(inputs[..k]);
    }
  }

  /** The outputs named by inputs. */
  function Previous(inputs: seq<TxIn>): set<OutPoint> {
    set x | x in inputs :: x.previous
  }

  lemma {:induction false} CreatesUnlessNoAccount(l: Ledger, tx: UtxoTx, n: nat, blue: nat)
    requires n <= |tx.outputs|
    ensures CreateAll(l, tx, n, blue).ok <==>
            forall i :: 0 <= i < n && IsAccountCredit(tx.outputs[i].lock) ==> LockedAddress(tx.outputs[i].lock).Some?
  {
    if n > 0 {
      CreatesUnlessNoAccount(l, tx, n - 1, blue);
    }
  }

  ghost predicate FailsSome(rules: Rules, l: Ledger, tx: UtxoTx, blue: nat) {
    exists why :: Fails(rules, l, tx, blue, why)
  }

  lemma {:induction false} SpendableInOrder(rules: Rules, l: Ledger, tx: UtxoTx, blue: nat)
    requires !FailsSome(rules, l, tx, blue)
    ensures Spendable(rules, l, tx, blue)
  {
    assert !Fails(rules, l, tx, blue, BadForm) && !Fails(rules, l, tx, blue, NoInputs);
    assert !Fails(rules, l, tx, blue, FeeTooLow) && !Fails(rules, l, tx, blue, TooEarly);
    assert !Fails(rules, l, tx, blue, Unbalanced);
    forall i, j | 0 <= i < j < |tx.inputs|
      ensures tx.inputs[i].previous != tx.inputs[j].previous
    {
      assert !Fails(rules, l, tx, blue, SameInput(i, j));
    }
    forall x | x in tx.inputs
      ensures InputOk(rules, l, tx, x, blue)
    {
      var i :| 0 <= i < |tx.inputs| && tx.inputs[i] == x;
      InputInOrder(rules, l, tx, blue, i);
    }
  }

  lemma {:induction false} OrderIsSpendable(rules: Rules, l: Ledger, tx: UtxoTx, blue: nat, why: Refusal)
    requires Spendable(rules, l, tx, blue) && !why.AlreadySpent? && !why.NoAccount?
    ensures !Fails(rules, l, tx, blue, why)
  {
    if why.Missing? || why.Immature? || why.StillLocked? || why.NotUnlocked? || why.OtherValue? {
      if why.i < |tx.inputs| {
        assert tx.inputs[why.i] in tx.inputs;
        InputInOrder(rules, l, tx, blue, why.i);
      }
    }
  }

  /** A transaction applies exactly when it fails none of the named checks. */
  lemma {:induction false} AppliesExactly(rules: Rules, l: Ledger, tx: UtxoTx, blue: nat)
    ensures ApplyUtxoTx(rules, l, tx, blue).ok <==> !FailsSome(rules, l, tx, blue)
  {
    if Spendable(rules, l, tx, blue) {
      SpendsUnlessSpent(l, tx.inputs);
      CreatesUnlessNoAccount(SpendAll(l, tx.inputs).ledger, tx, |tx.outputs|, blue);
      if ApplyUtxoTx(rules, l, tx, blue).ok {
        AppliedFailsNothing(rules, l, tx, blue);
      } else {
        RefusedFails(rules, l, tx, blue);
      }
    } else if !FailsSome(rules, l, tx, blue) {
      SpendableInOrder(rules, l, tx, blue);
      assert false;
    }
  }

  lemma {:induction false} AppliedFailsNothing(rules: Rules, l: Ledger, tx: UtxoTx, blue: nat)
    requires Spendable(rules, l, tx, blue) && forall x :: x in tx.inputs ==> x.previous !in l.spent
    requires Creditable(tx)
    ensures !FailsSome(rules, l, tx, blue)
  {
    forall why
      ensures !Fails(rules, l, tx, blue, why)
    {
      match why
      case AlreadySpent(i) => assert i < |tx.inputs| ==> tx.inputs[i] in tx.inputs;
      case NoAccount(i) => if i < |tx.outputs| { CreditIsNested(tx.outputs[i].lock); }
      case _ => OrderIsSpendable(rules, l, tx, blue, why);
    }
  }

  lemma {:induction false} RefusedFails(rules: Rules, l: Ledger, tx: UtxoTx, blue: nat)
    requires (exists x :: x in tx.inputs && x.previous in l.spent) || !Creditable(tx)
    ensures FailsSome(rules, l, tx, blue)
  {
    if !Creditable(tx) {
      var i :| 0 <= i < |tx.outputs| && IsAccountCredit(tx.outputs[i].lock) && LockedAddress(tx.outputs[i].lock).None?;
      CreditIsNested(tx.outputs[i].lock);
      assert Fails(rules, l, tx, blue, NoAccount(i));
    } else {
      var x :| x in tx.inputs && x.previous in l.spent;
      var i :| 0 <= i < |tx.inputs| && tx.inputs[i] == x;
      assert Fails(rules, l, tx, blue, AlreadySpent(i));
    }
  }

  // ----- Whose account a credit goes to -----

  /** The leaf reached by going left. */
  function Leftmost(p: Predicate): Predicate {
    match p
    case And(left, _) => Leftmost(left)
    case Or(left, _) => Leftmost(left)
    case ExactValue(_, inner) => Leftmost(inner)
    case _ => p
  }

  /** What the outputs of a transaction credit to one account. */
  function CreditsTo(outputs: seq<TxOut>, addr: string): nat {
    if outputs == [] then 0
    else
      var out := outputs[|outputs| - 1];
      CreditsTo(outputs[..|outputs| - 1], addr)
      + if IsAccountCredit(out.lock) && LockedAddress(out.lock) == Some(addr) then out.value else 0
  }

  lemma {:induction false} AddressIsLeftmost(p: Predicate)
    ensures LockedAddress(p) == LockedAddress(Leftmost(p))
    ensures forall addr :: LockedAddress(CreditAccount(addr)) == Some(addr)
  {
    match p
    case And(left, _) => AddressIsLeftmost(left);
    case Or(left, _) => AddressIsLeftmost(left);
    case ExactValue(_, inner) => AddressIsLeftmost(inner);
    case _ =>
  }

  lemma {:induction false} CreatingCredits(l: Ledger, tx: UtxoTx, n: nat, blue: nat, addr: string)
    requires n <= |tx.outputs| && CreateAll(l, tx, n, blue).ok
    ensures Balance(CreateAll(l, tx, n, blue).ledger, addr) == Balance(l, addr) + CreditsTo(tx.outputs[..n], addr)
  {
    if n > 0 {
      CreatingCredits(l, tx, n - 1, blue, addr);
      assert tx.outputs[..n][..n - 1] == tx.outputs[..n - 1];
    }
  }

  /** A transaction that applies raises each balance by exactly what its outputs credit to it. */
  lemma {:induction false} TxCredits(rules: Rules, l: Ledger, tx: UtxoTx, blue: nat, addr: string)
    requires ApplyUtxoTx(rules, l, tx, blue).ok
    ensures Balance(ApplyUtxoTx(rules, l, tx, blue).ledger, addr) == Balance(l, addr) + CreditsTo(tx.outputs, addr)
  {
    SpendingKeepsAccounts(l, tx.inputs);
    CreatingCredits(SpendAll(l, tx.inputs).ledger, tx, |tx.outputs|, blue, addr);
    assert tx.outputs[..|tx.outputs|] == tx.outputs;
  }

  // ----- Registry operations that succeed -----

  /** The title is live, in this name, and not in escrow. */
  predicate FreeIn(l: Ledger, id: Hash, owner: string) {
    id in l.titles && l.titles[id] == Deed(owner, None)
  }

  /** The signer may do this now. */
  predicate Entitled(l: Ledger, signer: string, action: RegistryAction, blue: nat) {
    match action
    case IssueTitle(id, _) => id !in l.titles
    case TransferTitle(id, _) => FreeIn(l, id, signer)
    case OpenEscrow(id, _, seller, amount, title, _) =>
      amount > 0 && id !in l.escrows && (title.Some? ==> FreeIn(l, title.value, seller))
    case FundEscrow(id, amount) =>
      id in l.escrows && l.escrows[id].buyer == signer && Pending(l.escrows[id]) && Balance(l, signer) >= amount
    case ReleaseEscrow(id) => id in l.escrows && l.escrows[id].buyer == signer && l.escrows[id].status == Funded
    case RefundEscrow(id) =>
      && id in l.escrows
      && ((l.escrows[id].status == Open && l.escrows[id].buyer == signer)
          || (l.escrows[id].status == Funded && l.escrows[id].seller == signer))
    case TimeoutClaimEscrow(id) =>
      && id in l.escrows && l.escrows[id].buyer == signer && l.escrows[id].status == Funded
      && 0 < l.escrows[id].timeoutBlue <= blue
  }

  /** A registry operation succeeds exactly when it is signed, carries the signer's next nonce
      and the signer is entitled to it. */
  lemma {:induction false} SucceedsExactly(l: Ledger, op: RegistryOp, blue: nat)
    ensures ApplyRegistryOp(l, op, blue).ok <==>
            op.signed && op.nonce == AccountAt(l, op.signer).nonce && Entitled(l, op.signer, op.action, blue)
  {
    if op.signed && op.nonce == AccountAt(l, op.signer).nonce {
      var m := Advanced(l, op.signer);
      assert Balance(m, op.signer) == Balance(l, op.signer) && op.signer in m.accounts;
      assert Act(m, op.signer, op.action, blue).ok <==> Entitled(m, op.signer, op.action, blue);
    }
  }

  /** The titles with this one, if it is there, in this name and free. */
  function Handed(titles: map<Hash, Deed>, title: Option<Hash>, owner: string): map<Hash, Deed> {
    if title.Some? && title.value in titles then titles[title.value := Deed(owner, None)] else titles
  }

  /** Issued to the owner named, transferred to the recipient, pledged to the escrow, handed to
      the buyer on release, freed for whoever holds it on refund. */
  predicate TitlesMove(l: Ledger, action: RegistryAction, after: map<Hash, Deed>) {
    match action
    case IssueTitle(id, owner) => after == l.titles[id := Deed(owner, None)]
    case TransferTitle(id, to) => after == l.titles[id := Deed(to, None)]
    case OpenEscrow(id, _, seller, _, title, _) =>
      after == if title.Some? then l.titles[title.value := Deed(seller, Some(id))] else l.titles
    case FundEscrow(_, _) => after == l.titles
    case ReleaseEscrow(id) =>
      id in l.escrows && after == Handed(l.titles, l.escrows[id].title, l.escrows[id].buyer)
    case RefundEscrow(id) => id in l.escrows && after == Freed(l, l.escrows[id].title)
    case TimeoutClaimEscrow(id) => id in l.escrows && after == Freed(l, l.escrows[id].title)
  }

  lemma {:induction false} ActTitles(l: Ledger, signer: string, action: RegistryAction, blue: nat)
    requires Act(l, signer, action, blue).ok
    ensures TitlesMove(l, action, Act(l, signer, action, blue).ledger.titles)
  {
    match action
    case RefundEscrow(id) => RefundFrees(l, id);
    case TimeoutClaimEscrow(id) => RefundFrees(l, id);
    case _ =>
  }

  lemma {:induction false} RefundFrees(l: Ledger, id: Hash)
    requires id in l.escrows
    ensures Refund(l, id).titles == Freed(l, l.escrows[id].title)
  {
  }

  lemma {:induction false} RefundCloses(l: Ledger, id: Hash)
    requires id in l.escrows
    ensures Refund(l, id).escrows == l.escrows[id := l.escrows[id].(funded := 0, status := Refunded)]
  {
    var e := l.escrows[id];
    assert e.funded == 0 ==> e.(status := Refunded) == e.(funded := 0, status := Refunded);
  }

  /** The titles after a success. */
  lemma {:induction false} TitlesAfter(l: Ledger, op: RegistryOp, blue: nat)
    requires ApplyRegistryOp(l, op, blue).ok
    ensures TitlesMove(l, op.action, ApplyRegistryOp(l, op, blue).ledger.titles)
  {
    ActTitles(Advanced(l, op.signer), op.signer, op.action, blue);
  }

  function Freed(l: Ledger, title: Option<Hash>): map<Hash, Deed> {
    if title.Some? && title.value in l.titles
    then l.titles[title.value := Deed(l.titles[title.value].owner, None)]
    else l.titles
  }

  /** Opened as written, funded by the amount, or closed and empty. */
  predicate EscrowsMove(l: Ledger, action: RegistryAction, after: map<Hash, Escrow>) {
    match action
    case IssueTitle(_, _) => after == l.escrows
    case TransferTitle(_, _) => after == l.escrows
    case OpenEscrow(id, buyer, seller, amount, title, timeoutBlue) =>
      after == l.escrows[id := Escrow(buyer, seller, amount, 0, Open, title, timeoutBlue)]
    case FundEscrow(id, amount) =>
      && id in l.escrows
      && var e := l.escrows[id];
         after == l.escrows[id := e.(funded := e.funded + amount,
                                     status := if e.status == Funded || e.funded + amount >= e.amount
                                               then Funded else Open)]
    case ReleaseEscrow(id) =>
      id in l.escrows && after == l.escrows[id := l.escrows[id].(funded := 0, status := Released)]
    case RefundEscrow(id) =>
      id in l.escrows && after == l.escrows[id := l.escrows[id].(funded := 0, status := Refunded)]
    case TimeoutClaimEscrow(id) =>
      id in l.escrows && after == l.escrows[id := l.escrows[id].(funded := 0, status := Refunded)]
  }

  lemma {:induction false} ActEscrows(l: Ledger, signer: string, action: RegistryAction, blue: nat)
    requires Act(l, signer, action, blue).ok
    ensures EscrowsMove(l, action, Act(l, signer, action, blue).ledger.escrows)
  {
    match action
    case RefundEscrow(id) => RefundCloses(l, id);
    case TimeoutClaimEscrow(id) => RefundCloses(l, id);
    case _ =>
  }

  /** The escrows after a success. */
  lemma {:induction false} EscrowsAfter(l: Ledger, op: RegistryOp, blue: nat)
    requires ApplyRegistryOp(l, op, blue).ok
    ensures EscrowsMove(l, op.action, ApplyRegistryOp(l, op, blue).ledger.escrows)
  {
    ActEscrows(Advanced(l, op.signer), op.signer, op.action, blue);
  }

  /** What a success adds to one balance, and what it takes. */
  function Gains(l: Ledger, action: RegistryAction, addr: string): nat {
    match action
    case ReleaseEscrow(id) => if id in l.escrows && l.escrows[id].seller == addr then l.escrows[id].funded else 0
    case RefundEscrow(id) => if id in l.escrows && l.escrows[id].buyer == addr then l.escrows[id].funded else 0
    case TimeoutClaimEscrow(id) => if id in l.escrows && l.escrows[id].buyer == addr then l.escrows[id].funded else 0
    case _ => 0
  }

  function Deposits(signer: string, action: RegistryAction, addr: string): nat {
    if action.FundEscrow? && signer == addr then action.amount else 0
  }

  lemma {:induction false} ActMoves(l: Ledger, signer: string, action: RegistryAction, blue: nat, addr: string)
    requires Act(l, signer, action, blue).ok
    ensures Balance(Act(l, signer, action, blue).ledger, addr) + Deposits(signer, action, addr)
            == Balance(l, addr) + Gains(l, action, addr)
  {
    match action
    case ReleaseEscrow(id) => PayOutBalances(l, id, l.escrows[id].seller, Released, addr);
    case RefundEscrow(id) => RefundBalances(l, id, addr);
    case TimeoutClaimEscrow(id) => RefundBalances(l, id, addr);
    case _ =>
  }

  /** The balances after a success: the funder pays the amount, the seller of a released escrow
      and the buyer of a refunded one get all it held, and nobody else's balance moves. */
  lemma {:induction false} BalancesAfter(l: Ledger, op: RegistryOp, blue: nat, addr: string)
    requires ApplyRegistryOp(l, op, blue).ok
    ensures Balance(ApplyRegistryOp(l, op, blue).ledger, addr) + Deposits(op.signer, op.action, addr)
            == Balance(l, addr) + Gains(l, op.action, addr)
  {
    ActMoves(Advanced(l, op.signer), op.signer, op.action, blue, addr);
  }

  // ----- Custody operations that succeed -----

  /** Locking takes the amount out of the balance into the stake, unlocking the other way; a
      custody operation succeeds exactly when it is well formed, moves something, carries the
      owner's next nonce and there is enough to move. The bridge operations never do. */
  lemma {:induction false} CustodyExactly(l: Ledger, op: CustodyOp)
    ensures ApplyCustodyOp(l, op).ok <==>
            && op.wellFormed && op.amount > 0 && op.nonce == AccountAt(l, op.owner).nonce
            && ((op.kind == StakeLock && Balance(l, op.owner) >= op.amount)
                || (op.kind == StakeUnlock && StakedAt(l, op.owner) >= op.amount))
    ensures ApplyCustodyOp(l, op).ok && op.kind == StakeLock ==>
              && Balance(ApplyCustodyOp(l, op).ledger, op.owner) + op.amount == Balance(l, op.owner)
              && StakedAt(ApplyCustodyOp(l, op).ledger, op.owner) == StakedAt(l, op.owner) + op.amount
    ensures ApplyCustodyOp(l, op).ok && op.kind == StakeUnlock ==>
              && Balance(ApplyCustodyOp(l, op).ledger, op.owner) == Balance(l, op.owner) + op.amount
              && StakedAt(ApplyCustodyOp(l, op).ledger, op.owner) + op.amount == StakedAt(l, op.owner)
    ensures !ApplyCustodyOp(l, op).ok ==> ApplyCustodyOp(l, op).ledger == l
  {
  }

  /** A body acts as three: its transactions first, then its registry operations, then its
      custody operations. */
  lemma {:induction false} BodyInOrder(rules: Rules, l: Ledger, body: Body, blue: nat)
    ensures var first := ReplayBody(rules, l, Body(body.utxoTxs, [], []), blue);
            var second := ReplayBody(rules, first.ledger, Body([], body.registryOps, []), blue);
            var third := ReplayBody(rules, second.ledger, Body([], [], body.custodyOps), blue);
            ReplayBody(rules, l, body, blue) == Sum(third.ledger, first.fees)
  {
  }

  // ----- Admission -----

  /** Each transaction is for this chain and applies where it comes. */
  ghost predicate TxsApply(rules: Rules, l: Ledger, txs: seq<UtxoTx>, blue: nat) {
    forall i {:trigger txs[i]} :: 0 <= i < |txs| ==>
      txs[i].chainId == rules.chainId && !FailsSome(rules, ReplayUtxoTxs(rules, l, txs[..i], blue).ledger, txs[i], blue)
  }

  /** The operation at `i` succeeds where it comes. */
  ghost predicate OpSucceeds(l: Ledger, ops: seq<RegistryOp>, i: nat, blue: nat)
    requires i < |ops|
  {
    ApplyRegistryOp(ReplayRegistryOps(l, ops[..i], blue), ops[i], blue).ok
  }

  ghost predicate RegistryApplies(l: Ledger, ops: seq<RegistryOp>, blue: nat) {
    forall i: nat :: i < |ops| ==> OpSucceeds(l, ops, i, blue)
  }

  ghost predicate MoveSucceeds(l: Ledger, ops: seq<CustodyOp>, i: nat)
    requires i < |ops|
  {
    ApplyCustodyOp(ReplayCustodyOps(l, ops[..i]), ops[i]).ok
  }

  ghost predicate CustodyApplies(l: Ledger, ops: seq<CustodyOp>) {
    forall i: nat :: i < |ops| ==> MoveSucceeds(l, ops, i)
  }

  lemma {:induction false} TxsApplyStep(rules: Rules, l: Ledger, txs: seq<UtxoTx>, blue: nat)
    requires txs != []
    ensures TxsApply(rules, l, txs, blue) <==>
            var k := |txs| - 1;
            && TxsApply(rules, l, txs[..k], blue) && txs[k].chainId == rules.chainId
            && !FailsSome(rules, ReplayUtxoTxs(rules, l, txs[..k], blue).ledger, txs[k], blue)
  {
    var k := |txs| - 1;
    assert forall i :: 0 <= i < k ==> txs[..k][..i] == txs[..i] && txs[..k][i] == txs[i];
  }

  lemma {:induction false} TxsAdmitted(rules: Rules, l: Ledger, txs: seq<UtxoTx>, blue: nat)
    ensures AdmitUtxoTxs(rules, l, txs, blue).Some? <==> TxsApply(rules, l, txs, blue)
  {
    if txs != [] {
      var k := |txs| - 1;
      TxsAdmitted(rules, l, txs[..k], blue);
      TxsApplyStep(rules, l, txs, blue);
      if AdmitUtxoTxs(rules, l, txs[..k], blue).Some? {
        AdmittedUtxoTxs(rules, l, txs[..k], blue);
        AppliesExactly(rules, ReplayUtxoTxs(rules, l, txs[..k], blue).ledger, txs[k], blue);
      }
    }
  }

  lemma {:induction false} OpEarlier(l: Ledger, ops: seq<RegistryOp>, k: nat, i: nat, blue: nat)
    requires i < k <= |ops|
    ensures OpSucceeds(l, ops[..k], i, blue) <==> OpSucceeds(l, ops, i, blue)
  {
    assert ops[..k][..i] == ops[..i];
  }

  lemma {:induction false} MoveEarlier(l: Ledger, ops: seq<CustodyOp>, k: nat, i: nat)
    requires i < k <= |ops|
    ensures MoveSucceeds(l, ops[..k], i) <==> MoveSucceeds(l, ops, i)
  {
    assert ops[..k][..i] == ops[..i];
  }

  lemma {:induction false} RegistryStep(l: Ledger, ops: seq<RegistryOp>, blue: nat)
    requires ops != []
    ensures RegistryApplies(l, ops, blue) <==>
            RegistryApplies(l, ops[..|ops| - 1], blue) && OpSucceeds(l, ops, |ops| - 1, blue)
  {
    var k := |ops| - 1;
    forall i: nat | i < k
      ensures OpSucceeds(l, ops[..k], i, blue) <==> OpSucceeds(l, ops, i, blue)
    {
      OpEarlier(l, ops, k, i, blue);
    }
  }

  lemma {:induction false} CustodyStep(l: Ledger, ops: seq<CustodyOp>)
    requires ops != []
    ensures CustodyApplies(l, ops) <==> CustodyApplies(l, ops[..|ops| - 1]) && MoveSucceeds(l, ops, |ops| - 1)
  {
    var k := |ops| - 1;
    forall i: nat | i < k
      ensures MoveSucceeds(l, ops[..k], i) <==> MoveSucceeds(l, ops, i)
    {
      MoveEarlier(l, ops, k, i);
    }
  }

  lemma {:induction false} RegistryAdmitted(l: Ledger, ops: seq<RegistryOp>, blue: nat)
    ensures AdmitRegistryOps(l, ops, blue).Some? <==> RegistryApplies(l, ops, blue)
  {
    if ops != [] {
      var k := |ops| - 1;
      RegistryAdmitted(l, ops[..k], blue);
      RegistryStep(l, ops, blue);
      if AdmitRegistryOps(l, ops[..k], blue).Some? {
        AdmittedRegistryOps(l, ops[..k], blue);
      }
    }
  }

  lemma {:induction false} CustodyAdmitted(l: Ledger, ops: seq<CustodyOp>)
    ensures AdmitCustodyOps(l, ops).Some? <==> CustodyApplies(l, ops)
  {
    if ops != [] {
      var k := |ops| - 1;
      CustodyAdmitted(l, ops[..k]);
      CustodyStep(l, ops);
      if AdmitCustodyOps(l, ops[..k]).Some? {
        AdmittedCustodyOps(l, ops[..k]);
      }
    }
  }

  /** A block is admitted on a ledger exactly when replaying it there skips nothing: every
      transaction is for this chain and fails no check, and every operation succeeds. */
  lemma {:induction false} AdmittedExactly(rules: Rules, l: Ledger, block: Block, blue: nat)
    ensures var body := block.body;
            var utxo := ReplayUtxoTxs(rules, l, body.utxoTxs, blue).ledger;
            Admit(rules, l, block, blue).Some? <==>
            && TxsApply(rules, l, body.utxoTxs, blue) && RegistryApplies(utxo, body.registryOps, blue)
            && CustodyApplies(ReplayRegistryOps(utxo, body.registryOps, blue), body.custodyOps)
  {
    var body := block.body;
    var utxo := ReplayUtxoTxs(rules, l, body.utxoTxs, blue).ledger;
    TxsAdmitted(rules, l, body.utxoTxs, blue);
    RegistryAdmitted(utxo, body.registryOps, blue);
    CustodyAdmitted(ReplayRegistryOps(utxo, body.registryOps, blue), body.custodyOps);
    if AdmitUtxoTxs(rules, l, body.utxoTxs, blue).Some? {
      AdmittedUtxoTxs(rules, l, body.utxoTxs, blue);
      if AdmitRegistryOps(utxo, body.registryOps, blue).Some? {
        AdmittedRegistryOps(utxo, body.registryOps, blue);
      }
    }
  }
}
