/** What transactions, registry operations and custody operations do to the ledger
    (src/utxo.rs, src/utxo_tx.rs, src/registry.rs, src/lib.rs). */
module LedgerSteps {
  import opened Types
  import opened Spending

  const U32_MAX: nat := 0xffff_ffff
  const COINBASE_MATURITY_BLUES: nat := 100
  const MIN_TX_FEE: nat := 1000
  const MIN_FEE_PER_BYTE: nat := 1

  /** The node's settings and the cryptography the ledger rules rest on. */
  datatype Rules = Rules(
    chainId: nat,
    labEasy: bool,
    same: (string, string) -> bool,
    addressOf: seq<nat> -> string,
    verifies: (seq<nat>, seq<nat>, seq<nat>) -> bool,
    digest: seq<nat> -> Hash)

  /** The outcome of one operation: the ledger it leaves, whether it succeeded, and the fee it
      pays. A failed operation need not leave the ledger untouched. */
  datatype Step = Step(ledger: Ledger, ok: bool, fee: nat)

  function SaturatingAdd(x: nat, y: nat): nat {
    if x + y > U64_MAX then U64_MAX else x + y
  }

  // ----- UTXO set -----

  function Insert(l: Ledger, op: OutPoint, out: TxOut): Ledger {
    l.(utxo := l.utxo[op := out], spent := l.spent - {op})
  }

  /** Spend an output; fails if it is missing or already spent. */
  function Spend(l: Ledger, op: OutPoint): Option<Ledger> {
    if op in l.spent || op !in l.utxo then None
    else Some(l.(utxo := l.utxo - {op}, spent := l.spent + {op}))
  }

  // ----- UTXO transactions -----

  predicate IsAccountCredit(p: Predicate) {
    match p
    case CreditAccount(_) => true
    case And(left, right) => IsAccountCredit(left) || IsAccountCredit(right)
    case Or(left, right) => IsAccountCredit(left) || IsAccountCredit(right)
    case ExactValue(_, inner) => IsAccountCredit(inner)
    case _ => false
  }

  function LockedAddress(p: Predicate): Option<string> {
    match p
    case PayToAddress(address) => Some(address)
    case AbsoluteLock(address, _) => Some(address)
    case RelativeLock(address, _) => Some(address)
    case AnnulAfter(address, _) => Some(address)
    case CreditAccount(address) => Some(address)
    case And(left, _) => LockedAddress(left)
    case Or(left, _) => LockedAddress(left)
    case ExactValue(_, inner) => LockedAddress(inner)
    case _ => None
  }

  /** Every exact-value covenant in the predicate binds this value. */
  predicate ExactValueBinds(p: Predicate, value: nat) {
    match p
    case ExactValue(bound, inner) => bound == value && ExactValueBinds(inner, value)
    case And(left, right) => ExactValueBinds(left, value) && ExactValueBinds(right, value)
    case Or(left, right) => ExactValueBinds(left, value) && ExactValueBinds(right, value)
    case _ => true
  }

  predicate DistinctInputs(inputs: seq<TxIn>) {
    forall i, j :: 0 <= i < j < |inputs| ==> inputs[i].previous != inputs[j].previous
  }

  predicate FormOk(tx: UtxoTx) {
    && tx.formOk && tx.inputs != [] && DistinctInputs(tx.inputs)
    && tx.fee >= MIN_TX_FEE && tx.fee >= tx.relayBytes * MIN_FEE_PER_BYTE
  }

  /** The input exists, is mature, its locks have run out and its predicate unlocks. */
  predicate InputOk(rules: Rules, l: Ledger, tx: UtxoTx, input: TxIn, blue: nat) {
    && input.previous in l.utxo
    && var out := l.utxo[input.previous];
    && (input.previous.vout == U32_MAX ==> blue >= SaturatingAdd(out.createdBlue, COINBASE_MATURITY_BLUES))
    && (input.relativeLockBlues > 0 ==> blue >= SaturatingAdd(out.createdBlue, input.relativeLockBlues))
    && Unlocks(Context(rules.same, rules.addressOf, rules.verifies, rules.digest,
                       tx.signer, blue, out.createdBlue, Some(tx.sighash)),
               out.lock, input.unlock)
    && ExactValueBinds(out.lock, out.value)
  }

  function InputSum(l: Ledger, inputs: seq<TxIn>): nat
    requires forall x :: x in inputs ==> x.previous in l.utxo
  {
    if inputs == [] then 0 else InputSum(l, inputs[..|inputs| - 1]) + l.utxo[inputs[|inputs| - 1].previous].value
  }

  function OutputSum(outputs: seq<TxOut>): nat {
    if outputs == [] then 0 else OutputSum(outputs[..|outputs| - 1]) + outputs[|outputs| - 1].value
  }

  /** All checks that precede any change. */
  predicate Spendable(rules: Rules, l: Ledger, tx: UtxoTx, blue: nat) {
    && FormOk(tx) && (tx.lockBlueScore > 0 ==> blue >= tx.lockBlueScore)
    && (forall x :: x in tx.inputs ==> InputOk(rules, l, tx, x, blue))
    && InputSum(l, tx.inputs) == OutputSum(tx.outputs) + tx.fee
  }

  /** Spend the inputs in turn; a failure keeps what was spent before it. */
  function SpendAll(l: Ledger, inputs: seq<TxIn>): Step {
    if inputs == [] then Step(l, true, 0)
    else
      var before := SpendAll(l, inputs[..|inputs| - 1]);
      if !before.ok then before
      else
        var after := Spend(before.ledger, inputs[|inputs| - 1].previous);
        if after.None? then Step(before.ledger, false, 0) else Step(after.value, true, 0)
  }

  function CreditTo(l: Ledger, addr: string, amount: nat): Ledger {
    var a := if addr in l.accounts then l.accounts[addr] else Account(0, 0);
    l.(accounts := l.accounts[addr := a.(balance := a.balance + amount)])
  }

  /** Create one output: an account credit, which needs an address, or a UTXO entry. */
  function Create(l: Ledger, tx: UtxoTx, i: nat, blue: nat): Option<Ledger>
    requires i < |tx.outputs|
  {
    var out := tx.outputs[i];
    if !IsAccountCredit(out.lock) then Some(Insert(l, OutPoint(tx.txHash, i), out.(createdBlue := blue)))
    else if LockedAddress(out.lock).Some? then Some(CreditTo(l, LockedAddress(out.lock).value, out.value))
    else None
  }

  /** Create the first `n` outputs; a failure keeps what was created before it. */
  function CreateAll(l: Ledger, tx: UtxoTx, n: nat, blue: nat): Step
    requires n <= |tx.outputs|
  {
    if n == 0 then Step(l, true, tx.fee)
    else
      var before := CreateAll(l, tx, n - 1, blue);
      if !before.ok then before
      else
        var after := Create(before.ledger, tx, n - 1, blue);
        if after.None? then Step(before.ledger, false, 0) else Step(after.value, true, tx.fee)
  }

  function ApplyUtxoTx(rules: Rules, l: Ledger, tx: UtxoTx, blue: nat): Step {
    if !Spendable(rules, l, tx, blue) then Step(l, false, 0)
    else
      var spent := SpendAll(l, tx.inputs);
      if !spent.ok then spent else CreateAll(spent.ledger, tx, |tx.outputs|, blue)
  }

  /** No output is an account credit without an address. */
  predicate Creditable(tx: UtxoTx) {
    forall i :: 0 <= i < |tx.outputs| && IsAccountCredit(tx.outputs[i].lock) ==> LockedAddress(tx.outputs[i].lock).Some?
  }

  // ----- Registry operations -----

  function AccountAt(l: Ledger, addr: string): Account {
    if addr in l.accounts then l.accounts[addr] else Account(0, 0)
  }

  function Failed(l: Ledger): Step { Step(l, false, 0) }

  function Done(l: Ledger): Step { Step(l, true, 0) }

  function FreeTitle(l: Ledger, title: Option<Hash>): Ledger {
    if title.Some? && title.value in l.titles
    then l.(titles := l.titles[title.value := l.titles[title.value].(escrow := None)])
    else l
  }

  function HandTitle(l: Ledger, title: Option<Hash>, owner: string): Ledger {
    if title.Some? && title.value in l.titles then l.(titles := l.titles[title.value := Deed(owner, None)]) else l
  }

  /** Close an escrow and pay what it holds to `to`. */
  function PayOut(l: Ledger, id: Hash, to: string, status: EscrowStatus): Ledger
    requires id in l.escrows
  {
    var esc := l.escrows[id];
    CreditTo(l.(escrows := l.escrows[id := esc.(funded := 0, status := status)]), to, esc.funded)
  }

  /** A refund of nothing does not touch the buyer's account. */
  function Refund(l: Ledger, id: Hash): Ledger
    requires id in l.escrows
  {
    var esc := l.escrows[id];
    FreeTitle(if esc.funded > 0 then PayOut(l, id, esc.buyer, Refunded)
              else l.(escrows := l.escrows[id := esc.(status := Refunded)]), esc.title)
  }

  /** The action itself, after the nonce has been advanced. */
  function Act(l: Ledger, signer: string, action: RegistryAction, blue: nat): Step {
    match action
    case IssueTitle(id, owner) =>
      if id in l.titles then Failed(l) else Done(l.(titles := l.titles[id := Deed(owner, None)]))
    case TransferTitle(id, to) =>
      if id !in l.titles || l.titles[id].owner != signer || l.titles[id].escrow.Some? then Failed(l)
      else Done(l.(titles := l.titles[id := l.titles[id].(owner := to)]))
    case OpenEscrow(id, buyer, seller, amount, title, timeoutBlue) =>
      if amount == 0 then Failed(l)
      else if title.Some? && (title.value !in l.titles || l.titles[title.value].owner != seller
                              || l.titles[title.value].escrow.Some?)
      then Failed(l)
      else if id in l.escrows then Failed(l)
      else
        var locked := if title.Some? && title.value in l.titles
                      then l.(titles := l.titles[title.value := l.titles[title.value].(escrow := Some(id))]) else l;
        Done(locked.(escrows := locked.escrows[id := Escrow(buyer, seller, amount, 0, Open, title, timeoutBlue)]))
    case FundEscrow(id, amount) =>
      if id !in l.escrows then Failed(l)
      else
        var esc := l.escrows[id];
        if signer != esc.buyer || (esc.status != Open && esc.status != Funded) then Failed(l)
        else if signer !in l.accounts || l.accounts[signer].balance < amount then Failed(l)
        else
          var a := l.accounts[signer];
          var funded := esc.funded + amount;
          Done(l.(accounts := l.accounts[signer := a.(balance := a.balance - amount)],
                  escrows := l.escrows[id := esc.(funded := funded,
                                                  status := if funded >= esc.amount then Funded else esc.status)]))
    case ReleaseEscrow(id) =>
      if id !in l.escrows || signer != l.escrows[id].buyer || l.escrows[id].status != Funded then Failed(l)
      else
        var esc := l.escrows[id];
        Done(HandTitle(PayOut(l, id, esc.seller, Released), esc.title, esc.buyer))
    case RefundEscrow(id) =>
      if id !in l.escrows then Failed(l)
      else
        var esc := l.escrows[id];
        if (esc.status == Open && signer == esc.buyer) || (esc.status == Funded && signer == esc.seller)
        then Done(Refund(l, id))
        else Failed(l)
    case TimeoutClaimEscrow(id) =>
      if id !in l.escrows then Failed(l)
      else
        var esc := l.escrows[id];
        if signer != esc.buyer || esc.status != Funded || esc.timeoutBlue == 0 || blue < esc.timeoutBlue
        then Failed(l)
        else Done(Refund(l, id))
  }

  /** Check the signature, open the signer's account, check and advance its nonce, then act;
      the nonce stays advanced even if the action fails. */
  function ApplyRegistryOp(l: Ledger, op: RegistryOp, blue: nat): Step {
    if !op.signed then Failed(l)
    else
      var a := AccountAt(l, op.signer);
      if op.nonce != a.nonce then Failed(l.(accounts := l.accounts[op.signer := a]))
      else Act(l.(accounts := l.accounts[op.signer := a.(nonce := SaturatingAdd(a.nonce, 1))]),
               op.signer, op.action, blue)
  }

  // ----- Custody operations -----

  function StakedAt(l: Ledger, addr: string): nat {
    if addr in l.staked then l.staked[addr] else 0
  }

  /** Lock or unlock stake; the bridge operations are disabled. */
  function ApplyCustodyOp(l: Ledger, op: CustodyOp): Step {
    var a, locked := AccountAt(l, op.owner), StakedAt(l, op.owner);
    if !op.wellFormed || op.amount == 0 || op.nonce != a.nonce then Failed(l)
    else match op.kind
      case StakeLock =>
        if a.balance < op.amount then Failed(l)
        else Done(l.(accounts := l.accounts[op.owner := Account(a.balance - op.amount, SaturatingAdd(a.nonce, 1))],
                     staked := l.staked[op.owner := locked + op.amount]))
      case StakeUnlock =>
        if locked < op.amount then Failed(l)
        else Done(l.(accounts := l.accounts[op.owner := Account(a.balance + op.amount, SaturatingAdd(a.nonce, 1))],
                     staked := l.staked[op.owner := locked - op.amount]))
      case BridgeExit => Failed(l)
      case BridgeEnter => Failed(l)
  }
}
