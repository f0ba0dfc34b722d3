/** The records that blocks carry. Values the node derives by hashing or by checking a
    signature (`txHash`, `sighash`, `signed`, ...) are plain fields here: every theorem holds
    for all of their values. */
module Types {

  /** A 512-bit digest. Digests are compared byte by byte from the most significant one, so
      the natural number they spell in base 256 is ordered the same way. */
  type Hash = nat

  const U64_MAX: nat := 0xffff_ffff_ffff_ffff

  datatype Option<+T> = None | Some(value: T)

  /** Presented by the proofs that unfold a predicate kept folded elsewhere. */
  datatype Key = Key

  /** Spending conditions of an output (src/predicate.rs). */
  datatype Predicate =
    | PayToAddress(address: string)
    | HashLock(hash: Hash)
    | AbsoluteLock(address: string, unlockBlue: nat)
    | RelativeLock(address: string, relativeBlues: nat)
    | And(left: Predicate, right: Predicate)
    | Or(left: Predicate, right: Predicate)
    | MultiSig(n: nat, addresses: seq<string>)
    | CreditAccount(address: string)
    | AnnulAfter(address: string, expireBlue: nat)
    | ExactValue(value: nat, inner: Predicate)
    | CommitData(commit: Hash)

  datatype UnlockWitness =
    | Signature
    | Preimage(bytes: seq<nat>)
    | Stack(items: seq<UnlockWitness>)
    | CosignerAddress(address: string)
    | CosignerSig(pubkey: seq<nat>, signature: seq<nat>)

  datatype OutPoint = OutPoint(txid: Hash, vout: nat)

  datatype TxOut = TxOut(value: nat, lock: Predicate, createdBlue: nat)

  datatype TxIn = TxIn(previous: OutPoint, relativeLockBlues: nat, unlock: UnlockWitness)

  /** `formOk` is the outcome of the stateless form and signature checks other than those on
      the inputs and the minimum fee; `signer` is the address of the signing key. */
  datatype UtxoTx = UtxoTx(
    inputs: seq<TxIn>, outputs: seq<TxOut>, lockBlueScore: nat, fee: nat, chainId: nat,
    signer: string, sighash: seq<nat>, formOk: bool, txHash: Hash, txid: Hash, relayBytes: nat)

  datatype RegistryAction =
    | IssueTitle(titleId: Hash, owner: string)
    | TransferTitle(titleId: Hash, to: string)
    | OpenEscrow(escrowId: Hash, buyer: string, seller: string, amount: nat, title: Option<Hash>, timeoutBlue: nat)
    | FundEscrow(escrowId: Hash, amount: nat)
    | ReleaseEscrow(escrowId: Hash)
    | RefundEscrow(escrowId: Hash)
    | TimeoutClaimEscrow(escrowId: Hash)

  datatype RegistryOp = RegistryOp(signer: string, signed: bool, nonce: nat, action: RegistryAction)

  datatype CustodyKind = StakeLock | StakeUnlock | BridgeExit | BridgeEnter

  /** `wellFormed` is the outcome of the chain-id, address and signature checks. */
  datatype CustodyOp = CustodyOp(kind: CustodyKind, owner: string, amount: nat, nonce: nat, wellFormed: bool)

  datatype Body = Body(utxoTxs: seq<UtxoTx>, registryOps: seq<RegistryOp>, custodyOps: seq<CustodyOp>)

  datatype Block = Block(
    parents: seq<Hash>, timestamp: nat, difficulty: nat, stateRoot: Hash,
    miner: string, coinbaseTxid: Hash, body: Body)

  // ----- The value state -----

  datatype Account = Account(balance: nat, nonce: nat)

  datatype EscrowStatus = Open | Funded | Released | Refunded

  datatype Escrow = Escrow(
    buyer: string, seller: string, amount: nat, funded: nat, status: EscrowStatus,
    title: Option<Hash>, timeoutBlue: nat)

  datatype Deed = Deed(owner: string, escrow: Option<Hash>)

  datatype Ledger = Ledger(
    accounts: map<string, Account>, staked: map<string, nat>,
    utxo: map<OutPoint, TxOut>, spent: set<OutPoint>,
    titles: map<Hash, Deed>, escrows: map<Hash, Escrow>,
    minted: nat, feesBurned: nat)
}
