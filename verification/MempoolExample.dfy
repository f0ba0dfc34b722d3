/** A run in which a refused replacement takes a queued transaction with it. Every offer meets
    one and the same ledger, and every transaction pays for its bytes and has an output. */
module MempoolExample {
  import opened Types
  import opened LedgerSteps
  import opened Mempool
  import opened MempoolAdmission

  const RULES: Rules := Rules(1, false, (a: string, b: string) => a == b, (key: seq<nat>) => "",
                              (m: seq<nat>, k: seq<nat>, s: seq<nat>) => true, (bytes: seq<nat>) => 0)

  const FILLERS: nat := 64
  const FILLER_BYTES: nat := 524_163
  const FILLER_FEE: nat := 3 * FILLER_BYTES

  // ----- The transactions and the ledger -----

  /** A payment of one output to its owner. */
  function Payment(owner: string, id: Hash, source: Hash, value: nat, fee: nat, bytes: nat): UtxoTx {
    UtxoTx([TxIn(OutPoint(source, 0), 0, Signature)], [TxOut(value, PayToAddress(owner), 0)],
           0, fee, 1, owner, [], true, id, id, bytes)
  }

  /** The transaction to be replaced: 8000 in fees for 8000 bytes. */
  function Old(owner: string): UtxoTx { Payment(owner, 500, 1, 12_000, 8000, 8000) }

  /** Its replacement, from the same output: 17 000 in fees for 8001 bytes. */
  function New(owner: string): UtxoTx { Payment(owner, 600, 1, 3000, 17_000, 8001) }

  /** Others, with outputs of their own, that pay 3 per byte. */
  function Filler(owner: string, i: nat): UtxoTx { Payment(owner, 1000 + i, 10 + i, 1000, FILLER_FEE, FILLER_BYTES) }

  /** The outputs they all spend. */
  function Funds(owner: string): map<OutPoint, TxOut> {
    (map i: nat | 10 <= i < 10 + FILLERS :: OutPoint(i, 0) := TxOut(FILLER_FEE + 1000, PayToAddress(owner), 0))
    + map[OutPoint(1, 0) := TxOut(20_000, PayToAddress(owner), 0)]
  }

  function Confirmed(owner: string): Ledger {
    Ledger(map[], map[], Funds(owner), {}, map[], map[], 0, 0)
  }

  function Fillers(owner: string, n: nat): (q: Queue)
    ensures |q| == n && forall i :: 0 <= i < n ==> q[i] == Filler(owner, i)
  {
    if n == 0 then [] else Fillers(owner, n - 1) + [Filler(owner, n - 1)]
  }

  function Filled(owner: string, n: nat): (q: Queue)
    ensures |q| == n + 1 && q[0] == Old(owner) && forall i :: 1 <= i <= n ==> q[i] == Filler(owner, i - 1)
  {
    if n == 0 then [Old(owner)] else Filled(owner, n - 1) + [Filler(owner, n - 1)]
  }

  // ----- What a payment needs, and what others leave of it -----

  /** The output is there, unspent, and the owner's. */
  predicate Available(l: Ledger, owner: string, source: Hash, value: nat) {
    && OutPoint(source, 0) in l.utxo && OutPoint(source, 0) !in l.spent
    && l.utxo[OutPoint(source, 0)] == TxOut(value, PayToAddress(owner), 0)
  }

  lemma {:induction false} PaymentApplies(l: Ledger, owner: string, id: Hash, source: Hash, value: nat, fee: nat,
                                          bytes: nat)
    requires Available(l, owner, source, value + fee) && fee >= MIN_TX_FEE && fee >= bytes
    ensures ApplyUtxoTx(RULES, l, Payment(owner, id, source, value, fee, bytes), 0).ok
  {
    var tx := Payment(owner, id, source, value, fee, bytes);
    assert forall x :: x in tx.inputs ==> x == tx.inputs[0];
    assert InputOk(RULES, l, tx, tx.inputs[0], 0);
    assert tx.inputs[..0] == [] && tx.outputs[..0] == [];
    assert InputSum(l, tx.inputs) == value + fee && OutputSum(tx.outputs) == value;
    var spent := SpendAll(l, tx.inputs);
    assert SpendAll(l, tx.inputs[..0]) == Step(l, true, 0);
    assert spent.ok;
    assert CreateAll(spent.ledger, tx, 0, 0).ok;
  }

  /** Spends other outputs and makes outputs of another name. */
  predicate Elsewhere(tx: UtxoTx, source: Hash) {
    tx.txHash != source && forall x :: x in tx.inputs ==> x.previous != OutPoint(source, 0)
  }

  lemma {:induction false} SpendingElsewhere(l: Ledger, inputs: seq<TxIn>, owner: string, source: Hash, value: nat)
    requires Available(l, owner, source, value) && forall x :: x in inputs ==> x.previous != OutPoint(source, 0)
    ensures Available(SpendAll(l, inputs).ledger, owner, source, value)
  {
    if inputs != [] {
      SpendingElsewhere(l, inputs[..|inputs| - 1], owner, source, value);
      assert inputs[|inputs| - 1] in inputs;
    }
  }

  lemma {:induction false} CreatingElsewhere(l: Ledger, tx: UtxoTx, n: nat, owner: string, source: Hash, value: nat)
    requires n <= |tx.outputs| && Available(l, owner, source, value) && tx.txHash != source
    ensures Available(CreateAll(l, tx, n, 0).ledger, owner, source, value)
  {
    if n > 0 {
      CreatingElsewhere(l, tx, n - 1, owner, source, value);
    }
  }

  lemma {:induction false} ApplyingElsewhere(l: Ledger, tx: UtxoTx, owner: string, source: Hash, value: nat)
    requires Available(l, owner, source, value) && Elsewhere(tx, source)
    ensures Available(ApplyUtxoTx(RULES, l, tx, 0).ledger, owner, source, value)
  {
    SpendingElsewhere(l, tx.inputs, owner, source, value);
    CreatingElsewhere(SpendAll(l, tx.inputs).ledger, tx, |tx.outputs|, owner, source, value);
  }

  ghost predicate AllElsewhere(q: Queue, source: Hash) {
    forall tx :: tx in q ==> Elsewhere(tx, source)
  }

  lemma {:induction false} RoundElsewhere(l: Ledger, q: Queue, owner: string, source: Hash, value: nat)
    requires Available(l, owner, source, value) && AllElsewhere(q, source)
    ensures Available(Round(RULES, l, q, 0).ledger, owner, source, value)
    ensures AllElsewhere(Round(RULES, l, q, 0).left, source)
  {
    if q != [] {
      var k := |q| - 1;
      RoundElsewhere(l, q[..k], owner, source, value);
      assert q[k] in q;
      ApplyingElsewhere(Round(RULES, l, q[..k], 0).ledger, q[k], owner, source, value);
    }
  }

  lemma {:induction false} RoundsElsewhere(l: Ledger, q: Queue, rounds: nat, owner: string, source: Hash, value: nat)
    requires Available(l, owner, source, value) && AllElsewhere(q, source)
    ensures Available(Rounds(RULES, l, q, rounds, 0).ledger, owner, source, value)
    decreases rounds
  {
    if rounds > 0 {
      RoundElsewhere(l, q, owner, source, value);
      var p := Round(RULES, l, q, 0);
      if |p.left| != |q| {
        RoundsElsewhere(p.ledger, p.left, rounds - 1, owner, source, value);
      }
    }
  }

  /** Whatever else is queued, the payment applies on the preview. */
  lemma {:induction false} PreviewServes(q: Queue, owner: string, id: Hash, source: Hash, value: nat, fee: nat,
                                         bytes: nat)
    requires Available(Confirmed(owner), owner, source, value + fee) && AllElsewhere(q, source)
    requires fee >= MIN_TX_FEE && fee >= bytes
    ensures Applies(RULES, Confirmed(owner), 0, q, Payment(owner, id, source, value, fee, bytes))
  {
    RoundsElsewhere(Confirmed(owner), q, |q| + 1, owner, source, value + fee);
    PaymentApplies(Preview(RULES, Confirmed(owner), q, 0), owner, id, source, value, fee, bytes);
  }

  // ----- Packages of one -----

  /** Nothing queued is spent by the transaction. */
  ghost predicate Parentless(q: Queue, tx: UtxoTx) {
    forall j :: 0 <= j < |q| ==> !SpendsFrom(tx, q[j])
  }

  lemma {:induction false} NoParents(q: Queue, tx: UtxoTx, skip: set<nat>, n: nat)
    requires Parentless(q, tx) && n <= |q|
    ensures DirectParents(q, tx, skip, n) == []
  {
    if n > 0 {
      NoParents(q, tx, skip, n - 1);
    }
  }

  lemma {:induction false} LonePackage(q: Queue, tx: UtxoTx, skip: set<nat>)
    requires Parentless(q, tx)
    ensures IncomingPackage(q, tx, skip) == [] && IncomingRate(q, tx, skip) == PerByte(tx.fee, tx.relayBytes)
  {
    NoParents(q, tx, skip, |q|);
  }

  lemma {:induction false} LoneScore(q: Queue, i: nat)
    requires i < |q| && Parentless(q, q[i])
    ensures ScoreOf(q, i) == Score(q[i].fee, PerByte(q[i].fee, PricedBytes(q[i])))
  {
    NoParents(q, q[i], {}, |q|);
    SingleNoRepeat(i);
    var one := [i];
    assert Visit(q, one, 0, {}) == one;
    PackageStep(q, one, 0, {});
    assert PackageOf(q, i) == one;
    assert one[..0] == [] && Fees(q, one) == q[i].fee && BytesPriced(q, one) == PricedBytes(q[i]);
  }

  /** An offer that meets nothing queued and fits is queued. */
  lemma {:induction false} PlainOffer(l: Ledger, q: Queue, tx: UtxoTx)
    requires ConflictFree(q, tx) && Parentless(q, tx) && NotQueued(q, tx) && FormOk(tx) && tx.chainId == RULES.chainId
    requires Applies(RULES, l, 0, q, tx) && tx.relayBytes <= MAX_UTXO_PACKAGE_BYTES
    requires Bytes(q) + tx.relayBytes <= MAX_MEMPOOL_BYTES && |q| < MAX_MEMPOOL_SIZE
    ensures Offered(RULES, l, 0, q, tx) == Outcome(q + [tx], true)
  {
    NoConflicts(q, tx);
    KeepAll(q);
    LonePackage(q, tx, {});
    assert Assessed(RULES, l, 0, q, tx, {});
  }

  lemma {:induction false} PaymentOffer(q: Queue, owner: string, id: Hash, source: Hash, value: nat, fee: nat,
                                        bytes: nat)
    requires Available(Confirmed(owner), owner, source, value + fee) && AllElsewhere(q, source)
    requires fee >= MIN_TX_FEE && bytes <= fee && bytes <= MAX_UTXO_PACKAGE_BYTES
    requires Bytes(q) + bytes <= MAX_MEMPOOL_BYTES && |q| < MAX_MEMPOOL_SIZE
    requires var tx := Payment(owner, id, source, value, fee, bytes);
             ConflictFree(q, tx) && Parentless(q, tx) && NotQueued(q, tx)
    ensures var tx := Payment(owner, id, source, value, fee, bytes);
            Offered(RULES, Confirmed(owner), 0, q, tx) == Outcome(q + [tx], true)
  {
    PreviewServes(q, owner, id, source, value, fee, bytes);
    PlainOffer(Confirmed(owner), q, Payment(owner, id, source, value, fee, bytes));
  }

  // ----- The queue fills up -----

  lemma {:induction false} FilledBytes(owner: string, n: nat)
    ensures Bytes(Filled(owner, n)) == 8000 + n * FILLER_BYTES && Bytes(Fillers(owner, n)) == n * FILLER_BYTES
  {
    if n == 0 {
      assert Filled(owner, 0)[..0] == [];
    } else {
      FilledBytes(owner, n - 1);
      assert Filled(owner, n)[..n] == Filled(owner, n - 1) && Fillers(owner, n)[..n - 1] == Fillers(owner, n - 1);
    }
  }

  lemma {:induction false} FilledWithoutOld(owner: string, n: nat)
    ensures Kept(Filled(owner, n), {0}) == Fillers(owner, n)
  {
    if n == 0 {
      assert Filled(owner, 0)[..0] == [];
    } else {
      FilledWithoutOld(owner, n - 1);
      assert Filled(owner, n)[..n] == Filled(owner, n - 1);
    }
  }

  lemma {:induction false} FillersAreStrangers(owner: string, n: nat, m: nat)
    requires n <= m < FILLERS
    ensures ConflictFree(Filled(owner, n), Filler(owner, m)) && Parentless(Filled(owner, n), Filler(owner, m))
    ensures NotQueued(Filled(owner, n), Filler(owner, m)) && AllElsewhere(Filled(owner, n), 10 + m)
  {
  }

  lemma {:induction false} NewIsStranger(owner: string, n: nat)
    requires n <= FILLERS
    ensures Parentless(Filled(owner, n), New(owner)) && NotQueued(Filled(owner, n), New(owner))
    ensures AllElsewhere(Fillers(owner, n), 1)
  {
  }

  /** A filler that is offered next is queued. */
  lemma {:induction false} FillerEnters(owner: string, n: nat)
    requires n < FILLERS
    ensures Offered(RULES, Confirmed(owner), 0, Filled(owner, n), Filler(owner, n)) ==
            Outcome(Filled(owner, n + 1), true)
  {
    FillersAreStrangers(owner, n, n);
    FilledBytes(owner, n);
    var q := Filled(owner, n);
    assert Filled(owner, n + 1) == q + [Filler(owner, n)];
    PaymentOffer(q, owner, 1000 + n, 10 + n, 1000, FILLER_FEE, FILLER_BYTES);
  }

  lemma {:induction false} OldEnters(owner: string)
    ensures Offered(RULES, Confirmed(owner), 0, [], Old(owner)) == Outcome([Old(owner)], true)
  {
    PaymentOffer([], owner, 500, 1, 12_000, 8000, 8000);
  }

  /** The offers: the old transaction, then the fillers, all against one ledger. */
  ghost function Offers(owner: string, n: nat): seq<Event> {
    if n == 0 then [Offer(Old(owner), Confirmed(owner), 0)]
    else Offers(owner, n - 1) + [Offer(Filler(owner, n - 1), Confirmed(owner), 0)]
  }

  lemma {:induction false} OfferNext(events: seq<Event>, tx: UtxoTx, l: Ledger)
    ensures QueueAfter(RULES, events + [Offer(tx, l, 0)]) == Offered(RULES, l, 0, QueueAfter(RULES, events), tx).queue
  {
    assert (events + [Offer(tx, l, 0)])[..|events|] == events;
  }

  lemma {:induction false} OffersFill(owner: string, n: nat)
    requires n <= FILLERS
    ensures QueueAfter(RULES, Offers(owner, n)) == Filled(owner, n)
  {
    var f := (events: seq<Event>) => QueueAfter(RULES, events);
    OffersStart(owner);
    forall k: nat {:trigger Offers(owner, k)} | k < FILLERS && f(Offers(owner, k)) == Filled(owner, k)
      ensures f(Offers(owner, k) + [Offer(Filler(owner, k), Confirmed(owner), 0)]) == Filled(owner, k + 1)
    {
      OffersStep(owner, k);
    }
    FillsStepwise(f, owner, n);
  }

  lemma {:induction false} FillsStepwise(f: seq<Event> -> Queue, owner: string, n: nat)
    requires n <= FILLERS && f([Offer(Old(owner), Confirmed(owner), 0)]) == [Old(owner)]
    requires forall k: nat {:trigger Offers(owner, k)} :: k < FILLERS && f(Offers(owner, k)) == Filled(owner, k) ==>
               f(Offers(owner, k) + [Offer(Filler(owner, k), Confirmed(owner), 0)]) == Filled(owner, k + 1)
    ensures f(Offers(owner, n)) == Filled(owner, n)
  {
    if n > 0 {
      FillsStepwise(f, owner, n - 1);
    }
  }

  lemma {:induction false} OffersStart(owner: string)
    ensures QueueAfter(RULES, [Offer(Old(owner), Confirmed(owner), 0)]) == [Old(owner)]
  {
    OfferNext([], Old(owner), Confirmed(owner));
    assert [] + [Offer(Old(owner), Confirmed(owner), 0)] == [Offer(Old(owner), Confirmed(owner), 0)];
    OldEnters(owner);
  }

  lemma {:induction false} OffersStep(owner: string, n: nat)
    requires n < FILLERS && QueueAfter(RULES, Offers(owner, n)) == Filled(owner, n)
    ensures QueueAfter(RULES, Offers(owner, n) + [Offer(Filler(owner, n), Confirmed(owner), 0)]) == Filled(owner, n + 1)
  {
    OfferNext(Offers(owner, n), Filler(owner, n), Confirmed(owner));
    FillerEnters(owner, n);
  }

  // ----- The replacement -----

  lemma {:induction false} LoneConflict(q: Queue, tx: UtxoTx)
    requires q != [] && SharesInput(tx, q[0]) && forall i :: 0 < i < |q| ==> !SharesInput(tx, q[i])
    requires forall i :: 0 <= i < |q| ==> !SpendsFrom(q[i], q[0])
    ensures Conflicts(q, tx) == {0}
  {
    ConflictsAreLeast(q, tx);
    assert CoversConflicts(q, tx, {0});
  }

  lemma {:induction false} OneConflict(owner: string, n: nat)
    requires n <= FILLERS
    ensures Conflicts(Filled(owner, n), New(owner)) == {0}
  {
    var q := Filled(owner, n);
    assert Old(owner).inputs[0] in Old(owner).inputs && New(owner).inputs[0] in New(owner).inputs;
    assert SharesInput(New(owner), q[0]);
    LoneConflict(q, New(owner));
  }

  lemma {:induction false} NewPays(owner: string, n: nat)
    requires n <= FILLERS
    ensures Pays(Filled(owner, n), New(owner), {0})
  {
    var one := [0];
    SingleNoRepeat(0);
    assert Members(one) == {0} && one[..0] == [];
    ListedSums(Filled(owner, n), one);
  }

  lemma {:induction false} NewIsAssessed(owner: string, n: nat)
    requires n <= FILLERS
    ensures Assessed(RULES, Confirmed(owner), 0, Filled(owner, n), New(owner), {0})
  {
    NewIsStranger(owner, n);
    FilledWithoutOld(owner, n);
    LonePackage(Filled(owner, n), New(owner), {0});
    PreviewServes(Fillers(owner, n), owner, 600, 1, 3000, 17_000, 8001);
    NewPays(owner, n);
  }

  lemma {:induction false} NewHasNoRoom(owner: string, n: nat)
    requires n == FILLERS
    ensures NoRoom(Fillers(owner, n), New(owner), PerByte(17_000, 8001))
  {
    var q := Fillers(owner, n);
    FilledBytes(owner, n);
    forall i | 0 <= i < n
      ensures ScoreOf(q, i).rate == 3
    {
      LoneScore(q, i);
    }
    assert Cheaper(ScoreAll(q), PerByte(17_000, 8001)) == {};
    KeepAll(q);
  }

  /** For every owner: a run of offers against one ledger, and one more offer against it that is
      refused for lack of room after what it would have replaced has left the queue. */
  lemma {:induction false} RefusalRemoves(owner: string) returns (events: seq<Event>)
    ensures forall e :: e in events ==> e.Offer? && e.ledger == Confirmed(owner)
    ensures var q := QueueAfter(RULES, events);
            var after := Offered(RULES, Confirmed(owner), 0, q, New(owner));
            |q| == FILLERS + 1 && !after.ok && q[0] == Old(owner) && after.queue == q[1..]
  {
    events := RefusalAt(owner, FILLERS);
  }

  lemma {:induction false} SameLedger(owner: string, n: nat)
    ensures forall e :: e in Offers(owner, n) ==> e.Offer? && e.ledger == Confirmed(owner)
  {
    if n > 0 {
      SameLedger(owner, n - 1);
    }
  }

  lemma {:induction false} RefusalAt(owner: string, n: nat) returns (events: seq<Event>)
    requires n == FILLERS
    ensures forall e :: e in events ==> e.Offer? && e.ledger == Confirmed(owner)
    ensures var q := QueueAfter(RULES, events);
            var after := Offered(RULES, Confirmed(owner), 0, q, New(owner));
            |q| == n + 1 && !after.ok && q[0] == Old(owner) && after.queue == q[1..]
  {
    events := Offers(owner, n);
    SameLedger(owner, n);
    OffersFill(owner, n);
    OneConflict(owner, n);
    NewIsAssessed(owner, n);
    FilledWithoutOld(owner, n);
    NewIsStranger(owner, n);
    LonePackage(Filled(owner, n), New(owner), {0});
    NewHasNoRoom(owner, n);
    RefusalExactly(RULES, Confirmed(owner), 0, Filled(owner, n), New(owner));
    assert Filled(owner, n)[1..] == Fillers(owner, n);
  }
}
