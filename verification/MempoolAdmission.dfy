/** Admission to the UTXO mempool (src/lib.rs, `admit_utxo_to_mempool`) as a function of the
    queue, the loops that compute it in place, and what every reachable mempool satisfies. */
module MempoolAdmission {
  import opened Types
  import opened LedgerSteps
  import opened Mempool
  import opened Outcomes
  import SpendHistory

  /** What every reachable mempool satisfies. */
  ghost predicate Sound(q: Queue) {
    Disjoint(q) && Bytes(q) <= MAX_MEMPOOL_BYTES && |q| <= MAX_MEMPOOL_SIZE
  }

  lemma {:induction false} KeptSound(q: Queue, removed: set<nat>)
    requires Sound(q)
    ensures Sound(Kept(q, removed))
  {
    KeptDisjoint(q, removed);
    KeptBytes(q, removed);
    KeptCount(q, removed);
  }

  lemma {:induction false} KeptCount(q: Queue, removed: set<nat>)
    ensures |Kept(q, removed)| <= |q|
  {
    if q != [] {
      KeptCount(q[..|q| - 1], removed);
    }
  }

  /** Nothing that is kept conflicts with `tx`. */
  ghost predicate ConflictFree(q: Queue, tx: UtxoTx) {
    forall i {:trigger q[i]} :: 0 <= i < |q| ==> !SharesInput(q[i], tx)
  }

  lemma {:induction false} ShareSymmetric(a: UtxoTx, b: UtxoTx)
    ensures SharesInput(a, b) <==> SharesInput(b, a)
  {
  }

  /** What counts as a conflict and as a parent is what the ledger makes of it: two transactions
      conflict exactly when some output is spent by both, and one that spends an output the
      other creates has it as a parent. */
  lemma {:induction false} LedgerLinks(a: UtxoTx, b: UtxoTx, op: OutPoint)
    ensures SharesInput(a, b) <==> SpendHistory.Spends(a) * SpendHistory.Spends(b) != {}
    ensures op in SpendHistory.Spends(a) && SpendHistory.CreatedBy(b, |b.outputs|, op) ==> SpendsFrom(a, b)
  {
    if SharesInput(a, b) {
      var x, y :| x in a.inputs && y in b.inputs && x.previous == y.previous;
      assert x.previous in SpendHistory.Spends(a) * SpendHistory.Spends(b);
    }
    if o :| o in SpendHistory.Spends(a) * SpendHistory.Spends(b) {
      var x :| x in a.inputs && x.previous == o;
      var y :| y in b.inputs && y.previous == o;
    }
  }

  lemma {:induction false} KeptConflictFree(q: Queue, tx: UtxoTx, removed: set<nat>)
    requires forall i {:trigger q[i]} :: 0 <= i < |q| && SharesInput(tx, q[i]) ==> i in removed
    ensures ConflictFree(Kept(q, removed), tx)
  {
    var r := Kept(q, removed);
    forall k | 0 <= k < |r|
      ensures !SharesInput(r[k], tx)
    {
      KeptMembers(q, removed, r[k]);
      ShareSymmetric(r[k], tx);
    }
  }

  lemma {:induction false} StaysConflictFree(q: Queue, tx: UtxoTx, removed: set<nat>)
    requires ConflictFree(q, tx)
    ensures ConflictFree(Kept(q, removed), tx)
  {
    forall i | 0 <= i < |q|
      ensures !SharesInput(tx, q[i])
    {
      ShareSymmetric(q[i], tx);
    }
    KeptConflictFree(q, tx, removed);
  }

  lemma {:induction false} DropOne(q: Queue, tx: UtxoTx, i: nat)
    requires Sound(q) && ConflictFree(q, tx) && i < |q|
    ensures Sound(Kept(q, {i})) && ConflictFree(Kept(q, {i}), tx)
    ensures |Kept(q, {i})| == |q| - 1 && Bytes(Kept(q, {i})) <= Bytes(q)
  {
    KeptSound(q, {i});
    StaysConflictFree(q, tx, {i});
    DropCount(q, i);
  }

  lemma {:induction false} DropCount(q: Queue, i: nat)
    requires i < |q|
    ensures |Kept(q, {i})| == |q| - 1 && Bytes(Kept(q, {i})) <= Bytes(q)
  {
    RemoveOne(q, {}, i);
    KeepAll(q);
    assert {} + {i} == {i};
  }

  predicate NotQueued(q: Queue, tx: UtxoTx) {
    forall i :: 0 <= i < |q| ==> q[i].txid != tx.txid
  }

  function IncomingPackage(q: Queue, tx: UtxoTx, skip: set<nat>): (s: seq<nat>)
    ensures InRange(q, s)
  {
    PackageFrom(q, DirectParents(q, tx, skip, |q|), 0, skip)
  }

  function RateWith(q: Queue, package: seq<nat>, tx: UtxoTx): nat
    requires InRange(q, package)
  {
    var bytes := BytesOf(q, package) + tx.relayBytes;
    PerByte(Fees(q, package) + tx.fee, bytes)
  }

  predicate PackageFits(q: Queue, package: seq<nat>, tx: UtxoTx)
    requires InRange(q, package)
  {
    |package| + 1 <= MAX_UTXO_PACKAGE_COUNT && BytesOf(q, package) + tx.relayBytes <= MAX_UTXO_PACKAGE_BYTES
  }

  predicate Applies(rules: Rules, ledger: Ledger, media: nat, pending: Queue, tx: UtxoTx) {
    ApplyUtxoTx(rules, Preview(rules, ledger, pending, media), tx, media).ok
  }

  // ----- The conflicts as a set -----

  ghost predicate InEachCover(q: Queue, tx: UtxoTx, i: nat) {
    forall t {:trigger CoversConflicts(q, tx, t)} :: CoversConflicts(q, tx, t) ==> i in t
  }

  /** The entries in every set that covers the conflicts. */
  ghost function Conflicts(q: Queue, tx: UtxoTx): set<nat> {
    set i: nat | i < |q| && InEachCover(q, tx, i)
  }

  lemma {:induction false} ConflictsAreLeast(q: Queue, tx: UtxoTx)
    ensures IsConflictSet(q, tx, Conflicts(q, tx))
  {
    var s := Conflicts(q, tx);
    forall i, j | 0 <= i < |q| && 0 <= j < |q| && j in s && SpendsFrom(q[i], q[j])
      ensures i in s
    {
      assert InEachCover(q, tx, j);
    }
    assert forall i :: 0 <= i < |q| && SharesInput(tx, q[i]) ==> InEachCover(q, tx, i);
  }

  /** There are none exactly when no entry shares an input. */
  lemma {:induction false} NoConflicts(q: Queue, tx: UtxoTx)
    ensures Conflicts(q, tx) == {} <==> ConflictFree(q, tx)
  {
    ConflictsAreLeast(q, tx);
    forall i | 0 <= i < |q|
      ensures SharesInput(tx, q[i]) <==> SharesInput(q[i], tx)
    {
      ShareSymmetric(tx, q[i]);
    }
    if ConflictFree(q, tx) {
      assert CoversConflicts(q, tx, {});
    }
  }

  /** Fees and priced bytes of the entries in `c`. */
  function FeesIn(q: Queue, c: set<nat>): nat {
    if q == [] then 0
    else FeesIn(q[..|q| - 1], c) + if |q| - 1 in c then q[|q| - 1].fee else 0
  }

  function PricedBytes(tx: UtxoTx): nat { if tx.relayBytes == 0 then 1 else tx.relayBytes }

  function PricedIn(q: Queue, c: set<nat>): nat {
    if q == [] then 0
    else PricedIn(q[..|q| - 1], c) + if |q| - 1 in c then PricedBytes(q[|q| - 1]) else 0
  }

  lemma {:induction false} OneMore(q: Queue, c: set<nat>, i: nat)
    requires i !in c
    ensures FeesIn(q, c + {i}) == FeesIn(q, c) + (if i < |q| then q[i].fee else 0)
    ensures PricedIn(q, c + {i}) == PricedIn(q, c) + (if i < |q| then PricedBytes(q[i]) else 0)
  {
    if q != [] {
      OneMore(q[..|q| - 1], c, i);
    }
  }

  lemma {:induction false} NoneIn(q: Queue)
    ensures FeesIn(q, {}) == 0 && PricedIn(q, {}) == 0
  {
    if q != [] {
      NoneIn(q[..|q| - 1]);
    }
  }

  /** Summed along any list of the set. */
  lemma {:induction false} ListedSums(q: Queue, list: seq<nat>)
    requires NoRepeat(list) && InRange(q, list)
    ensures Fees(q, list) == FeesIn(q, Members(list)) && BytesPriced(q, list) == PricedIn(q, Members(list))
  {
    if list == [] {
      assert Members(list) == {};
      NoneIn(q);
    } else {
      var k := |list| - 1;
      NoRepeatPrefix(list, k);
      ListedSums(q, list[..k]);
      MembersSplit(list);
      OneMore(q, Members(list[..k]), list[k]);
    }
  }

  lemma {:induction false} FeesSplit(q: Queue, c: set<nat>)
    ensures FeeTotal(Kept(q, c)) + FeesIn(q, c) == FeeTotal(q)
  {
    if q != [] {
      FeesSplit(q[..|q| - 1], c);
      KeptStep(q, c);
    }
  }

  // ----- What admission does -----

  datatype Outcome = Outcome(queue: Queue, ok: bool)

  predicate Pays(q: Queue, tx: UtxoTx, c: set<nat>) {
    c == {} || Outbids(tx, FeesIn(q, c), PricedIn(q, c))
  }

  /** Well formed, new, spendable on the preview without its conflicts, in a package within the
      limits, and outbidding what it replaces. */
  predicate Assessed(rules: Rules, ledger: Ledger, media: nat, q: Queue, tx: UtxoTx, c: set<nat>) {
    && FormOk(tx) && tx.chainId == rules.chainId && NotQueued(q, tx)
    && Applies(rules, ledger, media, Kept(q, c), tx)
    && PackageFits(q, IncomingPackage(q, tx, c), tx)
    && Pays(q, tx, c)
  }

  function IncomingRate(q: Queue, tx: UtxoTx, c: set<nat>): nat {
    RateWith(q, IncomingPackage(q, tx, c), tx)
  }

  /** A better rate, or the same rate and more than the whole package's fee. */
  predicate Beats(tx: UtxoTx, rate: nat, other: Score) {
    rate > other.rate || (rate == other.rate && tx.fee > other.fee)
  }

  /** In a queue without conflicts: if the bytes fit, the transaction takes a free place or the
      worst entry's; if not, the cheapest packages go until they fit, provided that everything
      cheaper together frees enough. */
  ghost function Entered(q: Queue, tx: UtxoTx, rate: nat): Outcome {
    var t := ScoreAll(q);
    if Bytes(q) + tx.relayBytes <= MAX_MEMPOOL_BYTES then
      if |q| < MAX_MEMPOOL_SIZE then Outcome(q + [tx], true)
      else if Beats(tx, rate, t[FirstWorst(t, |t|)]) then Outcome(Kept(q, {FirstWorst(t, |t|)}) + [tx], true)
      else Outcome(q, false)
    else if FitsWithout(q, Cheaper(t, rate), tx.relayBytes)
    then Outcome(Kept(q, Evicted(q, t, tx.relayBytes, rate)) + [tx], true)
    else Outcome(q, false)
  }

  /** A transaction that is not assessed changes nothing; otherwise its conflicts leave, whether
      or not there is room for it then. */
  ghost function Offered(rules: Rules, ledger: Ledger, media: nat, q: Queue, tx: UtxoTx): Outcome {
    var c := Conflicts(q, tx);
    if !Assessed(rules, ledger, media, q, tx, c) then Outcome(q, false)
    else Entered(Kept(q, c), tx, IncomingRate(q, tx, c))
  }

  /** No room even without every cheaper package, or no better than the worst of a full queue. */
  ghost predicate NoRoom(q: Queue, tx: UtxoTx, rate: nat) {
    var t := ScoreAll(q);
    if Bytes(q) + tx.relayBytes <= MAX_MEMPOOL_BYTES
    then |q| >= MAX_MEMPOOL_SIZE && !Beats(tx, rate, t[FirstWorst(t, |t|)])
    else !FitsWithout(q, Cheaper(t, rate), tx.relayBytes)
  }

  lemma {:induction false} KeptShorter(q: Queue, c: set<nat>, i: nat)
    requires i in c && i < |q|
    ensures |Kept(q, c)| < |q|
  {
    KeptStep(q, c);
    if i < |q| - 1 {
      KeptShorter(q[..|q| - 1], c, i);
    } else {
      KeptCount(q[..|q| - 1], c);
    }
  }

  lemma {:induction false} EnteredRefuses(q: Queue, tx: UtxoTx, rate: nat)
    ensures !Entered(q, tx, rate).ok <==> NoRoom(q, tx, rate)
    ensures !Entered(q, tx, rate).ok ==> Entered(q, tx, rate).queue == q
  {
  }

  /** Exactly when a transaction is refused, and exactly when a refusal leaves the queue as it
      was: unless it passed its checks and shares an input with an entry. In that case the
      conflicts and their descendants are gone, and nothing else. */
  lemma {:induction false} RefusalExactly(rules: Rules, ledger: Ledger, media: nat, q: Queue, tx: UtxoTx)
    ensures var c, after := Conflicts(q, tx), Offered(rules, ledger, media, q, tx);
            && (!after.ok <==>
                  !Assessed(rules, ledger, media, q, tx, c) || NoRoom(Kept(q, c), tx, IncomingRate(q, tx, c)))
            && (!after.ok ==> (after.queue == q <==> !Assessed(rules, ledger, media, q, tx, c) || ConflictFree(q, tx)))
            && (!after.ok && Assessed(rules, ledger, media, q, tx, c) ==> after.queue == Kept(q, c))
  {
    var c := Conflicts(q, tx);
    if Assessed(rules, ledger, media, q, tx, c) {
      EnteredRefuses(Kept(q, c), tx, IncomingRate(q, tx, c));
      ConflictsShow(q, tx);
    }
  }

  lemma {:induction false} ConflictsShow(q: Queue, tx: UtxoTx)
    ensures Kept(q, Conflicts(q, tx)) == q <==> ConflictFree(q, tx)
  {
    NoConflicts(q, tx);
    KeepAll(q);
    if i :| i in Conflicts(q, tx) {
      KeptShorter(q, Conflicts(q, tx), i);
    }
  }

  /** What a queued transaction has passed: it is new and for this chain, fails no check on the
      preview of the queue without its conflicts, and its package has at most 25 transactions
      and 512 KiB. */
  lemma {:induction false} AdmittedPasses(rules: Rules, ledger: Ledger, media: nat, q: Queue, tx: UtxoTx)
    requires Offered(rules, ledger, media, q, tx).ok
    ensures tx.chainId == rules.chainId && (forall t :: t in q ==> t.txid != tx.txid)
    ensures !FailsSome(rules, Preview(rules, ledger, Kept(q, Conflicts(q, tx)), media), tx, media)
    ensures var package := IncomingPackage(q, tx, Conflicts(q, tx));
            |package| <= 24 && BytesOf(q, package) + tx.relayBytes <= 524_288
  {
    AppliesExactly(rules, Preview(rules, ledger, Kept(q, Conflicts(q, tx)), media), tx, media);
  }

  /** It stands last, after entries that were there and do not conflict with it. */
  lemma {:induction false} AdmittedStandsLast(rules: Rules, ledger: Ledger, media: nat, q: Queue, tx: UtxoTx)
    requires Offered(rules, ledger, media, q, tx).ok
    ensures var after := Offered(rules, ledger, media, q, tx).queue;
            && |after| > 0 && after[|after| - 1] == tx
            && forall t :: t in after ==> t == tx || (t in q && !SharesInput(tx, t))
  {
    var rate := OfferedEnters(rules, ledger, media, q, tx);
    EnteredKeeps(Kept(q, Conflicts(q, tx)), tx, rate);
    forall t | t in Kept(q, Conflicts(q, tx))
      ensures t in q && !SharesInput(tx, t)
    {
      KeptIsApart(q, tx, t);
    }
  }

  lemma {:induction false} OfferedEnters(rules: Rules, ledger: Ledger, media: nat, q: Queue, tx: UtxoTx)
    returns (rate: nat)
    requires Offered(rules, ledger, media, q, tx).ok
    ensures Offered(rules, ledger, media, q, tx) == Entered(Kept(q, Conflicts(q, tx)), tx, rate)
  {
    rate := IncomingRate(q, tx, Conflicts(q, tx));
  }

  lemma {:induction false} KeptIsApart(q: Queue, tx: UtxoTx, t: UtxoTx)
    requires t in Kept(q, Conflicts(q, tx))
    ensures t in q && !SharesInput(tx, t)
  {
    KeptMembers(q, Conflicts(q, tx), t);
    ConflictsAreLeast(q, tx);
  }

  /** What enters stands last, after entries that were there. */
  lemma {:induction false} EnteredKeeps(q: Queue, tx: UtxoTx, rate: nat)
    requires Entered(q, tx, rate).ok
    ensures var after := Entered(q, tx, rate).queue;
            && |after| > 0 && after[|after| - 1] == tx
            && forall t :: t in after ==> t == tx || t in q
  {
    var after := Entered(q, tx, rate).queue;
    forall t | t in after && t != tx
      ensures t in q
    {
      var s := ScoreAll(q);
      if Bytes(q) + tx.relayBytes > MAX_MEMPOOL_BYTES {
        KeptMembers(q, Evicted(q, s, tx.relayBytes, rate), t);
      } else if |q| >= MAX_MEMPOOL_SIZE {
        KeptMembers(q, {FirstWorst(s, |s|)}, t);
      }
    }
  }

  // ----- Outbidding -----

  /** A rate that `fee` reaches over `bytes` and `fees` does not reach over `priced`. */
  ghost predicate RateBetween(fee: nat, bytes: nat, fees: nat, priced: nat, rate: nat) {
    rate * bytes <= fee && fees < rate * priced
  }

  lemma {:induction false} MulLe(x: nat, y: nat, n: nat)
    requires x <= y
    ensures x * n <= y * n
  {
  }

  lemma {:induction false} Quotient(x: nat, n: nat) returns (q: nat)
    requires n > 0
    ensures q == x / n && q * n <= x < (q + 1) * n
  {
    q := x / n;
  }

  lemma {:induction false} ReachedAtMost(rate: nat, bytes: nat, fee: nat, most: nat)
    requires rate * bytes <= fee < (most + 1) * bytes
    ensures rate <= most
  {
    if rate > most {
      MulLe(most + 1, rate, bytes);
      assert false;
    }
  }

  lemma {:induction false} MissedAbove(rate: nat, priced: nat, fees: nat, reached: nat)
    requires reached * priced <= fees < rate * priced
    ensures reached < rate
  {
    if rate <= reached {
      MulLe(rate, reached, priced);
      assert false;
    }
  }

  lemma {:induction false} BetweenQuotients(fee: nat, bytes: nat, p: nat, fees: nat, priced: nat, q: nat)
    requires p * bytes <= fee < (p + 1) * bytes && q * priced <= fees < (q + 1) * priced
    ensures p > q <==> exists rate: nat :: RateBetween(fee, bytes, fees, priced, rate)
    ensures p > q ==> RateBetween(fee, bytes, fees, priced, p)
  {
    if p > q {
      MulLe(q + 1, p, priced);
      assert RateBetween(fee, bytes, fees, priced, p);
    }
    if rate: nat :| RateBetween(fee, bytes, fees, priced, rate) {
      ReachedAtMost(rate, bytes, fee, p);
      MissedAbove(rate, priced, fees, q);
    }
  }

  /** Whole rates compare as they do exactly when some whole rate lies between; then the exact
      rates compare the same way. */
  lemma {:induction false} WholeRates(fee: nat, bytes: nat, fees: nat, priced: nat)
    requires bytes > 0 && priced > 0
    ensures fee / bytes > fees / priced <==> exists rate: nat :: RateBetween(fee, bytes, fees, priced, rate)
    ensures fee / bytes > fees / priced ==> fee * priced > fees * bytes
  {
    var p := Quotient(fee, bytes);
    var q := Quotient(fees, priced);
    BetweenQuotients(fee, bytes, p, fees, priced, q);
    if p > q {
      Crossed(fee, bytes, fees, priced, p);
    }
  }

  lemma {:induction false} Crossed(fee: nat, bytes: nat, fees: nat, priced: nat, rate: nat)
    requires bytes > 0 && RateBetween(fee, bytes, fees, priced, rate)
    ensures fee * priced > fees * bytes
  {
    MulLe(rate * bytes, fee, priced);
    MulLe(fees + 1, rate * priced, bytes);
    assert rate * bytes * priced == rate * priced * bytes;
    assert (fees + 1) * bytes == fees * bytes + bytes;
  }

  /** A replacement pays for what it replaces and the least fee besides, and more per byte: some
      whole rate is reached by it and not by what it replaces. */
  lemma {:induction false} OutbidsMeans(tx: UtxoTx, fees: nat, priced: nat)
    requires priced > 0
    ensures Outbids(tx, fees, priced) <==>
            && tx.fee >= fees + MIN_TX_FEE
            && exists rate: nat :: RateBetween(tx.fee, PricedBytes(tx), fees, priced, rate)
    ensures Outbids(tx, fees, priced) ==> tx.fee * priced > fees * PricedBytes(tx)
  {
    WholeRates(tx.fee, PricedBytes(tx), fees, priced);
  }

  lemma {:induction false} SomePriced(q: Queue, c: set<nat>, i: nat)
    requires i in c && i < |q|
    ensures PricedIn(q, c) > 0
  {
    if i < |q| - 1 {
      SomePriced(q[..|q| - 1], c, i);
    }
  }

  /** The ancestors that pay and count with an offered transaction: below the limit, the least
      set that holds its parents and, with an entry, that entry's parents, without what it
      replaces. */
  lemma {:induction false} IncomingPackageIs(q: Queue, tx: UtxoTx, skip: set<nat>, t: set<nat>)
    ensures var first, s := DirectParents(q, tx, skip, |q|), IncomingPackage(q, tx, skip);
            && (|s| < MAX_UTXO_PACKAGE_COUNT ==> ClosedOver(q, first, Members(s), skip))
            && (ClosedOver(q, first, t, skip) ==> Members(s) <= t)
  {
    var first := DirectParents(q, tx, skip, |q|);
    PackageIsClosed(q, first, 0, skip);
    if ClosedOver(q, first, t, skip) {
      PackageIsLeast(q, first, 0, skip, t);
    }
  }

  /** The rate of an offered transaction is that of its package: the fees of the transaction
      and its ancestors over their bytes, rounded down. */
  lemma {:induction false} IncomingRateIs(q: Queue, tx: UtxoTx, skip: set<nat>)
    ensures var s, rate := IncomingPackage(q, tx, skip), IncomingRate(q, tx, skip);
            var fees, bytes := tx.fee + FeesIn(q, Members(s)), tx.relayBytes + BytesOf(q, s);
            bytes > 0 ==> rate * bytes <= fees < (rate + 1) * bytes
  {
    var s := IncomingPackage(q, tx, skip);
    ListedSums(q, s);
    var fees, bytes := tx.fee + Fees(q, s), tx.relayBytes + BytesOf(q, s);
    if bytes > 0 {
      var rate := Quotient(fees, bytes);
      assert IncomingRate(q, tx, skip) == rate;
    }
  }

  /** So is that of a queued entry, whose package holds the entry itself. */
  lemma {:induction false} EntryRateIs(q: Queue, i: nat)
    requires i < |q|
    ensures var s, score := Members(PackageOf(q, i)), ScoreOf(q, i);
            && i in s && score.fee == FeesIn(q, s)
            && score.rate * PricedIn(q, s) <= score.fee < (score.rate + 1) * PricedIn(q, s)
  {
    var t := PackageOf(q, i);
    ListedSums(q, t);
    var rate := Quotient(Fees(q, t), BytesPriced(q, t));
    assert t[0] == i by {
      PackageStarts(q, i);
    }
  }

  lemma {:induction false} PackageStarts(q: Queue, i: nat)
    requires i < |q|
    ensures [i] <= PackageOf(q, i) && PackageOf(q, i)[0] == i && NoRepeat(PackageOf(q, i))
  {
    SingleNoRepeat(i);
  }

  /** What replaces conflicting entries outbids them, in total and per byte. */
  lemma {:induction false} ReplacementOutbids(rules: Rules, ledger: Ledger, media: nat, q: Queue, tx: UtxoTx)
    requires Offered(rules, ledger, media, q, tx).ok && !ConflictFree(q, tx)
    ensures var c := Conflicts(q, tx);
            && tx.fee >= FeesIn(q, c) + MIN_TX_FEE
            && tx.fee * PricedIn(q, c) > FeesIn(q, c) * PricedBytes(tx)
  {
    var c := Conflicts(q, tx);
    NoConflicts(q, tx);
    var i :| i in c;
    SomePriced(q, c, i);
    OutbidsMeans(tx, FeesIn(q, c), PricedIn(q, c));
  }

  /** This package pays a lower rate, or the same rate and a lower fee. */
  ghost predicate Undercut(t: seq<Score>, i: nat, rate: nat, fee: nat) {
    i < |t| && (t[i].rate < rate || (t[i].rate == rate && t[i].fee < fee))
  }

  /** No package is below this one. */
  ghost predicate Lowest(t: seq<Score>, i: nat) {
    i < |t| && forall k: nat :: !Undercut(t, k, t[i].rate, t[i].fee)
  }

  lemma {:induction false} WorstDecides(t: seq<Score>, tx: UtxoTx, rate: nat)
    requires t != []
    ensures Beats(tx, rate, t[FirstWorst(t, |t|)]) <==> exists i: nat :: Undercut(t, i, rate, tx.fee)
    ensures Lowest(t, FirstWorst(t, |t|))
  {
    var w := FirstWorst(t, |t|);
    assert Beats(tx, rate, t[w]) <==> Undercut(t, w, rate, tx.fee);
    forall k: nat
      ensures !Undercut(t, k, t[w].rate, t[w].fee)
    {
      assert k < |t| ==> !Lower(t[k], t[w]);
    }
    if i: nat :| Undercut(t, i, rate, tx.fee) {
      assert !Undercut(t, i, t[w].rate, t[w].fee);
    }
  }

  /** A full queue takes a transaction whose bytes fit exactly when some entry's package pays a
      lower rate, or the same rate and a lower fee than the transaction; then an entry leaves
      that no other is below. */
  lemma {:induction false} FullQueueTradesUp(q: Queue, tx: UtxoTx, rate: nat)
    requires |q| >= MAX_MEMPOOL_SIZE && Bytes(q) + tx.relayBytes <= MAX_MEMPOOL_BYTES
    ensures var t, after := ScoreAll(q), Entered(q, tx, rate);
            && (after.ok <==> exists i: nat :: Undercut(t, i, rate, tx.fee))
            && (after.ok ==> exists i: nat :: Lowest(t, i) && after.queue == Kept(q, {i}) + [tx])
  {
    var t := ScoreAll(q);
    WorstDecides(t, tx, rate);
  }

  class UtxoMempool {
    var queue: Queue

    ghost predicate Valid()
      reads this
    {
      Sound(queue)
    }

    constructor ()
      ensures Valid() && queue == []
    {
      queue := [];
    }

    /** Admit a transaction, or refuse it. What it replaces is outbid in total and per byte. */
    method AdmitUtxo(rules: Rules, ledger: Ledger, media: nat, tx: UtxoTx) returns (ok: bool)
      requires Valid()
      modifies this
      ensures Valid() && Outcome(queue, ok) == Offered(rules, ledger, media, old(queue), tx)
      ensures ok && !ConflictFree(old(queue), tx) ==>
                tx.fee + FeeTotal(Kept(old(queue), Conflicts(old(queue), tx))) >= FeeTotal(old(queue)) + MIN_TX_FEE
      ensures ok && !ConflictFree(old(queue), tx) ==>
                tx.fee * PricedIn(old(queue), Conflicts(old(queue), tx))
                > FeesIn(old(queue), Conflicts(old(queue), tx)) * PricedBytes(tx)
    {
      var list := ConflictSet(queue, tx);
      ConflictsAreLeast(queue, tx);
      ConflictSetUnique(queue, tx, Members(list), Conflicts(queue, tx));
      var rate;
      ok, rate := Assess(rules, ledger, media, tx, list);
      if ok {
        NoConflicts(queue, tx);
        FeesSplit(queue, Members(list));
        KeptSound(queue, Members(list));
        KeptConflictFree(queue, tx, Members(list));
        queue := Kept(queue, Members(list));
        ok := Enter(tx, rate);
        if ok && !ConflictFree(old(queue), tx) {
          ReplacementOutbids(rules, ledger, media, old(queue), tx);
        }
      }
    }

    /** All checks that leave the queue alone; the rate of the transaction's package. */
    method Assess(rules: Rules, ledger: Ledger, media: nat, tx: UtxoTx, list: seq<nat>) returns (ok: bool, rate: nat)
      requires NoRepeat(list) && InRange(queue, list)
      ensures ok <==> Assessed(rules, ledger, media, queue, tx, Members(list))
      ensures ok ==> rate == IncomingRate(queue, tx, Members(list))
    {
      rate := 0;
      if !FormOk(tx) || tx.chainId != rules.chainId || !NotQueued(queue, tx) {
        return false, 0;
      }
      if !Applies(rules, ledger, media, Kept(queue, Members(list)), tx) {
        return false, 0;
      }
      var package := AncestorPackage(queue, DirectParents(queue, tx, Members(list), |queue|), Members(list));
      if !PackageFits(queue, package, tx) {
        return false, 0;
      }
      rate := RateWith(queue, package, tx);
      ListedSums(queue, list);
      assert list == [] <==> Members(list) == {} by {
        assert list != [] ==> list[0] in Members(list);
      }
      ok := list == [] || Outbids(tx, Fees(queue, list), BytesPriced(queue, list));
    }

    /** Make room for the bytes and queue the transaction. */
    method Enter(tx: UtxoTx, rate: nat) returns (ok: bool)
      requires Valid() && ConflictFree(queue, tx)
      modifies this
      ensures Valid() && Outcome(queue, ok) == Entered(old(queue), tx, rate)
    {
      if Bytes(queue) + tx.relayBytes <= MAX_MEMPOOL_BYTES {
        ok := Seat(tx, rate);
        return;
      }
      var t := ScoreAll(queue);
      var fits, list := MakeRoom(queue, t, tx.relayBytes, rate);
      if !fits {
        return false;
      }
      EvictionShortens(queue, list, tx.relayBytes);
      KeptSound(queue, Members(list));
      StaysConflictFree(queue, tx, Members(list));
      queue := Kept(queue, Members(list));
      ok := Seat(tx, rate);
    }

    /** Give up the worst entry if the queue is full, then queue the transaction. */
    method Seat(tx: UtxoTx, rate: nat) returns (ok: bool)
      requires Valid() && ConflictFree(queue, tx) && Bytes(queue) + tx.relayBytes <= MAX_MEMPOOL_BYTES
      modifies this
      ensures Valid() && Outcome(queue, ok) == Entered(old(queue), tx, rate)
    {
      if |queue| >= MAX_MEMPOOL_SIZE {
        var t := ScoreAll(queue);
        var i := Worst(t);
        if !Beats(tx, rate, t[i]) {
          return false;
        }
        DropOne(queue, tx, i);
        queue := Kept(queue, {i});
      }
      Push(queue, tx);
      queue := queue + [tx];
      ok := true;
    }

    /** Drop the transactions a block included, or that lost an input to it. */
    method DropIncluded(included: set<nat>)
      requires Valid()
      modifies this
      ensures Valid() && queue == Kept(old(queue), included)
    {
      KeptSound(queue, included);
      queue := Kept(queue, included);
    }
  }

  /** Making room for bytes frees a place as well. */
  lemma {:induction false} EvictionShortens(q: Queue, gone: seq<nat>, incoming: nat)
    requires Bytes(q) + incoming > MAX_MEMPOOL_BYTES && !Overfull(q, gone, incoming) && InRange(q, gone)
    ensures |Kept(q, Members(gone))| < |q|
  {
    if gone == [] {
      assert Members(gone) == {};
      KeepAll(q);
    } else {
      KeptShorter(q, Members(gone), gone[0]);
    }
  }

  /** A replacement pays more in total and per byte. */
  predicate Outbids(tx: UtxoTx, fees: nat, bytes: nat) {
    && tx.fee >= fees + MIN_TX_FEE
    && PerByte(tx.fee, tx.relayBytes) > PerByte(fees, bytes)
  }

  lemma {:induction false} Push(q: Queue, tx: UtxoTx)
    requires Sound(q) && ConflictFree(q, tx) && Bytes(q) + tx.relayBytes <= MAX_MEMPOOL_BYTES && |q| < MAX_MEMPOOL_SIZE
    ensures Sound(q + [tx])
  {
    PushDisjoint(q, tx);
    BytesPush(q, tx);
  }

  // ----- Reachable mempools -----

  datatype Event = Offer(tx: UtxoTx, ledger: Ledger, media: nat) | Confirm(included: set<nat>)

  /** The queue after a sequence of offers and confirmations. */
  ghost function QueueAfter(rules: Rules, events: seq<Event>): Queue {
    if events == [] then []
    else
      var q := QueueAfter(rules, events[..|events| - 1]);
      match events[|events| - 1]
      case Offer(tx, ledger, media) => Offered(rules, ledger, media, q, tx).queue
      case Confirm(included) => Kept(q, included)
  }

  /** Whatever is offered and whatever leaves with blocks, the queue is that function of the
      events, queued transactions never share an input, and the byte and count limits hold. */
  method Run(rules: Rules, events: seq<Event>) returns (q: Queue)
    ensures q == QueueAfter(rules, events)
    ensures Disjoint(q) && Bytes(q) <= MAX_MEMPOOL_BYTES && |q| <= MAX_MEMPOOL_SIZE
  {
    var pool := new UtxoMempool();
    for i := 0 to |events|
      invariant fresh(pool) && pool.Valid() && pool.queue == QueueAfter(rules, events[..i])
    {
      assert events[..i + 1][..i] == events[..i];
      match events[i]
      case Offer(tx, ledger, media) =>
        var ok := pool.AdmitUtxo(rules, ledger, media, tx);
      case Confirm(included) =>
        pool.DropIncluded(included);
    }
    assert events[..|events|] == events;
    q := pool.queue;
  }
}
