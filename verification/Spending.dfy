/** Spend predicates (src/predicate.rs) and the vault (src/bdpe.rs): what unlocks an output.

    Address equivalence, key hashing, signature verification and the hashlock digest are
    parameters of the context an evaluation runs in. */
module Spending {
  import opened Types

  const MAX_PRED_DEPTH: nat := 8
  const MAX_STACK: nat := 16
  const PQ_PUBLIC_KEY_SIZE: nat := 2592
  const PQ_SIGNATURE_SIZE: nat := 4627

  datatype Context = Context(
    same: (string, string) -> bool,
    addressOf: seq<nat> -> string,
    verifies: (seq<nat>, seq<nat>, seq<nat>) -> bool,
    digest: seq<nat> -> Hash,
    signer: string, mediaBlue: nat, createdBlue: nat, sighash: Option<seq<nat>>)

  /** `same` is an equivalence, as naming the same key is. */
  ghost predicate Equivalence(same: (string, string) -> bool) {
    && (forall a {:trigger same(a, a)} :: same(a, a))
    && (forall a, b {:trigger same(a, b)} :: same(a, b) ==> same(b, a))
    && (forall a, b, c {:trigger same(a, b), same(b, c)} :: same(a, b) && same(b, c) ==> same(a, c))
  }

  // ----- Multisignature -----

  /** The first set entry naming the same key as `addr`. */
  function Canon(same: (string, string) -> bool, addresses: seq<string>, addr: string): (key: Option<string>)
    ensures key.Some? ==> key.value in addresses && same(key.value, addr)
    ensures key.None? ==> forall a :: a in addresses ==> !same(a, addr)
  {
    if addresses == [] then None
    else if same(addresses[0], addr) then Some(addresses[0])
    else Canon(same, addresses[1..], addr)
  }

  /** A stack entry a multisignature tolerates: a redundant marker, or a cosigner in the set
      whose signature over the sighash is valid. */
  predicate GoodEntry(ctx: Context, addresses: seq<string>, w: UnlockWitness) {
    match w
    case Signature => true
    case CosignerSig(pubkey, signature) =>
      && |pubkey| == PQ_PUBLIC_KEY_SIZE && |signature| == PQ_SIGNATURE_SIZE
      && Canon(ctx.same, addresses, ctx.addressOf(pubkey)).Some?
      && ctx.sighash.Some? && ctx.verifies(ctx.sighash.value, pubkey, signature)
    case _ => false
  }

  /** The set members that sign: the spender and the cosigners of the stack. */
  function Signers(ctx: Context, addresses: seq<string>, stack: seq<UnlockWitness>): set<Option<string>> {
    {Canon(ctx.same, addresses, ctx.signer)}
    + set w | w in stack && w.CosignerSig? :: Canon(ctx.same, addresses, ctx.addressOf(w.pubkey))
  }

  function StackOf(w: UnlockWitness): Option<seq<UnlockWitness>> {
    match w
    case Signature => Some([])
    case Stack(items) => if |items| > MAX_STACK then None else Some(items)
    case _ => None
  }

  /** At least `n` distinct members of the set sign, the spender among them, and nothing else
      is on the stack. */
  predicate MultiSigUnlocks(ctx: Context, n: nat, addresses: seq<string>, w: UnlockWitness) {
    && 0 < n <= |addresses|
    && Canon(ctx.same, addresses, ctx.signer).Some? && ctx.sighash.Some?
    && StackOf(w).Some?
    && (forall x :: x in StackOf(w).value ==> GoodEntry(ctx, addresses, x))
    && |Signers(ctx, addresses, StackOf(w).value)| >= n
  }

  method EvalMultisig(ctx: Context, n: nat, addresses: seq<string>, w: UnlockWitness) returns (ok: bool)
    ensures ok <==> MultiSigUnlocks(ctx, n, addresses, w)
  {
    if n == 0 || addresses == [] || n > |addresses| {
      return false;
    }
    var primary := Canon(ctx.same, addresses, ctx.signer);
    if primary.None? || ctx.sighash.None? || StackOf(w).None? {
      return false;
    }
    var good, present := CollectSigners(ctx, addresses, StackOf(w).value);
    ok := good && |present| >= n;
  }

  /** Walk the stack, collecting the members that sign, until an entry is not good. */
  method CollectSigners(ctx: Context, addresses: seq<string>, stack: seq<UnlockWitness>)
    returns (good: bool, present: set<Option<string>>)
    ensures good <==> forall x :: x in stack ==> GoodEntry(ctx, addresses, x)
    ensures good ==> present == Signers(ctx, addresses, stack)
  {
    present := {Canon(ctx.same, addresses, ctx.signer)};
    for i := 0 to |stack|
      invariant present == Signers(ctx, addresses, stack[..i])
      invariant forall x :: x in stack[..i] ==> GoodEntry(ctx, addresses, x)
    {
      var x := stack[i];
      assert stack[..i + 1] == stack[..i] + [x];
      SignersAppend(ctx, addresses, stack[..i], x);
      if !GoodEntry(ctx, addresses, x) {
        assert x in stack;
        return false, present;
      }
      if x.CosignerSig? {
        present := present + {Canon(ctx.same, addresses, ctx.addressOf(x.pubkey))};
      }
    }
    assert stack[..|stack|] == stack;
    good := true;
  }

  lemma {:induction false} SignersAppend(ctx: Context, addresses: seq<string>, stack: seq<UnlockWitness>,
                                         x: UnlockWitness)
    ensures Signers(ctx, addresses, stack + [x]) ==
            Signers(ctx, addresses, stack)
            + (if x.CosignerSig? then {Canon(ctx.same, addresses, ctx.addressOf(x.pubkey))} else {})
  {
  }

  // ----- Evaluation -----

  predicate Eval(ctx: Context, p: Predicate, w: UnlockWitness)
    decreases p, w
  {
    match p
    case PayToAddress(address) => ctx.same(address, ctx.signer) && (w.Signature? || w.Stack?)
    case AbsoluteLock(address, unlockBlue) => ctx.mediaBlue >= unlockBlue && ctx.same(address, ctx.signer)
    case RelativeLock(address, relativeBlues) =>
      && ctx.mediaBlue >=
         (if ctx.createdBlue + relativeBlues > U64_MAX then U64_MAX else ctx.createdBlue + relativeBlues)
      && ctx.same(address, ctx.signer)
    case HashLock(hash) =>
      (match w
       case Preimage(bytes) => ctx.digest(bytes) == hash
       case Stack(items) => |items| == 1 && Eval(ctx, p, items[0])
       case _ => false)
    case And(left, right) =>
      w.Stack? && 2 <= |w.items| <= MAX_STACK && Eval(ctx, left, w.items[0]) && Eval(ctx, right, w.items[1])
    case Or(left, right) =>
      (match w
       case Stack(items) => items != [] && (Eval(ctx, left, items[0]) || Eval(ctx, right, items[0]))
       case Signature => Eval(ctx, left, w) || Eval(ctx, right, w)
       case Preimage(_) => Eval(ctx, left, w) || Eval(ctx, right, w)
       case _ => false)
    case MultiSig(n, addresses) => MultiSigUnlocks(ctx, n, addresses, w)
    case CreditAccount(_) => false
    case AnnulAfter(address, expireBlue) => ctx.mediaBlue < expireBlue && ctx.same(address, ctx.signer)
    case ExactValue(_, inner) => Eval(ctx, inner, w)
    case CommitData(hash) =>
      (match w
       case Preimage(bytes) => ctx.digest(bytes) == hash
       case Stack(items) => |items| == 1 && Eval(ctx, p, items[0])
       case _ => false)
  }

  function Depth(p: Predicate): nat {
    match p
    case And(left, right) => 1 + (if Depth(left) > Depth(right) then Depth(left) else Depth(right))
    case Or(left, right) => 1 + (if Depth(left) > Depth(right) then Depth(left) else Depth(right))
    case ExactValue(_, inner) => 1 + Depth(inner)
    case _ => 1
  }

  /** Evaluation with the nesting bound. */
  predicate Unlocks(ctx: Context, p: Predicate, w: UnlockWitness) {
    Depth(p) <= MAX_PRED_DEPTH && Eval(ctx, p, w)
  }

  // ----- Time -----

  predicate Expires(p: Predicate) {
    match p
    case AnnulAfter(_, _) => true
    case And(left, right) => Expires(left) || Expires(right)
    case Or(left, right) => Expires(left) || Expires(right)
    case ExactValue(_, inner) => Expires(inner)
    case _ => false
  }

  lemma {:induction false} MultiSigIgnoresTime(ctx: Context, later: Context, n: nat, addresses: seq<string>,
                                               w: UnlockWitness)
    requires later == ctx.(mediaBlue := later.mediaBlue)
    ensures MultiSigUnlocks(ctx, n, addresses, w) <==> MultiSigUnlocks(later, n, addresses, w)
  {
    assert forall x :: GoodEntry(ctx, addresses, x) <==> GoodEntry(later, addresses, x);
    if StackOf(w).Some? {
      assert Signers(ctx, addresses, StackOf(w).value) == Signers(later, addresses, StackOf(w).value);
    }
  }

  /** A lock that opens at some score is part of it. */
  predicate Waits(p: Predicate) {
    match p
    case AbsoluteLock(_, _) => true
    case RelativeLock(_, _) => true
    case And(left, right) => Waits(left) || Waits(right)
    case Or(left, right) => Waits(left) || Waits(right)
    case ExactValue(_, inner) => Waits(inner)
    case _ => false
  }

  /** What does not expire and is unlocked at one blue score is unlocked at every later one. */
  lemma {:induction false} StaysUnlocked(ctx: Context, blue: nat, p: Predicate, w: UnlockWitness)
    requires !Expires(p) && Unlocks(ctx, p, w) && ctx.mediaBlue <= blue
    ensures Unlocks(ctx.(mediaBlue := blue), p, w)
  {
    EvalMoves(ctx, blue, p, w);
  }

  /** What does not wait and is unlocked at one blue score was unlocked at every earlier one. */
  lemma {:induction false} WasUnlocked(ctx: Context, blue: nat, p: Predicate, w: UnlockWitness)
    requires !Waits(p) && Unlocks(ctx, p, w) && blue <= ctx.mediaBlue
    ensures Unlocks(ctx.(mediaBlue := blue), p, w)
  {
    EvalMoves(ctx, blue, p, w);
  }

  lemma {:induction false} EvalMoves(ctx: Context, blue: nat, p: Predicate, w: UnlockWitness)
    requires Eval(ctx, p, w)
    requires (!Expires(p) && ctx.mediaBlue <= blue) || (!Waits(p) && blue <= ctx.mediaBlue)
    ensures Eval(ctx.(mediaBlue := blue), p, w)
    decreases p, w
  {
    match p
    case And(left, right) =>
      EvalMoves(ctx, blue, left, w.items[0]);
      EvalMoves(ctx, blue, right, w.items[1]);
    case Or(left, right) =>
      var x := if w.Stack? then w.items[0] else w;
      if Eval(ctx, left, x) {
        EvalMoves(ctx, blue, left, x);
      } else {
        EvalMoves(ctx, blue, right, x);
      }
    case ExactValue(_, inner) => EvalMoves(ctx, blue, inner, w);
    case MultiSig(n, addresses) => MultiSigIgnoresTime(ctx, ctx.(mediaBlue := blue), n, addresses, w);
    case HashLock(_) =>
      if w.Stack? {
        EvalMoves(ctx, blue, p, w.items[0]);
      }
    case CommitData(_) =>
      if w.Stack? {
        EvalMoves(ctx, blue, p, w.items[0]);
      }
    case _ =>
  }

  /** An expiring output and one locked until that score take turns: their owner can spend
      exactly one of the two at any time, and nobody else either of them. */
  lemma {:induction false} ExpiryEndsWhereLockOpens(ctx: Context, address: string, blue: nat, w: UnlockWitness)
    ensures ctx.same(address, ctx.signer) ==>
              (Unlocks(ctx, AnnulAfter(address, blue), w) <==> !Unlocks(ctx, AbsoluteLock(address, blue), w))
    ensures !ctx.same(address, ctx.signer) ==>
              !Unlocks(ctx, AnnulAfter(address, blue), w) && !Unlocks(ctx, AbsoluteLock(address, blue), w)
  {
    assert Depth(AnnulAfter(address, blue)) == Depth(AbsoluteLock(address, blue)) == 1;
  }

  /** A start and an expiry joined: the owner spends from the one up to the other. */
  lemma {:induction false} SpendingWindow(ctx: Context, address: string, start: nat, end: nat, w: UnlockWitness)
    ensures Unlocks(ctx, And(AbsoluteLock(address, start), AnnulAfter(address, end)), w) <==>
            && w.Stack? && 2 <= |w.items| <= MAX_STACK
            && start <= ctx.mediaBlue < end && ctx.same(address, ctx.signer)
  {
    var left, right := AbsoluteLock(address, start), AnnulAfter(address, end);
    assert Depth(left) == 1 && Depth(right) == 1;
    if w.Stack? && 2 <= |w.items| {
      assert Eval(ctx, left, w.items[0]) <==> start <= ctx.mediaBlue && ctx.same(address, ctx.signer);
      assert Eval(ctx, right, w.items[1]) <==> ctx.mediaBlue < end && ctx.same(address, ctx.signer);
    }
  }

  /** A relative lock is the absolute lock that many scores above the output's creation, or at
      the last score there is. */
  lemma {:induction false} RelativeIsAbsolute(ctx: Context, address: string, blues: nat, w: UnlockWitness)
    ensures ctx.createdBlue + blues <= U64_MAX ==>
              (Unlocks(ctx, RelativeLock(address, blues), w) <==>
               Unlocks(ctx, AbsoluteLock(address, ctx.createdBlue + blues), w))
    ensures ctx.createdBlue + blues > U64_MAX ==>
              (Unlocks(ctx, RelativeLock(address, blues), w) <==> Unlocks(ctx, AbsoluteLock(address, U64_MAX), w))
  {
    assert Depth(RelativeLock(address, blues)) == 1;
    assert forall b :: Depth(AbsoluteLock(address, b)) == 1;
  }

  /** Binding a value asks for nothing more than what is inside, and takes one level of nesting. */
  lemma {:induction false} ExactValueIsInner(ctx: Context, value: nat, inner: Predicate, w: UnlockWitness)
    ensures Unlocks(ctx, ExactValue(value, inner), w) <==> Depth(inner) < MAX_PRED_DEPTH && Unlocks(ctx, inner, w)
  {
    assert Depth(ExactValue(value, inner)) == 1 + Depth(inner);
  }

  // ----- Which predicates can be unlocked at all -----

  /** Some witness unlocks `p`. */
  ghost predicate Openable(ctx: Context, p: Predicate) {
    exists w :: Unlocks(ctx, p, w)
  }

  /** Within the nesting bound, whether a predicate can be unlocked is read off as from a
      formula: `And` and `Or` mean what they say, whatever witnesses the parts ask for. */
  lemma {:induction false} OpenableIsBoolean(ctx: Context, left: Predicate, right: Predicate)
    ensures Openable(ctx, And(left, right)) <==>
            Depth(And(left, right)) <= MAX_PRED_DEPTH && Openable(ctx, left) && Openable(ctx, right)
    ensures Openable(ctx, Or(left, right)) <==>
            Depth(Or(left, right)) <= MAX_PRED_DEPTH && (Openable(ctx, left) || Openable(ctx, right))
    ensures Depth(And(left, right)) == Depth(Or(left, right))
    ensures Depth(And(left, right)) <= MAX_PRED_DEPTH <==>
            Depth(left) < MAX_PRED_DEPTH && Depth(right) < MAX_PRED_DEPTH
  {
    if Depth(And(left, right)) <= MAX_PRED_DEPTH {
      AndOpens(ctx, left, right);
      OrOpens(ctx, left, right);
    }
  }

  lemma {:induction false} AndOpens(ctx: Context, left: Predicate, right: Predicate)
    requires Depth(And(left, right)) <= MAX_PRED_DEPTH
    ensures Openable(ctx, And(left, right)) <==> Openable(ctx, left) && Openable(ctx, right)
  {
    if w :| Unlocks(ctx, And(left, right), w) {
      assert Unlocks(ctx, left, w.items[0]) && Unlocks(ctx, right, w.items[1]);
    }
    if Openable(ctx, left) && Openable(ctx, right) {
      var x :| Unlocks(ctx, left, x);
      var y :| Unlocks(ctx, right, y);
      var w := Stack([x, y]);
      assert w.items[0] == x && w.items[1] == y;
      assert Unlocks(ctx, And(left, right), w);
    }
  }

  lemma {:induction false} OrOpens(ctx: Context, left: Predicate, right: Predicate)
    requires Depth(Or(left, right)) <= MAX_PRED_DEPTH
    ensures Openable(ctx, Or(left, right)) <==> Openable(ctx, left) || Openable(ctx, right)
  {
    if w :| Unlocks(ctx, Or(left, right), w) {
      var x := if w.Stack? then w.items[0] else w;
      assert Unlocks(ctx, left, x) || Unlocks(ctx, right, x);
    }
    if x :| Unlocks(ctx, left, x) {
      assert Stack([x]).items[0] == x;
      assert Unlocks(ctx, Or(left, right), Stack([x]));
    }
    if x :| Unlocks(ctx, right, x) {
      assert Stack([x]).items[0] == x;
      assert Unlocks(ctx, Or(left, right), Stack([x]));
    }
  }

  /** What the owner of an output, and nobody else, can do: spend a plain output always, a
      locked one from its score on and an expiring one before its score. */
  lemma {:induction false} OwnerOpens(ctx: Context, address: string, blue: nat)
    ensures Openable(ctx, PayToAddress(address)) <==> ctx.same(address, ctx.signer)
    ensures Openable(ctx, AbsoluteLock(address, blue)) <==> ctx.same(address, ctx.signer) && ctx.mediaBlue >= blue
    ensures Openable(ctx, AnnulAfter(address, blue)) <==> ctx.same(address, ctx.signer) && ctx.mediaBlue < blue
  {
    assert Depth(PayToAddress(address)) == 1 && Depth(AbsoluteLock(address, blue)) == 1;
    assert Depth(AnnulAfter(address, blue)) == 1;
    if ctx.same(address, ctx.signer) {
      assert Unlocks(ctx, PayToAddress(address), Signature);
      assert ctx.mediaBlue >= blue ==> Unlocks(ctx, AbsoluteLock(address, blue), Signature);
      assert ctx.mediaBlue < blue ==> Unlocks(ctx, AnnulAfter(address, blue), Signature);
    }
  }

  // ----- Distinct members -----

  /** `party` signs: as the spender, or with a valid cosignature on the stack. */
  ghost predicate Signs(ctx: Context, party: string, stack: seq<UnlockWitness>) {
    || ctx.same(party, ctx.signer)
    || exists w :: w in stack && w.CosignerSig? && ctx.same(party, ctx.addressOf(w.pubkey))
                   && ctx.sighash.Some? && ctx.verifies(ctx.sighash.value, w.pubkey, w.signature)
  }

  /** The members counted all sign, and no two of them name the same key. */
  lemma {:induction false} CountedMembersSign(ctx: Context, n: nat, addresses: seq<string>, w: UnlockWitness,
                                              k1: Option<string>, k2: Option<string>)
    requires Equivalence(ctx.same) && MultiSigUnlocks(ctx, n, addresses, w)
    requires k1 in Signers(ctx, addresses, StackOf(w).value) && k2 in Signers(ctx, addresses, StackOf(w).value)
    ensures k1.Some? && k1.value in addresses && Signs(ctx, k1.value, StackOf(w).value)
    ensures k2.Some? && (k1 != k2 ==> !ctx.same(k1.value, k2.value))
  {
    var a1 := SignerAddress(ctx, addresses, StackOf(w).value, k1);
    var a2 := SignerAddress(ctx, addresses, StackOf(w).value, k2);
    if ctx.same(k1.value, k2.value) {
      assert ctx.same(k1.value, a1) && ctx.same(k2.value, a2);
      assert ctx.same(a1, k1.value) && ctx.same(a1, k2.value) && ctx.same(a1, a2);
      CanonSame(ctx.same, addresses, a1, a2);
    }
  }

  /** Equivalent addresses have the same canonical entry. */
  lemma {:induction false} CanonSame(same: (string, string) -> bool, addresses: seq<string>, a: string, b: string)
    requires Equivalence(same) && same(a, b)
    ensures Canon(same, addresses, a) == Canon(same, addresses, b)
  {
    if addresses != [] {
      assert same(b, a);
      assert same(addresses[0], a) <==> same(addresses[0], b);
      CanonSame(same, addresses[1..], a, b);
    }
  }

  lemma {:induction false} SignerAddress(ctx: Context, addresses: seq<string>, stack: seq<UnlockWitness>,
                                         k: Option<string>) returns (a: string)
    requires k in Signers(ctx, addresses, stack) && Canon(ctx.same, addresses, ctx.signer).Some?
    requires forall x :: x in stack ==> GoodEntry(ctx, addresses, x)
    ensures k == Canon(ctx.same, addresses, a) && k.Some? && Signs(ctx, k.value, stack)
  {
    if k == Canon(ctx.same, addresses, ctx.signer) {
      a := ctx.signer;
    } else {
      var w :| w in stack && w.CosignerSig? && k == Canon(ctx.same, addresses, ctx.addressOf(w.pubkey));
      assert GoodEntry(ctx, addresses, w);
      a := ctx.addressOf(w.pubkey);
    }
  }

  /** Whatever is on the stack of a multisignature that unlocks is a bare marker, or a key of the
      right size that belongs to the set with a signature of the right size over this
      transaction; and there are at most sixteen such entries. */
  lemma {:induction false} StackIsClean(ctx: Context, n: nat, addresses: seq<string>, w: UnlockWitness,
                                        x: UnlockWitness)
    requires MultiSigUnlocks(ctx, n, addresses, w)
    ensures w.Signature? || w.Stack?
    ensures w.Stack? ==> |w.items| <= 16
    ensures w.Stack? && x in w.items ==>
              || x.Signature?
              || (x.CosignerSig? && |x.pubkey| == 2592 && |x.signature| == 4627
                  && (exists a :: a in addresses && ctx.same(a, ctx.addressOf(x.pubkey)))
                  && ctx.sighash.Some? && ctx.verifies(ctx.sighash.value, x.pubkey, x.signature))
  {
    if w.Stack? && x in w.items {
      assert GoodEntry(ctx, addresses, x);
    }
  }

  // ----- How many members sign -----

  /** Members of the set that name different keys and all sign. */
  ghost predicate Quorum(ctx: Context, addresses: seq<string>, stack: seq<UnlockWitness>, members: seq<string>) {
    && (forall i :: 0 <= i < |members| ==> members[i] in addresses && Signs(ctx, members[i], stack))
    && (forall i, j :: 0 <= i < j < |members| ==> !ctx.same(members[i], members[j]))
  }

  /** Everything a multisignature asks for besides the number of members. */
  ghost predicate Orderly(ctx: Context, addresses: seq<string>, w: UnlockWitness) {
    && (exists a :: a in addresses && ctx.same(a, ctx.signer)) && ctx.sighash.Some? && StackOf(w).Some?
    && forall x :: x in StackOf(w).value ==> GoodEntry(ctx, addresses, x)
  }

  lemma {:induction false} Pick(s: set<Option<string>>, n: nat) returns (r: seq<Option<string>>)
    requires n <= |s|
    ensures |r| == n && (forall i :: 0 <= i < n ==> r[i] in s) && forall i, j :: 0 <= i < j < n ==> r[i] != r[j]
  {
    r := [];
    if n > 0 {
      var x :| x in s;
      var rest := Pick(s - {x}, n - 1);
      r := [x] + rest;
    }
  }

  lemma {:induction false} SignerIsCounted(ctx: Context, addresses: seq<string>, stack: seq<UnlockWitness>,
                                           member: string)
    requires Equivalence(ctx.same) && member in addresses && Signs(ctx, member, stack)
    ensures Canon(ctx.same, addresses, member) in Signers(ctx, addresses, stack)
  {
    if ctx.same(member, ctx.signer) {
      CanonSame(ctx.same, addresses, member, ctx.signer);
    } else {
      var w :| w in stack && w.CosignerSig? && ctx.same(member, ctx.addressOf(w.pubkey))
               && ctx.sighash.Some? && ctx.verifies(ctx.sighash.value, w.pubkey, w.signature);
      CanonSame(ctx.same, addresses, member, ctx.addressOf(w.pubkey));
    }
  }

  /** Different members count separately. */
  lemma {:induction false} QuorumIsCounted(ctx: Context, addresses: seq<string>, stack: seq<UnlockWitness>,
                                           members: seq<string>) returns (keys: set<Option<string>>)
    requires Equivalence(ctx.same) && Quorum(ctx, addresses, stack, members)
    ensures |keys| == |members| && keys <= Signers(ctx, addresses, stack)
    ensures forall k :: k in keys ==> exists i :: 0 <= i < |members| && k == Canon(ctx.same, addresses, members[i])
  {
    keys := {};
    if members != [] {
      var k := |members| - 1;
      var before := QuorumIsCounted(ctx, addresses, stack, members[..k]);
      SignerIsCounted(ctx, addresses, stack, members[k]);
      var key := Canon(ctx.same, addresses, members[k]);
      forall i | 0 <= i < k
        ensures Canon(ctx.same, addresses, members[i]) != key
      {
        if Canon(ctx.same, addresses, members[i]) == key {
          SameCanon(ctx.same, addresses, members[i], members[k]);
        }
      }
      assert key !in before;
      keys := before + {key};
      forall x | x in keys
        ensures exists i :: 0 <= i < |members| && x == Canon(ctx.same, addresses, members[i])
      {
        if x in before {
          var i :| 0 <= i < k && x == Canon(ctx.same, addresses, members[..k][i]);
          assert x == Canon(ctx.same, addresses, members[i]);
        }
      }
    }
  }

  /** Members with one canonical entry name one key. */
  lemma {:induction false} SameCanon(same: (string, string) -> bool, addresses: seq<string>, a: string, b: string)
    requires Equivalence(same) && a in addresses && Canon(same, addresses, a) == Canon(same, addresses, b)
    ensures same(a, b)
  {
    assert same(a, a);
    var c := Canon(same, addresses, a).value;
    assert same(c, a) && same(c, b) && same(a, c);
  }

  lemma {:induction false} CountedIsQuorum(ctx: Context, n: nat, addresses: seq<string>, w: UnlockWitness)
    returns (members: seq<string>)
    requires Equivalence(ctx.same) && MultiSigUnlocks(ctx, n, addresses, w)
    ensures |members| == n && Quorum(ctx, addresses, StackOf(w).value, members)
  {
    var keys := Pick(Signers(ctx, addresses, StackOf(w).value), n);
    forall i, j | 0 <= i < n && 0 <= j < n
      ensures keys[i].Some? && keys[i].value in addresses && Signs(ctx, keys[i].value, StackOf(w).value)
      ensures keys[j].Some? && (keys[i] != keys[j] ==> !ctx.same(keys[i].value, keys[j].value))
    {
      CountedMembersSign(ctx, n, addresses, w, keys[i], keys[j]);
    }
    members := seq(n, i requires 0 <= i < n => keys[i].value);
  }

  /** A multisignature unlocks exactly when the stack is in order, the spender is a member and
      `n` members that name different keys sign; `n` is at least one and at most the number
      of addresses. */
  lemma {:induction false} MultiSigCounts(ctx: Context, n: nat, addresses: seq<string>, w: UnlockWitness)
    requires Equivalence(ctx.same)
    ensures MultiSigUnlocks(ctx, n, addresses, w) <==>
            && 1 <= n <= |addresses| && Orderly(ctx, addresses, w)
            && exists members: seq<string> :: |members| == n && Quorum(ctx, addresses, StackOf(w).value, members)
  {
    if MultiSigUnlocks(ctx, n, addresses, w) {
      var members := CountedIsQuorum(ctx, n, addresses, w);
    } else if Orderly(ctx, addresses, w) && 1 <= n <= |addresses| {
      if members: seq<string> :| |members| == n && Quorum(ctx, addresses, StackOf(w).value, members) {
        var keys := QuorumIsCounted(ctx, addresses, StackOf(w).value, members);
        FewerKeys(keys, Signers(ctx, addresses, StackOf(w).value));
        assert false;
      }
    }
  }

  lemma {:induction false} FewerKeys(a: set<Option<string>>, b: set<Option<string>>)
    requires a <= b
    ensures |a| <= |b|
  {
    assert b == a + (b - a);
  }

  // ----- Two of two -----

  /** Both parties sign, and they are not one. */
  ghost predicate BothSign(ctx: Context, x: string, y: string, w: UnlockWitness) {
    && !ctx.same(x, y) && ctx.sighash.Some? && StackOf(w).Some?
    && (ctx.same(x, ctx.signer) || ctx.same(y, ctx.signer))
    && (forall e :: e in StackOf(w).value ==> GoodEntry(ctx, [x, y], e))
    && Signs(ctx, x, StackOf(w).value) && Signs(ctx, y, StackOf(w).value)
  }

  lemma {:induction false} CanonOfTwo(ctx: Context, x: string, y: string, addr: string)
    ensures Canon(ctx.same, [x, y], addr) ==
            if ctx.same(x, addr) then Some(x) else if ctx.same(y, addr) then Some(y) else None
  {
    assert [x, y][1..] == [y] && [y][1..] == [];
  }

  /** A two-of-two multisignature unlocks exactly when both parties sign. */
  lemma {:induction false} TwoOfTwo(ctx: Context, x: string, y: string, w: UnlockWitness)
    requires Equivalence(ctx.same)
    ensures MultiSigUnlocks(ctx, 2, [x, y], w) <==> BothSign(ctx, x, y, w)
  {
    CanonOfTwo(ctx, x, y, ctx.signer);
    if StackOf(w).Some? && Canon(ctx.same, [x, y], ctx.signer).Some? && ctx.sighash.Some?
       && (forall e :: e in StackOf(w).value ==> GoodEntry(ctx, [x, y], e))
    {
      CountTwo(ctx, x, y, StackOf(w).value);
    }
  }

  lemma {:induction false} CountTwo(ctx: Context, x: string, y: string, stack: seq<UnlockWitness>)
    requires Equivalence(ctx.same) && Canon(ctx.same, [x, y], ctx.signer).Some? && ctx.sighash.Some?
    requires forall e :: e in stack ==> GoodEntry(ctx, [x, y], e)
    ensures |Signers(ctx, [x, y], stack)| >= 2 <==> !ctx.same(x, y) && Signs(ctx, x, stack) && Signs(ctx, y, stack)
  {
    var s := Signers(ctx, [x, y], stack);
    assert s <= {Some(x), Some(y)} by {
      forall k | k in s
        ensures k == Some(x) || k == Some(y)
      {
        var a := SignerAddress(ctx, [x, y], stack, k);
        CanonOfTwo(ctx, x, y, a);
      }
    }
    CountedX(ctx, x, y, stack);
    CountedY(ctx, x, y, stack);
    TwoMembers(s, Some(x), Some(y));
    assert ctx.same(x, x);
  }

  lemma {:induction false} TwoMembers(s: set<Option<string>>, x: Option<string>, y: Option<string>)
    requires s <= {x, y}
    ensures |s| >= 2 <==> x != y && x in s && y in s
  {
    if x != y && x in s && y in s {
      assert s == {x, y};
    } else if x in s && y !in s {
      assert s == {x};
    } else if x !in s && y in s {
      assert s == {y};
    } else if x in s {
      assert s == {x};
    } else {
      assert s == {};
    }
  }

  lemma {:induction false} CountedX(ctx: Context, x: string, y: string, stack: seq<UnlockWitness>)
    requires Equivalence(ctx.same) && Canon(ctx.same, [x, y], ctx.signer).Some? && ctx.sighash.Some?
    requires forall e :: e in stack ==> GoodEntry(ctx, [x, y], e)
    ensures Signs(ctx, x, stack) ==> Some(x) in Signers(ctx, [x, y], stack)
    ensures !ctx.same(x, y) && Some(x) in Signers(ctx, [x, y], stack) ==> Signs(ctx, x, stack)
  {
    if Signs(ctx, x, stack) && !ctx.same(x, ctx.signer) {
      var w :| w in stack && w.CosignerSig? && ctx.same(x, ctx.addressOf(w.pubkey))
               && ctx.sighash.Some? && ctx.verifies(ctx.sighash.value, w.pubkey, w.signature);
      CanonOfTwo(ctx, x, y, ctx.addressOf(w.pubkey));
      assert Some(x) in Signers(ctx, [x, y], stack);
    }
    CanonOfTwo(ctx, x, y, ctx.signer);
    if Some(x) in Signers(ctx, [x, y], stack) {
      var a := SignerAddress(ctx, [x, y], stack, Some(x));
    }
  }

  lemma {:induction false} CountedY(ctx: Context, x: string, y: string, stack: seq<UnlockWitness>)
    requires Equivalence(ctx.same) && Canon(ctx.same, [x, y], ctx.signer).Some? && ctx.sighash.Some?
    requires forall e :: e in stack ==> GoodEntry(ctx, [x, y], e)
    ensures !ctx.same(x, y) ==> (Signs(ctx, y, stack) <==> Some(y) in Signers(ctx, [x, y], stack))
    ensures ctx.same(x, y) && x != y ==> Some(y) !in Signers(ctx, [x, y], stack)
  {
  }

  // ----- Hash locks -----

  /** The bytes under `n` stacks of one item each. */
  function Wrapped(bytes: seq<nat>, n: nat): UnlockWitness {
    if n == 0 then Preimage(bytes) else Stack([Wrapped(bytes, n - 1)])
  }

  /** The witness is a preimage of `hash`, however deep it is wrapped. */
  ghost predicate Reveals(digest: seq<nat> -> Hash, hash: Hash, w: UnlockWitness) {
    exists bytes, n: nat :: w == Wrapped(bytes, n) && digest(bytes) == hash
  }

  lemma {:induction false} RevealsWrapped(digest: seq<nat> -> Hash, hash: Hash, w: UnlockWitness)
    ensures Reveals(digest, hash, Stack([w])) <==> Reveals(digest, hash, w)
  {
    if Reveals(digest, hash, Stack([w])) {
      var bytes, n: nat :| Stack([w]) == Wrapped(bytes, n) && digest(bytes) == hash;
      assert Stack([w]).items[0] == Wrapped(bytes, n - 1);
    }
    if Reveals(digest, hash, w) {
      var bytes, n: nat :| w == Wrapped(bytes, n) && digest(bytes) == hash;
      assert Stack([w]) == Wrapped(bytes, n + 1);
    }
  }

  /** The witnesses that open a hash lock are the wrapped preimages of its hash, and no
      others; who signs and when does not matter. */
  lemma {:induction false} HashLockAsksPreimage(ctx: Context, hash: Hash, w: UnlockWitness)
    ensures Unlocks(ctx, HashLock(hash), w) <==> Reveals(ctx.digest, hash, w)
    ensures Unlocks(ctx, CommitData(hash), w) <==> Reveals(ctx.digest, hash, w)
    decreases w
  {
    assert Depth(HashLock(hash)) == 1 && Depth(CommitData(hash)) == 1;
    match w
    case Preimage(bytes) =>
      assert w == Wrapped(bytes, 0);
    case Stack(items) =>
      if |items| == 1 {
        HashLockAsksPreimage(ctx, hash, items[0]);
        RevealsWrapped(ctx.digest, hash, items[0]);
        assert items == [items[0]];
      }
    case _ =>
  }

  /** Built from hash locks and data commitments. */
  predicate Keyless(p: Predicate) {
    match p
    case HashLock(_) => true
    case CommitData(_) => true
    case And(left, right) => Keyless(left) && Keyless(right)
    case Or(left, right) => Keyless(left) && Keyless(right)
    case ExactValue(_, inner) => Keyless(inner)
    case _ => false
  }

  /** Such a predicate gives every spender, at every score and under every message, the same
      answer to the same witness. */
  lemma {:induction false} KeylessForAnyone(ctx: Context, other: Context, p: Predicate, w: UnlockWitness)
    requires Keyless(p) && ctx.digest == other.digest
    ensures Unlocks(ctx, p, w) <==> Unlocks(other, p, w)
  {
    KeylessEval(ctx, other, p, w);
  }

  lemma {:induction false} KeylessEval(ctx: Context, other: Context, p: Predicate, w: UnlockWitness)
    requires Keyless(p) && ctx.digest == other.digest
    ensures Eval(ctx, p, w) <==> Eval(other, p, w)
    decreases p
  {
    match p
    case HashLock(hash) =>
      HashLockAsksPreimage(ctx, hash, w);
      HashLockAsksPreimage(other, hash, w);
    case CommitData(hash) =>
      HashLockAsksPreimage(ctx, hash, w);
      HashLockAsksPreimage(other, hash, w);
    case And(left, right) =>
      if w.Stack? && |w.items| >= 2 {
        KeylessEval(ctx, other, left, w.items[0]);
        KeylessEval(ctx, other, right, w.items[1]);
      }
    case Or(left, right) =>
      var x := if w.Stack? && w.items != [] then w.items[0] else w;
      KeylessEval(ctx, other, left, x);
      KeylessEval(ctx, other, right, x);
    case ExactValue(_, inner) =>
      KeylessEval(ctx, other, inner, w);
  }

  /** A hash lock together with an address asks for the preimage and the owner, for every
      witness. */
  lemma {:induction false} OwnedHashLock(ctx: Context, hash: Hash, address: string, w: UnlockWitness)
    ensures Unlocks(ctx, And(HashLock(hash), PayToAddress(address)), w) <==>
            && w.Stack? && 2 <= |w.items| <= MAX_STACK && Reveals(ctx.digest, hash, w.items[0])
            && ctx.same(address, ctx.signer) && (w.items[1].Signature? || w.items[1].Stack?)
  {
    var left, right := HashLock(hash), PayToAddress(address);
    assert Depth(left) == 1 && Depth(right) == 1;
    if w.Stack? && |w.items| >= 2 {
      HashLockAsksPreimage(ctx, hash, w.items[0]);
      assert Eval(ctx, And(left, right), w) <==>
        |w.items| <= MAX_STACK && Eval(ctx, left, w.items[0]) && Eval(ctx, right, w.items[1]);
    }
  }

  /** No witness ever spends an account credit, alone or joined to anything by `And`. */
  lemma {:induction false} CreditIsNeverSpent(ctx: Context, address: string, other: Predicate, w: UnlockWitness)
    ensures !Unlocks(ctx, CreditAccount(address), w)
    ensures !Unlocks(ctx, And(CreditAccount(address), other), w) && !Unlocks(ctx, And(other, CreditAccount(address)), w)
  {
    if w.Stack? && |w.items| >= 2 {
      assert !Eval(ctx, CreditAccount(address), w.items[0]) && !Eval(ctx, CreditAccount(address), w.items[1]);
    }
  }
}
