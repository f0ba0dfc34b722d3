/** The escrow vault (src/bdpe.rs): a two-of-two multisignature of buyer and seller, or the
    buyer alone from a blue score on. */
module Vault {
  import opened Types
  import opened Spending
  import Fingerprint

  function VaultPredicate(buyer: string, seller: string, timeoutBlue: nat): Predicate {
    Or(MultiSig(2, [buyer, seller]), AbsoluteLock(buyer, timeoutBlue))
  }

  datatype Terms = Terms(buyer: string, seller: string, timeoutBlue: nat)

  /** Recognise a vault; the buyer is the party of the timeout, in either multisignature place. */
  function ParseVault(same: (string, string) -> bool, p: Predicate): Option<Terms> {
    match p
    case Or(MultiSig(n, addresses), AbsoluteLock(buyer, unlockBlue)) =>
      if n != 2 || |addresses| != 2 then None
      else if same(addresses[0], buyer) then Some(Terms(buyer, addresses[1], unlockBlue))
      else if same(addresses[1], buyer) then Some(Terms(buyer, addresses[0], unlockBlue))
      else None
    case _ => None
  }

  /** The part of a witness that reaches the branches of a vault. */
  function Inner(w: UnlockWitness): Option<UnlockWitness> {
    match w
    case Stack(items) => if items == [] then None else Some(items[0])
    case Signature => Some(w)
    case Preimage(_) => Some(w)
    case _ => None
  }

  lemma {:induction false} ShapeUnlocks(ctx: Context, addresses: seq<string>, buyer: string, timeoutBlue: nat,
                                        w: UnlockWitness)
    ensures Unlocks(ctx, Or(MultiSig(2, addresses), AbsoluteLock(buyer, timeoutBlue)), w) <==>
            Inner(w).Some? && (MultiSigUnlocks(ctx, 2, addresses, Inner(w).value)
                               || (ctx.same(buyer, ctx.signer) && ctx.mediaBlue >= timeoutBlue))
  {
    var left, right := MultiSig(2, addresses), AbsoluteLock(buyer, timeoutBlue);
    assert Depth(left) == 1 && Depth(right) == 1;
    if Inner(w).Some? {
      var v := Inner(w).value;
      assert Eval(ctx, left, v) <==> MultiSigUnlocks(ctx, 2, addresses, v);
      assert Eval(ctx, right, v) <==> ctx.same(buyer, ctx.signer) && ctx.mediaBlue >= timeoutBlue;
      assert Eval(ctx, Or(left, right), w) <==> Eval(ctx, left, v) || Eval(ctx, right, v);
    }
  }

  /** For every witness tree: a vault unlocks exactly when both parties sign in what reaches
      its branches, or the buyer spends at or after the timeout. */
  lemma {:induction false} VaultUnlocks(ctx: Context, buyer: string, seller: string, timeoutBlue: nat, w: UnlockWitness)
    requires Equivalence(ctx.same)
    ensures Unlocks(ctx, VaultPredicate(buyer, seller, timeoutBlue), w) <==>
            Inner(w).Some? && (BothSign(ctx, buyer, seller, Inner(w).value)
                               || (ctx.same(buyer, ctx.signer) && ctx.mediaBlue >= timeoutBlue))
  {
    ShapeUnlocks(ctx, [buyer, seller], buyer, timeoutBlue, w);
    if Inner(w).Some? {
      TwoOfTwo(ctx, buyer, seller, Inner(w).value);
    }
  }

  /** A key of `party` with a signature over the sighash exists. */
  ghost predicate CanCosign(ctx: Context, party: string) {
    ctx.sighash.Some? && exists pubkey, signature ::
      && |pubkey| == PQ_PUBLIC_KEY_SIZE && |signature| == PQ_SIGNATURE_SIZE
      && ctx.same(party, ctx.addressOf(pubkey)) && ctx.verifies(ctx.sighash.value, pubkey, signature)
  }

  /** One party spends and the other can cosign. */
  ghost predicate Cooperate(ctx: Context, buyer: string, seller: string) {
    && !ctx.same(buyer, seller)
    && ((ctx.same(buyer, ctx.signer) && CanCosign(ctx, seller))
        || (ctx.same(seller, ctx.signer) && CanCosign(ctx, buyer)))
  }

  /** Some witness unlocks a vault exactly when the parties cooperate or the buyer spends at or
      after the timeout: neither party alone, and nobody else ever. */
  lemma {:induction false} VaultIsUnlockable(ctx: Context, buyer: string, seller: string, timeoutBlue: nat)
    requires Equivalence(ctx.same)
    ensures (exists w :: Unlocks(ctx, VaultPredicate(buyer, seller, timeoutBlue), w)) <==>
            Cooperate(ctx, buyer, seller) || (ctx.same(buyer, ctx.signer) && ctx.mediaBlue >= timeoutBlue)
  {
    var p := VaultPredicate(buyer, seller, timeoutBlue);
    if exists w :: Unlocks(ctx, p, w) {
      var w :| Unlocks(ctx, p, w);
      VaultUnlocks(ctx, buyer, seller, timeoutBlue, w);
      if BothSign(ctx, buyer, seller, Inner(w).value) {
        SigningIsCooperation(ctx, buyer, seller, Inner(w).value);
      }
    }
    if ctx.same(buyer, ctx.signer) && ctx.mediaBlue >= timeoutBlue {
      VaultUnlocks(ctx, buyer, seller, timeoutBlue, Signature);
      assert Unlocks(ctx, p, Signature);
    } else if Cooperate(ctx, buyer, seller) {
      var w := CooperationIsSigning(ctx, buyer, seller);
      VaultUnlocks(ctx, buyer, seller, timeoutBlue, Stack([w]));
      assert Unlocks(ctx, p, Stack([w]));
    }
  }

  lemma {:induction false} SigningIsCooperation(ctx: Context, buyer: string, seller: string, w: UnlockWitness)
    requires Equivalence(ctx.same) && BothSign(ctx, buyer, seller, w)
    ensures Cooperate(ctx, buyer, seller)
  {
    var party := if ctx.same(buyer, ctx.signer) then seller else buyer;
    assert ctx.same(seller, ctx.signer) ==> ctx.same(ctx.signer, seller);
    assert !ctx.same(party, ctx.signer);
    var e :| e in StackOf(w).value && e.CosignerSig? && ctx.same(party, ctx.addressOf(e.pubkey))
             && ctx.sighash.Some? && ctx.verifies(ctx.sighash.value, e.pubkey, e.signature);
    assert GoodEntry(ctx, [buyer, seller], e);
  }

  /** The witness the two parties can build together. */
  lemma {:induction false} CooperationIsSigning(ctx: Context, buyer: string, seller: string) returns (w: UnlockWitness)
    requires Equivalence(ctx.same) && Cooperate(ctx, buyer, seller)
    ensures BothSign(ctx, buyer, seller, w)
  {
    var party := if ctx.same(buyer, ctx.signer) && CanCosign(ctx, seller) then seller else buyer;
    var pubkey, signature :| && |pubkey| == PQ_PUBLIC_KEY_SIZE && |signature| == PQ_SIGNATURE_SIZE
      && ctx.same(party, ctx.addressOf(pubkey)) && ctx.verifies(ctx.sighash.value, pubkey, signature);
    var e := CosignerSig(pubkey, signature);
    CanonOfTwo(ctx, buyer, seller, ctx.addressOf(pubkey));
    w := Stack([e]);
    assert e in StackOf(w).value;
    assert GoodEntry(ctx, [buyer, seller], e);
  }

  /** Whatever is recognised as a vault unlocks exactly as the vault it is recognised as. */
  lemma {:induction false} RecognisedIsVault(ctx: Context, p: Predicate, w: UnlockWitness)
    requires Equivalence(ctx.same) && ParseVault(ctx.same, p).Some?
    ensures var t := ParseVault(ctx.same, p).value;
            Unlocks(ctx, p, w) <==> Unlocks(ctx, VaultPredicate(t.buyer, t.seller, t.timeoutBlue), w)
  {
    var t := ParseVault(ctx.same, p).value;
    var addresses := p.left.addresses;
    var x, y := addresses[0], addresses[1];
    assert addresses == [x, y];
    ShapeUnlocks(ctx, [x, y], t.buyer, t.timeoutBlue, w);
    ShapeUnlocks(ctx, [t.buyer, t.seller], t.buyer, t.timeoutBlue, w);
    if Inner(w).Some? {
      var v := Inner(w).value;
      TwoOfTwo(ctx, x, y, v);
      TwoOfTwo(ctx, t.buyer, t.seller, v);
      if ctx.same(x, t.buyer) {
        SameParties(ctx, x, y, t.buyer, y, v);
      } else {
        SameParties(ctx, y, x, t.buyer, x, v);
        Swapped(ctx, x, y, v);
      }
    }
  }

  lemma {:induction false} Swapped(ctx: Context, x: string, y: string, w: UnlockWitness)
    requires Equivalence(ctx.same)
    ensures BothSign(ctx, x, y, w) <==> BothSign(ctx, y, x, w)
  {
    assert ctx.same(x, y) <==> ctx.same(y, x);
    forall e
      ensures GoodEntry(ctx, [x, y], e) <==> GoodEntry(ctx, [y, x], e)
    {
      if e.CosignerSig? {
        CanonOfTwo(ctx, x, y, ctx.addressOf(e.pubkey));
        CanonOfTwo(ctx, y, x, ctx.addressOf(e.pubkey));
      }
    }
  }

  /** Replacing a party by another name of the same key changes nothing. */
  lemma {:induction false} SameParties(ctx: Context, x: string, y: string, x2: string, y2: string, w: UnlockWitness)
    requires Equivalence(ctx.same) && ctx.same(x, x2) && y == y2
    ensures BothSign(ctx, x, y, w) <==> BothSign(ctx, x2, y2, w)
  {
    forall a
      ensures ctx.same(x, a) <==> ctx.same(x2, a)
    {
      assert ctx.same(x2, x);
    }
    forall e
      ensures GoodEntry(ctx, [x, y], e) <==> GoodEntry(ctx, [x2, y2], e)
    {
      if e.CosignerSig? {
        CanonOfTwo(ctx, x, y, ctx.addressOf(e.pubkey));
        CanonOfTwo(ctx, x2, y2, ctx.addressOf(e.pubkey));
      }
    }
  }

  /** Building and recognising a vault. */
  lemma {:induction false} VaultIsRecognised(same: (string, string) -> bool, buyer: string, seller: string,
                                             timeoutBlue: nat)
    requires Equivalence(same)
    ensures ParseVault(same, VaultPredicate(buyer, seller, timeoutBlue)) == Some(Terms(buyer, seller, timeoutBlue))
  {
    assert same(buyer, buyer);
  }

  /** Naming the same key, as the address module decides it, is such an equivalence. */
  lemma {:induction false} AddressesAreEquivalence(same: (string, string) -> bool)
    requires forall a, b {:trigger same(a, b)} :: same(a, b) <==> Fingerprint.Equivalent(a, b)
    ensures Equivalence(same)
  {
    forall a, b, c
      ensures same(a, a) && (same(a, b) ==> same(b, a)) && (same(a, b) && same(b, c) ==> same(a, c))
    {
      Fingerprint.EquivalentIsEquivalence(a, b, c);
    }
  }
}
