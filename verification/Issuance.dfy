/** The issuance schedule (src/genesis.rs). */
module Issuance {
  import opened BlockEffects

  /** Scheduled issuance for blue scores below `n`. */
  ghost function ScheduledTo(n: nat): nat {
    if n == 0 then 0 else ScheduledTo(n - 1) + BlockSubsidy(n - 1)
  }

  lemma {:induction false} HalvedBound(n: nat, bits: nat, limit: nat)
    requires bits <= 33 && limit == PowerOf2(33 - bits) && n >= bits
    ensures Halved(BLOCK_REWARD, n) < limit || Halved(BLOCK_REWARD, n) == 0
    decreases n
  {
    if n == 0 {
      PowerOf33();
    } else if bits > 0 {
      HalvedBound(n - 1, bits - 1, PowerOf2(33 - (bits - 1)));
    } else {
      HalvedBound(n - 1, 0, limit);
    }
  }

  ghost function PowerOf2(n: nat): nat {
    if n == 0 then 1 else 2 * PowerOf2(n - 1)
  }

  lemma {:induction false} PowerOf33()
    ensures PowerOf2(33) == 0x2_0000_0000
  {
    assert PowerOf2(8) == 256;
    assert PowerOf2(16) == 0x1_0000;
    assert PowerOf2(24) == 0x100_0000;
    assert PowerOf2(32) == 0x1_0000_0000;
  }

  /** After 33 halvings nothing is left. */
  lemma {:induction false} HalvedToNothing(n: nat)
    requires n >= 33
    ensures Halved(BLOCK_REWARD, n) == 0
  {
    HalvedBound(n, 33, 1);
  }

  /** The subsidy is the halved reward; the cut-off at 128 halvings changes nothing. */
  lemma {:induction false} SubsidyInEra(h: nat, k: nat)
    requires k < HALVING_INTERVAL
    ensures BlockSubsidy(h * HALVING_INTERVAL + k) == Halved(BLOCK_REWARD, h)
  {
    assert (h * HALVING_INTERVAL + k) / HALVING_INTERVAL == h;
    if h >= 128 {
      HalvedToNothing(h);
    }
  }

  lemma {:induction false} EraSum(h: nat, k: nat)
    requires k <= HALVING_INTERVAL
    ensures ScheduledTo(h * HALVING_INTERVAL + k) == ScheduledTo(h * HALVING_INTERVAL) + k * Halved(BLOCK_REWARD, h)
  {
    if k > 0 {
      EraSum(h, k - 1);
      SubsidyInEra(h, k - 1);
      assert h * HALVING_INTERVAL + k - 1 == h * HALVING_INTERVAL + (k - 1);
      assert k * Halved(BLOCK_REWARD, h) == (k - 1) * Halved(BLOCK_REWARD, h) + Halved(BLOCK_REWARD, h);
    }
  }

  /** Once the reward is zero, the schedule is over. */
  lemma {:induction false} NothingMore(h: nat, n: nat)
    requires Halved(BLOCK_REWARD, h) == 0 && n >= h * HALVING_INTERVAL
    ensures ScheduledTo(n) == ScheduledTo(h * HALVING_INTERVAL)
    decreases n
  {
    if n > h * HALVING_INTERVAL {
      NothingMore(h, n - 1);
      var g, k := (n - 1) / HALVING_INTERVAL, (n - 1) % HALVING_INTERVAL;
      SubsidyInEra(g, k);
      StaysZero(h, g);
    }
  }

  lemma {:induction false} StaysZero(h: nat, g: nat)
    requires h <= g && Halved(BLOCK_REWARD, h) == 0
    ensures Halved(BLOCK_REWARD, g) == 0
    decreases g
  {
    if h < g {
      StaysZero(h, g - 1);
    }
  }

  /** What the loop computes is the sum of the subsidies, and the cap never binds. */
  method CumulativeIssuance(upTo: nat) returns (total: nat)
    ensures total == ScheduledTo(upTo) <= MAX_SUPPLY
  {
    total := 0;
    var remaining, reward := upTo, BLOCK_REWARD;
    ghost var h := 0;
    while remaining > 0 && reward > 0
      invariant 0 <= remaining <= upTo
      invariant reward == Halved(BLOCK_REWARD, h)
      invariant remaining > 0 ==> upTo - remaining == h * HALVING_INTERVAL
      invariant total == ScheduledTo(upTo - remaining)
      invariant total + 2 * reward * HALVING_INTERVAL <= MAX_SUPPLY
    {
      var take := if remaining < HALVING_INTERVAL then remaining else HALVING_INTERVAL;
      EraSum(h, take);
      EraFits(total, reward, take);
      total := total + reward * take;
      remaining := remaining - take;
      reward := reward / 2;
      h := h + 1;
    }
    if remaining > 0 {
      NothingMore(h, upTo);
    }
    if total > MAX_SUPPLY {
      assert false;
    }
  }

  lemma {:induction false} EraFits(total: nat, reward: nat, take: nat)
    requires take <= HALVING_INTERVAL && total + 2 * reward * HALVING_INTERVAL <= MAX_SUPPLY
    ensures total + reward * take + 2 * (reward / 2) * HALVING_INTERVAL <= MAX_SUPPLY
  {
    assert reward * take <= reward * HALVING_INTERVAL;
  }
}
