/** Replaying blocks over a ledger in canonical order, and what a consistent chain state is.
    The effect of a block's body is a parameter: every theorem here holds for any
    deterministic body semantics. */
module Replay {
  import opened Types
  import opened Lists
  import opened Dag
  import opened Ghostdag
  import opened Canonical

  const FINALITY_DEPTH: nat := 432_000

  /** `apply` replays a block and skips what no longer applies; `admit` applies a new block
      and fails if anything does not apply; both take the block's own blue score. `commit` is
      the state root and `floor` the least difficulty while a ledger is live. */
  datatype Semantics = Semantics(
    apply: (Ledger, Block, nat) -> Ledger,
    admit: (Ledger, Block, nat) -> Option<Ledger>,
    commit: Ledger -> Hash,
    floor: Ledger -> nat)

  /** Strict admission, when it succeeds, does what replay does. */
  ghost predicate Lawful(sem: Semantics) {
    forall l, b, s :: sem.admit(l, b, s).Some? ==> sem.admit(l, b, s).value == sem.apply(l, b, s)
  }

  /** One block's effect; genesis has none. */
  function Effect(sem: Semantics, l: Ledger, b: Block, score: nat): Ledger {
    if b.parents == [] then l else sem.apply(l, b, score)
  }

  ghost predicate Held(dag: BlockDag, gd: Coloring, order: seq<Hash>) {
    forall h :: h in order ==> h in dag && h in gd
  }

  /** The ledger after replaying `order`. */
  ghost function Replayed(sem: Semantics, dag: BlockDag, gd: Coloring, l: Ledger, order: seq<Hash>): Ledger
    requires Held(dag, gd, order)
  {
    if order == [] then l
    else
      var k := |order| - 1;
      assert Held(dag, gd, order[..k]);
      Effect(sem, Replayed(sem, dag, gd, l, order[..k]), dag[order[k]], gd[order[k]].blueScore)
  }

  lemma {:induction false} ReplayedInParts(sem: Semantics, dag: BlockDag, gd: Coloring, l: Ledger, s: seq<Hash>,
                                           t: seq<Hash>)
    requires Held(dag, gd, s) && Held(dag, gd, t)
    ensures Held(dag, gd, s + t)
    ensures Replayed(sem, dag, gd, l, s + t) == Replayed(sem, dag, gd, Replayed(sem, dag, gd, l, s), t)
    decreases |t|
  {
    if t == [] {
      assert s + t == s;
    } else {
      var k := |t| - 1;
      ReplayedInParts(sem, dag, gd, l, s, t[..k]);
      assert (s + t)[..|s + t| - 1] == s + t[..k];
    }
  }

  lemma {:induction false} ReplayedKept(sem: Semantics, dag: BlockDag, gd: Coloring, dag2: BlockDag, gd2: Coloring,
                                        l: Ledger, order: seq<Hash>)
    requires Held(dag, gd, order)
    requires forall h :: h in order ==> h in dag2 && h in gd2 && dag2[h] == dag[h] && gd2[h] == gd[h]
    ensures Replayed(sem, dag2, gd2, l, order) == Replayed(sem, dag, gd, l, order)
    decreases |order|
  {
    if order != [] {
      ReplayedKept(sem, dag, gd, dag2, gd2, l, order[..|order| - 1]);
    }
  }

  /** Every block's canonical order can be replayed. */
  ghost predicate Replayable(dag: BlockDag, gd: Coloring) {
    && ChainDown(gd) && gd.Keys == dag.Keys
    && forall b {:trigger Order(gd, b)} :: b in gd ==> Held(dag, gd, Order(gd, b))
  }

  lemma {:induction false} ConsistentIsReplayable(dag: BlockDag, past: Pasts, gd: Coloring)
    requires Consistent(dag, past, gd)
    ensures Replayable(dag, gd)
  {
    forall b | b in gd
      ensures Held(dag, gd, Order(gd, b))
    {
      OrderListsPast(dag, past, gd, b);
      forall h | h in Order(gd, b)
        ensures h in dag
      {
        assert h in Elements(Order(gd, b));
      }
    }
  }

  /** The state of the DAG as seen from `b`: the seed plus the canonical order ending at `b`. */
  ghost function StateAt(sem: Semantics, dag: BlockDag, gd: Coloring, seed: Ledger, b: Hash): Ledger
    requires Replayable(dag, gd) && b in gd
  {
    Replayed(sem, dag, gd, seed, Order(gd, b))
  }

  /** Replaying from a state at a chain block gives the state above it. */
  lemma {:induction false} StateFromFrontier(sem: Semantics, dag: BlockDag, gd: Coloring, seed: Ledger, f: Hash,
                                             b: Hash)
    requires Replayable(dag, gd) && b in gd && OnChain(gd, f, b)
    ensures f in gd && |Order(gd, f)| <= |Order(gd, b)|
    ensures Held(dag, gd, Order(gd, b)[|Order(gd, f)|..])
    ensures StateAt(sem, dag, gd, seed, b)
            == Replayed(sem, dag, gd, StateAt(sem, dag, gd, seed, f), Order(gd, b)[|Order(gd, f)|..])
  {
    OrderPrefix(gd, f, b);
    var o, p := Order(gd, b), Order(gd, f);
    assert o == p + o[|p|..];
    assert Held(dag, gd, o[|p|..]);
    ReplayedInParts(sem, dag, gd, seed, p, o[|p|..]);
  }

  /** One chain step: the merged blocks, then the block itself. */
  lemma {:induction false} StateStep(sem: Semantics, dag: BlockDag, gd: Coloring, seed: Ledger, b: Hash)
    requires Replayable(dag, gd) && b in gd && dag[b].parents != [] && gd[b].selectedParent.Some?
    ensures gd[b].selectedParent.value in gd && Held(dag, gd, Merged(gd[b]))
    ensures StateAt(sem, dag, gd, seed, b)
            == sem.apply(Replayed(sem, dag, gd, StateAt(sem, dag, gd, seed, gd[b].selectedParent.value), Merged(gd[b])),
                         dag[b], gd[b].blueScore)
  {
    assert Descends(gd, b);
    var sp := gd[b].selectedParent.value;
    var o, m := Order(gd, sp), Merged(gd[b]);
    assert Order(gd, b) == o + m + [b];
    forall h | h in m
      ensures h in dag && h in gd
    {
      assert h in o + m + [b];
    }
    ReplayedInParts(sem, dag, gd, seed, o, m);
    assert (o + m + [b])[..|o + m + [b]| - 1] == o + m;
  }

  // ----- A consistent chain state -----

  /** The block applies in full on some ledger. */
  ghost predicate Admitted(sem: Semantics, b: Block, score: nat) {
    exists l :: sem.admit(l, b, score).Some?
  }

  /** The block was admitted, and its header commits to the replay of the canonical order
      ending at it. */
  ghost predicate RootAgrees(sem: Semantics, dag: BlockDag, gd: Coloring, seed: Ledger, b: Hash)
    requires Replayable(dag, gd) && b in dag
  {
    dag[b].parents != [] ==>
      Admitted(sem, dag[b], gd[b].blueScore) && dag[b].stateRoot == sem.commit(StateAt(sem, dag, gd, seed, b))
  }

  ghost predicate HeadersAgree(sem: Semantics, dag: BlockDag, gd: Coloring, seed: Ledger)
    requires Replayable(dag, gd)
  {
    forall b {:trigger RootAgrees(sem, dag, gd, seed, b)} :: b in dag ==> RootAgrees(sem, dag, gd, seed, b)
  }

  /** The folded base ledger is the state at its frontier, a block of the chain of `b`. */
  ghost predicate BaseBelow(sem: Semantics, dag: BlockDag, gd: Coloring, seed: Ledger, base: Ledger,
                            frontier: Option<Hash>, b: Hash)
    requires Replayable(dag, gd) && b in gd
  {
    match frontier
    case None => base == seed
    case Some(f) => OnChain(gd, f, b) && f in gd && base == StateAt(sem, dag, gd, seed, f)
  }

  /** What is left to replay above the frontier of the base. */
  ghost function Unfolded(gd: Coloring, frontier: Option<Hash>, b: Hash): seq<Hash>
    requires ChainDown(gd) && b in gd
    requires frontier.Some? ==> frontier.value in gd && |Order(gd, frontier.value)| <= |Order(gd, b)|
  {
    match frontier
    case None => Order(gd, b)
    case Some(f) => Order(gd, b)[|Order(gd, f)|..]
  }

  /** Wherever the base was folded to on the chain of `b`, replaying the rest of the order
      gives the state at `b`: folding never shows. */
  lemma {:induction false} FoldingDoesNotShow(sem: Semantics, dag: BlockDag, gd: Coloring, seed: Ledger, base: Ledger,
                                              frontier: Option<Hash>, b: Hash)
    requires Replayable(dag, gd) && b in gd && BaseBelow(sem, dag, gd, seed, base, frontier, b)
    ensures frontier.Some? ==> frontier.value in gd && |Order(gd, frontier.value)| <= |Order(gd, b)|
    ensures Held(dag, gd, Unfolded(gd, frontier, b))
    ensures Replayed(sem, dag, gd, base, Unfolded(gd, frontier, b)) == StateAt(sem, dag, gd, seed, b)
  {
    match frontier
    case None =>
    case Some(f) => StateFromFrontier(sem, dag, gd, seed, f, b);
  }

  /** The first position of a frontier in the order of a block above it. */
  lemma {:induction false} FrontierPosition(dag: BlockDag, past: Pasts, gd: Coloring, f: Hash, b: Hash, i: nat)
    requires Consistent(dag, past, gd) && b in dag && OnChain(gd, f, b)
    requires i < |Order(gd, b)| && Order(gd, b)[i] == f
    ensures f in gd && i + 1 == |Order(gd, f)|
  {
    ChainBlockAfterItsPast(dag, past, gd, f, b);
    OrderListsPast(dag, past, gd, b);
  }

  // ----- Extending by one block -----

  /** `dag2` and `gd2` hold what `dag` and `gd` hold, and maybe more. */
  ghost predicate Grows(dag: BlockDag, gd: Coloring, dag2: BlockDag, gd2: Coloring) {
    && dag.Keys <= dag2.Keys && gd.Keys <= gd2.Keys
    && (forall x {:trigger dag[x]} :: x in dag ==> dag2[x] == dag[x])
    && (forall x {:trigger gd[x]} :: x in gd ==> gd2[x] == gd[x])
  }

  /** States of old blocks do not change when a block is added. */
  lemma {:induction false} StateKept(sem: Semantics, dag: BlockDag, gd: Coloring, dag2: BlockDag, gd2: Coloring,
                                     seed: Ledger, b: Hash)
    requires Replayable(dag, gd) && Replayable(dag2, gd2) && Grows(dag, gd, dag2, gd2) && b in gd
    ensures StateAt(sem, dag2, gd2, seed, b) == StateAt(sem, dag, gd, seed, b)
  {
    OrderKept(gd, gd2, b);
    ReplayedKept(sem, dag, gd, dag2, gd2, seed, Order(gd, b));
  }

  lemma {:induction false} HeadersStillAgree(sem: Semantics, dag: BlockDag, gd: Coloring, dag2: BlockDag,
                                             gd2: Coloring, seed: Ledger, h: Hash)
    requires Replayable(dag, gd) && Replayable(dag2, gd2) && Grows(dag, gd, dag2, gd2)
    requires HeadersAgree(sem, dag, gd, seed)
    requires dag2.Keys == dag.Keys + {h} && RootAgrees(sem, dag2, gd2, seed, h)
    ensures HeadersAgree(sem, dag2, gd2, seed)
  {
    forall b | b in dag2
      ensures RootAgrees(sem, dag2, gd2, seed, b)
    {
      if b in dag {
        assert RootAgrees(sem, dag, gd, seed, b);
        StateKept(sem, dag, gd, dag2, gd2, seed, b);
      }
    }
  }
}
