/** GHOSTDAG (src/ghostdag.rs) as functions of a block's past: selected parent, mergeset,
    ranked order, greedy k-cluster colouring and blue score, and what they guarantee. */
module Ghostdag {
  import opened Types
  import opened Lists
  import opened Dag
  import opened Ordering

  /** The k-cluster parameter: the largest blue anticone a blue block may have. */
  const K: nat := 40

  datatype GhostdagData = GhostdagData(
    blueScore: nat, selectedParent: Option<Hash>, mergesetBlues: seq<Hash>, mergesetReds: seq<Hash>)

  const GENESIS_DATA: GhostdagData := GhostdagData(0, None, [], [])

  type Coloring = map<Hash, GhostdagData>
  type Pasts = map<Hash, set<Hash>>

  // ----- Selection -----

  /** (blue score, hash) order. */
  predicate Heavier(gd: Coloring, a: Hash, b: Hash)
    requires a in gd && b in gd
  {
    gd[a].blueScore > gd[b].blueScore || (gd[a].blueScore == gd[b].blueScore && a > b)
  }

  /** The block of `hs` with the highest (blue score, hash), among those with data. */
  function Heaviest(gd: Coloring, hs: seq<Hash>): (best: Option<Hash>)
    ensures best.None? <==> forall h :: h in hs ==> h !in gd
    ensures best.Some? ==>
              && best.value in hs && best.value in gd
              && forall h :: h in hs && h in gd && h != best.value ==> Heavier(gd, best.value, h)
  {
    if hs == [] then None
    else
      var k := |hs| - 1;
      assert forall h :: h in hs <==> h == hs[k] || h in hs[..k];
      var best := Heaviest(gd, hs[..k]);
      if hs[k] !in gd then best
      else if best.Some? && Heavier(gd, best.value, hs[k]) then best
      else Some(hs[k])
  }

  /** Only one block can be heaviest. */
  lemma {:induction false} HeaviestUnique(gd: Coloring, hs: seq<Hash>, m: Hash)
    requires m in hs && m in gd && forall h :: h in hs && h in gd && h != m ==> Heavier(gd, m, h)
    ensures Heaviest(gd, hs) == Some(m)
  {
    var best := Heaviest(gd, hs);
    assert best.Some?;
    if best.value != m {
      assert false;
    }
  }

  /** The higher score is selected; at equal scores the higher hash, in whatever order the two
      are listed. */
  lemma {:induction false} SelectionOfTwo(gd: Coloring, a: Hash, b: Hash)
    requires a in gd && b in gd
    requires gd[a].blueScore < gd[b].blueScore || (gd[a].blueScore == gd[b].blueScore && a < b)
    ensures Heaviest(gd, [a, b]) == Some(b) && Heaviest(gd, [b, a]) == Some(b)
  {
    HeaviestUnique(gd, [a, b], b);
    HeaviestUnique(gd, [b, a], b);
  }

  // ----- Mergeset and its order -----

  /** Everything the parents reach, themselves included, outside the inclusive past of `sp`. */
  ghost function MergeSet(past: Pasts, parents: seq<Hash>, sp: Hash): set<Hash>
    requires sp in past && forall p :: p in parents ==> p in past
  {
    NewPast(past, parents) - past[sp] - {sp}
  }

  /** How many members of `s` each member has in its past. */
  ghost function Ranks(past: Pasts, s: set<Hash>): map<Hash, nat> {
    map x | x in s && x in past :: |s * past[x]|
  }

  ghost predicate IsMergeOrder(past: Pasts, s: set<Hash>, order: seq<Hash>) {
    Ranked(Ranks(past, s), order) && forall x :: x in order <==> x in s
  }

  lemma {:induction false} MergeOrderExists(past: Pasts, s: set<Hash>, part: set<Hash>) returns (order: seq<Hash>)
    requires part <= s && s <= past.Keys
    ensures Ranked(Ranks(past, s), order) && forall x :: x in order <==> x in part
  {
    if part == {} {
      order := [];
    } else {
      var x :| x in part;
      var rest := MergeOrderExists(past, s, part - {x});
      InsertRanked(Ranks(past, s), x, rest);
      InsertMembers(Ranks(past, s), x, rest);
      order := InsertByRank(Ranks(past, s), x, rest);
    }
  }

  /** The one listing of `s` by (number of ancestors in `s`, hash). */
  ghost function MergeOrder(past: Pasts, s: set<Hash>): (order: seq<Hash>)
    requires s <= past.Keys
    ensures IsMergeOrder(past, s, order)
  {
    assert exists o :: IsMergeOrder(past, s, o) by {
      var o := MergeOrderExists(past, s, s);
      assert IsMergeOrder(past, s, o);
    }
    var o :| IsMergeOrder(past, s, o);
    o
  }

  lemma {:induction false} MergeOrderUnique(past: Pasts, s: set<Hash>, order: seq<Hash>)
    requires s <= past.Keys && IsMergeOrder(past, s, order)
    ensures order == MergeOrder(past, s)
  {
    RankedUnique(Ranks(past, s), order, MergeOrder(past, s));
  }

  /** Of two blocks the ancestor is merged first, and of two unrelated ones the lower hash. */
  lemma {:induction false} MergeOrderOfTwo(past: Pasts, a: Hash, b: Hash)
    requires a in past && b in past && a !in past[a] && b !in past[a] && b !in past[b]
    requires a in past[b] || a < b
    ensures MergeOrder(past, {a, b}) == [a, b]
  {
    var s := {a, b};
    assert a != b;
    assert s * past[a] == {};
    assert s * past[b] == if a in past[b] then {a} else {};
    var order := [a, b];
    assert IsMergeOrder(past, s, order) by {
      assert Before(Ranks(past, s), a, b);
      assert forall y :: y in order <==> y == a || y == b;
    }
    MergeOrderUnique(past, s, order);
  }

  /** Ancestors come first. */
  lemma {:induction false} MergeOrderIsTopological(past: Pasts, s: set<Hash>, order: seq<Hash>, i: nat, j: nat)
    requires IsMergeOrder(past, s, order) && s <= past.Keys && i < |order| && j < |order|
    requires order[i] in past && order[j] in past
    requires order[i] in past[order[j]] && past[order[i]] <= past[order[j]] && order[i] !in past[order[i]]
    ensures i < j
  {
    var x, y := order[i], order[j];
    assert x in order && y in order;
    assert x in s * past[y] && x !in s * past[x];
    SubsetIsSmaller(s * past[x], s * past[y]);
    assert j < i ==> Before(Ranks(past, s), order[j], order[i]);
  }

  lemma {:induction false} SubsetIsSmaller(a: set<Hash>, b: set<Hash>)
    requires a < b
    ensures |a| < |b|
  {
    assert b == a + (b - a);
  }

  // ----- Colouring -----

  predicate Concurrent(past: Pasts, x: Hash, y: Hash) {
    x != y && !(y in past && x in past[y]) && !(x in past && y in past[x])
  }

  ghost function Anticone(past: Pasts, s: set<Hash>, x: Hash): set<Hash> {
    set y | y in s && Concurrent(past, y, x)
  }

  /** The k-cluster rule for one candidate against the blues so far. */
  ghost predicate IsBlue(past: Pasts, blues: set<Hash>, c: Hash) {
    && |Anticone(past, blues, c)| <= K
    && forall d :: d in Anticone(past, blues, c) ==> |Anticone(past, blues, d)| < K
  }

  datatype Colors = Colors(blues: seq<Hash>, reds: seq<Hash>)

  /** Colour the candidates one after another, blue candidates joining the blues. */
  ghost function ColorAll(past: Pasts, seed: set<Hash>, order: seq<Hash>): Colors {
    if order == [] then Colors([], [])
    else
      var k := |order| - 1;
      var c := ColorAll(past, seed, order[..k]);
      if IsBlue(past, seed + Elements(c.blues), order[k])
      then Colors(c.blues + [order[k]], c.reds)
      else Colors(c.blues, c.reds + [order[k]])
  }

  /** The selected-parent link of `b` leads to a block with data and a lower score. */
  ghost predicate Descends(gd: Coloring, b: Hash)
    requires b in gd
  {
    gd[b].selectedParent.Some? ==>
      gd[b].selectedParent.value in gd && gd[gd[b].selectedParent.value].blueScore < gd[b].blueScore
  }

  ghost predicate ChainDown(gd: Coloring) {
    forall b {:trigger Descends(gd, b)} :: b in gd ==> Descends(gd, b)
  }

  /** The blues of `b`'s inclusive view: itself and all mergeset blues along its chain. */
  ghost function Blues(gd: Coloring, b: Hash): set<Hash>
    requires ChainDown(gd) && b in gd
    decreases gd[b].blueScore
  {
    assert Descends(gd, b);
    {b} + Elements(gd[b].mergesetBlues) +
    if gd[b].selectedParent.Some? then Blues(gd, gd[b].selectedParent.value) else {}
  }

  /** The data of a block with these parents. */
  ghost function Data(past: Pasts, gd: Coloring, parents: seq<Hash>): GhostdagData
    requires ChainDown(gd) && gd.Keys == past.Keys && forall x :: x in past ==> past[x] <= past.Keys
    requires forall p :: p in parents ==> p in past
  {
    match Heaviest(gd, parents)
    case None => GENESIS_DATA
    case Some(sp) =>
      MergeSetInside(past, parents, sp);
      DataWith(past, gd, sp, MergeSet(past, parents, sp))
  }

  /** The data of a block with selected parent `sp` that merges `ms`. */
  ghost function DataWith(past: Pasts, gd: Coloring, sp: Hash, ms: set<Hash>): GhostdagData
    requires ChainDown(gd) && sp in gd && ms <= past.Keys
  {
    var c := ColorAll(past, Blues(gd, sp), MergeOrder(past, ms));
    GhostdagData(gd[sp].blueScore + 1 + |c.blues|, Some(sp), [sp] + c.blues, c.reds)
  }

  lemma {:induction false} MergeSetInside(past: Pasts, parents: seq<Hash>, sp: Hash)
    requires sp in past && (forall p :: p in parents ==> p in past) && forall x :: x in past ==> past[x] <= past.Keys
    ensures MergeSet(past, parents, sp) <= past.Keys
  {
    forall a | a in MergeSet(past, parents, sp)
      ensures a in past
    {
      NewPastMember(past, parents, a);
    }
  }

  /** `b` carries the data computed from its parents. */
  ghost predicate HasData(dag: BlockDag, past: Pasts, gd: Coloring, b: Hash)
    requires ChainDown(gd) && gd.Keys == past.Keys && (forall x :: x in past ==> past[x] <= past.Keys)
    requires b in dag && b in gd
  {
    (forall p :: p in dag[b].parents ==> p in past) && gd[b] == Data(past, gd, dag[b].parents)
  }

  /** Every block carries the data computed from its parents. */
  ghost predicate Consistent(dag: BlockDag, past: Pasts, gd: Coloring) {
    && IsPast(dag, past)
    && gd.Keys == dag.Keys
    && ChainDown(gd)
    && forall b {:trigger HasData(dag, past, gd, b)} :: b in dag ==> HasData(dag, past, gd, b)
  }

  // ----- Partition -----

  lemma {:induction false} ColorsPartition(past: Pasts, seed: set<Hash>, order: seq<Hash>)
    ensures forall x :: x in order <==> x in ColorAll(past, seed, order).blues || x in ColorAll(past, seed, order).reds
    ensures |ColorAll(past, seed, order).blues| + |ColorAll(past, seed, order).reds| == |order|
  {
    if order != [] {
      var k := |order| - 1;
      var c := ColorAll(past, seed, order[..k]);
      ColorsPartition(past, seed, order[..k]);
      forall x
        ensures x in order <==> x == order[k] || x in c.blues || x in c.reds
      {
        assert x in order <==> x == order[k] || x in order[..k];
      }
    }
  }

  /** No block is listed twice, as a blue, as a red, or as both. */
  lemma {:induction false} ColorsDistinct(past: Pasts, seed: set<Hash>, order: seq<Hash>)
    requires forall i, j :: 0 <= i < j < |order| ==> order[i] != order[j]
    ensures var c := ColorAll(past, seed, order); Distinct(c.blues + c.reds)
  {
    if order != [] {
      var k := |order| - 1;
      ColorsDistinct(past, seed, order[..k]);
      ColorsPartition(past, seed, order[..k]);
      var c := ColorAll(past, seed, order[..k]);
      assert order[k] !in order[..k];
      assert order[k] !in c.blues && order[k] !in c.reds;
      DistinctInsert(c.blues, c.reds, order[k]);
    }
  }
}
