/** Blocks, the block DAG and its ancestry relation.

    Ancestry is defined by paths of parent edges. `BfsAncestors` is the plain search the
    repository validates its reachability index against. */
module Dag {

  import opened Types

  type BlockDag = map<Hash, Block>

  /** Following `n` parent edges from `b` can lead to `a`. */
  ghost predicate Path(dag: BlockDag, a: Hash, b: Hash, n: nat)
    decreases n
  {
    if n == 0 then a == b
    else b in dag && exists p :: p in dag[b].parents && Path(dag, a, p, n - 1)
  }

  /** `a` is a strict ancestor of `b`. */
  ghost predicate Ancestor(dag: BlockDag, a: Hash, b: Hash) {
    exists n: nat :: n > 0 && Path(dag, a, b, n)
  }

  ghost predicate Acyclic(dag: BlockDag) {
    forall b :: b in dag ==> !Ancestor(dag, b, b)
  }

  /** Every parent is present and no block is its own ancestor. */
  ghost predicate WellFormed(dag: BlockDag) {
    && (forall b, p :: b in dag && p in dag[b].parents ==> p in dag)
    && Acyclic(dag)
  }

  /** The ancestors of `b` that the DAG holds. */
  ghost function Past(dag: BlockDag, b: Hash): set<Hash> {
    set a | a in dag && Ancestor(dag, a, b)
  }

  ghost function PastMap(dag: BlockDag): map<Hash, set<Hash>> {
    map b | b in dag :: Past(dag, b)
  }

  ghost predicate ViaParent(dag: BlockDag, past: map<Hash, set<Hash>>, a: Hash, b: Hash) {
    b in dag && exists p :: p in dag[b].parents && (a == p || (p in past && a in past[p]))
  }

  ghost predicate Nests(past: map<Hash, set<Hash>>, a: Hash, b: Hash) {
    a in past && b in past && past[a] <= past[b]
  }

  /** What the ordering layers need to know about ancestry: `past[b]` is the set of strict
      ancestors of `b` in a finite, parent-closed, acyclic graph. */
  ghost predicate IsPast(dag: BlockDag, past: map<Hash, set<Hash>>) {
    && past.Keys == dag.Keys
    && (forall b :: b in dag ==> past[b] <= dag.Keys && b !in past[b])
    && (forall b, p :: b in dag && p in dag[b].parents ==> p in past[b])
    && (forall a, b {:trigger Nests(past, a, b)} :: b in dag && a in past[b] ==> Nests(past, a, b))
    && (forall a, b {:trigger ViaParent(dag, past, a, b)} :: b in dag && a in past[b] ==> ViaParent(dag, past, a, b))
  }

  lemma {:induction false} PathConcat(dag: BlockDag, a: Hash, b: Hash, c: Hash, n: nat, m: nat)
    requires Path(dag, a, b, n) && Path(dag, b, c, m)
    ensures Path(dag, a, c, n + m)
    decreases m
  {
    if m > 0 {
      var p :| p in dag[c].parents && Path(dag, b, p, m - 1);
      PathConcat(dag, a, b, p, n, m - 1);
    }
  }

  lemma {:induction false} AncestorTransitive(dag: BlockDag, a: Hash, b: Hash, c: Hash)
    requires Ancestor(dag, a, b) && Ancestor(dag, b, c)
    ensures Ancestor(dag, a, c)
  {
    var n: nat :| n > 0 && Path(dag, a, b, n);
    var m: nat :| m > 0 && Path(dag, b, c, m);
    PathConcat(dag, a, b, c, n, m);
  }

  lemma {:induction false} ParentIsAncestor(dag: BlockDag, p: Hash, b: Hash)
    requires b in dag && p in dag[b].parents
    ensures Ancestor(dag, p, b)
  {
    assert Path(dag, p, p, 0);
    assert Path(dag, p, b, 1);
  }

  /** An ancestor is a parent or an ancestor of a parent, and conversely. */
  lemma {:induction false} AncestorViaParent(dag: BlockDag, a: Hash, b: Hash)
    ensures Ancestor(dag, a, b) <==>
            b in dag && exists p :: p in dag[b].parents && (a == p || Ancestor(dag, a, p))
  {
    if Ancestor(dag, a, b) {
      var n: nat :| n > 0 && Path(dag, a, b, n);
      var p :| p in dag[b].parents && Path(dag, a, p, n - 1);
      if n > 1 {
        assert Ancestor(dag, a, p);
      }
    }
    if b in dag && exists p :: p in dag[b].parents && (a == p || Ancestor(dag, a, p)) {
      var p :| p in dag[b].parents && (a == p || Ancestor(dag, a, p));
      ParentIsAncestor(dag, p, b);
      if a != p {
        AncestorTransitive(dag, a, p, b);
      }
    }
  }

  /** In a parent-closed DAG, every ancestor of a held block is held. */
  lemma {:induction false} PathStaysInside(dag: BlockDag, a: Hash, b: Hash, n: nat)
    requires WellFormed(dag) && b in dag && Path(dag, a, b, n)
    ensures a in dag
    decreases n
  {
    if n > 0 {
      var p :| p in dag[b].parents && Path(dag, a, p, n - 1);
      PathStaysInside(dag, a, p, n - 1);
    }
  }

  /** The ancestry of a well-formed DAG has the laws the ordering layers rely on. */
  lemma {:induction false} PastMapIsPast(dag: BlockDag)
    requires WellFormed(dag)
    ensures IsPast(dag, PastMap(dag))
  {
    var past := PastMap(dag);
    forall b, p | b in dag && p in dag[b].parents
      ensures p in past[b]
    {
      ParentIsAncestor(dag, p, b);
    }
    forall a, b | b in dag && a in past[b]
      ensures Nests(past, a, b)
    {
      forall x | x in past[a]
        ensures x in past[b]
      {
        AncestorTransitive(dag, x, a, b);
      }
    }
    forall a, b | b in dag && a in past[b]
      ensures ViaParent(dag, past, a, b)
    {
      AncestorViaParent(dag, a, b);
    }
  }

  /** Every hash named as a parent somewhere. */
  function Mentioned(dag: BlockDag): set<Hash> {
    set b, p | b in dag && p in dag[b].parents :: p
  }

  /** A new block: nobody holds it or names it as a parent, and its parents are present. */
  predicate Extends(dag: BlockDag, h: Hash, block: Block) {
    && h !in dag && h !in Mentioned(dag)
    && (forall p :: p in block.parents ==> p in dag)
  }

  lemma {:induction false} UnknownIsUnmentioned(dag: BlockDag, h: Hash)
    requires WellFormed(dag) && h !in dag
    ensures h !in Mentioned(dag)
  {
  }

  /** Adding a block that nobody names as a parent changes nobody else's ancestry. */
  lemma {:induction false} PathUnchangedByExtension(dag: BlockDag, h: Hash, block: Block, a: Hash, b: Hash, n: nat)
    requires h !in dag && h !in Mentioned(dag) && b != h
    ensures Path(dag[h := block], a, b, n) <==> Path(dag, a, b, n)
    decreases n
  {
    if n > 0 && b in dag {
      forall p | p in dag[b].parents
        ensures p != h && (Path(dag[h := block], a, p, n - 1) <==> Path(dag, a, p, n - 1))
      {
        assert p in Mentioned(dag);
        PathUnchangedByExtension(dag, h, block, a, p, n - 1);
      }
    }
  }

  lemma {:induction false} AncestorUnchangedByExtension(dag: BlockDag, h: Hash, block: Block, a: Hash, b: Hash)
    requires h !in dag && h !in Mentioned(dag) && b != h
    ensures Ancestor(dag[h := block], a, b) <==> Ancestor(dag, a, b)
  {
    if Ancestor(dag, a, b) {
      var n: nat :| n > 0 && Path(dag, a, b, n);
      PathUnchangedByExtension(dag, h, block, a, b, n);
    }
    if Ancestor(dag[h := block], a, b) {
      var n: nat :| n > 0 && Path(dag[h := block], a, b, n);
      PathUnchangedByExtension(dag, h, block, a, b, n);
    }
  }

  lemma {:induction false} NobodyDescendsFromNew(dag: BlockDag, h: Hash, b: Hash, n: nat)
    requires h !in dag && h !in Mentioned(dag) && n > 0
    ensures !Path(dag, h, b, n)
    decreases n
  {
    if b in dag {
      forall p | p in dag[b].parents
        ensures !Path(dag, h, p, n - 1)
      {
        assert p in Mentioned(dag);
        if n > 1 {
          NobodyDescendsFromNew(dag, h, p, n - 1);
        }
      }
    }
  }

  /** The past of a new block: its parents and theirs. */
  ghost function NewPast(past: map<Hash, set<Hash>>, parents: seq<Hash>): set<Hash>
    requires forall p :: p in parents ==> p in past
  {
    if parents == [] then {}
    else {parents[0]} + past[parents[0]] + NewPast(past, parents[1..])
  }

  lemma {:induction false} NewPastMember(past: map<Hash, set<Hash>>, parents: seq<Hash>, a: Hash)
    requires forall p :: p in parents ==> p in past
    ensures a in NewPast(past, parents) <==> exists p :: p in parents && (a == p || a in past[p])
  {
    if parents != [] {
      NewPastMember(past, parents[1..], a);
      assert forall p :: p in parents <==> p == parents[0] || p in parents[1..];
    }
  }

  lemma {:induction false} NewPastAppend(past: map<Hash, set<Hash>>, parents: seq<Hash>, p: Hash)
    requires p in past && forall q :: q in parents ==> q in past
    ensures NewPast(past, parents + [p]) == NewPast(past, parents) + {p} + past[p]
  {
    forall a
      ensures a in NewPast(past, parents + [p]) <==> a in NewPast(past, parents) + {p} + past[p]
    {
      NewPastMember(past, parents + [p], a);
      NewPastMember(past, parents, a);
    }
  }

  /** A new block gets exactly its parents' pasts as its own past, every other past stays as
      it was, and neither cycles nor dangling parents appear. */
  lemma {:induction false} ExtensionKeepsPast(dag: BlockDag, h: Hash, block: Block)
    requires Acyclic(dag) && Extends(dag, h, block)
    ensures Acyclic(dag[h := block])
    ensures WellFormed(dag) ==> WellFormed(dag[h := block])
    ensures PastMap(dag[h := block]) == PastMap(dag)[h := NewPast(PastMap(dag), block.parents)]
    ensures h !in NewPast(PastMap(dag), block.parents)
  {
    var d := dag[h := block];
    forall a, b | b in dag
      ensures Ancestor(d, a, b) <==> Ancestor(dag, a, b)
      ensures !Ancestor(d, h, b)
    {
      AncestorUnchangedByExtension(dag, h, block, a, b);
      AncestorUnchangedByExtension(dag, h, block, h, b);
      if Ancestor(dag, h, b) {
        var n: nat :| n > 0 && Path(dag, h, b, n);
        NobodyDescendsFromNew(dag, h, b, n);
      }
    }
    forall a
      ensures a in Past(d, h) <==> a in NewPast(PastMap(dag), block.parents)
      ensures a == h ==> !Ancestor(d, a, h)
    {
      ExtensionPastOfNew(dag, h, block, a);
    }
    assert forall b :: b in dag ==> Past(d, b) == Past(dag, b);
    assert Past(d, h) == NewPast(PastMap(dag), block.parents);
  }

  lemma {:induction false} ExtensionPastOfNew(dag: BlockDag, h: Hash, block: Block, a: Hash)
    requires Extends(dag, h, block)
    ensures a in Past(dag[h := block], h) <==> a in NewPast(PastMap(dag), block.parents)
    ensures !Ancestor(dag[h := block], h, h)
  {
    var d := dag[h := block];
    AncestorViaParent(d, a, h);
    AncestorViaParent(d, h, h);
    NewPastMember(PastMap(dag), block.parents, a);
    forall p | p in block.parents
      ensures Ancestor(d, a, p) <==> Ancestor(dag, a, p)
      ensures !Ancestor(d, h, p)
    {
      AncestorUnchangedByExtension(dag, h, block, a, p);
      AncestorUnchangedByExtension(dag, h, block, h, p);
      if Ancestor(dag, h, p) {
        var n: nat :| n > 0 && Path(dag, h, p, n);
        NobodyDescendsFromNew(dag, h, p, n);
      }
    }
  }

  /** A set holding the parents of `b` and closed under parents holds every ancestor of `b`. */
  lemma {:induction false} ClosedSetHoldsAncestors(dag: BlockDag, s: set<Hash>, a: Hash, b: Hash, n: nat)
    requires b in dag ==> forall p :: p in dag[b].parents ==> p in s
    requires forall x, p :: x in s && x in dag && p in dag[x].parents ==> p in s
    requires n > 0 && Path(dag, a, b, n)
    ensures a in s
    decreases n
  {
    var p :| p in dag[b].parents && Path(dag, a, p, n - 1);
    if n > 1 {
      ClosedSetHoldsAncestors(dag, s, a, p, n - 1);
    }
  }

  /** All strict ancestors of `b`, by a plain search over parent edges. */
  method BfsAncestors(dag: BlockDag, b: Hash) returns (found: set<Hash>)
    ensures forall a :: a in found <==> Ancestor(dag, a, b)
  {
    found := {};
    var stack: seq<Hash> := if b in dag then dag[b].parents else [];
    forall x | x in stack
      ensures Ancestor(dag, x, b)
    {
      ParentIsAncestor(dag, x, b);
    }
    while stack != []
      invariant forall x :: x in stack || x in found ==> x in Mentioned(dag) && Ancestor(dag, x, b)
      invariant b in dag ==> forall p :: p in dag[b].parents ==> p in found || p in stack
      invariant forall x, p :: x in found && x in dag && p in dag[x].parents ==> p in found || p in stack
      decreases Mentioned(dag) - found, |stack|
    {
      var x := stack[|stack| - 1];
      ghost var before := stack;
      stack := stack[..|stack| - 1];
      assert forall y :: y in before <==> y in stack || y == x;
      if x !in found {
        found := found + {x};
        if x in dag {
          forall p | p in dag[x].parents
            ensures Ancestor(dag, p, b)
          {
            ParentIsAncestor(dag, p, x);
            AncestorTransitive(dag, p, x, b);
          }
          stack := stack + dag[x].parents;
        }
      }
    }
    forall a | Ancestor(dag, a, b)
      ensures a in found
    {
      var n: nat :| n > 0 && Path(dag, a, b, n);
      ClosedSetHoldsAncestors(dag, found, a, b, n);
    }
  }

  function Restrict(dag: BlockDag, keep: set<Hash>): BlockDag {
    map h | h in dag && h in keep :: dag[h]
  }

  /** `keep` holds every held descendant of its members. */
  ghost predicate FutureClosed(dag: BlockDag, keep: set<Hash>) {
    forall x, y :: x in keep && y in dag && Ancestor(dag, x, y) ==> y in keep
  }

  lemma {:induction false} RestrictionKeepsPath(dag: BlockDag, keep: set<Hash>, a: Hash, b: Hash, n: nat)
    requires FutureClosed(dag, keep) && a in keep
    requires Path(dag, a, b, n) && b in dag
    ensures Path(Restrict(dag, keep), a, b, n)
    decreases n
  {
    if n > 0 {
      assert Ancestor(dag, a, b);
      var p :| p in dag[b].parents && Path(dag, a, p, n - 1);
      if n > 1 {
        RestrictionKeepsPath(dag, keep, a, p, n - 1);
      }
      assert Path(Restrict(dag, keep), a, p, n - 1);
    }
  }

  lemma {:induction false} RestrictionAddsNoPath(dag: BlockDag, keep: set<Hash>, a: Hash, b: Hash, n: nat)
    requires Path(Restrict(dag, keep), a, b, n)
    ensures Path(dag, a, b, n)
    decreases n
  {
    if n > 0 {
      var p :| p in dag[b].parents && Path(Restrict(dag, keep), a, p, n - 1);
      RestrictionAddsNoPath(dag, keep, a, p, n - 1);
    }
  }

  /** Dropping a future-closed complement keeps ancestry from kept blocks: no path to a kept
      block passes through a dropped one. */
  lemma {:induction false} RestrictionKeepsAncestry(dag: BlockDag, keep: set<Hash>, a: Hash, b: Hash)
    requires FutureClosed(dag, keep) && a in keep
    ensures Ancestor(Restrict(dag, keep), a, b) <==> Ancestor(dag, a, b)
  {
    if Ancestor(dag, a, b) {
      var n: nat :| n > 0 && Path(dag, a, b, n);
      RestrictionKeepsPath(dag, keep, a, b, n);
    }
    if Ancestor(Restrict(dag, keep), a, b) {
      var n: nat :| n > 0 && Path(Restrict(dag, keep), a, b, n);
      RestrictionAddsNoPath(dag, keep, a, b, n);
    }
  }
}
