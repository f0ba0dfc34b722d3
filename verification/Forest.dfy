/** The interval-labelled selected-parent forest behind the reachability oracle, as values:
    the invariant every operation keeps and the effect of each single step on it. */
module Forest {
  import opened Types
  import opened Lists

  /** A reindex gives a subtree of `s` blocks `s * SCALE` interval units. */
  const SCALE: nat := 0x10_0000
  /** Units held back for later siblings when a child is carved out. */
  const SIBLING_RESERVE: nat := 64
  const SPACE_START: nat := 1
  const SPACE_END: nat := 0x4000_0000_0000_0000

  /** Fully inclusive. A node's own label is `end`. */
  datatype Interval = Interval(start: nat, end: nat) {
    predicate Contains(other: Interval) {
      start <= other.start && other.end <= end
    }
  }

  datatype Node = Node(
    interval: Interval, treeParent: Option<Hash>, treeChildren: seq<Hash>, nextFree: nat, fcs: seq<Hash>)

  type Nodes = map<Hash, Node>

  // ----- The invariant -----

  predicate WellSized(n: Node) {
    SPACE_START <= n.interval.start <= n.nextFree <= n.interval.end
  }

  /** `n` lies in the part of `m` that `m` has handed out to children. */
  predicate Inside(n: Node, m: Node) {
    m.interval.start <= n.interval.start && n.interval.end < m.nextFree
  }

  predicate Disjoint(n: Node, m: Node) {
    n.interval.end < m.interval.start || m.interval.end < n.interval.start
  }

  predicate Separate(n: Node, m: Node) {
    Inside(n, m) || Inside(m, n) || Disjoint(n, m)
  }

  /** Intervals of distinct nodes are disjoint or properly nested. */
  ghost predicate Laminar(nodes: Nodes) {
    && (forall h :: h in nodes ==> WellSized(nodes[h]))
    && (forall h, k {:trigger Separate(nodes[h], nodes[k])} ::
          h in nodes && k in nodes && h != k ==> Separate(nodes[h], nodes[k]))
  }

  /** A tree parent is indexed, lists the node as a child and encloses it. */
  ghost predicate UpLink(nodes: Nodes, h: Hash)
    requires h in nodes
  {
    nodes[h].treeParent.Some? ==>
      && nodes[h].treeParent.value in nodes
      && nodes[h].treeParent.value != h
      && h in nodes[nodes[h].treeParent.value].treeChildren
      && Inside(nodes[h], nodes[nodes[h].treeParent.value])
  }

  /** The listed children are distinct indexed nodes that name this parent. */
  ghost predicate DownLink(nodes: Nodes, p: Hash)
    requires p in nodes
  {
    && (forall c :: c in nodes[p].treeChildren ==> c in nodes && nodes[c].treeParent == Some(p))
    && Distinct(nodes[p].treeChildren)
  }

  ghost predicate Linked(nodes: Nodes) {
    && (forall h {:trigger UpLink(nodes, h)} :: h in nodes ==> UpLink(nodes, h))
    && (forall p {:trigger DownLink(nodes, p)} :: p in nodes ==> DownLink(nodes, p))
  }

  /** If `x` encloses `h`, it is the tree parent of `h` or encloses it. */
  ghost predicate TightAt(nodes: Nodes, h: Hash, x: Hash)
    requires h in nodes && x in nodes
  {
    h != x && Inside(nodes[h], nodes[x]) ==>
      && nodes[h].treeParent.Some?
      && nodes[h].treeParent.value in nodes
      && (nodes[h].treeParent.value == x || Inside(nodes[nodes[h].treeParent.value], nodes[x]))
  }

  ghost predicate Tight(nodes: Nodes) {
    forall h, x {:trigger TightAt(nodes, h, x)} :: h in nodes && x in nodes ==> TightAt(nodes, h, x)
  }

  /** A covering set is an antichain listed by ascending interval. */
  ghost predicate Ascending(nodes: Nodes, fcs: seq<Hash>) {
    && (forall i :: 0 <= i < |fcs| ==> fcs[i] in nodes)
    && (forall i, j :: 0 <= i < j < |fcs| ==> nodes[fcs[i]].interval.end < nodes[fcs[j]].interval.start)
  }

  ghost predicate CoversAscend(nodes: Nodes) {
    forall a :: a in nodes ==> Ascending(nodes, nodes[a].fcs)
  }

  ghost predicate Index(nodes: Nodes) {
    Laminar(nodes) && Linked(nodes) && Tight(nodes) && CoversAscend(nodes)
  }

  // ----- What the index answers -----

  predicate ChainReaches(nodes: Nodes, a: Hash, b: Hash)
    requires a in nodes && b in nodes
  {
    nodes[a].interval.Contains(nodes[b].interval)
  }

  ghost predicate Covers(nodes: Nodes, fcs: seq<Hash>, target: Interval) {
    exists e :: e in fcs && e in nodes && nodes[e].interval.Contains(target)
  }

  ghost predicate Reaches(nodes: Nodes, a: Hash, b: Hash)
    requires a in nodes && b in nodes
  {
    ChainReaches(nodes, a, b) || Covers(nodes, nodes[a].fcs, nodes[b].interval)
  }

  /** The index gives, for every pair of indexed blocks, the ancestry recorded in `past`. */
  ghost predicate Answers(nodes: Nodes, past: map<Hash, set<Hash>>) {
    && nodes.Keys <= past.Keys
    && forall a, b :: a in nodes && b in nodes ==> (Reaches(nodes, a, b) <==> a == b || a in past[b])
  }

  // ----- The forest alone -----

  /** Every indexed block with its tree parent. */
  type Tree = map<Hash, Option<Hash>>

  ghost function TreeOf(nodes: Nodes): Tree {
    map h | h in nodes :: nodes[h].treeParent
  }

  /** Held, and nobody's tree parent. */
  ghost predicate IsLeaf(tree: Tree, h: Hash) {
    h in tree && forall c :: c in tree ==> tree[c] != Some(h)
  }

  /** The blocks of `keep`; those whose tree parent goes become roots. */
  ghost function CutTo(tree: Tree, keep: set<Hash>): Tree {
    map h | h in tree && h in keep :: if tree[h].Some? && tree[h].value in keep then tree[h] else None
  }

  /** A leaf of the tree is a node without listed children. */
  lemma {:induction false} LeafHasNoChildren(nodes: Nodes, h: Hash)
    requires Linked(nodes)
    ensures IsLeaf(TreeOf(nodes), h) <==> h in nodes && nodes[h].treeChildren == []
  {
    if h in nodes {
      assert DownLink(nodes, h);
      if nodes[h].treeChildren != [] {
        var c := nodes[h].treeChildren[0];
        assert c in nodes[h].treeChildren && TreeOf(nodes)[c] == Some(h);
      } else {
        forall c | c in nodes
          ensures nodes[c].treeParent != Some(h)
        {
          assert UpLink(nodes, c);
        }
      }
    }
  }

  /** Interval containment is tree ancestry: the node itself, or above its tree parent. */
  lemma {:induction false} ContainmentIsInside(nodes: Nodes, a: Hash, b: Hash)
    requires Laminar(nodes) && a in nodes && b in nodes && a != b
    ensures ChainReaches(nodes, a, b) <==> Inside(nodes[b], nodes[a])
  {
    assert Separate(nodes[a], nodes[b]);
  }

  lemma {:induction false} ContainmentFollowsTree(nodes: Nodes, a: Hash, b: Hash)
    requires Index(nodes) && a in nodes && b in nodes
    ensures UpLink(nodes, b)
    ensures ChainReaches(nodes, a, b) <==>
            a == b || (nodes[b].treeParent.Some? && ChainReaches(nodes, a, nodes[b].treeParent.value))
  {
    assert UpLink(nodes, b);
    assert TightAt(nodes, b, a);
    if a != b {
      ContainmentIsInside(nodes, a, b);
      if nodes[b].treeParent.Some? && a != nodes[b].treeParent.value {
        ContainmentIsInside(nodes, a, nodes[b].treeParent.value);
      }
    }
  }

  /** The `n`-th tree parent above `h`. */
  ghost function Climb(tree: Tree, h: Hash, n: nat): Option<Hash>
    decreases n
  {
    if h !in tree then None
    else if n == 0 then Some(h)
    else if tree[h].None? then None
    else Climb(tree, tree[h].value, n - 1)
  }

  /** `a` is `b` or above it in the tree. */
  ghost predicate AboveInTree(tree: Tree, a: Hash, b: Hash) {
    exists n: nat :: Climb(tree, b, n) == Some(a)
  }

  lemma {:induction false} AboveStep(tree: Tree, a: Hash, b: Hash)
    requires a in tree && b in tree
    ensures AboveInTree(tree, a, b) <==> a == b || (tree[b].Some? && AboveInTree(tree, a, tree[b].value))
  {
    if AboveInTree(tree, a, b) {
      var n: nat :| Climb(tree, b, n) == Some(a);
      if n > 0 {
        assert Climb(tree, tree[b].value, n - 1) == Some(a);
      }
    }
    if a == b {
      assert Climb(tree, b, 0) == Some(a);
    } else if tree[b].Some? && AboveInTree(tree, a, tree[b].value) {
      var n: nat :| Climb(tree, tree[b].value, n) == Some(a);
      assert Climb(tree, b, n + 1) == Some(a);
    }
  }

  /** In a sound index interval containment is being above in the tree. */
  lemma {:induction false} ContainmentIsTree(nodes: Nodes, a: Hash, b: Hash, bound: nat)
    requires Index(nodes) && a in nodes && b in nodes && Below(nodes, bound)
    ensures ChainReaches(nodes, a, b) <==> AboveInTree(TreeOf(nodes), a, b)
    decreases bound - nodes[b].interval.end
  {
    ContainmentFollowsTree(nodes, a, b);
    AboveStep(TreeOf(nodes), a, b);
    if nodes[b].treeParent.Some? {
      ContainmentIsTree(nodes, a, nodes[b].treeParent.value, bound);
    }
  }

  // ----- Carving a child out of its parent's free space -----

  predicate HasRoom(n: Node) {
    n.nextFree < n.interval.end
  }

  function ChildInterval(p: Node): Interval
    requires HasRoom(p)
  {
    var avail := p.interval.end - p.nextFree;
    var width := if avail > SIBLING_RESERVE then avail - SIBLING_RESERVE else avail;
    Interval(p.nextFree, p.nextFree + width - 1)
  }

  function Carve(nodes: Nodes, parent: Hash, h: Hash): Nodes
    requires parent in nodes && HasRoom(nodes[parent])
  {
    var p := nodes[parent];
    var iv := ChildInterval(p);
    nodes[parent := p.(nextFree := iv.end + 1, treeChildren := p.treeChildren + [h])]
         [h := Node(iv, Some(parent), [], iv.start, [])]
  }

  lemma {:induction false} CarveLaminar(nodes: Nodes, parent: Hash, h: Hash)
    requires Laminar(nodes) && parent in nodes && h !in nodes && HasRoom(nodes[parent])
    ensures Laminar(Carve(nodes, parent, h))
  {
    var m := Carve(nodes, parent, h);
    forall x | x in nodes && x != parent
      ensures Separate(m[x], m[h]) && Separate(m[h], m[x])
      ensures Separate(m[x], m[parent]) && Separate(m[parent], m[x])
    {
      assert Separate(nodes[x], nodes[parent]);
    }
  }

  lemma {:induction false} CarveTight(nodes: Nodes, parent: Hash, h: Hash)
    requires Laminar(nodes) && Linked(nodes) && Tight(nodes)
    requires parent in nodes && h !in nodes && HasRoom(nodes[parent])
    ensures Tight(Carve(nodes, parent, h))
  {
    var m := Carve(nodes, parent, h);
    CarveLaminar(nodes, parent, h);
    forall k, x | k in m && x in m
      ensures TightAt(m, k, x)
    {
      if k != x && Inside(m[k], m[x]) {
        if k == h {
          if x != parent {
            assert Separate(nodes[x], nodes[parent]);
          }
        } else if x != h {
          assert Separate(nodes[k], nodes[x]);
          assert TightAt(nodes, k, x) && UpLink(nodes, k);
        }
      }
    }
  }

  lemma {:induction false} CarveLinked(nodes: Nodes, parent: Hash, h: Hash)
    requires Laminar(nodes) && Linked(nodes) && parent in nodes && h !in nodes && HasRoom(nodes[parent])
    ensures Linked(Carve(nodes, parent, h))
  {
    var m := Carve(nodes, parent, h);
    assert DownLink(nodes, parent);
    forall k | k in m
      ensures UpLink(m, k) && DownLink(m, k)
    {
      if k != h {
        assert UpLink(nodes, k) && DownLink(nodes, k);
      }
    }
  }

  /** The new child reaches nothing else, and is chain-reached exactly by itself and by what
      chain-reaches its parent; every other answer is unchanged. */
  lemma {:induction false} CarveAnswers(nodes: Nodes, parent: Hash, h: Hash)
    requires Index(nodes) && parent in nodes && h !in nodes && HasRoom(nodes[parent])
    ensures var m := Carve(nodes, parent, h);
            && (forall a, b :: a in nodes && b in nodes ==> (ChainReaches(m, a, b) <==> ChainReaches(nodes, a, b)))
            && (forall a :: a in nodes ==> (ChainReaches(m, a, h) <==> ChainReaches(nodes, a, parent)))
            && (forall b :: b in nodes ==> !ChainReaches(m, h, b))
  {
    var m := Carve(nodes, parent, h);
    forall a | a in nodes
      ensures ChainReaches(m, a, h) <==> ChainReaches(nodes, a, parent)
      ensures !ChainReaches(m, h, a)
    {
      if a != parent {
        assert Separate(nodes[a], nodes[parent]);
      }
    }
  }

  lemma {:induction false} CarveIndex(nodes: Nodes, parent: Hash, h: Hash)
    requires Index(nodes) && parent in nodes && h !in nodes && HasRoom(nodes[parent])
    ensures Index(Carve(nodes, parent, h))
  {
    CarveLaminar(nodes, parent, h);
    CarveTight(nodes, parent, h);
    CarveLinked(nodes, parent, h);
  }

  // ----- A fresh root -----

  ghost predicate Below(nodes: Nodes, bound: nat) {
    forall h :: h in nodes ==> nodes[h].interval.end < bound
  }

  function Plant(nodes: Nodes, start: nat, h: Hash): Nodes {
    nodes[h := Node(Interval(start, start + SCALE - 1), None, [], start, [])]
  }

  lemma {:induction false} PlantForest(nodes: Nodes, start: nat, h: Hash)
    requires Laminar(nodes) && Linked(nodes) && Tight(nodes)
    requires h !in nodes && Below(nodes, start) && SPACE_START <= start
    ensures Laminar(Plant(nodes, start, h)) && Linked(Plant(nodes, start, h)) && Tight(Plant(nodes, start, h))
  {
    var m := Plant(nodes, start, h);
    forall k | k in m
      ensures UpLink(m, k) && DownLink(m, k)
    {
      assert k != h ==> UpLink(nodes, k) && DownLink(nodes, k);
    }
    forall k, x | k in m && x in m
      ensures TightAt(m, k, x)
    {
      assert k != h && x != h ==> TightAt(nodes, k, x);
    }
  }

  lemma {:induction false} PlantIndex(nodes: Nodes, start: nat, h: Hash)
    requires Index(nodes) && h !in nodes && Below(nodes, start) && SPACE_START <= start
    ensures Index(Plant(nodes, start, h)) && Below(Plant(nodes, start, h), start + SCALE)
  {
    PlantForest(nodes, start, h);
    var m := Plant(nodes, start, h);
    forall a | a in m
      ensures Ascending(m, m[a].fcs)
    {
      assert a != h ==> Ascending(nodes, nodes[a].fcs);
    }
  }

  // ----- Covering sets -----

  function InsertAt(s: seq<Hash>, pos: nat, x: Hash): seq<Hash>
    requires pos <= |s|
  {
    s[..pos] + [x] + s[pos..]
  }

  lemma {:induction false} InsertAtMembers(s: seq<Hash>, pos: nat, x: Hash)
    requires pos <= |s|
    ensures forall y :: y in InsertAt(s, pos, x) <==> y in s || y == x
  {
    var t := InsertAt(s, pos, x);
    assert t[pos] == x;
    forall y | y in s
      ensures y in t
    {
      var i :| 0 <= i < |s| && s[i] == y;
      assert t[if i < pos then i else i + 1] == y;
    }
  }

  /** `pos` is where a binary search on interval starts puts `target`. */
  ghost predicate Splits(nodes: Nodes, fcs: seq<Hash>, target: nat, pos: nat) {
    && pos <= |fcs|
    && (forall i :: 0 <= i < |fcs| ==> fcs[i] in nodes)
    && (forall i :: 0 <= i < pos ==> nodes[fcs[i]].interval.start <= target)
    && (forall i :: pos <= i < |fcs| ==> target < nodes[fcs[i]].interval.start)
  }

  /** Only the last entry starting at or before the target can cover it. */
  lemma {:induction false} OnlyCandidate(nodes: Nodes, fcs: seq<Hash>, target: Interval, pos: nat)
    requires Laminar(nodes) && Ascending(nodes, fcs) && target.start <= target.end
    requires Splits(nodes, fcs, target.start, pos)
    ensures Covers(nodes, fcs, target) <==> pos > 0 && nodes[fcs[pos - 1]].interval.Contains(target)
  {
    if Covers(nodes, fcs, target) {
      var e :| e in fcs && e in nodes && nodes[e].interval.Contains(target);
      var i :| 0 <= i < |fcs| && fcs[i] == e;
      var last := nodes[fcs[pos - 1]];
      if i < pos - 1 {
        assert false;
      }
    }
  }

  /** A childless block that no entry covers goes in without disturbing the antichain. */
  lemma {:induction false} InsertAscends(nodes: Nodes, fcs: seq<Hash>, h: Hash, pos: nat)
    requires Laminar(nodes) && Ascending(nodes, fcs) && h in nodes
    requires nodes[h].nextFree == nodes[h].interval.start
    requires !Covers(nodes, fcs, nodes[h].interval) && Splits(nodes, fcs, nodes[h].interval.start, pos)
    ensures Ascending(nodes, InsertAt(fcs, pos, h))
  {
    var t := InsertAt(fcs, pos, h);
    forall i | 0 <= i < |fcs|
      ensures Disjoint(nodes[fcs[i]], nodes[h])
    {
      if fcs[i] == h {
        assert nodes[fcs[i]].interval.Contains(nodes[h].interval);
      } else {
        assert Separate(nodes[fcs[i]], nodes[h]);
        if Inside(nodes[h], nodes[fcs[i]]) {
          assert nodes[fcs[i]].interval.Contains(nodes[h].interval);
        }
      }
    }
    forall i, j | 0 <= i < j < |t|
      ensures nodes[t[i]].interval.end < nodes[t[j]].interval.start
    {
      var i' := if i < pos then i else i - 1;
      var j' := if j < pos then j else j - 1;
      if i != pos && j != pos {
        assert t[i] == fcs[i'] && t[j] == fcs[j'];
      } else if i == pos {
        assert t[j] == fcs[j'] && Disjoint(nodes[fcs[j']], nodes[h]);
      } else {
        assert t[i] == fcs[i'] && Disjoint(nodes[fcs[i']], nodes[h]);
      }
    }
  }

  function SetFcs(nodes: Nodes, m: Hash, fcs: seq<Hash>): Nodes
    requires m in nodes
  {
    nodes[m := nodes[m].(fcs := fcs)]
  }

  /** Two indexes differ in their covering sets only. */
  ghost predicate SameForest(nodes: Nodes, m: Nodes) {
    && m.Keys == nodes.Keys
    && forall h :: h in nodes ==> m[h] == nodes[h].(fcs := m[h].fcs)
  }

  lemma {:induction false} SameForestKeepsLinks(nodes: Nodes, m: Nodes)
    requires Linked(nodes) && SameForest(nodes, m)
    ensures Linked(m)
  {
    forall a | a in m
      ensures UpLink(m, a) && DownLink(m, a)
    {
      assert UpLink(nodes, a) && DownLink(nodes, a);
    }
  }

  lemma {:induction false} SameForestKeepsNesting(nodes: Nodes, m: Nodes)
    requires Laminar(nodes) && Tight(nodes) && SameForest(nodes, m)
    ensures Laminar(m) && Tight(m)
  {
    forall x, y | x in m && y in m
      ensures TightAt(m, x, y)
      ensures x != y ==> Separate(m[x], m[y])
    {
      assert TightAt(nodes, x, y);
      assert x != y ==> Separate(nodes[x], nodes[y]);
    }
  }

  /** Changing one covering set leaves the forest alone. */
  lemma {:induction false} SetFcsIndex(nodes: Nodes, m: Hash, fcs: seq<Hash>)
    requires Index(nodes) && m in nodes && Ascending(nodes, fcs)
    ensures Index(SetFcs(nodes, m, fcs))
  {
    var n := SetFcs(nodes, m, fcs);
    SameForestKeepsLinks(nodes, n);
    SameForestKeepsNesting(nodes, n);
    forall a | a in n
      ensures Ascending(n, n[a].fcs)
    {
      assert Ascending(nodes, n[a].fcs);
    }
  }

  // ----- Removing a leaf, keeping a suffix -----

  function Without(s: seq<Hash>, h: Hash): seq<Hash> {
    Filter(s, {h})
  }

  lemma {:induction false} FilterAscends(nodes: Nodes, m: Nodes, s: seq<Hash>, out: set<Hash>)
    requires Ascending(nodes, s)
    requires forall x :: x in s && x !in out ==> x in m && m[x].interval == nodes[x].interval
    ensures Ascending(m, Filter(s, out))
  {
    if s != [] {
      assert Ascending(nodes, s[1..]);
      FilterAscends(nodes, m, s[1..], out);
      FilterMembers(s[1..], out);
      var t := Filter(s[1..], out);
      if s[0] !in out {
        assert s[0] in s;
        forall j | 0 <= j < |t|
          ensures nodes[s[0]].interval.end < m[t[j]].interval.start
        {
          assert t[j] in t && t[j] in s[1..];
          var i :| 0 <= i < |s[1..]| && s[1..][i] == t[j];
          assert s[i + 1] == t[j];
        }
      }
    }
  }

  /** Drop the blocks of `out`: survivors whose tree parent goes become roots, and no child
      list or covering set names a dropped block any more. */
  function Drop(nodes: Nodes, out: set<Hash>): Nodes {
    map h | h in nodes && h !in out ::
      nodes[h].(treeParent := if nodes[h].treeParent.Some? && nodes[h].treeParent.value in out then None
                              else nodes[h].treeParent,
                treeChildren := Filter(nodes[h].treeChildren, out),
                fcs := Filter(nodes[h].fcs, out))
  }

  /** Nothing that is kept reaches anything that is dropped, other than leaves which enclose
      nothing. */
  ghost predicate Droppable(nodes: Nodes, out: set<Hash>) {
    forall a, b :: a in nodes && b in nodes && a !in out && b in out && Reaches(nodes, a, b) ==>
      nodes[b].treeChildren == []
  }

  lemma {:induction false} ChildlessEnclosesNothing(nodes: Nodes, h: Hash, x: Hash)
    requires Index(nodes) && h in nodes && x in nodes && nodes[h].treeChildren == [] && x != h
    ensures !Inside(nodes[x], nodes[h])
    decreases nodes[h].interval.end - nodes[x].interval.end
  {
    if Inside(nodes[x], nodes[h]) {
      assert TightAt(nodes, x, h) && UpLink(nodes, x);
      var q := nodes[x].treeParent.value;
      assert x in nodes[q].treeChildren;
      if q != h {
        ChildlessEnclosesNothing(nodes, h, q);
      }
    }
  }

  lemma {:induction false} DropLaminarLinked(nodes: Nodes, out: set<Hash>)
    requires Laminar(nodes) && Linked(nodes)
    ensures Laminar(Drop(nodes, out)) && Linked(Drop(nodes, out))
  {
    var m := Drop(nodes, out);
    assert forall x :: x in m ==> m[x].interval == nodes[x].interval && m[x].nextFree == nodes[x].nextFree;
    forall x, y | x in m && y in m && x != y
      ensures Separate(m[x], m[y])
    {
      assert Separate(nodes[x], nodes[y]);
    }
    forall p | p in m
      ensures UpLink(m, p) && DownLink(m, p)
    {
      assert UpLink(nodes, p) && DownLink(nodes, p);
      FilterDistinct(nodes[p].treeChildren, out);
      FilterMembers(nodes[p].treeChildren, out);
      if m[p].treeParent.Some? {
        FilterMembers(nodes[m[p].treeParent.value].treeChildren, out);
      }
    }
  }

  lemma {:induction false} DropTight(nodes: Nodes, out: set<Hash>)
    requires Index(nodes) && Droppable(nodes, out)
    ensures Tight(Drop(nodes, out))
  {
    var m := Drop(nodes, out);
    forall h, x | h in m && x in m
      ensures TightAt(m, h, x)
    {
      assert TightAt(nodes, h, x) && UpLink(nodes, h);
      if h != x && Inside(m[h], m[x]) && nodes[h].treeParent.value in out {
        var q := nodes[h].treeParent.value;
        ContainmentIsInside(nodes, x, q);
        assert Reaches(nodes, x, q);
        assert false;
      }
    }
  }

  lemma {:induction false} DropIndex(nodes: Nodes, out: set<Hash>)
    requires Index(nodes) && Droppable(nodes, out)
    ensures Index(Drop(nodes, out))
  {
    var m := Drop(nodes, out);
    DropLaminarLinked(nodes, out);
    DropTight(nodes, out);
    forall a | a in m
      ensures Ascending(m, m[a].fcs)
    {
      assert Ascending(nodes, nodes[a].fcs);
      FilterAscends(nodes, m, nodes[a].fcs, out);
    }
  }

  lemma {:induction false} DropTree(nodes: Nodes, keep: set<Hash>)
    requires Linked(nodes)
    ensures TreeOf(Drop(nodes, nodes.Keys - keep)) == CutTo(TreeOf(nodes), keep)
  {
    forall h | h in nodes && h in keep
      ensures Drop(nodes, nodes.Keys - keep)[h].treeParent == CutTo(TreeOf(nodes), keep)[h]
    {
      assert UpLink(nodes, h);
    }
  }

  /** Dropping a leaf cuts nobody off. */
  lemma {:induction false} DropLeafTree(nodes: Nodes, h: Hash)
    requires IsLeaf(TreeOf(nodes), h)
    ensures TreeOf(Drop(nodes, {h})) == TreeOf(nodes) - {h}
  {
    forall c | c in nodes && c != h
      ensures Drop(nodes, {h})[c].treeParent == nodes[c].treeParent
    {
      assert TreeOf(nodes)[c] != Some(h);
    }
  }

  /** Answers between survivors do not change. */
  lemma {:induction false} DropAnswers(nodes: Nodes, out: set<Hash>, a: Hash, b: Hash)
    requires Index(nodes) && Droppable(nodes, out)
    requires a in nodes && a !in out && b in nodes && b !in out
    ensures ChainReaches(Drop(nodes, out), a, b) <==> ChainReaches(nodes, a, b)
    ensures Reaches(Drop(nodes, out), a, b) <==> Reaches(nodes, a, b)
  {
    var m := Drop(nodes, out);
    FilterMembers(nodes[a].fcs, out);
    if Covers(nodes, nodes[a].fcs, nodes[b].interval) {
      var e :| e in nodes[a].fcs && e in nodes && nodes[e].interval.Contains(nodes[b].interval);
      if e in out {
        assert nodes[e].interval.Contains(nodes[e].interval);
        assert Reaches(nodes, a, e);
        ContainmentIsInside(nodes, e, b);
        ChildlessEnclosesNothing(nodes, e, b);
        assert false;
      }
      assert e in m[a].fcs && e in m;
    }
  }
}
