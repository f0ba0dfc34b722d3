/** What a whole-forest reindex computes: subtree sizes, a window per node, and the proof that
    the new labels nest exactly as the old ones did and leave every node room for a child. */
module Reindex {
  import opened Types
  import opened Forest

  ghost predicate Nested(nodes: Nodes) {
    Laminar(nodes) && Linked(nodes) && Tight(nodes)
  }

  predicate IsRoot(nodes: Nodes, h: Hash)
    requires h in nodes
  {
    nodes[h].treeParent.None? || nodes[h].treeParent.value !in nodes
  }

  lemma {:induction false} ChildBelow(nodes: Nodes, p: Hash, i: nat)
    requires Nested(nodes) && p in nodes && i < |nodes[p].treeChildren|
    ensures var c := nodes[p].treeChildren[i];
            && c in nodes && c != p && nodes[c].treeParent == Some(p) && Inside(nodes[c], nodes[p])
            && nodes[c].interval.end < nodes[p].interval.end
  {
    assert DownLink(nodes, p);
    assert nodes[p].treeChildren[i] in nodes[p].treeChildren;
    assert UpLink(nodes, nodes[p].treeChildren[i]);
  }

  // ----- Subtree sizes -----

  /** Blocks in the subtree of `h`. */
  ghost function Size(nodes: Nodes, h: Hash): nat
    requires Nested(nodes) && h in nodes
    decreases nodes[h].interval.end, |nodes[h].treeChildren| + 1
  {
    1 + ChildSpan(nodes, h, |nodes[h].treeChildren|)
  }

  /** Blocks in the subtrees of the first `i` children of `p`. */
  ghost function ChildSpan(nodes: Nodes, p: Hash, i: nat): nat
    requires Nested(nodes) && p in nodes && i <= |nodes[p].treeChildren|
    decreases nodes[p].interval.end, i
  {
    if i == 0 then 0
    else
      ChildBelow(nodes, p, i - 1);
      ChildSpan(nodes, p, i - 1) + Size(nodes, nodes[p].treeChildren[i - 1])
  }

  lemma {:induction false} ChildSpanMonotone(nodes: Nodes, p: Hash, i: nat, j: nat)
    requires Nested(nodes) && p in nodes && i <= j <= |nodes[p].treeChildren|
    ensures ChildSpan(nodes, p, i) <= ChildSpan(nodes, p, j)
  {
    if i < j {
      ChildSpanMonotone(nodes, p, i, j - 1);
    }
  }

  /** The blocks whose chain passes through `h`. */
  ghost function Subtree(nodes: Nodes, h: Hash): set<Hash>
    requires h in nodes
  {
    set x | x in nodes && ChainReaches(nodes, h, x)
  }

  ghost function ChildSubtrees(nodes: Nodes, p: Hash, i: nat): set<Hash>
    requires p in nodes && i <= |nodes[p].treeChildren|
    requires forall c :: c in nodes[p].treeChildren ==> c in nodes
  {
    if i == 0 then {} else ChildSubtrees(nodes, p, i - 1) + Subtree(nodes, nodes[p].treeChildren[i - 1])
  }

  lemma {:induction false} ChildSubtreesMember(nodes: Nodes, p: Hash, i: nat, x: Hash)
    requires p in nodes && i <= |nodes[p].treeChildren|
    requires forall c :: c in nodes[p].treeChildren ==> c in nodes
    ensures x in ChildSubtrees(nodes, p, i) <==>
            exists j :: 0 <= j < i && x in Subtree(nodes, nodes[p].treeChildren[j])
  {
    if i > 0 {
      ChildSubtreesMember(nodes, p, i - 1, x);
    }
  }

  lemma {:induction false} SiblingsDisjoint(nodes: Nodes, c: Hash, d: Hash)
    requires Nested(nodes) && c in nodes && d in nodes && c != d && nodes[c].treeParent == nodes[d].treeParent
    ensures Disjoint(nodes[c], nodes[d])
  {
    assert Separate(nodes[c], nodes[d]);
    assert TightAt(nodes, c, d) && TightAt(nodes, d, c);
    assert UpLink(nodes, c) && UpLink(nodes, d);
  }

  /** An enclosed node lies in the subtree of some child. */
  lemma {:induction false} EnclosedIsBelowChild(nodes: Nodes, p: Hash, x: Hash) returns (c: Hash)
    requires Nested(nodes) && p in nodes && x in nodes && x != p && Inside(nodes[x], nodes[p])
    ensures c in nodes[p].treeChildren && c in nodes && ChainReaches(nodes, c, x)
    decreases nodes[p].interval.end - nodes[x].interval.end
  {
    assert TightAt(nodes, x, p) && UpLink(nodes, x);
    var q := nodes[x].treeParent.value;
    if q == p {
      c := x;
    } else {
      c := EnclosedIsBelowChild(nodes, p, q);
    }
  }

  lemma {:induction false} ChildSubtreesCount(nodes: Nodes, p: Hash, i: nat)
    requires Nested(nodes) && p in nodes && i <= |nodes[p].treeChildren|
    ensures DownLink(nodes, p)
    ensures |ChildSubtrees(nodes, p, i)| == ChildSpan(nodes, p, i)
    decreases nodes[p].interval.end, i
  {
    assert DownLink(nodes, p);
    if i > 0 {
      ChildSubtreesCount(nodes, p, i - 1);
      ChildBelow(nodes, p, i - 1);
      var c := nodes[p].treeChildren[i - 1];
      SubtreeCount(nodes, c);
      forall x | x in ChildSubtrees(nodes, p, i - 1)
        ensures x !in Subtree(nodes, c)
      {
        ChildSubtreesMember(nodes, p, i - 1, x);
        var j :| 0 <= j < i - 1 && x in Subtree(nodes, nodes[p].treeChildren[j]);
        ChildBelow(nodes, p, j);
        SiblingsDisjoint(nodes, nodes[p].treeChildren[j], c);
      }
      assert ChildSubtrees(nodes, p, i - 1) !! Subtree(nodes, c);
    }
  }

  /** `Size` counts the indexed blocks whose chain passes through `h`. */
  lemma {:induction false} SubtreeCount(nodes: Nodes, h: Hash)
    requires Nested(nodes) && h in nodes
    ensures |Subtree(nodes, h)| == Size(nodes, h)
    decreases nodes[h].interval.end, |nodes[h].treeChildren| + 1
  {
    var k := |nodes[h].treeChildren|;
    ChildSubtreesCount(nodes, h, k);
    SubtreeIsNodeAndChildSubtrees(nodes, h);
  }

  lemma {:induction false} SubtreeIsNodeAndChildSubtrees(nodes: Nodes, h: Hash)
    requires Nested(nodes) && h in nodes && DownLink(nodes, h)
    ensures Subtree(nodes, h) == {h} + ChildSubtrees(nodes, h, |nodes[h].treeChildren|)
    ensures h !in ChildSubtrees(nodes, h, |nodes[h].treeChildren|)
  {
    var k := |nodes[h].treeChildren|;
    forall x
      ensures x in Subtree(nodes, h) <==> x == h || x in ChildSubtrees(nodes, h, k)
    {
      if x in nodes {
        SubtreeMember(nodes, h, x);
      } else {
        ChildSubtreesMember(nodes, h, k, x);
      }
    }
    ChildSubtreesMember(nodes, h, k, h);
    if h in ChildSubtrees(nodes, h, k) {
      var j :| 0 <= j < k && h in Subtree(nodes, nodes[h].treeChildren[j]);
      ChildBelow(nodes, h, j);
    }
  }

  lemma {:induction false} SubtreeMember(nodes: Nodes, h: Hash, x: Hash)
    requires Nested(nodes) && h in nodes && x in nodes && DownLink(nodes, h)
    ensures x in Subtree(nodes, h) <==> x == h || x in ChildSubtrees(nodes, h, |nodes[h].treeChildren|)
  {
    var k := |nodes[h].treeChildren|;
    ChildSubtreesMember(nodes, h, k, x);
    if x != h {
      ContainmentIsInside(nodes, h, x);
      if x in Subtree(nodes, h) {
        var c := EnclosedIsBelowChild(nodes, h, x);
        var j :| 0 <= j < k && nodes[h].treeChildren[j] == c;
        assert x in Subtree(nodes, nodes[h].treeChildren[j]);
      }
      if x in ChildSubtrees(nodes, h, k) {
        var j :| 0 <= j < k && x in Subtree(nodes, nodes[h].treeChildren[j]);
        ChildBelow(nodes, h, j);
      }
    }
  }

  /** Everything below the roots is everything. */
  lemma {:induction false} RootsAndChildrenAreAll(nodes: Nodes, s: set<Hash>, h: Hash, bound: nat)
    requires Nested(nodes) && h in nodes && Below(nodes, bound)
    requires forall r :: r in nodes && IsRoot(nodes, r) ==> r in s
    requires forall p, c :: p in s && p in nodes && c in nodes[p].treeChildren ==> c in s
    ensures h in s
    decreases bound - nodes[h].interval.end
  {
    assert UpLink(nodes, h);
    if !IsRoot(nodes, h) {
      RootsAndChildrenAreAll(nodes, s, nodes[h].treeParent.value, bound);
    }
  }

  // ----- Windows -----

  /** `m` labels `h` with a window of `SCALE` units per block of its subtree and starts its
      children side by side at the front of that window. */
  ghost predicate LabelledAt(nodes: Nodes, m: Nodes, h: Hash)
    requires Nested(nodes) && h in nodes && m.Keys == nodes.Keys
  {
    && m[h] == nodes[h].(interval := m[h].interval, nextFree := m[h].nextFree)
    && m[h].nextFree == m[h].interval.start + SCALE * ChildSpan(nodes, h, |nodes[h].treeChildren|)
    && m[h].interval.end == m[h].nextFree + SCALE - 1
    && forall i {:trigger nodes[h].treeChildren[i]} :: 0 <= i < |nodes[h].treeChildren| ==>
         && nodes[h].treeChildren[i] in m
         && m[nodes[h].treeChildren[i]].interval.start == m[h].interval.start + SCALE * ChildSpan(nodes, h, i)
  }

  /** Root windows lie side by side below `cursor`. */
  ghost predicate RootsApart(nodes: Nodes, m: Nodes, cursor: nat)
    requires m.Keys == nodes.Keys
  {
    && (forall r {:trigger IsRoot(nodes, r)} :: r in nodes && IsRoot(nodes, r) ==>
          SPACE_START <= m[r].interval.start && m[r].interval.end < cursor)
    && (forall r, t {:trigger IsRoot(nodes, r), IsRoot(nodes, t)} ::
          r in nodes && t in nodes && r != t && IsRoot(nodes, r) && IsRoot(nodes, t) ==> Disjoint(m[r], m[t]))
  }

  ghost predicate Labelled(nodes: Nodes, m: Nodes, cursor: nat) {
    && Nested(nodes)
    && m.Keys == nodes.Keys
    && RootsApart(nodes, m, cursor)
    && forall h {:trigger LabelledAt(nodes, m, h)} :: h in nodes ==> LabelledAt(nodes, m, h)
  }

  lemma {:induction false} ChildIndex(nodes: Nodes, c: Hash) returns (i: nat)
    requires Nested(nodes) && c in nodes && !IsRoot(nodes, c)
    ensures var p := nodes[c].treeParent.value;
            p in nodes && i < |nodes[p].treeChildren| && nodes[p].treeChildren[i] == c
  {
    assert UpLink(nodes, c);
    var p := nodes[c].treeParent.value;
    i :| 0 <= i < |nodes[p].treeChildren| && nodes[p].treeChildren[i] == c;
  }

  lemma {:induction false} WindowEnd(nodes: Nodes, m: Nodes, cursor: nat, h: Hash)
    requires Labelled(nodes, m, cursor) && h in nodes
    ensures m[h].interval.end + 1 == m[h].interval.start + SCALE * Size(nodes, h)
    ensures m[h].interval.start <= m[h].nextFree && HasRoom(m[h])
  {
    assert LabelledAt(nodes, m, h);
  }

  /** A child's window lies in the handed-out part of its parent's. */
  lemma {:induction false} WindowInParent(nodes: Nodes, m: Nodes, cursor: nat, c: Hash)
    requires Labelled(nodes, m, cursor) && c in nodes && !IsRoot(nodes, c)
    ensures nodes[c].treeParent.value in nodes
    ensures Inside(m[c], m[nodes[c].treeParent.value])
    ensures m[nodes[c].treeParent.value].nextFree <= m[nodes[c].treeParent.value].interval.end
  {
    var p := nodes[c].treeParent.value;
    var i := ChildIndex(nodes, c);
    assert LabelledAt(nodes, m, p);
    ChildWindow(nodes, m, cursor, p, i);
    ChildSpanMonotone(nodes, p, i + 1, |nodes[p].treeChildren|);
  }

  /** The window of the `i`-th child, in units from the start of its parent's window. */
  lemma {:induction false} ChildWindow(nodes: Nodes, m: Nodes, cursor: nat, p: Hash, i: nat)
    requires Labelled(nodes, m, cursor) && p in nodes && i < |nodes[p].treeChildren|
    ensures var c := nodes[p].treeChildren[i];
            && c in m
            && m[c].interval.start == m[p].interval.start + SCALE * ChildSpan(nodes, p, i)
            && m[c].interval.end + 1 == m[p].interval.start + SCALE * ChildSpan(nodes, p, i + 1)
  {
    assert LabelledAt(nodes, m, p);
    ChildBelow(nodes, p, i);
    WindowEnd(nodes, m, cursor, nodes[p].treeChildren[i]);
  }

  lemma {:induction false} SiblingWindows(nodes: Nodes, m: Nodes, cursor: nat, p: Hash, i: nat, j: nat)
    requires Labelled(nodes, m, cursor) && p in nodes && i < j < |nodes[p].treeChildren|
    ensures nodes[p].treeChildren[i] in m && nodes[p].treeChildren[j] in m
    ensures Disjoint(m[nodes[p].treeChildren[i]], m[nodes[p].treeChildren[j]])
  {
    ChildWindow(nodes, m, cursor, p, i);
    ChildWindow(nodes, m, cursor, p, j);
    ChildSpanMonotone(nodes, p, i + 1, j);
  }

  lemma {:induction false} EnclosingKept(nodes: Nodes, m: Nodes, cursor: nat, b: Hash, a: Hash)
    requires Labelled(nodes, m, cursor) && a in nodes && b in nodes && a != b && Inside(nodes[b], nodes[a])
    ensures Inside(m[b], m[a])
    decreases nodes[a].interval.end - nodes[b].interval.end
  {
    assert TightAt(nodes, b, a) && UpLink(nodes, b);
    WindowInParent(nodes, m, cursor, b);
    if nodes[b].treeParent.value != a {
      EnclosingKept(nodes, m, cursor, nodes[b].treeParent.value, a);
    }
  }

  /** If `a` and `b` are disjoint and `b` has a tree parent `q`, then `a` and `q` are disjoint,
      or the tree parent of `a` is `q` or lies inside `q`. */
  lemma {:induction false} ParentStaysDisjoint(nodes: Nodes, a: Hash, b: Hash)
    requires Nested(nodes) && a in nodes && b in nodes && Disjoint(nodes[a], nodes[b])
    requires !IsRoot(nodes, b)
    ensures UpLink(nodes, a) && UpLink(nodes, b)
    ensures var q := nodes[b].treeParent.value;
            || Disjoint(nodes[a], nodes[q])
            || (!IsRoot(nodes, a) && nodes[a].treeParent.value == q)
            || (!IsRoot(nodes, a) && Inside(nodes[nodes[a].treeParent.value], nodes[q]))
  {
    assert UpLink(nodes, a) && UpLink(nodes, b);
    var q := nodes[b].treeParent.value;
    assert a != q ==> Separate(nodes[a], nodes[q]);
    assert TightAt(nodes, a, q);
  }

  lemma {:induction false} DisjointKept(nodes: Nodes, m: Nodes, cursor: nat, a: Hash, b: Hash, bound: nat)
    requires Labelled(nodes, m, cursor) && a in nodes && b in nodes && Disjoint(nodes[a], nodes[b])
    requires Below(nodes, bound)
    ensures Disjoint(m[a], m[b])
    decreases 2 * bound - nodes[a].interval.end - nodes[b].interval.end, 1
  {
    if IsRoot(nodes, a) && IsRoot(nodes, b) {
      assert a != b;
    } else if IsRoot(nodes, b) {
      ParentStaysDisjoint(nodes, b, a);
      WindowInParent(nodes, m, cursor, a);
      DisjointKept(nodes, m, cursor, nodes[a].treeParent.value, b, bound);
    } else {
      ParentStaysDisjoint(nodes, a, b);
      if Disjoint(nodes[a], nodes[nodes[b].treeParent.value]) {
        WindowInParent(nodes, m, cursor, b);
        DisjointKept(nodes, m, cursor, a, nodes[b].treeParent.value, bound);
      } else {
        DisjointKeptBelowCommon(nodes, m, cursor, a, b, bound);
      }
    }
  }

  lemma {:induction false} DisjointKeptBelowCommon(nodes: Nodes, m: Nodes, cursor: nat, a: Hash, b: Hash, bound: nat)
    requires Labelled(nodes, m, cursor) && a in nodes && b in nodes && Disjoint(nodes[a], nodes[b])
    requires Below(nodes, bound) && !IsRoot(nodes, a) && !IsRoot(nodes, b)
    requires var q, p := nodes[b].treeParent.value, nodes[a].treeParent.value;
             p in nodes && q in nodes && (p == q || Inside(nodes[p], nodes[q]))
    ensures Disjoint(m[a], m[b])
    decreases 2 * bound - nodes[a].interval.end - nodes[b].interval.end, 0
  {
    var q, p := nodes[b].treeParent.value, nodes[a].treeParent.value;
    if p == q {
      var i := ChildIndex(nodes, a);
      var j := ChildIndex(nodes, b);
      if i < j {
        SiblingWindows(nodes, m, cursor, p, i, j);
      } else {
        SiblingWindows(nodes, m, cursor, p, j, i);
      }
    } else {
      ParentStaysDisjoint(nodes, b, a);
      WindowInParent(nodes, m, cursor, a);
      DisjointKept(nodes, m, cursor, p, b, bound);
    }
  }

  lemma {:induction false} WindowBelowCursor(nodes: Nodes, m: Nodes, cursor: nat, h: Hash, bound: nat)
    requires Labelled(nodes, m, cursor) && h in nodes && Below(nodes, bound)
    ensures WellSized(m[h]) && HasRoom(m[h]) && m[h].interval.end < cursor
    decreases bound - nodes[h].interval.end
  {
    WindowEnd(nodes, m, cursor, h);
    if !IsRoot(nodes, h) {
      assert UpLink(nodes, h);
      WindowInParent(nodes, m, cursor, h);
      WindowBelowCursor(nodes, m, cursor, nodes[h].treeParent.value, bound);
    }
  }

  /** The new labels enclose one another exactly as the old ones did. */
  lemma {:induction false} EnclosingUnchanged(nodes: Nodes, m: Nodes, cursor: nat, bound: nat, a: Hash, b: Hash)
    requires Labelled(nodes, m, cursor) && Below(nodes, bound) && a in nodes && b in nodes && a != b
    ensures Separate(m[a], m[b])
    ensures Inside(m[b], m[a]) <==> Inside(nodes[b], nodes[a])
  {
    WindowBelowCursor(nodes, m, cursor, a, bound);
    WindowBelowCursor(nodes, m, cursor, b, bound);
    if Inside(nodes[b], nodes[a]) {
      EnclosingKept(nodes, m, cursor, b, a);
    } else if Inside(nodes[a], nodes[b]) {
      EnclosingKept(nodes, m, cursor, a, b);
    } else {
      assert Separate(nodes[a], nodes[b]);
      DisjointKept(nodes, m, cursor, a, b, bound);
    }
  }

  lemma {:induction false} LabelledLinked(nodes: Nodes, m: Nodes, cursor: nat)
    requires Labelled(nodes, m, cursor)
    ensures Linked(m)
  {
    forall h | h in m
      ensures UpLink(m, h) && DownLink(m, h)
    {
      assert UpLink(nodes, h) && DownLink(nodes, h) && LabelledAt(nodes, m, h);
      assert forall c :: c in nodes[h].treeChildren ==> LabelledAt(nodes, m, c);
      if !IsRoot(nodes, h) {
        WindowInParent(nodes, m, cursor, h);
        assert LabelledAt(nodes, m, nodes[h].treeParent.value);
      }
    }
  }

  lemma {:induction false} LabelledTight(nodes: Nodes, m: Nodes, cursor: nat, bound: nat, a: Hash, b: Hash)
    requires Labelled(nodes, m, cursor) && Below(nodes, bound) && a in nodes && b in nodes
    ensures TightAt(m, a, b)
  {
    if a != b && Inside(m[a], m[b]) {
      EnclosingUnchanged(nodes, m, cursor, bound, b, a);
      assert TightAt(nodes, a, b) && LabelledAt(nodes, m, a);
      if nodes[a].treeParent.value != b {
        EnclosingUnchanged(nodes, m, cursor, bound, b, nodes[a].treeParent.value);
      }
    }
  }

  lemma {:induction false} LabelledNested(nodes: Nodes, m: Nodes, cursor: nat, bound: nat)
    requires Labelled(nodes, m, cursor) && Below(nodes, bound)
    ensures Nested(m) && Below(m, cursor)
    ensures forall h :: h in nodes ==> HasRoom(m[h])
  {
    LabelledLinked(nodes, m, cursor);
    forall h | h in nodes
      ensures WellSized(m[h]) && HasRoom(m[h]) && m[h].interval.end < cursor
    {
      WindowBelowCursor(nodes, m, cursor, h, bound);
    }
    forall a, b | a in nodes && b in nodes
      ensures a != b ==> Separate(m[a], m[b])
      ensures TightAt(m, a, b)
    {
      LabelledTight(nodes, m, cursor, bound, a, b);
      if a != b {
        EnclosingUnchanged(nodes, m, cursor, bound, a, b);
      }
    }
  }

  lemma {:induction false} ContainmentUnchanged(nodes: Nodes, m: Nodes, cursor: nat, bound: nat, a: Hash, b: Hash)
    requires Labelled(nodes, m, cursor) && Below(nodes, bound) && a in nodes && b in nodes && Laminar(m)
    ensures ChainReaches(m, a, b) <==> ChainReaches(nodes, a, b)
  {
    if a != b {
      EnclosingUnchanged(nodes, m, cursor, bound, a, b);
      ContainmentIsInside(nodes, a, b);
      ContainmentIsInside(m, a, b);
    }
  }

  // ----- Re-sorting the covering sets -----

  function InsertByStart(nodes: Nodes, h: Hash, s: seq<Hash>): seq<Hash>
    requires h in nodes && forall x :: x in s ==> x in nodes
  {
    if s == [] then [h]
    else if nodes[h].interval.start <= nodes[s[0]].interval.start then [h] + s
    else [s[0]] + InsertByStart(nodes, h, s[1..])
  }

  function SortByStart(nodes: Nodes, s: seq<Hash>): (r: seq<Hash>)
    requires forall x :: x in s ==> x in nodes
    ensures multiset(r) == multiset(s)
    ensures forall x :: x in r <==> x in s
  {
    if s == [] then []
    else
      var t := SortByStart(nodes, s[1..]);
      InsertByStartMultiset(nodes, s[0], t);
      assert s == [s[0]] + s[1..];
      var r := InsertByStart(nodes, s[0], t);
      assert forall x :: x in r <==> x in multiset(r);
      assert forall x :: x in s <==> x in multiset(s);
      r
  }

  lemma {:induction false} InsertByStartMultiset(nodes: Nodes, h: Hash, s: seq<Hash>)
    requires h in nodes && forall x :: x in s ==> x in nodes
    ensures multiset(InsertByStart(nodes, h, s)) == multiset(s) + multiset{h}
  {
    if s != [] && nodes[h].interval.start > nodes[s[0]].interval.start {
      InsertByStartMultiset(nodes, h, s[1..]);
      assert s == [s[0]] + s[1..];
    }
  }

  ghost predicate ByStart(nodes: Nodes, s: seq<Hash>) {
    && (forall x :: x in s ==> x in nodes)
    && forall i, j :: 0 <= i < j < |s| ==> nodes[s[i]].interval.start <= nodes[s[j]].interval.start
  }

  lemma {:induction false} InsertByStartSorted(nodes: Nodes, h: Hash, s: seq<Hash>)
    requires h in nodes && ByStart(nodes, s)
    ensures ByStart(nodes, InsertByStart(nodes, h, s))
  {
    if s == [] {
    } else if nodes[h].interval.start <= nodes[s[0]].interval.start {
      PrependSorted(nodes, h, s);
    } else {
      InsertByStartSorted(nodes, h, s[1..]);
      InsertByStartMultiset(nodes, h, s[1..]);
      var t := InsertByStart(nodes, h, s[1..]);
      forall x | x in t
        ensures x in nodes && nodes[s[0]].interval.start <= nodes[x].interval.start
      {
        assert x in multiset(t);
        assert x == h || x in s[1..];
      }
      PrependSorted(nodes, s[0], t);
    }
  }

  lemma {:induction false} PrependSorted(nodes: Nodes, h: Hash, s: seq<Hash>)
    requires h in nodes && ByStart(nodes, s)
    requires s != [] ==> nodes[h].interval.start <= nodes[s[0]].interval.start
    ensures ByStart(nodes, [h] + s)
  {
  }

  lemma {:induction false} SortByStartSorted(nodes: Nodes, s: seq<Hash>)
    requires forall x :: x in s ==> x in nodes
    ensures ByStart(nodes, SortByStart(nodes, s))
  {
    if s != [] {
      SortByStartSorted(nodes, s[1..]);
      InsertByStartSorted(nodes, s[0], SortByStart(nodes, s[1..]));
    }
  }

  lemma {:induction false} RepeatCountsTwice(t: seq<Hash>, i: nat, j: nat)
    requires i < j < |t| && t[i] == t[j]
    ensures multiset(t)[t[i]] >= 2
  {
    assert t == t[..i] + [t[i]] + t[i + 1..];
    assert t[i + 1..][j - i - 1] == t[j];
    assert t[j] in multiset(t[i + 1..]);
  }

  /** Distinct, pairwise disjoint entries sorted by start form an ascending antichain. */
  lemma {:induction false} SortedAntichainAscends(m: Nodes, s: seq<Hash>)
    requires forall x :: x in s ==> x in m && WellSized(m[x])
    requires forall x, y :: x in s && y in s && x != y ==> Disjoint(m[x], m[y])
    requires forall x :: multiset(s)[x] <= 1
    ensures Ascending(m, SortByStart(m, s))
  {
    var t := SortByStart(m, s);
    SortByStartSorted(m, s);
    forall i, j | 0 <= i < j < |t|
      ensures m[t[i]].interval.end < m[t[j]].interval.start
    {
      assert t[i] in t && t[j] in t;
      if t[i] == t[j] {
        RepeatCountsTwice(t, i, j);
        assert false;
      }
    }
  }

  lemma {:induction false} AscendingIsDistinct(nodes: Nodes, s: seq<Hash>, x: Hash)
    requires Laminar(nodes) && Ascending(nodes, s)
    ensures multiset(s)[x] <= 1
  {
    if s != [] {
      assert s == [s[0]] + s[1..];
      assert Ascending(nodes, s[1..]);
      AscendingIsDistinct(nodes, s[1..], x);
      if x == s[0] {
        assert x !in s[1..];
      }
    }
  }

  ghost function Resorted(m: Nodes): Nodes
    requires forall a, x :: a in m && x in m[a].fcs ==> x in m
  {
    map a | a in m :: m[a].(fcs := SortByStart(m, m[a].fcs))
  }

  /** Everything a reindex promises: the index invariant holds with every label below the
      root cursor, every node has room for a child, and no answer has changed. */
  lemma {:induction false} ReindexKeepsIndex(nodes: Nodes, m: Nodes, cursor: nat, bound: nat)
    requires Index(nodes) && Labelled(nodes, m, cursor) && Below(nodes, bound)
    ensures forall a, x :: a in m && x in m[a].fcs ==> x in m
    ensures var r := Resorted(m);
            Index(r) && Below(r, cursor) && forall h :: h in nodes ==> HasRoom(r[h])
  {
    forall a, x | a in m && x in m[a].fcs
      ensures x in m
    {
      assert LabelledAt(nodes, m, a) && Ascending(nodes, nodes[a].fcs);
    }
    var r := Resorted(m);
    LabelledNested(nodes, m, cursor, bound);
    SameForestKeepsLinks(m, r);
    SameForestKeepsNesting(m, r);
    forall a | a in r
      ensures Ascending(r, r[a].fcs)
    {
      ResortedAscends(nodes, m, cursor, bound, a);
      assert Ascending(m, r[a].fcs);
    }
  }

  lemma {:induction false} ReindexKeepsAnswers(nodes: Nodes, m: Nodes, cursor: nat, bound: nat, a: Hash, b: Hash)
    requires Index(nodes) && Labelled(nodes, m, cursor) && Below(nodes, bound) && a in nodes && b in nodes
    requires forall a, x :: a in m && x in m[a].fcs ==> x in m
    ensures ChainReaches(Resorted(m), a, b) <==> ChainReaches(nodes, a, b)
    ensures Reaches(Resorted(m), a, b) <==> Reaches(nodes, a, b)
  {
    var r := Resorted(m);
    assert Laminar(m) by {
      LabelledNested(nodes, m, cursor, bound);
    }
    forall e | e in nodes
      ensures ChainReaches(r, e, b) <==> ChainReaches(nodes, e, b)
    {
      ContainmentUnchanged(nodes, m, cursor, bound, e, b);
    }
    assert r[a].fcs == SortByStart(m, m[a].fcs);
    assert m[a].fcs == nodes[a].fcs by {
      assert LabelledAt(nodes, m, a);
    }
    SameCover(nodes, r, nodes[a].fcs, r[a].fcs, b);
  }

  lemma {:induction false} SameCover(nodes: Nodes, r: Nodes, s: seq<Hash>, t: seq<Hash>, b: Hash)
    requires r.Keys == nodes.Keys && b in nodes
    requires forall e :: e in t <==> e in s
    requires forall e :: e in nodes ==> (ChainReaches(r, e, b) <==> ChainReaches(nodes, e, b))
    ensures Covers(r, t, r[b].interval) <==> Covers(nodes, s, nodes[b].interval)
  {
    if Covers(nodes, s, nodes[b].interval) {
      var e :| e in s && e in nodes && nodes[e].interval.Contains(nodes[b].interval);
      assert ChainReaches(r, e, b);
    }
    if Covers(r, t, r[b].interval) {
      var e :| e in t && e in r && r[e].interval.Contains(r[b].interval);
      assert ChainReaches(nodes, e, b);
    }
  }

  lemma {:induction false} ResortedAscends(nodes: Nodes, m: Nodes, cursor: nat, bound: nat, a: Hash)
    requires Index(nodes) && Labelled(nodes, m, cursor) && Below(nodes, bound) && a in nodes
    ensures m[a].fcs == nodes[a].fcs && forall x :: x in nodes[a].fcs ==> x in nodes
    ensures Ascending(m, SortByStart(m, nodes[a].fcs))
  {
    var s := nodes[a].fcs;
    assert LabelledAt(nodes, m, a) && Ascending(nodes, s);
    forall x
      ensures multiset(s)[x] <= 1
      ensures x in s ==> x in m && WellSized(m[x])
    {
      AscendingIsDistinct(nodes, s, x);
      if x in s {
        WindowBelowCursor(nodes, m, cursor, x, bound);
      }
    }
    forall x, y | x in s && y in s && x != y
      ensures Disjoint(m[x], m[y])
    {
      DisjointKept(nodes, m, cursor, x, y, bound);
    }
    SortedAntichainAscends(m, s);
  }
}
