/** Invariants of the two explicit-stack loops of a reindex: the post-order walk that sizes
    subtrees and the walk that hands out windows. */
module ReindexLoops {
  import opened Types
  import opened Forest
  import opened Reindex

  // ----- Sizing -----

  ghost predicate OnStack(stack: seq<(Hash, bool)>, from: nat, c: Hash) {
    exists j :: from <= j < |stack| && stack[j].0 == c
  }

  ghost predicate SizesSound(nodes: Nodes, sizes: map<Hash, nat>)
    requires Nested(nodes)
  {
    && sizes.Keys <= nodes.Keys
    && forall h :: h in sizes ==> sizes[h] == Size(nodes, h) && forall c :: c in nodes[h].treeChildren ==> c in sizes
  }

  /** Every child of the `i`-th entry is sized or waits above it. */
  ghost predicate ChildrenPending(nodes: Nodes, sizes: map<Hash, nat>, stack: seq<(Hash, bool)>, i: nat)
    requires i < |stack| && stack[i].0 in nodes
  {
    forall c :: c in nodes[stack[i].0].treeChildren ==> c in sizes || OnStack(stack, i + 1, c)
  }

  ghost predicate SizingWalk(nodes: Nodes, sizes: map<Hash, nat>, stack: seq<(Hash, bool)>) {
    && Nested(nodes)
    && SizesSound(nodes, sizes)
    && (forall i :: 0 <= i < |stack| ==> stack[i].0 in nodes)
    && (forall r {:trigger IsRoot(nodes, r)} :: r in nodes && IsRoot(nodes, r) ==> r in sizes || OnStack(stack, 0, r))
    && (forall i {:trigger ChildrenPending(nodes, sizes, stack, i)} ::
          0 <= i < |stack| && stack[i].1 ==> ChildrenPending(nodes, sizes, stack, i))
  }

  ghost function StackWeight(nodes: Nodes, stack: seq<(Hash, bool)>): nat
    requires Nested(nodes) && forall i :: 0 <= i < |stack| ==> stack[i].0 in nodes
  {
    if stack == [] then 0
    else
      var last := stack[|stack| - 1];
      StackWeight(nodes, stack[..|stack| - 1]) + if last.1 then 1 else 2 * Size(nodes, last.0)
  }

  lemma {:induction false} StackWeightAppend(nodes: Nodes, s: seq<(Hash, bool)>, t: seq<(Hash, bool)>)
    requires Nested(nodes) && (forall i :: 0 <= i < |s| ==> s[i].0 in nodes)
    requires forall i :: 0 <= i < |t| ==> t[i].0 in nodes
    ensures StackWeight(nodes, s + t) == StackWeight(nodes, s) + StackWeight(nodes, t)
    decreases |t|
  {
    if t == [] {
      assert s + t == s;
    } else {
      var u := t[..|t| - 1];
      StackWeightAppend(nodes, s, u);
      assert (s + t)[..|s + t| - 1] == s + u;
    }
  }

  function Waiting(children: seq<Hash>): seq<(Hash, bool)> {
    seq(|children|, i requires 0 <= i < |children| => (children[i], false))
  }

  lemma {:induction false} WaitingWeight(nodes: Nodes, p: Hash, i: nat)
    requires Nested(nodes) && p in nodes && i <= |nodes[p].treeChildren|
    ensures forall j :: 0 <= j < i ==> Waiting(nodes[p].treeChildren[..i])[j].0 in nodes
    ensures StackWeight(nodes, Waiting(nodes[p].treeChildren[..i])) == 2 * ChildSpan(nodes, p, i)
  {
    var w := Waiting(nodes[p].treeChildren[..i]);
    forall j | 0 <= j < i
      ensures w[j].0 in nodes
    {
      ChildBelow(nodes, p, j);
    }
    if i > 0 {
      WaitingWeight(nodes, p, i - 1);
      assert w[..|w| - 1] == Waiting(nodes[p].treeChildren[..i - 1]);
    }
  }

  ghost predicate AllIn(nodes: Nodes, stack: seq<(Hash, bool)>) {
    forall i :: 0 <= i < |stack| ==> stack[i].0 in nodes
  }

  lemma {:induction false} VisitWeight(nodes: Nodes, rest: seq<(Hash, bool)>, node: Hash)
    requires Nested(nodes) && AllIn(nodes, rest) && node in nodes
    ensures AllIn(nodes, rest + [(node, true)] + Waiting(nodes[node].treeChildren))
    ensures StackWeight(nodes, rest + [(node, true)] + Waiting(nodes[node].treeChildren))
            < StackWeight(nodes, rest + [(node, false)])
  {
    var cs := nodes[node].treeChildren;
    WaitingWeight(nodes, node, |cs|);
    assert cs[..|cs|] == cs;
    assert AllIn(nodes, Waiting(cs));
    StackWeightAppend(nodes, rest, [(node, false)]);
    StackWeightAppend(nodes, rest, [(node, true)]);
    StackWeightAppend(nodes, rest + [(node, true)], Waiting(cs));
  }

  /** Pushing keeps whatever was on the stack there. */
  lemma {:induction false} VisitOnStack(stack: seq<(Hash, bool)>, pushed: seq<(Hash, bool)>, from: nat, c: Hash)
    requires |stack| <= |pushed| && forall i :: 0 <= i < |stack| ==> pushed[i].0 == stack[i].0
    requires OnStack(stack, from, c)
    ensures OnStack(pushed, from, c)
  {
    var j :| from <= j < |stack| && stack[j].0 == c;
    assert pushed[j].0 == c;
  }

  lemma {:induction false} VisitPending(nodes: Nodes, sizes: map<Hash, nat>, stack: seq<(Hash, bool)>,
                                        rest: seq<(Hash, bool)>, node: Hash, i: nat)
    requires AllIn(nodes, stack) && stack == rest + [(node, false)] && node in nodes
    requires i < |rest| && stack[i].1 ==> ChildrenPending(nodes, sizes, stack, i)
    requires var pushed := rest + [(node, true)] + Waiting(nodes[node].treeChildren);
             i < |pushed| && pushed[i].1 && AllIn(nodes, pushed)
    ensures ChildrenPending(nodes, sizes, rest + [(node, true)] + Waiting(nodes[node].treeChildren), i)
  {
    var cs := nodes[node].treeChildren;
    var pushed := rest + [(node, true)] + Waiting(cs);
    assert forall k :: 0 <= k < |stack| ==> pushed[k].0 == stack[k].0;
    forall c | c in nodes[pushed[i].0].treeChildren
      ensures c in sizes || OnStack(pushed, i + 1, c)
    {
      if i < |rest| {
        assert pushed[i] == stack[i];
        if c !in sizes {
          VisitOnStack(stack, pushed, i + 1, c);
        }
      } else {
        assert i == |rest|;
        var j :| 0 <= j < |cs| && cs[j] == c;
        assert pushed[|rest| + 1 + j] == (c, false);
      }
    }
  }

  /** Visiting a node for the first time: it goes back marked, its children above it. */
  lemma {:induction false} VisitStep(nodes: Nodes, sizes: map<Hash, nat>, stack: seq<(Hash, bool)>,
                                     rest: seq<(Hash, bool)>, node: Hash)
    requires SizingWalk(nodes, sizes, stack) && stack == rest + [(node, false)]
    ensures node in nodes
    ensures SizingWalk(nodes, sizes, rest + [(node, true)] + Waiting(nodes[node].treeChildren))
    ensures StackWeight(nodes, rest + [(node, true)] + Waiting(nodes[node].treeChildren)) < StackWeight(nodes, stack)
  {
    assert stack[|rest|].0 == node;
    assert AllIn(nodes, rest) by {
      assert forall i :: 0 <= i < |rest| ==> rest[i] == stack[i];
    }
    VisitWeight(nodes, rest, node);
    var pushed := rest + [(node, true)] + Waiting(nodes[node].treeChildren);
    assert forall i :: 0 <= i < |stack| ==> pushed[i].0 == stack[i].0;
    forall r | r in nodes && IsRoot(nodes, r)
      ensures r in sizes || OnStack(pushed, 0, r)
    {
      if r !in sizes {
        VisitOnStack(stack, pushed, 0, r);
      }
    }
    forall i | 0 <= i < |pushed| && pushed[i].1
      ensures ChildrenPending(nodes, sizes, pushed, i)
    {
      VisitPending(nodes, sizes, stack, rest, node, i);
    }
  }

  lemma {:induction false} LeaveOnStack(stack: seq<(Hash, bool)>, rest: seq<(Hash, bool)>, node: Hash, flag: bool,
                                        from: nat, c: Hash)
    requires stack == rest + [(node, flag)] && OnStack(stack, from, c)
    ensures c == node || OnStack(rest, from, c)
  {
    var j :| from <= j < |stack| && stack[j].0 == c;
    assert j < |rest| ==> rest[j] == stack[j];
  }

  lemma {:induction false} LeavePending(nodes: Nodes, sizes: map<Hash, nat>, after: map<Hash, nat>,
                                        stack: seq<(Hash, bool)>, rest: seq<(Hash, bool)>, node: Hash, i: nat)
    requires stack == rest + [(node, true)] && i < |rest| && rest[i].0 in nodes
    requires ChildrenPending(nodes, sizes, stack, i) && after.Keys == sizes.Keys + {node}
    ensures ChildrenPending(nodes, after, rest, i)
  {
    forall c | c in nodes[rest[i].0].treeChildren && c !in sizes
      ensures c == node || OnStack(rest, i + 1, c)
    {
      LeaveOnStack(stack, rest, node, true, i + 1, c);
    }
  }

  lemma {:induction false} LeaveSizes(nodes: Nodes, sizes: map<Hash, nat>, node: Hash)
    requires Nested(nodes) && SizesSound(nodes, sizes) && node in nodes
    requires forall c :: c in nodes[node].treeChildren ==> c in sizes
    ensures SizesSound(nodes, sizes[node := Size(nodes, node)])
  {
  }

  /** Leaving a node: its children are sized, so its own size is known. */
  lemma {:induction false} LeaveStep(nodes: Nodes, sizes: map<Hash, nat>, stack: seq<(Hash, bool)>,
                                     rest: seq<(Hash, bool)>, node: Hash)
    requires SizingWalk(nodes, sizes, stack) && stack == rest + [(node, true)]
    ensures node in nodes && forall c :: c in nodes[node].treeChildren ==> c in sizes
    ensures SizingWalk(nodes, sizes[node := Size(nodes, node)], rest)
    ensures StackWeight(nodes, rest) < StackWeight(nodes, stack)
  {
    assert stack[|rest|] == (node, true);
    assert ChildrenPending(nodes, sizes, stack, |rest|);
    assert forall i :: 0 <= i < |rest| ==> rest[i] == stack[i];
    assert AllIn(nodes, rest);
    StackWeightAppend(nodes, rest, [(node, true)]);
    LeaveSizes(nodes, sizes, node);
    var after := sizes[node := Size(nodes, node)];
    forall i | 0 <= i < |rest| && rest[i].1
      ensures ChildrenPending(nodes, after, rest, i)
    {
      assert ChildrenPending(nodes, sizes, stack, i);
      LeavePending(nodes, sizes, after, stack, rest, node, i);
    }
    forall r | r in nodes && IsRoot(nodes, r)
      ensures r in after || OnStack(rest, 0, r)
    {
      if r !in sizes {
        LeaveOnStack(stack, rest, node, true, 0, r);
      }
    }
  }

  // ----- Handing out windows -----

  /** `v` is where the window of `c` starts: already labelled, or waiting with that start. */
  ghost predicate StartIs(m: Nodes, labelled: set<Hash>, stack: seq<(Hash, nat)>, c: Hash, v: nat) {
    if c in labelled then c in m && m[c].interval.start == v else (c, v) in stack
  }

  ghost predicate AssignedAt(n0: Nodes, m: Nodes, labelled: set<Hash>, stack: seq<(Hash, nat)>, h: Hash)
    requires Nested(n0) && h in n0 && m.Keys == n0.Keys
  {
    && m[h] == n0[h].(interval := m[h].interval, nextFree := m[h].nextFree)
    && m[h].nextFree == m[h].interval.start + SCALE * ChildSpan(n0, h, |n0[h].treeChildren|)
    && m[h].interval.end == m[h].nextFree + SCALE - 1
    && ChildrenStart(n0, m, labelled, stack, h, m[h].interval.start)
  }

  /** The windows of the children of `h` start side by side from `start`. */
  ghost predicate ChildrenStart(n0: Nodes, m: Nodes, labelled: set<Hash>, stack: seq<(Hash, nat)>, h: Hash, start: nat)
    requires Nested(n0) && h in n0
  {
    forall i {:trigger n0[h].treeChildren[i]} :: 0 <= i < |n0[h].treeChildren| ==>
      StartIs(m, labelled, stack, n0[h].treeChildren[i], start + SCALE * ChildSpan(n0, h, i))
  }

  /** The tree parent of a queued or labelled node is labelled. */
  ghost predicate ParentDone(n0: Nodes, labelled: set<Hash>, h: Hash)
    requires h in n0
  {
    IsRoot(n0, h) || n0[h].treeParent.value in labelled
  }

  ghost predicate Frontier(n0: Nodes, labelled: set<Hash>, stack: seq<(Hash, nat)>) {
    && labelled <= n0.Keys
    && (forall i :: 0 <= i < |stack| ==>
          stack[i].0 in n0 && stack[i].0 !in labelled && ParentDone(n0, labelled, stack[i].0))
    && (forall i, j :: 0 <= i < j < |stack| ==> stack[i].0 != stack[j].0)
    && (forall h {:trigger ParentDone(n0, labelled, h)} :: h in labelled ==> ParentDone(n0, labelled, h))
  }

  ghost predicate WindowWalk(n0: Nodes, m: Nodes, labelled: set<Hash>, stack: seq<(Hash, nat)>,
                             rootWin: map<Hash, nat>)
  {
    && Nested(n0)
    && m.Keys == n0.Keys
    && Frontier(n0, labelled, stack)
    && (forall h :: h in n0 && h !in labelled ==> m[h] == n0[h])
    && (forall h {:trigger AssignedAt(n0, m, labelled, stack, h)} :: h in labelled ==>
          AssignedAt(n0, m, labelled, stack, h))
    && (forall r {:trigger IsRoot(n0, r)} :: r in n0 && IsRoot(n0, r) ==>
          r in rootWin && StartIs(m, labelled, stack, r, rootWin[r]))
  }

  ghost predicate RootsPlaced(n0: Nodes, rootWin: map<Hash, nat>, cursor: nat)
    requires Nested(n0)
  {
    && (forall r :: r in rootWin ==>
          r in n0 && IsRoot(n0, r) && SPACE_START <= rootWin[r] && rootWin[r] + SCALE * Size(n0, r) <= cursor)
    && (forall r, t :: r in rootWin && t in rootWin && r != t ==>
          rootWin[r] + SCALE * Size(n0, r) <= rootWin[t] || rootWin[t] + SCALE * Size(n0, t) <= rootWin[r])
  }

  /** The entries pushed for the first `i` children of a node whose window starts at `start`. */
  ghost function ChildEntries(n0: Nodes, p: Hash, start: nat, i: nat): seq<(Hash, nat)>
    requires Nested(n0) && p in n0 && i <= |n0[p].treeChildren|
  {
    seq(i, j requires 0 <= j < i => (n0[p].treeChildren[j], start + SCALE * ChildSpan(n0, p, j)))
  }

  lemma {:induction false} NewFrontier(n0: Nodes, labelled: set<Hash>, stack: seq<(Hash, nat)>,
                                       rest: seq<(Hash, nat)>, node: Hash, start: nat)
    requires Nested(n0) && Frontier(n0, labelled, stack) && stack == rest + [(node, start)]
    ensures node in n0 && node !in labelled
    ensures Frontier(n0, labelled + {node}, rest + ChildEntries(n0, node, start, |n0[node].treeChildren|))
  {
    assert stack[|rest|] == (node, start);
    var cs := n0[node].treeChildren;
    var es := ChildEntries(n0, node, start, |cs|);
    var pushed := rest + es;
    var done := labelled + {node};
    assert DownLink(n0, node);
    forall i | 0 <= i < |rest|
      ensures rest[i].0 in n0 && rest[i].0 !in done && ParentDone(n0, done, rest[i].0)
      ensures forall j :: 0 <= j < |cs| ==> rest[i].0 != cs[j]
    {
      assert rest[i] == stack[i] && stack[i].0 != stack[|rest|].0;
      assert ParentDone(n0, labelled, rest[i].0);
      forall j | 0 <= j < |cs|
        ensures rest[i].0 != cs[j]
      {
        ChildBelow(n0, node, j);
      }
    }
    forall j | 0 <= j < |cs|
      ensures cs[j] in n0 && cs[j] !in done && ParentDone(n0, done, cs[j])
    {
      ChildBelow(n0, node, j);
      assert ParentDone(n0, labelled, cs[j]) <==> node in labelled;
    }
    forall h | h in done
      ensures ParentDone(n0, done, h)
    {
      assert h in labelled ==> ParentDone(n0, labelled, h);
    }
    assert forall i :: 0 <= i < |rest| ==> pushed[i] == rest[i];
    assert forall j :: 0 <= j < |cs| ==> pushed[|rest| + j].0 == cs[j];
    forall i | 0 <= i < |pushed|
      ensures pushed[i].0 in n0 && pushed[i].0 !in done && ParentDone(n0, done, pushed[i].0)
    {
      if i >= |rest| {
        assert pushed[i].0 == cs[i - |rest|];
      }
    }
    forall i, j | 0 <= i < j < |pushed|
      ensures pushed[i].0 != pushed[j].0
    {
      if i < |rest| && j < |rest| {
        assert stack[i].0 != stack[j].0;
      } else if i >= |rest| {
        assert pushed[i].0 == cs[i - |rest|] && pushed[j].0 == cs[j - |rest|];
      } else {
        assert pushed[j].0 == cs[j - |rest|];
      }
    }
  }

  lemma {:induction false} StartKept(n0: Nodes, m: Nodes, labelled: set<Hash>, stack: seq<(Hash, nat)>,
                                     rest: seq<(Hash, nat)>, more: seq<(Hash, nat)>, node: Hash, start: nat,
                                     tag: Node, c: Hash, v: nat)
    requires Frontier(n0, labelled, stack) && stack == rest + [(node, start)] && m.Keys == n0.Keys
    requires tag.interval.start == start && StartIs(m, labelled, stack, c, v)
    ensures StartIs(m[node := tag], labelled + {node}, rest + more, c, v)
  {
    assert stack[|rest|] == (node, start);
    if c !in labelled {
      var i :| 0 <= i < |stack| && stack[i] == (c, v);
      if i < |rest| {
        assert stack[i].0 != stack[|rest|].0;
        assert (rest + more)[i] == (c, v);
      }
    }
  }

  lemma {:induction false} AssignedKept(n0: Nodes, m: Nodes, m': Nodes, labelled: set<Hash>, done: set<Hash>,
                     stack: seq<(Hash, nat)>, stack': seq<(Hash, nat)>, h: Hash)
    requires Nested(n0) && h in n0 && m.Keys == n0.Keys && m'.Keys == n0.Keys
    requires AssignedAt(n0, m, labelled, stack, h) && m'[h] == m[h]
    requires forall c, v :: StartIs(m, labelled, stack, c, v) ==> StartIs(m', done, stack', c, v)
    ensures AssignedAt(n0, m', done, stack', h)
  {
  }

  lemma {:induction false} EntriesStart(n0: Nodes, m: Nodes, done: set<Hash>, rest: seq<(Hash, nat)>,
                                        es: seq<(Hash, nat)>, node: Hash, start: nat)
    requires Nested(n0) && node in n0
    requires forall i :: 0 <= i < |n0[node].treeChildren| ==> n0[node].treeChildren[i] !in done
    requires es == ChildEntries(n0, node, start, |n0[node].treeChildren|)
    ensures ChildrenStart(n0, m, done, rest + es, node, start)
  {
    forall i | 0 <= i < |n0[node].treeChildren|
      ensures StartIs(m, done, rest + es, n0[node].treeChildren[i], start + SCALE * ChildSpan(n0, node, i))
    {
      EntryStarts(n0, m, done, rest, es, node, start, i);
    }
  }

  lemma {:induction false} EntryStarts(n0: Nodes, m: Nodes, done: set<Hash>, rest: seq<(Hash, nat)>,
                                       es: seq<(Hash, nat)>, node: Hash, start: nat, i: nat)
    requires Nested(n0) && node in n0 && i < |n0[node].treeChildren| && n0[node].treeChildren[i] !in done
    requires es == ChildEntries(n0, node, start, |n0[node].treeChildren|)
    ensures StartIs(m, done, rest + es, n0[node].treeChildren[i], start + SCALE * ChildSpan(n0, node, i))
  {
    assert (rest + es)[|rest| + i] == es[i];
  }

  /** Labelling one node and queueing its children keeps the walk's invariant. */
  lemma {:induction false} WindowStep(n0: Nodes, m: Nodes, labelled: set<Hash>, stack: seq<(Hash, nat)>,
                                      rest: seq<(Hash, nat)>, node: Hash, start: nat, tag: Node,
                                      rootWin: map<Hash, nat>)
    requires WindowWalk(n0, m, labelled, stack, rootWin) && stack == rest + [(node, start)]
    requires node in n0
    requires tag == n0[node].(nextFree := start + SCALE * ChildSpan(n0, node, |n0[node].treeChildren|),
                              interval := Interval(start, start + SCALE * Size(n0, node) - 1))
    ensures WindowWalk(n0, m[node := tag], labelled + {node},
                       rest + ChildEntries(n0, node, start, |n0[node].treeChildren|), rootWin)
  {
    NewFrontier(n0, labelled, stack, rest, node, start);
    var es := ChildEntries(n0, node, start, |n0[node].treeChildren|);
    var m' := m[node := tag];
    var done := labelled + {node};
    forall c, v | StartIs(m, labelled, stack, c, v)
      ensures StartIs(m', done, rest + es, c, v)
    {
      StartKept(n0, m, labelled, stack, rest, es, node, start, tag, c, v);
    }
    forall h | h in done
      ensures AssignedAt(n0, m', done, rest + es, h)
    {
      if h != node {
        assert AssignedAt(n0, m, labelled, stack, h);
        AssignedKept(n0, m, m', labelled, done, stack, rest + es, h);
      } else {
        forall i | 0 <= i < |n0[node].treeChildren|
          ensures n0[node].treeChildren[i] !in done
        {
          assert (rest + es)[|rest| + i].0 == n0[node].treeChildren[i];
        }
        EntriesStart(n0, m', done, rest, es, node, start);
      }
    }
  }

  lemma {:induction false} EndsLabelled(n0: Nodes, m: Nodes, labelled: set<Hash>, h: Hash)
    requires Nested(n0) && m.Keys == n0.Keys && h in n0 && AssignedAt(n0, m, labelled, [], h)
    ensures LabelledAt(n0, m, h)
    ensures forall c :: c in n0[h].treeChildren ==> c in labelled
  {
  }

  /** When nothing is queued any more, every node is labelled as a reindex should. */
  lemma {:induction false} WalkEnds(n0: Nodes, m: Nodes, labelled: set<Hash>, rootWin: map<Hash, nat>, cursor: nat,
                                    bound: nat)
    requires WindowWalk(n0, m, labelled, [], rootWin) && RootsPlaced(n0, rootWin, cursor) && Below(n0, bound)
    ensures Labelled(n0, m, cursor)
  {
    forall h | h in labelled
      ensures LabelledAt(n0, m, h)
      ensures forall c :: c in n0[h].treeChildren ==> c in labelled
    {
      assert AssignedAt(n0, m, labelled, [], h);
      EndsLabelled(n0, m, labelled, h);
    }
    forall h | h in n0
      ensures h in labelled && LabelledAt(n0, m, h)
    {
      RootsAndChildrenAreAll(n0, labelled, h, bound);
    }
    RootsEndApart(n0, m, labelled, rootWin, cursor);
  }

  lemma {:induction false} RootsEndApart(n0: Nodes, m: Nodes, labelled: set<Hash>, rootWin: map<Hash, nat>, cursor: nat)
    requires Nested(n0) && m.Keys == n0.Keys && RootsPlaced(n0, rootWin, cursor)
    requires forall r {:trigger IsRoot(n0, r)} :: r in n0 && IsRoot(n0, r) ==>
               r in rootWin && StartIs(m, labelled, [], r, rootWin[r])
    requires forall h {:trigger LabelledAt(n0, m, h)} :: h in n0 ==> LabelledAt(n0, m, h)
    ensures RootsApart(n0, m, cursor)
  {
    forall r | r in n0 && IsRoot(n0, r)
      ensures r in rootWin && m[r].interval.start == rootWin[r]
      ensures m[r].interval.end + 1 == rootWin[r] + SCALE * Size(n0, r)
    {
      assert LabelledAt(n0, m, r);
    }
  }

  lemma {:induction false} RootsDisjoint(nodes: Nodes, r: Hash, t: Hash)
    requires Nested(nodes) && r in nodes && t in nodes && r != t && IsRoot(nodes, r) && IsRoot(nodes, t)
    ensures Disjoint(nodes[r], nodes[t])
  {
    assert Separate(nodes[r], nodes[t]);
    assert TightAt(nodes, r, t) && TightAt(nodes, t, r);
  }

}
