/** Admission to the UTXO mempool (src/lib.rs, `admit_utxo_to_mempool`): replacement of
    conflicting packages, eviction under pressure, and what every reachable mempool satisfies. */
module Mempool {
  import opened Types
  import opened LedgerSteps
  import opened Sums

  const MAX_MEMPOOL_SIZE: nat := 10_000
  const MAX_MEMPOOL_BYTES: nat := 32 * 1024 * 1024
  const MAX_UTXO_PACKAGE_COUNT: nat := 25
  const MAX_UTXO_PACKAGE_BYTES: nat := 512 * 1024

  type Queue = seq<UtxoTx>

  // ----- Disjoint inputs -----

  predicate SharesInput(a: UtxoTx, b: UtxoTx) {
    exists x, y :: x in a.inputs && y in b.inputs && x.previous == y.previous
  }

  predicate SpendsFrom(a: UtxoTx, b: UtxoTx) {
    exists x :: x in a.inputs && x.previous.txid == b.txHash
  }

  /** No two queued transactions spend the same output. */
  ghost predicate Disjoint(q: Queue) {
    forall i, j {:trigger q[i], q[j]} :: 0 <= i < j < |q| ==> !SharesInput(q[i], q[j])
  }

  // ----- Removing entries -----

  /** The queue without the entries at `removed`. */
  function Kept(q: Queue, removed: set<nat>): Queue {
    if q == [] then []
    else
      var k := |q| - 1;
      if k in removed then Kept(q[..k], removed) else Kept(q[..k], removed) + [q[k]]
  }

  lemma {:induction false} KeptMembers(q: Queue, removed: set<nat>, t: UtxoTx)
    ensures t in Kept(q, removed) <==> exists i {:trigger q[i]} :: 0 <= i < |q| && i !in removed && q[i] == t
    ensures |Kept(q, removed)| <= |q|
  {
    if q != [] {
      var k := |q| - 1;
      KeptMembers(q[..k], removed, t);
      if t in Kept(q[..k], removed) {
        var i :| 0 <= i < k && i !in removed && q[..k][i] == t;
        assert q[i] == t;
      }
      if i :| 0 <= i < |q| && i !in removed && q[i] == t {
        if i < k {
          assert q[..k][i] == t;
        }
      }
    }
  }

  lemma {:induction false} KeptDisjoint(q: Queue, removed: set<nat>)
    requires Disjoint(q)
    ensures Disjoint(Kept(q, removed))
  {
    if q != [] {
      var k := |q| - 1;
      assert Disjoint(q[..k]);
      KeptDisjoint(q[..k], removed);
      var r := Kept(q[..k], removed);
      if k !in removed {
        forall i | 0 <= i < |r|
          ensures !SharesInput(r[i], q[k])
        {
          KeptMembers(q[..k], removed, r[i]);
          var j :| 0 <= j < k && j !in removed && q[..k][j] == r[i];
          assert q[j] == r[i];
        }
        PushDisjoint(r, q[k]);
      }
    }
  }

  lemma {:induction false} PushDisjoint(q: Queue, tx: UtxoTx)
    requires Disjoint(q) && forall i {:trigger q[i]} :: 0 <= i < |q| ==> !SharesInput(q[i], tx)
    ensures Disjoint(q + [tx])
  {
  }

  function Bytes(q: Queue): nat {
    if q == [] then 0 else Bytes(q[..|q| - 1]) + q[|q| - 1].relayBytes
  }

  lemma {:induction false} BytesPush(q: Queue, t: UtxoTx)
    ensures Bytes(q + [t]) == Bytes(q) + t.relayBytes
  {
    assert (q + [t])[..|q|] == q;
  }

  function FeeTotal(q: Queue): nat {
    if q == [] then 0 else FeeTotal(q[..|q| - 1]) + q[|q| - 1].fee
  }

  lemma {:induction false} FeePush(q: Queue, t: UtxoTx)
    ensures FeeTotal(q + [t]) == FeeTotal(q) + t.fee
  {
    assert (q + [t])[..|q|] == q;
  }

  predicate InRange(q: Queue, picked: seq<nat>) {
    forall k :: 0 <= k < |picked| ==> picked[k] < |q|
  }

  function Fees(q: Queue, picked: seq<nat>): nat
    requires InRange(q, picked)
  {
    if picked == [] then 0 else Fees(q, picked[..|picked| - 1]) + q[picked[|picked| - 1]].fee
  }

  function BytesOf(q: Queue, picked: seq<nat>): nat
    requires InRange(q, picked)
  {
    if picked == [] then 0 else BytesOf(q, picked[..|picked| - 1]) + q[picked[|picked| - 1]].relayBytes
  }

  function Members(s: seq<nat>): set<nat> { set x | x in s }

  ghost predicate NoRepeat(s: seq<nat>) {
    |Members(s)| == |s|
  }

  lemma {:induction false} MembersSplit(s: seq<nat>)
    requires s != []
    ensures Members(s) == Members(s[..|s| - 1]) + {s[|s| - 1]}
  {
    assert s == s[..|s| - 1] + [s[|s| - 1]];
  }

  lemma {:induction false} SingleNoRepeat(i: nat)
    ensures NoRepeat([i])
  {
    assert Members([i]) == {i};
  }

  lemma {:induction false} MembersAtMost(s: seq<nat>)
    ensures |Members(s)| <= |s|
  {
    if s == [] {
      assert Members(s) == {};
    } else {
      MembersSplit(s);
      MembersAtMost(s[..|s| - 1]);
    }
  }

  lemma {:induction false} NoRepeatPrefix(s: seq<nat>, k: nat)
    requires NoRepeat(s) && k <= |s|
    ensures NoRepeat(s[..k]) && (k < |s| ==> s[k] !in s[..k])
    decreases |s|
  {
    if k < |s| {
      var n := |s| - 1;
      MembersSplit(s);
      MembersAtMost(s[..n]);
      if k < n {
        NoRepeatPrefix(s[..n], k);
        assert s[..n][..k] == s[..k];
      } else {
        assert s[n] !in Members(s[..n]);
      }
    } else {
      assert s[..k] == s;
    }
  }

  lemma {:induction false} KeptBytes(q: Queue, removed: set<nat>)
    ensures Bytes(Kept(q, removed)) <= Bytes(q)
  {
    if q != [] {
      var k := |q| - 1;
      KeptBytes(q[..k], removed);
      BytesPush(Kept(q[..k], removed), q[k]);
    }
  }

  /** The kept entries of a queue are those of its front, and perhaps its last. */
  lemma {:induction false} KeptStep(q: Queue, removed: set<nat>)
    requires q != []
    ensures var r := Kept(q[..|q| - 1], removed);
            && Bytes(Kept(q, removed)) == Bytes(r) + (if |q| - 1 in removed then 0 else q[|q| - 1].relayBytes)
            && FeeTotal(Kept(q, removed)) == FeeTotal(r) + (if |q| - 1 in removed then 0 else q[|q| - 1].fee)
            && |Kept(q, removed)| == |r| + (if |q| - 1 in removed then 0 else 1)
  {
    BytesPush(Kept(q[..|q| - 1], removed), q[|q| - 1]);
    FeePush(Kept(q[..|q| - 1], removed), q[|q| - 1]);
  }

  /** Removing one more entry frees its bytes and takes its fee. */
  lemma {:induction false} RemoveOne(q: Queue, removed: set<nat>, i: nat)
    requires i < |q| && i !in removed
    ensures Bytes(Kept(q, removed + {i})) + q[i].relayBytes == Bytes(Kept(q, removed))
    ensures FeeTotal(Kept(q, removed + {i})) + q[i].fee == FeeTotal(Kept(q, removed))
    ensures |Kept(q, removed + {i})| + 1 == |Kept(q, removed)|
  {
    KeptStep(q, removed);
    KeptStep(q, removed + {i});
    if i < |q| - 1 {
      RemoveOne(q[..|q| - 1], removed, i);
    } else {
      KeptIgnores(q[..|q| - 1], removed, i);
    }
  }

  lemma {:induction false} KeptIgnores(q: Queue, removed: set<nat>, i: nat)
    requires i >= |q|
    ensures Kept(q, removed + {i}) == Kept(q, removed)
  {
    if q != [] {
      KeptIgnores(q[..|q| - 1], removed, i);
    }
  }

  lemma {:induction false} KeepAll(q: Queue)
    ensures Kept(q, {}) == q
  {
    if q != [] {
      KeepAll(q[..|q| - 1]);
    }
  }

  // ----- Conflicts -----

  /** A set of entries that holds every direct conflict with `tx` and every entry spending an
      output of a member. */
  ghost predicate CoversConflicts(q: Queue, tx: UtxoTx, s: set<nat>) {
    && (forall i {:trigger q[i]} :: 0 <= i < |q| && SharesInput(tx, q[i]) ==> i in s)
    && (forall i, j {:trigger SpendsFrom(q[i], q[j])} ::
          0 <= i < |q| && 0 <= j < |q| && j in s && SpendsFrom(q[i], q[j]) ==> i in s)
  }

  /** The least such set: the conflicts and their descendants, and nothing else. */
  ghost predicate IsConflictSet(q: Queue, tx: UtxoTx, s: set<nat>) {
    && (forall i :: i in s ==> i < |q|)
    && CoversConflicts(q, tx, s)
    && forall t {:trigger CoversConflicts(q, tx, t)} :: CoversConflicts(q, tx, t) ==> s <= t
  }

  /** Only one set is least. */
  lemma {:induction false} ConflictSetUnique(q: Queue, tx: UtxoTx, s: set<nat>, t: set<nat>)
    requires IsConflictSet(q, tx, s) && IsConflictSet(q, tx, t)
    ensures s == t
  {
    assert s <= t && t <= s;
  }

  ghost predicate InEveryCover(q: Queue, tx: UtxoTx, s: seq<nat>) {
    && NoRepeat(s) && InRange(q, s)
    && forall t {:trigger CoversConflicts(q, tx, t)} :: CoversConflicts(q, tx, t) ==> Members(s) <= t
  }

  lemma {:induction false} NoRepeatPush(s: seq<nat>, i: nat)
    requires NoRepeat(s) && i !in s
    ensures NoRepeat(s + [i]) && Members(s + [i]) == Members(s) + {i}
  {
    assert (s + [i])[..|s|] == s;
    MembersSplit(s + [i]);
  }

  lemma {:induction false} DirectJoins(q: Queue, tx: UtxoTx, s: seq<nat>, i: nat)
    requires InEveryCover(q, tx, s) && i < |q| && i !in s && SharesInput(tx, q[i])
    ensures InEveryCover(q, tx, s + [i])
  {
    NoRepeatPush(s, i);
  }

  lemma {:induction false} SpenderJoins(q: Queue, tx: UtxoTx, s: seq<nat>, i: nat, j: nat)
    requires InEveryCover(q, tx, s) && i < |q| && i !in s && j in s && j < |q| && SpendsFrom(q[i], q[j])
    ensures InEveryCover(q, tx, s + [i])
  {
    NoRepeatPush(s, i);
    assert j in Members(s);
  }

  method DirectConflicts(q: Queue, tx: UtxoTx) returns (s: seq<nat>)
    ensures InEveryCover(q, tx, s) && forall i :: 0 <= i < |q| ==> (i in s <==> SharesInput(tx, q[i]))
  {
    s := [];
    for i := 0 to |q|
      invariant InEveryCover(q, tx, s) && (forall j :: j in s ==> j < i)
      invariant forall j :: 0 <= j < i ==> (j in s <==> SharesInput(tx, q[j]))
    {
      if SharesInput(tx, q[i]) {
        DirectJoins(q, tx, s, i);
        s := s + [i];
      }
    }
  }

  /** One pass: every entry spending an output of `s` joins. */
  method AddSpenders(q: Queue, tx: UtxoTx, s: seq<nat>) returns (r: seq<nat>)
    requires InEveryCover(q, tx, s)
    ensures InEveryCover(q, tx, r) && s <= r
    ensures forall i, j {:trigger SpendsFrom(q[i], q[j])} ::
              0 <= i < |q| && 0 <= j < |q| && j in s && SpendsFrom(q[i], q[j]) ==> i in r
  {
    r := s;
    for i := 0 to |q|
      invariant InEveryCover(q, tx, r) && s <= r
      invariant forall k, j {:trigger SpendsFrom(q[k], q[j])} ::
                  0 <= k < i && 0 <= j < |q| && j in s && SpendsFrom(q[k], q[j]) ==> k in r
    {
      if i !in r && exists j :: 0 <= j < |s| && SpendsFrom(q[i], q[s[j]]) {
        var j :| 0 <= j < |s| && SpendsFrom(q[i], q[s[j]]);
        SpenderJoins(q, tx, r, i, s[j]);
        r := r + [i];
      }
    }
  }

  /** Grow the direct conflicts until nothing changes. */
  method ConflictSet(q: Queue, tx: UtxoTx) returns (s: seq<nat>)
    ensures NoRepeat(s) && InRange(q, s) && IsConflictSet(q, tx, Members(s))
  {
    s := DirectConflicts(q, tx);
    NoRepeatBound(s, |q|);
    var changed := true;
    while changed
      invariant InEveryCover(q, tx, s) && |s| <= |q|
      invariant forall i :: 0 <= i < |q| && SharesInput(tx, q[i]) ==> i in s
      invariant !changed ==> forall i, j {:trigger SpendsFrom(q[i], q[j])} ::
                  0 <= i < |q| && 0 <= j < |q| && j in s && SpendsFrom(q[i], q[j]) ==> i in s
      decreases |q| - |s|, changed
    {
      var r := AddSpenders(q, tx, s);
      NoRepeatBound(r, |q|);
      changed := |r| > |s|;
      s := r;
    }
  }

  ghost function Below(n: nat): (s: set<nat>)
    ensures |s| == n && forall i: nat :: i in s <==> i < n
  {
    if n == 0 then {} else Below(n - 1) + {n - 1}
  }

  lemma {:induction false} NoRepeatBound(s: seq<nat>, n: nat)
    requires NoRepeat(s) && forall k :: 0 <= k < |s| ==> s[k] < n
    ensures |s| <= n
  {
    SubsetIsAtMost(Members(s), Below(n));
  }

  // ----- Preview -----

  datatype Progress = Progress(ledger: Ledger, left: Queue)

  /** One round: apply what applies, keep the rest. */
  function Round(rules: Rules, l: Ledger, pending: Queue, blue: nat): Progress {
    if pending == [] then Progress(l, [])
    else
      var before := Round(rules, l, pending[..|pending| - 1], blue);
      var step := ApplyUtxoTx(rules, before.ledger, pending[|pending| - 1], blue);
      if step.ok then Progress(step.ledger, before.left)
      else Progress(before.ledger, before.left + [pending[|pending| - 1]])
  }

  /** Rounds until nothing more applies: the confirmed ledger plus the queued transactions, and
      what was left over. */
  function Rounds(rules: Rules, l: Ledger, pending: Queue, rounds: nat, blue: nat): Progress
    decreases rounds
  {
    if rounds == 0 then Progress(l, pending)
    else
      var p := Round(rules, l, pending, blue);
      if |p.left| == |pending| then p else Rounds(rules, p.ledger, p.left, rounds - 1, blue)
  }

  function Preview(rules: Rules, l: Ledger, pending: Queue, blue: nat): Ledger {
    Rounds(rules, l, pending, |pending| + 1, blue).ledger
  }

  lemma {:induction false} RoundShrinks(rules: Rules, l: Ledger, pending: Queue, blue: nat)
    ensures |Round(rules, l, pending, blue).left| <= |pending|
  {
    if pending != [] {
      RoundShrinks(rules, l, pending[..|pending| - 1], blue);
    }
  }

  /** A round that leaves as many as it found found nothing that applies. */
  lemma {:induction false} RoundStuck(rules: Rules, l: Ledger, pending: Queue, blue: nat)
    requires |Round(rules, l, pending, blue).left| == |pending|
    ensures Round(rules, l, pending, blue) == Progress(l, pending)
    ensures forall tx :: tx in pending ==> !ApplyUtxoTx(rules, l, tx, blue).ok
  {
    if pending != [] {
      var k := |pending| - 1;
      RoundShrinks(rules, l, pending[..k], blue);
      RoundStuck(rules, l, pending[..k], blue);
      assert pending == pending[..k] + [pending[k]];
    }
  }

  /** One round more than there are transactions is enough: nothing left over applies on the
      preview. */
  lemma {:induction false} PreviewIsComplete(rules: Rules, l: Ledger, pending: Queue, rounds: nat, blue: nat)
    requires rounds > |pending|
    ensures var p := Rounds(rules, l, pending, rounds, blue);
            forall tx :: tx in p.left ==> !ApplyUtxoTx(rules, p.ledger, tx, blue).ok
    decreases rounds
  {
    var p := Round(rules, l, pending, blue);
    RoundShrinks(rules, l, pending, blue);
    if |p.left| == |pending| {
      RoundStuck(rules, l, pending, blue);
    } else {
      PreviewIsComplete(rules, p.ledger, p.left, rounds - 1, blue);
      assert Rounds(rules, l, pending, rounds, blue) == Rounds(rules, p.ledger, p.left, rounds - 1, blue);
    }
  }

  // ----- Ancestor packages -----

  function DirectParents(q: Queue, tx: UtxoTx, skip: set<nat>, n: nat): (s: seq<nat>)
    requires n <= |q|
    ensures InRange(q, s) && forall i :: i in s <==> 0 <= i < n && i !in skip && SpendsFrom(tx, q[i])
    ensures NoRepeat(s)
  {
    if n == 0 then []
    else
      var before := DirectParents(q, tx, skip, n - 1);
      if n - 1 !in skip && SpendsFrom(tx, q[n - 1]) then NoRepeatPush(before, n - 1); before + [n - 1] else before
  }

  /** Add what is not there yet. */
  function Merge(s: seq<nat>, more: seq<nat>): (r: seq<nat>)
    requires NoRepeat(s)
    ensures NoRepeat(r) && s <= r && forall i :: i in r <==> i in s || i in more
  {
    if more == [] then s
    else
      var k := |more| - 1;
      var r := Merge(s, more[..k]);
      assert forall i :: i in more <==> i in more[..k] || i == more[k];
      if more[k] in r then r else NoRepeatPush(r, more[k]); r + [more[k]]
  }

  /** What visiting the entry at `at` adds. */
  function Visit(q: Queue, s: seq<nat>, at: nat, skip: set<nat>): (r: seq<nat>)
    requires NoRepeat(s) && InRange(q, s) && at < |s|
    ensures NoRepeat(r) && InRange(q, r) && s <= r && |s| <= |q| && |r| <= |q|
  {
    var parents := DirectParents(q, q[s[at]], skip, |q|);
    var r := Merge(s, parents);
    MergeInRange(q, s, parents, r);
    NoRepeatBound(r, |q|);
    r
  }

  /** Ancestors of `s`, breadth first from `at` on, until there are too many. */
  function PackageFrom(q: Queue, s: seq<nat>, at: nat, skip: set<nat>): (r: seq<nat>)
    requires NoRepeat(s) && InRange(q, s) && at <= |s|
    ensures NoRepeat(r) && InRange(q, r) && s <= r
    decreases if at < |s| then |q| - at else 0
  {
    if at == |s| then s
    else
      var r := Visit(q, s, at, skip);
      if |r| >= MAX_UTXO_PACKAGE_COUNT then r else PackageFrom(q, r, at + 1, skip)
  }

  /** The entries of `some` have their parents in `s`. */
  ghost predicate ParentsIn(q: Queue, some: seq<nat>, s: seq<nat>, skip: set<nat>) {
    forall i, j {:trigger SpendsFrom(q[i], q[j])} ::
      0 <= i < |q| && 0 <= j < |q| && i in some && j !in skip && SpendsFrom(q[i], q[j]) ==> j in s
  }

  lemma {:induction false} VisitParents(q: Queue, s: seq<nat>, at: nat, skip: set<nat>)
    requires NoRepeat(s) && InRange(q, s) && at < |s| && ParentsIn(q, s[..at], s, skip)
    ensures var r := Visit(q, s, at, skip); ParentsIn(q, r[..at + 1], r, skip)
  {
    var r := Visit(q, s, at, skip);
    assert r[..at + 1] == s[..at] + [s[at]];
    forall i, j | 0 <= i < |q| && 0 <= j < |q| && i in r[..at + 1] && j !in skip && SpendsFrom(q[i], q[j])
      ensures j in r
    {
      if i in s[..at] {
        assert j in s;
      }
    }
  }

  /** Below the limit the package is closed under parents. */
  lemma {:induction false} PackageIsClosed(q: Queue, s: seq<nat>, at: nat, skip: set<nat>)
    requires NoRepeat(s) && InRange(q, s) && at <= |s| && ParentsIn(q, s[..at], s, skip)
    ensures var r := PackageFrom(q, s, at, skip); |r| < MAX_UTXO_PACKAGE_COUNT ==> ParentsIn(q, r, r, skip)
    decreases if at < |s| then |q| - at else 0
  {
    if at == |s| {
      assert s[..at] == s;
    } else {
      var r := Visit(q, s, at, skip);
      VisitParents(q, s, at, skip);
      if |r| < MAX_UTXO_PACKAGE_COUNT {
        PackageIsClosed(q, r, at + 1, skip);
      }
    }
  }

  /** `t` holds `first` and, with an entry, its parents outside `skip`. */
  ghost predicate ClosedOver(q: Queue, first: seq<nat>, t: set<nat>, skip: set<nat>) {
    && (forall i :: i in first ==> i in t)
    && forall i, j {:trigger SpendsFrom(q[i], q[j])} ::
         0 <= i < |q| && 0 <= j < |q| && i in t && j !in skip && SpendsFrom(q[i], q[j]) ==> j in t
  }

  lemma {:induction false} VisitInside(q: Queue, s: seq<nat>, at: nat, skip: set<nat>, t: set<nat>)
    requires NoRepeat(s) && InRange(q, s) && at < |s| && ClosedOver(q, s, t, skip)
    ensures ClosedOver(q, Visit(q, s, at, skip), t, skip)
  {
    var r := Visit(q, s, at, skip);
    var parents := DirectParents(q, q[s[at]], skip, |q|);
    assert s[at] in s;
    forall i | i in r
      ensures i in t
    {
      assert i in s || i in parents;
    }
  }

  /** Nothing but ancestors is in a package: every closed set with the first entries holds it. */
  lemma {:induction false} PackageIsLeast(q: Queue, s: seq<nat>, at: nat, skip: set<nat>, t: set<nat>)
    requires NoRepeat(s) && InRange(q, s) && at <= |s| && ClosedOver(q, s, t, skip)
    ensures forall i :: i in PackageFrom(q, s, at, skip) ==> i in t
    decreases if at < |s| then |q| - at else 0
  {
    if at < |s| {
      VisitInside(q, s, at, skip, t);
      PackageStep(q, s, at, skip);
      var r := Visit(q, s, at, skip);
      if |r| < MAX_UTXO_PACKAGE_COUNT {
        PackageIsLeast(q, r, at + 1, skip, t);
      }
    }
  }

  method AncestorPackage(q: Queue, first: seq<nat>, skip: set<nat>) returns (s: seq<nat>)
    requires NoRepeat(first) && InRange(q, first)
    ensures s == PackageFrom(q, first, 0, skip)
    ensures |s| < MAX_UTXO_PACKAGE_COUNT ==> ParentsIn(q, s, s, skip)
  {
    s := PackageLoop(q, first, skip);
    PackageIsClosed(q, first, 0, skip);
  }

  method PackageLoop(q: Queue, first: seq<nat>, skip: set<nat>) returns (s: seq<nat>)
    requires NoRepeat(first) && InRange(q, first)
    ensures s == PackageFrom(q, first, 0, skip)
  {
    s := first;
    var at := 0;
    NoRepeatBound(s, |q|);
    while at < |s|
      invariant NoRepeat(s) && InRange(q, s) && at <= |s| <= |q|
      invariant PackageFrom(q, s, at, skip) == PackageFrom(q, first, 0, skip)
      decreases |q| - at
    {
      PackageStep(q, s, at, skip);
      s := Visit(q, s, at, skip);
      at := at + 1;
      if |s| >= MAX_UTXO_PACKAGE_COUNT {
        return;
      }
    }
  }

  lemma {:induction false} PackageStep(q: Queue, s: seq<nat>, at: nat, skip: set<nat>)
    requires NoRepeat(s) && InRange(q, s) && at < |s|
    ensures var r := Visit(q, s, at, skip);
            && PackageFrom(q, s, at, skip) ==
               (if |r| >= MAX_UTXO_PACKAGE_COUNT then r else PackageFrom(q, r, at + 1, skip))
            && NoRepeat(r) && InRange(q, r) && |s| <= |r| <= |q|
  {
  }

  lemma {:induction false} MergeInRange(q: Queue, s: seq<nat>, more: seq<nat>, r: seq<nat>)
    requires InRange(q, s) && InRange(q, more) && forall i :: i in r <==> i in s || i in more
    ensures InRange(q, r)
  {
    forall k | 0 <= k < |r|
      ensures r[k] < |q|
    {
      assert r[k] in r;
    }
  }

  // ----- Eviction -----

  function BytesPriced(q: Queue, picked: seq<nat>): (n: nat)
    requires InRange(q, picked)
    ensures n >= |picked|
  {
    if picked == [] then 0
    else
      var b := q[picked[|picked| - 1]].relayBytes;
      BytesPriced(q, picked[..|picked| - 1]) + if b == 0 then 1 else b
  }

  /** The ancestor package of one entry, itself included. */
  function PackageOf(q: Queue, i: nat): (s: seq<nat>)
    requires i < |q|
    ensures InRange(q, s) && |s| > 0
  {
    SingleNoRepeat(i);
    PackageFrom(q, [i], 0, {})
  }

  /** Package fee, and package fee per byte. */
  datatype Score = Score(fee: nat, rate: nat)

  function PerByte(fee: nat, bytes: nat): nat {
    fee / (if bytes == 0 then 1 else bytes)
  }

  function ScoreOf(q: Queue, i: nat): Score
    requires i < |q|
  {
    var s := PackageOf(q, i);
    Score(Fees(q, s), PerByte(Fees(q, s), BytesPriced(q, s)))
  }

  ghost predicate IsTable(q: Queue, t: seq<Score>) {
    |t| == |q| && forall i {:trigger t[i]} :: 0 <= i < |q| ==> t[i] == ScoreOf(q, i)
  }

  function ScoreAll(q: Queue): (t: seq<Score>)
    ensures IsTable(q, t)
  {
    seq(|q|, i requires 0 <= i < |q| => ScoreOf(q, i))
  }

  datatype Rank = Rank(index: nat, rate: nat)

  /** Lower rate first, later entry first among equals. */
  predicate Worse(a: Rank, b: Rank) {
    a.rate < b.rate || (a.rate == b.rate && a.index > b.index)
  }

  function InsertRank(r: seq<Rank>, x: Rank): (s: seq<Rank>)
    ensures |s| == |r| + 1 && forall e :: e in s <==> e in r || e == x
  {
    if r == [] then [x]
    else if Worse(x, r[0]) then [x] + r
    else
      assert forall e :: e in r <==> e == r[0] || e in r[1..];
      [r[0]] + InsertRank(r[1..], x)
  }

  ghost predicate Ranked(t: seq<Score>, r: seq<Rank>, n: nat) {
    && (forall i, j {:trigger r[i], r[j]} :: 0 <= i < j < |r| ==> r[i].index != r[j].index && Worse(r[i], r[j]))
    && forall e :: e in r ==> e.index < n <= |t| && e.rate == t[e.index].rate
  }

  lemma {:induction false} InsertRanked(t: seq<Score>, r: seq<Rank>, n: nat, x: Rank)
    requires Ranked(t, r, n) && x.index == n < |t| && x.rate == t[n].rate
    ensures Ranked(t, InsertRank(r, x), n + 1)
  {
    if r != [] && !Worse(x, r[0]) {
      assert r[0] in r;
      assert Ranked(t, r[1..], n) by {
        assert forall e :: e in r[1..] ==> e in r;
      }
      InsertRanked(t, r[1..], n, x);
      var s := InsertRank(r[1..], x);
      forall j | 0 <= j < |s|
        ensures r[0].index != s[j].index && Worse(r[0], s[j])
      {
        assert s[j] in s;
        if s[j] != x {
          var k :| 0 <= k < |r[1..]| && r[1..][k] == s[j];
          assert r[k + 1] == s[j];
        }
      }
      ConsRanked(t, r[0], s, n + 1);
    } else if r != [] {
      forall j | 0 <= j < |r|
        ensures x.index != r[j].index && Worse(x, r[j])
      {
        assert r[j] in r;
        assert j > 0 ==> Worse(r[0], r[j]);
      }
      ConsRanked(t, x, r, n + 1);
    }
  }

  lemma {:induction false} ConsRanked(t: seq<Score>, x: Rank, r: seq<Rank>, n: nat)
    requires forall e :: e in r ==> e.index < n <= |t| && e.rate == t[e.index].rate
    requires x.index < n <= |t| && x.rate == t[x.index].rate
    requires forall i, j {:trigger r[i], r[j]} :: 0 <= i < j < |r| ==> r[i].index != r[j].index && Worse(r[i], r[j])
    requires forall j :: 0 <= j < |r| ==> x.index != r[j].index && Worse(x, r[j])
    ensures Ranked(t, [x] + r, n)
  {
  }

  /** All entries by package rate, the cheapest first. */
  method RankAll(t: seq<Score>) returns (r: seq<Rank>)
    ensures Ranked(t, r, |t|) && |r| == |t|
  {
    r := [];
    for i := 0 to |t|
      invariant Ranked(t, r, i) && |r| == i
    {
      InsertRanked(t, r, i, Rank(i, t[i].rate));
      r := InsertRank(r, Rank(i, t[i].rate));
    }
  }

  /** The bytes left when the first `k` entries of an order are taken out. */
  ghost function BytesWithout(q: Queue, order: seq<nat>, k: nat): nat
    requires k <= |order|
  {
    Bytes(Kept(q, Members(order[..k])))
  }

  /** Taking one more entry out frees its bytes. */
  lemma {:induction false} TakeOne(q: Queue, order: seq<nat>, k: nat)
    requires NoRepeat(order) && InRange(q, order) && k < |order|
    ensures BytesWithout(q, order, k + 1) + q[order[k]].relayBytes == BytesWithout(q, order, k)
  {
    NoRepeatPrefix(order, k);
    RemoveOne(q, Members(order[..k]), order[k]);
    assert Members(order[..k + 1]) == Members(order[..k]) + {order[k]};
  }

  lemma {:induction false} TakeNone(q: Queue, order: seq<nat>)
    ensures BytesWithout(q, order, 0) == Bytes(q)
  {
    assert Members(order[..0]) == {};
    KeepAll(q);
  }

  ghost predicate Ascending(rates: seq<nat>) {
    forall i, j {:trigger rates[i], rates[j]} :: 0 <= i < j < |rates| ==> rates[i] <= rates[j]
  }

  /** Lower rates first, later entries first among equals. */
  ghost predicate Precedes(order: seq<nat>, rates: seq<nat>) {
    && |order| == |rates|
    && forall i, j {:trigger order[i], order[j]} :: 0 <= i < j < |order| ==>
         Worse(Rank(order[i], rates[i]), Rank(order[j], rates[j]))
  }

  /** Every entry once, by ascending rate. */
  ghost predicate IsOrder(t: seq<Score>, order: seq<nat>, rates: seq<nat>) {
    && |order| == |t| && |rates| == |t| && NoRepeat(order) && Members(order) <= Below(|t|)
    && (forall k {:trigger rates[k]} {:trigger order[k]} :: 0 <= k < |order| ==>
          order[k] < |t| && rates[k] == t[order[k]].rate)
    && Ascending(rates) && Precedes(order, rates)
  }

  /** The entries in the order in which they would be evicted, with their rates. */
  method EvictionOrder(t: seq<Score>) returns (order: seq<nat>, rates: seq<nat>)
    ensures IsOrder(t, order, rates)
  {
    var ranked := RankAll(t);
    order := seq(|ranked|, k requires 0 <= k < |ranked| => ranked[k].index);
    rates := seq(|ranked|, k requires 0 <= k < |ranked| => ranked[k].rate);
    RankedIsOrder(t, ranked, order, rates);
  }

  lemma {:induction false} RankedIsOrder(t: seq<Score>, r: seq<Rank>, order: seq<nat>, rates: seq<nat>)
    requires Ranked(t, r, |t|) && |r| == |t| && |order| == |r| && |rates| == |r|
    requires forall k :: 0 <= k < |r| ==> order[k] == r[k].index && rates[k] == r[k].rate
    ensures IsOrder(t, order, rates)
  {
    forall k | 0 <= k < |r|
      ensures order[k] < |t| && rates[k] == t[order[k]].rate
    {
      assert r[k] in r;
    }
    DistinctIsNoRepeat(r, order, |order|);
    assert order[..|order|] == order;
  }

  lemma {:induction false} DistinctIsNoRepeat(r: seq<Rank>, order: seq<nat>, n: nat)
    requires n <= |order| == |r| && forall k :: 0 <= k < |r| ==> order[k] == r[k].index
    requires forall i, j {:trigger r[i], r[j]} :: 0 <= i < j < |r| ==> r[i].index != r[j].index
    ensures NoRepeat(order[..n])
  {
    if n > 0 {
      DistinctIsNoRepeat(r, order, n - 1);
      assert order[..n] == order[..n - 1] + [order[n - 1]];
      forall j | 0 <= j < n - 1
        ensures order[j] != order[n - 1]
      {
        assert r[j].index != r[n - 1].index;
      }
      NoRepeatPush(order[..n - 1], order[n - 1]);
    }
  }

  lemma {:induction false} Everywhere(s: seq<nat>, n: nat, i: nat)
    requires NoRepeat(s) && |s| == n && Members(s) <= Below(n) && i < n
    ensures i in s
  {
    SameSizeIsAll(Members(s), Below(n));
    assert i in Below(n);
  }

  /** If an entry of the order is not cheaper than `rate`, no later one is, and those before it
      are all the others. */
  lemma {:induction false} RestIsDear(t: seq<Score>, order: seq<nat>, rates: seq<nat>, k: nat, rate: nat, i: nat)
    requires IsOrder(t, order, rates) && k <= |order| && (k < |order| ==> rates[k] >= rate)
    requires i < |t| && i !in order[..k]
    ensures t[i].rate >= rate
  {
    Everywhere(order, |t|, i);
    var j :| 0 <= j < |order| && order[j] == i;
    assert rates[j] == t[i].rate;
  }

  /** What is used after the first `k` sizes are given back. */
  function UsedAfter(sizes: seq<nat>, used: nat, k: nat): nat
    requires k <= |sizes|
  {
    if k == 0 then used
    else
      var before := UsedAfter(sizes, used, k - 1);
      if before >= sizes[k - 1] then before - sizes[k - 1] else 0
  }

  /** How far down a list of sizes and rates to go: as long as more is used than fits and the
      rate is lower. */
  method HowFar(sizes: seq<nat>, rates: seq<nat>, used0: nat, incoming: nat, rate: nat) returns (k: nat)
    requires |sizes| == |rates|
    ensures k <= |sizes| && forall j {:trigger rates[j]} :: 0 <= j < k ==> rates[j] < rate
    ensures k > 0 ==> UsedAfter(sizes, used0, k - 1) + incoming > MAX_MEMPOOL_BYTES
    ensures k < |sizes| ==> UsedAfter(sizes, used0, k) + incoming <= MAX_MEMPOOL_BYTES || rates[k] >= rate
  {
    k := 0;
    var used := used0;
    while k < |sizes| && used + incoming > MAX_MEMPOOL_BYTES && rates[k] < rate
      invariant 0 <= k <= |sizes| && used == UsedAfter(sizes, used0, k)
      invariant forall j {:trigger rates[j]} :: 0 <= j < k ==> rates[j] < rate
      invariant k > 0 ==> UsedAfter(sizes, used0, k - 1) + incoming > MAX_MEMPOOL_BYTES
    {
      used := if used >= sizes[k] then used - sizes[k] else 0;
      k := k + 1;
    }
  }

  function SizesOf(q: Queue, order: seq<nat>): (s: seq<nat>)
    requires InRange(q, order)
    ensures |s| == |order| && forall k :: 0 <= k < |order| ==> s[k] == q[order[k]].relayBytes
  {
    seq(|order|, k requires 0 <= k < |order| => q[order[k]].relayBytes)
  }

  /** The running count is the bytes of what is left. */
  lemma {:induction false} UsedIsBytes(q: Queue, order: seq<nat>, k: nat)
    requires NoRepeat(order) && InRange(q, order) && k <= |order|
    ensures UsedAfter(SizesOf(q, order), Bytes(q), k) == BytesWithout(q, order, k)
  {
    if k == 0 {
      TakeNone(q, order);
    } else {
      UsedIsBytes(q, order, k - 1);
      TakeOne(q, order, k - 1);
    }
  }

  /** Without the picked entries the bytes still do not fit. */
  ghost predicate Overfull(q: Queue, picked: seq<nat>, incoming: nat) {
    Bytes(Kept(q, Members(picked))) + incoming > MAX_MEMPOOL_BYTES
  }

  /** Every picked entry's package pays less than `rate` per byte. */
  ghost predicate CheaperThan(t: seq<Score>, picked: seq<nat>, rate: nat) {
    forall k {:trigger picked[k]} :: 0 <= k < |picked| ==> picked[k] < |t| && t[picked[k]].rate < rate
  }

  /** The evicted entries are all cheaper than `rate` and as few as make the bytes fit; if even
      all of those do not, no cheaper entry is left. */
  ghost predicate GoodEviction(q: Queue, t: seq<Score>, gone: seq<nat>, incoming: nat, rate: nat) {
    && |t| == |q| && NoRepeat(gone) && InRange(q, gone) && CheaperThan(t, gone, rate)
    && (gone == [] || Overfull(q, gone[..|gone| - 1], incoming))
    && (Overfull(q, gone, incoming) ==> forall i :: 0 <= i < |q| && i !in gone ==> t[i].rate >= rate)
  }

  lemma {:induction false} PrefixIsGood(q: Queue, t: seq<Score>, order: seq<nat>, rates: seq<nat>, k: nat,
                                        incoming: nat, rate: nat)
    requires |t| == |q| && IsOrder(t, order, rates) && k <= |order| && InRange(q, order)
    requires forall j {:trigger rates[j]} :: 0 <= j < k ==> rates[j] < rate
    requires k > 0 ==> UsedAfter(SizesOf(q, order), Bytes(q), k - 1) + incoming > MAX_MEMPOOL_BYTES
    requires k < |order| ==>
               UsedAfter(SizesOf(q, order), Bytes(q), k) + incoming <= MAX_MEMPOOL_BYTES || rates[k] >= rate
    ensures GoodEviction(q, t, order[..k], incoming, rate)
  {
    PrefixInRange(q, order, k);
    PrefixIsCheap(t, order, rates, k, rate);
    PrefixNeeded(q, order, k, incoming);
    FitsAt(q, order, k, incoming);
    if Overfull(q, order[..k], incoming) {
      AllRestIsDear(t, order, rates, k, rate);
    }
  }

  lemma {:induction false} PrefixNeeded(q: Queue, order: seq<nat>, k: nat, incoming: nat)
    requires NoRepeat(order) && InRange(q, order) && k <= |order|
    requires k > 0 ==> UsedAfter(SizesOf(q, order), Bytes(q), k - 1) + incoming > MAX_MEMPOOL_BYTES
    ensures order[..k] == [] || Overfull(q, order[..k][..k - 1], incoming)
  {
    if k > 0 {
      FitsAt(q, order, k - 1, incoming);
      assert order[..k][..k - 1] == order[..k - 1];
    }
  }

  lemma {:induction false} AllRestIsDear(t: seq<Score>, order: seq<nat>, rates: seq<nat>, k: nat, rate: nat)
    requires IsOrder(t, order, rates) && k <= |order| && (k < |order| ==> rates[k] >= rate)
    ensures forall i :: 0 <= i < |t| && i !in order[..k] ==> t[i].rate >= rate
  {
    forall i | 0 <= i < |t| && i !in order[..k]
      ensures t[i].rate >= rate
    {
      RestIsDear(t, order, rates, k, rate, i);
    }
  }

  // ----- Which entries go, as a set -----

  ghost predicate FitsWithout(q: Queue, removed: set<nat>, incoming: nat) {
    Bytes(Kept(q, removed)) + incoming <= MAX_MEMPOOL_BYTES
  }

  ghost function Cheaper(t: seq<Score>, rate: nat): set<nat> {
    set i: nat | i < |t| && t[i].rate < rate
  }

  /** The entries that would be evicted before `i`. */
  ghost function GoBefore(t: seq<Score>, i: nat): set<nat>
    requires i < |t|
  {
    set j: nat | j < |t| && Worse(Rank(j, t[j].rate), Rank(i, t[i].rate))
  }

  /** An entry goes exactly when it is cheaper and those that go before it do not free enough. */
  ghost function Evicted(q: Queue, t: seq<Score>, incoming: nat, rate: nat): set<nat>
    requires |t| == |q|
  {
    set i: nat | i < |t| && t[i].rate < rate && !FitsWithout(q, GoBefore(t, i), incoming)
  }

  lemma {:induction false} BeforeIsPrefix(t: seq<Score>, order: seq<nat>, rates: seq<nat>, k: nat)
    requires IsOrder(t, order, rates) && k < |order|
    ensures order[k] < |t| && GoBefore(t, order[k]) == Members(order[..k])
  {
    var i := order[k];
    forall j: nat | j < |t|
      ensures j in GoBefore(t, i) <==> j in order[..k]
    {
      Everywhere(order, |t|, j);
      var m :| 0 <= m < |order| && order[m] == j;
      assert rates[m] == t[j].rate && rates[k] == t[i].rate;
      if m < k {
        assert order[..k][m] == j;
        assert Worse(Rank(order[m], rates[m]), Rank(order[k], rates[k]));
      } else {
        assert m > k ==> Worse(Rank(order[k], rates[k]), Rank(order[m], rates[m]));
        NoRepeatSlot(order, k, m);
      }
    }
  }

  lemma {:induction false} NoRepeatSlot(s: seq<nat>, k: nat, m: nat)
    requires NoRepeat(s) && k <= m < |s|
    ensures s[m] !in s[..k]
  {
    NoRepeatPrefix(s, m);
    assert s[..k] <= s[..m];
  }

  lemma {:induction false} BytesFall(q: Queue, order: seq<nat>, j: nat, k: nat)
    requires NoRepeat(order) && InRange(q, order) && j <= k <= |order|
    ensures BytesWithout(q, order, k) <= BytesWithout(q, order, j)
  {
    if j < k {
      BytesFall(q, order, j, k - 1);
      TakeOne(q, order, k - 1);
    }
  }

  /** The entry at position `j` of the order goes exactly when `j < k`. */
  lemma {:induction false} SlotIsEvicted(q: Queue, t: seq<Score>, order: seq<nat>, rates: seq<nat>, k: nat,
                                         incoming: nat, rate: nat, j: nat)
    requires |t| == |q| && IsOrder(t, order, rates) && k <= |order| && InRange(q, order) && j < |order|
    requires forall m {:trigger rates[m]} :: 0 <= m < k ==> rates[m] < rate
    requires k > 0 ==> BytesWithout(q, order, k - 1) + incoming > MAX_MEMPOOL_BYTES
    requires k < |order| ==> BytesWithout(q, order, k) + incoming <= MAX_MEMPOOL_BYTES || rates[k] >= rate
    ensures order[j] in Evicted(q, t, incoming, rate) <==> j < k
  {
    BeforeIsPrefix(t, order, rates, j);
    assert rates[j] == t[order[j]].rate;
    if j < k {
      BytesFall(q, order, j, k - 1);
    } else {
      BytesFall(q, order, k, j);
      assert rates[k] <= rates[j];
    }
  }

  lemma {:induction false} EntryIsEvicted(q: Queue, t: seq<Score>, order: seq<nat>, rates: seq<nat>, k: nat,
                                          incoming: nat, rate: nat, i: nat)
    requires |t| == |q| && IsOrder(t, order, rates) && k <= |order| && InRange(q, order) && i < |t|
    requires forall m {:trigger rates[m]} :: 0 <= m < k ==> rates[m] < rate
    requires k > 0 ==> BytesWithout(q, order, k - 1) + incoming > MAX_MEMPOOL_BYTES
    requires k < |order| ==> BytesWithout(q, order, k) + incoming <= MAX_MEMPOOL_BYTES || rates[k] >= rate
    ensures i in Members(order[..k]) <==> i in Evicted(q, t, incoming, rate)
  {
    Everywhere(order, |t|, i);
    var j :| 0 <= j < |order| && order[j] == i;
    SlotIsEvicted(q, t, order, rates, k, incoming, rate, j);
    if j < k {
      assert order[..k][j] == i;
    } else {
      NoRepeatSlot(order, k, j);
    }
  }

  lemma {:induction false} PrefixIsEvicted(q: Queue, t: seq<Score>, order: seq<nat>, rates: seq<nat>, k: nat,
                                           incoming: nat, rate: nat)
    requires |t| == |q| && IsOrder(t, order, rates) && k <= |order| && InRange(q, order)
    requires forall m {:trigger rates[m]} :: 0 <= m < k ==> rates[m] < rate
    requires k > 0 ==> UsedAfter(SizesOf(q, order), Bytes(q), k - 1) + incoming > MAX_MEMPOOL_BYTES
    requires k < |order| ==>
               UsedAfter(SizesOf(q, order), Bytes(q), k) + incoming <= MAX_MEMPOOL_BYTES || rates[k] >= rate
    ensures Members(order[..k]) == Evicted(q, t, incoming, rate)
  {
    StopInBytes(q, order, k);
    SameMembers(q, t, order, rates, k, incoming, rate);
  }

  lemma {:induction false} StopInBytes(q: Queue, order: seq<nat>, k: nat)
    requires NoRepeat(order) && InRange(q, order) && k <= |order|
    ensures k > 0 ==> UsedAfter(SizesOf(q, order), Bytes(q), k - 1) == BytesWithout(q, order, k - 1)
    ensures UsedAfter(SizesOf(q, order), Bytes(q), k) == BytesWithout(q, order, k)
  {
    if k > 0 {
      UsedIsBytes(q, order, k - 1);
    }
    UsedIsBytes(q, order, k);
  }

  lemma {:induction false} SameMembers(q: Queue, t: seq<Score>, order: seq<nat>, rates: seq<nat>, k: nat,
                                       incoming: nat, rate: nat)
    requires |t| == |q| && IsOrder(t, order, rates) && k <= |order| && InRange(q, order)
    requires forall m {:trigger rates[m]} :: 0 <= m < k ==> rates[m] < rate
    requires k > 0 ==> BytesWithout(q, order, k - 1) + incoming > MAX_MEMPOOL_BYTES
    requires k < |order| ==> BytesWithout(q, order, k) + incoming <= MAX_MEMPOOL_BYTES || rates[k] >= rate
    ensures Members(order[..k]) == Evicted(q, t, incoming, rate)
  {
    forall i: nat | i < |t|
      ensures i in Members(order[..k]) <==> i in Evicted(q, t, incoming, rate)
    {
      EntryIsEvicted(q, t, order, rates, k, incoming, rate, i);
    }
    assert forall i :: i in order[..k] ==> i < |t|;
  }

  lemma {:induction false} FewerRemoved(q: Queue, some: set<nat>, more: set<nat>)
    requires some <= more
    ensures Bytes(Kept(q, more)) <= Bytes(Kept(q, some))
  {
    if q != [] {
      FewerRemoved(q[..|q| - 1], some, more);
      KeptStep(q, some);
      KeptStep(q, more);
    }
  }

  /** Evicting as far as needed makes room exactly when evicting everything cheaper would. */
  lemma {:induction false} FitsExactly(q: Queue, t: seq<Score>, gone: seq<nat>, incoming: nat, rate: nat)
    requires GoodEviction(q, t, gone, incoming, rate)
    ensures Overfull(q, gone, incoming) <==> !FitsWithout(q, Cheaper(t, rate), incoming)
  {
    assert Members(gone) <= Cheaper(t, rate) by {
      forall i | i in gone
        ensures i in Cheaper(t, rate)
      {
        var k :| 0 <= k < |gone| && gone[k] == i;
      }
    }
    FewerRemoved(q, Members(gone), Cheaper(t, rate));
    if Overfull(q, gone, incoming) {
      assert Cheaper(t, rate) <= Members(gone);
      assert Cheaper(t, rate) == Members(gone);
    }
  }

  /** Evict entries in eviction order. */
  method MakeRoom(q: Queue, t: seq<Score>, incoming: nat, rate: nat) returns (fits: bool, gone: seq<nat>)
    requires |t| == |q|
    ensures GoodEviction(q, t, gone, incoming, rate) && (fits <==> !Overfull(q, gone, incoming))
    ensures Members(gone) == Evicted(q, t, incoming, rate) && (fits <==> FitsWithout(q, Cheaper(t, rate), incoming))
  {
    var order, rates := EvictionOrder(t);
    var sizes := SizesOf(q, order);
    var k := HowFar(sizes, rates, Bytes(q), incoming, rate);
    PrefixIsGood(q, t, order, rates, k, incoming, rate);
    FitsAt(q, order, k, incoming);
    PrefixIsEvicted(q, t, order, rates, k, incoming, rate);
    FitsExactly(q, t, order[..k], incoming, rate);
    gone := order[..k];
    fits := UsedAfter(sizes, Bytes(q), k) + incoming <= MAX_MEMPOOL_BYTES;
  }

  lemma {:induction false} PrefixIsCheap(t: seq<Score>, order: seq<nat>, rates: seq<nat>, k: nat, rate: nat)
    requires IsOrder(t, order, rates) && k <= |order|
    requires forall j {:trigger rates[j]} :: 0 <= j < k ==> rates[j] < rate
    ensures CheaperThan(t, order[..k], rate)
  {
  }

  lemma {:induction false} PrefixInRange(q: Queue, order: seq<nat>, k: nat)
    requires NoRepeat(order) && InRange(q, order) && k <= |order|
    ensures NoRepeat(order[..k]) && InRange(q, order[..k])
  {
    NoRepeatPrefix(order, k);
  }

  lemma {:induction false} FitsAt(q: Queue, order: seq<nat>, k: nat, incoming: nat)
    requires NoRepeat(order) && InRange(q, order) && k <= |order|
    ensures UsedAfter(SizesOf(q, order), Bytes(q), k) + incoming <= MAX_MEMPOOL_BYTES <==>
            !Overfull(q, order[..k], incoming)
  {
    UsedIsBytes(q, order, k);
  }

  predicate Lower(a: Score, b: Score) {
    a.rate < b.rate || (a.rate == b.rate && a.fee < b.fee)
  }

  /** No entry below `n` has a lower (package rate, package fee). */
  ghost predicate IsWorst(t: seq<Score>, i: nat, n: nat) {
    i < n <= |t| && forall k :: 0 <= k < n ==> !Lower(t[k], t[i])
  }

  /** The first entry below `n` with the lowest (rate, fee). */
  function FirstWorst(t: seq<Score>, n: nat): (i: nat)
    requires 0 < n <= |t|
    ensures IsWorst(t, i, n) && forall k :: 0 <= k < i ==> Lower(t[i], t[k])
  {
    if n == 1 then 0
    else
      var i := FirstWorst(t, n - 1);
      if Lower(t[n - 1], t[i]) then n - 1 else i
  }

  /** The entry with the lowest (rate, fee), the first among equals. */
  method Worst(t: seq<Score>) returns (i: nat)
    requires t != []
    ensures IsWorst(t, i, |t|) && i == FirstWorst(t, |t|)
  {
    i := 0;
    for k := 1 to |t|
      invariant IsWorst(t, i, k) && i == FirstWorst(t, k)
    {
      if Lower(t[k], t[i]) {
        i := k;
      }
    }
  }
}
