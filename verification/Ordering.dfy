/** Sequences sorted by (rank, hash): the deterministic order of a mergeset. */
module Ordering {
  import opened Types

  /** (rank, hash) lexicographic order, a strict total order on hashes. */
  predicate Before(rank: map<Hash, nat>, x: Hash, y: Hash)
    requires x in rank && y in rank
  {
    rank[x] < rank[y] || (rank[x] == rank[y] && x < y)
  }

  function InsertByRank(rank: map<Hash, nat>, x: Hash, s: seq<Hash>): seq<Hash>
    requires x in rank && forall y :: y in s ==> y in rank
  {
    if s == [] then [x]
    else if Before(rank, s[0], x) then [s[0]] + InsertByRank(rank, x, s[1..])
    else [x] + s
  }

  function SortByRank(rank: map<Hash, nat>, s: seq<Hash>): (r: seq<Hash>)
    requires forall y :: y in s ==> y in rank
    ensures forall y :: y in r <==> y in s
  {
    if s == [] then []
    else
      InsertMembers(rank, s[0], SortByRank(rank, s[1..]));
      InsertByRank(rank, s[0], SortByRank(rank, s[1..]))
  }

  lemma {:induction false} InsertMembers(rank: map<Hash, nat>, x: Hash, s: seq<Hash>)
    requires x in rank && forall y :: y in s ==> y in rank
    ensures forall y :: y in InsertByRank(rank, x, s) <==> y == x || y in s
  {
    if s != [] && Before(rank, s[0], x) {
      InsertMembers(rank, x, s[1..]);
    }
  }

  /** Strictly ascending, hence free of repetitions. */
  ghost predicate Ranked(rank: map<Hash, nat>, s: seq<Hash>) {
    && (forall y :: y in s ==> y in rank)
    && (forall i, j :: 0 <= i < j < |s| ==> Before(rank, s[i], s[j]))
  }

  lemma {:induction false} InsertRanked(rank: map<Hash, nat>, x: Hash, s: seq<Hash>)
    requires x in rank && Ranked(rank, s) && x !in s
    ensures Ranked(rank, InsertByRank(rank, x, s))
  {
    InsertMembers(rank, x, s);
    if s != [] && Before(rank, s[0], x) {
      InsertRanked(rank, x, s[1..]);
      InsertMembers(rank, x, s[1..]);
      var t := InsertByRank(rank, x, s[1..]);
      forall j | 0 <= j < |t|
        ensures Before(rank, s[0], t[j])
      {
        assert t[j] in t;
      }
    } else if s != [] {
      assert x != s[0];
    }
  }

  lemma {:induction false} SortRanked(rank: map<Hash, nat>, s: seq<Hash>)
    requires forall y :: y in s ==> y in rank
    requires forall i, j :: 0 <= i < j < |s| ==> s[i] != s[j]
    ensures Ranked(rank, SortByRank(rank, s))
  {
    if s != [] {
      SortRanked(rank, s[1..]);
      assert s[0] !in s[1..];
      InsertRanked(rank, s[0], SortByRank(rank, s[1..]));
    }
  }

  /** A set has only one ranked listing. */
  lemma {:induction false} RankedUnique(rank: map<Hash, nat>, s: seq<Hash>, t: seq<Hash>)
    requires Ranked(rank, s) && Ranked(rank, t) && forall y :: y in s <==> y in t
    ensures s == t
  {
    if s == [] {
      assert forall i :: 0 <= i < |t| ==> t[i] in s;
    } else {
      assert s[0] in t;
      assert t[0] in s;
      var i :| 0 <= i < |t| && t[i] == s[0];
      var j :| 0 <= j < |s| && s[j] == t[0];
      assert s[0] == t[0];
      RankedTail(rank, s);
      RankedTail(rank, t);
      RankedUnique(rank, s[1..], t[1..]);
    }
  }

  lemma {:induction false} RankedTail(rank: map<Hash, nat>, s: seq<Hash>)
    requires Ranked(rank, s) && s != []
    ensures Ranked(rank, s[1..])
    ensures forall y :: y in s[1..] <==> y in s && y != s[0]
  {
    assert forall y :: y in s <==> y == s[0] || y in s[1..];
    forall i | 0 <= i < |s[1..]|
      ensures s[1..][i] != s[0]
    {
      assert Before(rank, s[0], s[i + 1]);
    }
  }
}
