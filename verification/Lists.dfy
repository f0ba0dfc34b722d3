/** Lists of blocks: members, distinctness, and taking members out. */
module Lists {
  import opened Types

  function Elements(s: seq<Hash>): set<Hash> {
    set x | x in s
  }

  ghost predicate Distinct(s: seq<Hash>) {
    forall i, j :: 0 <= i < j < |s| ==> s[i] != s[j]
  }

  lemma {:induction false} DistinctInsert(s: seq<Hash>, t: seq<Hash>, x: Hash)
    requires Distinct(s + t) && x !in s && x !in t
    ensures Distinct(s + [x] + t) && Distinct(s + (t + [x]))
  {
    var u := s + [x] + t;
    forall i, j | 0 <= i < j < |u|
      ensures u[i] != u[j]
    {
      var i' := if i < |s| then i else i - 1;
      var j' := if j < |s| then j else j - 1;
      if i != |s| {
        assert u[i] == (s + t)[i'];
      }
      if j != |s| {
        assert u[j] == (s + t)[j'];
      }
    }
    var v := s + (t + [x]);
    assert v == (s + t) + [x];
  }

  lemma {:induction false} DistinctCount(s: seq<Hash>)
    requires Distinct(s)
    ensures |Elements(s)| == |s|
  {
    if s != [] {
      var k := |s| - 1;
      DistinctCount(s[..k]);
      assert s[k] !in s[..k];
      assert Elements(s) == Elements(s[..k]) + {s[k]};
    }
  }

  lemma {:induction false} AppendDistinct(s: seq<Hash>, t: seq<Hash>)
    requires Distinct(s) && Distinct(t) && Elements(s) !! Elements(t)
    ensures Distinct(s + t) && Elements(s + t) == Elements(s) + Elements(t)
  {
    var u := s + t;
    forall i, j | 0 <= i < j < |u|
      ensures u[i] != u[j]
    {
      if i < |s| <= j {
        assert u[i] in Elements(s) && u[j] in Elements(t);
      }
    }
  }

  /** `s` without the members of `out`, in order. */
  function Filter(s: seq<Hash>, out: set<Hash>): seq<Hash> {
    if s == [] then []
    else if s[0] in out then Filter(s[1..], out)
    else [s[0]] + Filter(s[1..], out)
  }

  lemma {:induction false} FilterMembers(s: seq<Hash>, out: set<Hash>)
    ensures forall y :: y in Filter(s, out) <==> y in s && y !in out
  {
    if s != [] {
      FilterMembers(s[1..], out);
      assert forall y :: y in s <==> y == s[0] || y in s[1..];
    }
  }

  lemma {:induction false} FilterDistinct(s: seq<Hash>, out: set<Hash>)
    requires Distinct(s)
    ensures Distinct(Filter(s, out))
  {
    if s != [] {
      FilterDistinct(s[1..], out);
      FilterMembers(s[1..], out);
      assert s[0] !in s[1..];
    }
  }

  lemma {:induction false} FilterNothing(s: seq<Hash>, out: set<Hash>)
    requires forall x :: x in s ==> x !in out
    ensures Filter(s, out) == s
  {
    if s != [] {
      FilterNothing(s[1..], out);
    }
  }

  lemma {:induction false} FilterTwice(s: seq<Hash>, out: set<Hash>, more: set<Hash>)
    ensures Filter(Filter(s, out), more) == Filter(s, out + more)
  {
    if s != [] {
      FilterTwice(s[1..], out, more);
    }
  }

  /** A set as a list, in some order. */
  method ListSet(s: set<Hash>) returns (q: seq<Hash>)
    ensures Distinct(q) && Elements(q) == s
  {
    q := [];
    var todo := s;
    while todo != {}
      invariant todo <= s && Distinct(q) && Elements(q) == s - todo
    {
      var x :| x in todo;
      assert x !in Elements(q);
      ghost var before := q;
      q := q + [x];
      assert Elements(q) == Elements(before) + {x};
      todo := todo - {x};
    }
  }
}
