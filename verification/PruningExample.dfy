/** A DAG in which pruning changes what a node computes for a new block: the pruning point, 6,
    merges a side branch of two blocks and names only the upper one.

        0 - 1 - 2 - 3 - 6 - 7 - 8 - ... - t
         \ 4 - 5 ------/             \ - c                                                     */
module PruningExample {
  import opened Types
  import opened Lists
  import opened Dag
  import opened Ordering
  import opened Ghostdag
  import opened GhostdagProperties
  import opened GhostdagLocality
  import opened ChainNode
  import opened Pruning
  import opened PrunedColoring
  import opened Sums
  import HonestRuns

  datatype Site = Site(dag: BlockDag, past: Pasts, gd: Coloring)

  predicate Opens(key: Key, s: Site) { true }

  ghost predicate SoundFacts(s: Site) {
    WellFormed(s.dag) && s.past == PastMap(s.dag) && Consistent(s.dag, s.past, s.gd)
  }

  /** A coloured DAG; unfolded only where a proof presents the key. */
  ghost predicate Sound(s: Site) {
    forall key {:trigger Opens(key, s)} :: Opens(key, s) ==> SoundFacts(s)
  }

  lemma {:induction false} OpenSound(s: Site)
    ensures Sound(s) <==> SoundFacts(s)
  {
    assert Opens(Key, s);
  }

  lemma {:induction false} SameKeys(s: Site)
    requires Sound(s)
    ensures s.dag.Keys == s.past.Keys == s.gd.Keys
  {
    OpenSound(s);
  }

  function Plain(parents: seq<Hash>): Block {
    Block(parents, 0, 0, 0, "", 0, Body([], [], []))
  }

  // ----- Adding blocks -----

  ghost function With(s: Site, h: Hash, parents: seq<Hash>): Site {
    if DataReady(s.past, s.gd, parents)
    then Site(s.dag[h := Plain(parents)], s.past[h := NewPast(s.past, parents)], s.gd[h := Data(s.past, s.gd, parents)])
    else s
  }

  lemma {:induction false} WithSound(s: Site, h: Hash, parents: seq<Hash>)
    requires Sound(s) && h !in s.dag && parents != [] && |parents| <= 2 && Distinct(parents)
    requires forall p :: p in parents ==> p in s.dag
    ensures DataReady(s.past, s.gd, parents) && Sound(With(s, h, parents))
  {
    OpenSound(s);
    OpenSound(With(s, h, parents));
    var b := Plain(parents);
    ConsistentIsReady(s.dag, s.past, s.gd, parents);
    AcceptedPast(s.dag, s.past, h, b);
    ExtensionIsConsistent(s.dag, s.past, s.gd, h, b, s.past[h := NewPast(s.past, parents)]);
  }

  ghost function WithOneUp(s: Site, h: Hash, p: Hash): Site
    requires p in s.past && p in s.gd
  {
    Site(s.dag[h := Plain([p])], s.past[h := {p} + s.past[p]], s.gd[h := HonestRuns.OneUp(s.gd[p], p)])
  }

  lemma {:induction false} WithOneShape(s: Site, h: Hash, p: Hash)
    requires DataReady(s.past, s.gd, [p]) && p in s.gd && p in s.past
    ensures With(s, h, [p]) == WithOneUp(s, h, p)
  {
    assert Data(s.past, s.gd, [p]) == HonestRuns.OneUp(s.gd[p], p) by {
      HonestRuns.SingleParentData(s.past, s.gd, p);
    }
    OneParentPast(s.past, p);
  }

  lemma {:induction false} OneParentPast(past: Pasts, p: Hash)
    requires p in past
    ensures NewPast(past, [p]) == {p} + past[p]
  {
  }

  lemma {:induction false} WithOne(s: Site, h: Hash, p: Hash)
    requires Sound(s) && h !in s.dag && p in s.dag
    ensures p in s.past && p in s.gd && Sound(WithOneUp(s, h, p)) && With(s, h, [p]) == WithOneUp(s, h, p)
  {
    SameKeys(s);
    WithSound(s, h, [p]);
    WithOneShape(s, h, p);
  }

  // ----- A few blues -----

  lemma {:induction false} AnticoneInside(past: Pasts, s: set<Hash>, x: Hash)
    ensures |Anticone(past, s, x)| <= |s| && (x in s ==> |Anticone(past, s, x)| < |s|)
  {
    SubsetIsAtMost(Anticone(past, s, x), s - {x});
  }

  lemma {:induction false} FewIsBlue(past: Pasts, blues: set<Hash>, x: Hash)
    requires |blues| < K
    ensures IsBlue(past, blues, x)
  {
    AnticoneInside(past, blues, x);
    forall d | d in Anticone(past, blues, x)
      ensures |Anticone(past, blues, d)| < K
    {
      AnticoneInside(past, blues, d);
    }
  }

  lemma {:induction false} UnionAtMost(a: set<Hash>, b: set<Hash>)
    ensures |a + b| <= |a| + |b|
  {
    assert a + b == a + (b - a);
    SubsetIsAtMost(b - a, b);
  }

  /** With at most `K` blues in all, everything merged is blue. */
  lemma {:induction false} FewAreBlue(past: Pasts, seed: set<Hash>, order: seq<Hash>)
    requires |seed| + |order| <= K
    ensures ColorAll(past, seed, order) == Colors(order, [])
  {
    if order != [] {
      var k := |order| - 1;
      FewAreBlue(past, seed, order[..k]);
      NextIsBlue(past, seed, order[..k], order[k]);
      assert order == order[..k] + [order[k]];
    }
  }

  lemma {:induction false} NextIsBlue(past: Pasts, seed: set<Hash>, front: seq<Hash>, x: Hash)
    requires |seed| + |front| < K
    ensures IsBlue(past, seed + Elements(front), x)
  {
    ElementsAtMost(front);
    UnionAtMost(seed, Elements(front));
    FewIsBlue(past, seed + Elements(front), x);
  }

  lemma {:induction false} ElementsAtMost(s: seq<Hash>)
    ensures |Elements(s)| <= |s|
  {
    if s != [] {
      ElementsAtMost(s[..|s| - 1]);
      assert Elements(s) == Elements(s[..|s| - 1]) + {s[|s| - 1]};
    }
  }

  // ----- The DAG -----

  /** The numbers of a site: which blocks it holds, with their pasts and scores. */
  ghost predicate Has(s: Site, pasts: Pasts, scores: map<Hash, nat>) {
    && Sound(s) && s.past == pasts && s.dag.Keys == pasts.Keys == scores.Keys == s.gd.Keys
    && forall h :: h in scores ==> s.gd[h].blueScore == scores[h]
  }

  lemma {:induction false} Genesis() returns (s: Site)
    ensures Has(s, map[0 := {}], map[0 := 0])
  {
    s := Site(map[0 := Plain([])], map[0 := {}], map[0 := GENESIS_DATA]);
    GenesisGraph(0, Plain([]));
    OpenSound(s);
  }

  lemma {:induction false} AddOne(s: Site, pasts: Pasts, scores: map<Hash, nat>, n: Hash, p: Hash, below: set<Hash>,
                                  score: nat)
    returns (t: Site)
    requires Has(s, pasts, scores) && n !in pasts && p in pasts && below == {p} + pasts[p] && score == scores[p] + 1
    ensures t == WithOneUp(s, n, p) && Has(t, pasts[n := below], scores[n := score])
  {
    WithOne(s, n, p);
    t := WithOneUp(s, n, p);
  }

  // ----- Below the pruning point -----

  function TrunkPasts(): Pasts { map[0 := {}][1 := {0}][2 := {0, 1}][3 := {0, 1, 2}] }

  function TrunkScores(): map<Hash, nat> { map[0 := 0][1 := 1][2 := 2][3 := 3] }

  lemma {:induction false} BuildTrunk() returns (s: Site)
    ensures Has(s, TrunkPasts(), TrunkScores())
  {
    var s0 := Genesis();
    var s1 := AddOne(s0, map[0 := {}], map[0 := 0], 1, 0, {0}, 1);
    var s2 := AddOne(s1, map[0 := {}][1 := {0}], map[0 := 0][1 := 1], 2, 1, {0, 1}, 2);
    s := AddOne(s2, map[0 := {}][1 := {0}][2 := {0, 1}], map[0 := 0][1 := 1][2 := 2], 3, 2, {0, 1, 2}, 3);
  }

  function BothPasts(): Pasts { TrunkPasts()[4 := {0}][5 := {0, 4}] }

  function BothScores(): map<Hash, nat> { TrunkScores()[4 := 1][5 := 2] }

  lemma {:induction false} BuildBranches() returns (s: Site)
    ensures Has(s, BothPasts(), BothScores())
  {
    var s3 := BuildTrunk();
    var s4 := AddOne(s3, TrunkPasts(), TrunkScores(), 4, 0, {0}, 1);
    s := AddOne(s4, TrunkPasts()[4 := {0}], TrunkScores()[4 := 1], 5, 4, {0, 4}, 2);
  }

  // ----- The pruning point -----

  lemma {:induction false} MeetingMerges(past: Pasts)
    requires past == BothPasts()
    ensures NewPast(past, [3, 5]) == {0, 1, 2, 3, 4, 5} && MergeSet(past, [3, 5], 3) == {4, 5}
  {
    assert NewPast(past, [5]) == {5} + past[5] && [3, 5][1..] == [5];
  }

  lemma {:induction false} OrderCount(past: Pasts, ms: set<Hash>)
    requires ms <= past.Keys
    ensures |MergeOrder(past, ms)| == |ms|
  {
    var order := MergeOrder(past, ms);
    forall i, j | 0 <= i < j < |order|
      ensures order[i] != order[j]
    {
      assert Before(Ranks(past, ms), order[i], order[j]);
    }
    DistinctCount(order);
    assert Elements(order) == ms;
  }

  lemma {:induction false} TrunkBlues(s: Site)
    requires Has(s, BothPasts(), BothScores()) && ChainDown(s.gd)
    ensures |Blues(s.gd, 3)| <= 4
  {
    OpenSound(s);
    BlueScoreCountsBlues(s.dag, s.past, s.gd, 3);
  }

  /** The side branch is merged blue. */
  lemma {:induction false} MeetingData(s: Site)
    requires Has(s, BothPasts(), BothScores()) && DataReady(s.past, s.gd, [3, 5])
    ensures Data(s.past, s.gd, [3, 5]).blueScore == 6 && 4 in Data(s.past, s.gd, [3, 5]).mergesetBlues
  {
    HeaviestUnique(s.gd, [3, 5], 3);
    MeetingMerges(s.past);
    var order := MergeOrder(s.past, {4, 5});
    OrderCount(s.past, {4, 5});
    assert |{4, 5}| == 2;
    TrunkBlues(s);
    FewAreBlue(s.past, Blues(s.gd, 3), order);
    assert 4 in order;
  }

  function MeetingPasts(): Pasts { BothPasts()[6 := {0, 1, 2, 3, 4, 5}] }

  function MeetingScores(): map<Hash, nat> { BothScores()[6 := 6] }

  ghost predicate Meets(s: Site)
  {
    6 in s.dag && s.dag[6].parents == [3, 5] && 6 in s.gd && 4 in s.gd[6].mergesetBlues
  }

  lemma {:induction false} AddTwo(s: Site, pasts: Pasts, scores: map<Hash, nat>, n: Hash, parents: seq<Hash>,
                                  below: set<Hash>, score: nat)
    requires Has(s, pasts, scores) && n !in pasts && DataReady(s.past, s.gd, parents)
    requires Sound(With(s, n, parents)) && below == NewPast(pasts, parents)
    requires score == Data(s.past, s.gd, parents).blueScore
    ensures Has(With(s, n, parents), pasts[n := below], scores[n := score])
  {
  }

  lemma {:induction false} BuildMeeting() returns (s: Site)
    ensures Has(s, MeetingPasts(), MeetingScores()) && Meets(s)
  {
    var t := BuildBranches();
    s := Meet(t, BothPasts(), BothScores());
  }

  lemma {:induction false} Meet(t: Site, pasts: Pasts, scores: map<Hash, nat>) returns (s: Site)
    requires pasts == BothPasts() && scores == BothScores() && Has(t, pasts, scores)
    ensures Has(s, pasts[6 := {0, 1, 2, 3, 4, 5}], scores[6 := 6]) && Meets(s)
  {
    s := With(t, 6, [3, 5]);
    assert Distinct([3, 5]) && 3 in pasts && 5 in pasts && 6 !in pasts;
    WithSound(t, 6, [3, 5]);
    MeetingData(t);
    MeetingMerges(t.past);
    AddTwo(t, pasts, scores, 6, [3, 5], {0, 1, 2, 3, 4, 5}, 6);
  }

  // ----- The chain above it -----

  /** All pasts up to the block `t` of the chain. */
  ghost function Pasts6(t: nat): Pasts
    requires t >= 6
  {
    if t == 6 then MeetingPasts()
    else
      var pasts := Pasts6(t - 1);
      if t - 1 in pasts then pasts[t := {t - 1} + pasts[t - 1]] else pasts
  }

  ghost function Scores6(t: nat): map<Hash, nat>
    requires t >= 6
  {
    if t == 6 then MeetingScores() else Scores6(t - 1)[t := t]
  }

  lemma {:induction false} PastsAre(t: nat, h: nat)
    requires t >= 6
    ensures h in Pasts6(t) <==> h <= t
    ensures h in Scores6(t) <==> h <= t
    ensures h <= t ==> if h < 6 then Scores6(t)[h] < 6 else Scores6(t)[h] == h
  {
    if t > 6 {
      PastsAre(t - 1, h);
      PastsAre(t - 1, t - 1);
    }
  }

  lemma {:induction false} PastIsBelow(t: nat, m: nat, h: nat)
    requires 6 <= m <= t
    ensures m in Pasts6(t) && (h in Pasts6(t)[m] <==> h < m)
  {
    if t > 6 {
      PastsAre(t - 1, t - 1);
      if m < t {
        PastsAre(t - 1, m);
        PastIsBelow(t - 1, m, h);
      } else {
        PastIsBelow(t - 1, m - 1, h);
      }
    }
  }

  ghost predicate IsChain(s: Site, t: nat) {
    && t >= 6 && Has(s, Pasts6(t), Scores6(t)) && Meets(s)
    && forall m: nat :: 6 < m <= t ==> m in s.dag && s.dag[m].parents == [m - 1]
  }

  lemma {:induction false} BuildChain(t: nat) returns (s: Site)
    requires t >= 6
    ensures IsChain(s, t)
  {
    if t == 6 {
      s := BuildMeeting();
    } else {
      var r := BuildChain(t - 1);
      s := ExtendChain(r, t);
    }
  }

  lemma {:induction false} ExtendChain(r: Site, t: nat) returns (s: Site)
    requires t > 6 && IsChain(r, t - 1)
    ensures IsChain(s, t)
  {
    PastsAre(t - 1, t - 1);
    PastsAre(t - 1, t);
    s := ExtendFrom(r, Pasts6(t - 1), Scores6(t - 1), t);
  }

  lemma {:induction false} ExtendFrom(r: Site, pasts: Pasts, scores: map<Hash, nat>, t: nat) returns (s: Site)
    requires t > 6 && Has(r, pasts, scores) && Meets(r) && t !in pasts && t - 1 in pasts && scores[t - 1] == t - 1
    requires forall m: nat :: 6 < m <= t - 1 ==> m in r.dag && r.dag[m].parents == [m - 1]
    ensures Has(s, pasts[t := {t - 1} + pasts[t - 1]], scores[t := t]) && Meets(s)
    ensures forall m: nat :: 6 < m <= t ==> m in s.dag && s.dag[m].parents == [m - 1]
  {
    s := AddOne(r, pasts, scores, t, t - 1, {t - 1} + pasts[t - 1], t);
  }

  // ----- A fork near the top -----

  /** Blocks, pasts and scores along the chain. */
  ghost predicate Numbers(s: Site, t: nat) {
    && t >= 8 && (forall h: nat :: h <= t ==> h in s.dag && h in s.past && h in s.gd)
    && (forall m: nat, h: nat :: 6 <= m <= t ==> (h in s.past[m] <==> h < m))
    && (forall m: nat :: m <= t ==> if m < 6 then s.gd[m].blueScore < 6 else s.gd[m].blueScore == m)
    && Meets(s) && (forall m: nat :: 6 < m <= t ==> s.dag[m].parents == [m - 1])
  }

  /** The chain up to `t` and one more block, `c`, on the block `t - 2`. */
  ghost predicate Forks(s: Site, t: nat, c: nat) {
    && Numbers(s, t) && Sound(s) && c == t + 1 && c in s.dag && c in s.past && c in s.gd
    && s.dag[c].parents == [t - 2] && (forall h: nat :: h in s.past[c] <==> h <= t - 2) && s.gd[c].blueScore == t - 1
  }

  lemma {:induction false} ChainNumbers(r: Site, t: nat)
    requires IsChain(r, t) && t >= 8
    ensures Numbers(r, t)
  {
    forall h: nat
      ensures h <= t ==> h in Pasts6(t) && h in Scores6(t) && if h < 6 then Scores6(t)[h] < 6 else Scores6(t)[h] == h
    {
      PastsAre(t, h);
    }
    forall m: nat, h: nat | 6 <= m <= t
      ensures m in Pasts6(t) && (h in Pasts6(t)[m] <==> h < m)
    {
      PastIsBelow(t, m, h);
    }
  }

  lemma {:induction false} BuildFork(t: nat, c: nat) returns (s: Site)
    requires t >= 8 && c == t + 1
    ensures Forks(s, t, c)
  {
    var r := BuildChain(t);
    ChainNumbers(r, t);
    PastsAre(t, t - 2);
    PastsAre(t, c);
    s := Fork(r, Pasts6(t), Scores6(t), t, c);
  }

  lemma {:induction false} Fork(r: Site, pasts: Pasts, scores: map<Hash, nat>, t: nat, c: nat) returns (s: Site)
    requires Has(r, pasts, scores) && Numbers(r, t) && c == t + 1 && c !in pasts && t - 2 in pasts
    requires scores[t - 2] == t - 2
    ensures Forks(s, t, c)
  {
    s := AddOne(r, pasts, scores, c, t - 2, {t - 2} + pasts[t - 2], t - 1);
  }

  lemma {:induction false} ForkPast(s: Site, t: nat, c: nat, x: nat)
    requires Forks(s, t, c)
    ensures x in NewPast(s.past, [t, c]) <==> x <= c
  {
    NewPastMember(s.past, [t, c], x);
  }

  lemma {:induction false} ForkMerges(s: Site, t: nat, c: nat)
    requires Forks(s, t, c)
    ensures Heaviest(s.gd, [t, c]) == Some(t) && MergeSet(s.past, [t, c], t) == {c}
  {
    HeaviestUnique(s.gd, [t, c], t);
    var ms := MergeSet(s.past, [t, c], t);
    forall x: nat
      ensures x in ms <==> x == c
    {
      ForkPast(s, t, c, x);
    }
  }

  /** A block of the new block's past lies below 6 or descends from it and names kept blocks. */
  lemma {:induction false} ForkBlock(s: Site, t: nat, c: nat, keep: set<Hash>, x: nat)
    requires Forks(s, t, c) && keep == AtLeast(s.gd, 6) && x <= c
    ensures x in s.dag && 6 in s.past
    ensures || x == 6 || x in s.past[6]
            || (x in s.past && 6 in s.past[x] && forall q :: q in s.dag[x].parents ==> q in keep)
  {
    if x > 6 {
      assert t - 2 in s.gd && s.gd[t - 2].blueScore == t - 2;
      assert x <= t ==> x - 1 in s.gd && s.gd[x - 1].blueScore == x - 1;
    }
  }

  lemma {:induction false} ForkKept(s: Site, t: nat, c: nat)
    requires Forks(s, t, c)
    ensures t in AtLeast(s.gd, 6) && c in AtLeast(s.gd, 6)
  {
    assert s.gd[t].blueScore == t;
  }

  /** A block at or below 6, or one above it that names kept blocks. */
  ghost predicate Rests(s: Site, keep: set<Hash>, x: Hash) {
    && 6 in s.past
    && (|| x == 6 || x in s.past[6]
        || (x in s.dag && x in s.past && 6 in s.past[x] && forall q :: q in s.dag[x].parents ==> q in keep))
  }

  lemma {:induction false} ForkRests(s: Site, t: nat, c: nat, keep: set<Hash>, x: nat)
    requires Forks(s, t, c) && keep == AtLeast(s.gd, 6) && t in s.past && x in NewPast(s.past, [t, c])
    ensures Rests(s, keep, x)
  {
    ForkPast(s, t, c, x);
    ForkBlock(s, t, c, keep, x);
  }

  lemma {:induction false} ForkCut(s: Site, keep: set<Hash>)
    requires SoundFacts(s) && 6 in s.dag && s.gd[6].blueScore == 6 && keep == AtLeast(s.gd, 6)
    ensures FutureClosed(s.dag, keep) && keep <= s.dag.Keys && 6 in keep && s.past[6] !! keep
  {
    KeepIsCut(s.dag, s.past, s.gd, 6);
  }

  lemma {:induction false} ForkIsBottleneck(s: Site, t: nat, c: nat, keep: set<Hash>)
    requires Forks(s, t, c) && SoundFacts(s) && keep == AtLeast(s.gd, 6)
    ensures Bottleneck(s.dag, keep, 6, [t, c])
  {
    assert 6 in s.dag && s.gd[6].blueScore == 6 && t in s.past;
    ForkCut(s, keep);
    ForkKept(s, t, c);
    forall x: nat | x in NewPast(s.past, [t, c])
      ensures Rests(s, keep, x)
    {
      ForkRests(s, t, c, keep, x);
    }
  }

  lemma {:induction false} ForkAnticones(s: Site, t: nat, c: nat, blues: set<Hash>)
    requires Forks(s, t, c) && blues <= s.past[t] + {t}
    ensures Anticone(s.past, blues, c) <= {t - 1, t}
    ensures Anticone(s.past, blues, t) == {} && Anticone(s.past, blues, t - 1) == {}
  {
  }

  /** An archival node colours the fork blue. */
  lemma {:induction false} ForkIsBlue(s: Site, t: nat, c: nat, blues: set<Hash>)
    requires Forks(s, t, c) && blues <= s.past[t] + {t}
    ensures IsBlue(s.past, blues, c)
  {
    ForkAnticones(s, t, c, blues);
    SubsetIsAtMost(Anticone(s.past, blues, c), {t - 1, t});
    assert |{t - 1, t}| == 2;
  }

  lemma {:induction false} OneOrder(past: Pasts, x: Hash)
    requires x in past
    ensures MergeOrder(past, {x}) == [x]
  {
    var order := MergeOrder(past, {x});
    OrderCount(past, {x});
    assert order[0] in order;
  }

  lemma {:induction false} OneColored(past: Pasts, gd: Coloring, sp: Hash, x: Hash)
    requires ChainDown(gd) && sp in gd && IsBlue(past, Blues(gd, sp), x)
    ensures Colored(past, gd, sp, [x]) == GhostdagData(gd[sp].blueScore + 2, Some(sp), [sp, x], [])
  {
    var seed := Blues(gd, sp);
    assert [x][..0] == [] && ColorAll(past, seed, []) == Colors([], []);
    assert seed + Elements([]) == seed;
    assert [sp] + [x] == [sp, x];
  }

  lemma {:induction false} TopBlues(s: Site, t: nat, c: nat)
    requires Forks(s, t, c) && SoundFacts(s)
    ensures Blues(s.gd, t) <= s.past[t] + {t}
  {
    BlueScoreCountsBlues(s.dag, s.past, s.gd, t);
  }

  lemma {:induction false} ForkData(s: Site, t: nat, c: nat)
    requires Forks(s, t, c) && SoundFacts(s) && DataReady(s.past, s.gd, [t, c])
    ensures Data(s.past, s.gd, [t, c]) == GhostdagData(t + 2, Some(t), [t, c], [])
  {
    ForkMerges(s, t, c);
    FullIsColored(s.past, s.gd, [t, c], t);
    OneOrder(s.past, c);
    TopBlues(s, t, c);
    ForkIsBlue(s, t, c, Blues(s.gd, t));
    OneColored(s.past, s.gd, t, c);
  }

  lemma {:induction false} SideBranchHidden(s: Site)
    requires Meets(s)
    ensures !AllNamed(s.dag, s.gd, 6)
  {
    assert 4 in Elements(s.gd[6].mergesetBlues) && 4 !in Elements([3, 5]);
  }

  lemma {:induction false} ForkReddens(s: Site, t: nat, c: nat, keep: set<Hash>)
    requires Forks(s, t, c) && t >= 6 + K && SoundFacts(s) && Bottleneck(s.dag, keep, 6, [t, c])
    requires DataReady(s.past, s.gd, [t, c])
    ensures PrunedData(s.dag, s.gd, keep, [t, c]) == GhostdagData(t + 1, Some(t), [t], [c])
  {
    ForkMerges(s, t, c);
    SideBranchHidden(s);
    PruningReddens(s.dag, s.past, s.gd, keep, 6, [t, c], Visible(s.dag, keep), Upper(s.dag, keep, [t, c]));
    OneOrder(s.past, c);
  }

  /** For every height of the chain above the pruning point from `K` on, `PRUNING_DEPTH` among
      them: an archival node merges the fork blue, a node pruned at 6 merges it red, and so the
      two give the same new block different scores. */
  lemma {:induction false} PruningShows(t: nat, c: nat) returns (s: Site)
    requires t >= 6 + K && c == t + 1
    ensures SoundFacts(s) && 6 in s.gd && t in s.gd && c in s.gd && s.gd[t].blueScore == s.gd[6].blueScore + (t - 6)
    ensures Bottleneck(s.dag, AtLeast(s.gd, s.gd[6].blueScore), 6, [t, c])
    ensures DataReady(s.past, s.gd, [t, c]) && Data(s.past, s.gd, [t, c]) == GhostdagData(t + 2, Some(t), [t, c], [])
    ensures PrunedData(s.dag, s.gd, AtLeast(s.gd, s.gd[6].blueScore), [t, c]) == GhostdagData(t + 1, Some(t), [t], [c])
  {
    s := BuildFork(t, c);
    OpenSound(s);
    assert s.gd[6].blueScore == 6 && s.gd[t].blueScore == t;
    ForkIsBottleneck(s, t, c, AtLeast(s.gd, 6));
    ConsistentIsReady(s.dag, s.past, s.gd, [t, c]);
    ForkData(s, t, c);
    ForkReddens(s, t, c, AtLeast(s.gd, 6));
  }
}
