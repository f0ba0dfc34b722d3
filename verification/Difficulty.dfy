/** Difficulty adjustment (src/lib.rs, `collect_daa_blue_samples`, `expected_difficulty_at`,
    `retarget_difficulty`): which blocks are sampled, and how far one block can move the
    required difficulty. */
module Difficulty {
  import opened Types
  import opened Lists
  import opened Dag
  import opened Ghostdag
  import opened GhostdagProperties
  import opened GhostdagLocality
  import opened BlockEffects

  const DAA_WINDOW: nat := 661
  const TARGET_BLOCK_TIME_MS: nat := 100
  const TWO63: nat := 0x8000_0000_0000_0000
  const TWO64: nat := 0x1_0000_0000_0000_0000

  function Max(x: nat, y: nat): nat { if x >= y then x else y }

  function Min(x: nat, y: nat): nat { if x <= y then x else y }

  // ----- The sampled blocks -----

  /** Every mergeset blue along the selected chain, from `b` down. */
  ghost function BluesDown(gd: Coloring, b: Hash): seq<Hash>
    requires ChainDown(gd) && b in gd
    decreases gd[b].blueScore
  {
    assert Descends(gd, b);
    gd[b].mergesetBlues + if gd[b].selectedParent.Some? then BluesDown(gd, gd[b].selectedParent.value) else []
  }

  lemma {:induction false} BluesDownStep(dag: BlockDag, past: Pasts, gd: Coloring, b: Hash) returns (sp: Hash)
    requires Consistent(dag, past, gd) && b in dag && dag[b].parents != []
    ensures sp in dag && gd[b].selectedParent == Some(sp) && gd[sp].blueScore < gd[b].blueScore
    ensures gd[b].mergesetBlues != [] && gd[b].mergesetBlues[0] == sp && Distinct(gd[b].mergesetBlues[1..])
    ensures Elements(gd[b].mergesetBlues[1..]) !! Blues(gd, sp)
    ensures Blues(gd, b) - {b} == Elements(gd[b].mergesetBlues[1..]) + Blues(gd, sp)
  {
    var c;
    sp, c := Unfold(dag, past, gd, b);
    BluesSplit(dag, past, gd, b, sp, c);
    MergesetPartition(dag, past, gd, b);
    DistinctPrefix(gd[b].mergesetBlues[1..], gd[b].mergesetReds);
    assert c.blues == gd[b].mergesetBlues[1..];
  }

  /** The walk meets each blue block below `b` exactly once. */
  lemma {:induction false} BluesDownDistinct(dag: BlockDag, past: Pasts, gd: Coloring, b: Hash)
    requires Consistent(dag, past, gd) && b in dag
    ensures Distinct(BluesDown(gd, b)) && Elements(BluesDown(gd, b)) == Blues(gd, b) - {b}
    decreases gd[b].blueScore
  {
    if dag[b].parents == [] {
      GenesisData(dag, past, gd, b);
      assert Blues(gd, b) == {b};
    } else {
      var sp := BluesDownStep(dag, past, gd, b);
      BluesDownDistinct(dag, past, gd, sp);
      JoinBlues(sp, gd[b].mergesetBlues[1..], BluesDown(gd, sp), Blues(gd, sp));
      assert gd[b].mergesetBlues == [sp] + gd[b].mergesetBlues[1..];
    }
  }

  /** ... and as many of them as the blue score says. */
  lemma {:induction false} BluesDownOnce(dag: BlockDag, past: Pasts, gd: Coloring, b: Hash)
    requires Consistent(dag, past, gd) && b in dag
    ensures Distinct(BluesDown(gd, b)) && |BluesDown(gd, b)| == gd[b].blueScore
    ensures forall h :: h in BluesDown(gd, b) ==> h in dag
  {
    BluesDownDistinct(dag, past, gd, b);
    BlueScoreCountsBlues(dag, past, gd, b);
    DistinctCount(BluesDown(gd, b));
    forall h | h in BluesDown(gd, b)
      ensures h in dag
    {
      assert h in Elements(BluesDown(gd, b));
    }
  }

  lemma {:induction false} DistinctPrefix(s: seq<Hash>, t: seq<Hash>)
    requires Distinct(s + t)
    ensures Distinct(s)
  {
    forall i, j | 0 <= i < j < |s|
      ensures s[i] != s[j]
    {
      assert (s + t)[i] != (s + t)[j];
    }
  }

  lemma {:induction false} JoinBlues(sp: Hash, e: seq<Hash>, down: seq<Hash>, s: set<Hash>)
    requires Distinct(e) && Distinct(down) && sp in s && Elements(down) == s - {sp} && Elements(e) !! s
    ensures Distinct([sp] + e + down) && Elements([sp] + e + down) == Elements(e) + s
  {
    AppendDistinct([sp], e);
    AppendDistinct([sp] + e, down);
  }

  // ----- Sampling -----

  datatype Sample = Sample(timestamp: nat, difficulty: nat)

  function SampleOf(block: Block): Sample {
    Sample(block.timestamp, Max(block.difficulty, 1))
  }

  ghost function SamplesOf(dag: BlockDag, blues: seq<Hash>): seq<Sample>
    requires forall h :: h in blues ==> h in dag
  {
    if blues == [] then [] else SamplesOf(dag, blues[..|blues| - 1]) + [SampleOf(dag[blues[|blues| - 1]])]
  }

  lemma {:induction false} SamplesAppend(dag: BlockDag, blues: seq<Hash>, h: Hash)
    requires h in dag && forall x :: x in blues ==> x in dag
    ensures |SamplesOf(dag, blues)| == |blues|
    ensures SamplesOf(dag, blues + [h]) == SamplesOf(dag, blues) + [SampleOf(dag[h])]
  {
    SamplesCount(dag, blues);
    assert (blues + [h])[..|blues|] == blues;
  }

  lemma {:induction false} SamplesCount(dag: BlockDag, blues: seq<Hash>)
    requires forall x :: x in blues ==> x in dag
    ensures |SamplesOf(dag, blues)| == |blues|
  {
    if blues != [] {
      SamplesCount(dag, blues[..|blues| - 1]);
    }
  }

  /** Each sample is the timestamp of its block and its difficulty, counted as one at least. */
  lemma {:induction false} SamplesAre(dag: BlockDag, blues: seq<Hash>, i: nat)
    requires (forall x :: x in blues ==> x in dag) && i < |blues|
    ensures |SamplesOf(dag, blues)| == |blues| && SamplesOf(dag, blues)[i].timestamp == dag[blues[i]].timestamp
    ensures var d := SamplesOf(dag, blues)[i].difficulty;
            if dag[blues[i]].difficulty == 0 then d == 1 else d == dag[blues[i]].difficulty
  {
    SamplesCount(dag, blues);
    if i < |blues| - 1 {
      SamplesCount(dag, blues[..|blues| - 1]);
      SamplesAre(dag, blues[..|blues| - 1], i);
    }
  }

  /** The blocks sampled below `b`: the first blues of the walk, or genesis alone. */
  ghost function Sampled(gd: Coloring, b: Hash): seq<Hash>
    requires ChainDown(gd) && b in gd
  {
    var all := BluesDown(gd, b);
    if all == [] then [b] else all[..Min(DAA_WINDOW, |all|)]
  }

  lemma {:induction false} NotYetSeen(done: seq<Hash>, blues: seq<Hash>, i: nat)
    requires Distinct(done + blues) && i < |blues|
    ensures blues[i] !in Elements(done + blues[..i])
    ensures done + blues[..i + 1] == done + blues[..i] + [blues[i]]
  {
    var all := done + blues;
    assert done + blues[..i] == all[..|done| + i] && all[|done| + i] == blues[i];
  }

  lemma {:induction false} NextBlue(dag: BlockDag, done: seq<Hash>, blues: seq<Hash>, i: nat)
    requires Distinct(done + blues) && i < |blues| && (forall x :: x in done ==> x in dag)
    requires forall x :: x in blues ==> x in dag
    ensures var taken := done + blues[..i];
            && blues[i] !in Elements(taken) && done + blues[..i + 1] == taken + [blues[i]]
            && (forall x :: x in taken ==> x in dag) && |SamplesOf(dag, taken)| == |taken|
            && SamplesOf(dag, taken + [blues[i]]) == SamplesOf(dag, taken) + [SampleOf(dag[blues[i]])]
            && Elements(taken + [blues[i]]) == Elements(taken) + {blues[i]}
  {
    NotYetSeen(done, blues, i);
    SamplesAppend(dag, done + blues[..i], blues[i]);
  }

  /** Sample blues until the window is full; none of them was seen before. */
  method AddBlues(dag: BlockDag, blues: seq<Hash>, samples0: seq<Sample>, seen0: set<Hash>, ghost done: seq<Hash>)
    returns (samples: seq<Sample>, seen: set<Hash>)
    requires (forall x :: x in done ==> x in dag) && (forall x :: x in blues ==> x in dag)
    requires samples0 == SamplesOf(dag, done) && |done| <= DAA_WINDOW && seen0 == Elements(done)
    requires Distinct(done + blues)
    ensures var taken := done + blues[..Min(|blues|, DAA_WINDOW - |done|)];
            (forall x :: x in taken ==> x in dag) && samples == SamplesOf(dag, taken) && seen == Elements(taken)
  {
    samples, seen := samples0, seen0;
    ghost var taken := done;
    SamplesCount(dag, done);
    var i := 0;
    while i < |blues| && |samples| < DAA_WINDOW
      invariant 0 <= i <= |blues| && taken == done + blues[..i] && |samples| == |taken| <= DAA_WINDOW
      invariant (forall x :: x in taken ==> x in dag) && samples == SamplesOf(dag, taken) && seen == Elements(taken)
    {
      NextBlue(dag, done, blues, i);
      if blues[i] !in seen {
        seen := seen + {blues[i]};
        samples := samples + [SampleOf(dag[blues[i]])];
      } else {
        assert false;
      }
      taken := taken + [blues[i]];
      i := i + 1;
    }
  }

  lemma {:induction false} WalkStep(dag: BlockDag, past: Pasts, gd: Coloring, h: Hash)
    requires Consistent(dag, past, gd) && h in dag
    ensures gd[h].mergesetBlues == [] ==> gd[h].selectedParent.None? && BluesDown(gd, h) == []
    ensures gd[h].mergesetBlues != [] ==>
              var sp := gd[h].mergesetBlues[0];
              && gd[h].selectedParent == Some(sp) && sp in gd && gd[sp].blueScore < gd[h].blueScore
              && BluesDown(gd, h) == gd[h].mergesetBlues + BluesDown(gd, sp)
  {
    assert Descends(gd, h);
    if dag[h].parents == [] {
      GenesisData(dag, past, gd, h);
    } else {
      MergesetPartition(dag, past, gd, h);
    }
  }

  /** All blocks the walk could sample, without the window. */
  ghost function Candidates(gd: Coloring, b: Hash): seq<Hash>
    requires ChainDown(gd) && b in gd
  {
    if BluesDown(gd, b) == [] then [b] else BluesDown(gd, b)
  }

  lemma {:induction false} CandidatesOnce(dag: BlockDag, past: Pasts, gd: Coloring, b: Hash)
    requires Consistent(dag, past, gd) && b in dag
    ensures var t := Candidates(gd, b);
            && Distinct(t) && |t| == Max(1, gd[b].blueScore) && Sampled(gd, b) == t[..Min(DAA_WINDOW, |t|)]
            && forall h :: h in t ==> h in dag
  {
    BluesDownOnce(dag, past, gd, b);
  }

  /** `done` was sampled, `h` comes next, and `rest` is what its chain still offers. */
  ghost predicate Walking(gd: Coloring, sp: Hash, all: seq<Hash>, done: seq<Hash>, h: Hash)
    requires ChainDown(gd)
  {
    && h in gd && sp in gd && gd[h].blueScore <= gd[sp].blueScore
    && (if h == sp then done == [] && all == Candidates(gd, sp) else h in done && all == done + BluesDown(gd, h))
  }

  /** What is sampled next is new and the next stretch of the walk. */
  lemma {:induction false} NextStretch(dag: BlockDag, past: Pasts, gd: Coloring, sp: Hash, all: seq<Hash>,
                                       done: seq<Hash>, h: Hash)
    requires Consistent(dag, past, gd) && sp in dag && Walking(gd, sp, all, done, h) && Distinct(all)
    requires forall x :: x in all ==> x in dag
    ensures var blues := gd[h].mergesetBlues;
            && (forall x :: x in done ==> x in dag) && (forall x :: x in blues ==> x in dag) && Distinct(done + blues)
            && (blues == [] ==>
                  && gd[h].selectedParent.None?
                  && (if h == sp then done == [] && all == [sp] else h in done && all == done))
            && (blues != [] ==> done + blues <= all && gd[h].selectedParent.Some?
                                && Walking(gd, sp, all, done + blues, gd[h].selectedParent.value))
  {
    WalkStep(dag, past, gd, h);
    var blues := gd[h].mergesetBlues;
    if blues != [] {
      assert all == done + blues + BluesDown(gd, blues[0]);
      DistinctPrefix(done + blues, BluesDown(gd, blues[0]));
      assert blues[0] in done + blues;
    }
  }

  /** `done`, a prefix of all candidates within the window, is what was sampled; if there is
      room left, the walk goes on at `cursor` or is over. */
  ghost predicate Progressing(dag: BlockDag, gd: Coloring, sp: Hash, all: seq<Hash>, done: seq<Hash>,
                              samples: seq<Sample>, seen: set<Hash>, cursor: Option<Hash>)
    requires ChainDown(gd)
  {
    && done <= all && |done| <= DAA_WINDOW && (forall x :: x in all ==> x in dag)
    && samples == SamplesOf(dag, done) && seen == Elements(done)
    && (|done| < DAA_WINDOW ==> if cursor.Some? then Walking(gd, sp, all, done, cursor.value) else done == all)
  }

  /** Sample what one chain block adds. */
  method Stretch(dag: BlockDag, gd: Coloring, h: Hash, samples0: seq<Sample>, seen0: set<Hash>,
                 ghost past: Pasts, ghost sp: Hash, ghost all: seq<Hash>, ghost done0: seq<Hash>)
    returns (samples: seq<Sample>, seen: set<Hash>, ghost done: seq<Hash>)
    requires Consistent(dag, past, gd) && sp in dag && h in gd && Distinct(all) && |done0| < DAA_WINDOW
    requires Progressing(dag, gd, sp, all, done0, samples0, seen0, Some(h))
    ensures Progressing(dag, gd, sp, all, done, samples, seen, gd[h].selectedParent)
  {
    NextStretch(dag, past, gd, sp, all, done0, h);
    var blues := gd[h].mergesetBlues;
    samples, seen := AddBlues(dag, blues, samples0, seen0, done0);
    done := done0 + blues[..Min(|blues|, DAA_WINDOW - |done0|)];
    if blues == [] {
      assert done == done0;
      if h !in seen {
        SamplesAppend(dag, done, h);
        samples, seen, done := samples + [SampleOf(dag[h])], seen + {h}, done + [h];
      }
    } else if |blues| <= DAA_WINDOW - |done0| {
      assert blues[..|blues|] == blues;
    } else {
      PrefixOfPrefix(done0, blues, all, DAA_WINDOW - |done0|);
    }
  }

  lemma {:induction false} PrefixOfPrefix(s: seq<Hash>, t: seq<Hash>, all: seq<Hash>, n: nat)
    requires s + t <= all && n <= |t|
    ensures s + t[..n] <= all
  {
  }

  /** The walk of the selected chain: exactly `min(window, max(1, blue score))` samples, and
      no blue is met twice. */
  method CollectDaaBlueSamples(dag: BlockDag, gd: Coloring, sp: Hash, ghost past: Pasts) returns (samples: seq<Sample>)
    requires Consistent(dag, past, gd) && sp in dag
    ensures forall h :: h in Sampled(gd, sp) ==> h in dag
    ensures samples == SamplesOf(dag, Sampled(gd, sp))
    ensures |samples| == Min(DAA_WINDOW, Max(1, gd[sp].blueScore))
  {
    CandidatesOnce(dag, past, gd, sp);
    ghost var all := Candidates(gd, sp);
    samples := [];
    var seen: set<Hash> := {};
    var cursor: Option<Hash> := Some(sp);
    ghost var done: seq<Hash> := [];
    while cursor.Some? && |samples| < DAA_WINDOW
      invariant Progressing(dag, gd, sp, all, done, samples, seen, cursor) && |samples| == |done|
      invariant cursor.Some? ==> cursor.value in gd
      decreases if cursor.Some? then gd[cursor.value].blueScore + 1 else 0
    {
      var h := cursor.value;
      assert Descends(gd, h);
      samples, seen, done := Stretch(dag, gd, h, samples, seen, past, sp, all, done);
      SamplesCount(dag, done);
      cursor := gd[h].selectedParent;
    }
    assert done == all[..|done|] && |done| == Min(DAA_WINDOW, |all|);
  }

  // ----- The required difficulty -----

  /** `clamp` panics unless its bounds are ordered. */
  function Clamp(x: nat, low: nat, high: nat): nat
    requires low <= high
  {
    if x < low then low else if x > high then high else x
  }

  function Up(base: nat): nat { Max(base * 5 / 4, base + 1) }

  function Down(base: nat, floor: nat): nat { Max(base * 3 / 4, floor) }

  /** The clamps around a floored difficulty are ordered. */
  lemma {:induction false} ClampsOrdered(base: nat, floor: nat)
    requires floor <= base
    ensures floor <= Down(base, floor) <= base < Up(base)
  {
  }

  /** They lie a quarter away: the upper one at most five quarters, or one more than the base,
      and no lower than whole numbers allow; the lower one likewise at three quarters or the
      floor. */
  lemma {:induction false} QuarterClamps(base: nat, floor: nat)
    ensures 5 * base < 4 * (Up(base) + 1) && (4 * Up(base) <= 5 * base || Up(base) == base + 1)
    ensures 3 * base < 4 * (Down(base, floor) + 1) && (4 * Down(base, floor) <= 3 * base || Down(base, floor) == floor)
  {
  }

  const TARGET_SPAN: nat := DAA_WINDOW * TARGET_BLOCK_TIME_MS

  /** Clamp to a quarter, or one, around the floored base; the result is cut to 64 bits. */
  function Bounded(raw: nat, base: nat, floor: nat): nat {
    var sp := Max(base, floor);
    ClampsOrdered(sp, floor);
    Max(Clamp(raw, Down(sp, floor), Up(sp)) % TWO64, floor)
  }

  function ActualSpan(newest: nat, oldest: nat): (span: nat)
    ensures span > 0
  {
    Max(if newest >= oldest then newest - oldest else 0, 1)
  }

  /** Scale toward the target span. */
  function RetargetDifficulty(base: nat, newest: nat, oldest: nat, floor: nat): nat {
    Bounded(Max(base, floor) * TARGET_SPAN / ActualSpan(newest, oldest), base, floor)
  }

  /** What the cut to 64 bits does to the clamp. */
  lemma {:induction false} BoundedExact(raw: nat, base: nat, floor: nat)
    requires base < TWO64 && floor < TWO64
    ensures var sp := Max(base, floor);
            var cut := Min(raw, Up(sp));
            && floor <= Down(sp, floor) <= sp < Up(sp)
            && Bounded(raw, base, floor) ==
               (if cut < TWO64 then Clamp(raw, Down(sp, floor), Up(sp)) else Max(cut - TWO64, floor))
            && (cut >= TWO64 ==> cut - TWO64 < sp * 3 / 4)
  {
    var sp := Max(base, floor);
    ClampsOrdered(sp, floor);
    var c := Clamp(raw, Down(sp, floor), Up(sp));
    if Min(raw, Up(sp)) < TWO64 {
      NotCut(c);
    } else {
      assert c == Min(raw, Up(sp)) && c - TWO64 < TWO64;
      assert c % TWO64 == c - TWO64;
    }
  }

  lemma {:induction false} ScaleDirection(x: nat, t: nat, a: nat)
    requires a > 0
    ensures a >= t ==> x * t / a <= x
    ensures a <= t ==> x * t / a >= x
  {
    var q := x * t / a;
    assert q * a <= x * t < q * a + a;
    MulMono(x + 1, q, a);
    MulMono(q + 1, x, a);
    MulMono(t, a, x);
    MulMono(a, t, x);
  }

  lemma {:induction false} MulMono(p: nat, q: nat, a: nat)
    ensures p <= q ==> p * a <= q * a
  {
  }

  /** The difficulty scaled toward the target span, before any clamp. */
  function Raw(base: nat, newest: nat, oldest: nat, floor: nat): nat {
    Max(base, floor) * TARGET_SPAN / ActualSpan(newest, oldest)
  }

  /** For all 64-bit inputs: the retarget stays within a quarter, or one, of its floored base
      exactly when the clamped value fits 64 bits or the floor is at the lower bound already;
      if it fits, slow blocks never raise it and fast blocks never lower it. */
  lemma {:induction false} RetargetBounds(base: nat, newest: nat, oldest: nat, floor: nat)
    requires base < TWO64 && floor < TWO64
    ensures var sp, raw := Max(base, floor), Raw(base, newest, oldest, floor);
            var r := RetargetDifficulty(base, newest, oldest, floor);
            && (Down(sp, floor) <= r <= Up(sp) <==> Min(raw, Up(sp)) < TWO64 || floor >= sp * 3 / 4)
            && (Min(raw, Up(sp)) < TWO64 && ActualSpan(newest, oldest) >= TARGET_SPAN ==> r <= sp)
            && (Min(raw, Up(sp)) < TWO64 && ActualSpan(newest, oldest) <= TARGET_SPAN ==> r >= sp)
            && (sp < TWO63 ==> Min(raw, Up(sp)) < TWO64)
  {
    var sp := Max(base, floor);
    ScaleDirection(sp, TARGET_SPAN, ActualSpan(newest, oldest));
    BoundedExact(Raw(base, newest, oldest, floor), base, floor);
  }

  /** If it does not fit, blocks came too fast and the difficulty should have risen; it falls
      by more than a quarter, or to the floor. */
  lemma {:induction false} RetargetWraps(base: nat, newest: nat, oldest: nat, floor: nat)
    requires base < TWO64 && floor < TWO64
    requires Min(Raw(base, newest, oldest, floor), Up(Max(base, floor))) >= TWO64
    ensures var sp, r := Max(base, floor), RetargetDifficulty(base, newest, oldest, floor);
            && ActualSpan(newest, oldest) < TARGET_SPAN
            && r == Max(Min(Raw(base, newest, oldest, floor), Up(sp)) - TWO64, floor)
            && (r < sp * 3 / 4 || r == floor)
  {
    ScaleDirection(Max(base, floor), TARGET_SPAN, ActualSpan(newest, oldest));
    BoundedExact(Raw(base, newest, oldest, floor), base, floor);
  }

  /** The largest base and equal timestamps, for instance. */
  lemma {:induction false} RetargetWrapsAt(floor: nat)
    requires floor <= HARD_ERA_MIN_DIFFICULTY
    ensures RetargetDifficulty(TWO64 - 1, 0, 0, floor) < (TWO64 - 1) * 3 / 4
  {
    RetargetWraps(TWO64 - 1, 0, 0, floor);
  }

  function Newest(samples: seq<Sample>): nat {
    if samples == [] then 0 else Max(Newest(samples[..|samples| - 1]), samples[|samples| - 1].timestamp)
  }

  function Oldest(samples: seq<Sample>): nat {
    if samples == [] then 0
    else if |samples| == 1 then samples[0].timestamp
    else Min(Oldest(samples[..|samples| - 1]), samples[|samples| - 1].timestamp)
  }

  /** The span measured is the widest there is between two samples. */
  lemma {:induction false} SpanIsWidest(samples: seq<Sample>, i: nat)
    requires i < |samples|
    ensures Oldest(samples) <= samples[i].timestamp <= Newest(samples)
    ensures exists j, k ::
              0 <= j < |samples| && 0 <= k < |samples| && samples[j].timestamp == Oldest(samples)
              && samples[k].timestamp == Newest(samples)
  {
    var n := |samples| - 1;
    if n > 0 {
      var front := samples[..n];
      SpanIsWidest(front, if i < n then i else 0);
      var j, k :| 0 <= j < n && 0 <= k < n
                  && front[j].timestamp == Oldest(front) && front[k].timestamp == Newest(front);
      assert samples[j].timestamp == Oldest(front) && samples[k].timestamp == Newest(front);
      assert samples[if samples[n].timestamp <= Oldest(front) then n else j].timestamp == Oldest(samples);
      assert samples[if samples[n].timestamp >= Newest(front) then n else k].timestamp == Newest(samples);
    } else {
      assert samples[0].timestamp == Oldest(samples);
      assert Newest(samples[..0]) == 0;
    }
  }

  function Work(samples: seq<Sample>): nat {
    if samples == [] then 0 else Work(samples[..|samples| - 1]) + samples[|samples| - 1].difficulty
  }

  /** Work is the sum: what one sample counts for, and that two stretches add up. */
  lemma {:induction false} WorkAdds(a: seq<Sample>, b: seq<Sample>, one: Sample)
    ensures Work([one]) == one.difficulty && Work([]) == 0
    ensures Work(a + b) == Work(a) + Work(b)
  {
    assert [one][..0] == [];
    if b == [] {
      assert a + b == a;
    } else {
      var k := |b| - 1;
      WorkAdds(a, b[..k], one);
      assert (a + b)[..|a| + k] == a + b[..k];
    }
  }

  lemma {:induction false} WorkUniform(samples: seq<Sample>, x: nat)
    requires forall i :: 0 <= i < |samples| ==> samples[i].difficulty == x
    ensures Work(samples) == |samples| * x
  {
    if samples != [] {
      var k := |samples| - 1;
      WorkUniform(samples[..k], x);
      assert |samples| * x == k * x + x;
    }
  }

  lemma {:induction false} WorkBound(samples: seq<Sample>, limit: nat)
    requires forall i :: 0 <= i < |samples| ==> samples[i].difficulty <= limit
    ensures Work(samples) <= |samples| * limit
  {
    if samples != [] {
      var k := |samples| - 1;
      WorkBound(samples[..k], limit);
      assert |samples| * limit == k * limit + limit;
    }
  }

  lemma {:induction false} AverageBound(work: nat, n: nat, limit: nat)
    requires n > 0 && work <= n * limit
    ensures work / n <= limit
  {
    MulMono(limit + 1, work / n, n);
  }

  /** Difficulties are 64-bit numbers. */
  ghost predicate Fits64(dag: BlockDag) {
    forall b :: b in dag ==> dag[b].difficulty < TWO64
  }

  lemma {:induction false} SamplesFit(dag: BlockDag, blues: seq<Hash>)
    requires Fits64(dag) && forall h :: h in blues ==> h in dag
    ensures forall i :: 0 <= i < |SamplesOf(dag, blues)| ==> SamplesOf(dag, blues)[i].difficulty <= TWO64 - 1
  {
    if blues != [] {
      SamplesFit(dag, blues[..|blues| - 1]);
    }
  }

  /** Scale the average difficulty of the samples. */
  function Scaled(samples: seq<Sample>, floor: nat): nat
    requires samples != []
  {
    RetargetDifficulty(Max((Work(samples) / |samples|) % TWO64, floor), Newest(samples), Oldest(samples), floor)
  }

  /** Clamp around the selected parent's difficulty; the result is cut to 64 bits. */
  function Around(scaled: nat, base: nat, floor: nat): nat
    requires floor <= base
  {
    ClampsOrdered(base, floor);
    Clamp(scaled, Down(base, floor), Up(base)) % TWO64
  }

  /** A 64-bit value clamped around a 64-bit base is never cut. */
  lemma {:induction false} AroundBounds(scaled: nat, base: nat, floor: nat)
    requires floor <= base < TWO64 && scaled < TWO64
    ensures Down(base, floor) <= Around(scaled, base, floor) <= Up(base)
    ensures Around(scaled, base, floor) == Clamp(scaled, Down(base, floor), Up(base))
  {
    ClampsOrdered(base, floor);
    NotCut(Clamp(scaled, Down(base, floor), Up(base)));
  }

  lemma {:induction false} NotCut(x: nat)
    requires x < TWO64
    ensures x % TWO64 == x
  {
  }

  /** The average of 64-bit difficulties is not cut. */
  lemma {:induction false} AverageFits(samples: seq<Sample>)
    requires samples != [] && forall i :: 0 <= i < |samples| ==> samples[i].difficulty <= TWO64 - 1
    ensures (Work(samples) / |samples|) % TWO64 == Work(samples) / |samples| < TWO64
  {
    WorkBound(samples, TWO64 - 1);
    AverageBound(Work(samples), |samples|, TWO64 - 1);
    NotCut(Work(samples) / |samples|);
  }

  lemma {:induction false} ScaledFits(samples: seq<Sample>, floor: nat)
    requires samples != [] && floor < TWO64
    ensures Scaled(samples, floor) < TWO64
  {
  }

  /** The difficulty required on these parents under an era floor. */
  ghost function Required(dag: BlockDag, past: Pasts, gd: Coloring, parents: seq<Hash>, floor: nat): nat
    requires Consistent(dag, past, gd)
  {
    var best := Heaviest(gd, parents);
    if best.None? then floor
    else
      var sp := best.value;
      var base := Max(dag[sp].difficulty, floor);
      if gd[sp].blueScore < DAA_WINDOW then base
      else
        CandidatesOnce(dag, past, gd, sp);
        SamplesCount(dag, Sampled(gd, sp));
        Max(Around(Scaled(SamplesOf(dag, Sampled(gd, sp)), floor), base, floor), floor)
  }

  /** The required difficulty of a block on `parents`: never below the era floor, and, for
      64-bit difficulties, within a quarter, or one, of the selected parent's floored difficulty;
      exactly that difficulty until the window is full. */
  method ExpectedDifficultyAt(dag: BlockDag, gd: Coloring, parents: seq<Hash>, floor: nat, ghost past: Pasts)
    returns (d: nat)
    requires Consistent(dag, past, gd)
    ensures floor <= d == Required(dag, past, gd, parents, floor)
    ensures Heaviest(gd, parents).None? ==> d == floor
    ensures Heaviest(gd, parents).Some? && Fits64(dag) && floor < TWO64 ==>
              var sp := Heaviest(gd, parents).value;
              var base := Max(dag[sp].difficulty, floor);
              && Down(base, floor) <= d <= Up(base)
              && (gd[sp].blueScore < DAA_WINDOW ==> d == base)
              && (gd[sp].blueScore >= DAA_WINDOW ==>
                    && (forall h :: h in Sampled(gd, sp) ==> h in dag)
                    && |SamplesOf(dag, Sampled(gd, sp))| == DAA_WINDOW
                    && Work(SamplesOf(dag, Sampled(gd, sp))) / DAA_WINDOW < TWO64
                    && d == Clamp(Scaled(SamplesOf(dag, Sampled(gd, sp)), floor), Down(base, floor), Up(base)))
  {
    var best := Heaviest(gd, parents);
    if best.None? {
      return floor;
    }
    var sp := best.value;
    var base := Max(dag[sp].difficulty, floor);
    ClampsOrdered(base, floor);
    var samples := CollectDaaBlueSamples(dag, gd, sp, past);
    if |samples| < DAA_WINDOW {
      d := base;
    } else {
      if Fits64(dag) && floor < TWO64 {
        SamplesFit(dag, Sampled(gd, sp));
        AverageFits(samples);
        ScaledFits(samples, floor);
        AroundBounds(Scaled(samples, floor), base, floor);
      }
      d := Around(Scaled(samples, floor), base, floor);
    }
    d := Max(d, floor);
  }

  // ----- What the required difficulty depends on -----

  lemma {:induction false} BluesDownInPast(dag: BlockDag, past: Pasts, gd: Coloring, b: Hash)
    requires Consistent(dag, past, gd) && b in dag
    ensures forall h :: h in BluesDown(gd, b) ==> h in past[b]
    decreases gd[b].blueScore
  {
    assert Descends(gd, b);
    DataInPast(dag, past, gd, b);
    assert forall h :: h in gd[b].mergesetBlues ==> h in Elements(gd[b].mergesetBlues);
    if gd[b].selectedParent.Some? {
      var sp := gd[b].selectedParent.value;
      BluesDownInPast(dag, past, gd, sp);
      assert Nests(past, sp, b);
    }
  }

  /** Two nodes that hold the same inclusive past of `b`. */
  ghost predicate Share(dag1: BlockDag, past1: Pasts, dag2: BlockDag, b: Hash) {
    b in dag1 && b in past1 && forall x :: x in past1[b] + {b} ==> x in dag1 && x in dag2 && dag2[x] == dag1[x]
  }

  lemma {:induction false} SharedBelow(dag1: BlockDag, past1: Pasts, gd1: Coloring, dag2: BlockDag, b: Hash, a: Hash)
    requires Consistent(dag1, past1, gd1) && Share(dag1, past1, dag2, b) && a in past1[b]
    ensures Share(dag1, past1, dag2, a)
  {
    assert Nests(past1, a, b);
  }

  lemma {:induction false} BluesDownAgree(dag1: BlockDag, past1: Pasts, gd1: Coloring, dag2: BlockDag, past2: Pasts,
                                          gd2: Coloring, b: Hash)
    requires Consistent(dag1, past1, gd1) && Consistent(dag2, past2, gd2) && Share(dag1, past1, dag2, b)
    ensures gd1[b] == gd2[b] && BluesDown(gd1, b) == BluesDown(gd2, b)
    decreases gd1[b].blueScore
  {
    SamePastSameData(dag1, past1, gd1, dag2, past2, gd2, b);
    assert Descends(gd1, b) && Descends(gd2, b);
    DataInPast(dag1, past1, gd1, b);
    if gd1[b].selectedParent.Some? {
      SharedBelow(dag1, past1, gd1, dag2, b, gd1[b].selectedParent.value);
      BluesDownAgree(dag1, past1, gd1, dag2, past2, gd2, gd1[b].selectedParent.value);
    }
  }

  lemma {:induction false} SamplesAgree(dag1: BlockDag, dag2: BlockDag, blues: seq<Hash>)
    requires forall h :: h in blues ==> h in dag1 && h in dag2 && dag1[h] == dag2[h]
    ensures SamplesOf(dag1, blues) == SamplesOf(dag2, blues)
  {
    if blues != [] {
      SamplesAgree(dag1, dag2, blues[..|blues| - 1]);
    }
  }

  lemma {:induction false} SampledInPast(dag: BlockDag, past: Pasts, gd: Coloring, b: Hash)
    requires Consistent(dag, past, gd) && b in dag
    ensures forall h :: h in Sampled(gd, b) ==> h in past[b] + {b}
  {
    BluesDownInPast(dag, past, gd, b);
  }

  /** Nodes that hold the same inclusive past of the parents, and whose live supplies give one
      era floor, require the same difficulty. */
  lemma {:induction false} SamePastSameDifficulty(dag1: BlockDag, past1: Pasts, gd1: Coloring, dag2: BlockDag,
                                                  past2: Pasts, gd2: Coloring, parents: seq<Hash>, floor: nat)
    requires Consistent(dag1, past1, gd1) && Consistent(dag2, past2, gd2)
    requires forall p :: p in parents ==> Share(dag1, past1, dag2, p)
    ensures Required(dag1, past1, gd1, parents, floor) == Required(dag2, past2, gd2, parents, floor)
  {
    forall p | p in parents
      ensures p in gd1 && p in gd2 && gd1[p] == gd2[p]
    {
      BluesDownAgree(dag1, past1, gd1, dag2, past2, gd2, p);
    }
    HeaviestAgrees(gd1, gd2, parents);
    if Heaviest(gd1, parents).Some? {
      var sp := Heaviest(gd1, parents).value;
      BluesDownAgree(dag1, past1, gd1, dag2, past2, gd2, sp);
      SampledInPast(dag1, past1, gd1, sp);
      SamplesAgree(dag1, dag2, Sampled(gd1, sp));
    }
  }
}
