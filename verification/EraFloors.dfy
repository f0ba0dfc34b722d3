/** How the required difficulty depends on the era floor: exactly when two nodes whose live
    supplies lie in different eras still require the same of a block. */
module EraFloors {
  import opened Types
  import opened Dag
  import opened Ghostdag
  import opened Difficulty

  // ----- Arithmetic of scaling -----

  lemma {:induction false} DivMono(m: nat, n: nat, a: nat)
    requires a > 0 && m <= n
    ensures m / a <= n / a
    ensures m + a <= n ==> m / a < n / a
  {
    var p, q := m / a, n / a;
    assert p * a <= m && n < q * a + a;
    MulMono(q + 1, p, a);
    MulMono(q, p, a);
  }

  lemma {:induction false} ScaleMono(x: nat, y: nat, t: nat, a: nat)
    requires a > 0 && x <= y
    ensures x * t / a <= y * t / a
    ensures x < y && a <= t ==> x * t / a < y * t / a
  {
    MulMono(x, y, t);
    if x < y {
      MulMono(x + 1, y, t);
      assert (x + 1) * t == x * t + t;
    }
    DivMono(x * t, y * t, a);
  }

  function Stretched(base: nat, span: nat): nat
    requires span > 0
  {
    var n: nat := base * TARGET_SPAN;
    n / span
  }

  /** A scaled value, clamped around its base and kept above the floor, when nothing is cut. */
  function Scaling(base: nat, span: nat, floor: nat): nat
    requires span > 0 && floor <= base
  {
    ClampsOrdered(base, floor);
    Clamp(Stretched(base, span), Down(base, floor), Up(base))
  }

  /** The required difficulty once the window is full: the average `avg`, scaled, then clamped
      around the selected parent's difficulty. */
  function Settled(parent: nat, avg: nat, span: nat, floor: nat): nat
    requires span > 0
  {
    Outer(Scaling(Max(avg, floor), span, floor), parent, floor)
  }

  /** The scaled average fits 64 bits, so that no cast cuts it. */
  predicate ScaleFits(avg: nat, span: nat)
    requires span > 0
  {
    Min(Stretched(avg, span), Up(avg)) < TWO64
  }

  lemma {:induction false} LowerFits(avg: nat, more: nat, span: nat)
    requires span > 0 && avg <= more && ScaleFits(more, span)
    ensures ScaleFits(avg, span)
  {
    ScaleMono(avg, more, TARGET_SPAN, span);
  }

  lemma {:induction false} ScalingIsRetarget(avg: nat, newest: nat, oldest: nat, floor: nat)
    requires floor <= avg < TWO64 && ScaleFits(avg, ActualSpan(newest, oldest))
    ensures RetargetDifficulty(avg, newest, oldest, floor) == Scaling(avg, ActualSpan(newest, oldest), floor) < TWO64
  {
    BoundedExact(avg * TARGET_SPAN / ActualSpan(newest, oldest), avg, floor);
  }

  // ----- Two floors -----

  /** The exact condition, for a lower floor `f1` and a higher one `f2`: the higher floor's
      scaling stays under the parent's lower clamp, or the average and its scaling reach the
      higher floor and the parent's upper clamp does not come between. */
  predicate FloorsAgree(parent: nat, avg: nat, span: nat, f1: nat, f2: nat)
    requires span > 0
  {
    var s := Scaling(Max(avg, f2), span, f2);
    || s <= parent * 3 / 4
    || (avg >= f2 && Scaling(avg, span, 0) >= f2 && (parent >= f2 || s <= Up(Max(parent, f1))))
  }

  /** The scaling of a base with no floor, or with one below it. */
  lemma {:induction false} ScalingFloored(base: nat, span: nat, floor: nat)
    requires span > 0 && floor <= base
    ensures Scaling(base, span, floor) == Max(Scaling(base, span, 0), floor)
  {
  }

  /** A lower floor above the average scales strictly lower. */
  lemma {:induction false} ScalingRises(avg: nat, span: nat, f1: nat, f2: nat)
    requires span > 0 && f1 <= avg < f2
    ensures Scaling(avg, span, f1) < Scaling(f2, span, f2)
    ensures Scaling(avg, span, f1) <= Up(avg) && Scaling(f2, span, f2) >= f2
  {
    ScaleMono(avg, f2, TARGET_SPAN, span);
    ScaleDirection(avg, TARGET_SPAN, span);
    ScaleDirection(f2, TARGET_SPAN, span);
  }

  lemma {:induction false} UpRises(x: nat, y: nat)
    requires x < y
    ensures Up(x) < Up(y)
  {
  }

  /** The outer clamp, for the two floors. */
  function Outer(s: nat, parent: nat, floor: nat): nat {
    ClampsOrdered(Max(parent, floor), floor);
    Clamp(s, Down(Max(parent, floor), floor), Up(Max(parent, floor)))
  }

  lemma {:induction false} OuterSame(s: nat, parent: nat, f1: nat, f2: nat)
    requires f1 < f2
    ensures Outer(Max(s, f1), parent, f1) == Outer(Max(s, f2), parent, f2) <==>
            Max(s, f2) <= parent * 3 / 4 || (s >= f2 && (parent >= f2 || s <= Up(Max(parent, f1))))
  {
    if Max(parent, f1) < f2 {
      UpRises(Max(parent, f1), f2);
    }
  }

  lemma {:induction false} OuterApart(s1: nat, s2: nat, parent: nat, f1: nat, f2: nat)
    requires f1 < f2 <= s2 && f1 <= s1 < s2 && (parent >= f2 ==> s1 < Up(parent)) && s1 < Up(f2)
    ensures Outer(s1, parent, f1) == Outer(s2, parent, f2) <==> s2 <= parent * 3 / 4
  {
    if Max(parent, f1) < f2 {
      UpRises(Max(parent, f1), f2);
    }
  }

  lemma {:induction false} HighAverage(parent: nat, avg: nat, span: nat, f1: nat, f2: nat)
    requires span > 0 && f1 < f2 <= avg
    ensures Settled(parent, avg, span, f1) == Settled(parent, avg, span, f2) <==> FloorsAgree(parent, avg, span, f1, f2)
  {
    ScalingFloored(avg, span, f1);
    ScalingFloored(avg, span, f2);
    OuterSame(Scaling(avg, span, 0), parent, f1, f2);
  }

  lemma {:induction false} LowAverage(parent: nat, avg: nat, span: nat, f1: nat, f2: nat)
    requires span > 0 && f1 < f2 && avg < f2
    ensures Settled(parent, avg, span, f1) == Settled(parent, avg, span, f2) <==> FloorsAgree(parent, avg, span, f1, f2)
  {
    var low := Max(avg, f1);
    ScalingRises(low, span, f1, f2);
    UpRises(low, f2);
    if parent >= f2 {
      UpRises(low, parent);
    }
    ScalingFloored(low, span, f1);
    OuterApart(Scaling(low, span, f1), Scaling(f2, span, f2), parent, f1, f2);
  }

  lemma {:induction false} SettledAgree(parent: nat, avg: nat, span: nat, f1: nat, f2: nat)
    requires span > 0 && f1 < f2
    ensures Settled(parent, avg, span, f1) == Settled(parent, avg, span, f2) <==> FloorsAgree(parent, avg, span, f1, f2)
  {
    if avg >= f2 {
      HighAverage(parent, avg, span, f1, f2);
    } else {
      LowAverage(parent, avg, span, f1, f2);
    }
  }

  // ----- What two nodes require -----

  ghost predicate Samples(dag: BlockDag, past: Pasts, gd: Coloring, sp: Hash, samples: seq<Sample>)
    requires Consistent(dag, past, gd)
  {
    && sp in dag && (forall h :: h in Sampled(gd, sp) ==> h in dag)
    && samples == SamplesOf(dag, Sampled(gd, sp)) && samples != []
  }

  function Average(samples: seq<Sample>): nat
    requires samples != []
  {
    Work(samples) / |samples|
  }

  function SpanOf(samples: seq<Sample>): (span: nat)
    ensures span > 0
  {
    ActualSpan(Newest(samples), Oldest(samples))
  }

  lemma {:induction false} ScaledIsScaling(samples: seq<Sample>, floor: nat)
    requires samples != [] && (forall i :: 0 <= i < |samples| ==> samples[i].difficulty <= TWO64 - 1) && floor < TWO64
    requires ScaleFits(Max(Average(samples), floor), SpanOf(samples))
    ensures Scaled(samples, floor) == Scaling(Max(Average(samples), floor), SpanOf(samples), floor) < TWO64
  {
    AverageFits(samples);
    ScalingIsRetarget(Max(Average(samples), floor), Newest(samples), Oldest(samples), floor);
  }

  /** The required difficulty once the window is full, in numbers. */
  lemma {:induction false} RequiredIsSettled(dag: BlockDag, past: Pasts, gd: Coloring, parents: seq<Hash>,
                                             samples: seq<Sample>, floor: nat)
    requires Consistent(dag, past, gd) && Fits64(dag) && floor < TWO64 && Heaviest(gd, parents).Some?
    requires Samples(dag, past, gd, Heaviest(gd, parents).value, samples)
    requires gd[Heaviest(gd, parents).value].blueScore >= DAA_WINDOW
    requires ScaleFits(Max(Average(samples), floor), SpanOf(samples))
    ensures Required(dag, past, gd, parents, floor)
            == Settled(dag[Heaviest(gd, parents).value].difficulty, Average(samples), SpanOf(samples), floor)
  {
    var sp := Heaviest(gd, parents).value;
    SamplesFit(dag, Sampled(gd, sp));
    ScaledIsScaling(samples, floor);
    var base := Max(dag[sp].difficulty, floor);
    ClampsOrdered(base, floor);
    AroundBounds(Scaled(samples, floor), base, floor);
  }

  /** One DAG under a lower and a higher floor. */
  lemma {:induction false} FloorsOnOneDag(dag: BlockDag, past: Pasts, gd: Coloring, parents: seq<Hash>,
                                          samples: seq<Sample>, f1: nat, f2: nat)
    requires Consistent(dag, past, gd) && Fits64(dag) && f1 < f2 < TWO64 && Heaviest(gd, parents).Some?
    requires Samples(dag, past, gd, Heaviest(gd, parents).value, samples)
    requires gd[Heaviest(gd, parents).value].blueScore >= DAA_WINDOW
    requires ScaleFits(Max(Average(samples), f2), SpanOf(samples))
    ensures Required(dag, past, gd, parents, f1) == Required(dag, past, gd, parents, f2) <==>
            FloorsAgree(dag[Heaviest(gd, parents).value].difficulty, Average(samples), SpanOf(samples), f1, f2)
  {
    LowerFits(Max(Average(samples), f1), Max(Average(samples), f2), SpanOf(samples));
    RequiredIsSettled(dag, past, gd, parents, samples, f1);
    RequiredIsSettled(dag, past, gd, parents, samples, f2);
    SettledAgree(dag[Heaviest(gd, parents).value].difficulty, Average(samples), SpanOf(samples), f1, f2);
  }

  /** While the window fills, two nodes that hold the same inclusive past of the parents require
      the same difficulty exactly when their floors are the same or neither exceeds the
      selected parent's difficulty. */
  lemma {:induction false} FloorsWhileFilling(dag1: BlockDag, past1: Pasts, gd1: Coloring,
                                              dag2: BlockDag, past2: Pasts, gd2: Coloring,
                                              parents: seq<Hash>, f1: nat, f2: nat)
    requires Consistent(dag1, past1, gd1) && Consistent(dag2, past2, gd2)
    requires Heaviest(gd1, parents).Some? && gd1[Heaviest(gd1, parents).value].blueScore < DAA_WINDOW
    requires forall p :: p in parents ==> Share(dag1, past1, dag2, p)
    ensures Required(dag1, past1, gd1, parents, f1) == Required(dag2, past2, gd2, parents, f2) <==>
            f1 == f2 || dag1[Heaviest(gd1, parents).value].difficulty >= Max(f1, f2)
  {
    SamePastSameDifficulty(dag1, past1, gd1, dag2, past2, gd2, parents, f2);
  }

  /** Once it is full, they do exactly when the floors are the same or agree on the parent's
      difficulty, the average and the span. */
  lemma {:induction false} FloorsWhenFull(dag1: BlockDag, past1: Pasts, gd1: Coloring,
                                          dag2: BlockDag, past2: Pasts, gd2: Coloring,
                                          parents: seq<Hash>, samples: seq<Sample>, f1: nat, f2: nat)
    requires Consistent(dag1, past1, gd1) && Consistent(dag2, past2, gd2) && Fits64(dag1) && f1 < TWO64 && f2 < TWO64
    requires Heaviest(gd1, parents).Some? && gd1[Heaviest(gd1, parents).value].blueScore >= DAA_WINDOW
    requires Samples(dag1, past1, gd1, Heaviest(gd1, parents).value, samples)
    requires ScaleFits(Max(Average(samples), Max(f1, f2)), SpanOf(samples))
    requires forall p :: p in parents ==> Share(dag1, past1, dag2, p)
    ensures Required(dag1, past1, gd1, parents, f1) == Required(dag2, past2, gd2, parents, f2) <==>
            f1 == f2 || FloorsAgree(dag1[Heaviest(gd1, parents).value].difficulty, Average(samples), SpanOf(samples),
                                    Min(f1, f2), Max(f1, f2))
  {
    SamePastSameDifficulty(dag1, past1, gd1, dag2, past2, gd2, parents, f2);
    if f1 != f2 {
      FloorsOnOneDag(dag1, past1, gd1, parents, samples, Min(f1, f2), Max(f1, f2));
    }
  }

  /** In particular a parent so far above both floors that even the higher one's upper clamp
      stays under its lower clamp. */
  lemma {:induction false} FarAboveFloors(parent: nat, avg: nat, span: nat, f1: nat, f2: nat)
    requires span > 0 && f1 < f2 && parent * 3 / 4 >= Up(f2)
    ensures FloorsAgree(parent, avg, span, f1, f2)
  {
    if avg >= f2 {
      ScalingFloored(avg, span, f2);
    }
  }

  // ----- A window of one difficulty -----

  lemma {:induction false} SamplesUniform(dag: BlockDag, blues: seq<Hash>, x: nat)
    requires x >= 1 && forall h :: h in blues ==> h in dag && dag[h].difficulty == x
    ensures forall i :: 0 <= i < |SamplesOf(dag, blues)| ==> SamplesOf(dag, blues)[i].difficulty == x
  {
    if blues != [] {
      SamplesUniform(dag, blues[..|blues| - 1], x);
    }
  }

  lemma {:induction false} AverageUniform(samples: seq<Sample>, x: nat)
    requires samples != [] && forall i :: 0 <= i < |samples| ==> samples[i].difficulty == x
    ensures Average(samples) == x
  {
    WorkUniform(samples, x);
    DivideBack(x, |samples|);
  }

  lemma {:induction false} DivideBack(x: nat, n: nat)
    requires n > 0
    ensures n * x / n == x
  {
    MulMono(x + 1, n * x / n, n);
    MulMono(n * x / n + 1, x, n);
  }

  /** The selected parent and every block of its full window claim the difficulty `x`. */
  ghost predicate Uniform(dag: BlockDag, past: Pasts, gd: Coloring, parents: seq<Hash>, x: nat)
    requires Consistent(dag, past, gd)
  {
    && Heaviest(gd, parents).Some? && gd[Heaviest(gd, parents).value].blueScore >= DAA_WINDOW
    && dag[Heaviest(gd, parents).value].difficulty == x
    && forall h :: h in Sampled(gd, Heaviest(gd, parents).value) ==> h in dag && dag[h].difficulty == x
  }

  /** A window of one difficulty is scaled by the ratio of the target span to its own, within
      a quarter, or one, and above the floor. */
  lemma {:induction false} UniformWindow(dag: BlockDag, past: Pasts, gd: Coloring, parents: seq<Hash>,
                                         samples: seq<Sample>, x: nat, floor: nat)
    requires Consistent(dag, past, gd) && Fits64(dag) && floor <= x && 1 <= x && Uniform(dag, past, gd, parents, x)
    requires Samples(dag, past, gd, Heaviest(gd, parents).value, samples) && ScaleFits(x, SpanOf(samples))
    ensures Required(dag, past, gd, parents, floor) == Scaling(x, SpanOf(samples), floor)
  {
    SamplesUniform(dag, Sampled(gd, Heaviest(gd, parents).value), x);
    AverageUniform(samples, x);
    RequiredIsSettled(dag, past, gd, parents, samples, floor);
  }

  /** The steady state: blocks of one difficulty that took exactly the target span require
      that difficulty again. */
  lemma {:induction false} SteadyState(dag: BlockDag, past: Pasts, gd: Coloring, parents: seq<Hash>,
                                       samples: seq<Sample>, x: nat, floor: nat)
    requires Consistent(dag, past, gd) && Fits64(dag) && floor <= x && 1 <= x && Uniform(dag, past, gd, parents, x)
    requires Samples(dag, past, gd, Heaviest(gd, parents).value, samples)
    requires Newest(samples) == Oldest(samples) + TARGET_SPAN
    ensures Required(dag, past, gd, parents, floor) == x
  {
    DivideBack(x, TARGET_SPAN);
    assert Stretched(x, TARGET_SPAN) == x;
    ClampsOrdered(x, floor);
    UniformWindow(dag, past, gd, parents, samples, x, floor);
  }
}
