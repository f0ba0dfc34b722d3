/** Linear feedback registers of six symbols, over any symbols with an exclusive-or like
    addition: their last six symbols are pinned by the state they lead to, and they never
    merge two states. */
module LinearRegister {

  /** Six symbols, the oldest first. */
  datatype Reg<T> = Reg(a: T, b: T, c: T, d: T, e: T, f: T)

  /** Addition of symbols, its neutral symbol, and what a symbol shifted out adds to each of
      the six places. */
  datatype Algebra<!T> = Algebra(add: (T, T) -> T, zero: T, feedback: (nat, T) -> T)

  ghost predicate Interchange<T(!new)>(al: Algebra<T>, p: T, q: T, x: T, y: T) {
    al.add(al.add(p, q), al.add(x, y)) == al.add(al.add(p, x), al.add(q, y))
  }

  ghost predicate Cancels<T(!new)>(al: Algebra<T>, x: T, y: T, v: T) {
    && (al.add(x, v) == al.add(y, v) ==> x == y) && (al.add(v, x) == al.add(v, y) ==> x == y)
    && al.add(x, al.zero) == x && al.add(al.zero, x) == x && al.add(x, al.add(x, y)) == y
  }

  ghost predicate Linear<T(!new)>(al: Algebra<T>, place: nat, x: T, y: T) {
    al.feedback(place, al.add(x, y)) == al.add(al.feedback(place, x), al.feedback(place, y))
  }

  ghost predicate Tells<T(!new)>(al: Algebra<T>, x: T, y: T) {
    al.feedback(5, x) == al.feedback(5, y) ==> x == y
  }

  /** Addition is a group of exponent two, the feedback is linear, and what the last place
      receives tells the symbol shifted out. */
  ghost predicate Lawful<T(!new)>(al: Algebra<T>) {
    && (forall p, q, x, y {:trigger Interchange(al, p, q, x, y)} :: Interchange(al, p, q, x, y))
    && (forall x, y, v {:trigger Cancels(al, x, y, v)} :: Cancels(al, x, y, v))
    && (forall place, x, y {:trigger Linear(al, place, x, y)} :: Linear(al, place, x, y))
    && (forall x, y {:trigger Tells(al, x, y)} :: Tells(al, x, y))
  }

  /** One step: every symbol moves up a place and the one shifted out feeds back. */
  function Step<T>(al: Algebra<T>, r: Reg<T>, v: T): Reg<T> {
    Reg(al.add(r.b, al.feedback(0, r.a)), al.add(r.c, al.feedback(1, r.a)), al.add(r.d, al.feedback(2, r.a)),
        al.add(r.e, al.feedback(3, r.a)), al.add(r.f, al.feedback(4, r.a)), al.add(v, al.feedback(5, r.a)))
  }

  function Shift<T>(al: Algebra<T>, r: Reg<T>, values: seq<T>): Reg<T> {
    if values == [] then r else Step(al, Shift(al, r, values[..|values| - 1]), values[|values| - 1])
  }

  lemma {:induction false} ShiftInParts<T>(al: Algebra<T>, r: Reg<T>, s: seq<T>, t: seq<T>)
    ensures Shift(al, r, s + t) == Shift(al, Shift(al, r, s), t)
    decreases |t|
  {
    if t == [] {
      assert s + t == s;
    } else {
      var k := |t| - 1;
      ShiftInParts(al, r, s, t[..k]);
      assert (s + t)[..|s + t| - 1] == s + t[..k];
    }
  }

  // ----- No two states are merged -----

  lemma {:induction false} StepInjective<T(!new)>(al: Algebra<T>, r: Reg<T>, s: Reg<T>, v: T)
    requires Lawful(al) && Step(al, r, v) == Step(al, s, v)
    ensures r == s
  {
    assert Cancels(al, al.feedback(5, r.a), al.feedback(5, s.a), v) && Tells(al, r.a, s.a);
    assert Cancels(al, r.b, s.b, al.feedback(0, r.a)) && Cancels(al, r.c, s.c, al.feedback(1, r.a));
    assert Cancels(al, r.d, s.d, al.feedback(2, r.a)) && Cancels(al, r.e, s.e, al.feedback(3, r.a));
    assert Cancels(al, r.f, s.f, al.feedback(4, r.a));
  }

  lemma {:induction false} ShiftInjective<T(!new)>(al: Algebra<T>, r: Reg<T>, s: Reg<T>, values: seq<T>)
    requires Lawful(al) && Shift(al, r, values) == Shift(al, s, values)
    ensures r == s
    decreases |values|
  {
    if values != [] {
      var k := |values| - 1;
      StepInjective(al, Shift(al, r, values[..k]), Shift(al, s, values[..k]), values[k]);
      ShiftInjective(al, r, s, values[..k]);
    }
  }

  // ----- Six symbols after a state -----

  function Sum<T>(al: Algebra<T>, r: Reg<T>, s: Reg<T>): Reg<T> {
    Reg(al.add(r.a, s.a), al.add(r.b, s.b), al.add(r.c, s.c), al.add(r.d, s.d), al.add(r.e, s.e), al.add(r.f, s.f))
  }

  function Packed<T>(w: seq<T>): Reg<T>
    requires |w| == 6
  {
    Reg(w[0], w[1], w[2], w[3], w[4], w[5])
  }

  function Zeros<T>(al: Algebra<T>): seq<T> {
    [al.zero, al.zero, al.zero, al.zero, al.zero, al.zero]
  }

  /** A step adds: the sum of two registers steps to the sum of their steps. */
  lemma {:induction false} StepLinear<T(!new)>(al: Algebra<T>, r: Reg<T>, s: Reg<T>, v: T, w: T)
    requires Lawful(al)
    ensures Step(al, Sum(al, r, s), al.add(v, w)) == Sum(al, Step(al, r, v), Step(al, s, w))
  {
    assert Linear(al, 0, r.a, s.a) && Linear(al, 1, r.a, s.a) && Linear(al, 2, r.a, s.a);
    assert Linear(al, 3, r.a, s.a) && Linear(al, 4, r.a, s.a) && Linear(al, 5, r.a, s.a);
    assert Interchange(al, r.b, s.b, al.feedback(0, r.a), al.feedback(0, s.a));
    assert Interchange(al, r.c, s.c, al.feedback(1, r.a), al.feedback(1, s.a));
    assert Interchange(al, r.d, s.d, al.feedback(2, r.a), al.feedback(2, s.a));
    assert Interchange(al, r.e, s.e, al.feedback(3, r.a), al.feedback(3, s.a));
    assert Interchange(al, r.f, s.f, al.feedback(4, r.a), al.feedback(4, s.a));
    assert Interchange(al, v, w, al.feedback(5, r.a), al.feedback(5, s.a));
  }

  function Sums<T>(al: Algebra<T>, v: seq<T>, w: seq<T>): (u: seq<T>)
    requires |v| == |w|
    ensures |u| == |v| && forall i :: 0 <= i < |v| ==> u[i] == al.add(v[i], w[i])
  {
    seq(|v|, i requires 0 <= i < |v| => al.add(v[i], w[i]))
  }

  lemma {:induction false} ShiftLinear<T(!new)>(al: Algebra<T>, r: Reg<T>, s: Reg<T>, v: seq<T>, w: seq<T>)
    requires Lawful(al) && |v| == |w|
    ensures Shift(al, Sum(al, r, s), Sums(al, v, w)) == Sum(al, Shift(al, r, v), Shift(al, s, w))
    decreases |v|
  {
    if v != [] {
      var k := |v| - 1;
      ShiftLinear(al, r, s, v[..k], w[..k]);
      assert Sums(al, v, w)[..k] == Sums(al, v[..k], w[..k]);
      StepLinear(al, Shift(al, r, v[..k]), Shift(al, s, w[..k]), v[k], w[k]);
    }
  }

  lemma {:induction false} FeedbackOfZero<T(!new)>(al: Algebra<T>, place: nat)
    requires Lawful(al)
    ensures al.feedback(place, al.zero) == al.zero
  {
    var z, f := al.zero, al.feedback(place, al.zero);
    assert Linear(al, place, z, z);
    assert Cancels(al, z, z, z) && Cancels(al, f, z, f);
  }

  /** While the symbol shifted out is zero, a step only moves symbols. */
  lemma {:induction false} QuietStep<T(!new)>(al: Algebra<T>, r: Reg<T>, v: T)
    requires Lawful(al) && r.a == al.zero
    ensures Step(al, r, v) == Reg(r.b, r.c, r.d, r.e, r.f, v)
  {
    FeedbackOfZero(al, 0);
    FeedbackOfZero(al, 1);
    FeedbackOfZero(al, 2);
    FeedbackOfZero(al, 3);
    FeedbackOfZero(al, 4);
    FeedbackOfZero(al, 5);
    assert Cancels(al, r.b, r.b, r.b) && Cancels(al, r.c, r.c, r.c) && Cancels(al, r.d, r.d, r.d);
    assert Cancels(al, r.e, r.e, r.e) && Cancels(al, r.f, r.f, r.f) && Cancels(al, v, v, v);
  }

  /** Six symbols shifted into an empty register fill its six places. */
  lemma {:induction false} FillEmpty<T(!new)>(al: Algebra<T>, w: seq<T>)
    requires Lawful(al) && |w| == 6
    ensures Shift(al, Packed(Zeros(al)), w) == Packed(w)
  {
    var z := al.zero;
    var r := Packed(Zeros(al));
    ShiftTake(al, r, w, 0);
    QuietStep(al, r, w[0]);
    ShiftTake(al, r, w, 1);
    QuietStep(al, Reg(z, z, z, z, z, w[0]), w[1]);
    ShiftTake(al, r, w, 2);
    QuietStep(al, Reg(z, z, z, z, w[0], w[1]), w[2]);
    ShiftTake(al, r, w, 3);
    QuietStep(al, Reg(z, z, z, w[0], w[1], w[2]), w[3]);
    ShiftTake(al, r, w, 4);
    QuietStep(al, Reg(z, z, w[0], w[1], w[2], w[3]), w[4]);
    ShiftTake(al, r, w, 5);
    QuietStep(al, Reg(z, w[0], w[1], w[2], w[3], w[4]), w[5]);
    assert w[..6] == w && w[..0] == [];
  }

  lemma {:induction false} ShiftTake<T>(al: Algebra<T>, r: Reg<T>, w: seq<T>, i: nat)
    requires i < |w|
    ensures Shift(al, r, w[..i + 1]) == Step(al, Shift(al, r, w[..i]), w[i])
  {
    assert w[..i + 1][..i] == w[..i];
  }

  /** Six symbols after a state lead to what six zeros lead to, plus those symbols. */
  lemma {:induction false} SixSymbols<T(!new)>(al: Algebra<T>, r: Reg<T>, w: seq<T>)
    requires Lawful(al) && |w| == 6
    ensures Shift(al, r, w) == Sum(al, Shift(al, r, Zeros(al)), Packed(w))
  {
    var zeros := Zeros(al);
    ShiftLinear(al, r, Packed(zeros), zeros, w);
    FillEmpty(al, w);
    AddZeros(al, w);
    assert Cancels(al, r.a, r.a, r.a) && Cancels(al, r.b, r.b, r.b) && Cancels(al, r.c, r.c, r.c);
    assert Cancels(al, r.d, r.d, r.d) && Cancels(al, r.e, r.e, r.e) && Cancels(al, r.f, r.f, r.f);
    assert Sum(al, r, Packed(zeros)) == r;
  }

  lemma {:induction false} AddZeros<T(!new)>(al: Algebra<T>, w: seq<T>)
    requires Lawful(al) && |w| == 6
    ensures Sums(al, Zeros(al), w) == w
  {
    forall i | 0 <= i < 6
      ensures Sums(al, Zeros(al), w)[i] == w[i]
    {
      assert Cancels(al, w[i], w[i], w[i]);
    }
  }

  /** Exactly one choice of six symbols leads from `r` to `target`. */
  lemma {:induction false} SixPinned<T(!new)>(al: Algebra<T>, r: Reg<T>, w: seq<T>, target: Reg<T>)
    requires Lawful(al) && |w| == 6
    ensures Shift(al, r, w) == target <==> Packed(w) == Sum(al, Shift(al, r, Zeros(al)), target)
  {
    SixSymbols(al, r, w);
    SumTwice(al, Shift(al, r, Zeros(al)), Packed(w));
    SumTwice(al, Shift(al, r, Zeros(al)), target);
  }

  lemma {:induction false} SumTwice<T(!new)>(al: Algebra<T>, r: Reg<T>, s: Reg<T>)
    requires Lawful(al)
    ensures Sum(al, r, Sum(al, r, s)) == s
  {
    assert Cancels(al, r.a, s.a, r.a) && Cancels(al, r.b, s.b, r.b) && Cancels(al, r.c, s.c, r.c);
    assert Cancels(al, r.d, s.d, r.d) && Cancels(al, r.e, s.e, r.e) && Cancels(al, r.f, s.f, r.f);
  }

  /** Two strings that differ within six consecutive symbols at most and lead to the same
      state are equal. */
  lemma {:induction false} BurstDetected<T(!new)>(al: Algebra<T>, r: Reg<T>, before: seq<T>, w1: seq<T>, w2: seq<T>,
                                                  after: seq<T>)
    requires Lawful(al) && |w1| == 6 && |w2| == 6
    requires Shift(al, r, before + w1 + after) == Shift(al, r, before + w2 + after)
    ensures w1 == w2
  {
    ShiftInParts(al, r, before + w1, after);
    ShiftInParts(al, r, before + w2, after);
    ShiftInjective(al, Shift(al, r, before + w1), Shift(al, r, before + w2), after);
    ShiftInParts(al, r, before, w1);
    ShiftInParts(al, r, before, w2);
    var s := Shift(al, r, before);
    SixPinned(al, s, w1, Shift(al, s, w1));
    SixPinned(al, s, w2, Shift(al, s, w2));
    assert Packed(w1) == Packed(w2);
  }
}
