/** The bech32m checksum (src/address.rs, `polymod`): a 32-bit word that holds a linear
    feedback register of six five-bit symbols. */
module Checksum {
  import opened LinearRegister

  /** A five-bit symbol. */
  type Symbol = bv5

  const BECH32M_CONST: bv32 := 0x2bc8_30a3

  // ----- The word as the code runs it -----

  function Wide(v: Symbol): bv32 {
    v as bv32
  }

  /** Add the generators that the bits of `top` select, one after another. */
  function Feed(chk: bv32, top: bv32): bv32 {
    var chk := if top & 1 == 1 then chk ^ 0x3b6a_57b2 else chk;
    var chk := if (top >> 1) & 1 == 1 then chk ^ 0x2650_8e6d else chk;
    var chk := if (top >> 2) & 1 == 1 then chk ^ 0x1ea1_19fa else chk;
    var chk := if (top >> 3) & 1 == 1 then chk ^ 0x3d42_33dd else chk;
    if (top >> 4) & 1 == 1 then chk ^ 0x2a14_62b3 else chk
  }

  function Shifted(chk: bv32, v: Symbol): bv32 {
    Feed(((chk & 0x1ffffff) << 5) ^ Wide(v), chk >> 25)
  }

  function Fold(step: (bv32, Symbol) -> bv32, chk: bv32, values: seq<Symbol>): bv32 {
    if values == [] then chk else step(Fold(step, chk, values[..|values| - 1]), values[|values| - 1])
  }

  function Polymod(values: seq<Symbol>): bv32 {
    Fold(Shifted, 1, values)
  }

  lemma {:induction false} FoldTake(step: (bv32, Symbol) -> bv32, chk: bv32, values: seq<Symbol>, i: nat)
    requires i < |values|
    ensures Fold(step, chk, values[..i + 1]) == step(Fold(step, chk, values[..i]), values[i])
  {
    assert values[..i + 1][..i] == values[..i];
  }

  method RunPolymod(values: seq<Symbol>) returns (chk: bv32)
    ensures chk == Polymod(values)
  {
    chk := 1;
    for i := 0 to |values|
      invariant chk == Fold(Shifted, 1, values[..i])
    {
      FoldTake(Shifted, 1, values, i);
      chk := StepOnce(chk, values[i]);
    }
    assert values[..|values|] == values;
  }

  method StepOnce(chk0: bv32, v: Symbol) returns (chk: bv32)
    ensures chk == Shifted(chk0, v)
  {
    var top := chk0 >> 25;
    chk := ((chk0 & 0x1ffffff) << 5) ^ Wide(v);
    chk := Feed(chk, top);
  }

  // ----- The word as six symbols -----

  function View(chk: bv32): Reg<Symbol> {
    Reg(((chk >> 25) & 31) as bv5, ((chk >> 20) & 31) as bv5, ((chk >> 15) & 31) as bv5,
        ((chk >> 10) & 31) as bv5, ((chk >> 5) & 31) as bv5, (chk & 31) as bv5)
  }

  predicate Is30(x: bv32) { x >> 30 == 0 }

  lemma {:induction false} ViewInjective(x: bv32, y: bv32)
    requires Is30(x) && Is30(y) && View(x) == View(y)
    ensures x == y
  {
  }

  lemma {:induction false} ShiftedIs30(chk: bv32, v: Symbol)
    ensures Is30(Shifted(chk, v))
  {
  }

  function Plus(x: Symbol, y: Symbol): Symbol {
    x ^ y
  }

  /** What `top` feeds back into one place, given the generators' symbols there. */
  function Mix(top: Symbol, g0: Symbol, g1: Symbol, g2: Symbol, g3: Symbol, g4: Symbol): Symbol {
    (if top & 1 != 0 then g0 else 0) ^ (if top & 2 != 0 then g1 else 0) ^ (if top & 4 != 0 then g2 else 0)
    ^ (if top & 8 != 0 then g3 else 0) ^ (if top & 16 != 0 then g4 else 0)
  }

  function Generators(place: nat, top: Symbol): Symbol {
    match place
    case 0 => Mix(top, 29, 19, 15, 30, 21)
    case 1 => Mix(top, 22, 5, 10, 20, 1)
    case 2 => Mix(top, 20, 1, 2, 4, 8)
    case 3 => Mix(top, 21, 3, 6, 12, 24)
    case 4 => Mix(top, 29, 19, 15, 30, 21)
    case _ => Mix(top, 18, 13, 26, 29, 19)
  }

  const BECH: Algebra<Symbol> := Algebra(Plus, 0, Generators)

  // ----- The laws -----

  lemma {:induction false} PlusInterchange(p: Symbol, q: Symbol, x: Symbol, y: Symbol)
    ensures Plus(Plus(p, q), Plus(x, y)) == Plus(Plus(p, x), Plus(q, y))
  {
  }

  lemma {:induction false} PlusCancels(x: Symbol, y: Symbol, v: Symbol)
    ensures (Plus(x, v) == Plus(y, v) ==> x == y) && (Plus(v, x) == Plus(v, y) ==> x == y)
    ensures Plus(x, 0) == x && Plus(0, x) == x && Plus(x, Plus(x, y)) == y
  {
  }

  lemma {:induction false} MixLinear0(x: Symbol, y: Symbol)
    ensures Mix(x ^ y, 29, 19, 15, 30, 21) == Mix(x, 29, 19, 15, 30, 21) ^ Mix(y, 29, 19, 15, 30, 21)
  {
  }

  lemma {:induction false} MixLinear1(x: Symbol, y: Symbol)
    ensures Mix(x ^ y, 22, 5, 10, 20, 1) == Mix(x, 22, 5, 10, 20, 1) ^ Mix(y, 22, 5, 10, 20, 1)
  {
  }

  lemma {:induction false} MixLinear2(x: Symbol, y: Symbol)
    ensures Mix(x ^ y, 20, 1, 2, 4, 8) == Mix(x, 20, 1, 2, 4, 8) ^ Mix(y, 20, 1, 2, 4, 8)
  {
  }

  lemma {:induction false} MixLinear3(x: Symbol, y: Symbol)
    ensures Mix(x ^ y, 21, 3, 6, 12, 24) == Mix(x, 21, 3, 6, 12, 24) ^ Mix(y, 21, 3, 6, 12, 24)
  {
  }

  lemma {:induction false} MixLinear5(x: Symbol, y: Symbol)
    ensures Mix(x ^ y, 18, 13, 26, 29, 19) == Mix(x, 18, 13, 26, 29, 19) ^ Mix(y, 18, 13, 26, 29, 19)
  {
  }

  lemma {:induction false} PlaceLinear0(place: nat, x: Symbol, y: Symbol)
    requires place == 0
    ensures Generators(place, Plus(x, y)) == Plus(Generators(place, x), Generators(place, y))
  {
    MixLinear0(x, y);
  }

  lemma {:induction false} PlaceLinear1(place: nat, x: Symbol, y: Symbol)
    requires place == 1
    ensures Generators(place, Plus(x, y)) == Plus(Generators(place, x), Generators(place, y))
  {
    MixLinear1(x, y);
  }

  lemma {:induction false} PlaceLinear2(place: nat, x: Symbol, y: Symbol)
    requires place == 2
    ensures Generators(place, Plus(x, y)) == Plus(Generators(place, x), Generators(place, y))
  {
    MixLinear2(x, y);
  }

  lemma {:induction false} PlaceLinear3(place: nat, x: Symbol, y: Symbol)
    requires place == 3
    ensures Generators(place, Plus(x, y)) == Plus(Generators(place, x), Generators(place, y))
  {
    MixLinear3(x, y);
  }

  lemma {:induction false} PlaceLinear4(place: nat, x: Symbol, y: Symbol)
    requires place == 4
    ensures Generators(place, Plus(x, y)) == Plus(Generators(place, x), Generators(place, y))
  {
    MixLinear0(x, y);
  }

  lemma {:induction false} PlaceLinear5(place: nat, x: Symbol, y: Symbol)
    requires place >= 5
    ensures Generators(place, Plus(x, y)) == Plus(Generators(place, x), Generators(place, y))
  {
    MixLinear5(x, y);
  }

  lemma {:induction false} GeneratorsLinear(place: nat, x: Symbol, y: Symbol)
    ensures Linear(BECH, place, x, y)
  {
    if place == 0 {
      PlaceLinear0(place, x, y);
    } else if place == 1 {
      PlaceLinear1(place, x, y);
    } else if place == 2 {
      PlaceLinear2(place, x, y);
    } else if place == 3 {
      PlaceLinear3(place, x, y);
    } else if place == 4 {
      PlaceLinear4(place, x, y);
    } else {
      PlaceLinear5(place, x, y);
    }
  }

  lemma {:induction false} GeneratorsTell(x: Symbol, y: Symbol)
    requires Generators(5, x) == Generators(5, y)
    ensures x == y
  {
  }

  lemma {:induction false} BechIsLawful()
    ensures Lawful(BECH)
  {
    forall p, q, x, y
      ensures Interchange(BECH, p, q, x, y)
    {
      PlusInterchange(p, q, x, y);
    }
    forall x, y, v
      ensures Cancels(BECH, x, y, v)
    {
      PlusCancels(x, y, v);
    }
    forall place, x, y
      ensures Linear(BECH, place, x, y)
    {
      GeneratorsLinear(place, x, y);
    }
    forall x, y
      ensures Tells(BECH, x, y)
    {
      if Generators(5, x) == Generators(5, y) {
        GeneratorsTell(x, y);
      }
    }
  }

  // ----- The word steps as the register does -----

  lemma {:induction false} FeedSplit(x: bv32, top: bv32)
    ensures Feed(x, top) == x ^ Feed(0, top)
  {
  }

  function Received(g: (nat, Symbol) -> Symbol, top: Symbol): Reg<Symbol> {
    Reg(g(0, top), g(1, top), g(2, top), g(3, top), g(4, top), g(5, top))
  }

  lemma {:induction false} FeedView(chk: bv32)
    ensures View(Feed(0, chk >> 25)) == Received(Generators, View(chk).a)
  {
  }

  lemma {:induction false} MixView(chk: bv32, v: Symbol, f: bv32)
    ensures View(((chk & 0x1ffffff) << 5) ^ Wide(v) ^ f) ==
            Reg(Plus(View(chk).b, View(f).a), Plus(View(chk).c, View(f).b), Plus(View(chk).d, View(f).c),
                Plus(View(chk).e, View(f).d), Plus(View(chk).f, View(f).e), Plus(v, View(f).f))
  {
  }

  lemma {:induction false} StepViewWith(feed: (bv32, bv32) -> bv32, g: (nat, Symbol) -> Symbol, chk: bv32, v: Symbol)
    requires var x := ((chk & 0x1ffffff) << 5) ^ Wide(v); feed(x, chk >> 25) == x ^ feed(0, chk >> 25)
    requires View(feed(0, chk >> 25)) == Received(g, View(chk).a)
    ensures View(feed(((chk & 0x1ffffff) << 5) ^ Wide(v), chk >> 25)) == Step(Algebra(Plus, 0, g), View(chk), v)
  {
    MixView(chk, v, feed(0, chk >> 25));
  }

  lemma {:induction false} StepView(chk: bv32, v: Symbol)
    ensures View(Shifted(chk, v)) == Step(BECH, View(chk), v)
  {
    FeedSplit(((chk & 0x1ffffff) << 5) ^ Wide(v), chk >> 25);
    FeedView(chk);
    StepViewWith(Feed, Generators, chk, v);
  }

  ghost predicate Mirrors(step: (bv32, Symbol) -> bv32, al: Algebra<Symbol>, chk: bv32, v: Symbol) {
    View(step(chk, v)) == Step(al, View(chk), v) && Is30(step(chk, v))
  }

  lemma {:induction false} FoldView(step: (bv32, Symbol) -> bv32, al: Algebra<Symbol>, chk: bv32, values: seq<Symbol>)
    requires forall c, v {:trigger Mirrors(step, al, c, v)} :: Mirrors(step, al, c, v)
    requires Is30(chk)
    ensures View(Fold(step, chk, values)) == Shift(al, View(chk), values) && Is30(Fold(step, chk, values))
  {
    if values != [] {
      var k := |values| - 1;
      FoldView(step, al, chk, values[..k]);
      assert Mirrors(step, al, Fold(step, chk, values[..k]), values[k]);
    }
  }

  lemma {:induction false} PolymodView(values: seq<Symbol>)
    ensures View(Polymod(values)) == Shift(BECH, View(1), values) && Is30(Polymod(values))
  {
    forall c, v
      ensures Mirrors(Shifted, BECH, c, v)
    {
      StepView(c, v);
      ShiftedIs30(c, v);
    }
    FoldView(Shifted, BECH, 1, values);
  }

  // ----- What the checksum guarantees -----

  const ZEROS: seq<Symbol> := [0, 0, 0, 0, 0, 0]

  /** The six symbols of a register word, as the code extracts them. */
  function Unpacked(x: bv32): (s: seq<Symbol>)
    ensures |s| == 6
  {
    [((x >> 25) & 31) as bv5, ((x >> 20) & 31) as bv5, ((x >> 15) & 31) as bv5,
     ((x >> 10) & 31) as bv5, ((x >> 5) & 31) as bv5, (x & 31) as bv5]
  }

  /** The checksum the code appends to `values`. */
  function ChecksumOf(values: seq<Symbol>): (c: seq<Symbol>)
    ensures |c| == 6
  {
    Unpacked(Polymod(values + ZEROS) ^ BECH32M_CONST)
  }

  lemma {:induction false} UnpackedView(x: bv32)
    ensures Packed(Unpacked(x ^ BECH32M_CONST)) == Sum(BECH, View(x), View(BECH32M_CONST))
  {
  }

  lemma {:induction false} PackedInjective(s: seq<Symbol>, t: seq<Symbol>)
    requires |s| == 6 && |t| == 6 && Packed(s) == Packed(t)
    ensures s == t
  {
  }

  lemma {:induction false} PinsWith(al: Algebra<Symbol>, r: Reg<Symbol>, target: Reg<Symbol>, values: seq<Symbol>,
                                    c: seq<Symbol>, checksum: seq<Symbol>)
    requires Lawful(al) && |c| == 6 && |checksum| == 6
    requires Packed(checksum) == Sum(al, Shift(al, r, values + Zeros(al)), target)
    ensures Shift(al, r, values + c) == target <==> c == checksum
  {
    ShiftInParts(al, r, values, c);
    ShiftInParts(al, r, values, Zeros(al));
    SixPinned(al, Shift(al, r, values), c, target);
    if Packed(c) == Packed(checksum) {
      PackedInjective(c, checksum);
    }
  }

  lemma {:induction false} ChecksumView(values: seq<Symbol>)
    ensures Packed(ChecksumOf(values)) == Sum(BECH, Shift(BECH, View(1), values + Zeros(BECH)), View(BECH32M_CONST))
  {
    PolymodView(values + ZEROS);
    UnpackedView(Polymod(values + ZEROS));
    assert ZEROS == Zeros(BECH);
  }

  lemma {:induction false} SameView(x: bv32, y: bv32)
    requires Is30(x) && Is30(y)
    ensures x == y <==> View(x) == View(y)
  {
    if View(x) == View(y) {
      ViewInjective(x, y);
    }
  }

  lemma {:induction false} ConstIs30()
    ensures Is30(BECH32M_CONST)
  {
  }

  /** A string checks if and only if it ends in the checksum of what comes before. */
  lemma {:induction false} ChecksumPins(values: seq<Symbol>, c: seq<Symbol>)
    requires |c| == 6
    ensures Polymod(values + c) == BECH32M_CONST <==> c == ChecksumOf(values)
  {
    BechIsLawful();
    ChecksumView(values);
    PinsWith(BECH, View(1), View(BECH32M_CONST), values, c, ChecksumOf(values));
    PolymodView(values + c);
    ConstIs30();
    SameView(Polymod(values + c), BECH32M_CONST);
  }

  /** A change within six consecutive symbols never goes unnoticed. */
  lemma {:induction false} BurstNoticed(before: seq<Symbol>, w1: seq<Symbol>, w2: seq<Symbol>, after: seq<Symbol>)
    requires |w1| == 6 && |w2| == 6 && Polymod(before + w1 + after) == Polymod(before + w2 + after)
    ensures w1 == w2
  {
    BechIsLawful();
    PolymodView(before + w1 + after);
    PolymodView(before + w2 + after);
    BurstDetected(BECH, View(1), before, w1, w2, after);
  }

  /** Following a step function along a path of states. */
  lemma {:induction false} FoldPath(step: (bv32, Symbol) -> bv32, path: seq<bv32>, s: seq<Symbol>)
    requires |path| == |s| + 1 && forall i {:trigger path[i + 1]} :: 0 <= i < |s| ==> step(path[i], s[i]) == path[i + 1]
    ensures Fold(step, path[0], s) == path[|s|]
  {
    if s != [] {
      var k := |s| - 1;
      forall i | 0 <= i < k
        ensures step(path[..|s|][i], s[..k][i]) == path[..|s|][i + 1]
      {
        assert path[..|s|][i + 1] == path[i + 1];
      }
      FoldPath(step, path[..|s|], s[..k]);
      assert path[k + 1] == path[|s|];
    }
  }

  const VECTOR: seq<Symbol> := [3, 0, 1, 31, 0, 9, 19, 17, 29]

  const VECTOR_STATES: seq<bv32> := [0x1, 0x23, 0x460, 0x8c01, 0x11803f, 0x23007e0, 0x3d6aabbb, 0x2f2b18a, 0x253c66e3,
                                     0x2bc830a3]

  lemma {:induction false} VectorStep0()
    ensures Shifted(0x1, 3) == 0x23
  {
  }

  lemma {:induction false} VectorStep1()
    ensures Shifted(0x23, 0) == 0x460
  {
  }

  lemma {:induction false} VectorStep2()
    ensures Shifted(0x460, 1) == 0x8c01
  {
  }

  lemma {:induction false} VectorStep3()
    ensures Shifted(0x8c01, 31) == 0x11803f
  {
  }

  lemma {:induction false} VectorStep4()
    ensures Shifted(0x11803f, 0) == 0x23007e0
  {
  }

  lemma {:induction false} VectorStep5()
    ensures Shifted(0x23007e0, 9) == 0x3d6aabbb
  {
  }

  lemma {:induction false} VectorStep6()
    ensures Shifted(0x3d6aabbb, 19) == 0x2f2b18a
  {
  }

  lemma {:induction false} VectorStep7()
    ensures Shifted(0x2f2b18a, 17) == 0x253c66e3
  {
  }

  lemma {:induction false} VectorStep8()
    ensures Shifted(0x253c66e3, 29) == 0x2bc830a3
  {
  }

  /** The shortest valid string of BIP-350, `a1lqfn3a`, checks. */
  lemma {:induction false} Bip350Vector()
    ensures Polymod(VECTOR) == BECH32M_CONST
  {
    forall i | 0 <= i < 9
      ensures Shifted(VECTOR_STATES[i], VECTOR[i]) == VECTOR_STATES[i + 1]
    {
      match i
      case 0 => VectorStep0();
      case 1 => VectorStep1();
      case 2 => VectorStep2();
      case 3 => VectorStep3();
      case 4 => VectorStep4();
      case 5 => VectorStep5();
      case 6 => VectorStep6();
      case 7 => VectorStep7();
      case _ => VectorStep8();
    }
    FoldPath(Shifted, VECTOR_STATES, VECTOR);
  }

  // ----- Symbols as numbers -----

  ghost predicate Fives(data: seq<nat>) {
    forall i :: 0 <= i < |data| ==> data[i] < 32
  }

  /** The symbol with the bits of `n`. */
  function ToSymbol(n: nat): Symbol {
    (if n % 2 == 1 then 1 else 0) | (if n / 2 % 2 == 1 then 2 else 0) | (if n / 4 % 2 == 1 then 4 else 0)
    | (if n / 8 % 2 == 1 then 8 else 0) | (if n / 16 % 2 == 1 then 16 else 0)
  }

  function ToNumber(v: Symbol): (n: nat)
    ensures n < 32
  {
    (if v & 1 != 0 then 1 else 0) + (if v & 2 != 0 then 2 else 0) + (if v & 4 != 0 then 4 else 0)
    + (if v & 8 != 0 then 8 else 0) + (if v & 16 != 0 then 16 else 0)
  }

  lemma {:induction false} NumberOfSymbol(n: nat)
    requires n < 32
    ensures ToNumber(ToSymbol(n)) == n
  {
  }

  lemma {:induction false} SymbolOfNumber(v: Symbol)
    ensures ToSymbol(ToNumber(v)) == v
  {
  }

  function Symbols(data: seq<nat>): (s: seq<Symbol>)
    ensures |s| == |data| && forall i :: 0 <= i < |data| ==> s[i] == ToSymbol(data[i])
  {
    seq(|data|, i requires 0 <= i < |data| => ToSymbol(data[i]))
  }

  function Numbers(s: seq<Symbol>): (data: seq<nat>)
    ensures |data| == |s| && Fives(data) && forall i :: 0 <= i < |s| ==> data[i] == ToNumber(s[i])
  {
    seq(|s|, i requires 0 <= i < |s| => ToNumber(s[i]))
  }

  lemma {:induction false} SymbolsInjective(x: seq<nat>, y: seq<nat>)
    requires Fives(x) && Fives(y) && Symbols(x) == Symbols(y)
    ensures x == y
  {
    assert |x| == |Symbols(x)| == |y|;
    forall i | 0 <= i < |x|
      ensures x[i] == y[i]
    {
      assert Symbols(x)[i] == Symbols(y)[i];
      NumberOfSymbol(x[i]);
      NumberOfSymbol(y[i]);
    }
  }

  /** The numbers of a string that checks. */
  predicate Checks(values: seq<nat>) {
    Polymod(Symbols(values)) == BECH32M_CONST
  }

  /** The checksum of `values`, as numbers. */
  function CheckDigits(values: seq<nat>): (c: seq<nat>)
    ensures |c| == 6 && Fives(c)
  {
    Numbers(ChecksumOf(Symbols(values)))
  }

  lemma {:induction false} SymbolsOfNumbers(s: seq<Symbol>)
    ensures Symbols(Numbers(s)) == s
  {
    forall i | 0 <= i < |s|
      ensures Symbols(Numbers(s))[i] == s[i]
    {
      SymbolOfNumber(s[i]);
    }
  }

  /** A string checks if and only if it ends in the checksum of what comes before. */
  lemma {:induction false} CheckDigitsPin(values: seq<nat>, c: seq<nat>)
    requires |c| == 6 && Fives(c)
    ensures Checks(values + c) <==> c == CheckDigits(values)
  {
    assert Symbols(values + c) == Symbols(values) + Symbols(c);
    ChecksumPins(Symbols(values), Symbols(c));
    SymbolsOfNumbers(ChecksumOf(Symbols(values)));
    if Symbols(c) == ChecksumOf(Symbols(values)) {
      SymbolsInjective(c, CheckDigits(values));
    }
  }

  lemma {:induction false} SymbolsInParts(x: seq<nat>, y: seq<nat>, z: seq<nat>)
    ensures Symbols(x + y + z) == Symbols(x) + Symbols(y) + Symbols(z)
  {
  }

  lemma {:induction false} BurstChecks(before: seq<nat>, w1: seq<nat>, w2: seq<nat>, after: seq<nat>)
    requires |w1| == 6 && |w2| == 6 && Fives(w1) && Fives(w2)
    requires Checks(before + w1 + after) && Checks(before + w2 + after)
    ensures w1 == w2
  {
    SymbolsInParts(before, w1, after);
    SymbolsInParts(before, w2, after);
    BurstNoticed(Symbols(before), Symbols(w1), Symbols(w2), Symbols(after));
    SymbolsInjective(w1, w2);
  }
}
