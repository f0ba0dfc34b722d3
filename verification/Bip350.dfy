/** Valid strings of BIP-350, through the codec. */
module Bip350 {
  import opened Types
  import opened Checksum
  import opened Address

  /** A string whose last six symbols make the checksum right is the encoding of the rest, and
      decodes to it in either case. */
  lemma {:induction false} ValidString(hrp: string, data: seq<nat>, digits: seq<nat>)
    requires hrp != [] && LowerAll(hrp) == hrp && Fives(data) && Fives(digits) && |digits| == 6
    requires Checks(HrpExpand(hrp) + data + digits)
    ensures var s := hrp + "1" + Letters(data + digits);
            && Encoded(hrp, data) == s
            && Decoded(s) == Some(Parts(hrp, data)) && Decoded(UpperAll(s)) == Some(Parts(hrp, data))
  {
    CheckDigitsPin(HrpExpand(hrp) + data, digits);
    AcceptedExactly(Encoded(hrp, data), Parts(hrp, data));
    AcceptedExactly(UpperAll(Encoded(hrp, data)), Parts(hrp, data));
  }

  /** Running on from where a stretch leads. */
  lemma {:induction false} FoldJoin(step: (bv32, Symbol) -> bv32, chk: bv32, a: seq<Symbol>, b: seq<Symbol>)
    ensures Fold(step, chk, a + b) == Fold(step, Fold(step, chk, a), b)
  {
    if b == [] {
      assert a + b == a;
    } else {
      var k := |b| - 1;
      FoldJoin(step, chk, a, b[..k]);
      assert (a + b)[..|a| + k] == a + b[..k];
    }
  }

  // ----- The shortest -----

  const SHORT_DIGITS: seq<nat> := [31, 0, 9, 19, 17, 29]

  lemma {:induction false} ShortExpands()
    ensures HrpExpand("a") == [3, 0, 1] && LowerAll("a") == "a"
  {
    assert 'a' as nat == 97;
  }

  lemma {:induction false} ShortSymbols()
    ensures Symbols([3, 0, 1]) == [3, 0, 1] && Symbols(SHORT_DIGITS) == [31, 0, 9, 19, 17, 29]
  {
  }

  lemma {:induction false} ShortChecks()
    ensures Checks(HrpExpand("a") + [] + SHORT_DIGITS)
  {
    ShortExpands();
    ShortSymbols();
    SymbolsInParts([3, 0, 1], [], SHORT_DIGITS);
    assert VECTOR == [3, 0, 1] + [] + [31, 0, 9, 19, 17, 29];
    Bip350Vector();
  }

  lemma {:induction false} ShortLetters()
    ensures "a" + "1" + Letters([] + SHORT_DIGITS) == "a1lqfn3a"
  {
    assert [] + SHORT_DIGITS == SHORT_DIGITS;
    assert Letters(SHORT_DIGITS) == "lqfn3a";
  }

  lemma {:induction false} ShortUpper()
    ensures UpperAll("a1lqfn3a") == "A1LQFN3A"
  {
  }

  /** `a1lqfn3a`, and `A1LQFN3A`: no data under the prefix `a`. */
  lemma {:induction false} Shortest()
    ensures Encoded("a", []) == "a1lqfn3a"
    ensures Decoded("a1lqfn3a") == Some(Parts("a", [])) && Decoded("A1LQFN3A") == Some(Parts("a", []))
  {
    ShortExpands();
    ShortChecks();
    ValidString("a", [], SHORT_DIGITS);
    ShortLetters();
    ShortUpper();
  }

  // ----- A longer prefix -----

  // The symbols of five stretches of the string, and the words that each leads through.

  const LEG0: seq<Symbol> := [3, 3, 3, 3, 3, 3, 0, 1, 2, 3, 4, 5, 6]
  const PATH0: seq<bv32> := [0x1, 0x23, 0x463, 0x8c63, 0x118c63, 0x2318c63, 0x3d5bdbd1, 0x4dcbcd9, 0x3dc7154c,
                             0x17456f7b, 0x8d50561, 0x401b5de, 0x266635a8, 0x3be80e6a]
  const LEG1: seq<Symbol> := [31, 30, 29, 28, 27, 26, 25, 24, 23, 22, 21, 20, 19]
  const PATH1: seq<bv32> := [0x3be80e6a, 0xf9cd279, 0x30018f1b, 0x1767b213, 0xc8ea87e, 0x2924984c, 0x102672d3,
                             0x398c69a4, 0x387a7c0c, 0x6b8c903, 0xa23f9a9, 0x21b47b7d, 0x1c9b0d07, 0x16d204b9]
  const LEG2: seq<Symbol> := [18, 17, 16, 15, 14, 13, 12, 11, 10, 9, 8, 7, 6]
  const PATH2: seq<bv32> := [0x16d204b9, 0x3a387d30, 0x3592b937, 0x351f9f3, 0x115569dd, 0x17ef0873, 0x1d99e46f,
                             0x368f29a6, 0x1b89bc7a, 0x29bef2df, 0x36b20a0, 0x160e43ba, 0x21b09d45, 0x1c07ca15]
  const LEG3: seq<Symbol> := [5, 4, 3, 2, 1, 0]
  const PATH3: seq<bv32> := [0x1c07ca15, 0x54ae6ef, 0xf0c5389, 0x2211b106, 0x134815c3, 0x2f2adc0e, 0xcd42356]
  const LEG4: seq<Symbol> := [2, 13, 17, 3, 4, 6]
  const PATH4: seq<bv32> := [0xcd42356, 0x2275fd55, 0x1fc19fac, 0x6ea0669, 0x7a14fc, 0xf429f84, 0x2bc830a3]

  const DATA1: seq<nat> := [31, 30, 29, 28, 27, 26, 25, 24, 23, 22, 21, 20, 19]
  const DATA2: seq<nat> := [18, 17, 16, 15, 14, 13, 12, 11, 10, 9, 8, 7, 6]
  const DATA3: seq<nat> := [5, 4, 3, 2, 1, 0]
  const DATA4: seq<nat> := [2, 13, 17, 3, 4, 6]

  lemma {:induction false} Steps0()
    ensures Shifted(0x1, 3) == 0x23
    ensures Shifted(0x23, 3) == 0x463
    ensures Shifted(0x463, 3) == 0x8c63
    ensures Shifted(0x8c63, 3) == 0x118c63
    ensures Shifted(0x118c63, 3) == 0x2318c63
    ensures Shifted(0x2318c63, 3) == 0x3d5bdbd1
    ensures Shifted(0x3d5bdbd1, 0) == 0x4dcbcd9
    ensures Shifted(0x4dcbcd9, 1) == 0x3dc7154c
    ensures Shifted(0x3dc7154c, 2) == 0x17456f7b
    ensures Shifted(0x17456f7b, 3) == 0x8d50561
    ensures Shifted(0x8d50561, 4) == 0x401b5de
    ensures Shifted(0x401b5de, 5) == 0x266635a8
    ensures Shifted(0x266635a8, 6) == 0x3be80e6a
  {
  }

  lemma {:induction false} Leg0()
    ensures Fold(Shifted, 0x1, LEG0) == 0x3be80e6a
  {
    Steps0();
    forall i | 0 <= i < 13
      ensures Shifted(PATH0[i], LEG0[i]) == PATH0[i + 1]
    {
      match i
      case 0 => assert PATH0[1] == 0x23;
      case 1 => assert PATH0[2] == 0x463;
      case 2 => assert PATH0[3] == 0x8c63;
      case 3 => assert PATH0[4] == 0x118c63;
      case 4 => assert PATH0[5] == 0x2318c63;
      case 5 => assert PATH0[6] == 0x3d5bdbd1;
      case 6 => assert PATH0[7] == 0x4dcbcd9;
      case 7 => assert PATH0[8] == 0x3dc7154c;
      case 8 => assert PATH0[9] == 0x17456f7b;
      case 9 => assert PATH0[10] == 0x8d50561;
      case 10 => assert PATH0[11] == 0x401b5de;
      case 11 => assert PATH0[12] == 0x266635a8;
      case _ => assert PATH0[13] == 0x3be80e6a;
    }
    FoldPath(Shifted, PATH0, LEG0);
  }

  lemma {:induction false} Steps1()
    ensures Shifted(0x3be80e6a, 31) == 0xf9cd279
    ensures Shifted(0xf9cd279, 30) == 0x30018f1b
    ensures Shifted(0x30018f1b, 29) == 0x1767b213
    ensures Shifted(0x1767b213, 28) == 0xc8ea87e
    ensures Shifted(0xc8ea87e, 27) == 0x2924984c
    ensures Shifted(0x2924984c, 26) == 0x102672d3
    ensures Shifted(0x102672d3, 25) == 0x398c69a4
    ensures Shifted(0x398c69a4, 24) == 0x387a7c0c
    ensures Shifted(0x387a7c0c, 23) == 0x6b8c903
    ensures Shifted(0x6b8c903, 22) == 0xa23f9a9
    ensures Shifted(0xa23f9a9, 21) == 0x21b47b7d
    ensures Shifted(0x21b47b7d, 20) == 0x1c9b0d07
    ensures Shifted(0x1c9b0d07, 19) == 0x16d204b9
  {
  }

  lemma {:induction false} Leg1()
    ensures Fold(Shifted, 0x3be80e6a, LEG1) == 0x16d204b9
  {
    Steps1();
    forall i | 0 <= i < 13
      ensures Shifted(PATH1[i], LEG1[i]) == PATH1[i + 1]
    {
      match i
      case 0 => assert PATH1[1] == 0xf9cd279;
      case 1 => assert PATH1[2] == 0x30018f1b;
      case 2 => assert PATH1[3] == 0x1767b213;
      case 3 => assert PATH1[4] == 0xc8ea87e;
      case 4 => assert PATH1[5] == 0x2924984c;
      case 5 => assert PATH1[6] == 0x102672d3;
      case 6 => assert PATH1[7] == 0x398c69a4;
      case 7 => assert PATH1[8] == 0x387a7c0c;
      case 8 => assert PATH1[9] == 0x6b8c903;
      case 9 => assert PATH1[10] == 0xa23f9a9;
      case 10 => assert PATH1[11] == 0x21b47b7d;
      case 11 => assert PATH1[12] == 0x1c9b0d07;
      case _ => assert PATH1[13] == 0x16d204b9;
    }
    FoldPath(Shifted, PATH1, LEG1);
  }

  lemma {:induction false} Steps2()
    ensures Shifted(0x16d204b9, 18) == 0x3a387d30
    ensures Shifted(0x3a387d30, 17) == 0x3592b937
    ensures Shifted(0x3592b937, 16) == 0x351f9f3
    ensures Shifted(0x351f9f3, 15) == 0x115569dd
    ensures Shifted(0x115569dd, 14) == 0x17ef0873
    ensures Shifted(0x17ef0873, 13) == 0x1d99e46f
    ensures Shifted(0x1d99e46f, 12) == 0x368f29a6
    ensures Shifted(0x368f29a6, 11) == 0x1b89bc7a
    ensures Shifted(0x1b89bc7a, 10) == 0x29bef2df
    ensures Shifted(0x29bef2df, 9) == 0x36b20a0
    ensures Shifted(0x36b20a0, 8) == 0x160e43ba
    ensures Shifted(0x160e43ba, 7) == 0x21b09d45
    ensures Shifted(0x21b09d45, 6) == 0x1c07ca15
  {
  }

  lemma {:induction false} Leg2()
    ensures Fold(Shifted, 0x16d204b9, LEG2) == 0x1c07ca15
  {
    Steps2();
    forall i | 0 <= i < 13
      ensures Shifted(PATH2[i], LEG2[i]) == PATH2[i + 1]
    {
      match i
      case 0 => assert PATH2[1] == 0x3a387d30;
      case 1 => assert PATH2[2] == 0x3592b937;
      case 2 => assert PATH2[3] == 0x351f9f3;
      case 3 => assert PATH2[4] == 0x115569dd;
      case 4 => assert PATH2[5] == 0x17ef0873;
      case 5 => assert PATH2[6] == 0x1d99e46f;
      case 6 => assert PATH2[7] == 0x368f29a6;
      case 7 => assert PATH2[8] == 0x1b89bc7a;
      case 8 => assert PATH2[9] == 0x29bef2df;
      case 9 => assert PATH2[10] == 0x36b20a0;
      case 10 => assert PATH2[11] == 0x160e43ba;
      case 11 => assert PATH2[12] == 0x21b09d45;
      case _ => assert PATH2[13] == 0x1c07ca15;
    }
    FoldPath(Shifted, PATH2, LEG2);
  }

  lemma {:induction false} Steps3()
    ensures Shifted(0x1c07ca15, 5) == 0x54ae6ef
    ensures Shifted(0x54ae6ef, 4) == 0xf0c5389
    ensures Shifted(0xf0c5389, 3) == 0x2211b106
    ensures Shifted(0x2211b106, 2) == 0x134815c3
    ensures Shifted(0x134815c3, 1) == 0x2f2adc0e
    ensures Shifted(0x2f2adc0e, 0) == 0xcd42356
  {
  }

  lemma {:induction false} Leg3()
    ensures Fold(Shifted, 0x1c07ca15, LEG3) == 0xcd42356
  {
    Steps3();
    forall i | 0 <= i < 6
      ensures Shifted(PATH3[i], LEG3[i]) == PATH3[i + 1]
    {
      match i
      case 0 => assert PATH3[1] == 0x54ae6ef;
      case 1 => assert PATH3[2] == 0xf0c5389;
      case 2 => assert PATH3[3] == 0x2211b106;
      case 3 => assert PATH3[4] == 0x134815c3;
      case 4 => assert PATH3[5] == 0x2f2adc0e;
      case _ => assert PATH3[6] == 0xcd42356;
    }
    FoldPath(Shifted, PATH3, LEG3);
  }

  lemma {:induction false} Steps4()
    ensures Shifted(0xcd42356, 2) == 0x2275fd55
    ensures Shifted(0x2275fd55, 13) == 0x1fc19fac
    ensures Shifted(0x1fc19fac, 17) == 0x6ea0669
    ensures Shifted(0x6ea0669, 3) == 0x7a14fc
    ensures Shifted(0x7a14fc, 4) == 0xf429f84
    ensures Shifted(0xf429f84, 6) == 0x2bc830a3
  {
  }

  lemma {:induction false} Leg4()
    ensures Fold(Shifted, 0xcd42356, LEG4) == 0x2bc830a3
  {
    Steps4();
    forall i | 0 <= i < 6
      ensures Shifted(PATH4[i], LEG4[i]) == PATH4[i + 1]
    {
      match i
      case 0 => assert PATH4[1] == 0x2275fd55;
      case 1 => assert PATH4[2] == 0x1fc19fac;
      case 2 => assert PATH4[3] == 0x6ea0669;
      case 3 => assert PATH4[4] == 0x7a14fc;
      case 4 => assert PATH4[5] == 0xf429f84;
      case _ => assert PATH4[6] == 0x2bc830a3;
    }
    FoldPath(Shifted, PATH4, LEG4);
  }

  lemma {:induction false} Letters1()
    ensures Fives(DATA1) && Letters(DATA1) == "l7aum6echk45n"
  {
  }

  lemma {:induction false} Symbols1()
    ensures Symbols(DATA1) == LEG1
  {
  }

  lemma {:induction false} Letters2()
    ensures Fives(DATA2) && Letters(DATA2) == "j3s0wdvt2fg8x"
  {
  }

  lemma {:induction false} Symbols2()
    ensures Symbols(DATA2) == LEG2
  {
  }

  lemma {:induction false} Letters3()
    ensures Fives(DATA3) && Letters(DATA3) == "9yrzpq"
  {
  }

  lemma {:induction false} Symbols3()
    ensures Symbols(DATA3) == LEG3
  {
  }

  lemma {:induction false} Letters4()
    ensures Fives(DATA4) && Letters(DATA4) == "zd3ryx"
  {
  }

  lemma {:induction false} Symbols4()
    ensures Symbols(DATA4) == LEG4
  {
  }

  lemma {:induction false} LongExpands()
    ensures HrpExpand("abcdef") == [3, 3, 3, 3, 3, 3, 0, 1, 2, 3, 4, 5, 6] && LowerAll("abcdef") == "abcdef"
  {
  }

  lemma {:induction false} Symbols0()
    ensures Symbols([3, 3, 3, 3, 3, 3, 0, 1, 2, 3, 4, 5, 6]) == LEG0
  {
  }

  /** The five stretches lead from the first word to the one that checks. */
  lemma {:induction false} LongRuns()
    ensures Polymod(LEG0 + (LEG1 + LEG2 + LEG3) + LEG4) == BECH32M_CONST
  {
    Leg0();
    Leg1();
    Leg2();
    Leg3();
    Leg4();
    FoldJoin(Shifted, 1, LEG0 + (LEG1 + LEG2 + LEG3), LEG4);
    FoldJoin(Shifted, 1, LEG0, LEG1 + LEG2 + LEG3);
    FoldJoin(Shifted, 0x3be80e6a, LEG1 + LEG2, LEG3);
    FoldJoin(Shifted, 0x3be80e6a, LEG1, LEG2);
  }

  const LONG_DATA: seq<nat> := DATA1 + DATA2 + DATA3

  lemma {:induction false} LongChecks()
    ensures Checks(HrpExpand("abcdef") + LONG_DATA + DATA4)
  {
    LongExpands();
    Symbols0();
    SymbolsInParts(HrpExpand("abcdef"), LONG_DATA, DATA4);
    SymbolsInParts(DATA1, DATA2, DATA3);
    Symbols1();
    Symbols2();
    Symbols3();
    Symbols4();
    LongRuns();
  }

  lemma {:induction false} LettersJoin(a: seq<nat>, b: seq<nat>)
    requires Fives(a) && Fives(b)
    ensures Fives(a + b) && Letters(a + b) == Letters(a) + Letters(b)
  {
  }

  lemma {:induction false} FourParts(a: seq<nat>, b: seq<nat>, c: seq<nat>, d: seq<nat>)
    requires Fives(a) && Fives(b) && Fives(c) && Fives(d)
    ensures Fives(a + b + c) && Fives(a + b + c + d)
    ensures Letters(a + b + c + d) == Letters(a) + Letters(b) + Letters(c) + Letters(d)
  {
    LettersJoin(a, b);
    LettersJoin(a + b, c);
    LettersJoin(a + b + c, d);
  }

  lemma {:induction false} LongText()
    ensures "abcdef" + "1" + ("l7aum6echk45n" + "j3s0wdvt2fg8x" + "9yrzpq" + "zd3ryx")
            == "abcdef1l7aum6echk45nj3s0wdvt2fg8x9yrzpqzd3ryx"
  {
  }

  lemma {:induction false} LongLetters()
    ensures Fives(LONG_DATA) && Fives(DATA4) && Fives(LONG_DATA + DATA4)
    ensures "abcdef" + "1" + Letters(LONG_DATA + DATA4) == "abcdef1l7aum6echk45nj3s0wdvt2fg8x9yrzpqzd3ryx"
  {
    Letters1();
    Letters2();
    Letters3();
    Letters4();
    FourParts(DATA1, DATA2, DATA3, DATA4);
    LongText();
  }

  /** The data counts down from 31 to 0. */
  lemma {:induction false} LongData(i: nat)
    requires i < 32
    ensures |LONG_DATA| == 32 && LONG_DATA[i] == 31 - i
  {
  }

  /** `abcdef1l7aum6echk45nj3s0wdvt2fg8x9yrzpqzd3ryx`: the alphabet backwards under the prefix
      `abcdef`. */
  lemma {:induction false} LongPrefix()
    ensures Fives(LONG_DATA) && Encoded("abcdef", LONG_DATA) == "abcdef1l7aum6echk45nj3s0wdvt2fg8x9yrzpqzd3ryx"
    ensures Decoded("abcdef1l7aum6echk45nj3s0wdvt2fg8x9yrzpqzd3ryx") == Some(Parts("abcdef", LONG_DATA))
    ensures |LONG_DATA| == 32 && forall i :: 0 <= i < 32 ==> LONG_DATA[i] == 31 - i
  {
    forall i | 0 <= i < 32
      ensures |LONG_DATA| == 32 && LONG_DATA[i] == 31 - i
    {
      LongData(i);
    }
    LongExpands();
    LongChecks();
    LongLetters();
    ValidString("abcdef", LONG_DATA, DATA4);
  }
}
