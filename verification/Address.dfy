/** Bech32m addresses (src/address.rs), as in BIP-350: a prefix, the separator `1`, five-bit
    symbols as letters, and a checksum of six more. */
module Address {
  import opened Types
  import opened Checksum

  const ADDRESS_PAYLOAD_LEN: nat := 32
  const HASH_SIZE: nat := 64

  // ----- Letters -----

  predicate IsUpper(c: char) { 'A' <= c <= 'Z' }

  predicate IsLower(c: char) { 'a' <= c <= 'z' }

  function Lower(c: char): char {
    if IsUpper(c) then c - 'A' + 'a' else c
  }

  function LowerAll(s: string): (t: string)
    ensures |t| == |s| && forall i :: 0 <= i < |s| ==> t[i] == Lower(s[i])
  {
    seq(|s|, i requires 0 <= i < |s| => Lower(s[i]))
  }

  predicate MixedCase(s: string) {
    (exists i :: 0 <= i < |s| && IsUpper(s[i])) && (exists i :: 0 <= i < |s| && IsLower(s[i]))
  }

  /** The alphabet. */
  function Letter(v: nat): char
    requires v < 32
  {
    match v
    case 0 => 'q'
    case 1 => 'p'
    case 2 => 'z'
    case 3 => 'r'
    case 4 => 'y'
    case 5 => '9'
    case 6 => 'x'
    case 7 => '8'
    case 8 => 'g'
    case 9 => 'f'
    case 10 => '2'
    case 11 => 't'
    case 12 => 'v'
    case 13 => 'd'
    case 14 => 'w'
    case 15 => '0'
    case 16 => 's'
    case 17 => '3'
    case 18 => 'j'
    case 19 => 'n'
    case 20 => '5'
    case 21 => '4'
    case 22 => 'k'
    case 23 => 'h'
    case 24 => 'c'
    case 25 => 'e'
    case 26 => '6'
    case 27 => 'm'
    case 28 => 'u'
    case 29 => 'a'
    case 30 => '7'
    case _ => 'l'
  }

  /** The position of a letter in the alphabet, or 32. */
  function Index(c: char): nat {
    match c
    case 'q' => 0
    case 'p' => 1
    case 'z' => 2
    case 'r' => 3
    case 'y' => 4
    case '9' => 5
    case 'x' => 6
    case '8' => 7
    case 'g' => 8
    case 'f' => 9
    case '2' => 10
    case 't' => 11
    case 'v' => 12
    case 'd' => 13
    case 'w' => 14
    case '0' => 15
    case 's' => 16
    case '3' => 17
    case 'j' => 18
    case 'n' => 19
    case '5' => 20
    case '4' => 21
    case 'k' => 22
    case 'h' => 23
    case 'c' => 24
    case 'e' => 25
    case '6' => 26
    case 'm' => 27
    case 'u' => 28
    case 'a' => 29
    case '7' => 30
    case 'l' => 31
    case _ => 32
  }

  /** No letter occurs twice, none is `1` and none is upper-case. */
  lemma {:induction false} LetterFacts(v: nat)
    requires v < 32
    ensures Index(Letter(v)) == v && Letter(v) != '1' && !IsUpper(Letter(v))
  {
  }

  /** The alphabet of BIP-173, in order. */
  lemma {:induction false} AlphabetIs(v: nat)
    requires v < 32
    ensures Letter(v) == "qpzry9x8gf2tvdw0s3jn54khce6mua7l"[v]
  {
  }

  lemma {:induction false} IndexFacts(c: char)
    ensures Index(c) <= 32 && (Index(c) < 32 ==> Letter(Index(c)) == c)
  {
  }

  function Letters(data: seq<nat>): (t: string)
    requires forall i :: 0 <= i < |data| ==> data[i] < 32
    ensures |t| == |data| && forall i :: 0 <= i < |t| ==> t[i] == Letter(data[i])
  {
    seq(|data|, i requires 0 <= i < |data| => Letter(data[i]))
  }

  function Indices(t: string): (data: seq<nat>)
    ensures |data| == |t| && forall i :: 0 <= i < |t| ==> data[i] == Index(t[i])
  {
    seq(|t|, i requires 0 <= i < |t| => Index(t[i]))
  }

  lemma {:induction false} IndicesOfLetters(data: seq<nat>)
    requires Fives(data)
    ensures Indices(Letters(data)) == data
    ensures forall i :: 0 <= i < |data| ==> Letters(data)[i] != '1' && !IsUpper(Letters(data)[i])
  {
    forall i | 0 <= i < |data|
      ensures Indices(Letters(data))[i] == data[i] && Letters(data)[i] != '1' && !IsUpper(Letters(data)[i])
    {
      LetterFacts(data[i]);
    }
  }

  lemma {:induction false} LettersOfIndices(t: string)
    requires Fives(Indices(t))
    ensures Letters(Indices(t)) == t
  {
    forall i | 0 <= i < |t|
      ensures Letters(Indices(t))[i] == t[i]
    {
      assert Indices(t)[i] < 32;
      IndexFacts(t[i]);
    }
  }

  // ----- Splitting at the last separator -----

  /** The position of the last `1`, or the length if there is none. */
  function LastOne(s: string): (k: nat)
    ensures k <= |s| && (k < |s| ==> s[k] == '1') && forall i :: (if k < |s| then k else -1) < i < |s| ==> s[i] != '1'
  {
    if s == [] then 0
    else if s[|s| - 1] == '1' then |s| - 1
    else
      var k := LastOne(s[..|s| - 1]);
      if k < |s| - 1 then k else |s|
  }

  lemma {:induction false} LastOneIs(p: string, t: string)
    requires forall i :: 0 <= i < |t| ==> t[i] != '1'
    ensures LastOne(p + "1" + t) == |p|
  {
    var s := p + "1" + t;
    assert s[|p|] == '1';
    assert forall i :: |p| < i < |s| ==> s[i] == t[i - |p| - 1];
  }

  // ----- Encoding and decoding -----

  /** What the prefix contributes to the checksum. */
  function HrpExpand(hrp: string): (x: seq<nat>)
    ensures Fives(x)
  {
    seq(|hrp|, i requires 0 <= i < |hrp| => hrp[i] as nat % 256 / 32)
    + [0] + seq(|hrp|, i requires 0 <= i < |hrp| => hrp[i] as nat % 32)
  }

  /** The prefix contributes the high bits of its bytes, a zero, and their low five bits; the
      two halves together are the byte. */
  lemma {:induction false} HrpExpandIs(hrp: string, i: nat)
    ensures |HrpExpand(hrp)| == 2 * |hrp| + 1 && HrpExpand(hrp)[|hrp|] == 0
    ensures i < |hrp| ==> 32 * HrpExpand(hrp)[i] + HrpExpand(hrp)[|hrp| + 1 + i] == hrp[i] as nat % 256
    ensures Fives(HrpExpand(hrp))
  {
    if i < |hrp| {
      HighAndLow(hrp[i] as nat);
    }
  }

  lemma {:induction false} HighAndLow(n: nat)
    ensures 32 * (n % 256 / 32) + n % 32 == n % 256
  {
    assert n % 32 == n % 256 % 32 by {
      var q := n / 256;
      assert n == 32 * (8 * q) + n % 256;
    }
  }

  /** The address string of `data` under `hrp`. */
  function Encoded(hrp: string, data: seq<nat>): string
    requires Fives(data)
  {
    hrp + "1" + Letters(data + CheckDigits(HrpExpand(hrp) + data))
  }

  datatype Parts = Parts(hrp: string, data: seq<nat>)

  /** Long enough, all letters known, and the checksum right. */
  predicate Accepted(hrp: string, values: seq<nat>) {
    |values| >= 6 && (forall i :: 0 <= i < |values| ==> values[i] < 32) && Checks(HrpExpand(hrp) + values)
  }

  function DecodedTail(hrp: string, values: seq<nat>): Option<Parts> {
    if Accepted(hrp, values) then Some(Parts(hrp, values[..|values| - 6])) else None
  }

  function DecodedLow(low: string): Option<Parts> {
    var k := LastOne(low);
    if k == |low| || k == 0 then None else DecodedTail(low[..k], Indices(low[k + 1..]))
  }

  /** Prefix and data of an address string. */
  function Decoded(addr: string): Option<Parts> {
    if MixedCase(addr) then None else DecodedLow(LowerAll(addr))
  }

  lemma {:induction false} LowerIdempotent(s: string)
    ensures LowerAll(s) == s <==> forall i :: 0 <= i < |s| ==> !IsUpper(s[i])
    ensures LowerAll(LowerAll(s)) == LowerAll(s)
  {
    if LowerAll(s) == s {
      forall i | 0 <= i < |s|
        ensures !IsUpper(s[i])
      {
        assert LowerAll(s)[i] == s[i];
      }
    }
  }

  lemma {:induction false} FullIsAccepted(hrp: string, data: seq<nat>)
    requires Fives(data)
    ensures var full := data + CheckDigits(HrpExpand(hrp) + data);
            Fives(full) && DecodedTail(hrp, full) == Some(Parts(hrp, data))
  {
    var c := CheckDigits(HrpExpand(hrp) + data);
    CheckDigitsPin(HrpExpand(hrp) + data, c);
    assert HrpExpand(hrp) + (data + c) == HrpExpand(hrp) + data + c;
    assert (data + c)[..|data + c| - 6] == data;
  }

  lemma {:induction false} LowerDecodes(hrp: string, data: seq<nat>)
    requires Fives(data) && LowerAll(hrp) == hrp
    ensures Decoded(Encoded(hrp, data)) == if hrp == [] then None else Some(Parts(hrp, data))
  {
    FullIsAccepted(hrp, data);
    var full := data + CheckDigits(HrpExpand(hrp) + data);
    var addr := Encoded(hrp, data);
    EncodedIsLower(hrp, full);
    IndicesOfLetters(full);
    LastOneIs(hrp, Letters(full));
    assert addr[..|hrp|] == hrp && addr[|hrp| + 1..] == Letters(full);
  }

  /** Decoding undoes encoding exactly for a prefix that is not empty and has no upper-case
      letter. */
  lemma {:induction false} DecodedOfEncoded(hrp: string, data: seq<nat>)
    requires Fives(data)
    ensures Decoded(Encoded(hrp, data)) == Some(Parts(hrp, data)) <==> hrp != [] && LowerAll(hrp) == hrp
  {
    if LowerAll(hrp) == hrp {
      LowerDecodes(hrp, data);
    } else {
      DecodedIsLower(Encoded(hrp, data));
    }
  }

  lemma {:induction false} EncodedIsLower(hrp: string, full: seq<nat>)
    requires Fives(full) && LowerAll(hrp) == hrp
    ensures LowerAll(hrp + "1" + Letters(full)) == hrp + "1" + Letters(full)
    ensures !MixedCase(hrp + "1" + Letters(full))
  {
    var addr := hrp + "1" + Letters(full);
    LowerIdempotent(hrp);
    IndicesOfLetters(full);
    forall i | 0 <= i < |addr|
      ensures !IsUpper(addr[i])
    {
      if i > |hrp| {
        assert addr[i] == Letters(full)[i - |hrp| - 1];
      }
    }
    LowerIdempotent(addr);
  }

  /** A decoded prefix has no upper-case letter. */
  lemma {:induction false} DecodedIsLower(addr: string)
    ensures Decoded(addr).Some? ==> LowerAll(Decoded(addr).value.hrp) == Decoded(addr).value.hrp
  {
    LowerIdempotent(addr);
    var low := LowerAll(addr);
    LowerIdempotent(low);
    if Decoded(addr).Some? {
      LowerIdempotent(low[..LastOne(low)]);
    }
  }

  /** What an accepted string looks like. */
  lemma {:induction false} DecodedParts(addr: string) returns (hrp: string, tail: string)
    requires Decoded(addr).Some?
    ensures LowerAll(addr) == hrp + "1" + tail && Accepted(hrp, Indices(tail))
    ensures Decoded(addr) == Some(Parts(hrp, Indices(tail)[..|tail| - 6]))
  {
    hrp, tail := LowParts(LowerAll(addr));
  }

  lemma {:induction false} LowParts(low: string) returns (hrp: string, tail: string)
    requires DecodedLow(low).Some?
    ensures low == hrp + "1" + tail && Accepted(hrp, Indices(tail))
    ensures DecodedLow(low) == Some(Parts(hrp, Indices(tail)[..|tail| - 6]))
  {
    var k := LastOne(low);
    hrp, tail := low[..k], low[k + 1..];
    SplitAtOne(low, k);
    TailParts(hrp, Indices(tail));
  }

  lemma {:induction false} SplitAtOne(low: string, k: nat)
    requires k < |low| && low[k] == '1'
    ensures low == low[..k] + "1" + low[k + 1..]
  {
  }

  lemma {:induction false} TailParts(hrp: string, values: seq<nat>)
    requires DecodedTail(hrp, values).Some?
    ensures Accepted(hrp, values) && DecodedTail(hrp, values) == Some(Parts(hrp, values[..|values| - 6]))
  {
  }

  lemma {:induction false} IndicesInParts(s: string, t: string)
    ensures Indices(s + t) == Indices(s) + Indices(t)
  {
  }

  /** An accepted string is, but for its case, the encoding of what it decodes to: no two
      accepted strings say the same thing. */
  lemma {:induction false} EncodedOfDecoded(addr: string)
    requires Decoded(addr).Some?
    ensures var p := Decoded(addr).value; Fives(p.data) && Encoded(p.hrp, p.data) == LowerAll(addr)
  {
    var hrp, tail := DecodedParts(addr);
    var values, n := Indices(tail), |tail| - 6;
    var data, c := values[..n], values[n..];
    assert values == data + c;
    assert c == CheckDigits(HrpExpand(hrp) + data) by {
      assert HrpExpand(hrp) + values == HrpExpand(hrp) + data + c;
      CheckDigitsPin(HrpExpand(hrp) + data, c);
    }
    LettersOfIndices(tail);
  }

  function Upper(c: char): char {
    if IsLower(c) then c - 'a' + 'A' else c
  }

  function UpperAll(s: string): (t: string)
    ensures |t| == |s| && forall i :: 0 <= i < |s| ==> t[i] == Upper(s[i])
  {
    seq(|s|, i requires 0 <= i < |s| => Upper(s[i]))
  }

  lemma {:induction false} UpperFacts(c: char)
    ensures !IsLower(Upper(c)) && (!IsUpper(c) ==> Lower(Upper(c)) == c)
    ensures !IsLower(c) ==> Upper(Lower(c)) == c
  {
  }

  /** One case throughout: the strings that lower-casing takes to `low` without mixing. */
  lemma {:induction false} OneCase(addr: string, low: string)
    requires LowerAll(low) == low
    ensures !MixedCase(addr) && LowerAll(addr) == low <==> addr == low || addr == UpperAll(low)
  {
    LowerIdempotent(addr);
    LowerIdempotent(low);
    if addr == UpperAll(low) {
      forall i | 0 <= i < |addr|
        ensures !IsLower(addr[i]) && Lower(addr[i]) == low[i]
      {
        UpperFacts(low[i]);
      }
      assert LowerAll(addr) == low;
    }
    if !MixedCase(addr) && LowerAll(addr) == low && addr != low {
      assert forall i :: 0 <= i < |addr| ==> !IsLower(addr[i]);
      forall i | 0 <= i < |addr|
        ensures addr[i] == Upper(low[i])
      {
        UpperFacts(addr[i]);
        assert LowerAll(addr)[i] == low[i];
      }
      assert addr == UpperAll(low);
    }
  }

  /** The string is the encoding of a lower-case prefix and data, or that encoding in upper case. */
  ghost predicate Spells(addr: string, p: Parts) {
    && p.hrp != [] && LowerAll(p.hrp) == p.hrp && Fives(p.data)
    && (addr == Encoded(p.hrp, p.data) || addr == UpperAll(Encoded(p.hrp, p.data)))
  }

  /** The strings that decode to a prefix and data are exactly the two that spell them. */
  lemma {:induction false} AcceptedExactly(addr: string, p: Parts)
    ensures Decoded(addr) == Some(p) <==> Spells(addr, p)
  {
    if Decoded(addr) == Some(p) {
      EncodedOfDecoded(addr);
      DecodedIsLower(addr);
      LowerIdempotent(addr);
      OneCase(addr, LowerAll(addr));
    } else if p.hrp != [] && LowerAll(p.hrp) == p.hrp && Fives(p.data) {
      var e := Encoded(p.hrp, p.data);
      EncodedIsLower(p.hrp, p.data + CheckDigits(HrpExpand(p.hrp) + p.data));
      OneCase(addr, e);
      LowerDecodes(p.hrp, p.data);
      if addr == e || addr == UpperAll(e) {
        CaseDoesNotMatter(addr, e);
      }
    }
  }

  lemma {:induction false} CaseDoesNotMatter(s: string, t: string)
    requires !MixedCase(s) && !MixedCase(t) && LowerAll(s) == LowerAll(t)
    ensures Decoded(s) == Decoded(t)
  {
  }

  /** Two accepted strings with the same prefix that differ, but for case, within six
      consecutive symbols at most are the same. */
  lemma {:induction false} BurstRefused(addr1: string, addr2: string, hrp: string, before: string, w1: string,
                                        w2: string, after: string)
    requires Decoded(addr1).Some? && Decoded(addr2).Some?
    requires Decoded(addr1).value.hrp == hrp && Decoded(addr2).value.hrp == hrp && |w1| == 6 && |w2| == 6
    requires LowerAll(addr1) == hrp + "1" + (before + w1 + after)
    requires LowerAll(addr2) == hrp + "1" + (before + w2 + after)
    ensures LowerAll(addr1) == LowerAll(addr2)
  {
    AcceptedTail(addr1, hrp, before, w1, after);
    AcceptedTail(addr2, hrp, before, w2, after);
    BurstChecks(HrpExpand(hrp) + Indices(before), Indices(w1), Indices(w2), Indices(after));
    LettersOfIndices(w1);
    LettersOfIndices(w2);
  }

  lemma {:induction false} AcceptedTail(addr: string, hrp: string, before: string, w: string, after: string)
    requires Decoded(addr).Some? && Decoded(addr).value.hrp == hrp
    requires LowerAll(addr) == hrp + "1" + (before + w + after)
    ensures Fives(Indices(w)) && Checks(HrpExpand(hrp) + Indices(before) + Indices(w) + Indices(after))
  {
    var hrp2, tail := DecodedParts(addr);
    assert tail == LowerAll(addr)[|hrp| + 1..] == before + w + after;
    IndicesInParts(before + w, after);
    IndicesInParts(before, w);
    MiddleChecks(hrp, Indices(before), Indices(w), Indices(after));
  }

  lemma {:induction false} MiddleChecks(hrp: string, before: seq<nat>, w: seq<nat>, after: seq<nat>)
    requires Accepted(hrp, before + w + after)
    ensures Fives(w) && Checks(HrpExpand(hrp) + before + w + after)
  {
    var values := before + w + after;
    assert HrpExpand(hrp) + values == HrpExpand(hrp) + before + w + after;
    assert forall i :: 0 <= i < |w| ==> w[i] == values[|before| + i];
  }

  // ----- The loops -----

  /** Append a letter per symbol, then the checksum's. */
  method Encode(hrp: string, data: seq<nat>) returns (addr: string)
    requires Fives(data)
    ensures addr == Encoded(hrp, data)
    ensures hrp != [] && LowerAll(hrp) == hrp ==> Spells(addr, Parts(hrp, data))
  {
    var values := HrpExpand(hrp) + data;
    var checksum := RunPolymod(Symbols(values + [0, 0, 0, 0, 0, 0]));
    ZerosAppended(values);
    var digits := Numbers(Unpacked(checksum ^ BECH32M_CONST));
    addr := hrp + "1";
    var full := data + digits;
    for i := 0 to |full|
      invariant addr == hrp + "1" + Letters(full)[..i]
    {
      addr := addr + [Letter(full[i])];
    }
    assert Letters(full)[..|full|] == Letters(full);
  }

  lemma {:induction false} ZerosAppended(values: seq<nat>)
    ensures Symbols(values + [0, 0, 0, 0, 0, 0]) == Symbols(values) + ZEROS
  {
    assert Symbols([0, 0, 0, 0, 0, 0]) == ZEROS by {
      assert ToSymbol(0) == 0;
    }
    assert Symbols(values + [0, 0, 0, 0, 0, 0]) == Symbols(values) + Symbols([0, 0, 0, 0, 0, 0]);
  }

  /** Look every letter up, stopping at the first unknown one. */
  method LookUp(tail: string) returns (values: Option<seq<nat>>)
    ensures values == if Fives(Indices(tail)) then Some(Indices(tail)) else None
  {
    var found: seq<nat> := [];
    for i := 0 to |tail|
      invariant found == Indices(tail)[..i] && Fives(found)
    {
      var v := Index(tail[i]);
      if v >= 32 {
        assert Indices(tail)[i] >= 32;
        return None;
      }
      found := found + [v];
    }
    assert Indices(tail)[..|tail|] == Indices(tail);
    values := Some(found);
  }

  /** Prefix and data of a string that spells some, and none for any other. */
  method Decode(addr: string) returns (parts: Option<Parts>)
    ensures parts == Decoded(addr) && forall p :: parts == Some(p) <==> Spells(addr, p)
  {
    forall p
      ensures Decoded(addr) == Some(p) <==> Spells(addr, p)
    {
      AcceptedExactly(addr, p);
    }
    if MixedCase(addr) {
      return None;
    }
    var low := LowerAll(addr);
    var k := LastOne(low);
    if k == |low| || k == 0 {
      return None;
    }
    parts := DecodeTail(low[..k], low[k + 1..]);
  }

  /** Check length, letters and checksum of what follows the separator. */
  method DecodeTail(hrp: string, tail: string) returns (parts: Option<Parts>)
    ensures parts == DecodedTail(hrp, Indices(tail))
  {
    if |tail| < 6 {
      return None;
    }
    var values := LookUp(tail);
    if values.None? {
      return None;
    }
    var chk := RunPolymod(Symbols(HrpExpand(hrp) + values.value));
    if chk != BECH32M_CONST {
      return None;
    }
    parts := Some(Parts(hrp, values.value[..|tail| - 6]));
  }
}
