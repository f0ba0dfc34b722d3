/** Regrouping a string of fixed-width digits into digits of another width
    (src/address.rs, `convert_bits`). */
module Regroup {
  import opened Types

  // ----- Bit operations on naturals -----

  /** `x << n` before truncation. */
  function Shl(x: nat, n: nat): nat {
    if n == 0 then x else 2 * Shl(x, n - 1)
  }

  /** `x >> n`. */
  function Shr(x: nat, n: nat): nat {
    if n == 0 then x else Shr(x / 2, n - 1)
  }

  /** The low `n` bits of `x`. */
  function Low(x: nat, n: nat): nat {
    if n == 0 then 0 else 2 * Low(x / 2, n - 1) + x % 2
  }

  lemma {:induction false} ShlAdd(x: nat, y: nat, n: nat)
    ensures Shl(x + y, n) == Shl(x, n) + Shl(y, n)
  {
    if n > 0 {
      ShlAdd(x, y, n - 1);
    }
  }

  lemma {:induction false} ShlShl(x: nat, a: nat, b: nat)
    ensures Shl(Shl(x, a), b) == Shl(x, a + b)
  {
    if b > 0 {
      ShlShl(x, a, b - 1);
    }
  }

  lemma {:induction false} ShlZero(n: nat)
    ensures Shl(0, n) == 0
  {
    if n > 0 {
      ShlZero(n - 1);
    }
  }

  lemma {:induction false} LowBound(x: nat, n: nat)
    ensures Low(x, n) < Shl(1, n)
  {
    if n > 0 {
      LowBound(x / 2, n - 1);
    }
  }

  lemma {:induction false} LowLow(x: nat, m: nat, n: nat)
    requires n <= m
    ensures Low(Low(x, m), n) == Low(x, n)
  {
    if n > 0 {
      LowLow(x / 2, m - 1, n - 1);
      assert Low(x, m) / 2 == Low(x / 2, m - 1);
    }
  }

  /** Shifting in `f` new low bits. */
  lemma {:induction false} ShiftIn(x: nat, v: nat, b: nat, f: nat)
    requires v < Shl(1, f)
    ensures Low(Shl(x, f) + v, b + f) == Shl(Low(x, b), f) + v
  {
    if f > 0 {
      assert v / 2 < Shl(1, f - 1);
      ShiftIn(x, v / 2, b, f - 1);
      assert (Shl(x, f) + v) / 2 == Shl(x, f - 1) + v / 2;
      assert (Shl(x, f) + v) % 2 == v % 2;
      assert b + f - 1 == b + (f - 1);
    }
  }

  /** Taking the top `t` of the low `b + t` bits out. */
  lemma {:induction false} ShiftOut(x: nat, b: nat, t: nat)
    ensures Low(x, b + t) == Shl(Low(Shr(x, b), t), b) + Low(x, b)
  {
    if b > 0 {
      ShiftOut(x / 2, b - 1, t);
      assert b + t - 1 == (b - 1) + t;
    }
  }

  /** Equal sums of a shifted part and a low part have equal parts. */
  lemma {:induction false} SameParts(x: nat, d: nat, y: nat, e: nat, n: nat)
    requires Shl(x, n) + d == Shl(y, n) + e && d < Shl(1, n) && e < Shl(1, n)
    ensures x == y && d == e
  {
    if n > 0 {
      SameParts(x, d / 2, y, e / 2, n - 1);
    }
  }

  // ----- Digit strings -----

  ghost predicate Digits(s: seq<nat>, width: nat) {
    forall i :: 0 <= i < |s| ==> s[i] < Shl(1, width)
  }

  /** The number spelled by digits of `width` bits, most significant first. */
  ghost function Value(s: seq<nat>, width: nat): nat {
    if s == [] then 0 else Shl(Value(s[..|s| - 1], width), width) + s[|s| - 1]
  }

  /** How many bits `n` digits of `width` bits have. */
  ghost function BitCount(n: nat, width: nat): nat {
    if n == 0 then 0 else BitCount(n - 1, width) + width
  }

  lemma {:induction false} ValueUnique(s: seq<nat>, t: seq<nat>, width: nat)
    requires |s| == |t| && Digits(s, width) && Digits(t, width) && Value(s, width) == Value(t, width)
    ensures s == t
  {
    if s != [] {
      var k := |s| - 1;
      SameParts(Value(s[..k], width), s[k], Value(t[..k], width), t[k], width);
      ValueUnique(s[..k], t[..k], width);
      assert s == s[..k] + [s[k]] && t == t[..k] + [t[k]];
    }
  }

  lemma {:induction false} ValueAppend(s: seq<nat>, d: nat, width: nat)
    ensures Value(s + [d], width) == Shl(Value(s, width), width) + d
    ensures BitCount(|s + [d]|, width) == BitCount(|s|, width) + width
  {
    assert (s + [d])[..|s|] == s;
  }

  /** How many whole digits a number of bits makes is determined. */
  lemma {:induction false} SameCount(a: nat, x: nat, b: nat, y: nat, width: nat)
    requires BitCount(a, width) + x == BitCount(b, width) + y && x < width && y < width
    ensures a == b && x == y
  {
    if a > 0 && b > 0 {
      SameCount(a - 1, x, b - 1, y, width);
    }
  }

  // ----- The loop -----

  /** `ret` and the low `bits` bits of `acc` together spell `data`. */
  ghost predicate Progress(data: seq<nat>, from: nat, to: nat, ret: seq<nat>, acc: nat, bits: nat) {
    && Digits(ret, to) && BitCount(|data|, from) == BitCount(|ret|, to) + bits
    && Value(data, from) == Shl(Value(ret, to), bits) + Low(acc, bits)
  }

  lemma {:induction false} TakeIn(data: seq<nat>, v: nat, from: nat, to: nat, ret: seq<nat>, acc: nat, bits: nat)
    requires Progress(data, from, to, ret, acc, bits) && v < Shl(1, from) && bits + from <= 32
    ensures Progress(data + [v], from, to, ret, Low(Shl(acc, from) + v, 32), bits + from)
  {
    ValueAppend(data, v, from);
    ShiftIn(acc, v, bits, from);
    LowLow(Shl(acc, from) + v, 32, bits + from);
    ShlAdd(Shl(Value(ret, to), bits), Low(acc, bits), from);
    ShlShl(Value(ret, to), bits, from);
  }

  lemma {:induction false} GiveOut(data: seq<nat>, from: nat, to: nat, ret: seq<nat>, acc: nat, bits: nat)
    requires Progress(data, from, to, ret, acc, bits) && to <= bits
    ensures Progress(data, from, to, ret + [Low(Shr(acc, bits - to), to)], acc, bits - to)
  {
    var d, b := Low(Shr(acc, bits - to), to), bits - to;
    LowBound(Shr(acc, b), to);
    ValueAppend(ret, d, to);
    ShiftOut(acc, b, to);
    ShlAdd(Shl(Value(ret, to), to), d, b);
    ShlShl(Value(ret, to), to, b);
    assert bits == to + b == b + to;
  }

  /** The `bits` low bits of `acc` moved to the top of a digit of `to` bits. */
  lemma {:induction false} LastDigit(acc: nat, bits: nat, to: nat)
    requires bits <= to <= 32
    ensures Low(Low(Shl(acc, to - bits), 32), to) == Shl(Low(acc, bits), to - bits) < Shl(1, to)
  {
    LowLow(Shl(acc, to - bits), 32, to);
    ShlPositive(to - bits);
    ShiftIn(acc, 0, bits, to - bits);
    LowBound(Shl(acc, to - bits), to);
  }

  lemma {:induction false} ShlPositive(n: nat)
    ensures Shl(1, n) > 0
  {
    if n > 0 {
      ShlPositive(n - 1);
    }
  }

  lemma {:induction false} ShlIsZero(x: nat, n: nat)
    ensures Shl(x, n) == 0 <==> x == 0
  {
    if n > 0 {
      ShlIsZero(x, n - 1);
    }
  }

  /** What the two uses of `convert_bits` return: with padding, all the bits followed by fewer
      than `to` zeros; without, all the bits except fewer than `from` zeros. */
  ghost predicate Regrouped(data: seq<nat>, from: nat, to: nat, pad: bool, r: seq<nat>) {
    var have, got := BitCount(|data|, from), BitCount(|r|, to);
    && Digits(data, from) && Digits(r, to)
    && (pad ==> have <= got < have + to && Value(r, to) == Shl(Value(data, from), got - have))
    && (!pad ==> got <= have < got + from && have < got + to && Value(data, from) == Shl(Value(r, to), have - got))
  }

  /** Empty the accumulator into whole digits. */
  method Drain(ret0: seq<nat>, acc: nat, bits0: nat, to: nat, ghost data: seq<nat>, ghost from: nat)
      returns (ret: seq<nat>, bits: nat)
    requires to > 0 && Progress(data, from, to, ret0, acc, bits0)
    ensures Progress(data, from, to, ret, acc, bits) && bits < to
  {
    ret, bits := ret0, bits0;
    while bits >= to
      invariant Progress(data, from, to, ret, acc, bits)
    {
      GiveOut(data, from, to, ret, acc, bits);
      bits := bits - to;
      ret := ret + [Low(Shr(acc, bits), to)];
    }
  }

  lemma {:induction false} Padded(data: seq<nat>, from: nat, to: nat, ret: seq<nat>, acc: nat, bits: nat)
    requires Progress(data, from, to, ret, acc, bits) && 0 < bits < to <= 8 && Digits(data, from)
    ensures Regrouped(data, from, to, true, ret + [Low(Low(Shl(acc, to - bits), 32), to)])
  {
    LastDigit(acc, bits, to);
    var d := Low(Low(Shl(acc, to - bits), 32), to);
    ValueAppend(ret, d, to);
    ShlAdd(Shl(Value(ret, to), bits), Low(acc, bits), to - bits);
    ShlShl(Value(ret, to), bits, to - bits);
  }

  lemma {:induction false} Exact(data: seq<nat>, from: nat, to: nat, ret: seq<nat>, acc: nat, bits: nat)
    requires Progress(data, from, to, ret, acc, bits) && bits < to <= 8 && Digits(data, from)
    ensures bits == 0 ==> Regrouped(data, from, to, true, ret)
    ensures Low(Low(Shl(acc, to - bits), 32), to) == 0 <==> Low(acc, bits) == 0
    ensures bits < from && Low(acc, bits) == 0 ==> Regrouped(data, from, to, false, ret)
  {
    LastDigit(acc, bits, to);
    ShlIsZero(Low(acc, bits), to - bits);
  }

  /** A result without padding exists only if the left-over bits are zero and do not make up
      a digit. */
  lemma {:induction false} Refused(data: seq<nat>, from: nat, to: nat, ret: seq<nat>, acc: nat, bits: nat, r: seq<nat>)
    requires Progress(data, from, to, ret, acc, bits) && bits < to && Regrouped(data, from, to, false, r)
    ensures bits < from && Low(acc, bits) == 0
  {
    var left := BitCount(|data|, from) - BitCount(|r|, to);
    SameCount(|r|, left, |ret|, bits, to);
    LowBound(acc, bits);
    ShlPositive(bits);
    SameParts(Value(r, to), 0, Value(ret, to), Low(acc, bits), bits);
  }

  /** Regroup; refuse a digit that is too wide and, without padding, left-over bits that are
      not zero or make up a digit. */
  method ConvertBits(data: seq<nat>, from: nat, to: nat, pad: bool) returns (r: Option<seq<nat>>)
    requires 1 <= from <= 8 && 1 <= to <= 8
    ensures r.Some? ==> Regrouped(data, from, to, pad, r.value)
    ensures r.None? ==> forall s :: !Regrouped(data, from, to, pad, s)
    ensures pad && Digits(data, from) ==> r.Some?
  {
    var acc: nat, bits: nat := 0, 0;
    var ret: seq<nat> := [];
    for i := 0 to |data|
      invariant Progress(data[..i], from, to, ret, acc, bits) && bits < to && Digits(data[..i], from)
    {
      if Shr(data[i], from) != 0 {
        TooWide(data, from, i);
        return None;
      }
      NextDigit(data, i, from, to, ret, acc, bits);
      acc := Low(Shl(acc, from) + data[i], 32);
      ret, bits := Drain(ret, acc, bits + from, to, data[..i + 1], from);
    }
    assert data[..|data|] == data;
    r := Finish(data, from, to, pad, ret, acc, bits);
  }

  lemma {:induction false} NextDigit(data: seq<nat>, i: nat, from: nat, to: nat, ret: seq<nat>, acc: nat, bits: nat)
    requires i < |data| && Progress(data[..i], from, to, ret, acc, bits) && Digits(data[..i], from)
    requires Shr(data[i], from) == 0 && bits + from <= 32
    ensures Progress(data[..i + 1], from, to, ret, Low(Shl(acc, from) + data[i], 32), bits + from)
    ensures Digits(data[..i + 1], from)
  {
    ShrZero(data[i], from);
    TakeIn(data[..i], data[i], from, to, ret, acc, bits);
    assert data[..i + 1] == data[..i] + [data[i]];
  }

  /** Pad, or check what is left over. */
  method Finish(data: seq<nat>, from: nat, to: nat, pad: bool, ret: seq<nat>, acc: nat, bits: nat)
      returns (r: Option<seq<nat>>)
    requires Progress(data, from, to, ret, acc, bits) && bits < to <= 8 && Digits(data, from)
    ensures r.Some? ==> Regrouped(data, from, to, pad, r.value)
    ensures r.None? ==> forall s :: !Regrouped(data, from, to, pad, s)
    ensures pad && Digits(data, from) ==> r.Some?
  {
    Exact(data, from, to, ret, acc, bits);
    var last := Low(Low(Shl(acc, to - bits), 32), to);
    if pad {
      if bits > 0 {
        Padded(data, from, to, ret, acc, bits);
        return Some(ret + [last]);
      }
    } else if bits >= from || last != 0 {
      forall s
        ensures !Regrouped(data, from, to, false, s)
      {
        if Regrouped(data, from, to, false, s) {
          Refused(data, from, to, ret, acc, bits, s);
        }
      }
      return None;
    }
    r := Some(ret);
  }

  lemma {:induction false} ShrZero(x: nat, n: nat)
    ensures Shr(x, n) == 0 <==> x < Shl(1, n)
  {
    if n > 0 {
      ShrZero(x / 2, n - 1);
    }
  }

  lemma {:induction false} TooWide(data: seq<nat>, from: nat, i: nat)
    requires i < |data| && Shr(data[i], from) != 0
    ensures !Digits(data, from)
  {
    ShrZero(data[i], from);
  }

  // ----- Both directions undo each other -----

  /** There is at most one regrouping. */
  lemma {:induction false} RegroupedUnique(data: seq<nat>, from: nat, to: nat, pad: bool, r: seq<nat>, s: seq<nat>)
    requires to > 0 && Regrouped(data, from, to, pad, r) && Regrouped(data, from, to, pad, s)
    ensures r == s
  {
    var have := BitCount(|data|, from);
    if pad {
      SameCount(|r|, have + to - 1 - BitCount(|r|, to), |s|, have + to - 1 - BitCount(|s|, to), to);
    } else {
      SameCount(|r|, have - BitCount(|r|, to), |s|, have - BitCount(|s|, to), to);
      ShlPositive(have - BitCount(|r|, to));
      SameParts(Value(r, to), 0, Value(s, to), 0, have - BitCount(|r|, to));
    }
    ValueUnique(r, s, to);
  }

  /** Digits can always be regrouped with padding. */
  lemma {:induction false} PaddedExists(data: seq<nat>, from: nat, to: nat) returns (r: seq<nat>)
    requires 1 <= from <= 8 && 1 <= to <= 8 && Digits(data, from)
    ensures Regrouped(data, from, to, true, r)
  {
    var ret, acc, bits := ProgressExists(data, from, to);
    Exact(data, from, to, ret, acc, bits);
    if bits == 0 {
      r := ret;
    } else {
      Padded(data, from, to, ret, acc, bits);
      r := ret + [Low(Low(Shl(acc, to - bits), 32), to)];
    }
  }

  lemma {:induction false} ProgressExists(data: seq<nat>, from: nat, to: nat)
      returns (ret: seq<nat>, acc: nat, bits: nat)
    requires 1 <= from <= 8 && 1 <= to <= 8 && Digits(data, from)
    ensures Progress(data, from, to, ret, acc, bits) && bits < to
  {
    if data == [] {
      ret, acc, bits := [], 0, 0;
    } else {
      var k := |data| - 1;
      ret, acc, bits := ProgressExists(data[..k], from, to);
      TakeIn(data[..k], data[k], from, to, ret, acc, bits);
      assert data == data[..k] + [data[k]];
      acc := Low(Shl(acc, from) + data[k], 32);
      ret, bits := DrainExists(data, from, to, ret, acc, bits + from);
    }
  }

  lemma {:induction false} DrainExists(data: seq<nat>, from: nat, to: nat, ret0: seq<nat>, acc: nat, bits0: nat)
      returns (ret: seq<nat>, bits: nat)
    requires to > 0 && Progress(data, from, to, ret0, acc, bits0)
    ensures Progress(data, from, to, ret, acc, bits) && bits < to
    decreases bits0
  {
    ret, bits := ret0, bits0;
    if bits >= to {
      GiveOut(data, from, to, ret, acc, bits);
      ret, bits := DrainExists(data, from, to, ret + [Low(Shr(acc, bits - to), to)], acc, bits - to);
    }
  }

  /** Symbols with padding and bytes without are the same relation read in opposite
      directions. */
  lemma {:induction false} RegroupInverse(bytes: seq<nat>, symbols: seq<nat>)
    ensures Regrouped(bytes, 8, 5, true, symbols) <==> Regrouped(symbols, 5, 8, false, bytes)
  {
  }

  /** Bytes to symbols and back. */
  method BytesRoundTrip(bytes: seq<nat>) returns (symbols: Option<seq<nat>>, back: Option<seq<nat>>)
    requires Digits(bytes, 8)
    ensures symbols.Some? && back == Some(bytes)
  {
    symbols := ConvertBits(bytes, 8, 5, true);
    back := ConvertBits(symbols.value, 5, 8, false);
    RegroupInverse(bytes, symbols.value);
    RegroupedUnique(symbols.value, 5, 8, false, back.value, bytes);
  }

  /** Accepted symbols to bytes and back. */
  method SymbolsRoundTrip(symbols: seq<nat>) returns (bytes: Option<seq<nat>>, back: Option<seq<nat>>)
    ensures bytes.Some? ==> back == Some(symbols)
  {
    back := None;
    bytes := ConvertBits(symbols, 5, 8, false);
    if bytes.Some? {
      back := ConvertBits(bytes.value, 8, 5, true);
      RegroupInverse(bytes.value, symbols);
      RegroupedUnique(bytes.value, 8, 5, true, back.value, symbols);
    }
  }
}
