/** Addresses as names of key fingerprints (src/address.rs): the bech32m form, the legacy
    hexadecimal form, and when two strings name the same key. */
module Fingerprint {
  import opened Types
  import opened Regroup
  import opened Checksum
  import opened Address

  ghost predicate Bytes(p: seq<nat>) {
    forall i :: 0 <= i < |p| ==> p[i] < 256
  }

  lemma {:induction false} BytesAreDigits(p: seq<nat>)
    ensures Bytes(p) <==> Digits(p, 8)
  {
    assert Shl(1, 8) == 256;
  }

  lemma {:induction false} FivesAreDigits(s: seq<nat>)
    ensures Fives(s) <==> Digits(s, 5)
  {
    assert Shl(1, 5) == 32;
  }

  // ----- The bech32m form -----

  /** `data` regroups into the 32 bytes `p`. */
  ghost predicate Carries(data: seq<nat>, p: seq<nat>) {
    |p| == ADDRESS_PAYLOAD_LEN && Regrouped(data, 5, 8, false, p)
  }

  ghost function PayloadOfData(data: seq<nat>): Option<seq<nat>> {
    if exists p :: Carries(data, p) then var p :| Carries(data, p); Some(p) else None
  }

  lemma {:induction false} PayloadOfDataIs(data: seq<nat>, p: seq<nat>)
    requires Carries(data, p)
    ensures PayloadOfData(data) == Some(p)
  {
    RegroupedUnique(data, 5, 8, false, PayloadOfData(data).value, p);
  }

  /** The 32 bytes an address string carries. */
  ghost function Payload(addr: string): Option<seq<nat>> {
    match Decoded(addr)
    case None => None
    case Some(parts) => if parts.hrp != "hsn" then None else PayloadOfData(parts.data)
  }

  ghost function SymbolsOf(p: seq<nat>): (s: seq<nat>)
    requires Bytes(p)
    ensures Regrouped(p, 8, 5, true, s) && Fives(s)
  {
    assert exists s :: Regrouped(p, 8, 5, true, s) by {
      BytesAreDigits(p);
      var s := PaddedExists(p, 8, 5);
    }
    var s :| Regrouped(p, 8, 5, true, s);
    FivesAreDigits(s);
    s
  }

  /** The one lower-case address string of 32 bytes. */
  ghost function AddressOf(p: seq<nat>): string
    requires Bytes(p)
  {
    Encoded("hsn", SymbolsOf(p))
  }

  /** Decoding the address of 32 bytes gives them back. */
  lemma {:induction false} PayloadOfAddress(p: seq<nat>)
    requires Bytes(p) && |p| == ADDRESS_PAYLOAD_LEN
    ensures Payload(AddressOf(p)) == Some(p)
  {
    var s := SymbolsOf(p);
    assert LowerAll("hsn") == "hsn";
    DecodedOfEncoded("hsn", s);
    RegroupInverse(p, s);
    PayloadOfDataIs(s, p);
  }

  /** Every string that carries a payload is, but for its case, that payload's address. */
  lemma {:induction false} AddressOfPayload(addr: string)
    requires Payload(addr).Some?
    ensures var p := Payload(addr).value; Bytes(p) && |p| == ADDRESS_PAYLOAD_LEN && AddressOf(p) == LowerAll(addr)
  {
    var data := Decoded(addr).value.data;
    var p := Payload(addr).value;
    assert Carries(data, p);
    BytesAreDigits(p);
    RegroupInverse(p, data);
    RegroupedUnique(p, 8, 5, true, SymbolsOf(p), data);
    EncodedOfDecoded(addr);
  }

  method DecodeAddress(addr: string) returns (p: Option<seq<nat>>)
    ensures p == Payload(addr)
  {
    var parts := Decode(addr);
    if parts.None? || parts.value.hrp != "hsn" {
      return None;
    }
    var bytes := ConvertBits(parts.value.data, 5, 8, false);
    if bytes.None? {
      return None;
    }
    if |bytes.value| != ADDRESS_PAYLOAD_LEN {
      OtherLength(parts.value.data, bytes.value);
      return None;
    }
    PayloadOfDataIs(parts.value.data, bytes.value);
    p := bytes;
  }

  lemma {:induction false} OtherLength(data: seq<nat>, r: seq<nat>)
    requires Regrouped(data, 5, 8, false, r) && |r| != ADDRESS_PAYLOAD_LEN
    ensures PayloadOfData(data) == None
  {
    if PayloadOfData(data).Some? {
      RegroupedUnique(data, 5, 8, false, PayloadOfData(data).value, r);
    }
  }

  /** The address of a 512-bit digest: its first 32 bytes. */
  method EncodeHash(h: seq<nat>) returns (addr: string)
    requires |h| == HASH_SIZE && Bytes(h)
    ensures addr == AddressOf(h[..ADDRESS_PAYLOAD_LEN])
    ensures Payload(addr) == Some(h[..ADDRESS_PAYLOAD_LEN])
  {
    var payload := h[..ADDRESS_PAYLOAD_LEN];
    BytesAreDigits(payload);
    var data := ConvertBits(payload, 8, 5, true);
    RegroupedUnique(payload, 8, 5, true, data.value, SymbolsOf(payload));
    addr := Encode("hsn", data.value);
    PayloadOfAddress(payload);
  }

  // ----- The legacy form -----

  /** The value of a hexadecimal digit of either case, or 16. */
  function HexIndex(c: char): (n: nat)
    ensures n <= 16
  {
    if '0' <= c <= '9' then (c - '0') as nat
    else if 'a' <= c <= 'f' then (c - 'a') as nat + 10
    else if 'A' <= c <= 'F' then (c - 'A') as nat + 10
    else 16
  }

  function HexChar(n: nat): (c: char)
    requires n < 16
    ensures HexIndex(c) == n
  {
    if n < 10 then '0' + n as char else 'a' + (n - 10) as char
  }

  predicate AllHex(s: string) {
    |s| % 2 == 0 && forall i :: 0 <= i < |s| ==> HexIndex(s[i]) < 16
  }

  function FromHex(s: string): (b: seq<nat>)
    requires AllHex(s)
    ensures |b| == |s| / 2 && forall i :: 0 <= i < |b| ==> b[i] == 16 * HexIndex(s[2 * i]) + HexIndex(s[2 * i + 1])
  {
    seq(|s| / 2, i requires 0 <= i < |s| / 2 => 16 * HexIndex(s[2 * i]) + HexIndex(s[2 * i + 1]))
  }

  function ToHex(b: seq<nat>): (s: string)
    requires Bytes(b)
    ensures |s| == 2 * |b|
    ensures forall i :: 0 <= i < |b| ==> HexIndex(s[2 * i]) == b[i] / 16 && HexIndex(s[2 * i + 1]) == b[i] % 16
  {
    if b == [] then "" else ToHex(b[..|b| - 1]) + [HexChar(b[|b| - 1] / 16), HexChar(b[|b| - 1] % 16)]
  }

  lemma {:induction false} HexRoundTrip(b: seq<nat>)
    requires Bytes(b)
    ensures AllHex(ToHex(b)) && FromHex(ToHex(b)) == b
  {
    var s := ToHex(b);
    forall i | 0 <= i < |s|
      ensures HexIndex(s[i]) < 16
    {
      assert s[i] == s[2 * (i / 2)] || s[i] == s[2 * (i / 2) + 1];
    }
  }

  function LegacyOf(h: seq<nat>): string
    requires Bytes(h)
  {
    "hsn:" + ToHex(h)
  }

  function LegacyPayload(addr: string): Option<seq<nat>> {
    if |addr| == 4 + 2 * HASH_SIZE && addr[..4] == "hsn:" && AllHex(addr[4..])
    then Some(FromHex(addr[4..])[..ADDRESS_PAYLOAD_LEN]) else None
  }

  lemma {:induction false} HexCase(c: char)
    ensures HexIndex(Lower(c)) == HexIndex(c)
    ensures HexIndex(c) < 16 ==> HexChar(HexIndex(c)) == Lower(c)
  {
  }

  lemma {:induction false} ToHexDigits(b: seq<nat>, i: nat)
    requires Bytes(b) && i < |b|
    ensures ToHex(b)[2 * i] == HexChar(b[i] / 16) && ToHex(b)[2 * i + 1] == HexChar(b[i] % 16)
  {
    if i < |b| - 1 {
      ToHexDigits(b[..|b| - 1], i);
    }
  }

  lemma {:induction false} FromHexDigits(s: string, i: nat)
    requires AllHex(s) && 2 * i < |s|
    ensures FromHex(s)[i] < 256
    ensures FromHex(s)[i] / 16 == HexIndex(s[2 * i]) && FromHex(s)[i] % 16 == HexIndex(s[2 * i + 1])
  {
    assert HexIndex(s[2 * i]) < 16 && HexIndex(s[2 * i + 1]) < 16;
  }

  lemma {:induction false} HexBytes(s: string)
    requires AllHex(s)
    ensures Bytes(FromHex(s)) && ToHex(FromHex(s)) == LowerAll(s)
  {
    var b := FromHex(s);
    forall i | 0 <= i < |b|
      ensures b[i] < 256
    {
      FromHexDigits(s, i);
    }
    forall k | 0 <= k < |s|
      ensures ToHex(b)[k] == Lower(s[k])
    {
      HexDigitBack(s, b, k);
    }
  }

  lemma {:induction false} HexDigitBack(s: string, b: seq<nat>, k: nat)
    requires AllHex(s) && b == FromHex(s) && Bytes(b) && k < |s|
    ensures ToHex(b)[k] == Lower(s[k])
  {
    var i := k / 2;
    FromHexDigits(s, i);
    ToHexDigits(b, i);
    HexCase(s[k]);
    assert k == 2 * i || k == 2 * i + 1;
  }

  lemma {:induction false} HexIgnoresCase(s: string)
    ensures AllHex(LowerAll(s)) <==> AllHex(s)
    ensures AllHex(s) ==> FromHex(LowerAll(s)) == FromHex(s)
  {
    forall i | 0 <= i < |s|
      ensures HexIndex(LowerAll(s)[i]) == HexIndex(s[i])
    {
      HexCase(s[i]);
    }
    assert AllHex(LowerAll(s)) ==> forall i :: 0 <= i < |s| ==> HexIndex(LowerAll(s)[i]) < 16;
  }

  /** The string is the legacy address of this digest, but for the case of its digits. */
  ghost predicate IsLegacyOf(addr: string, h: seq<nat>) {
    |h| == HASH_SIZE && Bytes(h) && |addr| >= 4 && addr[..4] == "hsn:" && LowerAll(addr[4..]) == ToHex(h)
  }

  /** A legacy string names the first 32 bytes of the one digest whose hexadecimal digits, of
      either case, follow `hsn:`; no other string is one. */
  lemma {:induction false} LegacyExactly(addr: string, p: seq<nat>)
    ensures LegacyPayload(addr) == Some(p) <==> exists h :: IsLegacyOf(addr, h) && p == h[..ADDRESS_PAYLOAD_LEN]
  {
    if LegacyPayload(addr) == Some(p) {
      HexBytes(addr[4..]);
      assert IsLegacyOf(addr, FromHex(addr[4..]));
    }
    if h :| IsLegacyOf(addr, h) && p == h[..ADDRESS_PAYLOAD_LEN] {
      HexRoundTrip(h);
      HexIgnoresCase(addr[4..]);
    }
  }

  // ----- Equivalence -----

  /** The key fingerprint a string names, in either form. */
  ghost function FingerprintOf(addr: string): Option<seq<nat>> {
    if Payload(addr).Some? then Payload(addr) else LegacyPayload(addr)
  }

  ghost predicate Equivalent(a: string, b: string) {
    a == b || (FingerprintOf(a).Some? && FingerprintOf(a) == FingerprintOf(b))
  }

  method AddressesEquivalent(a: string, b: string) returns (yes: bool)
    ensures yes <==> Equivalent(a, b)
  {
    if a == b {
      return true;
    }
    var fa := AddressFingerprint(a);
    var fb := AddressFingerprint(b);
    yes := fa.Some? && fa == fb;
  }

  method AddressFingerprint(addr: string) returns (f: Option<seq<nat>>)
    ensures f == FingerprintOf(addr)
  {
    f := DecodeAddress(addr);
    if f.None? {
      f := LegacyPayload(addr);
    }
  }

  /** Naming the same key is an equivalence. */
  lemma {:induction false} EquivalentIsEquivalence(a: string, b: string, c: string)
    ensures Equivalent(a, a)
    ensures Equivalent(a, b) <==> Equivalent(b, a)
    ensures Equivalent(a, b) && Equivalent(b, c) ==> Equivalent(a, c)
  {
  }

  /** No legacy string is a bech32m string. */
  lemma {:induction false} LegacyIsNotBech(addr: string)
    requires |addr| > 4 && addr[..4] == "hsn:"
    ensures Payload(addr) == None
  {
    assert addr[3] == addr[..4][3] == ':' && LowerAll(addr)[3] == ':';
    if Payload(addr).Some? {
      var hrp, tail := DecodedParts(addr);
      assert false;
    }
  }

  /** Both forms of a digest's address name its first 32 bytes. */
  lemma {:induction false} BothForms(h: seq<nat>)
    requires |h| == HASH_SIZE && Bytes(h)
    ensures FingerprintOf(AddressOf(h[..ADDRESS_PAYLOAD_LEN])) == Some(h[..ADDRESS_PAYLOAD_LEN])
    ensures FingerprintOf(LegacyOf(h)) == Some(h[..ADDRESS_PAYLOAD_LEN])
    ensures Equivalent(AddressOf(h[..ADDRESS_PAYLOAD_LEN]), LegacyOf(h))
  {
    PayloadOfAddress(h[..ADDRESS_PAYLOAD_LEN]);
    var addr := LegacyOf(h);
    assert addr[..4] == "hsn:" && addr[4..] == ToHex(h);
    HexRoundTrip(h);
    LegacyIsNotBech(addr);
  }

  /** Two bech32m strings name the same key exactly when they differ in case alone. */
  lemma {:induction false} SameKeySameString(a: string, b: string)
    requires Payload(a).Some? && Payload(b).Some?
    ensures Equivalent(a, b) <==> LowerAll(a) == LowerAll(b)
  {
    AddressOfPayload(a);
    AddressOfPayload(b);
    if LowerAll(a) == LowerAll(b) {
      PayloadOfAddress(Payload(a).value);
      PayloadOfAddress(Payload(b).value);
    }
  }
}
