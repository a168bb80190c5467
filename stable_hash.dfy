/** The input fingerprint: an FNV-1a style 32-bit hash of the key-sorted
    serialisation, written as exactly eight lowercase hexadecimal digits. */
module StableHash {
  import opened ProjectionTypes
  import opened StableJson

  const FnvOffset: bv32 := 0x811c9dc5
  const FnvPrime: bv32 := 0x01000193

  /** One loop iteration: fold one character in, multiply modulo 2^32. */
  function FnvStep(h: bv32, c: char): bv32 {
    (h ^ ((c as int) as bv32)) * FnvPrime
  }

  /** The hash state after every character of `s` has been folded in. */
  function Fnv(s: string): bv32
    decreases |s|
  {
    if |s| == 0 then FnvOffset else FnvStep(Fnv(s[..|s| - 1]), s[|s| - 1])
  }

  function Pow16(k: nat): (r: nat)
    ensures r >= 1
  {
    if k == 0 then 1 else 16 * Pow16(k - 1)
  }

  predicate IsLowerHex(c: char) {
    ('0' <= c <= '9') || ('a' <= c <= 'f')
  }

  function HexDigit(d: nat): (c: char)
    requires d < 16
    ensures IsLowerHex(c)
  {
    if d < 10 then ('0' as int + d) as char else ('a' as int + d - 10) as char
  }

  function HexValue(c: char): (d: nat)
    requires IsLowerHex(c)
    ensures d < 16
  {
    if c <= '9' then c as int - '0' as int else c as int - 'a' as int + 10
  }

  /** `n.toString(16)`: no leading zeros, "0" for zero. */
  function ToHex(n: nat): (r: string)
    decreases n
    ensures |r| >= 1
    ensures forall i :: 0 <= i < |r| ==> IsLowerHex(r[i])
  {
    if n < 16 then [HexDigit(n)] else ToHex(n / 16) + [HexDigit(n % 16)]
  }

  /** `s.padStart(width, fill)` */
  function PadStart(s: string, width: nat, fill: char): (r: string)
    ensures |r| == if |s| >= width then |s| else width
    ensures r[|r| - |s|..] == s
    ensures forall i :: 0 <= i < |r| - |s| ==> r[i] == fill
  {
    if |s| >= width then s else seq(width - |s|, _ => fill) + s
  }

  /** `hash.toString(16).padStart(8, "0")` */
  function HashText(h: bv32): string {
    PadStart(ToHex(h as nat), 8, '0')
  }

  /** The number a string of lowercase hexadecimal digits denotes. */
  function FromHex(s: string): nat
    requires forall i :: 0 <= i < |s| ==> IsLowerHex(s[i])
    decreases |s|
  {
    if |s| == 0 then 0 else FromHex(s[..|s| - 1]) * 16 + HexValue(s[|s| - 1])
  }

  lemma {:induction false} ToHexLength(n: nat, k: nat)
    requires 1 <= k && n < Pow16(k)
    ensures |ToHex(n)| <= k
    decreases k
  {
    if n >= 16 {
      ToHexLength(n / 16, k - 1);
    }
  }

  lemma {:induction false} ToHexRoundTrip(n: nat)
    ensures FromHex(ToHex(n)) == n
    decreases n
  {
    var r := ToHex(n);
    if n >= 16 {
      ToHexRoundTrip(n / 16);
      assert r[..|r| - 1] == ToHex(n / 16);
    }
  }

  lemma {:induction false} LeadingZerosIgnored(z: nat, s: string)
    requires forall i :: 0 <= i < |s| ==> IsLowerHex(s[i])
    ensures FromHex(seq(z, _ => '0') + s) == FromHex(s)
    decreases |s|, z
  {
    var t := seq(z, _ => '0') + s;
    if |s| > 0 {
      assert t[..|t| - 1] == seq(z, _ => '0') + s[..|s| - 1];
      LeadingZerosIgnored(z, s[..|s| - 1]);
    } else if z > 0 {
      assert t[..|t| - 1] == seq(z - 1, _ => '0') + s;
      LeadingZerosIgnored(z - 1, s);
    } else {
      assert t == s;
    }
  }

  /** The hash text is eight lowercase hex digits and denotes the hash
      itself, so distinct hashes never share a text. */
  lemma HashTextRoundTrip(h: bv32)
    ensures |HashText(h)| == 8
    ensures forall i :: 0 <= i < 8 ==> IsLowerHex(HashText(h)[i])
    ensures FromHex(HashText(h)) == h as nat
  {
    var digits := ToHex(h as nat);
    assert Pow16(8) == 0x1_0000_0000;
    ToHexLength(h as nat, 8);
    ToHexRoundTrip(h as nat);
    LeadingZerosIgnored(8 - |digits|, digits);
  }

  /** Folding one more character is one more FNV step. */
  lemma FnvNext(s: string, i: nat)
    requires i < |s|
    ensures Fnv(s[..i + 1]) == FnvStep(Fnv(s[..i]), s[i])
  {
    assert s[..i + 1][..i] == s[..i];
  }

  /** `stableHash`: serialise with sorted keys, fold every character into
      the FNV state, render the state as eight hex digits. */
  method StableHashOf(obj: Json, quote: string -> string) returns (text: string)
    ensures text == HashText(Fnv(Stringify(obj, quote)))
    ensures |text| == 8 && forall i :: 0 <= i < 8 ==> IsLowerHex(text[i])
  {
    var json := Stringify(obj, quote);
    var hash := FnvOffset;
    var i := 0;
    while i < |json|
      invariant 0 <= i <= |json|
      invariant hash == Fnv(json[..i])
    {
      FnvNext(json, i);
      hash := FnvStep(hash, json[i]);
      i := i + 1;
    }
    assert json[..|json|] == json;
    HashTextRoundTrip(hash);
    text := HashText(hash);
  }

  /** Objects with the same members in another key order get the same
      fingerprint. */
  lemma HashKeyOrderIrrelevant(f1: seq<Field>, f2: seq<Field>, quote: string -> string)
    requires UniqueFieldKeys(f1) && UniqueFieldKeys(f2)
    requires multiset(f1) == multiset(f2)
    ensures HashText(Fnv(Stringify(JObject(f1), quote))) == HashText(Fnv(Stringify(JObject(f2), quote)))
  {
    KeyOrderIrrelevant(f1, f2, quote);
  }
}
