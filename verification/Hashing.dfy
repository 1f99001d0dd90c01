/**
 Streaming digests. The compression function is a parameter: nothing below depends on which one it is,
 and no promise assumes it free of collisions.
 */
module Hashing {
  import opened Files

  type Digest = d: seq<Byte> | |d| == 32 witness seq(32, _ => 0)

  /** A streaming hash: an initial state, one absorption step, and a finaliser. */
  datatype HashFn = HashFn(init: int, absorb: (int, Byte) -> int, finish: int -> Digest) {

    function Absorb(state: int, b: Bytes): int
      decreases |b|
    {
      if b == [] then state else Absorb(absorb(state, b[0]), b[1..])
    }

    /** The digest of a whole byte string. */
    function Of(b: Bytes): Digest {
      finish(Absorb(init, b))
    }

    lemma {:induction false} AbsorbConcat(state: int, a: Bytes, b: Bytes)
      ensures Absorb(state, a + b) == Absorb(Absorb(state, a), b)
      decreases |a|
    {
      if a == [] {
        assert a + b == b;
      } else {
        assert (a + b)[1..] == a[1..] + b;
        AbsorbConcat(absorb(state, a[0]), a[1..], b);
      }
    }
  }

  /** Two named byte strings that share a digest. Promises below hold, or come with such a pair. */
  ghost predicate Collision(h: HashFn, a: Bytes, b: Bytes) {
    a != b && h.Of(a) == h.Of(b)
  }

  const CHUNK_BYTES := 64 * 1024

  /** Stream-hash a file's content through a bounded buffer; `short(k)` says how much the k-th read returns. */
  method Sha256File(h: HashFn, content: Bytes, short: nat -> nat) returns (digest: Digest)
    ensures digest == h.Of(content)
  {
    var state, pos, k := h.init, 0, 0;
    while pos < |content|
      invariant 0 <= pos <= |content|
      invariant state == h.Absorb(h.init, content[..pos])
    {
      var room := if CHUNK_BYTES < |content| - pos then CHUNK_BYTES else |content| - pos;
      var n := if 0 < short(k) < room then short(k) else room;
      h.AbsorbConcat(h.init, content[..pos], content[pos..pos + n]);
      assert content[..pos] + content[pos..pos + n] == content[..pos + n];
      state := h.Absorb(state, content[pos..pos + n]);
      pos, k := pos + n, k + 1;
    }
    assert content[..pos] == content;
    digest := h.finish(state);
  }

  // ---------------------------------------------------------------- hexadecimal rendering

  function HexChar(n: nat): (c: char)
    requires n < 16
  {
    if n < 10 then '0' + n as char else 'a' + (n - 10) as char
  }

  /** Two lowercase hexadecimal digits a byte. */
  function HexLower(b: Bytes): (s: string)
    ensures |s| == 2 * |b|
  {
    if b == [] then "" else [HexChar(b[0] / 16), HexChar(b[0] % 16)] + HexLower(b[1..])
  }

  function LowerChar(c: char): char {
    if 'A' <= c <= 'Z' then 'a' + (c - 'A') else c
  }

  function Lower(s: string): (r: string)
    ensures |r| == |s|
    ensures forall i :: 0 <= i < |s| ==> r[i] == LowerChar(s[i])
  {
    seq(|s|, i requires 0 <= i < |s| => LowerChar(s[i]))
  }

  predicate EqIgnoreAsciiCase(a: string, b: string) {
    Lower(a) == Lower(b)
  }

  function HexValue(c: char): Option<nat> {
    if '0' <= c <= '9' then Some((c - '0') as nat)
    else if 'a' <= c <= 'f' then Some((c - 'a') as nat + 10)
    else None
  }

  /** Decode lowercased hexadecimal: an odd length or a foreign character is an error. */
  function HexDecode(s: string): Option<Bytes>
    decreases |s|
  {
    if s == "" then Some([])
    else if |s| == 1 then None
    else
      match (HexValue(s[0]), HexValue(s[1]), HexDecode(s[2..]))
      case (Some(hi), Some(lo), Some(rest)) => if hi < 16 && lo < 16 then Some([16 * hi + lo] + rest) else None
      case _ => None
  }

  /** The digest gate: lowercase, decode, require 32 bytes, compare. */
  predicate VerifySha256(expected: string, actual: Digest) {
    var decoded := HexDecode(Lower(expected));
    decoded.Some? && |decoded.value| == 32 && decoded.value == actual
  }

  lemma {:induction false} HexCharRoundTrip(n: nat)
    requires n < 16
    ensures HexValue(HexChar(n)) == Some(n) && LowerChar(HexChar(n)) == HexChar(n)
  {}

  lemma {:induction false} HexValueInverts(c: char)
    requires HexValue(c).Some?
    ensures HexValue(c).value < 16 && HexChar(HexValue(c).value) == c
  {}

  /** One byte's two digits decode to it, whatever follows. */
  lemma {:induction false} DecodeByte(x: Byte, rest: string)
    ensures HexDecode([HexChar(x / 16), HexChar(x % 16)] + rest) ==
            if HexDecode(rest).Some? then Some([x] + HexDecode(rest).value) else None
  {
    var s := [HexChar(x / 16), HexChar(x % 16)] + rest;
    HexCharRoundTrip(x / 16);
    HexCharRoundTrip(x % 16);
    assert s[2..] == rest && 16 * (x / 16) + x % 16 == x;
  }

  lemma {:induction false} LowerOfHexLower(b: Bytes)
    ensures forall i :: 0 <= i < |HexLower(b)| ==> LowerChar(HexLower(b)[i]) == HexLower(b)[i]
  {
    if b != [] {
      LowerOfHexLower(b[1..]);
      HexCharRoundTrip(b[0] / 16);
      HexCharRoundTrip(b[0] % 16);
    }
  }

  lemma {:induction false} DecodeOfHexLower(b: Bytes)
    ensures HexDecode(HexLower(b)) == Some(b)
    ensures forall i :: 0 <= i < |HexLower(b)| ==> LowerChar(HexLower(b)[i]) == HexLower(b)[i]
  {
    LowerOfHexLower(b);
    if b != [] {
      DecodeOfHexLower(b[1..]);
      DecodeByte(b[0], HexLower(b[1..]));
      assert b == [b[0]] + b[1..];
    }
  }

  lemma {:induction false} HexLowerOfDecode(s: string)
    requires HexDecode(s).Some?
    ensures HexLower(HexDecode(s).value) == s
    decreases |s|
  {
    if s != "" {
      HexLowerOfDecode(s[2..]);
      HexValueInverts(s[0]);
      HexValueInverts(s[1]);
      var b := HexDecode(s).value;
      var hi, lo := HexValue(s[0]).value, HexValue(s[1]).value;
      assert b[0] == 16 * hi + lo && b[0] / 16 == hi && b[0] % 16 == lo;
      assert b[1..] == HexDecode(s[2..]).value;
      assert s == [s[0], s[1]] + s[2..];
    }
  }

  /** The rendering loses nothing: equal strings mean equal bytes. */
  lemma {:induction false} HexLowerInjective(a: Bytes, b: Bytes)
    requires HexLower(a) == HexLower(b)
    ensures a == b
  {
    DecodeOfHexLower(a);
    DecodeOfHexLower(b);
  }

  /** The staging gate and the installed-digest comparison accept exactly the same pairs. */
  lemma {:induction false} GateIsCaseInsensitiveEquality(expected: string, actual: Digest)
    ensures VerifySha256(expected, actual) <==> EqIgnoreAsciiCase(HexLower(actual), expected)
  {
    DecodeOfHexLower(actual);
    assert Lower(HexLower(actual)) == HexLower(actual);
    if VerifySha256(expected, actual) {
      HexLowerOfDecode(Lower(expected));
    }
  }

  /** Two contents one signed digest admits are the same, or a collision. */
  lemma {:induction false} GateDeterminesContent(h: HashFn, expected: string, a: Bytes, b: Bytes)
    requires VerifySha256(expected, h.Of(a)) && VerifySha256(expected, h.Of(b))
    ensures a == b || Collision(h, a, b)
  {
    assert h.Of(a) == h.Of(b);
  }
}
