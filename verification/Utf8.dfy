/** UTF-8, as section 3 of RFC 3629 defines it: encoded lengths and character boundaries. */
module Utf8 {

  type byte = n: int | 0 <= n < 256

  function EncodeChar(c: char): (r: seq<byte>)
    ensures 1 <= |r| <= 4
    ensures !IsContinuation(r[0])
    ensures forall i :: 1 <= i < |r| ==> IsContinuation(r[i])
  {
    var n := c as int;
    if n < 0x80 then [n]
    else if n < 0x800 then [0xC0 + n / 64, 0x80 + n % 64]
    else if n < 0x1_0000 then [0xE0 + n / 4096, 0x80 + n / 64 % 64, 0x80 + n % 64]
    else [0xF0 + n / 26_2144, 0x80 + n / 4096 % 64, 0x80 + n / 64 % 64, 0x80 + n % 64]
  }

  /** The bits a continuation byte adds. */
  function Payload(b: byte): int { (b as int) - 0x80 }

  /** The code point a sequence of one to four bytes stands for. */
  function CodePoint(r: seq<byte>): int
    requires 1 <= |r| <= 4
  {
    var first := r[0] as int;
    if |r| == 1 then first
    else if |r| == 2 then (first - 0xC0) * 64 + Payload(r[1])
    else if |r| == 3 then (first - 0xE0) * 4096 + Payload(r[1]) * 64 + Payload(r[2])
    else (first - 0xF0) * 26_2144 + Payload(r[1]) * 4096 + Payload(r[2]) * 64 + Payload(r[3])
  }

  lemma Base64Digits(n: nat)
    ensures n == n / 4096 * 4096 + n / 64 % 64 * 64 + n % 64
    ensures n / 4096 == n / 26_2144 * 64 + n / 4096 % 64
  {
    assert n / 64 == n / 4096 * 64 + n / 64 % 64;
  }

  /** The bytes of a character stand for it, and their number is the least that can hold it. */
  lemma EncodeCharIs(c: char)
    ensures CodePoint(EncodeChar(c)) == c as int
    ensures |EncodeChar(c)| ==
      if c as int < 0x80 then 1 else if c as int < 0x800 then 2 else if c as int < 0x1_0000 then 3 else 4
  {
    Base64Digits(c as int);
  }

  function Encode(s: string): seq<byte> {
    if s == [] then [] else EncodeChar(s[0]) + Encode(s[1..])
  }

  function ByteLen(s: string): nat {
    |Encode(s)|
  }

  predicate IsContinuation(b: byte) { 0x80 <= b < 0xC0 }

  /** `str::is_char_boundary`. */
  predicate IsBoundary(bytes: seq<byte>, i: nat) {
    i == 0 || i == |bytes| || (i < |bytes| && !IsContinuation(bytes[i]))
  }

  lemma {:induction false} EncodeConcat(s: string, t: string)
    ensures Encode(s + t) == Encode(s) + Encode(t)
  {
    if s == [] {
      assert s + t == t;
    } else {
      assert (s + t)[1..] == s[1..] + t;
      EncodeConcat(s[1..], t);
    }
  }

  lemma ByteLenConcat(s: string, t: string)
    ensures ByteLen(s + t) == ByteLen(s) + ByteLen(t)
  {
    EncodeConcat(s, t);
  }

  lemma {:induction false} AsciiByteLen(s: string)
    requires forall i :: 0 <= i < |s| ==> s[i] as int < 0x80
    ensures ByteLen(s) == |s|
  {
    if s != [] {
      AsciiByteLen(s[1..]);
    }
  }

  /** A boundary behind the first character is a boundary of the rest. */
  lemma BoundaryInRest(c: char, rest: seq<byte>, i: nat)
    requires 0 < i <= |EncodeChar(c)| + |rest| && IsBoundary(EncodeChar(c) + rest, i)
    ensures i >= |EncodeChar(c)| && IsBoundary(rest, i - |EncodeChar(c)|)
  {
    var first := EncodeChar(c);
    var all := first + rest;
    assert forall j :: 0 <= j < |first| ==> all[j] == first[j];
    assert i >= |first|;
    assert i < |all| ==> all[i] == rest[i - |first|];
  }

  lemma CutBehind(first: seq<byte>, rest: seq<byte>, i: nat)
    requires |first| <= i <= |first| + |rest|
    ensures (first + rest)[..i] == first + rest[..i - |first|] && (first + rest)[i..] == rest[i - |first|..]
  {
  }

  /** Boundaries of an encoding are exactly the ends of the encoded prefixes. */
  lemma {:induction false} BoundarySplits(s: string, i: nat) returns (k: nat)
    requires i <= ByteLen(s) && IsBoundary(Encode(s), i)
    ensures k <= |s| && Encode(s[..k]) == Encode(s)[..i] && Encode(s[k..]) == Encode(s)[i..]
  {
    if i == 0 {
      k := 0;
      assert s[0..] == s;
    } else {
      var first, rest := EncodeChar(s[0]), Encode(s[1..]);
      BoundaryInRest(s[0], rest, i);
      k := BoundarySplits(s[1..], i - |first|);
      CutBehind(first, rest, i);
      PrefixOfRest(s, k);
      k := k + 1;
    }
  }

  lemma PrefixOfRest(s: string, k: nat)
    requires s != [] && k <= |s| - 1
    ensures Encode(s[..k + 1]) == EncodeChar(s[0]) + Encode(s[1..][..k]) && s[k + 1..] == s[1..][k..]
  {
    assert s[..k + 1][1..] == s[1..][..k];
  }

  lemma StartsOnBoundary(first: seq<byte>, rest: string)
    ensures IsBoundary(first + Encode(rest), |first|)
  {
    if rest != [] {
      assert Encode(rest)[0] == EncodeChar(rest[0])[0];
    }
  }

  lemma PrefixEndsOnBoundary(s: string, k: nat)
    requires k <= |s|
    ensures ByteLen(s[..k]) <= ByteLen(s)
    ensures IsBoundary(Encode(s), ByteLen(s[..k]))
    ensures Encode(s)[ByteLen(s[..k])..] == Encode(s[k..])
  {
    assert s == s[..k] + s[k..];
    EncodeConcat(s[..k], s[k..]);
    StartsOnBoundary(Encode(s[..k]), s[k..]);
  }
}
