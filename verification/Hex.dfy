// Hexadecimal text as Node's Buffer writes and reads it.
module Hex {
  import opened Basics
  import opened Bytes
  import opened Strings

  predicate IsHexDigit(c: char) {
    '0' <= c <= '9' || 'a' <= c <= 'f' || 'A' <= c <= 'F'
  }

  // Only the digits toString('hex') writes.
  predicate IsLowerHexDigit(c: char) {
    '0' <= c <= '9' || 'a' <= c <= 'f'
  }

  predicate IsLowerHex(s: string) {
    forall i :: 0 <= i < |s| ==> IsLowerHexDigit(s[i])
  }

  function HexValue(c: char): (v: nat)
    requires IsHexDigit(c)
    ensures v < 16
  {
    if c <= '9' then (c - '0') as nat
    else if c <= 'F' then (c - 'A') as nat + 10
    else (c - 'a') as nat + 10
  }

  function HexChar(v: nat): (c: char)
    requires v < 16
    ensures IsHexDigit(c) && HexValue(c) == v && LowerChar(c) == c
  {
    if v < 10 then '0' + v as char else 'a' + (v - 10) as char
  }

  function HexPair(b: Byte): (s: string)
    ensures |s| == 2
  {
    [HexChar(b / 16), HexChar(b % 16)]
  }

  function HexEncode(b: Buffer): (s: string)
    ensures |s| == 2 * |b|
  {
    if b == [] then "" else HexPair(b[0]) + HexEncode(b[1..])
  }

  // Buffer.from(s, 'hex') stops at the first pair that is not hexadecimal.
  function HexDecode(s: string): (b: Buffer)
    ensures 2 * |b| <= |s|
  {
    if |s| < 2 || !IsHexDigit(s[0]) || !IsHexDigit(s[1]) then []
    else [16 * HexValue(s[0]) + HexValue(s[1])] + HexDecode(s[2..])
  }

  lemma {:induction false} HexBack(b: Buffer)
    ensures HexDecode(HexEncode(b)) == b
  {
    if b != [] {
      HexBack(b[1..]);
      var s := HexEncode(b);
      assert s[0] == HexPair(b[0])[0] && s[1] == HexPair(b[0])[1] && s[2..] == HexEncode(b[1..]);
      assert b == [b[0]] + b[1..];
    }
  }

  lemma HexPairBack(a: char, b: char)
    requires IsLowerHexDigit(a) && IsLowerHexDigit(b)
    ensures HexPair(16 * HexValue(a) + HexValue(b)) == [a, b]
  {
    var v: nat, w: nat := HexValue(a), HexValue(b);
    assert (16 * v + w) / 16 == v && (16 * v + w) % 16 == w;
    assert HexChar(v) == a && HexChar(w) == b;
  }

  // An even run of lower-case digits is what its own bytes print as.
  lemma {:induction false} HexForth(s: string)
    requires IsLowerHex(s) && |s| % 2 == 0
    ensures 2 * |HexDecode(s)| == |s| && HexEncode(HexDecode(s)) == s
  {
    if s != "" {
      HexForth(s[2..]);
      HexPairBack(s[0], s[1]);
      hide HexPair, HexValue;
      var first := 16 * HexValue(s[0]) + HexValue(s[1]);
      HexStep(first, HexDecode(s[2..]));
      assert s == [s[0], s[1]] + s[2..];
    }
  }

  lemma HexStep(first: Byte, others: Buffer)
    ensures HexEncode([first] + others) == HexPair(first) + HexEncode(others)
  {
    assert ([first] + others)[1..] == others;
  }

  lemma {:induction false} HexAnyCase(s: string)
    ensures HexDecode(Lower(s)) == HexDecode(s)
  {
    if |s| >= 2 && IsHexDigit(s[0]) && IsHexDigit(s[1]) {
      HexAnyCase(s[2..]);
      assert Lower(s)[2..] == Lower(s[2..]);
    }
  }

  predicate IsHex(s: string) {
    forall i :: 0 <= i < |s| ==> IsHexDigit(s[i])
  }

  // s.replace(/^0x/i, '').
  function WithoutPrefix(s: string): string {
    if "0x" <= s || "0X" <= s then s[2..] else s
  }

  // Exactly n bytes of hexadecimal, with or without the prefix.
  function ExactHex(s: string, n: nat): (r: Option<Buffer>)
  {
    if |WithoutPrefix(s)| == 2 * n && IsHex(WithoutPrefix(s)) then Some(HexDecode(WithoutPrefix(s))) else None
  }

  lemma LowerHexOfHex(s: string)
    requires IsHex(s)
    ensures IsLowerHex(Lower(s))
  {
    forall i | 0 <= i < |s| ensures IsLowerHexDigit(Lower(s)[i]) {
      assert IsHexDigit(s[i]);
    }
  }

  lemma HexDecodes(s: string)
    requires IsHex(s) && |s| % 2 == 0
    ensures 2 * |HexDecode(s)| == |s| && HexEncode(HexDecode(s)) == Lower(s)
  {
    hide HexDecode, HexEncode, IsHex, IsLowerHex;
    LowerHexOfHex(s);
    HexForth(Lower(s));
    HexAnyCase(s);
  }

  lemma ExactHexSize(s: string, n: nat)
    requires ExactHex(s, n).Some?
    ensures |ExactHex(s, n).value| == n && HexEncode(ExactHex(s, n).value) == Lower(WithoutPrefix(s))
  {
    hide HexDecode, IsHex, WithoutPrefix, HexEncode, Lower;
    HexDecodes(WithoutPrefix(s));
  }

  // Decoding is not confused by the case of what it is given.
  lemma SameHexText(b: Buffer, s: string)
    requires HexEncode(b) == Lower(s)
    ensures HexDecode(s) == b
  {
    HexBack(b);
    HexAnyCase(s);
  }

  lemma {:induction false} HexLower(b: Buffer)
    ensures Lower(HexEncode(b)) == HexEncode(b)
  {
    if b != [] {
      HexLower(b[1..]);
      assert HexEncode(b)[2..] == HexEncode(b[1..]);
      assert Lower(HexEncode(b))[2..] == Lower(HexEncode(b[1..]));
      assert forall i :: 0 <= i < 2 ==> LowerChar(HexPair(b[0])[i]) == HexPair(b[0])[i];
    }
  }

  lemma Associative(a: string, b: string, c: string)
    ensures (a + b) + c == a + (b + c)
  {
  }

  lemma {:induction false} HexAppend(a: Buffer, b: Buffer)
    ensures HexEncode(a + b) == HexEncode(a) + HexEncode(b)
  {
    if a == [] {
      assert [] + b == b;
    } else {
      HexAppend(a[1..], b);
      HexStep(a[0], a[1..]);
      HexStep(a[0], a[1..] + b);
      assert a == [a[0]] + a[1..] && a + b == [a[0]] + (a[1..] + b);
      hide HexEncode, HexPair;
      Associative(HexPair(a[0]), HexEncode(a[1..]), HexEncode(b));
    }
  }
}
