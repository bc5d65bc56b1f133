// Byte buffers: big-endian integers and ASCII text as Node's Buffer reads and
// writes them.
module Bytes {
  import opened Basics

  type Byte = b: int | 0 <= b < 256
  type Buffer = seq<Byte>

  const U16_LIMIT: int := 0x1_0000
  const U32_LIMIT: int := 0x1_0000_0000

  function U16(n: nat): (r: Buffer)
    requires n < U16_LIMIT
    ensures |r| == 2
  {
    [n / 256, n % 256]
  }

  function U32(n: nat): (r: Buffer)
    requires n < U32_LIMIT
    ensures |r| == 4
  {
    [n / 0x100_0000, n / 0x1_0000 % 256, n / 256 % 256, n % 256]
  }

  function ReadU16(b: Buffer, at: nat): (n: nat)
    requires at + 2 <= |b|
    ensures n < U16_LIMIT
  {
    var (hi: int, lo: int) := (b[at], b[at + 1]);
    hi * 256 + lo
  }

  function ReadU32(b: Buffer, at: nat): (n: nat)
    requires at + 4 <= |b|
    ensures n < U32_LIMIT
  {
    var (b0: int, b1: int, b2: int, b3: int) := (b[at], b[at + 1], b[at + 2], b[at + 3]);
    b0 * 0x100_0000 + b1 * 0x1_0000 + b2 * 256 + b3
  }

  lemma U16Read(n: nat, b: Buffer, at: nat)
    requires n < U16_LIMIT && at + 2 <= |b| && b[at..at + 2] == U16(n)
    ensures ReadU16(b, at) == n
  {
    assert b[at] == b[at..at + 2][0] && b[at + 1] == b[at..at + 2][1];
  }

  lemma U32Sum(n: nat)
    requires n < U32_LIMIT
    ensures n / 0x100_0000 * 0x100_0000 + n / 0x1_0000 % 256 * 0x1_0000 + n / 256 % 256 * 256 + n % 256 == n
  {
    var m, k := n / 256, n / 0x1_0000;
    assert n == m * 256 + n % 256;
    assert m == k * 256 + m % 256;
    assert k == n / 0x100_0000 * 256 + k % 256;
  }

  lemma U32Read(n: nat, b: Buffer, at: nat)
    requires n < U32_LIMIT && at + 4 <= |b| && b[at..at + 4] == U32(n)
    ensures ReadU32(b, at) == n
  {
    var s := b[at..at + 4];
    assert b[at] == s[0] && b[at + 1] == s[1] && b[at + 2] == s[2] && b[at + 3] == s[3];
    U32Sum(n);
  }

  lemma DigitsBack(b0: int, b1: int, b2: int, b3: int)
    requires 0 <= b0 < 256 && 0 <= b1 < 256 && 0 <= b2 < 256 && 0 <= b3 < 256
    ensures var n := b0 * 0x100_0000 + b1 * 0x1_0000 + b2 * 256 + b3;
      n / 0x100_0000 == b0 && n / 0x1_0000 % 256 == b1 && n / 256 % 256 == b2 && n % 256 == b3
  {
    var n := b0 * 0x100_0000 + b1 * 0x1_0000 + b2 * 256 + b3;
    assert n / 256 == b0 * 0x1_0000 + b1 * 256 + b2;
    assert n / 0x1_0000 == b0 * 256 + b1;
  }

  lemma ReadU32Back(b: Buffer, at: nat)
    requires at + 4 <= |b|
    ensures U32(ReadU32(b, at)) == b[at..at + 4]
  {
    DigitsBack(b[at], b[at + 1], b[at + 2], b[at + 3]);
  }

  function Zeros(n: nat): (r: Buffer)
    ensures |r| == n && forall i :: 0 <= i < n ==> r[i] == 0
  {
    seq(n, i requires 0 <= i < n => 0)
  }

  // Buffer.from(s, 'ascii') keeps the low byte of each character, and
  // toString('ascii') the low seven bits of each byte.
  function Ascii(s: string): (r: Buffer)
    ensures |r| == |s|
    ensures forall i :: 0 <= i < |s| ==> r[i] == (s[i] as int) % 256
  {
    seq(|s|, i requires 0 <= i < |s| => (s[i] as int) % 256)
  }

  function Text(b: Buffer): (r: string)
    ensures |r| == |b|
    ensures forall i :: 0 <= i < |b| ==> r[i] as int == b[i] % 128
  {
    seq(|b|, i requires 0 <= i < |b| => (b[i] % 128) as char)
  }

  predicate IsAscii(s: string) {
    forall i :: 0 <= i < |s| ==> s[i] as int < 128
  }

  // The round trip the source tests for is exactly "all characters are ASCII".
  lemma AsciiRoundTrip(s: string)
    ensures Text(Ascii(s)) == s <==> IsAscii(s)
  {
    if Text(Ascii(s)) == s {
      forall i | 0 <= i < |s| ensures s[i] as int < 128 {
        assert Text(Ascii(s))[i] as int == (s[i] as int) % 256 % 128;
      }
    }
  }

  // One to max printable ASCII characters, none of them a percent sign.
  predicate IsPlain(s: string, max: nat) {
    && 1 <= |s| <= max
    && Text(Ascii(s)) == s
    && forall i :: 0 <= i < |s| ==> s[i] != '%' && 0x20 <= s[i] as int != 0x7f
  }

  // Plain text is one to max characters from the space to the tilde, without %.
  lemma PlainIff(s: string, max: nat)
    ensures IsPlain(s, max) <==> 1 <= |s| <= max && forall i :: 0 <= i < |s| ==> ' ' <= s[i] <= '~' && s[i] != '%'
  {
    AsciiRoundTrip(s);
  }
}
