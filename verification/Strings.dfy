// The string operations the repository relies on: trimming, lower case, decimal
// numerals, splitting and joining.
module Strings {
  import opened Basics

  function LowerChar(c: char): (r: char)
    ensures !('A' <= r <= 'Z') && (r == c || ('A' <= c <= 'Z' && r as int == c as int + 32))
  {
    if 'A' <= c <= 'Z' then c - 'A' + 'a' else c
  }

  function Lower(s: string): (r: string)
    ensures |r| == |s|
    ensures forall i :: 0 <= i < |s| ==> r[i] == LowerChar(s[i])
  {
    seq(|s|, i requires 0 <= i < |s| => LowerChar(s[i]))
  }

  // The characters String.prototype.trim removes.
  predicate IsSpace(c: char) {
    || '\t' <= c <= '\r' || c == ' ' || c == '\U{00A0}' || c == '\U{1680}' || '\U{2000}' <= c <= '\U{200A}'
    || c == '\U{2028}' || c == '\U{2029}' || c == '\U{202F}' || c == '\U{205F}' || c == '\U{3000}' || c == '\U{FEFF}'
  }

  function TrimLeft(s: string): string {
    if s != "" && IsSpace(s[0]) then TrimLeft(s[1..]) else s
  }

  function TrimRight(s: string): string {
    if s != "" && IsSpace(Last(s)) then TrimRight(Front(s)) else s
  }

  function Trim(s: string): string {
    TrimRight(TrimLeft(s))
  }

  predicate Trimmed(s: string) {
    s == "" || (!IsSpace(s[0]) && !IsSpace(Last(s)))
  }

  lemma TrimFixed(s: string)
    requires Trimmed(s)
    ensures Trim(s) == s
  {
  }

  lemma {:induction false} TrimLeftHead(s: string)
    ensures TrimLeft(s) == "" || !IsSpace(TrimLeft(s)[0])
  {
    if s != "" && IsSpace(s[0]) {
      TrimLeftHead(s[1..]);
    }
  }

  lemma {:induction false} TrimRightEnds(s: string)
    requires s == "" || !IsSpace(s[0])
    ensures Trimmed(TrimRight(s))
  {
    if s != "" && IsSpace(Last(s)) {
      assert Front(s) == "" || Front(s)[0] == s[0];
      TrimRightEnds(Front(s));
    }
  }

  lemma TrimTrims(s: string)
    ensures Trimmed(Trim(s))
  {
    TrimLeftHead(s);
    TrimRightEnds(TrimLeft(s));
  }

  // s is t with only spaces before position i, where t starts, and after t.
  ghost predicate SpacedAt(s: string, t: string, i: nat) {
    && i + |t| <= |s| && s[i..i + |t|] == t
    && (forall k :: 0 <= k < i ==> IsSpace(s[k])) && (forall k :: i + |t| <= k < |s| ==> IsSpace(s[k]))
  }

  ghost predicate Spaced(s: string, t: string) {
    exists i :: SpacedAt(s, t, i)
  }

  lemma {:induction false} TrimLeftAt(s: string, i: nat)
    requires i <= |s| && (i < |s| ==> !IsSpace(s[i])) && forall k :: 0 <= k < i ==> IsSpace(s[k])
    ensures TrimLeft(s) == s[i..]
  {
    if i > 0 {
      TrimLeftAt(s[1..], i - 1);
      assert s[1..][i - 1..] == s[i..];
    }
  }

  lemma {:induction false} TrimRightAt(s: string, n: nat)
    requires n <= |s| && (n > 0 ==> !IsSpace(s[n - 1])) && forall k :: n <= k < |s| ==> IsSpace(s[k])
    ensures TrimRight(s) == s[..n]
  {
    if n < |s| {
      TrimRightAt(Front(s), n);
      assert Front(s)[..n] == s[..n];
    } else {
      assert s[..n] == s;
    }
  }

  lemma {:induction false} TrimLeftFrom(s: string) returns (i: nat)
    ensures i <= |s| && TrimLeft(s) == s[i..] && forall k :: 0 <= k < i ==> IsSpace(s[k])
  {
    i := 0;
    if s != "" && IsSpace(s[0]) {
      var j := TrimLeftFrom(s[1..]);
      i := j + 1;
      assert s[1..][j..] == s[i..];
      assert forall k :: 0 < k < i ==> s[k] == s[1..][k - 1];
    }
  }

  lemma {:induction false} TrimRightTo(s: string) returns (n: nat)
    ensures n <= |s| && TrimRight(s) == s[..n] && forall k :: n <= k < |s| ==> IsSpace(s[k])
  {
    n := |s|;
    if s != "" && IsSpace(Last(s)) {
      n := TrimRightTo(Front(s));
      assert Front(s)[..n] == s[..n];
    }
  }

  // Trimming takes away the spaces around a text and nothing else.
  lemma TrimIff(s: string, t: string)
    requires t != ""
    ensures Trim(s) == t <==> Trimmed(t) && Spaced(s, t)
  {
    if Trim(s) == t {
      TrimTrims(s);
      var i := TrimLeftFrom(s);
      var n := TrimRightTo(s[i..]);
      assert s[i..][..n] == s[i..i + n];
      assert forall k :: i + n <= k < |s| ==> s[k] == s[i..][k - i];
      assert SpacedAt(s, t, i);
    }
    if Trimmed(t) && Spaced(s, t) {
      var i: nat :| SpacedAt(s, t, i);
      assert s[i] == t[0];
      TrimLeftAt(s, i);
      var rest := s[i..];
      assert rest[..|t|] == t && rest[|t| - 1] == Last(t);
      TrimRightAt(rest, |t|);
    }
  }

  // ---- Decimal numerals ----

  predicate IsDigit(c: char) {
    '0' <= c <= '9'
  }

  predicate AllDigits(s: string) {
    forall i :: 0 <= i < |s| ==> IsDigit(s[i])
  }

  function DigitChar(d: nat): (c: char)
    requires d < 10
    ensures IsDigit(c) && DigitValue(c) == d
  {
    '0' + d as char
  }

  function DigitValue(c: char): (d: nat)
    requires IsDigit(c)
    ensures d < 10
  {
    (c - '0') as nat
  }

  // Number.prototype.toString and BigInt.prototype.toString in base ten.
  function Numeral(n: nat): (s: string)
    ensures s != "" && AllDigits(s)
  {
    if n < 10 then [DigitChar(n)] else Numeral(n / 10) + [DigitChar(n % 10)]
  }

  function Value(s: string): nat
    requires AllDigits(s)
  {
    if s == "" then 0 else Value(Front(s)) * 10 + DigitValue(Last(s))
  }

  lemma {:induction false} NumeralValue(n: nat)
    ensures Value(Numeral(n)) == n
  {
    if n >= 10 {
      NumeralValue(n / 10);
      assert Front(Numeral(n)) == Numeral(n / 10);
    } else {
      assert Front(Numeral(n)) == "";
    }
  }

  function Pow10(n: nat): (p: nat)
    ensures p > 0
  {
    if n == 0 then 1 else 10 * Pow10(n - 1)
  }

  function Repeat(c: char, n: nat): (s: string)
    ensures |s| == n && forall i :: 0 <= i < n ==> s[i] == c
  {
    seq(n, i requires 0 <= i < n => c)
  }

  lemma {:induction false} LeadingZeros(s: string, n: nat)
    requires AllDigits(s)
    ensures AllDigits(Repeat('0', n) + s) && Value(Repeat('0', n) + s) == Value(s)
  {
    var t := Repeat('0', n) + s;
    if s != "" {
      LeadingZeros(Front(s), n);
      assert Front(t) == Repeat('0', n) + Front(s);
    } else if n > 0 {
      LeadingZeros("", n - 1);
      assert Front(t) == Repeat('0', n - 1) + "";
      assert t == Repeat('0', n);
    }
  }

  // ---- Split and join ----

  function Join(parts: seq<string>, sep: char): string
    requires parts != []
  {
    if |parts| == 1 then parts[0] else parts[0] + [sep] + Join(parts[1..], sep)
  }

  function Split(s: string, sep: char): (parts: seq<string>)
    ensures parts != []
  {
    if s == "" then [""]
    else if s[0] == sep then [""] + Split(s[1..], sep)
    else
      var rest := Split(s[1..], sep);
      [[s[0]] + rest[0]] + rest[1..]
  }

  lemma {:induction false} SplitWord(word: string, tail: string, sep: char)
    requires sep !in word
    ensures Split(word + [sep] + tail, sep) == [word] + Split(tail, sep)
    ensures Split(word, sep) == [word]
  {
    if word == "" {
      assert ([sep] + tail)[1..] == tail;
      assert "" + [sep] + tail == [sep] + tail;
    } else {
      SplitWord(word[1..], tail, sep);
      assert (word + [sep] + tail)[1..] == word[1..] + [sep] + tail;
      assert word == [word[0]] + word[1..];
      assert ([word[1..]] + Split(tail, sep))[1..] == Split(tail, sep);
    }
  }

  lemma {:induction false} SplitJoin(parts: seq<string>, sep: char)
    requires parts != [] && forall i :: 0 <= i < |parts| ==> sep !in parts[i]
    ensures Split(Join(parts, sep), sep) == parts
  {
    if |parts| == 1 {
      SplitWord(parts[0], "", sep);
    } else {
      SplitJoin(parts[1..], sep);
      SplitWord(parts[0], Join(parts[1..], sep), sep);
    }
  }
}
