// BIP 32 derivation paths: printing an element list and parsing a typed path.
module Bip32Path {
  import opened Basics
  import opened Strings

  const HARDENED: nat := 0x8000_0000
  const ELEMENT_LIMIT: nat := 0x1_0000_0000

  ghost predicate ValidPath(path: seq<nat>) {
    2 <= |path| <= 10 && forall i :: 0 <= i < |path| ==> path[i] < ELEMENT_LIMIT
  }

  function PrintElement(n: nat): string {
    if n >= HARDENED then Numeral(n - HARDENED) + "'" else Numeral(n)
  }

  function PrintAll(path: seq<nat>): (parts: seq<string>)
    ensures |parts| == |path|
  {
    seq(|path|, i requires 0 <= i < |path| => PrintElement(path[i]))
  }

  function PathToBip32(path: seq<nat>): string {
    "m/" + if path == [] then "" else Join(PrintAll(path), '/')
  }

  // ---- Parsing ----

  predicate IsMark(c: char) {
    c == '\'' || c == 'h' || c == 'H'
  }

  predicate IsHardened(part: string) {
    part != "" && IsMark(Last(part))
  }

  function Digits(part: string): string {
    if IsHardened(part) then Front(part) else part
  }

  // One path part, or nothing if it is malformed or out of range.
  function ParseElement(part: string): Option<nat> {
    var digits := Digits(part);
    if digits == "" || !AllDigits(digits) || Value(digits) >= HARDENED then None
    else Some(if IsHardened(part) then Value(digits) + HARDENED else Value(digits))
  }

  function ParseParts(parts: seq<string>): Option<seq<nat>> {
    if parts == [] then Some([])
    else
      var front, element := ParseParts(Front(parts)), ParseElement(Last(parts));
      if front.None? || element.None? then None else Some(front.value + [element.value])
  }

  function StripRoot(s: string): string {
    if |s| >= 2 && (s[0] == 'm' || s[0] == 'M') && s[1] == '/' then s[2..] else s
  }

  function Parse(input: string): Option<seq<nat>> {
    var trimmed := StripRoot(Trim(input));
    if trimmed == "" then None
    else
      var out := ParseParts(Split(trimmed, '/'));
      if out.Some? && 2 <= |out.value| <= 10 then out else None
  }

  method ParseBip32Path(input: string) returns (r: Option<seq<nat>>)
    ensures r == Parse(input)
  {
    var trimmed := StripRoot(Trim(input));
    if trimmed == "" {
      return None;
    }
    var parts := Split(trimmed, '/');
    var out: seq<nat> := [];
    for i := 0 to |parts|
      invariant ParseParts(parts[..i]) == Some(out)
    {
      assert Front(parts[..i + 1]) == parts[..i] && Last(parts[..i + 1]) == parts[i];
      var hardened := IsHardened(parts[i]);
      var numStr := if hardened then Front(parts[i]) else parts[i];
      if numStr == "" || !AllDigits(numStr) || Value(numStr) >= HARDENED {
        FailsEarly(parts, i + 1);
        return None;
      }
      out := out + [if hardened then Value(numStr) + HARDENED else Value(numStr)];
    }
    assert parts[..|parts|] == parts;
    if |out| < 2 || |out| > 10 {
      return None;
    }
    r := Some(out);
  }

  lemma {:induction false} FailsEarly(parts: seq<string>, n: nat)
    requires n <= |parts| && ParseParts(parts[..n]).None?
    ensures ParseParts(parts).None?
  {
    if n == |parts| {
      assert parts[..n] == parts;
    } else {
      assert Front(parts)[..n] == parts[..n];
      FailsEarly(Front(parts), n);
    }
  }

  // ---- Round trips ----

  lemma ElementSurvives(n: nat)
    requires n < ELEMENT_LIMIT
    ensures ParseElement(PrintElement(n)) == Some(n)
    ensures '/' !in PrintElement(n) && PrintElement(n) != ""
    ensures IsHardened(PrintElement(n)) <==> n >= HARDENED
    ensures !IsSpace(PrintElement(n)[0]) && !IsSpace(Last(PrintElement(n)))
  {
    var k := if n >= HARDENED then n - HARDENED else n;
    NumeralValue(k);
    assert Front(Numeral(k) + "'") == Numeral(k);
    assert IsDigit(Last(Numeral(k)));
  }

  lemma PrintAllEnds(path: seq<nat>)
    requires path != []
    ensures Front(PrintAll(path)) == PrintAll(Front(path)) && Last(PrintAll(path)) == PrintElement(Last(path))
  {
  }

  lemma {:induction false} PartsSurvive(path: seq<nat>)
    requires forall i :: 0 <= i < |path| ==> path[i] < ELEMENT_LIMIT
    ensures ParseParts(PrintAll(path)) == Some(path)
  {
    hide ParseElement, PrintElement;
    if path != [] {
      PrintAllEnds(path);
      PartsSurvive(Front(path));
      assert path == Front(path) + [Last(path)];
      ElementSurvives(Last(path));
    }
  }

  lemma {:induction false} JoinEnds(parts: seq<string>, sep: char)
    requires parts != [] && forall i :: 0 <= i < |parts| ==> parts[i] != ""
    ensures Join(parts, sep) != "" && Last(Join(parts, sep)) == Last(Last(parts))
  {
    if |parts| > 1 {
      JoinEnds(parts[1..], sep);
      assert Last(parts[1..]) == Last(parts);
    }
  }

  // Parsing what was printed gives the path back.
  lemma ParsePrinted(path: seq<nat>)
    requires ValidPath(path)
    ensures Parse(PathToBip32(path)) == Some(path)
  {
    var parts := PrintAll(path);
    forall i | 0 <= i < |parts| ensures '/' !in parts[i] && parts[i] != "" {
      ElementSurvives(path[i]);
    }
    ElementSurvives(Last(path));
    SplitJoin(parts, '/');
    PartsSurvive(path);
    JoinEnds(parts, '/');
    var printed := PathToBip32(path);
    assert Last(printed) == Last(Join(parts, '/'));
    assert Last(parts) == PrintElement(Last(path));
    TrimFixed(printed);
    assert StripRoot(printed) == Join(parts, '/');
  }

  lemma {:induction false} ParsedInRange(parts: seq<string>)
    requires ParseParts(parts).Some?
    ensures forall i :: 0 <= i < |ParseParts(parts).value| ==> ParseParts(parts).value[i] < ELEMENT_LIMIT
  {
    if parts != [] {
      ParsedInRange(Front(parts));
    }
  }

  // Whatever is accepted is a valid path, and printing it and parsing again
  // accepts the same path.
  lemma ReparseAccepted(input: string)
    requires Parse(input).Some?
    ensures ValidPath(Parse(input).value)
    ensures Parse(PathToBip32(Parse(input).value)) == Parse(input)
  {
    ParsedInRange(Split(StripRoot(Trim(input)), '/'));
    ParsePrinted(Parse(input).value);
  }

  // Different paths print differently.
  lemma PrintInjective(p: seq<nat>, q: seq<nat>)
    requires ValidPath(p) && ValidPath(q) && PathToBip32(p) == PathToBip32(q)
    ensures p == q
  {
    ParsePrinted(p);
    ParsePrinted(q);
  }
}
