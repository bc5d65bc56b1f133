// Base units of a token as an exact decimal string.
module TokenUnits {
  import opened Basics
  import opened Strings

  function PadStart(s: string, width: nat): string {
    if |s| >= width then s else Repeat('0', width - |s|) + s
  }

  function StripTrailingZeros(s: string): string {
    if s != "" && Last(s) == '0' then StripTrailingZeros(Front(s)) else s
  }

  function Quotient(a: nat, b: nat): nat
    requires b > 0
  {
    a / b
  }

  function Remainder(a: nat, b: nat): (r: nat)
    requires b > 0
    ensures r < b
  {
    a % b
  }

  function Fraction(amount: nat, decimals: nat): string {
    StripTrailingZeros(PadStart(Numeral(Remainder(amount, Pow10(decimals))), decimals))
  }

  function TokenUnits(amount: nat, decimals: nat): string {
    var fraction := Fraction(amount, decimals);
    Numeral(Quotient(amount, Pow10(decimals))) + if fraction != "" then "." + fraction else ""
  }

  // ---- What a decimal string denotes ----

  // whole and fraction are the digits before and after the point of s; without
  // a point, all of s is whole.
  ghost predicate Reads(s: string, whole: string, fraction: string) {
    && whole != "" && AllDigits(whole) && AllDigits(fraction)
    && (s == whole + "." + fraction || (fraction == "" && s == whole))
  }

  // whole.fraction is amount / 10^decimals.
  ghost predicate Denotes(whole: string, fraction: string, amount: nat, decimals: nat)
    requires AllDigits(whole) && AllDigits(fraction)
  {
    |fraction| <= decimals &&
    Value(whole) * Pow10(decimals) + Value(fraction) * Pow10(decimals - |fraction|) == amount
  }

  lemma TimesTen(a: nat, b: nat)
    ensures a * (10 * b) == (a * 10) * b
  {
  }

  lemma DivMod(a: nat, b: nat)
    requires b > 0
    ensures Quotient(a, b) * b + Remainder(a, b) == a
  {
  }

  lemma {:induction false} StripKeeps(s: string, width: nat)
    requires AllDigits(s) && |s| <= width
    ensures var t := StripTrailingZeros(s);
      && AllDigits(t) && |t| <= |s|
      && Value(t) * Pow10(width - |t|) == Value(s) * Pow10(width - |s|)
      && (t == "" || Last(t) != '0')
  {
    if s != "" && Last(s) == '0' {
      StripKeeps(Front(s), width);
      TimesTen(Value(Front(s)), Pow10(width - |s|));
    }
  }

  lemma {:induction false} NumeralLength(n: nat, width: nat)
    requires n < Pow10(width) && width > 0
    ensures |Numeral(n)| <= width
  {
    if n >= 10 {
      NumeralLength(n / 10, width - 1);
    }
  }

  // The padded fraction before its zeros are stripped: decimals digits, or the
  // single "0" that zero decimals leave.
  lemma PaddedFraction(amount: nat, decimals: nat)
    ensures var p := PadStart(Numeral(Remainder(amount, Pow10(decimals))), decimals);
      && AllDigits(p) && Value(p) == Remainder(amount, Pow10(decimals))
      && (decimals > 0 ==> |p| == decimals)
      && (decimals == 0 ==> p == "0")
  {
    var rest := Remainder(amount, Pow10(decimals));
    var digits := Numeral(rest);
    NumeralValue(rest);
    if decimals > 0 {
      NumeralLength(rest, decimals);
      if |digits| < decimals {
        LeadingZeros(digits, decimals - |digits|);
      }
    }
  }

  lemma FractionFacts(amount: nat, decimals: nat)
    ensures var f := Fraction(amount, decimals);
      && AllDigits(f) && |f| <= decimals && (f == "" || Last(f) != '0')
      && Value(f) * Pow10(decimals - |f|) == Remainder(amount, Pow10(decimals))
  {
    PaddedFraction(amount, decimals);
    var p := PadStart(Numeral(Remainder(amount, Pow10(decimals))), decimals);
    if decimals > 0 {
      StripKeeps(p, decimals);
    } else {
      assert Front(p) == "" && StripTrailingZeros(p) == "";
    }
  }

  // The printed string denotes exactly amount / 10^decimals, ends in no
  // fractional zero, and has no point without digits after it.
  lemma TokenUnitsExact(amount: nat, decimals: nat)
    ensures var whole, fraction := Numeral(Quotient(amount, Pow10(decimals))), Fraction(amount, decimals);
      && Reads(TokenUnits(amount, decimals), whole, fraction)
      && Denotes(whole, fraction, amount, decimals)
      && (fraction != "" ==> Last(TokenUnits(amount, decimals)) != '0')
      && Last(TokenUnits(amount, decimals)) != '.'
  {
    var scale := Pow10(decimals);
    NumeralValue(Quotient(amount, scale));
    FractionFacts(amount, decimals);
    DivMod(amount, scale);
  }

  // A string reads in at most one way: at its first point.
  lemma ReadsAtPoint(s: string, w: string, f: string)
    requires Reads(s, w, f)
    ensures w == s[..IndexOf(s, '.')]
    ensures f == if IndexOf(s, '.') < |s| then s[IndexOf(s, '.') + 1..] else ""
  {
    IndexIs(s, '.', |w|);
  }

  // For fixed decimals no two amounts print alike.
  lemma TokenUnitsInjective(a: nat, b: nat, decimals: nat)
    requires TokenUnits(a, decimals) == TokenUnits(b, decimals)
    ensures a == b
  {
    var (wa, fa) := (Numeral(Quotient(a, Pow10(decimals))), Fraction(a, decimals));
    var (wb, fb) := (Numeral(Quotient(b, Pow10(decimals))), Fraction(b, decimals));
    TokenUnitsExact(a, decimals);
    TokenUnitsExact(b, decimals);
    hide TokenUnits, Reads, Denotes, Fraction;
    ReadsAtPoint(TokenUnits(a, decimals), wa, fa);
    ReadsAtPoint(TokenUnits(b, decimals), wb, fb);
    DenotesOnce(wa, fa, a, b, decimals);
  }

  lemma DenotesOnce(whole: string, fraction: string, a: nat, b: nat, decimals: nat)
    requires AllDigits(whole) && AllDigits(fraction)
    requires Denotes(whole, fraction, a, decimals) && Denotes(whole, fraction, b, decimals)
    ensures a == b
  {
  }
}
