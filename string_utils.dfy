/**
 * Decimal rendering of unsigned integers (what `StringUtils::toString`
 * produces for an integer), a parser that undoes it, and the text after
 * the last occurrence of a separator.
 */
module StringUtils {
  import opened NetworkTypes

  predicate IsDigit(c: char) {
    '0' <= c <= '9'
  }

  predicate AllDigits(s: string) {
    forall i :: 0 <= i < |s| ==> IsDigit(s[i])
  }

  function DigitChar(d: nat): (c: char)
    requires d < 10
    ensures IsDigit(c)
  {
    ('0' as int + d) as char
  }

  function DigitValue(c: char): (d: nat)
    requires IsDigit(c)
    ensures d < 10
  {
    c as int - '0' as int
  }

  /** Decimal form of `n`, most significant digit first, without leading zeros. */
  function NatToString(n: nat): (s: string)
    ensures |s| > 0 && AllDigits(s)
    ensures s[0] == '0' ==> n == 0
    decreases n
  {
    if n < 10 then [DigitChar(n)] else NatToString(n / 10) + [DigitChar(n % 10)]
  }

  /** Value of a string of decimal digits. */
  function DigitsValue(s: string): nat
    requires AllDigits(s)
  {
    if s == [] then 0 else DigitsValue(s[..|s| - 1]) * 10 + DigitValue(s[|s| - 1])
  }

  /** Reads a non-empty string of decimal digits; anything else is rejected. */
  function ParseNat(s: string): Option<nat> {
    if |s| > 0 && AllDigits(s) then Some(DigitsValue(s)) else None
  }

  /** Rendering a number and reading it back gives the number. */
  lemma {:induction false} ParseNatToString(n: nat)
    ensures ParseNat(NatToString(n)) == Some(n)
    decreases n
  {
    var s := NatToString(n);
    if n < 10 {
      assert s == [DigitChar(n)];
      assert s[..0] == [];
      assert DigitValue(DigitChar(n)) == n;
      assert DigitsValue(s) == DigitsValue(s[..0]) * 10 + DigitValue(s[0]);
    } else {
      ParseNatToString(n / 10);
      var prefix := NatToString(n / 10);
      assert s == prefix + [DigitChar(n % 10)];
      assert s[..|s| - 1] == prefix;
      assert DigitsValue(prefix) == n / 10;
      assert DigitValue(DigitChar(n % 10)) == n % 10;
    }
  }

  /** The characters after the last `sep` in `s` (all of `s` when there is none). */
  function AfterLast(s: string, sep: char): string {
    if s == [] then []
    else if s[|s| - 1] == sep then []
    else AfterLast(s[..|s| - 1], sep) + [s[|s| - 1]]
  }

  /** When the tail `d` holds no separator, everything after the last separator is `d`. */
  lemma {:induction false} AfterLastOfTail(p: string, sep: char, d: string)
    requires sep !in d
    ensures AfterLast(p + [sep] + d, sep) == d
    decreases |d|
  {
    var s := p + [sep] + d;
    if d == [] {
      assert s[|s| - 1] == sep;
    } else {
      var init := d[..|d| - 1];
      assert s[..|s| - 1] == p + [sep] + init;
      assert s[|s| - 1] == d[|d| - 1];
      assert d[|d| - 1] in d;
      assert forall c :: c in init ==> c in d;
      AfterLastOfTail(p, sep, init);
      assert init + [d[|d| - 1]] == d;
    }
  }

  /** A decimal rendering never contains a separator character that is not a digit. */
  lemma NatToStringHasNo(n: nat, sep: char)
    requires !IsDigit(sep)
    ensures sep !in NatToString(n)
  {
  }
}
