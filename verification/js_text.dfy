/**
 * The two pieces of JavaScript string behaviour the bridge relies on:
 * `String.prototype.trim` and the decimal rendering of an integer inside a
 * template literal. JavaScript strings are modelled as `seq<char>`.
 */
module JsText {
  import opened Wrappers

  /** JavaScript truthiness of a value that is a string or absent: present and non-empty. */
  predicate Truthy(s: Option<string>) {
    s.Some? && s.value != []
  }

  /** The characters `trim` removes: ECMAScript WhiteSpace plus LineTerminator. */
  predicate IsJsWhitespace(c: char) {
    || c == '\t' || c == '\n' || c == '\U{000B}' || c == '\U{000C}' || c == '\r'
    || c == ' ' || c == '\U{00A0}' || c == '\U{1680}'
    || ('\U{2000}' <= c <= '\U{200A}')
    || c == '\U{2028}' || c == '\U{2029}' || c == '\U{202F}' || c == '\U{205F}'
    || c == '\U{3000}' || c == '\U{FEFF}'
  }

  /** Every character of `s` is whitespace (the empty string included). */
  predicate IsBlank(s: string) {
    forall i :: 0 <= i < |s| ==> IsJsWhitespace(s[i])
  }

  /** Length of the whitespace run at the front of `s`. */
  function LeadingSpace(s: string): (k: nat)
    ensures k <= |s|
    ensures forall i :: 0 <= i < k ==> IsJsWhitespace(s[i])
    ensures k < |s| ==> !IsJsWhitespace(s[k])
    decreases |s|
  {
    if |s| > 0 && IsJsWhitespace(s[0]) then 1 + LeadingSpace(s[1..]) else 0
  }

  /** Length of the whitespace run at the back of `s`. */
  function TrailingSpace(s: string): (k: nat)
    ensures k <= |s|
    ensures forall i :: |s| - k <= i < |s| ==> IsJsWhitespace(s[i])
    ensures k < |s| ==> !IsJsWhitespace(s[|s| - 1 - k])
    decreases |s|
  {
    if |s| > 0 && IsJsWhitespace(s[|s| - 1]) then 1 + TrailingSpace(s[..|s| - 1]) else 0
  }

  /**
   * `s.trim()`: the infix of `s` left after removing leading and trailing
   * whitespace. It is empty exactly when `s` is blank, and otherwise starts
   * and ends with a non-whitespace character.
   */
  function Trim(s: string): (r: string)
    ensures |r| <= |s|
    ensures r == [] <==> IsBlank(s)
    ensures r != [] ==> !IsJsWhitespace(r[0]) && !IsJsWhitespace(r[|r| - 1])
    ensures exists i :: 0 <= i <= |s| - |r|
                        && r == s[i..i + |r|]
                        && IsBlank(s[..i])
                        && IsBlank(s[i + |r|..])
  {
    var i := LeadingSpace(s);
    var k := TrailingSpace(s[i..]);
    TrimmedInfix(s, i, k);
    s[i..|s| - k]
  }

  /**
   * What cutting a leading whitespace run of length `i` and then a trailing
   * run of length `k` from the remainder leaves.
   */
  lemma TrimmedInfix(s: string, i: nat, k: nat)
    requires i <= |s| && k <= |s| - i
    requires IsBlank(s[..i]) && (i < |s| ==> !IsJsWhitespace(s[i]))
    requires forall j :: |s| - k <= j < |s| ==> IsJsWhitespace(s[j])
    requires k < |s| - i ==> !IsJsWhitespace(s[|s| - 1 - k])
    ensures var r := s[i..|s| - k];
            && (r == [] <==> IsBlank(s))
            && (r != [] ==> !IsJsWhitespace(r[0]) && !IsJsWhitespace(r[|r| - 1]))
            && r == s[i..i + |r|] && IsBlank(s[i + |r|..])
  {
    var r := s[i..|s| - k];
    var tail := s[i + |r|..];
    assert IsBlank(tail) by {
      forall j | 0 <= j < |tail|
        ensures IsJsWhitespace(tail[j])
      {
        assert tail[j] == s[i + |r| + j];
      }
    }
    if r == [] {
      assert IsBlank(s) by {
        forall j | 0 <= j < |s|
          ensures IsJsWhitespace(s[j])
        {
          if j < i { assert s[j] == s[..i][j]; }
        }
      }
    } else {
      assert r[0] == s[i];
      assert r[|r| - 1] == s[|s| - 1 - k];
    }
  }

  /** Trimming twice is trimming once. */
  lemma TrimIdempotent(s: string)
    ensures Trim(Trim(s)) == Trim(s)
  {
    var r := Trim(s);
    if r != [] {
      assert LeadingSpace(r) == 0;
      assert TrailingSpace(r) == 0;
      assert r[0..|r|] == r;
    }
  }

  /** The decimal digit for `d`. */
  function DigitChar(d: nat): (c: char)
    requires d < 10
    ensures '0' <= c <= '9'
  {
    ['0', '1', '2', '3', '4', '5', '6', '7', '8', '9'][d]
  }

  /** The value of a decimal digit character. */
  function DigitValue(c: char): (d: nat)
    requires '0' <= c <= '9'
    ensures d < 10 && DigitChar(d) == c
  {
    (c as int - '0' as int)
  }

  predicate IsDigits(s: string) {
    forall i :: 0 <= i < |s| ==> '0' <= s[i] <= '9'
  }

  /** How JavaScript renders a non-negative integer: decimal digits, no leading zero. */
  function NatToDecimal(n: nat): (r: string)
    ensures |r| >= 1 && IsDigits(r)
    ensures r[0] == '0' ==> n == 0
    decreases n
  {
    if n < 10 then [DigitChar(n)] else NatToDecimal(n / 10) + [DigitChar(n % 10)]
  }

  /** Reads a string of decimal digits back as a number. */
  function DecimalValue(s: string): nat
    requires IsDigits(s)
    decreases |s|
  {
    if s == [] then 0 else 10 * DecimalValue(s[..|s| - 1]) + DigitValue(s[|s| - 1])
  }

  /** The decimal rendering reads back as the number it renders. */
  lemma {:induction false} DecimalRoundTrip(n: nat)
    ensures DecimalValue(NatToDecimal(n)) == n
    decreases n
  {
    var r := NatToDecimal(n);
    if n < 10 {
      assert DigitValue(DigitChar(n)) == n;
    } else {
      DecimalRoundTrip(n / 10);
      assert r[..|r| - 1] == NatToDecimal(n / 10);
      assert DigitValue(DigitChar(n % 10)) == n % 10;
    }
  }

  /** A digit string as JavaScript renders numbers: non-empty, and no leading zero unless it is "0". */
  predicate IsCanonicalDecimal(s: string) {
    s != [] && IsDigits(s) && (s[0] == '0' ==> |s| == 1)
  }

  /** A canonical digit string has value at least 10 once it has two digits. */
  lemma {:induction false} CanonicalValueBound(s: string)
    requires IsCanonicalDecimal(s) && |s| >= 2
    ensures DecimalValue(s) >= 10
    decreases |s|
  {
    var init := s[..|s| - 1];
    assert init[0] == s[0];
    if |init| >= 2 {
      CanonicalValueBound(init);
    } else {
      assert init == [s[0]];
      assert DecimalValue(init) == DigitValue(s[0]);
    }
  }

  /**
   * `NatToDecimal` is the only canonical rendering: any digit string without
   * a leading zero that reads back as `n` is exactly `NatToDecimal(n)`.
   */
  lemma {:induction false} DecimalCanonical(s: string, n: nat)
    requires IsCanonicalDecimal(s) && DecimalValue(s) == n
    ensures s == NatToDecimal(n)
    decreases |s|
  {
    if |s| == 1 {
      assert s[..0] == [];
      assert DigitChar(DigitValue(s[0])) == s[0];
    } else {
      CanonicalValueBound(s);
      var init := s[..|s| - 1];
      assert init[0] == s[0];
      assert n / 10 == DecimalValue(init) && n % 10 == DigitValue(s[|s| - 1]);
      DecimalCanonical(init, n / 10);
      assert s == init + [s[|s| - 1]];
    }
  }

  /** How JavaScript renders an integer: a minus sign before negative values. */
  function IntToDecimal(i: int): string {
    if i < 0 then "-" + NatToDecimal(-i) else NatToDecimal(i)
  }
}
