/** The two JavaScript number conversions the codec uses: `Number.prototype.toString`
    on a non-negative integer, and the global `parseFloat`. */
module Numbers {
  import opened Text

  /** A JavaScript number as far as the client can produce one: a non-negative integer,
      or `NaN` when `parseFloat` finds no number. */
  datatype Num = Finite(value: nat) | NaN

  predicate IsDigit(c: char) {
    '0' <= c <= '9'
  }

  predicate AllDigits(s: string) {
    forall i :: 0 <= i < |s| ==> IsDigit(s[i])
  }

  function DigitChar(d: nat): (c: char)
    requires d < 10
    ensures IsDigit(c)
  {
    ('0' as int + d) as char
  }

  function DigitOf(c: char): (d: nat)
    requires IsDigit(c)
    ensures d < 10 && DigitChar(d) == c
  {
    c as int - '0' as int
  }

  /** `n.toString()`: the shortest decimal rendering of `n`. */
  function DecimalString(n: nat): (s: string)
    ensures |s| > 0 && AllDigits(s)
    ensures |s| > 1 ==> s[0] != '0'
    decreases n
  {
    if n < 10 then [DigitChar(n)] else DecimalString(n / 10) + [DigitChar(n % 10)]
  }

  /** The value of a string of decimal digits, most significant first. */
  function DigitsValue(s: string): nat
    requires AllDigits(s)
    decreases |s|
  {
    if s == [] then 0 else DigitsValue(s[..|s| - 1]) * 10 + DigitOf(s[|s| - 1])
  }

  /** Reading back the decimal rendering gives the number. */
  lemma {:induction false} DigitsValueOfDecimal(n: nat)
    ensures DigitsValue(DecimalString(n)) == n
    decreases n
  {
    var s := DecimalString(n);
    if n >= 10 {
      assert s[..|s| - 1] == DecimalString(n / 10);
      DigitsValueOfDecimal(n / 10);
    }
  }

  /** Distinct numbers have distinct renderings. */
  lemma DecimalStringInjective(m: nat, n: nat)
    requires DecimalString(m) == DecimalString(n)
    ensures m == n
  {
    DigitsValueOfDecimal(m);
    DigitsValueOfDecimal(n);
  }

  /** The longest prefix of `s` made of decimal digits. */
  function LeadingDigits(s: string): (r: string)
    ensures |r| <= |s| && r == s[..|r|] && AllDigits(r)
    ensures |r| < |s| ==> !IsDigit(s[|r|])
    decreases |s|
  {
    if |s| > 0 && IsDigit(s[0]) then [s[0]] + LeadingDigits(s[1..]) else []
  }

  /** `parseFloat(s)` for the literals this client can produce: leading white space is
      skipped, and the longest run of decimal digits that follows is the value; with no
      digit there the result is `NaN`. */
  function ParseFloat(s: string): Num {
    var digits := LeadingDigits(TrimStart(s));
    if digits == [] then NaN else Finite(DigitsValue(digits))
  }

  /** `parseFloat` reads back what `toString` wrote. */
  lemma ParseFloatOfDecimal(n: nat)
    ensures ParseFloat(DecimalString(n)) == Finite(n)
  {
    var s := DecimalString(n);
    ParseFloatIgnoresSurroundings([], n, []);
    assert [] + s + [] == s;
  }

  /** `parseFloat` reads back what `toString` wrote, whatever white space precedes it and
      whatever follows it that cannot continue a number (a digit, a fraction or an
      exponent). */
  lemma ParseFloatIgnoresSurroundings(pre: string, n: nat, post: string)
    requires IsBlank(pre)
    requires post == [] || (!IsDigit(post[0]) && post[0] != '.' && post[0] != 'e' && post[0] != 'E')
    ensures ParseFloat(pre + DecimalString(n) + post) == Finite(n)
  {
    var s := DecimalString(n);
    TrimStartBlankPrefix(pre, s + post);
    assert pre + s + post == pre + (s + post);
    LeadingDigitsOfDigits(s, post);
    DigitsValueOfDecimal(n);
  }

  lemma {:induction false} TrimStartBlankPrefix(pre: string, s: string)
    requires IsBlank(pre)
    requires s == [] || !IsJsSpace(s[0])
    ensures TrimStart(pre + s) == s
    decreases |pre|
  {
    if pre == [] {
      assert pre + s == s;
    } else {
      assert (pre + s)[1..] == pre[1..] + s;
      TrimStartBlankPrefix(pre[1..], s);
    }
  }

  lemma {:induction false} LeadingDigitsOfDigits(s: string, post: string)
    requires AllDigits(s)
    requires post == [] || !IsDigit(post[0])
    ensures LeadingDigits(s + post) == s
    decreases |s|
  {
    if s == [] {
      assert s + post == post;
    } else {
      assert (s + post)[1..] == s[1..] + post;
      LeadingDigitsOfDigits(s[1..], post);
      assert [s[0]] + s[1..] == s;
    }
  }
}
