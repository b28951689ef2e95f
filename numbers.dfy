/** JavaScript's two string-to-number conversions as src/App.js uses them on form input:
    `parseInt` for the quantity and `Number` for each sales token. A JS number that is
    not a number is the value NaN; every number the model produces is an integer. */
module JsNumbers {

  /** A JS number as far as this program can produce one from its form: NaN or an integer. */
  datatype Num = NaN | Int(v: int)

  predicate IsDigit(c: char) {
    '0' <= c <= '9'
  }

  function DigitValue(c: char): (d: nat)
    requires IsDigit(c)
    ensures d < 10
  {
    (c as int) - ('0' as int)
  }

  function DigitChar(d: nat): (c: char)
    requires d < 10
    ensures IsDigit(c) && DigitValue(c) == d
  {
    (('0' as int) + d) as char
  }

  predicate AllDigits(s: string) {
    forall i :: 0 <= i < |s| ==> IsDigit(s[i])
  }

  /** The value of a string of decimal digits, read left to right (leading zeros allowed). */
  function DigitsValue(s: string): nat
    requires AllDigits(s)
  {
    if s == [] then 0 else DigitsValue(s[..|s| - 1]) * 10 + DigitValue(s[|s| - 1])
  }

  /** The shortest decimal spelling of a natural number. */
  function DecimalString(n: nat): (s: string)
    ensures |s| >= 1 && AllDigits(s)
  {
    if n < 10 then [DigitChar(n)] else DecimalString(n / 10) + [DigitChar(n % 10)]
  }

  /** The decimal spelling of an integer, with a leading '-' when negative. */
  function IntString(v: int): (s: string)
    ensures |s| >= 1
  {
    if v < 0 then "-" + DecimalString(-v) else DecimalString(v)
  }

  /** The longest prefix of `s` made of digits. */
  function LeadingDigits(s: string): (p: string)
    ensures |p| <= |s| && p == s[..|p|] && AllDigits(p)
    ensures |p| < |s| ==> !IsDigit(s[|p|])
  {
    if s == [] || !IsDigit(s[0]) then [] else [s[0]] + LeadingDigits(s[1..])
  }

  /** The string after an optional leading '+' or '-'. */
  function Unsigned(s: string): string {
    if |s| > 0 && (s[0] == '-' || s[0] == '+') then s[1..] else s
  }

  predicate Negative(s: string) {
    |s| > 0 && s[0] == '-'
  }

  /** `parseInt(s)`: an optional sign, then as many digits as there are; anything after
      them is ignored; NaN when no digit follows the sign. */
  function ParseInt(s: string): (r: Num)
    ensures r.Int? <==> |Unsigned(s)| > 0 && IsDigit(Unsigned(s)[0])
  {
    var ds := LeadingDigits(Unsigned(s));
    if ds == [] then NaN
    else
      var n: int := DigitsValue(ds);
      Int(if Negative(s) then -n else n)
  }

  /** `Number(s)`: the empty string is 0; otherwise an optional sign followed by nothing
      but digits (at least one); anything else is NaN. */
  function ToNumber(s: string): (r: Num)
    ensures s == "" ==> r == Int(0)
    ensures s != "" ==> (r.Int? <==> |Unsigned(s)| > 0 && AllDigits(Unsigned(s)))
  {
    if s == [] then Int(0)
    else
      var body := Unsigned(s);
      if body != [] && AllDigits(body) then
        var n: int := DigitsValue(body);
        Int(if Negative(s) then -n else n)
      else NaN
  }

  lemma {:induction false} DigitsRoundTrip(n: nat)
    ensures DigitsValue(DecimalString(n)) == n
  {
    if n >= 10 {
      var s := DecimalString(n);
      assert s[..|s| - 1] == DecimalString(n / 10);
      DigitsRoundTrip(n / 10);
    }
  }

  lemma {:induction false} LeadingDigitsOfDigits(s: string, t: string)
    requires AllDigits(s)
    requires t == [] || !IsDigit(t[0])
    ensures LeadingDigits(s + t) == s
  {
    if s != [] {
      assert (s + t)[1..] == s[1..] + t;
      LeadingDigitsOfDigits(s[1..], t);
    } else {
      assert s + t == t;
    }
  }

  /** Both conversions read back the spelling IntString gives an integer. */
  lemma IntStringRoundTrip(v: int)
    ensures ToNumber(IntString(v)) == Int(v)
    ensures ParseInt(IntString(v)) == Int(v)
  {
    var ds := DecimalString(if v < 0 then -v else v);
    DigitsRoundTrip(if v < 0 then -v else v);
    assert Unsigned(IntString(v)) == ds by {
      if v < 0 { assert IntString(v)[1..] == ds; }
    }
    LeadingDigitsOfDigits(ds, []);
    assert ds + [] == ds;
  }

  /** `parseInt` stops at the first character that is not a digit. */
  lemma ParseIntOfDigits(s: string, ds: string, t: string)
    requires AllDigits(ds) && ds != []
    requires t == [] || !IsDigit(t[0])
    requires Unsigned(s) == ds + t
    ensures Negative(s) ==> ParseInt(s) == Int(-(DigitsValue(ds) as int))
    ensures !Negative(s) ==> ParseInt(s) == Int(DigitsValue(ds))
  {
    LeadingDigitsOfDigits(ds, t);
  }

  lemma ParseIntIgnoresTail(v: int, t: string)
    requires t == [] || !IsDigit(t[0])
    ensures ParseInt(IntString(v) + t) == Int(v)
  {
    var n: nat := if v < 0 then -v else v;
    var ds := DecimalString(n);
    var s := IntString(v) + t;
    DigitsRoundTrip(n);
    if v < 0 {
      assert s == ['-'] + (ds + t);
      assert s[1..] == ds + t;
      assert Unsigned(s) == ds + t && Negative(s);
    } else {
      assert s == ds + t;
      assert s[0] == ds[0] && IsDigit(ds[0]);
      assert Unsigned(s) == ds + t && !Negative(s);
    }
    ParseIntOfDigits(s, ds, t);
  }

  /** Wherever `Number` accepts a non-empty string, `parseInt` reads the same value. */
  lemma ParseIntAgreesWithToNumber(s: string)
    requires s != "" && ToNumber(s).Int?
    ensures ParseInt(s) == ToNumber(s)
  {
    LeadingDigitsOfDigits(Unsigned(s), []);
    assert Unsigned(s) + [] == Unsigned(s);
  }
}
