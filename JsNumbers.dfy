/** The two JavaScript number primitives the statistics rely on:
    `parseInt(s, 10)` and `Math.round(x)`, modelled exactly on
    unbounded integers and reals. */
module JsNumbers {
  import opened Wrappers

  /** The characters `parseInt` skips before the number (StrWhiteSpaceChar
      of ECMAScript: white space, including every Unicode space separator,
      and line terminators). */
  predicate IsJsWhitespace(c: char) {
    || c == ' ' || c == '\t' || c == '\n' || c == '\r'
    || c == '\U{000B}' || c == '\U{000C}' || c == '\U{00A0}' || c == '\U{1680}'
    || ('\U{2000}' <= c <= '\U{200A}')
    || c == '\U{2028}' || c == '\U{2029}' || c == '\U{202F}' || c == '\U{205F}'
    || c == '\U{3000}' || c == '\U{FEFF}'
  }

  predicate IsDigit(c: char) { '0' <= c <= '9' }

  function DigitValue(c: char): (d: nat)
    requires IsDigit(c)
    ensures d < 10
  {
    (c as int) - ('0' as int)
  }

  function DigitChar(d: nat): (c: char)
    requires d < 10
    ensures IsDigit(c) && DigitValue(c) == d
  {
    (('0' as int) + d) as char
  }

  /** `s` with its leading white space removed. */
  function TrimStart(s: string): string
  {
    if s != [] && IsJsWhitespace(s[0]) then TrimStart(s[1..]) else s
  }

  /** The longest prefix of `s` made of decimal digits. */
  function LeadingDigits(s: string): (r: string)
    ensures forall i :: 0 <= i < |r| ==> IsDigit(r[i])
    ensures r == [] <==> s == [] || !IsDigit(s[0])
  {
    if s != [] && IsDigit(s[0]) then [s[0]] + LeadingDigits(s[1..]) else []
  }

  /** The value of a run of decimal digits, most significant first. */
  function DigitsValue(ds: string): nat
    requires forall i :: 0 <= i < |ds| ==> IsDigit(ds[i])
  {
    if ds == [] then 0
    else DigitsValue(ds[..|ds| - 1]) * 10 + DigitValue(ds[|ds| - 1])
  }

  /** Splits what follows the white space into an optional sign and the
      rest: `(true, rest)` after a '-', `(false, rest)` otherwise. */
  function SplitSign(t: string): (r: (bool, string))
    ensures r.1 == (if t != [] && (t[0] == '-' || t[0] == '+') then t[1..] else t)
    ensures r.0 <==> t != [] && t[0] == '-'
  {
    if t != [] && t[0] == '-' then (true, t[1..])
    else if t != [] && t[0] == '+' then (false, t[1..])
    else (false, t)
  }

  /** `parseInt(s, 10)`: optional leading white space, an optional sign,
      then the longest run of decimal digits; `None` stands for `NaN`,
      which the source gets when no digit follows the sign. */
  function ParseInt(s: string): (r: Option<int>)
    ensures var rest := SplitSign(TrimStart(s)).1;
            r.None? <==> rest == [] || !IsDigit(rest[0])
  {
    ParseSigned(TrimStart(s))
  }

  /** `parseInt` on text whose leading white space is already gone. */
  function ParseSigned(t: string): (r: Option<int>)
    ensures var rest := SplitSign(t).1;
            r.None? <==> rest == [] || !IsDigit(rest[0])
  {
    var sign := SplitSign(t);
    var ds := LeadingDigits(sign.1);
    if ds == [] then None
    else
      var v: int := DigitsValue(ds);
      Some(if sign.0 then -v else v)
  }

  /** Decimal digits of a natural number, as `Number.prototype.toString`
      writes it. */
  function ShowNat(n: nat): (s: string)
    ensures s != [] && forall i :: 0 <= i < |s| ==> IsDigit(s[i])
  {
    if n < 10 then [DigitChar(n)] else ShowNat(n / 10) + [DigitChar(n % 10)]
  }

  /** The decimal text of an integer, with a '-' when it is negative. */
  function Show(n: int): (s: string)
    ensures s != [] && !IsJsWhitespace(s[0])
  {
    if n < 0 then "-" + ShowNat(-n) else ShowNat(n)
  }

  lemma {:induction false} ShowNatValue(n: nat)
    ensures DigitsValue(ShowNat(n)) == n
  {
    if n >= 10 {
      var s := ShowNat(n);
      assert s[..|s| - 1] == ShowNat(n / 10);
      ShowNatValue(n / 10);
    }
  }

  lemma {:induction false} LeadingDigitsOfDigits(ds: string, t: string)
    requires forall i :: 0 <= i < |ds| ==> IsDigit(ds[i])
    requires t == [] || !IsDigit(t[0])
    ensures LeadingDigits(ds + t) == ds
  {
    if ds != [] {
      assert (ds + t)[1..] == ds[1..] + t;
      LeadingDigitsOfDigits(ds[1..], t);
    }
  }

  /** A rating written as an integer and followed by anything that does
      not start with a digit (nothing, "/100", "%", " points") is read back
      as that integer. */
  lemma ParseIntShow(n: int, suffix: string)
    requires suffix == [] || !IsDigit(suffix[0])
    ensures ParseInt(Show(n) + suffix) == Some(n)
  {
    var s := Show(n) + suffix;
    assert s[0] == Show(n)[0];
    assert TrimStart(s) == s;
    var m: nat := if n < 0 then -n else n;
    var digits := ShowNat(m);
    assert SplitSign(s) == (n < 0, digits + suffix) by {
      if n < 0 {
        assert s == "-" + (digits + suffix);
      } else {
        assert s == digits + suffix;
        assert IsDigit(s[0]);
      }
    }
    LeadingDigitsOfDigits(digits, suffix);
    ShowNatValue(m);
    assert ParseSigned(s) == Some(n);
  }

  /** Round trip: `parseInt` reads back the decimal text of every integer. */
  lemma ParseIntRoundTrip(n: int)
    ensures ParseInt(Show(n)) == Some(n)
  {
    ParseIntShow(n, "");
    assert Show(n) + "" == Show(n);
  }

  /** White space in front of the number changes nothing. */
  lemma {:induction false} ParseIntSkipsWhitespace(ws: string, s: string)
    requires forall i :: 0 <= i < |ws| ==> IsJsWhitespace(ws[i])
    ensures ParseInt(ws + s) == ParseInt(s)
  {
    if ws != [] {
      var t := ws + s;
      assert t[0] == ws[0];
      assert t[1..] == ws[1..] + s;
      assert TrimStart(t) == TrimStart(ws[1..] + s);
      ParseIntSkipsWhitespace(ws[1..], s);
    } else {
      assert ws + s == s;
    }
  }

  /** `Math.round(x)`: the integer nearest to `x`, halves going up
      (towards +infinity). */
  function MathRound(x: real): (r: int)
    ensures (r as real) - 0.5 <= x < (r as real) + 0.5
  {
    (x + 0.5).Floor
  }

  /** Rounding keeps a value inside any integer interval it lies in. */
  lemma MathRoundBetween(x: real, lo: int, hi: int)
    requires lo as real <= x <= hi as real
    ensures lo <= MathRound(x) <= hi
  {
  }
}
