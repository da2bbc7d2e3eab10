/** The JavaScript string operations the client code relies on: `trim`,
    `parseInt(s, 10)`, the decimal rendering of integers (template literals,
    `toString`) and `slice(-n)`. */
module JsText {
  import opened Values

  /** The WhiteSpace and LineTerminator code points of ECMA-262 (sections 12.2
      and 12.3), which `trim` strips and `parseInt` skips. */
  predicate IsJsWhitespace(c: char) {
    || c == '\t' || c == '\n' || c == '\U{B}' || c == '\U{C}' || c == '\r'
    || c == ' ' || c == '\U{A0}' || c == '\U{1680}'
    || ('\U{2000}' <= c <= '\U{200A}')
    || c == '\U{2028}' || c == '\U{2029}' || c == '\U{202F}' || c == '\U{205F}'
    || c == '\U{3000}' || c == '\U{FEFF}'
  }

  /** `trimStart`: the longest suffix that does not start with whitespace. */
  function TrimStart(s: string): (r: string)
    ensures |r| <= |s| && r == s[|s| - |r|..]
    ensures forall i :: 0 <= i < |s| - |r| ==> IsJsWhitespace(s[i])
    ensures r != [] ==> !IsJsWhitespace(r[0])
  {
    if s != [] && IsJsWhitespace(s[0]) then TrimStart(s[1..]) else s
  }

  /** `trimEnd`: the longest prefix that does not end with whitespace. */
  function TrimEnd(s: string): (r: string)
    ensures |r| <= |s| && r == s[..|r|]
    ensures forall i :: |r| <= i < |s| ==> IsJsWhitespace(s[i])
    ensures r != [] ==> !IsJsWhitespace(r[|r| - 1])
  {
    if s != [] && IsJsWhitespace(s[|s| - 1]) then TrimEnd(s[..|s| - 1]) else s
  }

  /** `String.prototype.trim`. */
  function Trim(s: string): (r: string)
    ensures r != [] ==> !IsJsWhitespace(r[0]) && !IsJsWhitespace(r[|r| - 1])
    ensures r == [] <==> forall i :: 0 <= i < |s| ==> IsJsWhitespace(s[i])
  {
    BlankTrimsToEmpty(s);
    EmptyTrimIsBlank(s);
    TrimEnd(TrimStart(s))
  }

  lemma BlankTrimsToEmpty(s: string)
    ensures (forall i :: 0 <= i < |s| ==> IsJsWhitespace(s[i])) ==> TrimStart(s) == []
  {
    var t := TrimStart(s);
    if t != [] {
      assert t[0] == s[|s| - |t|];
    }
  }

  lemma EmptyTrimIsBlank(s: string)
    ensures TrimEnd(TrimStart(s)) == [] ==> forall i :: 0 <= i < |s| ==> IsJsWhitespace(s[i])
  {
    var t := TrimStart(s);
    if t != [] {
      assert IsJsWhitespace(t[0]) ==> TrimEnd(t) != [];
    }
  }

  /** Trimming a trimmed string changes nothing. */
  lemma TrimIdempotent(s: string)
    ensures Trim(Trim(s)) == Trim(s)
  {
    var r := Trim(s);
    if r != [] {
      assert TrimStart(r) == r;
      assert TrimEnd(r) == r;
    }
  }

  predicate IsDigit(c: char) { '0' <= c <= '9' }

  predicate AllDigits(s: string) { forall i :: 0 <= i < |s| ==> IsDigit(s[i]) }

  function DigitValue(c: char): nat
    requires IsDigit(c)
  {
    c as int - '0' as int
  }

  function DigitChar(d: nat): (c: char)
    requires d < 10
    ensures IsDigit(c) && DigitValue(c) == d
  {
    ('0' as int + d) as char
  }

  /** The value of a string of decimal digits, most significant first. */
  function DigitsValue(s: string): nat
    requires AllDigits(s)
  {
    if s == [] then 0 else DigitsValue(s[..|s| - 1]) * 10 + DigitValue(s[|s| - 1])
  }

  /** The decimal rendering of a non-negative integer (`String(n)` for
      integers below 1e21): digits only, no leading zero, denoting `n`. */
  function NatToDecimal(n: nat): (r: string)
    ensures r != [] && AllDigits(r)
    ensures DigitsValue(r) == n
    ensures |r| > 1 ==> r[0] != '0'
  {
    if n < 10 then
      [DigitChar(n)]
    else
      var prefix := NatToDecimal(n / 10);
      var r := prefix + [DigitChar(n % 10)];
      assert r[..|r| - 1] == prefix;
      r
  }

  /** The decimal rendering of an integer, with a leading '-' when negative. */
  function IntToDecimal(n: int): (r: string)
    ensures r != []
    ensures n >= 0 ==> AllDigits(r) && DigitsValue(r) == n
    ensures n < 0 ==> r[0] == '-' && AllDigits(r[1..]) && DigitsValue(r[1..]) == -n
  {
    if n < 0 then "-" + NatToDecimal(-n) else NatToDecimal(n)
  }

  /** The longest prefix of decimal digits. */
  function LeadingDigits(s: string): (r: string)
    ensures |r| <= |s| && r == s[..|r|] && AllDigits(r)
    ensures |r| < |s| ==> !IsDigit(s[|r|])
  {
    if s != [] && IsDigit(s[0]) then [s[0]] + LeadingDigits(s[1..]) else []
  }

  /** `parseInt(s, 10)`: skip leading whitespace, read an optional sign, then
      the longest run of decimal digits; NaN (here None) when there is none.
      Trailing characters are ignored, as in JavaScript. */
  function ParseIntBase10(s: string): (r: Option<int>)
    ensures AllDigits(s) && s != [] ==> r == Some(DigitsValue(s))
    ensures s == [] ==> r.None?
    ensures s != [] && !IsJsWhitespace(s[0]) && !IsDigit(s[0]) && s[0] != '-' && s[0] != '+' ==> r.None?
  {
    var t := TrimStart(s);
    var negative := t != [] && t[0] == '-';
    var rest := if t != [] && (t[0] == '-' || t[0] == '+') then t[1..] else t;
    var ds := LeadingDigits(rest);
    assert AllDigits(s) && s != [] ==> ds == s by {
      if AllDigits(s) && s != [] {
        assert !IsJsWhitespace(s[0]);
        assert t == s;
      }
    }
    if ds == [] then None
    else if negative then Some(-(DigitsValue(ds) as int))
    else Some(DigitsValue(ds))
  }

  /** Rendering an integer in decimal and parsing it back gives the integer. */
  lemma ParseIntRoundTrip(n: int)
    ensures ParseIntBase10(IntToDecimal(n)) == Some(n)
  {
    var s := IntToDecimal(n);
    if n < 0 {
      var digits := NatToDecimal(-n);
      assert s == "-" + digits;
      assert !IsJsWhitespace(s[0]);
      assert TrimStart(s) == s;
      assert s[1..] == digits;
      assert LeadingDigits(digits) == digits;
    }
  }

  /** Different integers render differently. */
  lemma IntToDecimalInjective(m: int, n: int)
    requires IntToDecimal(m) == IntToDecimal(n)
    ensures m == n
  {
    ParseIntRoundTrip(m);
    ParseIntRoundTrip(n);
  }

  /** `s.slice(-n)`: the last `n` characters, or all of `s` when shorter;
      `slice(-0)` is `slice(0)`, the whole string. */
  function LastN(s: string, n: nat): (r: string)
    ensures |r| == if n == 0 || |s| < n then |s| else n
    ensures r == s[|s| - |r|..]
  {
    if n == 0 || |s| <= n then s else s[|s| - n..]
  }

  /** `a || b` on an optional string: the empty string is falsy. */
  function OrElse(a: Option<string>, b: string): (r: string)
    ensures a.Some? && a.value != "" ==> r == a.value
    ensures (a.None? || a.value == "") ==> r == b
  {
    if a.Some? && a.value != "" then a.value else b
  }
}
