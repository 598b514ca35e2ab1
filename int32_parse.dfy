/**
 * `int.Parse(string)` and `int.ToString()` for 32-bit integers, with the
 * default number style: leading and trailing white space, an optional sign,
 * one or more decimal digits, and a value that must fit in an `Int32`.
 */
module Int32Parse {
  import opened Wrappers
  import opened Runtime

  const MinInt32: int := -0x8000_0000
  const MaxInt32: int := 0x7FFF_FFFF

  /** The white space .NET number parsing skips: U+0009..U+000D and the space. */
  predicate IsWhite(c: char) {
    c == ' ' || '\t' <= c <= '\r'
  }

  predicate IsDigit(c: char) {
    '0' <= c <= '9'
  }

  predicate AllDigits(s: string) {
    forall i :: 0 <= i < |s| ==> IsDigit(s[i])
  }

  predicate NoDigits(s: string) {
    forall i :: 0 <= i < |s| ==> !IsDigit(s[i])
  }

  function DigitChar(d: nat): (c: char)
    requires d < 10
    ensures IsDigit(c) && c as int - '0' as int == d
  {
    ('0' as int + d) as char
  }

  /** Drops the white space at the front. */
  function TrimStart(s: string): (r: string)
    ensures |r| <= |s|
  {
    if |s| > 0 && IsWhite(s[0]) then TrimStart(s[1..]) else s
  }

  /** Drops the white space at the end. */
  function TrimEnd(s: string): (r: string)
    ensures |r| <= |s|
  {
    if |s| > 0 && IsWhite(s[|s| - 1]) then TrimEnd(s[..|s| - 1]) else s
  }

  /** The value of a string of decimal digits, most significant first. */
  function DigitsValue(s: string): nat
    requires AllDigits(s)
  {
    if s == [] then 0 else DigitsValue(s[..|s| - 1]) * 10 + (s[|s| - 1] as int - '0' as int)
  }

  /**
   * `int.Parse(s)`: a malformed string raises `FormatException`, a well-formed
   * one whose value does not fit in 32 bits raises `OverflowException`.
   */
  function ParseInt32(s: string): (r: Result<int, Exception>)
    ensures r.Ok? ==> MinInt32 <= r.value <= MaxInt32
    ensures r.Err? ==> r.error == FormatException || r.error == OverflowException
    ensures AllDigits(s) && s != [] && DigitsValue(s) <= MaxInt32 ==> r == Ok(DigitsValue(s))
    ensures AllDigits(s) && s != [] && DigitsValue(s) > MaxInt32 ==> r == Err(OverflowException)
  {
    var t := TrimEnd(TrimStart(s));
    var signed := |t| > 0 && (t[0] == '-' || t[0] == '+');
    var digits := if signed then t[1..] else t;
    if digits == [] || !AllDigits(digits) then Err(FormatException)
    else
      var v: int := if signed && t[0] == '-' then -(DigitsValue(digits) as int) else DigitsValue(digits);
      if MinInt32 <= v <= MaxInt32 then Ok(v) else Err(OverflowException)
  }

  /** The decimal digits of `n`, without leading zeros. */
  function DecimalText(n: nat): string
    decreases n
  {
    if n < 10 then [DigitChar(n)] else DecimalText(n / 10) + [DigitChar(n % 10)]
  }

  /** `int.ToString()`: a minus sign for negative values, then the digits. */
  function FormatInt32(n: int): string {
    if n < 0 then "-" + DecimalText(-n) else DecimalText(n)
  }

  /** The digits of `n` are a non-empty digit string whose value is `n`. */
  lemma {:induction false} DecimalTextValue(n: nat)
    ensures DecimalText(n) != [] && AllDigits(DecimalText(n))
    ensures DigitsValue(DecimalText(n)) == n
  {
    var s := DecimalText(n);
    if n >= 10 {
      DecimalTextValue(n / 10);
      assert s[..|s| - 1] == DecimalText(n / 10);
    }
  }

  /** Parsing what `int.ToString()` prints gives back the number. */
  lemma {:induction false} ParseFormatRoundTrip(n: int)
    requires MinInt32 <= n <= MaxInt32
    ensures ParseInt32(FormatInt32(n)) == Ok(n)
  {
    var s := FormatInt32(n);
    var d := DecimalText(if n < 0 then -n else n);
    DecimalTextValue(if n < 0 then -n else n);
    assert !IsWhite(s[0]) && !IsWhite(s[|s| - 1]);
    assert TrimStart(s) == s;
    assert TrimEnd(s) == s;
    if n < 0 {
      assert s[1..] == d;
    } else {
      assert s == d;
      assert IsDigit(s[0]);
    }
  }

  predicate AllWhite(s: string) {
    forall i :: 0 <= i < |s| ==> IsWhite(s[i])
  }

  /** Trimming the front drops exactly the leading white space. */
  lemma {:induction false} TrimStartWhite(w: string, s: string)
    requires AllWhite(w)
    requires s == [] || !IsWhite(s[0])
    ensures TrimStart(w + s) == s
  {
    if w == [] {
      assert w + s == s;
    } else {
      assert (w + s)[1..] == w[1..] + s;
      TrimStartWhite(w[1..], s);
    }
  }

  /** Trimming the end drops exactly the trailing white space. */
  lemma {:induction false} TrimEndWhite(s: string, w: string)
    requires AllWhite(w)
    requires s == [] || !IsWhite(s[|s| - 1])
    ensures TrimEnd(s + w) == s
  {
    if w == [] {
      assert s + w == s;
    } else {
      assert (s + w)[..|s + w| - 1] == s + w[..|w| - 1];
      TrimEndWhite(s, w[..|w| - 1]);
    }
  }

  /**
   * Any white space around the number and one leading sign are accepted:
   * the value is that of the digits, negated after a minus sign.
   */
  lemma {:induction false} ParseAcceptsWhiteAndSign(w1: string, sign: string, d: string, w2: string)
    requires AllWhite(w1) && AllWhite(w2)
    requires sign == "" || sign == "+" || sign == "-"
    requires d != [] && AllDigits(d)
    requires MinInt32 <= (if sign == "-" then -(DigitsValue(d) as int) else DigitsValue(d)) <= MaxInt32
    ensures ParseInt32(w1 + sign + d + w2) == Ok(if sign == "-" then -(DigitsValue(d) as int) else DigitsValue(d))
  {
    var core := sign + d;
    assert w1 + sign + d + w2 == w1 + (core + w2);
    assert (core + w2)[0] == core[0];
    TrimStartWhite(w1, core + w2);
    assert core[|core| - 1] == d[|d| - 1];
    TrimEndWhite(core, w2);
    if sign != "" {
      assert core[1..] == d;
    } else {
      assert core == d;
      assert IsDigit(core[0]);
    }
  }

  /** Trimming the front leaves a suffix. */
  lemma {:induction false} TrimStartIsSuffix(s: string)
    ensures TrimStart(s) == s[|s| - |TrimStart(s)|..]
  {
    if |s| > 0 && IsWhite(s[0]) {
      TrimStartIsSuffix(s[1..]);
    }
  }

  /** Trimming the end leaves a prefix. */
  lemma {:induction false} TrimEndIsPrefix(s: string)
    ensures TrimEnd(s) == s[..|TrimEnd(s)|]
  {
    if |s| > 0 && IsWhite(s[|s| - 1]) {
      TrimEndIsPrefix(s[..|s| - 1]);
    }
  }

  /**
   * A value without a single digit, the empty one included, raises
   * `FormatException`: trimming and dropping a sign leave no digits behind.
   */
  lemma ParseRejectsWithoutDigits(s: string)
    requires NoDigits(s)
    ensures ParseInt32(s) == Err(FormatException)
  {
    var u := TrimStart(s);
    var t := TrimEnd(u);
    TrimStartIsSuffix(s);
    TrimEndIsPrefix(u);
    var signed := |t| > 0 && (t[0] == '-' || t[0] == '+');
    var digits := if signed then t[1..] else t;
    if digits != [] {
      var k := if signed then 1 else 0;
      assert digits[0] == t[k] == u[k] == s[|s| - |u| + k];
    }
  }

  /** One past `Int32.MaxValue` raises `OverflowException`. */
  lemma ParseRejectsOverflow()
    ensures ParseInt32("2147483648") == Err(OverflowException)
  {
    OnePastMaxDigits();
  }

  /** The digits of one past `Int32.MaxValue`, read back, one at a time. */
  lemma OnePastMaxDigits()
    ensures AllDigits("2147483648") && DigitsValue("2147483648") == MaxInt32 + 1
  {
    assert DigitsValue("2") == 2 by { assert "2"[..0] == []; }
    assert DigitsValue("21") == 21 by { assert "21"[..1] == "2"; }
    assert DigitsValue("214") == 214 by { assert "214"[..2] == "21"; }
    assert DigitsValue("2147") == 2147 by { assert "2147"[..3] == "214"; }
    assert DigitsValue("21474") == 21474 by { assert "21474"[..4] == "2147"; }
    assert DigitsValue("214748") == 214748 by { assert "214748"[..5] == "21474"; }
    assert DigitsValue("2147483") == 2147483 by { assert "2147483"[..6] == "214748"; }
    assert DigitsValue("21474836") == 21474836 by { assert "21474836"[..7] == "2147483"; }
    assert DigitsValue("214748364") == 214748364 by { assert "214748364"[..8] == "21474836"; }
    assert "2147483648"[..9] == "214748364";
  }
}
