/**
 * The few pieces of Python's string and number formatting that the gallery
 * code relies on: `str.strip()`, `str.startswith`, `str(int)` and the
 * fixed-width lower-case hexadecimal of `'%032x'`.
 */
module Text {
  import opened Optional

  // ---------- Whitespace and str.strip() ----------

  /** Python's `str.isspace()` for a single code point: the characters `str.strip()` removes. */
  predicate IsSpace(c: char) {
    var n := c as int;
    || 9 <= n <= 13
    || 28 <= n <= 32
    || n == 0x85 || n == 0xA0 || n == 0x1680
    || 0x2000 <= n <= 0x200A
    || n == 0x2028 || n == 0x2029 || n == 0x202F || n == 0x205F || n == 0x3000
  }

  predicate AllSpace(s: string) {
    forall i :: 0 <= i < |s| ==> IsSpace(s[i])
  }

  /** `s.lstrip()` */
  function TrimStart(s: string): (r: string)
    ensures |r| <= |s| && r == s[|s| - |r|..]
    ensures AllSpace(s[..|s| - |r|])
    ensures r == [] || !IsSpace(r[0])
  {
    if s != [] && IsSpace(s[0]) then
      var r := TrimStart(s[1..]);
      assert s[..|s| - |r|] == [s[0]] + s[1..][..|s| - 1 - |r|];
      r
    else s
  }

  /** `s.rstrip()` */
  function TrimEnd(s: string): (r: string)
    ensures |r| <= |s| && r == s[..|r|]
    ensures AllSpace(s[|r|..])
    ensures r == [] || !IsSpace(r[|r| - 1])
  {
    if s != [] && IsSpace(s[|s| - 1]) then
      var init := s[..|s| - 1];
      var r := TrimEnd(init);
      assert s[|r|..] == init[|r|..] + [s[|s| - 1]];
      r
    else s
  }

  /** `s.strip()`: empty exactly for all-whitespace input, and never starts or ends with whitespace. */
  function Strip(s: string): (r: string)
    ensures r == [] <==> AllSpace(s)
    ensures r == [] || (!IsSpace(r[0]) && !IsSpace(r[|r| - 1]))
  {
    var t := TrimStart(s);
    var r := TrimEnd(t);
    assert s == s[..|s| - |t|] + t;
    assert r == [] ==> t == [];
    assert r != [] ==> s[|s| - |t|] == r[0];
    r
  }

  lemma {:induction false} TrimStartSkips(a: string, t: string)
    requires AllSpace(a)
    requires t == [] || !IsSpace(t[0])
    ensures TrimStart(a + t) == t
  {
    if a == [] {
      assert a + t == t;
    } else {
      assert (a + t)[1..] == a[1..] + t;
      TrimStartSkips(a[1..], t);
    }
  }

  lemma {:induction false} TrimEndSkips(t: string, b: string)
    requires AllSpace(b)
    requires t == [] || !IsSpace(t[|t| - 1])
    ensures TrimEnd(t + b) == t
  {
    if b == [] {
      assert t + b == t;
    } else {
      assert (t + b)[..|t + b| - 1] == t + b[..|b| - 1];
      TrimEndSkips(t, b[..|b| - 1]);
    }
  }

  /**
   * What `strip()` means: surrounding a text that neither starts nor ends
   * with whitespace by any whitespace, and stripping, gives the text back.
   */
  lemma StripCharacterization(a: string, m: string, b: string)
    requires AllSpace(a) && AllSpace(b)
    requires m == [] || (!IsSpace(m[0]) && !IsSpace(m[|m| - 1]))
    ensures Strip(a + m + b) == m
  {
    if m == [] {
      assert a + m + b == a + b;
      assert AllSpace(a + b) by {
        forall i | 0 <= i < |a + b| ensures IsSpace((a + b)[i]) {
          if i < |a| { assert (a + b)[i] == a[i]; } else { assert (a + b)[i] == b[i - |a|]; }
        }
      }
    } else {
      assert a + m + b == a + (m + b);
      TrimStartSkips(a, m + b);
      TrimEndSkips(m, b);
    }
  }

  /** Every text is its stripped form with whitespace around it. */
  lemma StripSplits(s: string) returns (a: string, b: string)
    ensures AllSpace(a) && AllSpace(b) && s == a + Strip(s) + b
  {
    var t := TrimStart(s);
    var r := TrimEnd(t);
    assert Strip(s) == r;
    a, b := s[..|s| - |t|], t[|r|..];
    SplitAt(t, |r|);
    SplitAt(s, |s| - |t|);
    ConcatAssoc(a, r, b);
  }

  lemma SplitAt(s: string, k: nat)
    requires k <= |s|
    ensures s == s[..k] + s[k..]
  {
  }

  lemma ConcatAssoc<T>(x: seq<T>, y: seq<T>, z: seq<T>)
    ensures x + (y + z) == x + y + z
  {
  }

  /** Stripping twice is stripping once (Django's form cleaning strips, and the view strips again). */
  lemma StripIdempotent(s: string)
    ensures Strip(Strip(s)) == Strip(s)
  {
    var m := Strip(s);
    assert [] + m + [] == m;
    StripCharacterization([], m, []);
  }

  // ---------- Prefixes ----------

  /** `s.startswith(p)` */
  predicate StartsWith(s: string, p: string) {
    |p| <= |s| && s[..|p|] == p
  }

  // ---------- Decimal integers: str(n) ----------

  predicate IsDigit(c: char) {
    '0' <= c <= '9'
  }

  predicate AllDigits(s: string) {
    forall i :: 0 <= i < |s| ==> IsDigit(s[i])
  }

  function DigitChar(d: nat): (c: char)
    requires d < 10
    ensures IsDigit(c)
  {
    (48 + d) as char
  }

  function DigitValue(c: char): nat {
    if IsDigit(c) then c as int - 48 else 0
  }

  /** The decimal digits of `n`, without leading zeros. */
  function NatToDecimal(n: nat): (r: string)
    ensures |r| >= 1 && AllDigits(r)
    ensures |r| > 1 ==> r[0] != '0'
    decreases n
  {
    if n < 10 then [DigitChar(n)] else NatToDecimal(n / 10) + [DigitChar(n % 10)]
  }

  /** The decimal text of a natural number: digits only, no leading zero except in "0" itself. */
  predicate IsNatText(s: string) {
    |s| >= 1 && AllDigits(s) && (|s| > 1 ==> s[0] != '0')
  }

  /** The decimal text of an integer: a natural number's text, or "-" and a positive one's (never "-0"). */
  predicate IsIntText(s: string) {
    IsNatText(s) || (|s| >= 2 && s[0] == '-' && IsNatText(s[1..]) && s[1..] != "0")
  }

  /** Python's `str(n)` (or `f"{n}"`) for an int. */
  function IntToString(n: int): (r: string)
    ensures IsIntText(r)
    ensures n >= 0 <==> r[0] != '-'
  {
    if n < 0 then
      var d := NatToDecimal(-n);
      NatToDecimalRoundTrip(-n);
      assert d != "0" by { assert DecimalValue("0") == 0; }
      assert ("-" + d)[1..] == d;
      "-" + d
    else NatToDecimal(n)
  }

  function DecimalValue(s: string): nat {
    if s == [] then 0 else DecimalValue(s[..|s| - 1]) * 10 + DigitValue(s[|s| - 1])
  }

  /** Python's `int(s)` restricted to an optional minus sign and ASCII digits. */
  function ParseInt(s: string): Option<int> {
    if |s| > 1 && s[0] == '-' && AllDigits(s[1..]) then Some(-(DecimalValue(s[1..]) as int))
    else if |s| > 0 && AllDigits(s) then Some(DecimalValue(s) as int)
    else None
  }

  lemma {:induction false} NatToDecimalRoundTrip(n: nat)
    ensures DecimalValue(NatToDecimal(n)) == n
    decreases n
  {
    var r := NatToDecimal(n);
    if n >= 10 {
      NatToDecimalRoundTrip(n / 10);
      assert r[..|r| - 1] == NatToDecimal(n / 10);
    }
  }

  /** `int(str(n)) == n`: the decimal text of an integer reads back as that integer. */
  lemma IntToStringRoundTrip(n: int)
    ensures ParseInt(IntToString(n)) == Some(n)
  {
    var r := IntToString(n);
    if n < 0 {
      var d := NatToDecimal(-n);
      assert r == "-" + d && r[1..] == d;
      assert DecimalValue(d) == -n by { NatToDecimalRoundTrip(-n); }
    } else {
      assert r == NatToDecimal(n) && r[0] != '-';
      assert DecimalValue(r) == n by { NatToDecimalRoundTrip(n); }
    }
  }

  /** A digit string is at least as large as its leading digit. */
  lemma {:induction false} LeadingDigitBound(s: string)
    requires |s| >= 1 && AllDigits(s)
    ensures DecimalValue(s) >= DigitValue(s[0])
    decreases |s|
  {
    if |s| > 1 {
      LeadingDigitBound(s[..|s| - 1]);
    }
  }

  /** A canonical natural-number text is exactly `str` of the value it reads as. */
  lemma {:induction false} NatTextRoundTrip(s: string)
    requires IsNatText(s)
    ensures NatToDecimal(DecimalValue(s)) == s
    decreases |s|
  {
    var n := |s|;
    var c := s[n - 1];
    if n == 1 {
      assert DecimalValue(s) == DigitValue(c);
      assert DigitChar(DigitValue(c)) == c;
    } else {
      var init := s[..n - 1];
      assert init[0] == s[0];
      LeadingDigitBound(init);
      var v := DecimalValue(s);
      assert v == DecimalValue(init) * 10 + DigitValue(c);
      assert v >= 10;
      assert v / 10 == DecimalValue(init) && v % 10 == DigitValue(c);
      NatTextRoundTrip(init);
      assert DigitChar(DigitValue(c)) == c;
      assert s == init + [c];
    }
  }

  /**
   * `str(int(s)) == s` for a canonical integer text: `str` is the only
   * canonical text of its value, so a canonical text that reads as `n` is
   * `str(n)`.
   */
  lemma IntTextRoundTrip(s: string)
    requires IsIntText(s)
    ensures ParseInt(s).Some? && IntToString(ParseInt(s).value) == s
  {
    if IsNatText(s) {
      NatTextRoundTrip(s);
    } else {
      var t := s[1..];
      NatTextRoundTrip(t);
      LeadingDigitBound(t);
      assert DecimalValue(t) >= 1;
      assert s == "-" + t;
    }
  }

  /** A text that neither starts nor ends with whitespace is its own strip. */
  lemma StripKeeps(s: string)
    requires s == [] || (!IsSpace(s[0]) && !IsSpace(s[|s| - 1]))
    ensures Strip(s) == s
  {
    assert [] + s + [] == s;
    StripCharacterization([], s, []);
  }

  /** The decimal text of an integer has no surrounding whitespace, so `int()` reads it as is. */
  lemma IntToStringIsStripped(n: int)
    ensures Strip(IntToString(n)) == IntToString(n)
  {
    var s := IntToString(n);
    var d := NatToDecimal(if n < 0 then -n else n);
    assert IsDigit(d[|d| - 1]);
    assert s[|s| - 1] == d[|d| - 1];
    assert s[0] == '-' || IsDigit(s[0]);
    StripKeeps(s);
  }

  // ---------- Fixed-width lower-case hexadecimal: '%0*x' ----------

  predicate IsLowerHex(c: char) {
    '0' <= c <= '9' || 'a' <= c <= 'f'
  }

  function HexDigit(d: nat): (c: char)
    requires d < 16
    ensures IsLowerHex(c)
  {
    if d < 10 then (48 + d) as char else (87 + d) as char
  }

  function HexDigitValue(c: char): nat {
    if '0' <= c <= '9' then c as int - 48
    else if 'a' <= c <= 'f' then c as int - 87
    else 0
  }

  function Pow16(w: nat): (p: nat)
    ensures p >= 1
  {
    if w == 0 then 1 else 16 * Pow16(w - 1)
  }

  /** The last `w` hex digits of `n`, most significant first: `'%0{w}x' % n` when `n < 16^w`. */
  function HexFixed(n: nat, w: nat): (r: string)
    ensures |r| == w
    ensures forall i :: 0 <= i < |r| ==> IsLowerHex(r[i])
  {
    if w == 0 then [] else HexFixed(n / 16, w - 1) + [HexDigit(n % 16)]
  }

  /** The value of a string of hex digits, most significant first. */
  function HexValue(s: string): (v: nat) {
    if s == [] then 0 else HexValue(s[..|s| - 1]) * 16 + HexDigitValue(s[|s| - 1]) % 16
  }

  /** `w` hex digits denote a value below `16^w`. */
  lemma {:induction false} HexValueBound(s: string)
    ensures HexValue(s) < Pow16(|s|)
    decreases |s|
  {
    if s != [] {
      HexValueBound(s[..|s| - 1]);
    }
  }

  lemma DigitSplit(n: nat, p: nat)
    requires n < 16 * p
    ensures n / 16 < p && n == n / 16 * 16 + n % 16
  {
  }

  /** Appending one hex digit multiplies the value by sixteen and adds the digit. */
  lemma HexValueSnoc(p: string, d: nat)
    requires d < 16
    ensures HexValue(p + [HexDigit(d)]) == HexValue(p) * 16 + d
  {
    var r := p + [HexDigit(d)];
    assert r[..|r| - 1] == p;
  }

  lemma {:induction false} HexFixedRoundTrip(n: nat, w: nat)
    requires n < Pow16(w)
    ensures HexValue(HexFixed(n, w)) == n
  {
    if w > 0 {
      var q, d := n / 16, n % 16;
      DigitSplit(n, Pow16(w - 1));
      HexFixedRoundTrip(q, w - 1);
      HexValueSnoc(HexFixed(q, w - 1), d);
      assert HexFixed(n, w) == HexFixed(q, w - 1) + [HexDigit(d)];
    }
  }

  /** A string of lower-case hex digits is the fixed-width text of its own value. */
  lemma {:induction false} HexValueRoundTrip(s: string)
    requires forall i :: 0 <= i < |s| ==> IsLowerHex(s[i])
    ensures HexFixed(HexValue(s), |s|) == s
    decreases |s|
  {
    if s != [] {
      var init := s[..|s| - 1];
      var c := s[|s| - 1];
      var v := HexValue(s);
      assert HexDigitValue(c) < 16;
      assert v == HexValue(init) * 16 + HexDigitValue(c);
      assert v / 16 == HexValue(init) && v % 16 == HexDigitValue(c);
      HexValueRoundTrip(init);
      assert HexDigit(HexDigitValue(c)) == c;
      assert s == init + [c];
    }
  }
}
