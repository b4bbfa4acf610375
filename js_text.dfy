/**
 * The JavaScript string and number primitives the handlers and the schemas
 * rely on: white space, `trim`, `toLowerCase`, `String(n)` for integers,
 * `padStart` and `parseInt(s, 10)`.
 */
module JsText {
  import opened Wrappers

  /** WhiteSpace and LineTerminator characters of ECMAScript, as `trim` and `parseInt` skip them. */
  predicate IsWhitespace(c: char) {
    || c == ' ' || c == '\t' || c == '\n' || c == '\r'
    || c == '\U{000B}' || c == '\U{000C}' || c == '\U{00A0}' || c == '\U{FEFF}'
    || c == '\U{1680}' || ('\U{2000}' <= c <= '\U{200A}')
    || c == '\U{2028}' || c == '\U{2029}' || c == '\U{202F}' || c == '\U{205F}' || c == '\U{3000}'
  }

  /** `s.trimStart()`: drops the leading white space. */
  function TrimStart(s: string): (r: string)
    ensures |r| <= |s| && r == s[|s| - |r|..]
    ensures forall i :: 0 <= i < |s| - |r| ==> IsWhitespace(s[i])
    ensures r == [] || !IsWhitespace(r[0])
  {
    if s != [] && IsWhitespace(s[0]) then TrimStart(s[1..]) else s
  }

  /** `s.trimEnd()`: drops the trailing white space. */
  function TrimEnd(s: string): (r: string)
    ensures |r| <= |s| && r == s[..|r|]
    ensures forall i :: |r| <= i < |s| ==> IsWhitespace(s[i])
    ensures r == [] || !IsWhitespace(r[|r| - 1])
  {
    if s != [] && IsWhitespace(s[|s| - 1]) then TrimEnd(s[..|s| - 1]) else s
  }

  /** `s.trim()`, which the `trim: true` schema option applies. */
  function Trim(s: string): string {
    TrimEnd(TrimStart(s))
  }

  /** The trimmed text has no white space at either end. */
  lemma TrimEnds(s: string)
    ensures Trim(s) == [] || (!IsWhitespace(Trim(s)[0]) && !IsWhitespace(Trim(s)[|Trim(s)| - 1]))
  {
    var t := TrimStart(s);
    var r := TrimEnd(t);
    if r != [] {
      assert r[0] == t[0];
    }
  }

  /** Trimming twice is trimming once: a stored name or e-mail is a fixed point of the setter. */
  lemma TrimIdempotent(s: string)
    ensures Trim(Trim(s)) == Trim(s)
  {
    TrimEnds(s);
    var r := Trim(s);
    assert TrimStart(r) == r;
    assert TrimEnd(r) == r;
  }

  /** `toLowerCase` on the ASCII letters; other characters are kept. */
  function LowerChar(c: char): (r: char)
    ensures !('A' <= r <= 'Z')
    ensures !('A' <= c <= 'Z') ==> r == c
  {
    if 'A' <= c <= 'Z' then (c as int - 'A' as int + 'a' as int) as char else c
  }

  function ToLower(s: string): (r: string)
    ensures |r| == |s|
    ensures forall i :: 0 <= i < |r| ==> r[i] == LowerChar(s[i])
  {
    seq(|s|, i requires 0 <= i < |s| => LowerChar(s[i]))
  }

  /** Lower-casing twice is lower-casing once. */
  lemma ToLowerIdempotent(s: string)
    ensures ToLower(ToLower(s)) == ToLower(s)
  {
  }

  predicate IsDigit(c: char) {
    '0' <= c <= '9'
  }

  predicate AllDigits(s: string) {
    forall i :: 0 <= i < |s| ==> IsDigit(s[i])
  }

  function DigitValue(c: char): nat
    requires IsDigit(c)
  {
    c as int - '0' as int
  }

  function DigitChar(d: nat): (c: char)
    requires d < 10
    ensures IsDigit(c) && DigitValue(c) == d
  {
    ('0' as int + d) as char
  }

  /** `String(n)` for a non-negative integer: its decimal digits, with no leading zero. */
  function Decimal(n: nat): (r: string)
    ensures r != [] && AllDigits(r)
    decreases n
  {
    if n < 10 then [DigitChar(n)] else Decimal(n / 10) + [DigitChar(n % 10)]
  }

  /** The value of a string of decimal digits, read left to right as `parseInt` does. */
  function DigitsValue(s: string): nat
    requires AllDigits(s)
  {
    if s == [] then 0 else DigitsValue(s[..|s| - 1]) * 10 + DigitValue(s[|s| - 1])
  }

  /** Reading back the digits of `n` gives `n`. */
  lemma {:induction false} DigitsValueDecimal(n: nat)
    ensures DigitsValue(Decimal(n)) == n
    decreases n
  {
    if n >= 10 {
      var d := Decimal(n / 10);
      assert (d + [DigitChar(n % 10)])[..|d|] == d;
      DigitsValueDecimal(n / 10);
    }
  }

  /** `k` zeros, as `padStart(_, _, '0')` inserts them. */
  function Zeros(k: nat): (r: string)
    ensures |r| == k && AllDigits(r)
    ensures forall i :: 0 <= i < k ==> r[i] == '0'
  {
    seq(k, i => '0')
  }

  /** Leading zeros do not change the value of a digit string. */
  lemma {:induction false} DigitsValueLeadingZeros(k: nat, d: string)
    requires AllDigits(d)
    ensures DigitsValue(Zeros(k) + d) == DigitsValue(d)
    decreases |d|, k
  {
    if d == [] {
      assert Zeros(k) + d == Zeros(k);
      if k > 0 {
        assert Zeros(k)[..k - 1] == Zeros(k - 1);
        DigitsValueLeadingZeros(k - 1, []);
        assert Zeros(k - 1) + [] == Zeros(k - 1);
      }
    } else {
      var front := d[..|d| - 1];
      assert (Zeros(k) + d)[..|Zeros(k) + d| - 1] == Zeros(k) + front;
      DigitsValueLeadingZeros(k, front);
    }
  }

  /** `s.padStart(width, fill)`: `fill` repeated on the left up to `width` characters; a longer `s` is kept whole. */
  function PadStart(s: string, width: nat, fill: char): (r: string)
    ensures |r| == if |s| >= width then |s| else width
    ensures r[|r| - |s|..] == s
    ensures forall i :: 0 <= i < |r| - |s| ==> r[i] == fill
  {
    if |s| >= width then s else seq(width - |s|, i => fill) + s
  }

  /** The longest prefix of decimal digits. */
  function LeadingDigits(s: string): (r: string)
    ensures AllDigits(r) && |r| <= |s| && r == s[..|r|]
    ensures |r| < |s| ==> !IsDigit(s[|r|])
  {
    if s != [] && IsDigit(s[0]) then [s[0]] + LeadingDigits(s[1..]) else []
  }

  /** A JavaScript number as far as the handlers use it: an integer or NaN. */
  datatype Num = Int(value: int) | NaN

  /** The text after the leading white space and an optional sign, where `parseInt` looks for digits. */
  function Unsigned(s: string): string {
    var t := TrimStart(s);
    if t != [] && (t[0] == '-' || t[0] == '+') then t[1..] else t
  }

  /** `parseInt(s, 10)`: skip white space, read an optional sign and the longest run of digits; NaN when there is none. */
  function ParseInt(s: string): (r: Num)
    ensures r.NaN? <==> LeadingDigits(Unsigned(s)) == []
    ensures r.Int? && '-' !in s ==> r.value == DigitsValue(LeadingDigits(Unsigned(s)))
  {
    var t := TrimStart(s);
    var d := LeadingDigits(Unsigned(s));
    if d == [] then NaN
    else if t[0] == '-' then Int(-(DigitsValue(d) as int))
    else Int(DigitsValue(d))
  }

  /** `String(x)` for the numbers of `Num`. */
  function Show(x: Num): string {
    match x
    case NaN => "NaN"
    case Int(v) => if v < 0 then "-" + Decimal(-v) else Decimal(v)
  }

  /** `x + 1`: NaN stays NaN. */
  function Inc(x: Num): Num {
    match x
    case NaN => NaN
    case Int(v) => Int(v + 1)
  }

  /** A digit string, padded with zeros on the left to any width, parses back to its value. */
  lemma ParseIntPadded(n: nat, width: nat)
    ensures ParseInt(PadStart(Decimal(n), width, '0')) == Int(n)
  {
    var d := Decimal(n);
    var p := PadStart(d, width, '0');
    var k := |p| - |d|;
    assert p == Zeros(k) + d;
    ParseIntDigits(p);
    DigitsValueLeadingZeros(k, d);
    DigitsValueDecimal(n);
  }

  /** A non-empty digit string parses to its value. */
  lemma ParseIntDigits(s: string)
    requires s != [] && AllDigits(s)
    ensures ParseInt(s) == Int(DigitsValue(s))
  {
    assert TrimStart(s) == s;
    assert Unsigned(s) == s;
    LeadingDigitsOfDigits(s);
  }

  lemma {:induction false} LeadingDigitsOfDigits(s: string)
    requires AllDigits(s)
    ensures LeadingDigits(s) == s
  {
    if s != [] {
      LeadingDigitsOfDigits(s[1..]);
    }
  }

  /**
   * The element an array property key such as `list[key]` names: a key is
   * an array index exactly when it is the canonical decimal form of a
   * number ("0", "7", "12" but not "", "01", "+1" or "1.0").
   */
  function ArrayIndex(key: string): (r: Option<nat>)
    ensures r.Some? ==> key == Decimal(r.value)
  {
    if key != [] && AllDigits(key) && (|key| == 1 || key[0] != '0') then
      CanonicalDecimal(key);
      Some(DigitsValue(key))
    else None
  }

  /** A digit string without a leading zero is the decimal form of its value. */
  lemma {:induction false} CanonicalDecimal(s: string)
    requires s != [] && AllDigits(s) && (|s| == 1 || s[0] != '0')
    ensures Decimal(DigitsValue(s)) == s
    decreases |s|
  {
    if |s| == 1 {
      assert s[..0] == [];
      assert DigitChar(DigitValue(s[0])) == s[0];
    } else {
      var front := s[..|s| - 1];
      CanonicalDecimal(front);
      var v := DigitsValue(s);
      assert front[0] == s[0] != '0';
      assert Decimal(0) == "0";
      assert DigitsValue(front) != 0;
      assert v / 10 == DigitsValue(front) && v % 10 == DigitValue(s[|s| - 1]);
      assert DigitChar(DigitValue(s[|s| - 1])) == s[|s| - 1];
      assert s == front + [s[|s| - 1]];
    }
  }

  /** The decimal form of a number starts with a non-zero digit, unless the number is 0. */
  lemma {:induction false} DecimalLeadingDigit(n: nat)
    ensures |Decimal(n)| == 1 || Decimal(n)[0] != '0'
    decreases n
  {
    if n >= 10 {
      DecimalLeadingDigit(n / 10);
      assert Decimal(n)[0] == Decimal(n / 10)[0];
    }
  }

  /** The key written as `String(n)` names element `n`. */
  lemma ArrayIndexOfDecimal(n: nat)
    ensures ArrayIndex(Decimal(n)) == Some(n)
  {
    DecimalLeadingDigit(n);
    DigitsValueDecimal(n);
  }

  /** Bounds on the number of digits `String(n)` has. */
  lemma {:induction false} DecimalLength(n: nat, k: nat)
    ensures n < Pow10(k) && k >= 1 ==> |Decimal(n)| <= k
    ensures n >= Pow10(k) ==> |Decimal(n)| > k
    decreases n
  {
    if n >= 10 {
      if k >= 1 {
        DecimalLength(n / 10, k - 1);
      }
    }
  }

  function Pow10(k: nat): (r: nat)
    ensures r >= 1
  {
    if k == 0 then 1 else 10 * Pow10(k - 1)
  }
}
