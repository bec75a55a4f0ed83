/**
 * The JavaScript built-ins the render engine leans on, stated exactly for the inputs
 * it gives them: `parseInt` with no radix, the decimal text of a non-negative integer
 * (template-literal interpolation), and `Number.prototype.toFixed(1)`.
 */
module JsText {
  import opened Opt

  /** A white-space or line-terminator character in the sense of `StrWhiteSpaceChar`. */
  predicate IsJsSpace(c: char)
  {
    var n := c as int;
    n == 0x09 || n == 0x0A || n == 0x0B || n == 0x0C || n == 0x0D || n == 0x20 ||
    n == 0xA0 || n == 0x1680 || (0x2000 <= n <= 0x200A) || n == 0x2028 || n == 0x2029 ||
    n == 0x202F || n == 0x205F || n == 0x3000 || n == 0xFEFF
  }

  predicate IsDigit(c: char)
  {
    '0' <= c <= '9'
  }

  /** The value of `c` as a digit of radix up to 36; 36 when it is no digit at all. */
  function DigitValue(c: char): (d: nat)
    ensures d <= 36
    ensures IsDigit(c) ==> d == c as int - '0' as int && d < 10
  {
    if '0' <= c <= '9' then c as int - '0' as int
    else if 'a' <= c <= 'z' then c as int - 'a' as int + 10
    else if 'A' <= c <= 'Z' then c as int - 'A' as int + 10
    else 36
  }

  function DigitChar(d: nat): (c: char)
    requires d < 10
    ensures IsDigit(c) && DigitValue(c) == d
  {
    ('0' as int + d) as char
  }

  /** Decimal text of `n`, as JavaScript prints an integer-valued number. */
  function NatToString(n: nat): (s: string)
    ensures |s| >= 1
    ensures forall k :: 0 <= k < |s| ==> IsDigit(s[k])
    ensures |s| > 1 ==> s[0] != '0'
    ensures n < 10 <==> |s| == 1
  {
    if n < 10 then [DigitChar(n)] else NatToString(n / 10) + [DigitChar(n % 10)]
  }

  /** `s` without its leading white space. */
  function TrimStart(s: string): (r: string)
    ensures |r| <= |s| && r == s[|s| - |r|..]
    ensures r == [] || !IsJsSpace(r[0])
  {
    if s != [] && IsJsSpace(s[0]) then TrimStart(s[1..]) else s
  }

  /** The longest prefix of `s` made of digits of the given radix. */
  function DigitPrefix(s: string, radix: nat): (r: string)
    ensures |r| <= |s| && r == s[..|r|]
    ensures forall k :: 0 <= k < |r| ==> DigitValue(r[k]) < radix
    ensures |r| == |s| || DigitValue(s[|r|]) >= radix
  {
    if s != [] && DigitValue(s[0]) < radix then [s[0]] + DigitPrefix(s[1..], radix) else []
  }

  /** The number a string of digits denotes in the given radix. */
  function DigitsValue(ds: string, radix: nat): nat
  {
    if ds == [] then 0
    else DigitsValue(ds[..|ds| - 1], radix) * radix + DigitValue(ds[|ds| - 1])
  }

  /**
   * `parseInt(s)` without a radix: leading white space is skipped, one sign is
   * accepted, and the magnitude is read from what follows. `None` stands for `NaN`.
   */
  function ParseInt(s: string): Option<int>
  {
    var t := TrimStart(s);
    var negative := t != [] && t[0] == '-';
    var unsigned := if t != [] && (t[0] == '-' || t[0] == '+') then t[1..] else t;
    match ParseMagnitude(unsigned)
    case None => None
    case Some(m) => var magnitude: int := m; Some(if negative then -magnitude else magnitude)
  }

  /**
   * The unsigned part of `parseInt`: a `0x`/`0X` prefix selects radix 16, and the
   * longest run of digits after that is read; no digit at all gives `None`.
   */
  function ParseMagnitude(u: string): Option<nat>
  {
    var hex := |u| >= 2 && u[0] == '0' && (u[1] == 'x' || u[1] == 'X');
    var radix := if hex then 16 else 10;
    var digits := DigitPrefix(if hex then u[2..] else u, radix);
    if digits == [] then None else Some(DigitsValue(digits, radix))
  }

  /** `s.split(':')[0]`: everything before the first colon. */
  function BeforeColon(s: string): (r: string)
    ensures |r| <= |s| && r == s[..|r|]
    ensures ':' !in r
    ensures |r| == |s| || s[|r|] == ':'
  {
    if s == [] || s[0] == ':' then [] else [s[0]] + BeforeColon(s[1..])
  }

  /**
   * `x.toFixed(1)` for a finite `x`, as a whole number of tenths: the nearest
   * multiple of one tenth, ties going away from zero (toFixed works on the
   * magnitude and puts the sign back).
   */
  function ToFixed1(x: real): (tenths: int)
    ensures x >= 0.0 ==> 10.0 * x - 0.5 < tenths as real <= 10.0 * x + 0.5
    ensures x < 0.0 ==> 10.0 * x - 0.5 <= tenths as real < 10.0 * x + 0.5
  {
    if x >= 0.0 then (10.0 * x + 0.5).Floor else -((-10.0 * x + 0.5).Floor)
  }

  lemma {:induction false} DigitPrefixOfDigits(ds: string, rest: string)
    requires forall k :: 0 <= k < |ds| ==> IsDigit(ds[k])
    requires rest == [] || !IsDigit(rest[0])
    ensures DigitPrefix(ds + rest, 10) == ds
  {
    if ds != [] {
      assert (ds + rest)[1..] == ds[1..] + rest;
      DigitPrefixOfDigits(ds[1..], rest);
    } else {
      assert ds + rest == rest;
    }
  }

  lemma {:induction false} DigitsValueOfNatToString(n: nat)
    ensures DigitsValue(NatToString(n), 10) == n
  {
    var s := NatToString(n);
    if n < 10 {
      assert s[..0] == [];
    } else {
      var p := NatToString(n / 10);
      assert s == p + [DigitChar(n % 10)];
      assert s[..|s| - 1] == p;
      DigitsValueOfNatToString(n / 10);
    }
  }

  /**
   * `parseInt` reads back the decimal text of `n` from the front of a string, as long
   * as what follows is no digit (and no `x`, which after a lone `0` would select hex).
   */
  lemma ParseIntOfNatToString(n: nat, rest: string)
    requires rest == [] || (!IsDigit(rest[0]) && rest[0] != 'x' && rest[0] != 'X')
    ensures ParseInt(NatToString(n) + rest) == Some(n)
  {
    ParseIntOfDigits(NatToString(n), rest);
    DigitsValueOfNatToString(n);
  }

  /** `parseInt` of a run of decimal digits without a leading zero, followed by a non-digit. */
  lemma ParseIntOfDigits(ds: string, rest: string)
    requires ds != [] && forall k :: 0 <= k < |ds| ==> IsDigit(ds[k])
    requires |ds| > 1 ==> ds[0] != '0'
    requires rest == [] || (!IsDigit(rest[0]) && rest[0] != 'x' && rest[0] != 'X')
    ensures ParseInt(ds + rest) == Some(DigitsValue(ds, 10))
  {
    var s := ds + rest;
    assert s[0] == ds[0];
    MagnitudeOfDigits(ds, rest);
    ParseIntOfUnsigned(s, DigitsValue(ds, 10));
  }

  /** Text starting with a digit has no white space or sign to skip. */
  lemma ParseIntOfUnsigned(s: string, m: nat)
    requires s != [] && IsDigit(s[0])
    requires ParseMagnitude(s) == Some(m)
    ensures ParseInt(s) == Some(m)
  {
    TrimStartOfDigit(s);
  }

  lemma TrimStartOfDigit(s: string)
    requires s != [] && IsDigit(s[0])
    ensures TrimStart(s) == s
  {
    assert !IsJsSpace(s[0]);
  }

  lemma MagnitudeOfDigits(ds: string, rest: string)
    requires ds != [] && forall k :: 0 <= k < |ds| ==> IsDigit(ds[k])
    requires |ds| > 1 ==> ds[0] != '0'
    requires rest == [] || (!IsDigit(rest[0]) && rest[0] != 'x' && rest[0] != 'X')
    ensures ParseMagnitude(ds + rest) == Some(DigitsValue(ds, 10))
  {
    var s := ds + rest;
    assert !(|s| >= 2 && s[0] == '0' && (s[1] == 'x' || s[1] == 'X')) by {
      if |ds| > 1 {
        assert s[0] == ds[0] != '0';
      } else if |s| >= 2 {
        assert s[1] == rest[0];
      }
    }
    DigitPrefixOfDigits(ds, rest);
  }

  /** A rate that is a whole number of tenths prints as exactly that number of tenths. */
  lemma ToFixed1OfTenths(k: int)
    ensures ToFixed1(k as real / 10.0) == k
  {
    var x := k as real / 10.0;
    assert 10.0 * x == k as real;
  }
}
