/** The pagination arithmetic of the list and search routes: JavaScript's
    `parseInt` on a query-string value, the `|| default` fallback, the offset
    and `Math.ceil(count / limit)`. */
module Paging {
  import opened Wrappers
  import Hex

  const DefaultPage: int := 1
  const DefaultLimit: int := 10

  /** The white space and line terminators `parseInt` skips in front of a number. */
  predicate IsJsSpace(c: char) {
    || c == ' ' || c == '\t' || c == '\n' || c == '\r'
    || c as int == 0x0B || c as int == 0x0C || c as int == 0xA0 || c as int == 0xFEFF
    // The line terminators U+2028 and U+2029, and the Unicode space separators.
    || c as int == 0x2028 || c as int == 0x2029
    || c as int == 0x1680 || 0x2000 <= c as int <= 0x200A
    || c as int == 0x202F || c as int == 0x205F || c as int == 0x3000
  }

  function TrimStart(s: string): (t: string)
    ensures |t| <= |s| && t == s[|s| - |t|..]
    ensures t == [] || !IsJsSpace(t[0])
  {
    if s != [] && IsJsSpace(s[0]) then TrimStart(s[1..]) else s
  }

  predicate IsDigitOf(c: char, radix: nat) {
    if radix == 16 then Hex.IsHexDigit(c) else '0' <= c <= '9'
  }

  function DigitOf(c: char, radix: nat): (d: nat)
    requires IsDigitOf(c, radix)
    ensures d < (if radix == 16 then 16 else 10)
  {
    if radix == 16 then Hex.DigitValue(c) else c as int - '0' as int
  }

  /** The length of the longest prefix of `s` made of digits of the radix. */
  function DigitRun(s: string, radix: nat): (n: nat)
    ensures n <= |s|
    ensures forall i :: 0 <= i < n ==> IsDigitOf(s[i], radix)
    ensures n < |s| ==> !IsDigitOf(s[n], radix)
  {
    if s != [] && IsDigitOf(s[0], radix) then 1 + DigitRun(s[1..], radix) else 0
  }

  /** The number a string of digits denotes, most significant first. */
  function Value(digits: string, radix: nat): nat
    requires forall i :: 0 <= i < |digits| ==> IsDigitOf(digits[i], radix)
  {
    if digits == [] then 0
    else Value(digits[..|digits| - 1], radix) * radix + DigitOf(digits[|digits| - 1], radix)
  }

  /** The number after the sign: a `0x`/`0X` prefix selects base 16, and the
      longest run of digits is the number; no digit at all is NaN (`None`). */
  function ParseUnsigned(u: string): (r: Option<nat>)
  {
    var hex := |u| >= 2 && u[0] == '0' && (u[1] == 'x' || u[1] == 'X');
    var radix := if hex then 16 else 10;
    var body := if hex then u[2..] else u;
    var n := DigitRun(body, radix);
    if n == 0 then None else Some(Value(body[..n], radix))
  }

  /** `parseInt(s)` with no radix argument: skip white space, read an optional
      sign, then the digits. An absent parameter (`undefined`) is NaN too. */
  function ParseInt(s: Option<string>): (r: Option<int>)
    ensures s.None? ==> r.None?
    ensures s.Some? && TrimStart(s.value) == [] ==> r.None?
  {
    if s.None? then None else ParseSigned(TrimStart(s.value))
  }

  /** The sign and the number of a string whose white space is already skipped. */
  function ParseSigned(t: string): (r: Option<int>)
    ensures t == [] ==> r.None?
  {
    var signed := t != [] && (t[0] == '-' || t[0] == '+');
    match ParseUnsigned(if signed then t[1..] else t)
    case None => None
    case Some(magnitude) =>
      var m: int := magnitude;
      Some(if signed && t[0] == '-' then -m else m)
  }

  function DecimalDigit(d: nat): (c: char)
    requires d < 10
    ensures IsDigitOf(c, 10) && DigitOf(c, 10) == d
  {
    ('0' as int + d) as char
  }

  /** The decimal numeral of a natural number, as `String(n)` writes it. */
  function Numeral(n: nat): (s: string)
    ensures |s| >= 1 && s[0] != '-' && s[0] != '+' && !IsJsSpace(s[0])
    ensures forall i :: 0 <= i < |s| ==> IsDigitOf(s[i], 10)
  {
    if n < 10 then [DecimalDigit(n)] else Numeral(n / 10) + [DecimalDigit(n % 10)]
  }

  lemma {:induction false} NumeralValue(n: nat)
    ensures Value(Numeral(n), 10) == n
  {
    if n >= 10 {
      var s := Numeral(n);
      assert s[..|s| - 1] == Numeral(n / 10);
      NumeralValue(n / 10);
    }
  }

  /** The numeral of an integer, with a minus sign when negative. */
  function IntNumeral(n: int): string {
    if n < 0 then "-" + Numeral(-n) else Numeral(n)
  }

  lemma {:induction false} ParseUnsignedNumeral(n: nat)
    ensures ParseUnsigned(Numeral(n)) == Some(n)
  {
    var digits := Numeral(n);
    NumeralValue(n);
    DigitRunAll(digits, 10);
    assert digits[..|digits|] == digits;
  }

  /** How `parseInt` reads a string with no leading white space: an optional
      minus sign in front of the unsigned part. */
  lemma ParseIntSigned(negative: bool, u: string)
    requires u != [] && u[0] != '-' && u[0] != '+' && !IsJsSpace(u[0])
    ensures ParseInt(Some(if negative then "-" + u else u)) ==
      match ParseUnsigned(u)
      case None => None
      case Some(m) => Some(if negative then -(m as int) else m as int)
  {
    var s := if negative then "-" + u else u;
    assert s[0] == if negative then '-' else u[0];
    assert TrimStart(s) == s;
    if negative {
      assert s[1..] == u;
      assert ParseInt(Some(s)) == match ParseUnsigned(u)
        case None => None
        case Some(m) => Some(-(m as int));
    } else {
      assert ParseInt(Some(s)) == match ParseUnsigned(u)
        case None => None
        case Some(m) => Some(m as int);
    }
  }

  /** `parseInt` reads back every integer written in decimal. */
  lemma {:induction false} ParseIntNumeral(n: int)
    ensures ParseInt(Some(IntNumeral(n))) == Some(n)
  {
    var m: nat := if n < 0 then -n else n;
    ParseUnsignedNumeral(m);
    ParseIntSigned(n < 0, Numeral(m));
  }

  lemma {:induction false} DigitRunAll(s: string, radix: nat)
    requires forall i :: 0 <= i < |s| ==> IsDigitOf(s[i], radix)
    ensures DigitRun(s, radix) == |s|
  {
    if s != [] {
      DigitRunAll(s[1..], radix);
    }
  }
  /** A digit run stops at the first character that is not a digit. */
  lemma {:induction false} DigitRunPrefix(s: string, t: string, radix: nat)
    requires forall i :: 0 <= i < |s| ==> IsDigitOf(s[i], radix)
    requires t == [] || !IsDigitOf(t[0], radix)
    ensures DigitRun(s + t, radix) == |s|
  {
    if s != [] {
      assert (s + t)[1..] == s[1..] + t;
      DigitRunPrefix(s[1..], t, radix);
    }
  }

  /** `parseInt` ignores whatever follows the digits: `parseInt("10abc")` is 10. */
  lemma {:induction false} ParseIntTrailing(n: nat, rest: string)
    requires rest == [] || (!IsDigitOf(rest[0], 10) && rest[0] != 'x' && rest[0] != 'X')
    ensures ParseInt(Some(Numeral(n) + rest)) == Some(n)
  {
    var digits := Numeral(n);
    var u := digits + rest;
    assert u[0] == digits[0];
    assert TrimStart(u) == u;
    assert |u| >= 2 ==> u[1] == (if |digits| >= 2 then digits[1] else rest[0]);
    DigitRunPrefix(digits, rest, 10);
    assert u[..|digits|] == digits;
    NumeralValue(n);
  }

  /** A `0x` prefix reads the rest in base 16: `parseInt("0x1f")` is 31. */
  lemma {:induction false} ParseIntHex(digits: string)
    requires digits != [] && forall i :: 0 <= i < |digits| ==> Hex.IsHexDigit(digits[i])
    ensures ParseInt(Some("0x" + digits)) == Some(Value(digits, 16) as int)
  {
    var u := "0x" + digits;
    assert u[0] == '0' && u[1] == 'x' && u[2..] == digits;
    assert TrimStart(u) == u;
    DigitRunAll(digits, 16);
    assert digits[..|digits|] == digits;
    assert ParseUnsigned(u) == Some(Value(digits, 16));
  }

  /** Leading white space is skipped. */
  lemma ParseIntSkipsSpace(c: char, s: string)
    requires IsJsSpace(c)
    ensures ParseInt(Some([c] + s)) == ParseInt(Some(s))
  {
    var t := [c] + s;
    assert t[0] == c && t[1..] == s;
    assert TrimStart(t) == TrimStart(s);
  }


  /** `parseInt(q) || fallback`: NaN and zero fall back. */
  function ParamOr(raw: Option<string>, fallback: int): (v: int)
    ensures ParseInt(raw).None? || ParseInt(raw) == Some(0) ==> v == fallback
    ensures ParseInt(raw).Some? && ParseInt(raw).value != 0 ==> v == ParseInt(raw).value
    ensures fallback != 0 ==> v != 0
  {
    match ParseInt(raw)
    case None => fallback
    case Some(n) => if n == 0 then fallback else n
  }

  /** `(page - 1) * limit`: the number of rows on the pages before `page`. A
      page number below 1 with a positive limit gives a negative offset. */
  function Offset(page: int, limit: int): (o: int)
    ensures page >= 1 && limit >= 0 ==> o >= 0
    ensures page < 1 && limit > 0 ==> o < 0
  {
    (page - 1) * limit
  }

  /** `Math.ceil(count / limit)` for a count of rows and a non-zero limit
      (`-0` is written as `0` in the JSON reply). */
  function TotalPages(count: nat, limit: int): (t: int)
    requires limit != 0
    ensures limit > 0 ==> t >= 0 && (t - 1) * limit < count <= t * limit
    ensures limit < 0 ==> t <= 0
  {
    if limit > 0 then (count + limit - 1) / limit else -(count / -limit)
  }

  /** With a positive limit, a page number from 1 is within `totalPages`
      exactly when its offset falls before the end of the rows. */
  lemma {:induction false} PageWithinTotal(count: nat, limit: int, page: int)
    requires limit > 0 && page >= 1
    ensures page <= TotalPages(count, limit) <==> Offset(page, limit) < count
  {
    var t := TotalPages(count, limit);
    var q := count + limit - 1;
    assert t * limit <= q < (t + 1) * limit;
    if page <= t {
      assert (page - 1) * limit <= (t - 1) * limit by {
        MultiplyMonotone(page - 1, t - 1, limit);
      }
    } else {
      assert t * limit <= (page - 1) * limit by {
        MultiplyMonotone(t, page - 1, limit);
      }
    }
  }

  lemma MultiplyMonotone(a: int, b: int, c: int)
    requires a <= b && c >= 0
    ensures a * c <= b * c
  {
    assert b * c - a * c == (b - a) * c;
  }
}
