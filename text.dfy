/** String routines the handlers share: JavaScript's `trim`, `toUpperCase`,
    `String(n)`, `padStart`, `includes`, single-character `replace(/x/g, y)`,
    and an abstraction of `parseInt`. Case mapping covers the ASCII letters
    only. */
module Text {
  import opened Wrappers

  /** JavaScript's white space, as `trim` and `\s` read it: tab, line feed,
      vertical tab, form feed, carriage return, space, no-break space, the
      Unicode space separators, the line and paragraph separators, and the
      byte-order mark. */
  predicate IsSpace(c: char) {
    || c == ' ' || ('\t' <= c <= '\r')
    || c as int == 0xA0 || c as int == 0x1680 || (0x2000 <= c as int <= 0x200A)
    || c as int == 0x2028 || c as int == 0x2029 || c as int == 0x202F || c as int == 0x205F
    || c as int == 0x3000 || c as int == 0xFEFF
  }

  predicate IsLower(c: char) { 'a' <= c <= 'z' }

  predicate IsDigit(c: char) { '0' <= c <= '9' }

  // ---------------------------------------------------------------- trim

  function TrimStart(s: string): (r: string)
    ensures |r| <= |s| && r == s[|s| - |r|..]
    ensures forall i :: 0 <= i < |s| - |r| ==> IsSpace(s[i])
    ensures r == [] || !IsSpace(r[0])
  {
    if s != [] && IsSpace(s[0]) then TrimStart(s[1..]) else s
  }

  function TrimEnd(s: string): (r: string)
    ensures |r| <= |s| && r == s[..|r|]
    ensures forall i :: |r| <= i < |s| ==> IsSpace(s[i])
    ensures r == [] || !IsSpace(r[|r| - 1])
  {
    if s != [] && IsSpace(s[|s| - 1]) then TrimEnd(s[..|s| - 1]) else s
  }

  /** A prefix of a suffix is a slice; the facts about the two cuts combine. */
  lemma TrimSlices(s: string, t: string, r: string)
    requires |t| <= |s| && t == s[|s| - |t|..] && forall k :: 0 <= k < |s| - |t| ==> IsSpace(s[k])
    requires t == [] || !IsSpace(t[0])
    requires |r| <= |t| && r == t[..|r|] && forall k :: |r| <= k < |t| ==> IsSpace(t[k])
    requires r == [] || !IsSpace(r[|r| - 1])
    ensures var i := |s| - |t|;
            && i + |r| <= |s| && r == s[i..i + |r|]
            && (forall k :: i + |r| <= k < |s| ==> IsSpace(s[k]))
    ensures r == [] || (!IsSpace(r[0]) && !IsSpace(r[|r| - 1]))
  {
    var i := |s| - |t|;
    forall k | i + |r| <= k < |s| ensures IsSpace(s[k]) {
      assert s[k] == t[k - i];
    }
    if r != [] {
      assert r[0] == t[0];
    }
  }

  /** `String.prototype.trim`: the result is a slice of the input, everything
      cut off is white space, and the result neither starts nor ends with it. */
  function Trim(s: string): (r: string)
    ensures var i := |s| - |TrimStart(s)|;
              && i + |r| <= |s| && r == s[i..i + |r|]
              && (forall k :: 0 <= k < i ==> IsSpace(s[k]))
              && (forall k :: i + |r| <= k < |s| ==> IsSpace(s[k]))
    ensures r == [] || (!IsSpace(r[0]) && !IsSpace(r[|r| - 1]))
  {
    var t := TrimStart(s);
    var r := TrimEnd(t);
    TrimSlices(s, t, r);
    r
  }

  /** A string without white space at either end is its own trim. */
  lemma TrimNoEdgeSpace(s: string)
    requires s == [] || (!IsSpace(s[0]) && !IsSpace(s[|s| - 1]))
    ensures Trim(s) == s
  {
  }

  /** Trimming keeps only characters of the input, and trimming twice is
      trimming once. */
  lemma TrimmedPart(s: string)
    ensures forall x :: x in Trim(s) ==> x in s
    ensures Trim(Trim(s)) == Trim(s)
  {
    var r := Trim(s);
    var i := |s| - |TrimStart(s)|;
    forall x | x in r ensures x in s {
      var k :| 0 <= k < |r| && r[k] == x;
      assert s[i + k] == x;
    }
    TrimNoEdgeSpace(r);
  }

  // ---------------------------------------------------------- upper case

  function UpperChar(c: char): (r: char)
    ensures !IsLower(r)
    ensures IsLower(c) ==> r as int == c as int - 32
    ensures !IsLower(c) ==> r == c
  {
    if IsLower(c) then (c as int - 32) as char else c
  }

  /** `String.prototype.toUpperCase` on ASCII text: lower-case letters are
      raised, every other character is kept. */
  function Upper(s: string): (r: string)
    ensures |r| == |s|
    ensures forall i :: 0 <= i < |s| ==> r[i] == UpperChar(s[i])
  {
    seq(|s|, i requires 0 <= i < |s| => UpperChar(s[i]))
  }

  /** Text with no lower-case letter is its own upper-case form. */
  lemma UpperIdempotent(s: string)
    requires forall i :: 0 <= i < |s| ==> !IsLower(s[i])
    ensures Upper(s) == s
  {
  }

  // ------------------------------------------------ character replacement

  /** `s.replace(/from/g, to)` for a single character `from`. */
  function ReplaceChar(s: string, from: char, to: char): (r: string)
    ensures |r| == |s|
    ensures forall i :: 0 <= i < |s| ==> r[i] == (if s[i] == from then to else s[i])
  {
    seq(|s|, i requires 0 <= i < |s| => if s[i] == from then to else s[i])
  }

  // ------------------------------------------------------------ includes

  /** `s.includes(sub)`: `sub` occurs in `s` at some position. */
  function Contains(s: string, sub: string): (r: bool)
    ensures r <==> exists i :: 0 <= i <= |s| - |sub| && sub == s[i..][..|sub|]
  {
    if sub <= s then
      assert sub == s[0..][..|sub|];
      true
    else if s == [] then
      false
    else
      var r := Contains(s[1..], sub);
      assert forall i :: 1 <= i <= |s| ==> s[i..] == s[1..][i - 1..];
      r
  }

  // -------------------------------------------------- decimal rendering

  function DigitChar(d: nat): (c: char)
    requires d < 10
    ensures IsDigit(c)
  {
    ('0' as int + d) as char
  }

  function DigitValue(c: char): nat
    requires IsDigit(c)
  {
    c as int - '0' as int
  }

  predicate IsDigits(s: string) {
    s != [] && forall i :: 0 <= i < |s| ==> IsDigit(s[i])
  }

  /** The number a string of decimal digits denotes (most significant first). */
  function DigitsValue(s: string): nat
    requires forall i :: 0 <= i < |s| ==> IsDigit(s[i])
  {
    if s == [] then 0 else DigitsValue(s[..|s| - 1]) * 10 + DigitValue(s[|s| - 1])
  }

  /** `n.toString()` for a natural number: decimal digits, no leading zero,
      and reading them back yields `n`. */
  function DecimalString(n: nat): (r: string)
    ensures IsDigits(r)
    ensures DigitsValue(r) == n
    ensures r[0] == '0' ==> n == 0 && r == "0"
  {
    if n < 10 then [DigitChar(n)]
    else
      var p := DecimalString(n / 10);
      var r := p + [DigitChar(n % 10)];
      assert r[..|r| - 1] == p;
      r
  }

  function Pow10(k: nat): (r: nat)
    ensures r >= 1
  {
    if k == 0 then 1 else 10 * Pow10(k - 1)
  }

  /** The arithmetic of appending one digit behind a shifted prefix. */
  lemma ShiftDigit(x: nat, y: nat, d: nat, p: nat)
    ensures (x * p + y) * 10 + d == x * (10 * p) + (y * 10 + d)
    ensures (x * 10 + d) * p == x * (10 * p) + d * p
  {
  }

  /** The value of concatenated digit strings: the left part is shifted by the
      length of the right part. */
  lemma {:induction false} DigitsValueAppend(a: string, b: string)
    requires IsDigits(a) && IsDigits(b)
    ensures IsDigits(a + b)
    ensures DigitsValue(a + b) == DigitsValue(a) * Pow10(|b|) + DigitsValue(b)
    decreases |b|
  {
    var ab := a + b;
    var b' := b[..|b| - 1];
    var d := DigitValue(b[|b| - 1]);
    assert ab[..|ab| - 1] == a + b' && ab[|ab| - 1] == b[|b| - 1];
    if b' == [] {
      assert a + b' == a;
    } else {
      DigitsValueAppend(a, b');
      var x, p, y := DigitsValue(a), Pow10(|b'|), DigitsValue(b');
      ShiftDigit(x, y, d, p);
      assert DigitsValue(ab) == DigitsValue(a + b') * 10 + d;
      assert DigitsValue(b) == y * 10 + d;
      assert Pow10(|b|) == 10 * p;
    }
  }

  /** A string of `k` digits denotes a number below `10^k`. */
  lemma {:induction false} DigitsBelow(s: string)
    requires forall i :: 0 <= i < |s| ==> IsDigit(s[i])
    ensures DigitsValue(s) < Pow10(|s|)
    decreases |s|
  {
    if s != [] {
      DigitsBelow(s[..|s| - 1]);
    }
  }

  // ------------------------------------------------------------ padStart

  function Repeat(c: char, n: nat): (r: string)
    ensures |r| == n && forall i :: 0 <= i < n ==> r[i] == c
  {
    seq(n, _ => c)
  }

  /** `s.padStart(width, c)`: `s` with copies of `c` in front, up to `width`
      characters; a string already that long is kept as it is. */
  function PadStart(s: string, width: nat, c: char): (r: string)
    ensures |r| == if |s| >= width then |s| else width
    ensures r[|r| - |s|..] == s
    ensures forall i :: 0 <= i < |r| - |s| ==> r[i] == c
  {
    if |s| >= width then s else Repeat(c, width - |s|) + s
  }

  /** Zero padding keeps the value of a digit string. */
  lemma {:induction false} ZeroPadValue(s: string, width: nat)
    requires IsDigits(s)
    ensures IsDigits(PadStart(s, width, '0'))
    ensures DigitsValue(PadStart(s, width, '0')) == DigitsValue(s)
  {
    if |s| < width {
      var z := Repeat('0', width - |s|);
      DigitsValueAppend(z, s);
      ZerosValue(z);
    }
  }

  lemma {:induction false} ZerosValue(z: string)
    requires forall i :: 0 <= i < |z| ==> z[i] == '0'
    ensures DigitsValue(z) == 0
    decreases |z|
  {
    if z != [] {
      ZerosValue(z[..|z| - 1]);
    }
  }

  /** `String(n).padStart(width, "0")`. */
  function ZeroPadded(n: nat, width: nat): (r: string)
    ensures IsDigits(r) && DigitsValue(r) == n
    ensures |r| >= width
  {
    ZeroPadValue(DecimalString(n), width);
    PadStart(DecimalString(n), width, '0')
  }

  /** The number of decimal digits of `n` is at most `k` exactly when `n < 10^k`. */
  lemma {:induction false} DecimalLength(n: nat, k: nat)
    requires k >= 1
    ensures |DecimalString(n)| <= k <==> n < Pow10(k)
    decreases k
  {
    if n >= 10 && k > 1 {
      DecimalLength(n / 10, k - 1);
    } else if n >= 10 {
      assert |DecimalString(n)| >= 2 by {
        assert DecimalString(n) == DecimalString(n / 10) + [DigitChar(n % 10)];
      }
    }
  }

  // ------------------------------------------------------------ parseInt

  predicate IsHexDigit(c: char) {
    IsDigit(c) || 'a' <= c <= 'f' || 'A' <= c <= 'F'
  }

  function HexDigitValue(c: char): nat
    requires IsHexDigit(c)
  {
    if IsDigit(c) then DigitValue(c)
    else if 'a' <= c <= 'f' then c as int - 'a' as int + 10
    else c as int - 'A' as int + 10
  }

  /** Reads digits from the front of `s` in base 10 (or 16), starting from
      the value `acc`, up to the first character that is not a digit; the
      value read and the number of digits. */
  function DigitRun(s: string, hex: bool, acc: nat): (nat, nat)
  {
    if s != [] && (if hex then IsHexDigit(s[0]) else IsDigit(s[0])) then
      var (v, n) := DigitRun(s[1..], hex, acc * (if hex then 16 else 10) + (if hex then HexDigitValue(s[0]) else DigitValue(s[0])));
      (v, n + 1)
    else (acc, 0)
  }

  /** `s` after an optional sign, and whether that sign was a minus. */
  function Unsigned(s: string): (r: (bool, string))
    ensures r.1 == s || (s != [] && r.1 == s[1..])
  {
    if s != [] && (s[0] == '-' || s[0] == '+') then (s[0] == '-', s[1..]) else (false, s)
  }

  /** The magnitude `parseInt` reads from unsigned text: hexadecimal digits
      after a `0x` or `0X` prefix, decimal digits otherwise; `None` when no
      digit follows. */
  function Magnitude(u: string): Option<nat>
  {
    var (v, n) :=
      if |u| >= 2 && u[0] == '0' && (u[1] == 'x' || u[1] == 'X') then DigitRun(u[2..], true, 0)
      else DigitRun(u, false, 0);
    if n == 0 then None else Some(v)
  }

  /** `parseInt(s)` with no radix: leading white space is skipped, then an
      optional sign, then the longest run of digits is read (hexadecimal after
      `0x`); whatever follows is ignored. No digit at all gives `NaN`, here
      `None`. A negative zero is represented by 0. */
  function ParseInt(s: string): Option<int> {
    ParseSigned(TrimStart(s))
  }

  /** `parseInt` after the leading white space. */
  function ParseSigned(t: string): Option<int> {
    var (negative, u) := Unsigned(t);
    match Magnitude(u)
    case None => None
    case Some(m) => Some(if negative then -(m as int) else m as int)
  }

  /** The value of a digit string split after its first digit. */
  lemma DigitsValueFront(d: string)
    requires IsDigits(d)
    ensures DigitsValue(d) == DigitValue(d[0]) * Pow10(|d| - 1) + DigitsValue(d[1..])
  {
    if |d| == 1 {
      assert d == [d[0]];
    } else {
      DigitsValueAppend([d[0]], d[1..]);
      assert [d[0]] + d[1..] == d;
    }
  }

  /** Reading decimal digits up to a non-digit yields their number. */
  lemma {:induction false} DecimalRun(d: string, t: string, acc: nat)
    requires forall i :: 0 <= i < |d| ==> IsDigit(d[i])
    requires t == [] || !IsDigit(t[0])
    ensures DigitRun(d + t, false, acc) == (acc * Pow10(|d|) + DigitsValue(d), |d|)
    decreases |d|
  {
    if d != [] {
      var v0, rest := DigitValue(d[0]), d[1..];
      assert (d + t)[1..] == rest + t && (d + t)[0] == d[0];
      DecimalRun(rest, t, acc * 10 + v0);
      DigitsValueFront(d);
      ShiftDigit(acc, 0, v0, Pow10(|rest|));
    }
  }

  /** `parseInt` stops at the first character that is not a digit: digits
      followed by anything else parse to the digits' number (unless they
      are a `0x` prefix). */
  lemma ParseIntPrefix(d: string, t: string)
    requires IsDigits(d)
    requires t == [] || !IsDigit(t[0])
    requires !(d == "0" && t != [] && (t[0] == 'x' || t[0] == 'X'))
    ensures ParseInt(d + t) == Some(DigitsValue(d))
  {
    var s := d + t;
    DecimalRun(d, t, 0);
    assert TrimStart(s) == s by { assert !IsSpace(s[0]); }
    assert Unsigned(s) == (false, s);
    assert !(|s| >= 2 && s[0] == '0' && (s[1] == 'x' || s[1] == 'X')) by {
      if |d| >= 2 { assert s[1] == d[1]; } else if |s| >= 2 { assert s[1] == t[0]; }
    }
  }

  /** A string of decimal digits parses to the number it denotes. */
  lemma ParseIntDigits(s: string)
    requires IsDigits(s)
    ensures ParseInt(s) == Some(DigitsValue(s))
  {
    ParseIntPrefix(s, []);
    assert s + [] == s;
  }

  /** `parseInt(s) || 0`: `NaN` (and 0) become 0. */
  function ParseIntOrZero(s: string): int {
    ParseInt(s).GetOr(0)
  }

  /** `i.toString()` for any integer: a minus sign in front of the digits of
      a negative number. */
  function IntString(i: int): (r: string)
    ensures r != []
  {
    if i < 0 then "-" + DecimalString(-i) else DecimalString(i)
  }

  /** The magnitude of a decimal digit string is its value. */
  lemma MagnitudeDigits(d: string)
    requires IsDigits(d)
    ensures Magnitude(d) == Some(DigitsValue(d))
  {
    ParseIntDigits(d);
    assert TrimStart(d) == d by {
      assert !IsSpace(d[0]);
    }
    assert Unsigned(d) == (false, d);
  }

  lemma SignedNegative(d: string, m: nat)
    requires Magnitude(d) == Some(m)
    ensures ParseSigned("-" + d) == Some(-(m as int))
  {
    var s := "-" + d;
    assert s[0] == '-' && s[1..] == d;
  }

  /** A minus sign followed by decimal digits parses to the negated number. */
  lemma ParseIntNegative(d: string)
    requires IsDigits(d)
    ensures ParseInt("-" + d) == Some(-(DigitsValue(d) as int))
  {
    MagnitudeDigits(d);
    SignedNegative(d, DigitsValue(d));
    var s := "-" + d;
    assert TrimStart(s) == s by {
      assert s[0] == '-';
    }
  }

  /** Rendering an integer and parsing it back yields the integer. */
  lemma ParseIntString(i: int)
    ensures ParseInt(IntString(i)) == Some(i)
  {
    if i < 0 {
      ParseIntNegative(DecimalString(-i));
    } else {
      ParseIntDigits(IntString(i));
    }
  }
}
