/**
  The JavaScript built-ins the two core files rely on, on strings of Unicode
  code points restricted as noted: `toLowerCase` (ASCII letters only),
  `includes`, `slice(0, n)`, `Number.prototype.toString` on naturals,
  `padStart`, and the one-argument global `parseInt`.
 */
module JsText {
  import opened Options

  predicate IsDigit(c: char) {
    '0' <= c <= '9'
  }

  predicate AllDigits(s: string) {
    forall i :: 0 <= i < |s| ==> IsDigit(s[i])
  }

  // ---------------------------------------------------------------- toLowerCase

  predicate IsAsciiUpper(c: char) {
    'A' <= c <= 'Z'
  }

  function LowerChar(c: char): char {
    if IsAsciiUpper(c) then (c as int + 32) as char else c
  }

  /** `s.toLowerCase()`, folding only the ASCII letters A-Z. */
  function ToLowerAscii(s: string): (r: string)
    ensures |r| == |s|
    ensures forall i :: 0 <= i < |s| ==> r[i] == LowerChar(s[i])
    ensures forall i :: 0 <= i < |r| ==> !IsAsciiUpper(r[i])
  {
    seq(|s|, i requires 0 <= i < |s| => LowerChar(s[i]))
  }

  // ---------------------------------------------------------------- includes

  /** `needle` occurs in `hay` starting at index `i`. */
  ghost predicate OccursAt(hay: string, needle: string, i: int) {
    0 <= i && i + |needle| <= |hay| && hay[i..i + |needle|] == needle
  }

  /** `hay.includes(needle)`: true exactly when `needle` occurs somewhere in `hay` (the empty needle always does). */
  function Includes(hay: string, needle: string): (b: bool)
    ensures b <==> exists i :: OccursAt(hay, needle, i)
    decreases |hay|
  {
    if needle <= hay then
      assert OccursAt(hay, needle, 0);
      true
    else if hay == [] then
      false
    else
      var rest := Includes(hay[1..], needle);
      IncludesShift(hay, needle);
      rest
  }

  /** Occurrences in `hay[1..]` are the occurrences in `hay` after its first index. */
  lemma IncludesShift(hay: string, needle: string)
    requires hay != [] && !(needle <= hay)
    ensures (exists i :: OccursAt(hay, needle, i)) <==> (exists j :: OccursAt(hay[1..], needle, j))
  {
    if exists i :: OccursAt(hay, needle, i) {
      var i :| OccursAt(hay, needle, i);
      assert i != 0;
      assert hay[1..][i - 1..i - 1 + |needle|] == hay[i..i + |needle|];
      assert OccursAt(hay[1..], needle, i - 1);
    }
    if exists j :: OccursAt(hay[1..], needle, j) {
      var j :| OccursAt(hay[1..], needle, j);
      assert hay[1..][j..j + |needle|] == hay[j + 1..j + 1 + |needle|];
      assert OccursAt(hay, needle, j + 1);
    }
  }

  /** Lowercasing both sides keeps every occurrence: a verbatim match is also a match ignoring case. */
  lemma IncludesLower(hay: string, needle: string)
    requires Includes(hay, needle)
    ensures Includes(ToLowerAscii(hay), ToLowerAscii(needle))
  {
    var i :| OccursAt(hay, needle, i);
    var lh, ln := ToLowerAscii(hay), ToLowerAscii(needle);
    forall k | 0 <= k < |needle| ensures lh[i..i + |needle|][k] == ln[k] {
      assert hay[i..i + |needle|][k] == needle[k];
    }
    assert OccursAt(lh, ln, i);
  }

  /** Lowercasing twice is lowercasing once. */
  lemma LowerTwice(s: string)
    ensures ToLowerAscii(ToLowerAscii(s)) == ToLowerAscii(s)
  {
  }

  // ---------------------------------------------------------------- slice

  /** `s.slice(0, n)` for a non-negative `n`: the first `min(n, |s|)` elements. */
  function Slice0<T>(s: seq<T>, n: nat): (r: seq<T>)
    ensures |r| == if n < |s| then n else |s|
    ensures r <= s
  {
    if n < |s| then s[..n] else s
  }

  // ---------------------------------------------------------------- toString, padStart

  function DigitChar(d: nat): (c: char)
    requires d < 10
    ensures IsDigit(c)
  {
    ('0' as int + d) as char
  }

  /** `n.toString()` for a natural number: decimal digits, no leading zero. */
  function DecimalString(n: nat): (s: string)
    ensures |s| >= 1 && AllDigits(s)
    ensures s[0] == '0' ==> n == 0
    decreases n
  {
    if n < 10 then [DigitChar(n)] else DecimalString(n / 10) + [DigitChar(n % 10)]
  }

  function Repeat(c: char, n: nat): (s: string)
    ensures |s| == n
    ensures forall i :: 0 <= i < n ==> s[i] == c
  {
    seq(n, _ => c)
  }

  /** `s.padStart(width, fill)` with a one-character `fill`. */
  function PadStart(s: string, width: nat, fill: char): (r: string)
    ensures |r| == if |s| < width then width else |s|
    ensures r == Repeat(fill, |r| - |s|) + s
  {
    if |s| < width then Repeat(fill, width - |s|) + s else Repeat(fill, 0) + s
  }

  // ---------------------------------------------------------------- parseInt

  /**
    The white space `parseInt` skips: tab, vertical tab, form feed, BOM, the
    space separators of category Zs, and the four line terminators.
   */
  predicate IsWhiteSpace(c: char) {
    || c == '\t' || c == '\U{000B}' || c == '\U{000C}' || c == '\U{FEFF}'
    || c == ' ' || c == '\U{00A0}' || c == '\U{1680}' || '\U{2000}' <= c <= '\U{200A}'
    || c == '\U{202F}' || c == '\U{205F}' || c == '\U{3000}'
    || c == '\n' || c == '\r' || c == '\U{2028}' || c == '\U{2029}'
  }

  /** The leading white space skipped: what is removed is white space, and what remains does not start with it. */
  function TrimStart(s: string): (t: string)
    ensures |t| <= |s| && t == s[|s| - |t|..]
    ensures forall i :: 0 <= i < |s| - |t| ==> IsWhiteSpace(s[i])
    ensures t == [] || !IsWhiteSpace(t[0])
  {
    if s != [] && IsWhiteSpace(s[0]) then
      var t := TrimStart(s[1..]);
      assert forall i :: 1 <= i < |s| - |t| ==> s[i] == s[1..][i - 1];
      t
    else s
  }

  /** The value of `c` as a digit of radix up to 36; 36 for a character that is no digit. */
  function DigitValue(c: char): (v: nat)
    ensures v <= 36
    ensures v < 36 <==> IsDigit(c) || 'a' <= c <= 'z' || 'A' <= c <= 'Z'
    ensures IsDigit(c) ==> v == c as int - '0' as int
  {
    if '0' <= c <= '9' then c as int - '0' as int
    else if 'a' <= c <= 'z' then c as int - 'a' as int + 10
    else if 'A' <= c <= 'Z' then c as int - 'A' as int + 10
    else 36
  }

  /** The longest prefix of `s` made of digits of `radix`. */
  function LeadingDigits(s: string, radix: nat): (d: string)
    ensures d <= s
    ensures forall i :: 0 <= i < |d| ==> DigitValue(d[i]) < radix
    ensures |d| < |s| ==> DigitValue(s[|d|]) >= radix
  {
    if s != [] && DigitValue(s[0]) < radix then [s[0]] + LeadingDigits(s[1..], radix) else []
  }

  /** The value of a digit string, most significant digit first. */
  function ValueOf(d: string, radix: nat): nat {
    if d == [] then 0 else ValueOf(d[..|d| - 1], radix) * radix + DigitValue(d[|d| - 1])
  }

  /**
    `parseInt(s)` with no radix: skip leading white space, read an optional sign,
    read base 16 after "0x" or "0X" and base 10 otherwise, and keep the longest run
    of digits. No digit at all is NaN, here None.
   */
  function ParseInt(s: string): Option<int> {
    var t := TrimStart(s);
    var negative := t != [] && t[0] == '-';
    var u := if t != [] && (t[0] == '-' || t[0] == '+') then t[1..] else t;
    match ParseMagnitude(u)
    case None => None
    case Some(m) =>
      var magnitude: int := m;
      Some(if negative then -magnitude else magnitude)
  }

  /** The unsigned part of `parseInt`: base 16 after "0x" or "0X", base 10 otherwise, the longest run of digits. */
  function ParseMagnitude(u: string): Option<nat> {
    var hex := |u| >= 2 && u[0] == '0' && (u[1] == 'x' || u[1] == 'X');
    var radix := if hex then 16 else 10;
    var digits := LeadingDigits(if hex then u[2..] else u, radix);
    if digits == [] then None else Some(ValueOf(digits, radix))
  }

  /** A run of decimal digits followed by a non-digit (or nothing) is exactly the run `parseInt` reads. */
  lemma {:induction false} LeadingDigitsBefore(d: string, rest: string)
    requires AllDigits(d)
    requires rest == [] || DigitValue(rest[0]) >= 10
    ensures LeadingDigits(d + rest, 10) == d
    decreases |d|
  {
    if d != [] {
      assert (d + rest)[0] == d[0];
      assert (d + rest)[1..] == d[1..] + rest;
      assert AllDigits(d[1..]) by {
        forall i | 0 <= i < |d[1..]| ensures IsDigit(d[1..][i]) {
          assert d[1..][i] == d[i + 1];
        }
      }
      LeadingDigitsBefore(d[1..], rest);
      assert [d[0]] + d[1..] == d;
    }
  }

  lemma {:induction false} ValueOfDecimal(n: nat)
    ensures ValueOf(DecimalString(n), 10) == n
    decreases n
  {
    if n >= 10 {
      var d := DecimalString(n);
      assert d[..|d| - 1] == DecimalString(n / 10);
      ValueOfDecimal(n / 10);
    }
  }

  /** Leading zeros do not change the value of a digit string. */
  lemma {:induction false} ValueOfZeroPadded(k: nat, d: string, radix: nat)
    ensures ValueOf(Repeat('0', k) + d, radix) == ValueOf(d, radix)
    decreases |d|
  {
    var z := Repeat('0', k);
    if d == [] {
      ValueOfZeros(k, radix);
      assert z + d == z;
    } else {
      var init := d[..|d| - 1];
      assert (z + d)[..|z + d| - 1] == z + init;
      ValueOfZeroPadded(k, init, radix);
    }
  }

  lemma {:induction false} ValueOfZeros(k: nat, radix: nat)
    ensures ValueOf(Repeat('0', k), radix) == 0
  {
    if k > 0 {
      assert Repeat('0', k)[..k - 1] == Repeat('0', k - 1);
      ValueOfZeros(k - 1, radix);
    }
  }

  /**
    Reading back a zero-padded decimal rendering of `n` gives `n`:
    `parseInt(n.toString().padStart(w, '0')) === n`.
   */
  lemma ParseIntOfPaddedDecimal(n: nat, width: nat)
    ensures ParseInt(PadStart(DecimalString(n), width, '0')) == Some(n)
  {
    var d := DecimalString(n);
    var s := PadStart(d, width, '0');
    var k := |s| - |d|;
    assert s == Repeat('0', k) + d;
    assert AllDigits(s) by {
      forall i | 0 <= i < |s| ensures IsDigit(s[i]) {
        if i >= k { assert s[i] == d[i - k]; }
      }
    }
    ParseIntOfDigits(s);
    ValueOfZeroPadded(k, d, 10);
    ValueOfDecimal(n);
  }

  /**
    A non-empty run of decimal digits parses to its decimal value, also when
    text follows it that starts with a character that is no letter or digit.
   */
  lemma ParseIntOfDigitsBefore(d: string, rest: string)
    requires d != [] && AllDigits(d)
    requires rest == [] || DigitValue(rest[0]) == 36
    ensures ParseInt(d + rest) == Some(ValueOf(d, 10))
  {
    assert (d + rest)[0] == d[0];
    ParseIntOfUnsigned(d + rest);
    ParseMagnitudeOfDigits(d, rest);
  }

  /** Text that starts with a digit has no white space or sign to skip: it is read as a magnitude. */
  lemma ParseIntOfUnsigned(s: string)
    requires s != [] && IsDigit(s[0])
    ensures ParseInt(s) == if ParseMagnitude(s).None? then None else Some(ParseMagnitude(s).value)
  {
    assert !IsWhiteSpace(s[0]);
    assert TrimStart(s) == s;
  }

  lemma ParseMagnitudeOfDigits(d: string, rest: string)
    requires d != [] && AllDigits(d)
    requires rest == [] || DigitValue(rest[0]) == 36
    ensures ParseMagnitude(d + rest) == Some(ValueOf(d, 10))
  {
    var s := d + rest;
    assert |s| >= 2 ==> s[1] == (if |d| >= 2 then d[1] else rest[0]);
    LeadingDigitsBefore(d, rest);
  }

  /** A non-empty run of decimal digits parses to its decimal value. */
  lemma ParseIntOfDigits(s: string)
    requires s != [] && AllDigits(s)
    ensures ParseInt(s) == Some(ValueOf(s, 10))
  {
    ParseIntOfDigitsBefore(s, []);
    assert s + [] == s;
  }

  /** `parseInt(n.toString()) === n` for every natural `n`. */
  lemma ParseIntOfDecimal(n: nat)
    ensures ParseInt(DecimalString(n)) == Some(n)
  {
    ParseIntOfPaddedDecimal(n, 0);
    assert PadStart(DecimalString(n), 0, '0') == DecimalString(n);
  }
}
