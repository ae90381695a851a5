/**
 * The ECMAScript built-ins that the core relies on, written out on strings
 * (sequences of code points): `String.prototype.trim`, `toUpperCase`,
 * `startsWith`, `slice`, `replace(/\D/g, '')` and `parseInt(s, 16)`.
 */
module JsBuiltins {
  import opened Wrappers

  /** `Boolean(s)` for an optional string: present and not empty. */
  predicate Truthy(s: Option<string>) {
    s.Some? && s.value != ""
  }

  // ---------------------------------------------------------------------------
  // Character classes
  // ---------------------------------------------------------------------------

  /** `[0-9]`: the only characters `\d` matches (ECMA-262 section 22.2.2.9). */
  predicate IsDigit(c: char) {
    '0' <= c <= '9'
  }

  /** WhiteSpace and LineTerminator code points (ECMA-262 sections 12.2 and 12.3):
      what `trim` removes and what `parseInt` skips before the number. */
  predicate IsWhitespace(c: char) {
    || c == '\t' || c == '\n' || c == '\U{B}' || c == '\U{C}' || c == '\r' || c == ' '
    || c == '\U{A0}' || c == '\U{1680}' || ('\U{2000}' <= c <= '\U{200A}')
    || c == '\U{2028}' || c == '\U{2029}' || c == '\U{202F}' || c == '\U{205F}'
    || c == '\U{3000}' || c == '\U{FEFF}'
  }

  predicate IsHexDigit(c: char) {
    IsDigit(c) || ('a' <= c <= 'f') || ('A' <= c <= 'F')
  }

  function HexDigitValue(c: char): (v: nat)
    requires IsHexDigit(c)
    ensures v < 16
  {
    if IsDigit(c) then c as int - '0' as int
    else if 'a' <= c <= 'f' then c as int - 'a' as int + 10
    else c as int - 'A' as int + 10
  }

  // ---------------------------------------------------------------------------
  // String predicates and slicing
  // ---------------------------------------------------------------------------

  /** `s.startsWith(p)`. */
  predicate StartsWith(s: string, p: string): (b: bool)
    ensures b ==> |p| <= |s| && s == p + s[|p|..]
  {
    |p| <= |s| && s[..|p|] == p
  }

  /** `s.slice(i, j)` for non-negative `i` and `j`: both bounds are clamped to
      the length, and an empty string results when `j <= i`. */
  function Slice(s: string, i: nat, j: nat): (r: string)
    ensures i <= j <= |s| ==> r == s[i..j]
    ensures |r| <= |s|
  {
    var lo := if i <= |s| then i else |s|;
    var hi := if j <= |s| then j else |s|;
    if lo <= hi then s[lo..hi] else []
  }

  /** Slicing past a prefix is slicing what follows it. */
  lemma SliceAfterPrefix(p: string, s: string, i: nat, j: nat)
    ensures Slice(p + s, |p| + i, |p| + j) == Slice(s, i, j)
  {
    var lo := if i <= |s| then i else |s|;
    var hi := if j <= |s| then j else |s|;
    if lo <= hi {
      assert (p + s)[|p| + lo..|p| + hi] == s[lo..hi];
    }
  }

  // ---------------------------------------------------------------------------
  // replace(/\D/g, '')
  // ---------------------------------------------------------------------------

  /** `s.replace(/\D/g, '')`: the digits of `s`, in order. */
  function DigitsOnly(s: string): (r: string)
    ensures |r| <= |s|
    ensures forall i :: 0 <= i < |r| ==> IsDigit(r[i])
    ensures (forall i :: 0 <= i < |s| ==> IsDigit(s[i])) ==> r == s
  {
    if s == [] then []
    else (if IsDigit(s[0]) then [s[0]] else []) + DigitsOnly(s[1..])
  }

  /** Stripping non-digits distributes over concatenation. */
  lemma {:induction false} DigitsOnlyAppend(a: string, b: string)
    ensures DigitsOnly(a + b) == DigitsOnly(a) + DigitsOnly(b)
  {
    if a != [] {
      assert (a + b)[1..] == a[1..] + b;
      DigitsOnlyAppend(a[1..], b);
    } else {
      assert a + b == b;
    }
  }

  /** Stripping non-digits twice is stripping them once. */
  lemma DigitsOnlyIdempotent(s: string)
    ensures DigitsOnly(DigitsOnly(s)) == DigitsOnly(s)
  {
  }

  // ---------------------------------------------------------------------------
  // trim()
  // ---------------------------------------------------------------------------

  /** Leading whitespace removed: `r` is the suffix of `s` after its longest
      all-whitespace prefix. */
  function TrimStart(s: string): (r: string)
    ensures |r| <= |s| && r == s[|s| - |r|..]
    ensures forall i :: 0 <= i < |s| - |r| ==> IsWhitespace(s[i])
    ensures r == [] || !IsWhitespace(r[0])
  {
    if s != [] && IsWhitespace(s[0]) then TrimStart(s[1..]) else s
  }

  /** Trailing whitespace removed: `r` is the prefix of `s` before its longest
      all-whitespace suffix. */
  function TrimEnd(s: string): (r: string)
    ensures |r| <= |s| && r == s[..|r|]
    ensures forall i :: |r| <= i < |s| ==> IsWhitespace(s[i])
    ensures r == [] || !IsWhitespace(r[|r| - 1])
  {
    if s != [] && IsWhitespace(s[|s| - 1]) then TrimEnd(s[..|s| - 1]) else s
  }

  /** `s.trim()`. */
  function Trim(s: string): (r: string)
    ensures |r| <= |s|
    ensures r == [] || (!IsWhitespace(r[0]) && !IsWhitespace(r[|r| - 1]))
  {
    TrimEnd(TrimStart(s))
  }

  /** A string with no whitespace at either end is its own trim. */
  lemma TrimNoWhitespace(s: string)
    requires s == [] || (!IsWhitespace(s[0]) && !IsWhitespace(s[|s| - 1]))
    ensures Trim(s) == s
  {
  }

  // ---------------------------------------------------------------------------
  // toUpperCase()
  // ---------------------------------------------------------------------------

  /** The upper-case form of one character: ASCII letters, plus the characters
      whose full Unicode upper-case mapping consists of ASCII letters only
      (sharp s, dotless i, long s and the Latin ligatures U+FB00 to U+FB06).
      Every other character is kept. */
  function UpperChar(c: char): (r: string)
    ensures 1 <= |r| <= 3
  {
    if 'a' <= c <= 'z' then [(c as int - 32) as char]
    else if c == '\U{DF}' then "SS"
    else if c == '\U{131}' then "I"
    else if c == '\U{17F}' then "S"
    else if c == '\U{FB00}' then "FF"
    else if c == '\U{FB01}' then "FI"
    else if c == '\U{FB02}' then "FL"
    else if c == '\U{FB03}' then "FFI"
    else if c == '\U{FB04}' then "FFL"
    else if c == '\U{FB05}' || c == '\U{FB06}' then "ST"
    else [c]
  }

  /** No character of the result is an ASCII lower-case letter. */
  predicate NoLowerAscii(s: string) {
    forall i :: 0 <= i < |s| ==> !('a' <= s[i] <= 'z')
  }

  /** `s.toUpperCase()`. */
  function ToUpperCase(s: string): (r: string)
    ensures |s| <= |r| <= 3 * |s|
    ensures NoLowerAscii(r)
  {
    if s == [] then [] else UpperChar(s[0]) + ToUpperCase(s[1..])
  }

  lemma {:induction false} ToUpperCaseAppend(a: string, b: string)
    ensures ToUpperCase(a + b) == ToUpperCase(a) + ToUpperCase(b)
  {
    if a != [] {
      assert (a + b)[1..] == a[1..] + b;
      ToUpperCaseAppend(a[1..], b);
    } else {
      assert a + b == b;
    }
  }

  /** A one-character string is upper-cased by `UpperChar`. */
  lemma UpperOne(x: char)
    ensures ToUpperCase([x]) == UpperChar(x)
  {
    assert [x][1..] == [];
  }

  /** Each character that `UpperChar` produces is left alone by `UpperChar`. */
  lemma UpperCharStable(c: char)
    ensures forall i :: 0 <= i < |UpperChar(c)| ==> UpperChar(UpperChar(c)[i]) == [UpperChar(c)[i]]
  {
  }

  /** Every character that `UpperChar` produces is its own upper case. */
  lemma UpperCharFixed(c: char)
    ensures ToUpperCase(UpperChar(c)) == UpperChar(c)
  {
    var u := UpperChar(c);
    UpperCharStable(c);
    UpperOne(u[0]);
    if |u| == 1 {
      assert u == [u[0]];
    } else if |u| == 2 {
      assert u == [u[0]] + [u[1]];
      ToUpperCaseAppend([u[0]], [u[1]]);
      UpperOne(u[1]);
    } else {
      assert u == [u[0]] + [u[1]] + [u[2]];
      ToUpperCaseAppend([u[0]] + [u[1]], [u[2]]);
      ToUpperCaseAppend([u[0]], [u[1]]);
      UpperOne(u[1]);
      UpperOne(u[2]);
    }
  }

  /** Upper-casing is idempotent: the reason why a table lookup on
      `s.toUpperCase()` gives the same answer for `s` and for its upper case. */
  lemma {:induction false} ToUpperCaseIdempotent(s: string)
    ensures ToUpperCase(ToUpperCase(s)) == ToUpperCase(s)
  {
    if s != [] {
      ToUpperCaseAppend(UpperChar(s[0]), ToUpperCase(s[1..]));
      UpperCharFixed(s[0]);
      ToUpperCaseIdempotent(s[1..]);
    }
  }

  /** A string of ASCII capitals and digits is its own upper case. */
  lemma {:induction false} ToUpperCaseOfUpper(s: string)
    requires forall i :: 0 <= i < |s| ==> 'A' <= s[i] <= 'Z' || IsDigit(s[i])
    ensures ToUpperCase(s) == s
  {
    if s != [] {
      ToUpperCaseOfUpper(s[1..]);
    }
  }

  // ---------------------------------------------------------------------------
  // parseInt(s, 16)
  // ---------------------------------------------------------------------------

  /** The longest prefix of `s` made of hexadecimal digits. */
  function HexDigitPrefix(s: string): (z: string)
    ensures |z| <= |s| && z == s[..|z|]
    ensures forall i :: 0 <= i < |z| ==> IsHexDigit(z[i])
    ensures |z| < |s| ==> !IsHexDigit(s[|z|])
  {
    if s != [] && IsHexDigit(s[0]) then [s[0]] + HexDigitPrefix(s[1..]) else []
  }

  function Pow16(n: nat): (p: nat)
    ensures p >= 1
  {
    if n == 0 then 1 else 16 * Pow16(n - 1)
  }

  /** The value of a string of hexadecimal digits, most significant first. */
  function HexValue(z: string): (v: nat)
    requires forall i :: 0 <= i < |z| ==> IsHexDigit(z[i])
    ensures v < Pow16(|z|)
  {
    if z == [] then 0
    else 16 * HexValue(z[..|z| - 1]) + HexDigitValue(z[|z| - 1])
  }

  /** One leading `+` or `-` removed. */
  function StripSign(t: string): (u: string)
    ensures |u| <= |t|
    ensures t != [] && (t[0] == '-' || t[0] == '+') ==> t == [t[0]] + u
    ensures !(t != [] && (t[0] == '-' || t[0] == '+')) ==> u == t
  {
    if t != [] && (t[0] == '-' || t[0] == '+') then t[1..] else t
  }

  /** One leading `0x` or `0X` removed (radix 16 only). */
  function StripHexPrefix(u: string): (v: string)
    ensures |v| <= |u|
    ensures |u| >= 2 && u[0] == '0' && (u[1] == 'x' || u[1] == 'X') ==> u == u[..2] + v
    ensures !(|u| >= 2 && u[0] == '0' && (u[1] == 'x' || u[1] == 'X')) ==> v == u
  {
    if |u| >= 2 && u[0] == '0' && (u[1] == 'x' || u[1] == 'X') then u[2..] else u
  }

  /** `parseInt(s, 16)` (ECMA-262 section 19.2.5): skip leading whitespace,
      take one optional sign, drop one optional `0x`/`0X`, then read the
      longest run of hexadecimal digits. No digit at all gives NaN, here
      `None`. (The sign of a negative zero is not kept: `-0` and `0` compare
      alike everywhere the core uses the value.) */
  function ParseIntHex(s: string): (r: Option<int>)
    ensures r.Some? ==> |s| >= 1 && -(Pow16(|s|) as int) < r.value < Pow16(|s|)
  {
    var t := TrimStart(s);
    var negative := t != [] && t[0] == '-';
    var z := HexDigitPrefix(StripHexPrefix(StripSign(t)));
    if z == [] then None
    else
      assert |z| <= |s|;
      PowMonotone(|z|, |s|);
      Some(if negative then -(HexValue(z) as int) else HexValue(z))
  }

  lemma {:induction false} PowMonotone(m: nat, n: nat)
    requires m <= n
    ensures Pow16(m) <= Pow16(n)
  {
    if m < n {
      PowMonotone(m, n - 1);
    }
  }

  /** Two hexadecimal digits parse to their base-16 value. */
  lemma ParseIntHexPair(a: char, b: char)
    requires IsHexDigit(a) && IsHexDigit(b)
    ensures var r := ParseIntHex([a, b]); r.Some? && r.value == 16 * HexDigitValue(a) + HexDigitValue(b)
  {
    var s := [a, b];
    assert s[0] == a && s[1] == b;
    ParseIntHexTwoDigits(s);
  }

  /** The same, for any string of two hexadecimal digits. */
  lemma ParseIntHexTwoDigits(s: string)
    requires |s| == 2 && IsHexDigit(s[0]) && IsHexDigit(s[1])
    ensures var r := ParseIntHex(s); r.Some? && r.value == 16 * HexDigitValue(s[0]) + HexDigitValue(s[1])
  {
    HexDigitPlain(s[0]);
    PairStripsNothing(s);
    HexDigitPrefixPair(s);
    HexValuePair(s);
    ParseIntHexPlain(s);
  }

  /** A string with no leading space, sign or `0x` parses to the value of
      its leading hex digits, or to NaN when there are none. */
  lemma ParseIntHexPlain(s: string)
    requires s != [] && s[0] != '-'
    requires StripHexPrefix(StripSign(TrimStart(s))) == s
    ensures ParseIntHex(s).Some? <==> HexDigitPrefix(s) != []
    ensures ParseIntHex(s).Some? ==> ParseIntHex(s).value == HexValue(HexDigitPrefix(s))
  {
  }

  /** Two hex digits carry no leading space, sign or `0x`. */
  lemma PairStripsNothing(s: string)
    requires |s| == 2 && IsHexDigit(s[0]) && IsHexDigit(s[1])
    ensures StripHexPrefix(StripSign(TrimStart(s))) == s
  {
    HexStartNotTrimmed(s);
    HexStartUnsigned(s);
    HexSecondNoPrefix(s);
  }

  /** A hex digit is neither white space, a sign nor an `x`. */
  lemma HexDigitPlain(c: char)
    requires IsHexDigit(c)
    ensures !IsWhitespace(c) && c != '-' && c != '+' && c != 'x' && c != 'X'
  {
  }

  lemma HexStartNotTrimmed(s: string)
    requires s != [] && IsHexDigit(s[0])
    ensures TrimStart(s) == s
  {
    HexDigitPlain(s[0]);
  }

  lemma HexStartUnsigned(s: string)
    requires s != [] && IsHexDigit(s[0])
    ensures StripSign(s) == s
  {
    HexDigitPlain(s[0]);
  }

  lemma HexSecondNoPrefix(s: string)
    requires |s| >= 2 && IsHexDigit(s[1])
    ensures StripHexPrefix(s) == s
  {
    HexDigitPlain(s[1]);
  }

  lemma HexDigitPrefixPair(s: string)
    requires |s| == 2 && IsHexDigit(s[0]) && IsHexDigit(s[1])
    ensures HexDigitPrefix(s) == s
  {
    assert s[1..][1..] == [];
    assert HexDigitPrefix(s[1..]) == s[1..];
  }

  lemma HexValuePair(s: string)
    requires |s| == 2 && IsHexDigit(s[0]) && IsHexDigit(s[1])
    ensures HexValue(s) == 16 * HexDigitValue(s[0]) + HexDigitValue(s[1])
  {
    assert s[..1][..0] == [];
    assert HexValue(s[..1]) == HexDigitValue(s[0]);
  }

  /** The hexadecimal prefix of a one-character string. */
  lemma HexDigitPrefixOne(c: char)
    ensures HexDigitPrefix([c]) == if IsHexDigit(c) then [c] else []
  {
  }

  lemma HexValueOne(c: char)
    requires IsHexDigit(c)
    ensures HexValue([c]) == HexDigitValue(c)
  {
    assert [c][..0] == [];
  }

  /** After its first character is skipped as whitespace or a sign, a
      two-character string parses exactly when the second is a hexadecimal
      digit, to a value below 16 in magnitude. */
  lemma ParseIntHexAfterOne(s: string)
    requires |s| == 2 && (IsWhitespace(s[0]) || s[0] == '-' || s[0] == '+')
    ensures ParseIntHex(s).Some? <==> IsHexDigit(s[1])
    ensures ParseIntHex(s).Some? ==> -15 <= ParseIntHex(s).value <= 15
  {
    var c := s[1];
    HexDigitPrefixOne(c);
    if IsHexDigit(c) {
      HexValueOne(c);
    }
    assert s[1..] == [c];
    if IsWhitespace(s[0]) {
      assert TrimStart(s) == TrimStart([c]);
      if IsWhitespace(c) {
        assert TrimStart([c]) == [];
        assert HexDigitPrefix(StripHexPrefix(StripSign([]))) == [];
      } else {
        assert TrimStart([c]) == [c];
        if c == '-' || c == '+' {
          assert HexDigitPrefix(StripHexPrefix(StripSign([c]))) == [];
        } else {
          assert StripHexPrefix(StripSign([c])) == [c];
        }
      }
    } else {
      assert TrimStart(s) == s;
      assert StripHexPrefix(StripSign(s)) == [c];
    }
  }

  /** A two-character string that starts with a hexadecimal digit parses,
      unless it is a bare `0x` prefix, to a value in [0, 255]. */
  lemma ParseIntHexFromDigit(s: string)
    requires |s| == 2 && IsHexDigit(s[0])
    ensures ParseIntHex(s).Some? <==> !(s[0] == '0' && (s[1] == 'x' || s[1] == 'X'))
    ensures ParseIntHex(s).Some? ==> 0 <= ParseIntHex(s).value <= 255
  {
    if s[0] == '0' && (s[1] == 'x' || s[1] == 'X') {
      ParseIntHexBarePrefix(s);
    } else if IsHexDigit(s[1]) {
      ParseIntHexTwoDigits(s);
    } else {
      ParseIntHexOneDigit(s);
    }
  }

  /** `0x` with no digits after it parses to NaN. */
  lemma ParseIntHexBarePrefix(s: string)
    requires |s| == 2 && s[0] == '0' && (s[1] == 'x' || s[1] == 'X')
    ensures ParseIntHex(s) == None
  {
    assert IsHexDigit(s[0]);
    HexStartNotTrimmed(s);
    HexStartUnsigned(s);
    assert StripHexPrefix(s) == [];
  }

  /** A hex digit followed by a character that ends the digits (and does not
      make a `0x` prefix) parses to that one digit's value. */
  lemma ParseIntHexOneDigit(s: string)
    requires |s| == 2 && IsHexDigit(s[0]) && !IsHexDigit(s[1])
    requires !(s[0] == '0' && (s[1] == 'x' || s[1] == 'X'))
    ensures var r := ParseIntHex(s); r.Some? && r.value == HexDigitValue(s[0])
  {
    HexDigitPlain(s[0]);
    HexStartNotTrimmed(s);
    HexStartUnsigned(s);
    assert StripHexPrefix(s) == s;
    HexDigitPrefixOne(s[1]);
    assert s[1..] == [s[1]];
    assert HexDigitPrefix(s) == [s[0]];
    HexValueOne(s[0]);
    ParseIntHexPlain(s);
  }

  /** `parseInt` of a two-character string: a number exactly when it starts
      with a hexadecimal digit other than the `0` of a `0x` prefix, or when a
      hexadecimal digit follows one leading whitespace or sign character; the
      value then lies in [-15, 255]. */
  lemma ParseIntHexTwoChars(s: string)
    requires |s| == 2
    ensures ParseIntHex(s).Some? <==>
              || (IsHexDigit(s[0]) && !(s[0] == '0' && (s[1] == 'x' || s[1] == 'X')))
              || ((IsWhitespace(s[0]) || s[0] == '-' || s[0] == '+') && IsHexDigit(s[1]))
    ensures ParseIntHex(s).Some? ==> -15 <= ParseIntHex(s).value <= 255
  {
    if IsWhitespace(s[0]) || s[0] == '-' || s[0] == '+' {
      ParseIntHexAfterOne(s);
    } else if IsHexDigit(s[0]) {
      ParseIntHexFromDigit(s);
    } else {
      ParseIntHexJunk(s);
    }
  }

  /** A string starting with a character that is no white space, sign or
      hex digit parses to NaN. */
  lemma ParseIntHexJunk(s: string)
    requires s != [] && !IsWhitespace(s[0]) && s[0] != '-' && s[0] != '+' && !IsHexDigit(s[0])
    ensures ParseIntHex(s) == None
  {
    assert s[0] != '0' by { NotHexNotZero(s[0]); }
    assert TrimStart(s) == s;
    assert StripSign(s) == s;
    assert StripHexPrefix(s) == s;
    assert HexDigitPrefix(s) == [];
  }

  lemma NotHexNotZero(c: char)
    requires !IsHexDigit(c)
    ensures c != '0'
  {
  }
}
