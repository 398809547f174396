/**
 * The pieces of the JVM string library the chat server relies on:
 * Integer.parseInt / Long.parseLong, Int.toString, trim, ASCII case
 * mapping, capitalize, startsWith(ignoreCase) and String.compareTo.
 */
module Strings {
  import opened Wrappers

  const INT_MIN: int := -0x8000_0000
  const INT_MAX: int := 0x7FFF_FFFF
  const LONG_MIN: int := -0x8000_0000_0000_0000
  const LONG_MAX: int := 0x7FFF_FFFF_FFFF_FFFF

  predicate IsInt32(i: int) { INT_MIN <= i <= INT_MAX }

  /** Kotlin `Long.toInt()`: keep the low 32 bits, as a signed value. */
  function WrapInt32(i: int): (r: int)
    ensures IsInt32(r)
    ensures (r - i) % 0x1_0000_0000 == 0
    ensures IsInt32(i) ==> r == i
  {
    var m := i % 0x1_0000_0000;
    if m > INT_MAX then m - 0x1_0000_0000 else m
  }

  predicate IsDigit(c: char) { '0' <= c <= '9' }

  predicate AllDigits(s: string) { forall i :: 0 <= i < |s| ==> IsDigit(s[i]) }

  function DigitValue(c: char): nat
    requires IsDigit(c)
  { c as int - '0' as int }

  function DigitChar(d: nat): (c: char)
    requires d < 10
    ensures IsDigit(c) && DigitValue(c) == d
  { ('0' as int + d) as char }

  /** The value of a string of decimal digits, most significant first. */
  function DigitsValue(s: string): nat
    requires AllDigits(s)
  {
    if s == [] then 0 else DigitsValue(s[..|s| - 1]) * 10 + DigitValue(s[|s| - 1])
  }

  /**
   * Java's decimal parser: an optional '+' or '-', then one or more ASCII
   * digits, and the value must lie in [lo, hi]; anything else is a
   * NumberFormatException (None).
   */
  function ParseDecimal(s: string, lo: int, hi: int): (r: Option<int>)
    ensures r.Some? ==> lo <= r.value <= hi
    ensures r.Some? ==> |s| > 0 && (IsDigit(s[0]) || s[0] == '-' || s[0] == '+')
  {
    if |s| == 0 then None
    else
      var body := if s[0] == '-' || s[0] == '+' then s[1..] else s;
      if |body| == 0 || !AllDigits(body) then None
      else
        var v: int := if s[0] == '-' then 0 - (DigitsValue(body) as int) else DigitsValue(body);
        if lo <= v <= hi then Some(v) else None
  }

  /** Kotlin `String.toInt()` (Integer.parseInt). */
  function ParseInt(s: string): (r: Option<int>)
    ensures r.Some? ==> IsInt32(r.value)
  { ParseDecimal(s, INT_MIN, INT_MAX) }

  /** Kotlin `String.toLong()` (Long.parseLong). */
  function ParseLong(s: string): (r: Option<int>)
    ensures r.Some? ==> LONG_MIN <= r.value <= LONG_MAX
  { ParseDecimal(s, LONG_MIN, LONG_MAX) }

  /** Decimal digits of a natural number, without leading zeros. */
  function NatText(n: nat): string
  {
    if n < 10 then [DigitChar(n)] else NatText(n / 10) + [DigitChar(n % 10)]
  }

  /** `Int.toString()` / `Long.toString()`. */
  function IntText(i: int): string
  {
    if i < 0 then "-" + NatText(-i) else NatText(i)
  }

  lemma {:induction false} NatTextDigits(n: nat)
    ensures |NatText(n)| > 0 && AllDigits(NatText(n)) && DigitsValue(NatText(n)) == n
  {
    if n >= 10 {
      NatTextDigits(n / 10);
      var s := NatText(n);
      assert s[..|s| - 1] == NatText(n / 10);
    }
  }

  /** Printing an integer and parsing it back gives the integer: Int.toString is a right inverse of toInt on 32 bits. */
  lemma ParseIntText(i: int)
    requires IsInt32(i)
    ensures ParseInt(IntText(i)) == Some(i)
  {
    if i < 0 {
      NatTextDigits(-i);
      assert ("-" + NatText(-i))[1..] == NatText(-i);
    } else {
      NatTextDigits(i);
    }
  }

  /** The same for Long.toString / toLong on 64 bits. */
  lemma ParseLongText(i: int)
    requires LONG_MIN <= i <= LONG_MAX
    ensures ParseLong(IntText(i)) == Some(i)
  {
    if i < 0 {
      NatTextDigits(-i);
      assert ("-" + NatText(-i))[1..] == NatText(-i);
    } else {
      NatTextDigits(i);
    }
  }

  /** The text of an integer is never empty, so it never counts as a missing value. */
  lemma IntTextNonEmpty(i: int)
    ensures |IntText(i)| > 0
  {
    if i < 0 { NatTextDigits(-i); } else { NatTextDigits(i); }
  }

  // ---- case mapping (ASCII letters) ----

  function LowerChar(c: char): char
  { if 'A' <= c <= 'Z' then (c as int + 32) as char else c }

  function UpperChar(c: char): char
  { if 'a' <= c <= 'z' then (c as int - 32) as char else c }

  /** `String.toLowerCase()` on ASCII letters. */
  function Lower(s: string): (r: string)
    ensures |r| == |s|
    ensures forall i :: 0 <= i < |s| ==> r[i] == LowerChar(s[i])
  {
    if s == [] then [] else [LowerChar(s[0])] + Lower(s[1..])
  }

  /** `String.capitalize()`: the first character upper-cased, the rest kept. */
  function Capitalize(s: string): (r: string)
    ensures |r| == |s|
    ensures |s| > 0 ==> r[0] == UpperChar(s[0]) && r[1..] == s[1..]
  {
    if s == [] then s else [UpperChar(s[0])] + s[1..]
  }

  /** `equals(other, ignoreCase = true)` for ASCII letters. */
  predicate EqualsIgnoreCase(a: string, b: string)
  {
    |a| == |b| && forall i :: 0 <= i < |a| ==> LowerChar(a[i]) == LowerChar(b[i])
  }

  /** `startsWith(prefix, ignoreCase = true)`. */
  predicate StartsWithIgnoreCase(s: string, prefix: string)
  {
    |prefix| <= |s| && EqualsIgnoreCase(s[..|prefix|], prefix)
  }

  /** Kotlin `String.toBoolean()`: true exactly for "true" in any case. */
  predicate ToBoolean(s: string)
  {
    EqualsIgnoreCase(s, "true")
  }

  // ---- trim ----

  /**
   * Kotlin's Char.isWhitespace on the JVM: Character.isWhitespace (the
   * controls U+0009-U+000D and U+001C-U+001F) or Character.isSpaceChar (the
   * space, line and paragraph separators of Unicode, the no-break spaces
   * U+00A0, U+2007 and U+202F among them).
   */
  predicate IsWhitespace(c: char)
  {
    var n := c as int;
    (9 <= n <= 13) || (0x1C <= n <= 0x20) || n == 0xA0 || n == 0x1680 || (0x2000 <= n <= 0x200A) ||
    n == 0x2028 || n == 0x2029 || n == 0x202F || n == 0x205F || n == 0x3000
  }

  predicate IsBlank(s: string) { forall i :: 0 <= i < |s| ==> IsWhitespace(s[i]) }

  function TrimStart(s: string): (r: string)
    ensures |r| <= |s| && r == s[|s| - |r|..]
    ensures r == [] || !IsWhitespace(r[0])
    ensures IsBlank(s[..|s| - |r|])
  {
    if |s| > 0 && IsWhitespace(s[0]) then
      var r := TrimStart(s[1..]);
      assert s[..|s| - |r|] == [s[0]] + s[1..][..|s| - 1 - |r|];
      r
    else s
  }

  function TrimEnd(s: string): (r: string)
    ensures |r| <= |s| && r == s[..|r|]
    ensures r == [] || !IsWhitespace(r[|r| - 1])
    ensures IsBlank(s[|r|..])
  {
    if |s| > 0 && IsWhitespace(s[|s| - 1]) then
      var r := TrimEnd(s[..|s| - 1]);
      assert s[|r|..] == s[..|s| - 1][|r|..] + [s[|s| - 1]];
      r
    else s
  }

  /**
   * `String.trim()`: what remains has no whitespace at either end, and it is
   * empty exactly when the whole string is blank.
   */
  function Trim(s: string): (r: string)
    ensures |r| <= |s|
    ensures r == [] || (!IsWhitespace(r[0]) && !IsWhitespace(r[|r| - 1]))
    ensures r == [] <==> IsBlank(s)
  {
    TrimEnds(s);
    TrimBlank(s);
    TrimEnd(TrimStart(s))
  }

  /** Trimming the start, then the end, leaves no whitespace at either end. */
  lemma TrimEnds(s: string)
    ensures var r := TrimEnd(TrimStart(s)); r == [] || (!IsWhitespace(r[0]) && !IsWhitespace(r[|r| - 1]))
  {
    var t := TrimStart(s);
    var r := TrimEnd(t);
    if r != [] {
      assert r[0] == t[0];
    }
  }

  /** Trimming leaves nothing exactly from a blank string. */
  lemma TrimBlank(s: string)
    ensures TrimEnd(TrimStart(s)) == [] <==> IsBlank(s)
  {
    var t := TrimStart(s);
    var blank := s[..|s| - |t|];
    assert s == blank + t;
    BlankConcat(blank, t);
    if TrimEnd(t) == [] {
      assert t == t[0..];
    }
  }

  /** A concatenation is blank exactly when both parts are. */
  lemma BlankConcat(a: string, b: string)
    ensures IsBlank(a + b) <==> IsBlank(a) && IsBlank(b)
  {
    var c := a + b;
    if IsBlank(c) {
      forall i | 0 <= i < |a| ensures IsWhitespace(a[i]) {
        assert a[i] == c[i];
      }
      forall i | 0 <= i < |b| ensures IsWhitespace(b[i]) {
        assert b[i] == c[|a| + i];
      }
    }
    if IsBlank(a) && IsBlank(b) {
      forall i | 0 <= i < |c| ensures IsWhitespace(c[i]) {
        if i < |a| {
          assert c[i] == a[i];
        } else {
          assert c[i] == b[i - |a|];
        }
      }
    }
  }

  // ---- String.compareTo ----

  /** `a.compareTo(b) < 0`: lexicographic order on characters, a proper prefix first. */
  predicate StrLess(a: string, b: string)
  {
    if |a| == 0 then |b| > 0
    else if |b| == 0 then false
    else if a[0] != b[0] then a[0] < b[0]
    else StrLess(a[1..], b[1..])
  }

  /** `compareTo` reduced to its sign. */
  function CompareStr(a: string, b: string): (r: int)
    ensures r == 0 <==> a == b
    ensures r < 0 <==> StrLess(a, b)
    ensures r > 0 <==> StrLess(b, a)
  {
    StrLessIrreflexive(a);
    StrLessAsymmetric(a, b);
    StrLessTotal(a, b);
    if StrLess(a, b) then -1 else if StrLess(b, a) then 1 else 0
  }

  /** Swapping the operands of compareTo negates its sign. */
  lemma CompareStrAntisymmetric(a: string, b: string)
    ensures CompareStr(a, b) == -CompareStr(b, a)
  {
  }

  lemma {:induction false} StrLessIrreflexive(a: string)
    ensures !StrLess(a, a)
  {
    if |a| > 0 { StrLessIrreflexive(a[1..]); }
  }

  lemma {:induction false} StrLessAsymmetric(a: string, b: string)
    ensures StrLess(a, b) ==> !StrLess(b, a)
  {
    if |a| > 0 && |b| > 0 && a[0] == b[0] { StrLessAsymmetric(a[1..], b[1..]); }
  }

  lemma {:induction false} StrLessTotal(a: string, b: string)
    ensures a != b ==> StrLess(a, b) || StrLess(b, a)
  {
    if |a| > 0 && |b| > 0 && a[0] == b[0] {
      StrLessTotal(a[1..], b[1..]);
      if a[1..] == b[1..] { assert a == [a[0]] + a[1..] && b == [b[0]] + b[1..]; }
    }
  }

  lemma {:induction false} StrLessTransitive(a: string, b: string, c: string)
    requires StrLess(a, b) && StrLess(b, c)
    ensures StrLess(a, c)
  {
    if |a| > 0 && |b| > 0 && |c| > 0 && a[0] == b[0] && b[0] == c[0] {
      StrLessTransitive(a[1..], b[1..], c[1..]);
    }
  }
}
