/** Character classes and string operations that the client's regular
    expressions and string methods rely on. */
module Text {
  import opened Js

  /** `[A-Z]` */
  predicate IsAsciiUpper(c: char) { 'A' <= c <= 'Z' }

  /** `[a-z]` */
  predicate IsAsciiLower(c: char) { 'a' <= c <= 'z' }

  /** `[A-Za-z]` */
  predicate IsAsciiLetter(c: char) { IsAsciiUpper(c) || IsAsciiLower(c) }

  /** `\d` and `[0-9]` (ASCII only in ECMAScript). */
  predicate IsDigit(c: char) { '0' <= c <= '9' }

  /** ECMAScript `\s`: the WhiteSpace and LineTerminator code points, that is
      TAB, LF, VT, FF, CR, SPACE, NBSP, the space separators of Unicode
      (U+1680, U+2000 to U+200A, U+202F, U+205F, U+3000), LINE SEPARATOR,
      PARAGRAPH SEPARATOR and the byte order mark. */
  predicate IsJsWhitespace(c: char) {
    || c == '\t' || c == '\n' || c == '\U{000B}' || c == '\U{000C}' || c == '\r'
    || c == ' ' || c == '\U{00A0}' || c == '\U{1680}'
    || ('\U{2000}' <= c <= '\U{200A}')
    || c == '\U{2028}' || c == '\U{2029}' || c == '\U{202F}' || c == '\U{205F}'
    || c == '\U{3000}' || c == '\U{FEFF}'
  }

  /** A code point that JavaScript stores in one UTF-16 code unit. */
  predicate InBmp(c: char) { (c as int) < 0x1_0000 }

  /** JavaScript's `s.length`: the number of UTF-16 code units, so a code
      point outside the Basic Multilingual Plane counts twice. */
  function Utf16Length(s: string): (n: nat)
    ensures n >= |s|
    ensures s == [] <==> n == 0
  {
    if s == [] then 0 else (if InBmp(s[0]) then 1 else 2) + Utf16Length(s[1..])
  }

  /** When every character is in the Basic Multilingual Plane, `.length` is
      the number of characters. */
  lemma {:induction false} Utf16LengthOfBmp(s: string)
    requires forall i :: 0 <= i < |s| ==> InBmp(s[i])
    ensures Utf16Length(s) == |s|
  {
    if s != [] {
      Utf16LengthOfBmp(s[1..]);
    }
  }

  /** `haystack.includes(needle)`, as a scan from the left. */
  function Includes(haystack: string, needle: string): bool
    decreases |haystack|
  {
    if |needle| <= |haystack| && haystack[..|needle|] == needle then true
    else if haystack == [] then false
    else Includes(haystack[1..], needle)
  }

  /** `needle` occurs in `haystack` at offset `i`. */
  ghost predicate OccursAt(haystack: string, needle: string, i: int) {
    0 <= i && i + |needle| <= |haystack| && haystack[i..i + |needle|] == needle
  }

  /** The scan finds the needle exactly when it occurs somewhere. */
  lemma {:induction false} IncludesIffOccurs(haystack: string, needle: string)
    ensures Includes(haystack, needle) <==> exists i :: OccursAt(haystack, needle, i)
    decreases |haystack|
  {
    if |needle| <= |haystack| && haystack[..|needle|] == needle {
      assert OccursAt(haystack, needle, 0);
    } else if haystack != [] {
      IncludesIffOccurs(haystack[1..], needle);
      if Includes(haystack[1..], needle) {
        var i :| OccursAt(haystack[1..], needle, i);
        assert haystack[1..][i..i + |needle|] == haystack[i + 1..i + 1 + |needle|];
        assert OccursAt(haystack, needle, i + 1);
      }
      forall i | OccursAt(haystack, needle, i)
        ensures OccursAt(haystack[1..], needle, i - 1)
      {
        assert haystack[1..][i - 1..i - 1 + |needle|] == haystack[i..i + |needle|];
      }
    }
  }

  /** Index of the first occurrence of `c`, if any. */
  function IndexOf(s: string, c: char): (r: Option<nat>)
    ensures r.Some? ==> r.value < |s| && s[r.value] == c
    ensures r.Some? ==> forall k :: 0 <= k < r.value ==> s[k] != c
    ensures r.None? ==> forall k :: 0 <= k < |s| ==> s[k] != c
  {
    if s == [] then None
    else if s[0] == c then Some(0)
    else match IndexOf(s[1..], c)
      case None => None
      case Some(k) => Some(k + 1)
  }

  /** ASCII-only `toUpperCase` of one character. */
  function AsciiUpper(c: char): (u: char)
    ensures IsAsciiLower(c) ==> IsAsciiUpper(u) && (u as int) == (c as int) - 32
    ensures !IsAsciiLower(c) ==> u == c
  {
    if IsAsciiLower(c) then ((c as int) - 32) as char else c
  }

  /** The decimal digit for `d`. */
  function DigitChar(d: nat): (c: char)
    requires d < 10
    ensures IsDigit(c) && (c as int) - ('0' as int) == d
  {
    (('0' as int) + d) as char
  }

  /** JavaScript's `String(n)` for a non-negative integer: decimal without
      leading zeros. */
  function Decimal(n: nat): (s: string)
    ensures |s| >= 1
    ensures forall i :: 0 <= i < |s| ==> IsDigit(s[i])
    ensures n >= 10 ==> |s| >= 2
  {
    if n < 10 then [DigitChar(n)] else Decimal(n / 10) + [DigitChar(n % 10)]
  }

  /** Distinct numbers print differently. */
  lemma {:induction false} DecimalInjective(m: nat, n: nat)
    requires Decimal(m) == Decimal(n)
    ensures m == n
  {
    var sm, sn := Decimal(m), Decimal(n);
    if m >= 10 && n >= 10 {
      var qm, rm, qn, rn := m / 10, m % 10, n / 10, n % 10;
      assert sm == Decimal(qm) + [DigitChar(rm)];
      assert sn == Decimal(qn) + [DigitChar(rn)];
      assert DigitChar(rm) == sm[|sm| - 1] == sn[|sn| - 1] == DigitChar(rn);
      assert Decimal(qm) == sm[..|sm| - 1] == sn[..|sn| - 1] == Decimal(qn);
      DecimalInjective(qm, qn);
    } else if m < 10 && n < 10 {
      assert sm[0] == DigitChar(m) && sn[0] == DigitChar(n);
    }
  }
}
