/** The two regular-expression checks that the registration form and the
    application dialog both carry a copy of: the e-mail pattern
    `^[^\s@]+@[^\s@]+\.[^\s@]+$` and the Indian mobile number check
    (strip `[\s\-+]`, drop one leading `91`, then `^[6-9]\d{9}$`). */
module Patterns {
  import opened Js
  import opened Text

  // ---------------------------------------------------------------- e-mail

  /** `[^\s@]` */
  predicate EmailAtom(c: char) { !IsJsWhitespace(c) && c != '@' }

  /** `[^\s@]*` over the whole string. */
  predicate AllEmailAtoms(s: string) { forall k :: 0 <= k < |s| ==> EmailAtom(s[k]) }

  /** The language of `^[^\s@]+@[^\s@]+\.[^\s@]+$`: the string splits at an
      `@` (index i) and a later `.` (index j) into three non-empty parts, none
      of which holds whitespace or `@`. */
  ghost predicate EmailRegex(s: string) {
    exists i, j ::
      && 0 < i && i + 1 < j && j + 1 < |s|
      && s[i] == '@' && s[j] == '.'
      && AllEmailAtoms(s[..i]) && AllEmailAtoms(s[i + 1..j]) && AllEmailAtoms(s[j + 1..])
  }

  /** The e-mail test as a scan: a non-empty local part before the first `@`,
      no whitespace and no second `@` anywhere, and a `.` in the domain that is
      neither its first nor its last character. */
  function MatchesEmail(s: string): bool {
    match IndexOf(s, '@')
    case None => false
    case Some(i) =>
      var domain := s[i + 1..];
      && 0 < i
      && AllEmailAtoms(s[..i])
      && AllEmailAtoms(domain)
      && exists j | 0 < j < |domain| - 1 :: domain[j] == '.'
  }

  /** Every string the scan accepts is in the language of the regular
      expression. */
  lemma MatchesEmailInRegex(s: string)
    requires MatchesEmail(s)
    ensures EmailRegex(s)
  {
    var i := IndexOf(s, '@').value;
    var domain := s[i + 1..];
    var j0 :| 0 < j0 < |domain| - 1 && domain[j0] == '.';
    var j := i + 1 + j0;
    var middle, last := s[i + 1..j], s[j + 1..];
    forall k | 0 <= k < |middle|
      ensures EmailAtom(middle[k])
    {
      assert middle[k] == domain[k];
    }
    forall k | 0 <= k < |last|
      ensures EmailAtom(last[k])
    {
      assert last[k] == domain[j0 + 1 + k];
    }
    assert s[j] == '.';
    assert AllEmailAtoms(s[..i]) && AllEmailAtoms(s[i + 1..j]) && AllEmailAtoms(s[j + 1..]);
  }

  /** Every string in the language of the regular expression is accepted by
      the scan. */
  lemma RegexInMatchesEmail(s: string, i: int, j: int)
    requires 0 < i && i + 1 < j && j + 1 < |s|
    requires s[i] == '@' && s[j] == '.'
    requires AllEmailAtoms(s[..i]) && AllEmailAtoms(s[i + 1..j]) && AllEmailAtoms(s[j + 1..])
    ensures MatchesEmail(s)
  {
    assert forall k :: 0 <= k < i ==> s[..i][k] == s[k];
    var r := IndexOf(s, '@');
    assert r == Some(i);
    var domain := s[i + 1..];
    forall k | 0 <= k < |domain|
      ensures EmailAtom(domain[k])
    {
      if k < j - i - 1 {
        assert domain[k] == s[i + 1..j][k];
      } else if k > j - i - 1 {
        assert domain[k] == s[j + 1..][k - (j - i)];
      }
    }
    assert domain[j - i - 1] == '.';
  }

  /** The scan accepts exactly the strings of the regular expression. */
  lemma MatchesEmailIffRegex(s: string)
    ensures MatchesEmail(s) <==> EmailRegex(s)
  {
    if MatchesEmail(s) {
      MatchesEmailInRegex(s);
    }
    if EmailRegex(s) {
      var i, j :|
        && 0 < i && i + 1 < j && j + 1 < |s|
        && s[i] == '@' && s[j] == '.'
        && AllEmailAtoms(s[..i]) && AllEmailAtoms(s[i + 1..j]) && AllEmailAtoms(s[j + 1..]);
      RegexInMatchesEmail(s, i, j);
    }
  }

  /** A string with exactly one `@`: the scan's verdict rules out a second
      `@` and any whitespace. */
  lemma MatchedEmailHasOneAt(s: string, i: nat)
    requires MatchesEmail(s) && i < |s| && s[i] == '@'
    ensures IndexOf(s, '@') == Some(i)
    ensures forall k :: 0 <= k < |s| ==> !IsJsWhitespace(s[k])
  {
    var a := IndexOf(s, '@').value;
    forall k | 0 <= k < |s|
      ensures !IsJsWhitespace(s[k])
    {
      if k < a {
        assert s[..a][k] == s[k];
      } else if k > a {
        assert s[a + 1..][k - a - 1] == s[k];
      }
    }
  }

  // --------------------------------------------------------- mobile number

  /** `[\s\-+]` */
  predicate IsSeparator(c: char) { IsJsWhitespace(c) || c == '-' || c == '+' }

  /** `s.replace(/[\s\-+]/g, '')`: every separator deleted, the rest kept in
      order. */
  function StripSeparators(s: string): (r: string)
    ensures |r| <= |s|
    ensures forall k :: 0 <= k < |r| ==> !IsSeparator(r[k])
  {
    if s == [] then []
    else (if IsSeparator(s[0]) then [] else [s[0]]) + StripSeparators(s[1..])
  }

  /** Stripping works piecewise, so a number can be written in any grouping. */
  lemma {:induction false} StripSeparatorsAppend(a: string, b: string)
    ensures StripSeparators(a + b) == StripSeparators(a) + StripSeparators(b)
  {
    if a != [] {
      assert (a + b)[1..] == a[1..] + b;
      StripSeparatorsAppend(a[1..], b);
    } else {
      assert a + b == b;
    }
  }

  /** A string without separators is left as it is, so stripping twice is
      stripping once. */
  lemma {:induction false} StripSeparatorsKeepsClean(s: string)
    requires forall k :: 0 <= k < |s| ==> !IsSeparator(s[k])
    ensures StripSeparators(s) == s
  {
    if s != [] {
      StripSeparatorsKeepsClean(s[1..]);
    }
  }

  /** `.replace(/^91/, '')`: one leading `91` removed, if present. */
  function DropCountryCode(s: string): (r: string)
    ensures |s| >= 2 && s[..2] == "91" ==> r == s[2..]
    ensures !(|s| >= 2 && s[..2] == "91") ==> r == s
  {
    if |s| >= 2 && s[..2] == "91" then s[2..] else s
  }

  /** `^[6-9]\d{9}$` */
  predicate IsIndianMobile(s: string) {
    |s| == 10 && '6' <= s[0] <= '9' && forall k :: 0 <= k < 10 ==> IsDigit(s[k])
  }

  /** The mobile number check that both forms apply to a non-empty value. */
  predicate MobileAccepted(s: string) {
    IsIndianMobile(DropCountryCode(StripSeparators(s)))
  }

  /** After stripping, an accepted number is either ten digits starting with
      6 to 9 that do not begin with `91`, or `91` followed by such ten
      digits. */
  lemma MobileAcceptedIff(s: string)
    ensures MobileAccepted(s) <==>
      var t := StripSeparators(s);
      || (IsIndianMobile(t) && t[..2] != "91")
      || (|t| == 12 && t[..2] == "91" && IsIndianMobile(t[2..]))
  {
  }

  /** A string of digits has nothing to strip. */
  lemma DigitsAreClean(s: string)
    requires forall k :: 0 <= k < |s| ==> IsDigit(s[k])
    ensures StripSeparators(s) == s
  {
    StripSeparatorsKeepsClean(s);
  }

  /** Inserting a separator anywhere does not change the verdict. */
  lemma SeparatorIgnored(a: string, sep: char, b: string)
    requires IsSeparator(sep)
    ensures MobileAccepted(a + [sep] + b) <==> MobileAccepted(a + b)
  {
    StripSeparatorsAppend(a, [sep] + b);
    StripSeparatorsAppend([sep], b);
    StripSeparatorsAppend(a, b);
    assert [sep][1..] == [];
    assert StripSeparators([sep]) == [];
    assert StripSeparators([sep] + b) == StripSeparators(b);
    assert a + [sep] + b == a + ([sep] + b);
    assert StripSeparators(a + [sep] + b) == StripSeparators(a + b);
  }

  /** Every bare ten-digit number that begins with 91 loses those two digits
      and is rejected. */
  lemma BareNumberStartingWith91Rejected(s: string)
    requires |s| == 10 && s[..2] == "91"
    requires forall k :: 0 <= k < |s| ==> IsDigit(s[k])
    ensures !MobileAccepted(s)
  {
    DigitsAreClean(s);
  }

  /** A bare ten-digit number starting with 6, 7, 8 or a 9 not followed by 1
      is accepted. */
  lemma BareNumberAccepted(s: string)
    requires IsIndianMobile(s) && s[..2] != "91"
    ensures MobileAccepted(s)
  {
    DigitsAreClean(s);
  }

  /** The country code followed by a valid ten-digit number is accepted. */
  lemma CodedNumberAccepted(s: string)
    requires IsIndianMobile(s)
    ensures MobileAccepted("91" + s)
  {
    DigitsAreClean("91" + s);
    assert ("91" + s)[..2] == "91" && ("91" + s)[2..] == s;
  }

  /** `9123456789` is rejected. */
  lemma RejectedExample()
    ensures !MobileAccepted("9123456789")
  {
    var rejected := "9123456789";
    assert rejected[..2] == "91";
    BareNumberStartingWith91Rejected(rejected);
  }

  /** `9876543210` and `919876543210` are accepted. */
  lemma AcceptedExamples()
    ensures MobileAccepted("9876543210")
    ensures MobileAccepted("919876543210")
  {
    var bare := "9876543210";
    assert bare[..2][1] != "91"[1];
    BareNumberAccepted(bare);
    CodedNumberAccepted(bare);
    assert "91" + bare == "919876543210";
  }

  /** A number written as `+91 ddddd-ddddd` is accepted when its ten
      digits are. */
  lemma GroupedNumberAccepted(s: string, t: string)
    requires IsIndianMobile(t)
    requires s == "+91 " + t[..5] + "-" + t[5..]
    ensures MobileAccepted(s)
  {
    CodedNumberAccepted(t);
    var u, v := t[..5], t[5..];
    assert t == u + v;
    assert s == [] + ['+'] + ("91" + [' '] + u + "-" + v);
    SeparatorIgnored([], '+', "91" + [' '] + u + "-" + v);
    assert [] + ("91" + [' '] + u + "-" + v) == "91" + [' '] + (u + "-" + v);
    SeparatorIgnored("91", ' ', u + "-" + v);
    assert "91" + (u + "-" + v) == ("91" + u) + ['-'] + v;
    SeparatorIgnored("91" + u, '-', v);
    assert "91" + u + v == "91" + t;
  }

  /** `+91 98765-43210` is accepted. */
  lemma FormattedExample()
    ensures MobileAccepted("+91 98765-43210")
  {
    var t := "9876543210";
    assert t[..5] == "98765" && t[5..] == "43210";
    GroupedNumberAccepted("+91 98765-43210", t);
  }
}
