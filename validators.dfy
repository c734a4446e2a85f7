/**
 * The e-mail and phone checks of both helper files (the two variants use
 * the same two regular expressions). Each pattern is given a computable
 * matcher and an independent description of its language, and the two are
 * proved to agree.
 */
module Validators {
  import opened Wrappers
  import opened Seqs

  /** `\s` in a JavaScript regular expression. */
  predicate IsSpace(c: char) {
    c == ' ' || c == '\t' || c == '\n' || c == '\U{000B}' || c == '\U{000C}' || c == '\r'
    || c == '\U{00A0}' || c == '\U{1680}' || ('\U{2000}' <= c <= '\U{200A}')
    || c == '\U{2028}' || c == '\U{2029}' || c == '\U{202F}' || c == '\U{205F}'
    || c == '\U{3000}' || c == '\U{FEFF}'
  }

  /** `\d` / `[0-9]`. */
  predicate IsDigit(c: char) {
    '0' <= c <= '9'
  }

  predicate AllDigits(s: string) {
    forall i :: 0 <= i < |s| ==> IsDigit(s[i])
  }

  /** `s.replace(/\D/g, '')`: the digits of s, in order. */
  function Digits(s: string): (r: string)
    ensures |r| <= |s|
  {
    if s == [] then []
    else (if IsDigit(s[0]) then [s[0]] else []) + Digits(s[1..])
  }

  // ---------------------------------------------------------------------
  // E-mail: /^[^\s@]+@[^\s@]+\.[^\s@]+$/

  /** `[^\s@]`. */
  predicate IsAddressChar(c: char) {
    !IsSpace(c) && c != '@'
  }

  predicate AllAddressChars(s: string) {
    forall i :: 0 <= i < |s| ==> IsAddressChar(s[i])
  }

  /** `[^\s@]+\.[^\s@]+`: address characters with a '.' that is neither the first nor the last. */
  predicate IsDomain(d: string) {
    AllAddressChars(d) && exists k :: 0 < k < |d| - 1 && d[k] == '.'
  }

  /** Position of the first c in s, or |s| when there is none. */
  function IndexOf(s: string, c: char): (i: nat)
    ensures i <= |s|
    ensures i < |s| ==> s[i] == c
    ensures forall k :: 0 <= k < i ==> s[k] != c
  {
    if s == [] then 0
    else if s[0] == c then 0
    else 1 + IndexOf(s[1..], c)
  }

  /** `validateEmail`: a local part before the first '@', a domain after it. */
  predicate ValidateEmail(email: string) {
    var at := IndexOf(email, '@');
    0 < at < |email| && AllAddressChars(email[..at]) && IsDomain(email[at + 1..])
  }

  /**
   * The language of the regular expression: the string splits at an '@' and,
   * later, a '.', into three non-empty runs of address characters.
   */
  ghost predicate MatchesEmailPattern(s: string) {
    exists at, dot :: 0 < at && at + 1 < dot < |s| - 1 && s[at] == '@' && s[dot] == '.'
      && forall k :: 0 <= k < |s| && k != at ==> IsAddressChar(s[k])
  }

  lemma FirstIndexOf(s: string, c: char, at: nat)
    requires at < |s| && s[at] == c
    requires forall k :: 0 <= k < at ==> s[k] != c
    ensures IndexOf(s, c) == at
  {
  }

  /** The matcher accepts exactly the language of the regular expression. */
  lemma ValidateEmailMatchesPattern(s: string)
    ensures ValidateEmail(s) <==> MatchesEmailPattern(s)
  {
    var at := IndexOf(s, '@');
    if ValidateEmail(s) {
      var d := s[at + 1..];
      var k :| 0 < k < |d| - 1 && d[k] == '.';
      var dot := at + 1 + k;
      assert s[dot] == d[k];
      forall j | 0 <= j < |s| && j != at ensures IsAddressChar(s[j]) {
        if j < at {
          assert s[j] == s[..at][j];
        } else {
          assert s[j] == d[j - at - 1];
        }
      }
    }
    if MatchesEmailPattern(s) {
      var a, dot :| 0 < a && a + 1 < dot < |s| - 1 && s[a] == '@' && s[dot] == '.'
        && forall k :: 0 <= k < |s| && k != a ==> IsAddressChar(s[k]);
      FirstIndexOf(s, '@', a);
      var d := s[a + 1..];
      assert d[dot - a - 1] == '.';
      assert AllAddressChars(d) by {
        forall j | 0 <= j < |d| ensures IsAddressChar(d[j]) {
          assert d[j] == s[a + 1 + j];
        }
      }
      assert AllAddressChars(s[..a]) by {
        forall j | 0 <= j < a ensures IsAddressChar(s[..a][j]) {
          assert s[..a][j] == s[j];
        }
      }
    }
  }

  /** An index holding c, and no other index holding it, means c occurs exactly once. */
  lemma OccursOnce(s: string, c: char, at: nat)
    requires at < |s| && s[at] == c
    requires forall k :: 0 <= k < |s| && k != at ==> s[k] != c
    ensures multiset(s)[c] == 1
  {
    assert s == s[..at] + [c] + s[at + 1..];
    assert c !in s[..at] by {
      forall j | 0 <= j < at ensures s[..at][j] != c { assert s[..at][j] == s[j]; }
    }
    assert multiset(s) == multiset(s[..at]) + multiset([c]) + multiset(s[at + 1..]);
  }

  /** After the first occurrence of c, a string with one c holds no other. */
  lemma OnlyOccurrence(s: string, c: char, at: nat)
    requires multiset(s)[c] == 1
    requires at < |s| && s[at] == c
    ensures forall k :: 0 <= k < |s| && k != at ==> s[k] != c
  {
    assert s == s[..at] + [c] + s[at + 1..];
    assert multiset(s) == multiset(s[..at]) + multiset([c]) + multiset(s[at + 1..]);
    forall k | 0 <= k < |s| && k != at ensures s[k] != c {
      if k < at {
        assert s[k] == s[..at][k];
        assert s[k] in multiset(s[..at]);
      } else {
        assert s[k] == s[at + 1..][k - at - 1];
        assert s[k] in multiset(s[at + 1..]);
      }
    }
  }

  /**
   * The accepted set in plain terms: exactly one '@', no whitespace anywhere,
   * a non-empty part before the '@', and after it a '.' that is neither the
   * first nor the last character of the domain.
   */
  lemma EmailAcceptSet(s: string)
    ensures ValidateEmail(s) <==>
      && multiset(s)['@'] == 1
      && (forall k :: 0 <= k < |s| ==> !IsSpace(s[k]))
      && |s| > 0 && s[0] != '@'
      && exists dot :: IndexOf(s, '@') + 1 < dot < |s| - 1 && s[dot] == '.'
  {
    ValidateEmailMatchesPattern(s);
    var at := IndexOf(s, '@');
    if ValidateEmail(s) {
      var a, dot :| 0 < a && a + 1 < dot < |s| - 1 && s[a] == '@' && s[dot] == '.'
        && forall k :: 0 <= k < |s| && k != a ==> IsAddressChar(s[k]);
      FirstIndexOf(s, '@', a);
      OccursOnce(s, '@', a);
    }
    if && multiset(s)['@'] == 1
       && (forall k :: 0 <= k < |s| ==> !IsSpace(s[k]))
       && |s| > 0 && s[0] != '@'
       && exists dot :: at + 1 < dot < |s| - 1 && s[dot] == '.'
    {
      var dot :| at + 1 < dot < |s| - 1 && s[dot] == '.';
      OnlyOccurrence(s, '@', at);
      assert MatchesEmailPattern(s) by {
        assert 0 < at && at + 1 < dot < |s| - 1 && s[at] == '@' && s[dot] == '.';
        assert forall k :: 0 <= k < |s| && k != at ==> IsAddressChar(s[k]);
      }
    }
  }

  // ---------------------------------------------------------------------
  // Phone: /^[\+]?[(]?[0-9]{3}[)]?[-\s\.]?[0-9]{3}[-\s\.]?[0-9]{4,6}$/

  /** `[-\s\.]`. */
  predicate IsSeparator(c: char) {
    c == '-' || IsSpace(c) || c == '.'
  }

  /** One way through the pattern: which optional characters are present, and the three digit groups. */
  datatype PhoneParts = PhoneParts(
    plus: bool, open: bool, area: string, close: bool,
    sep1: Option<char>, exchange: string, sep2: Option<char>, line: string)

  predicate OptSeparator(o: Option<char>) {
    o.Some? ==> IsSeparator(o.value)
  }

  predicate WellFormedPhone(p: PhoneParts) {
    && |p.area| == 3 && AllDigits(p.area)
    && |p.exchange| == 3 && AllDigits(p.exchange)
    && 4 <= |p.line| <= 6 && AllDigits(p.line)
    && OptSeparator(p.sep1) && OptSeparator(p.sep2)
  }

  function Flag(present: bool, c: char): string {
    if present then [c] else []
  }

  function OptChar(o: Option<char>): string {
    if o.Some? then [o.value] else []
  }

  /** `[0-9]{3}[-\s\.]?[0-9]{4,6}` as spelled by its parts. */
  function RenderTail(exchange: string, sep2: Option<char>, line: string): string {
    exchange + (OptChar(sep2) + line)
  }

  /** `[0-9]{3}[)]?[-\s\.]?` followed by the tail. */
  function RenderMiddle(p: PhoneParts): string {
    p.area + (Flag(p.close, ')') + (OptChar(p.sep1) + RenderTail(p.exchange, p.sep2, p.line)))
  }

  /** The string a way through the pattern spells. */
  function RenderPhone(p: PhoneParts): string {
    Flag(p.plus, '+') + (Flag(p.open, '(') + RenderMiddle(p))
  }

  predicate StartsWith(s: string, c: char) {
    |s| > 0 && s[0] == c
  }

  /** The leading separator of s, if any. */
  function LeadingSeparator(s: string): Option<char> {
    if |s| > 0 && IsSeparator(s[0]) then Some(s[0]) else None
  }

  /** s without its first character when `taken`. */
  function Drop(s: string, taken: bool): string
    requires taken ==> |s| > 0
  {
    if taken then s[1..] else s
  }

  /** Matches the tail: three digits, an optional separator, four to six digits, the end. */
  function ParseTail(s: string): Option<(string, Option<char>, string)> {
    if |s| < 3 || !AllDigits(s[..3]) then None
    else
      var sep2 := LeadingSeparator(s[3..]);
      var line := Drop(s[3..], sep2.Some?);
      if 4 <= |line| <= 6 && AllDigits(line) then Some((s[..3], sep2, line)) else None
  }

  /**
   * Matches the pattern left to right. No optional character can also be
   * read by the element after it, so taking each one when present is the
   * only way the pattern can match.
   */
  function ParsePhone(s: string): Option<PhoneParts> {
    var plus := StartsWith(s, '+');
    var s1 := Drop(s, plus);
    var open := StartsWith(s1, '(');
    ParseMiddle(Drop(s1, open), plus, open)
  }

  /** Matches what follows the optional '+' and '(': three digits, an optional ')', an optional separator, the tail. */
  function ParseMiddle(s: string, plus: bool, open: bool): Option<PhoneParts> {
    if |s| < 3 || !AllDigits(s[..3]) then None
    else
      var close := StartsWith(s[3..], ')');
      var s3 := Drop(s[3..], close);
      var sep1 := LeadingSeparator(s3);
      var tail := ParseTail(Drop(s3, sep1.Some?));
      if tail.None? then None
      else Some(PhoneParts(plus, open, s[..3], close, sep1, tail.value.0, tail.value.1, tail.value.2))
  }

  /** `validatePhone`. */
  predicate ValidatePhone(phone: string) {
    ParsePhone(phone).Some?
  }

  lemma DropChar(s: string, c: char)
    ensures s == Flag(StartsWith(s, c), c) + Drop(s, StartsWith(s, c))
  {
    if StartsWith(s, c) { assert s == [s[0]] + s[1..]; }
  }

  lemma DropSeparator(s: string)
    ensures s == OptChar(LeadingSeparator(s)) + Drop(s, LeadingSeparator(s).Some?)
  {
    if LeadingSeparator(s).Some? { assert s == [s[0]] + s[1..]; }
  }

  lemma ParseTailSound(s: string)
    requires ParseTail(s).Some?
    ensures var (e, sep2, line) := ParseTail(s).value;
      |e| == 3 && AllDigits(e) && 4 <= |line| <= 6 && AllDigits(line) && OptSeparator(sep2)
      && RenderTail(e, sep2, line) == s
  {
    DropSeparator(s[3..]);
    assert s == s[..3] + s[3..];
  }

  lemma ParseMiddleSound(s: string, plus: bool, open: bool)
    requires ParseMiddle(s, plus, open).Some?
    ensures var p := ParseMiddle(s, plus, open).value;
      WellFormedPhone(p) && p.plus == plus && p.open == open && RenderMiddle(p) == s
  {
    var p := ParseMiddle(s, plus, open).value;
    var s2 := s[3..];
    var s3 := Drop(s2, p.close);
    var s4 := Drop(s3, p.sep1.Some?);
    assert p.area == s[..3] && p.close == StartsWith(s2, ')') && p.sep1 == LeadingSeparator(s3);
    assert ParseTail(s4) == Some((p.exchange, p.sep2, p.line));
    ParseTailSound(s4);
    assert s2 == Flag(p.close, ')') + (OptChar(p.sep1) + RenderTail(p.exchange, p.sep2, p.line)) by {
      DropSeparator(s3);
      DropChar(s2, ')');
    }
    SplitAt(s, 3);
  }

  lemma SplitAt(s: string, k: nat)
    requires k <= |s|
    ensures s == s[..k] + s[k..]
  {
  }

  /** Whatever the matcher accepts is spelled by a well-formed way through the pattern. */
  lemma ParsePhoneSound(s: string)
    requires ValidatePhone(s)
    ensures WellFormedPhone(ParsePhone(s).value) && RenderPhone(ParsePhone(s).value) == s
  {
    var plus := StartsWith(s, '+');
    var s1 := Drop(s, plus);
    var open := StartsWith(s1, '(');
    ParseMiddleSound(Drop(s1, open), plus, open);
    DropChar(s, '+');
    DropChar(s1, '(');
  }

  lemma TakeFlag(b: bool, c: char, t: string)
    requires |t| > 0 && t[0] != c
    ensures StartsWith(Flag(b, c) + t, c) == b && Drop(Flag(b, c) + t, b) == t
  {
    if b { assert (Flag(b, c) + t)[1..] == t; }
  }

  lemma TakeOptChar(o: Option<char>, t: string)
    requires OptSeparator(o)
    requires |t| > 0 && !IsSeparator(t[0])
    ensures LeadingSeparator(OptChar(o) + t) == o && Drop(OptChar(o) + t, o.Some?) == t
  {
    if o.Some? { assert (OptChar(o) + t)[1..] == t; }
  }

  lemma ParseTailComplete(e: string, sep2: Option<char>, line: string)
    requires |e| == 3 && AllDigits(e) && 4 <= |line| <= 6 && AllDigits(line) && OptSeparator(sep2)
    ensures ParseTail(RenderTail(e, sep2, line)) == Some((e, sep2, line))
  {
    var t := RenderTail(e, sep2, line);
    assert t[..3] == e && t[3..] == OptChar(sep2) + line;
    assert IsDigit(line[0]);
    TakeOptChar(sep2, line);
  }

  lemma ParseMiddleComplete(p: PhoneParts)
    requires WellFormedPhone(p)
    ensures ParseMiddle(RenderMiddle(p), p.plus, p.open) == Some(p)
  {
    var t4 := RenderTail(p.exchange, p.sep2, p.line);
    var t3 := OptChar(p.sep1) + t4;
    var t2 := RenderMiddle(p);
    ParseTailComplete(p.exchange, p.sep2, p.line);
    assert IsDigit(p.exchange[0]) && t4[0] == p.exchange[0];
    assert t3[0] == t4[0] || IsSeparator(t3[0]);
    assert t2[..3] == p.area && t2[3..] == Flag(p.close, ')') + t3;
    TakeFlag(p.close, ')', t3);
    TakeOptChar(p.sep1, t4);
  }

  /** Every well-formed way through the pattern is accepted, and read back as itself. */
  lemma ParsePhoneComplete(p: PhoneParts)
    requires WellFormedPhone(p)
    ensures ParsePhone(RenderPhone(p)) == Some(p)
  {
    var t2 := RenderMiddle(p);
    var t1 := Flag(p.open, '(') + t2;
    assert IsDigit(p.area[0]) && t2[0] == p.area[0];
    assert t1[0] == '(' || t1[0] == t2[0];
    TakeFlag(p.plus, '+', t1);
    TakeFlag(p.open, '(', t2);
    ParseMiddleComplete(p);
  }

  /** One step of `Digits` on a string given as head and tail. */
  lemma DigitsCons(c: char, s: string)
    ensures Digits([c] + s) == (if IsDigit(c) then [c] else []) + Digits(s)
  {
    assert ([c] + s)[1..] == s;
  }

  lemma {:induction false} DigitsConcat(a: string, b: string)
    ensures Digits(a + b) == Digits(a) + Digits(b)
  {
    if a == [] {
      assert a + b == b;
    } else {
      var t := a[1..];
      DigitsConcat(t, b);
      assert a + b == [a[0]] + (t + b);
      DigitsCons(a[0], t + b);
      assert a == [a[0]] + t;
      DigitsCons(a[0], t);
      ConcatAssoc(if IsDigit(a[0]) then [a[0]] else [], Digits(t), Digits(b));
    }
  }

  lemma {:induction false} DigitsOfDigits(s: string)
    requires AllDigits(s)
    ensures Digits(s) == s
  {
    if s != [] {
      DigitsOfDigits(s[1..]);
    }
  }

  lemma DigitsOfNonDigit(s: string)
    requires |s| <= 1
    requires forall i :: 0 <= i < |s| ==> !IsDigit(s[i])
    ensures Digits(s) == []
  {
  }

  lemma DigitsOfTail(e: string, sep2: Option<char>, line: string)
    requires AllDigits(e) && AllDigits(line) && OptSeparator(sep2)
    ensures Digits(RenderTail(e, sep2, line)) == e + line
  {
    var m := OptChar(sep2);
    assert Digits(m + line) == line by {
      DigitsOfNonDigit(m);
      DigitsOfDigits(line);
      DigitsConcat(m, line);
    }
    DigitsOfDigits(e);
    DigitsConcat(e, m + line);
  }

  lemma DigitsOfMiddle(p: PhoneParts)
    requires WellFormedPhone(p)
    ensures Digits(RenderMiddle(p)) == p.area + (p.exchange + p.line)
  {
    var t := RenderTail(p.exchange, p.sep2, p.line);
    var u := OptChar(p.sep1) + t;
    var v := Flag(p.close, ')') + u;
    assert Digits(u) == p.exchange + p.line by {
      DigitsOfTail(p.exchange, p.sep2, p.line);
      DigitsOfNonDigit(OptChar(p.sep1));
      DigitsConcat(OptChar(p.sep1), t);
    }
    assert Digits(v) == p.exchange + p.line by {
      DigitsOfNonDigit(Flag(p.close, ')'));
      DigitsConcat(Flag(p.close, ')'), u);
    }
    DigitsOfDigits(p.area);
    DigitsConcat(p.area, v);
  }

  /** The digits a way through the pattern spells: area, exchange and line. */
  lemma DigitsOfRendered(p: PhoneParts)
    requires WellFormedPhone(p)
    ensures Digits(RenderPhone(p)) == p.area + (p.exchange + p.line)
  {
    DigitsOfMiddle(p);
    DigitsOfNonDigit(Flag(p.plus, '+'));
    DigitsOfNonDigit(Flag(p.open, '('));
    DigitsConcat(Flag(p.open, '('), RenderMiddle(p));
    DigitsConcat(Flag(p.plus, '+'), Flag(p.open, '(') + RenderMiddle(p));
  }

  /** The characters a phone may contain: digits, '+', '(', ')' and separators. */
  predicate IsPhoneChar(c: char) {
    IsDigit(c) || c == '+' || c == '(' || c == ')' || IsSeparator(c)
  }

  /** Phone characters other than '+'. */
  predicate PlusFree(t: string) {
    forall i :: 0 <= i < |t| ==> IsPhoneChar(t[i]) && t[i] != '+'
  }

  lemma PlusFreeConcat(a: string, b: string)
    requires PlusFree(a) && PlusFree(b)
    ensures PlusFree(a + b)
  {
    forall i | 0 <= i < |a + b| ensures IsPhoneChar((a + b)[i]) && (a + b)[i] != '+' {
      if i >= |a| { assert (a + b)[i] == b[i - |a|]; }
    }
  }

  /** Everything after the optional leading '+' is free of '+'. */
  lemma RenderedTailPlusFree(p: PhoneParts)
    requires WellFormedPhone(p)
    ensures PlusFree(Flag(p.open, '(') + RenderMiddle(p))
  {
    PlusFreeConcat(OptChar(p.sep2), p.line);
    PlusFreeConcat(p.exchange, OptChar(p.sep2) + p.line);
    var t := RenderTail(p.exchange, p.sep2, p.line);
    PlusFreeConcat(OptChar(p.sep1), t);
    PlusFreeConcat(Flag(p.close, ')'), OptChar(p.sep1) + t);
    PlusFreeConcat(p.area, Flag(p.close, ')') + (OptChar(p.sep1) + t));
    PlusFreeConcat(Flag(p.open, '('), RenderMiddle(p));
  }

  /**
   * What `validatePhone` accepts: 10 to 12 digits, a '+' at most once and only
   * as the first character, and no character other than digits, '+', '(', ')',
   * '-', '.' and whitespace.
   */
  lemma PhoneShape(s: string)
    requires ValidatePhone(s)
    ensures 10 <= |Digits(s)| <= 12
    ensures forall i :: 0 <= i < |s| && s[i] == '+' ==> i == 0
    ensures forall i :: 0 <= i < |s| ==> IsPhoneChar(s[i])
  {
    ParsePhoneSound(s);
    var p := ParsePhone(s).value;
    DigitsOfRendered(p);
    RenderedTailPlusFree(p);
    var rest := Flag(p.open, '(') + RenderMiddle(p);
    assert s == Flag(p.plus, '+') + rest;
    forall i | 0 <= i < |s| ensures IsPhoneChar(s[i]) && (s[i] == '+' ==> i == 0) {
      if i > 0 || !p.plus {
        var j := if p.plus then i - 1 else i;
        assert s[i] == rest[j];
      }
    }
  }
}
