/** The string helpers of the user-app variant: phone formatting, word capitalisation, age. */
module Formatters {
  import opened Wrappers
  import opened Validators

  // ---------------------------------------------------------------------
  // formatPhoneNumber

  /** `formatPhoneNumber`: "(ddd) ddd-dddd" when the input holds exactly ten digits, else the input. */
  function FormatPhoneNumber(phone: string): string {
    var cleaned := Digits(phone);
    if |cleaned| == 10 then "(" + cleaned[..3] + ") " + cleaned[3..6] + "-" + cleaned[6..]
    else phone
  }

  /** The way through the phone pattern that the ten-digit format takes. */
  function FormattedParts(d: string): PhoneParts
    requires |d| == 10
  {
    PhoneParts(false, true, d[..3], true, Some(' '), d[3..6], Some('-'), d[6..])
  }

  lemma FormattedIsRendered(phone: string)
    requires |Digits(phone)| == 10
    ensures FormatPhoneNumber(phone) == RenderPhone(FormattedParts(Digits(phone)))
  {
    var d := Digits(phone);
    var p := FormattedParts(d);
    var t := d[6..];
    assert RenderTail(p.exchange, p.sep2, p.line) == d[3..6] + ("-" + t);
    assert RenderMiddle(p) == d[..3] + (")" + (" " + (d[3..6] + ("-" + t))));
    assert RenderPhone(p) == "(" + (d[..3] + (")" + (" " + (d[3..6] + ("-" + t)))));
  }

  lemma FormattedPartsWellFormed(d: string)
    requires |d| == 10 && AllDigits(d)
    ensures WellFormedPhone(FormattedParts(d))
    ensures var p := FormattedParts(d); p.area + (p.exchange + p.line) == d
  {
    var p := FormattedParts(d);
    assert d == d[..3] + (d[3..6] + d[6..]);
  }

  lemma {:induction false} DigitsAreDigits(s: string)
    ensures AllDigits(Digits(s))
  {
    if s != [] {
      DigitsAreDigits(s[1..]);
    }
  }

  /** Formatting never changes which digits the number holds, in which order. */
  lemma FormatPhoneKeepsDigits(phone: string)
    ensures Digits(FormatPhoneNumber(phone)) == Digits(phone)
  {
    var d := Digits(phone);
    if |d| == 10 {
      DigitsAreDigits(phone);
      FormattedIsRendered(phone);
      FormattedPartsWellFormed(d);
      DigitsOfRendered(FormattedParts(d));
    }
  }

  /** Formatting a formatted number changes nothing. */
  lemma FormatPhoneIdempotent(phone: string)
    ensures FormatPhoneNumber(FormatPhoneNumber(phone)) == FormatPhoneNumber(phone)
  {
    FormatPhoneKeepsDigits(phone);
  }

  /** A ten-digit number, once formatted, passes `validatePhone`; any other input comes back as it was. */
  lemma FormattedPhoneIsValid(phone: string)
    ensures |Digits(phone)| == 10 ==> ValidatePhone(FormatPhoneNumber(phone))
    ensures |Digits(phone)| != 10 ==> FormatPhoneNumber(phone) == phone
  {
    var d := Digits(phone);
    if |d| == 10 {
      DigitsAreDigits(phone);
      FormattedIsRendered(phone);
      FormattedPartsWellFormed(d);
      ParsePhoneComplete(FormattedParts(d));
    }
  }

  // ---------------------------------------------------------------------
  // capitalizeWords: str.replace(/\b\w/g, c => c.toUpperCase())

  /** `\w`. */
  predicate IsWordChar(c: char) {
    ('a' <= c <= 'z') || ('A' <= c <= 'Z') || ('0' <= c <= '9') || c == '_'
  }

  /** `toUpperCase` on a `\w` character: only a-z change. */
  function ToUpper(c: char): char {
    if 'a' <= c <= 'z' then (c as int - 32) as char else c
  }

  /** `\b\w` matches at i: a word character with no word character before it. */
  predicate StartsWord(s: string, i: int)
    requires 0 <= i < |s|
  {
    IsWordChar(s[i]) && (i == 0 || !IsWordChar(s[i - 1]))
  }

  /** The replacement scan; `afterWord` says whether the previous character was a word character. */
  function CapitalizeFrom(s: string, afterWord: bool): (r: string)
    ensures |r| == |s|
  {
    if s == [] then []
    else
      var c := if !afterWord && IsWordChar(s[0]) then ToUpper(s[0]) else s[0];
      [c] + CapitalizeFrom(s[1..], IsWordChar(s[0]))
  }

  /** `capitalizeWords`. */
  function CapitalizeWords(str: string): string {
    CapitalizeFrom(str, false)
  }

  lemma {:induction false} CapitalizeFromAt(s: string, afterWord: bool, i: nat)
    requires i < |s|
    ensures CapitalizeFrom(s, afterWord)[i] ==
      if IsWordChar(s[i]) && (if i == 0 then !afterWord else !IsWordChar(s[i - 1]))
      then ToUpper(s[i]) else s[i]
  {
    if i > 0 {
      CapitalizeFromAt(s[1..], IsWordChar(s[0]), i - 1);
      if i > 1 {
        assert s[1..][i - 2] == s[i - 1];
      }
    }
  }

  /**
   * `capitalizeWords` keeps the length and upper-cases exactly the characters
   * that start a word; only lower-case letters there actually change.
   */
  lemma CapitalizeWordsSpec(s: string)
    ensures |CapitalizeWords(s)| == |s|
    ensures forall i :: 0 <= i < |s| ==>
      CapitalizeWords(s)[i] == if StartsWord(s, i) then ToUpper(s[i]) else s[i]
    ensures forall i :: 0 <= i < |s| && CapitalizeWords(s)[i] != s[i] ==>
      StartsWord(s, i) && 'a' <= s[i] <= 'z'
  {
    forall i | 0 <= i < |s|
      ensures CapitalizeWords(s)[i] == if StartsWord(s, i) then ToUpper(s[i]) else s[i]
    {
      CapitalizeFromAt(s, false, i);
    }
  }

  /** Capitalising twice is capitalising once. */
  lemma CapitalizeWordsIdempotent(s: string)
    ensures CapitalizeWords(CapitalizeWords(s)) == CapitalizeWords(s)
  {
    var r := CapitalizeWords(s);
    CapitalizeWordsSpec(s);
    CapitalizeWordsSpec(r);
    forall i | 0 <= i < |r| ensures StartsWord(r, i) == StartsWord(s, i) {
      assert IsWordChar(r[i]) == IsWordChar(s[i]);
      if i > 0 { assert IsWordChar(r[i - 1]) == IsWordChar(s[i - 1]); }
    }
  }

  // ---------------------------------------------------------------------
  // calculateAge

  /** What `getFullYear`, `getMonth` (0 to 11) and `getDate` return for a date. */
  datatype CalendarDate = CalendarDate(year: int, month: int, day: int)

  /** By `today`, the birth date's n-th anniversary (same month and day, n years on) has come. */
  predicate AnniversaryReached(today: CalendarDate, birth: CalendarDate, n: int) {
    var y := birth.year + n;
    y < today.year
    || (y == today.year && (birth.month < today.month || (birth.month == today.month && birth.day <= today.day)))
  }

  /**
   * `calculateAge`: the year difference, one less while this year's birthday
   * is still to come; that is, the number of the last anniversary reached.
   */
  function CalculateAge(today: CalendarDate, birth: CalendarDate): (age: int)
    ensures AnniversaryReached(today, birth, age) && !AnniversaryReached(today, birth, age + 1)
    ensures age == today.year - birth.year || age == today.year - birth.year - 1
  {
    var age := today.year - birth.year;
    var monthDiff := today.month - birth.month;
    if monthDiff < 0 || (monthDiff == 0 && today.day < birth.day) then age - 1 else age
  }
}
