/** val/validator.go: length windows (in bytes) and the two anchored
    character-class regular expressions for user names and full names. */
module Validator {
  import opened Wrappers
  import opened GoStrings

  datatype ValidationError =
    | LengthOutOfRange(minLength: int, maxLength: int)
    | UsernameCharset
    | FullNameCharset
    | InvalidEmailAddress

  /** `[a-z0-9_]` */
  predicate IsUsernameRune(c: char) {
    'a' <= c <= 'z' || '0' <= c <= '9' || c == '_'
  }

  /** `[a-zA-Z\s]`, where the regular-expression class `\s` is `[\t\n\f\r ]`:
      unlike strings.Fields it excludes the vertical tab and every
      non-ASCII space. */
  predicate IsFullNameRune(c: char) {
    || 'a' <= c <= 'z' || 'A' <= c <= 'Z'
    || c == '\t' || c == '\n' || c == '\U{C}' || c == '\r' || c == ' '
  }

  /** Whether the anchored expression `^[cls]+$` matches `s`: scanning rune by
      rune, the match succeeds when every rune is in the class and there is
      at least one. */
  function MatchWholeClassPlus(cls: char -> bool, s: string): (b: bool)
    ensures b <==> |s| > 0 && forall i :: 0 <= i < |s| ==> cls(s[i])
  {
    |s| > 0 && cls(s[0]) && (|s| == 1 || MatchWholeClassPlus(cls, s[1..]))
  }

  /** ValidateString: the byte length must lie in [minLength, maxLength]. */
  function ValidateString(value: string, minLength: int, maxLength: int): (r: Outcome<ValidationError>)
    ensures r.Pass? <==> minLength <= Utf8Len(value) <= maxLength
    ensures r.Fail? ==> r.error == LengthOutOfRange(minLength, maxLength)
  {
    var valLength := Utf8Len(value);
    if valLength < minLength || valLength > maxLength then
      Fail(LengthOutOfRange(minLength, maxLength))
    else
      Pass
  }

  /** An ASCII-only string is measured in runes: its bytes and runes agree. */
  lemma ValidateStringAscii(value: string, minLength: int, maxLength: int)
    requires forall i :: 0 <= i < |value| ==> IsAscii(value[i])
    ensures ValidateString(value, minLength, maxLength).Pass? <==> minLength <= |value| <= maxLength
  {
    Utf8LenAscii(value);
  }

  /** Widening the window never turns an accepted string into a rejected one. */
  lemma ValidateStringMonotone(value: string, lo: int, hi: int, lo': int, hi': int)
    requires lo' <= lo && hi <= hi'
    requires ValidateString(value, lo, hi).Pass?
    ensures ValidateString(value, lo', hi').Pass?
  {
  }

  /** ValidateUsername: 3 to 100 runes, all from `[a-z0-9_]`. A string of the
      wrong length reports the length error whatever runes it holds. */
  function ValidateUsername(username: string): (r: Outcome<ValidationError>)
    ensures r.Pass? <==> 3 <= |username| <= 100 && forall i :: 0 <= i < |username| ==> IsUsernameRune(username[i])
    ensures !(3 <= Utf8Len(username) <= 100) ==> r == Fail(LengthOutOfRange(3, 100))
    ensures 3 <= Utf8Len(username) <= 100 && r.Fail? ==> r == Fail(UsernameCharset)
  {
    Utf8LenAscii(username);
    assert (forall i :: 0 <= i < |username| ==> IsUsernameRune(username[i])) ==>
      forall i :: 0 <= i < |username| ==> IsAscii(username[i]);
    var lengthCheck := ValidateString(username, 3, 100);
    if lengthCheck.Fail? then
      lengthCheck
    else if !MatchWholeClassPlus(IsUsernameRune, username) then
      Fail(UsernameCharset)
    else
      Pass
  }

  /** ValidateFullName: 3 to 100 runes, all ASCII letters or `\s` spaces. */
  function ValidateFullName(fullname: string): (r: Outcome<ValidationError>)
    ensures r.Pass? <==> 3 <= |fullname| <= 100 && forall i :: 0 <= i < |fullname| ==> IsFullNameRune(fullname[i])
    ensures !(3 <= Utf8Len(fullname) <= 100) ==> r == Fail(LengthOutOfRange(3, 100))
    ensures 3 <= Utf8Len(fullname) <= 100 && r.Fail? ==> r == Fail(FullNameCharset)
  {
    Utf8LenAscii(fullname);
    assert (forall i :: 0 <= i < |fullname| ==> IsFullNameRune(fullname[i])) ==>
      forall i :: 0 <= i < |fullname| ==> IsAscii(fullname[i]);
    var lengthCheck := ValidateString(fullname, 3, 100);
    if lengthCheck.Fail? then
      lengthCheck
    else if !MatchWholeClassPlus(IsFullNameRune, fullname) then
      Fail(FullNameCharset)
    else
      Pass
  }

  /** ValidatePassword: only the byte length, 6 to 100, is checked. */
  function ValidatePassword(password: string): (r: Outcome<ValidationError>)
    ensures r.Pass? <==> 6 <= Utf8Len(password) <= 100
    ensures r.Fail? ==> r.error == LengthOutOfRange(6, 100)
  {
    ValidateString(password, 6, 100)
  }

  /** The content of a password is irrelevant: two passwords of the same byte
      length are judged alike. */
  lemma PasswordContentIrrelevant(p: string, q: string)
    requires Utf8Len(p) == Utf8Len(q)
    ensures ValidatePassword(p) == ValidatePassword(q)
  {
  }

  /** ValidateEmail: the length window first, then the address parser, which
      is an uninterpreted predicate here. */
  function ValidateEmail(email: string, parseAddress: string -> bool): (r: Outcome<ValidationError>)
    ensures !(3 <= Utf8Len(email) <= 100) ==> r == Fail(LengthOutOfRange(3, 100))
    ensures 3 <= Utf8Len(email) <= 100 ==> (r.Pass? <==> parseAddress(email))
    ensures 3 <= Utf8Len(email) <= 100 && r.Fail? ==> r == Fail(InvalidEmailAddress)
  {
    var lengthCheck := ValidateString(email, 3, 100);
    if lengthCheck.Fail? then
      lengthCheck
    else if !parseAddress(email) then
      Fail(InvalidEmailAddress)
    else
      Pass
  }

  /** An address outside the length window is rejected before the parser is
      consulted: any two parsers give the same verdict. */
  lemma EmailLengthBeforeParser(email: string, parse1: string -> bool, parse2: string -> bool)
    requires !(3 <= Utf8Len(email) <= 100)
    ensures ValidateEmail(email, parse1) == ValidateEmail(email, parse2)
  {
  }

  /** The length check of ValidateUsername runs first: a too-short name with
      illegal runes still reports the length error. */
  lemma UsernameLengthReportedFirst()
    ensures ValidateUsername("A!") == Fail(LengthOutOfRange(3, 100))
    ensures ValidateUsername("AB!") == Fail(UsernameCharset)
  {
  }

  /** A vertical tab counts as whitespace for strings.Fields but not for the
      regular-expression class `\s`, so a full name containing one fails. */
  lemma FullNameRejectsVerticalTab(fullname: string, i: int)
    requires 0 <= i < |fullname| && fullname[i] == '\U{B}'
    ensures ValidateFullName(fullname).Fail?
    ensures IsSpace(fullname[i])
  {
  }
}
