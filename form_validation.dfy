/**
 * The contact form's validator: four checks tried in order, the first
 * failing one reported as an error (the site shows its message in a toast).
 */
module FormValidation {

  datatype FormData = FormData(name: string, email: string, phone: string, course: string, message: string)

  /** The four checks, each named by the error it reports. */
  datatype FormError = NameTooShort | InvalidEmail | InvalidPhone | MessageTooShort

  datatype Validation = Valid | Invalid(error: FormError)

  /** The text of the error toast. */
  function ErrorMessage(e: FormError): string
  {
    match e
    case NameTooShort => "이름을 2자 이상 입력해주세요."
    case InvalidEmail => "올바른 이메일 주소를 입력해주세요."
    case InvalidPhone => "올바른 전화번호를 입력해주세요."
    case MessageTooShort => "문의 내용을 10자 이상 입력해주세요."
  }

  /**
   * ECMAScript white space and line terminators: what `\s` matches and what
   * `String.prototype.trim` removes.
   */
  predicate IsJsWhitespace(c: char)
  {
    var n := c as int;
    n == 0x09 || n == 0x0A || n == 0x0B || n == 0x0C || n == 0x0D || n == 0x20
    || n == 0xA0 || n == 0x1680 || (0x2000 <= n <= 0x200A) || n == 0x2028 || n == 0x2029
    || n == 0x202F || n == 0x205F || n == 0x3000 || n == 0xFEFF
  }

  /** Drops leading white space. */
  function TrimStart(s: string): string
  {
    if |s| > 0 && IsJsWhitespace(s[0]) then TrimStart(s[1..]) else s
  }

  /** Drops trailing white space. */
  function TrimEnd(s: string): string
  {
    if |s| > 0 && IsJsWhitespace(s[|s| - 1]) then TrimEnd(s[..|s| - 1]) else s
  }

  /** TrimStart removes a run of white space from the front, and the rest starts with something else. */
  lemma {:induction false} TrimStartDrops(s: string)
    ensures exists k :: 0 <= k <= |s| && TrimStart(s) == s[k..] && forall i :: 0 <= i < k ==> IsJsWhitespace(s[i])
    ensures |TrimStart(s)| > 0 ==> !IsJsWhitespace(TrimStart(s)[0])
  {
    if |s| > 0 && IsJsWhitespace(s[0]) {
      var tail := s[1..];
      TrimStartDrops(tail);
      var k :| 0 <= k <= |tail| && TrimStart(tail) == tail[k..]
        && forall i :: 0 <= i < k ==> IsJsWhitespace(tail[i]);
      assert TrimStart(s) == s[k + 1..];
      forall i | 0 <= i < k + 1 ensures IsJsWhitespace(s[i]) {
        if i > 0 { assert s[i] == tail[i - 1]; }
      }
    } else {
      assert TrimStart(s) == s[0..];
    }
  }

  /** TrimEnd removes a run of white space from the back, and the rest ends with something else. */
  lemma {:induction false} TrimEndDrops(s: string)
    ensures exists k :: 0 <= k <= |s| && TrimEnd(s) == s[..k] && forall i :: k <= i < |s| ==> IsJsWhitespace(s[i])
    ensures |TrimEnd(s)| > 0 ==> !IsJsWhitespace(TrimEnd(s)[|TrimEnd(s)| - 1])
  {
    if |s| > 0 && IsJsWhitespace(s[|s| - 1]) {
      var init := s[..|s| - 1];
      TrimEndDrops(init);
      var k :| 0 <= k <= |init| && TrimEnd(init) == init[..k]
        && forall i :: k <= i < |init| ==> IsJsWhitespace(init[i]);
      assert TrimEnd(s) == s[..k];
      forall i | k <= i < |s| ensures IsJsWhitespace(s[i]) {
        if i < |s| - 1 { assert s[i] == init[i]; }
      }
    } else {
      assert TrimEnd(s) == s[..|s|];
    }
  }

  /** `String.prototype.trim`. */
  function Trim(s: string): string
  {
    TrimEnd(TrimStart(s))
  }

  /** `String.prototype.length`: the number of UTF-16 code units. */
  function Utf16Length(s: string): nat
  {
    if |s| == 0 then 0
    else
      var units := if s[|s| - 1] as int > 0xFFFF then 2 else 1;
      Utf16Length(s[..|s| - 1]) + units
  }

  /** One or more characters, none of them white space or `@`: the regex `[^\s@]+`. */
  predicate EmailPart(s: string)
  {
    |s| >= 1 && forall i :: 0 <= i < |s| ==> !IsJsWhitespace(s[i]) && s[i] != '@'
  }

  /** `/^[^\s@]+@[^\s@]+\.[^\s@]+$/.test(s)`: the string splits at an `@` and a later `.` into three such parts. */
  predicate MatchesEmailRegex(s: string)
  {
    exists at, dot | 0 <= at < dot < |s| ::
      s[at] == '@' && s[dot] == '.' && EmailPart(s[..at]) && EmailPart(s[at + 1..dot]) && EmailPart(s[dot + 1..])
  }

  /** A character of the class `[0-9-+() ]`. */
  predicate IsPhoneChar(c: char)
  {
    ('0' <= c <= '9') || c == '-' || c == '+' || c == '(' || c == ')' || c == ' '
  }

  /** `/^[0-9-+() ]{8,}$/.test(s)`. */
  predicate MatchesPhoneRegex(s: string)
  {
    |s| >= 8 && forall i :: 0 <= i < |s| ==> IsPhoneChar(s[i])
  }

  /** Whether the check named by `e` passes. */
  predicate Passes(e: FormError, d: FormData)
  {
    match e
    case NameTooShort => Utf16Length(Trim(d.name)) >= 2
    case InvalidEmail => MatchesEmailRegex(d.email)
    case InvalidPhone => MatchesPhoneRegex(d.phone)
    case MessageTooShort => Utf16Length(Trim(d.message)) >= 10
  }

  /** The position of each check in the validator. */
  function Order(e: FormError): nat
  {
    match e
    case NameTooShort => 0
    case InvalidEmail => 1
    case InvalidPhone => 2
    case MessageTooShort => 3
  }

  /**
   * validateForm. The test `!data.name` adds nothing to the length test: the
   * fields are always strings, and the empty string is too short anyway.
   */
  function ValidateForm(data: FormData): Validation
  {
    if Utf16Length(Trim(data.name)) < 2 then Invalid(NameTooShort)
    else if !MatchesEmailRegex(data.email) then Invalid(InvalidEmail)
    else if !MatchesPhoneRegex(data.phone) then Invalid(InvalidPhone)
    else if Utf16Length(Trim(data.message)) < 10 then Invalid(MessageTooShort)
    else Valid
  }

  // ---------------------------------------------------------------------
  // Properties
  // ---------------------------------------------------------------------

  /** Every character takes one or two code units. */
  lemma {:induction false} Utf16LengthBounds(s: string)
    ensures |s| <= Utf16Length(s) <= 2 * |s|
    ensures (forall i :: 0 <= i < |s| ==> s[i] as int <= 0xFFFF) ==> Utf16Length(s) == |s|
  {
    if |s| > 0 {
      Utf16LengthBounds(s[..|s| - 1]);
    }
  }

  /** What trimming leaves starts and ends with something other than white space. */
  lemma TrimEnds(s: string)
    ensures |Trim(s)| <= |s|
    ensures |Trim(s)| > 0 ==> !IsJsWhitespace(Trim(s)[0]) && !IsJsWhitespace(Trim(s)[|Trim(s)| - 1])
  {
    var t := TrimStart(s);
    TrimStartDrops(s);
    TrimEndDrops(t);
    var k :| 0 <= k <= |t| && TrimEnd(t) == t[..k] && forall i :: k <= i < |t| ==> IsJsWhitespace(t[i]);
    if k > 0 {
      assert TrimEnd(t)[0] == t[0];
    }
  }

  /** A field of white space alone trims to nothing. */
  lemma TrimBlank(s: string)
    requires forall i :: 0 <= i < |s| ==> IsJsWhitespace(s[i])
    ensures Trim(s) == []
  {
    TrimStartDrops(s);
    var k :| 0 <= k <= |s| && TrimStart(s) == s[k..] && forall i :: 0 <= i < k ==> IsJsWhitespace(s[i]);
    assert TrimStart(s) == [];
  }

  /** White space around the name does not count towards its two characters. */
  lemma BlankNameRejected(d: FormData)
    requires forall i :: 0 <= i < |d.name| ==> IsJsWhitespace(d.name[i])
    ensures ValidateForm(d) == Invalid(NameTooShort)
  {
    TrimBlank(d.name);
  }

  /** `at` is the position of the only `@` in `s`, and not the first one. */
  predicate SoleAt(s: string, at: int)
  {
    0 < at < |s| && s[at] == '@' && forall i :: 0 <= i < |s| && i != at ==> s[i] != '@'
  }

  /**
   * No white space anywhere, exactly one `@`, not at the start, and a `.`
   * after it with at least one character on each side.
   */
  ghost predicate EmailShape(s: string)
  {
    (forall i :: 0 <= i < |s| ==> !IsJsWhitespace(s[i]))
    && exists at :: SoleAt(s, at) && exists dot :: at + 1 < dot < |s| - 1 && s[dot] == '.'
  }

  /** A slice is an email part exactly when it is non-empty and holds neither white space nor `@`. */
  lemma EmailPartSlice(s: string, lo: int, hi: int)
    requires 0 <= lo <= hi <= |s|
    ensures EmailPart(s[lo..hi])
      <==> lo < hi && forall i :: lo <= i < hi ==> !IsJsWhitespace(s[i]) && s[i] != '@'
  {
    var part := s[lo..hi];
    assert forall i :: lo <= i < hi ==> s[i] == part[i - lo];
  }

  /** A string the email regex accepts has the shape EmailShape describes. */
  lemma EmailRegexSound(s: string)
    requires MatchesEmailRegex(s)
    ensures EmailShape(s)
  {
    var at, dot :| 0 <= at < dot < |s| && s[at] == '@' && s[dot] == '.'
      && EmailPart(s[..at]) && EmailPart(s[at + 1..dot]) && EmailPart(s[dot + 1..]);
    assert s[..at] == s[0..at] && s[dot + 1..] == s[dot + 1..|s|];
    EmailPartSlice(s, 0, at);
    EmailPartSlice(s, at + 1, dot);
    EmailPartSlice(s, dot + 1, |s|);
    forall i | 0 <= i < |s| && i != at ensures !IsJsWhitespace(s[i]) && s[i] != '@' {
      if i < at {
      } else if i < dot {
      } else if i > dot {
      }
    }
    assert !IsJsWhitespace(s[at]);
    assert SoleAt(s, at) && at + 1 < dot < |s| - 1 && s[dot] == '.';
  }

  /** A string of the shape EmailShape describes is accepted by the email regex. */
  lemma EmailRegexComplete(s: string)
    requires EmailShape(s)
    ensures MatchesEmailRegex(s)
  {
    var at :| SoleAt(s, at) && exists dot :: at + 1 < dot < |s| - 1 && s[dot] == '.';
    var dot :| at + 1 < dot < |s| - 1 && s[dot] == '.';
    assert s[..at] == s[0..at] && s[dot + 1..] == s[dot + 1..|s|];
    EmailPartSlice(s, 0, at);
    EmailPartSlice(s, at + 1, dot);
    EmailPartSlice(s, dot + 1, |s|);
  }

  /**
   * The email regex means: no white space anywhere, exactly one `@`, not at
   * the start, and a `.` after it with at least one character on each side.
   */
  lemma EmailRegexMeaning(s: string)
    ensures MatchesEmailRegex(s) <==> EmailShape(s)
  {
    if MatchesEmailRegex(s) {
      EmailRegexSound(s);
    }
    if EmailShape(s) {
      EmailRegexComplete(s);
    }
  }

  /** The phone pattern admits eight blanks: it checks the alphabet and the length only. */
  lemma PhoneRegexAdmitsBlanks()
    ensures MatchesPhoneRegex("        ")
    ensures !MatchesPhoneRegex("010-123")
    ensures MatchesPhoneRegex("010-1234-5678")
  {
  }

  /** The form is accepted exactly when all four checks pass. */
  lemma ValidIffAllPass(d: FormData)
    ensures ValidateForm(d) == Valid <==> forall e :: Passes(e, d)
  {
    if ValidateForm(d) != Valid {
      assert !Passes(ValidateForm(d).error, d);
    }
  }

  /** A rejection names the first failing check, in the order name, email, phone, message. */
  lemma ReportsFirstFailure(d: FormData, e: FormError)
    ensures ValidateForm(d) == Invalid(e)
      <==> !Passes(e, d) && forall e' :: Order(e') < Order(e) ==> Passes(e', d)
  {
    if !Passes(e, d) && forall e' :: Order(e') < Order(e) ==> Passes(e', d) {
      assert Order(NameTooShort) == 0 && Order(InvalidEmail) == 1 && Order(InvalidPhone) == 2;
    }
  }

  /** The chosen course is never looked at. */
  lemma CourseNotChecked(d: FormData, course: string)
    ensures ValidateForm(d.(course := course)) == ValidateForm(d)
  {
  }

  /** A name of two code units passes even when it is a single character outside the Basic Multilingual Plane. */
  lemma NameLengthCountsCodeUnits()
    ensures Utf16Length(Trim(['\U{1F600}'])) == 2
  {
    assert TrimStart(['\U{1F600}']) == ['\U{1F600}'];
    assert TrimEnd(['\U{1F600}']) == ['\U{1F600}'];
  }
}
