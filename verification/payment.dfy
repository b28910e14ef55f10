/** The payment and contact validators of the booking page: the card number,
    the `MM/YY` expiry date, the CVV, the email and phone patterns, and the
    redaction of the card number to its last four digits. Each regular
    expression is restated as a predicate on the characters. */
module Payment {
  import opened Optional
  import opened Js
  import opened Seqs
  import opened Forms

  // ---- whitespace -----------------------------------------------------------

  /** The characters the regular-expression class `\s` matches: the
      ECMAScript white space and line terminators. */
  predicate IsWhitespace(c: char) {
    c == '\t' || c == '\n' || c == '\U{B}' || c == '\U{C}' || c == '\r' || c == ' ' ||
    c == '\U{A0}' || c == '\U{1680}' || ('\U{2000}' <= c <= '\U{200A}') ||
    c == '\U{2028}' || c == '\U{2029}' || c == '\U{202F}' || c == '\U{205F}' ||
    c == '\U{3000}' || c == '\U{FEFF}'
  }

  function NotWhitespace(c: char): bool {
    !IsWhitespace(c)
  }

  /** `value.replace(/\s/g, '')` */
  function StripWhitespace(value: string): (r: string)
    ensures |r| <= |value|
    ensures forall i :: 0 <= i < |r| ==> !IsWhitespace(r[i])
    ensures multiset(r) <= multiset(value)
  {
    Filter(value, NotWhitespace)
  }

  /** Stripping twice is stripping once. */
  lemma StripWhitespaceIdempotent(value: string)
    ensures StripWhitespace(StripWhitespace(value)) == StripWhitespace(value)
  {
    FilterIdempotent(value, NotWhitespace);
  }

  /** A string of digits has nothing to strip. */
  lemma StripDigits(value: string)
    requires AllDigits(value)
    ensures StripWhitespace(value) == value
  {
    FilterKeepsAll(value, NotWhitespace);
  }

  // ---- card number ----------------------------------------------------------

  const CardNumberMessage := "Please enter a valid card number"

  /** The card-number pattern, alternative by alternative, on a string with
      the whitespace already removed. */
  predicate CardPattern(c: string) {
    AllDigits(c) && |c| >= 4 &&
    (
      // Visa: a '4', then 12 or 15 more digits
      (c[0] == '4' && (|c| == 13 || |c| == 16)) ||
      // Mastercard: '5', a digit 1-5, then 14 digits
      (|c| == 16 && c[0] == '5' && '1' <= c[1] <= '5') ||
      // American Express: '34' or '37', then 13 digits
      (|c| == 15 && c[0] == '3' && (c[1] == '4' || c[1] == '7')) ||
      // Diners Club: '300'-'305', or '36' or '38' and a digit, then 11 digits
      (|c| == 14 && c[0] == '3' && ((c[1] == '0' && '0' <= c[2] <= '5') || c[1] == '6' || c[1] == '8')) ||
      // Discover: '6011', or '65' and two digits, then 12 digits
      (|c| == 16 && c[0] == '6' && (c[..4] == "6011" || c[1] == '5')) ||
      // JCB: '2131' or '1800' then 11 digits, or '35' and three digits then 11 digits
      (|c| == 15 && (c[..4] == "2131" || c[..4] == "1800")) ||
      (|c| == 16 && c[..2] == "35")
    )
  }

  /** `validateCardNumber`: the whitespace-free value must match the card
      pattern. Whatever it accepts is 13 to 16 digits starting with 1 to 6,
      so a 19-digit number is never accepted. */
  function ValidateCardNumber(value: string): (r: Validation)
    ensures r.Accepted? <==> CardPattern(StripWhitespace(value))
    ensures r.Rejected? ==> r.message == CardNumberMessage
    ensures r.Accepted? ==>
      var c := StripWhitespace(value);
      AllDigits(c) && 13 <= |c| <= 16 && '1' <= c[0] <= '6'
  {
    if CardPattern(StripWhitespace(value)) then Accepted else Rejected(CardNumberMessage)
  }

  /** Spaces (or any other whitespace) typed into the number do not change
      the verdict. */
  lemma CardNumberIgnoresWhitespace(value: string)
    ensures ValidateCardNumber(value) == ValidateCardNumber(StripWhitespace(value))
  {
    StripWhitespaceIdempotent(value);
  }

  /** Every 16-digit number starting with '4' passes as a Visa number. */
  lemma SixteenDigitVisaAccepted(c: string)
    requires AllDigits(c) && |c| == 16 && c[0] == '4'
    ensures ValidateCardNumber(c) == Accepted
  {
    StripDigits(c);
  }

  /** A number starting with '1' is rejected unless it is a 15-digit number
      starting with '1800'. */
  lemma LeadingOneRejected(c: string)
    requires AllDigits(c) && |c| >= 4 && c[0] == '1' && (c[..4] != "1800" || |c| != 15)
    ensures ValidateCardNumber(c) == Rejected(CardNumberMessage)
  {
    StripDigits(c);
  }

  /** The standard Visa test number is accepted. */
  lemma VisaTestNumberAccepted()
    ensures ValidateCardNumber("4111111111111111") == Accepted
  {
    var visa := "4111111111111111";
    assert AllDigits(visa);
    SixteenDigitVisaAccepted(visa);
  }

  /** "1234567890123456" is rejected. */
  lemma SequentialNumberRejected()
    ensures ValidateCardNumber("1234567890123456") == Rejected(CardNumberMessage)
  {
    var other := "1234567890123456";
    assert AllDigits(other);
    assert other[..4] == "1234";
    LeadingOneRejected(other);
  }

  // ---- expiry date ----------------------------------------------------------

  const ExpiryFormatMessage := "Please enter a valid expiry date (MM/YY)"
  const ExpiredMessage := "Card has expired"

  /** The two readings of `new Date()` the expiry check uses. */
  datatype Clock = Clock(fullYear: int, monthIndex: int)

  /** JavaScript's `a % b`: the remainder takes the sign of the dividend. */
  function JsRemainder(a: int, b: int): (r: int)
    requires b > 0
    ensures a >= 0 ==> 0 <= r < b
    ensures a < 0 ==> -b < r <= 0
  {
    if a >= 0 then a % b else -((-a) % b)
  }

  /** The expiry pattern: a month `01`-`12`, a '/', then two digits. */
  predicate ExpiryPattern(v: string) {
    |v| == 5 && v[2] == '/' && IsDigit(v[3]) && IsDigit(v[4]) &&
    ((v[0] == '0' && '1' <= v[1] <= '9') || (v[0] == '1' && '0' <= v[1] <= '2'))
  }

  /** A two-digit string reads as ten times its first digit plus its second. */
  lemma ParseTwoDigits(s: string)
    requires |s| == 2 && AllDigits(s)
    ensures ParseNat(s) == 10 * DigitValue(s[0]) + DigitValue(s[1])
  {
    var first := s[..|s| - 1];
    assert first[..|first| - 1] == [];
    assert ParseNat(first) == DigitValue(s[0]);
  }

  function ExpiryMonth(v: string): (m: nat)
    requires ExpiryPattern(v)
    ensures 1 <= m <= 12
  {
    ParseTwoDigits(v[..2]);
    ParseNat(v[..2])
  }

  function ExpiryYear(v: string): (y: nat)
    requires ExpiryPattern(v)
    ensures y < 100
  {
    ParseTwoDigits(v[3..]);
    ParseNat(v[3..])
  }

  /** `validateExpiryDate`: the format message unless the value is `MM/YY`;
      otherwise "Card has expired" when the year is before the current
      two-digit year, or is that year and the month is before the current
      month. */
  function ValidateExpiryDate(value: string, now: Clock): (r: Validation)
    ensures !ExpiryPattern(value) ==> r == Rejected(ExpiryFormatMessage)
    ensures r.Accepted? ==> ExpiryPattern(value)
    ensures ExpiryPattern(value) ==> r.Accepted? || r == Rejected(ExpiredMessage)
  {
    if !ExpiryPattern(value) then Rejected(ExpiryFormatMessage)
    else
      var month := ExpiryMonth(value);
      var year := ExpiryYear(value);
      var currentYear := JsRemainder(now.fullYear, 100);
      var currentMonth := now.monthIndex + 1;
      if year < currentYear || (year == currentYear && month < currentMonth)
      then Rejected(ExpiredMessage)
      else Accepted
  }

  /** Counted in months, a well-formed expiry date is accepted exactly when
      it is not before the current month of the current two-digit year. */
  lemma ExpiryByMonthCount(value: string, now: Clock)
    requires ExpiryPattern(value) && 0 <= now.monthIndex < 12
    ensures ValidateExpiryDate(value, now).Accepted? <==>
      12 * ExpiryYear(value) + ExpiryMonth(value) >= 12 * JsRemainder(now.fullYear, 100) + now.monthIndex + 1
  {
  }

  /** The two-digit spelling of n < 100. */
  function TwoDigits(n: nat): (s: string)
    requires n < 100
    ensures |s| == 2 && AllDigits(s) && ParseNat(s) == n
  {
    var s := [DigitChar(n / 10), DigitChar(n % 10)];
    ParseTwoDigits(s);
    s
  }

  /** A card expiring in the current month is still accepted. */
  lemma CurrentMonthAccepted(now: Clock)
    requires now.fullYear >= 0 && 0 <= now.monthIndex < 12
    ensures ValidateExpiryDate(TwoDigits(now.monthIndex + 1) + "/" + TwoDigits(now.fullYear % 100), now) == Accepted
  {
    var v := TwoDigits(now.monthIndex + 1) + "/" + TwoDigits(now.fullYear % 100);
    assert v[..2] == TwoDigits(now.monthIndex + 1);
    assert v[3..] == TwoDigits(now.fullYear % 100);
  }

  /** A thirteenth month is a format error, and last month has expired. */
  lemma ExpiryExamples()
    ensures ValidateExpiryDate("13/99", Clock(2026, 9)) == Rejected(ExpiryFormatMessage)
    ensures ValidateExpiryDate("09/26", Clock(2026, 9)) == Rejected(ExpiredMessage)
  {
    ParseTwoDigits("09");
    ParseTwoDigits("26");
    assert "09/26"[..2] == "09";
    assert "09/26"[3..] == "26";
  }

  // ---- CVV ------------------------------------------------------------------

  const CvvMessage := "Please enter a valid CVV"

  /** `validateCVV`: exactly three or four decimal digits. */
  function ValidateCvv(value: string): (r: Validation)
    ensures r.Accepted? <==> AllDigits(value) && 3 <= |value| <= 4
    ensures r.Rejected? ==> r.message == CvvMessage
  {
    if AllDigits(value) && 3 <= |value| <= 4 then Accepted else Rejected(CvvMessage)
  }

  // ---- email and phone ------------------------------------------------------

  const EmailMessage := "Invalid email address"
  const PhoneMessage := "Please enter a valid phone number"

  /** A letter, matched without regard to case. */
  predicate IsLetter(c: char) {
    'A' <= c <= 'Z' || 'a' <= c <= 'z'
  }

  /** A character allowed before the '@': letters, digits, `.`, `_`, `%`, `+`, `-`. */
  predicate IsLocalChar(c: char) {
    IsLetter(c) || IsDigit(c) || c == '.' || c == '_' || c == '%' || c == '+' || c == '-'
  }

  /** A character allowed in the domain: letters, digits, `.` and `-`. */
  predicate IsDomainChar(c: char) {
    IsLetter(c) || IsDigit(c) || c == '.' || c == '-'
  }

  predicate AllLocal(s: string) {
    forall i :: 0 <= i < |s| ==> IsLocalChar(s[i])
  }

  predicate AllDomain(s: string) {
    forall i :: 0 <= i < |s| ==> IsDomainChar(s[i])
  }

  predicate AllLetters(s: string) {
    forall i :: 0 <= i < |s| ==> IsLetter(s[i])
  }

  /** What the email pattern means: the value splits into a non-empty local
      part, an '@', a non-empty domain, a '.', and at least two letters. */
  ghost predicate EmailMatches(s: string) {
    exists at: nat, dot: nat ::
      0 < at && at + 1 < dot && dot + 2 < |s| && s[at] == '@' && s[dot] == '.' &&
      AllLocal(s[..at]) && AllDomain(s[at + 1..dot]) && AllLetters(s[dot + 1..])
  }

  function IsAtSign(c: char): bool {
    c == '@'
  }

  /** The index of the last `c` in s. */
  function LastIndexOf(s: string, c: char): (r: Option<nat>)
    ensures r.Some? ==> r.value < |s| && s[r.value] == c && forall j :: r.value < j < |s| ==> s[j] != c
    ensures r.None? ==> forall j :: 0 <= j < |s| ==> s[j] != c
  {
    if s == [] then None
    else if s[|s| - 1] == c then Some(|s| - 1)
    else LastIndexOf(s[..|s| - 1], c)
  }

  /** The email pattern decided by splitting at the first '@' and at the last
      '.' after it: the local part cannot hold an '@' and the final letters
      cannot hold a '.', so no other split can match. */
  function EmailPattern(s: string): bool {
    match FindIndex(s, IsAtSign)
    case None => false
    case Some(at) =>
      var rest := s[at + 1..];
      match LastIndexOf(rest, '.')
      case None => false
      case Some(d) =>
        0 < at && 0 < d && d + 2 < |rest| &&
        AllLocal(s[..at]) && AllDomain(rest[..d]) && AllLetters(rest[d + 1..])
  }

  /** A split found by EmailPattern is a match. */
  lemma EmailPatternSound(s: string)
    requires EmailPattern(s)
    ensures EmailMatches(s)
  {
    var at := FindIndex(s, IsAtSign).value;
    var rest := s[at + 1..];
    var d := LastIndexOf(rest, '.').value;
    var dot := at + 1 + d;
    assert s[at + 1..dot] == rest[..d];
    assert s[dot + 1..] == rest[d + 1..];
    assert s[dot] == rest[d];
  }

  /** An '@' preceded only by local-part characters is the first one. */
  lemma FirstAtSign(s: string, at: nat)
    requires at < |s| && s[at] == '@' && AllLocal(s[..at])
    ensures FindIndex(s, IsAtSign) == Some(at)
  {
    forall k | 0 <= k < at
      ensures !IsAtSign(s[k])
    {
      assert IsLocalChar(s[..at][k]);
    }
  }

  /** A '.' followed only by letters is the last one. */
  lemma LastDot(rest: string, d: nat)
    requires d < |rest| && rest[d] == '.' && AllLetters(rest[d + 1..])
    ensures LastIndexOf(rest, '.') == Some(d)
  {
    forall j | d < j < |rest|
      ensures rest[j] != '.'
    {
      assert IsLetter(rest[d + 1..][j - d - 1]);
    }
  }

  /** Any match is found by EmailPattern: its '@' is the first one and its
      '.' is the last one after it. */
  lemma EmailPatternComplete(s: string, at: nat, dot: nat)
    requires 0 < at && at + 1 < dot && dot + 2 < |s| && s[at] == '@' && s[dot] == '.'
    requires AllLocal(s[..at]) && AllDomain(s[at + 1..dot]) && AllLetters(s[dot + 1..])
    ensures EmailPattern(s)
  {
    FirstAtSign(s, at);
    var rest := s[at + 1..];
    var d := dot - at - 1;
    assert rest[d] == '.';
    assert s[dot + 1..] == rest[d + 1..];
    LastDot(rest, d);
    assert s[at + 1..dot] == rest[..d];
  }

  /** The split-based decision agrees with the pattern's meaning, in both
      directions. */
  lemma EmailPatternMatches(s: string)
    ensures EmailPattern(s) <==> EmailMatches(s)
  {
    if EmailPattern(s) {
      EmailPatternSound(s);
    }
    if EmailMatches(s) {
      var at: nat, dot: nat :|
        0 < at && at + 1 < dot && dot + 2 < |s| && s[at] == '@' && s[dot] == '.' &&
        AllLocal(s[..at]) && AllDomain(s[at + 1..dot]) && AllLetters(s[dot + 1..]);
      EmailPatternComplete(s, at, dot);
    }
  }

  /** The email rule: required, then the pattern. */
  function ValidateEmail(value: string): (r: Validation)
    ensures r.Accepted? <==> value != "" && EmailPattern(value)
    ensures value != "" && r.Rejected? ==> r.message == EmailMessage
  {
    RequiredThen(value, "Email is required", if EmailPattern(value) then Accepted else Rejected(EmailMessage))
  }

  /** The phone pattern: 10 to 12 decimal digits. */
  predicate PhonePattern(value: string) {
    AllDigits(value) && 10 <= |value| <= 12
  }

  /** The phone rule: required, then the pattern. */
  function ValidatePhone(value: string): (r: Validation)
    ensures r.Accepted? <==> AllDigits(value) && 10 <= |value| <= 12
    ensures value != "" && r.Rejected? ==> r.message == PhoneMessage
  {
    RequiredThen(value, "Phone is required", if PhonePattern(value) then Accepted else Rejected(PhoneMessage))
  }

  // ---- redaction ------------------------------------------------------------

  /** `s.slice(-4)`: the last four characters, or all of s when shorter. */
  function LastFour(s: string): (r: string)
    ensures |r| == if |s| < 4 then |s| else 4
    ensures s == s[..|s| - |r|] + r
  {
    if |s| < 4 then s else s[|s| - 4..]
  }

  /** The card number stored with a booking: the last four characters of the
      whitespace-free value; for an accepted card, its last four digits. */
  function StoredCardNumber(value: string): (r: string)
    ensures |r| <= 4
    ensures forall i :: 0 <= i < |r| ==> !IsWhitespace(r[i])
    ensures ValidateCardNumber(value).Accepted? ==>
      |r| == 4 && AllDigits(r) && r == StripWhitespace(value)[|StripWhitespace(value)| - 4..]
  {
    LastFour(StripWhitespace(value))
  }
}
