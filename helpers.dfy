/**
 * The display and validation helpers of src/utils/helpers.js: time
 * formatting, total time, the e-mail shape check and the password length check.
 */
module Helpers {
  import opened Wrappers
  import opened JsText

  // ---------------------------------------------------------------------------
  // formatTime

  /** The four shapes `formatTime` can produce. */
  datatype TimeDisplay = NA | Min(minutes: int) | Hr(hours: int) | HrMin(hours: int, mins: int)

  /** The number of minutes a display stands for (`NA` stands for none). */
  function TotalMinutes(d: TimeDisplay): int {
    match d
    case NA => 0
    case Min(m) => m
    case Hr(h) => h * 60
    case HrMin(h, m) => h * 60 + m
  }

  /**
   * The shape `formatTime` chooses for `minutes` (`None` is `undefined` or
   * `null`): nothing for a falsy value, minutes alone below an hour, otherwise
   * whole hours and the remaining minutes.
   */
  function Classify(minutes: Option<int>): (r: TimeDisplay)
    ensures r.NA? <==> IsFalsyNumber(minutes)
    ensures !r.NA? ==> TotalMinutes(r) == minutes.value
    ensures r.Min? <==> !IsFalsyNumber(minutes) && minutes.value < 60
    ensures r.Hr? || r.HrMin? ==> r.hours >= 1
    ensures r.HrMin? ==> 0 < r.mins < 60
  {
    if IsFalsyNumber(minutes) then NA
    else if minutes.value < 60 then Min(minutes.value)
    else
      var hours := minutes.value / 60;
      var mins := minutes.value % 60;
      if mins == 0 then Hr(hours) else HrMin(hours, mins)
  }

  /** The text of a display, as the template literals write it. */
  function Render(d: TimeDisplay): string {
    match d
    case NA => "N/A"
    case Min(m) => IntToString(m) + " min"
    case Hr(h) => IntToString(h) + " hr"
    case HrMin(h, m) => IntToString(h) + " hr " + IntToString(m) + " min"
  }

  /** `formatTime(minutes)`. */
  function FormatTime(minutes: Option<int>): string {
    Render(Classify(minutes))
  }

  /** Reads a display back from its text; the inverse of `Render`. */
  function ParseTime(s: string): Option<TimeDisplay> {
    ParseTimeWords(Words(s))
  }

  /** Reads a display from the space-separated words of its text. */
  function ParseTimeWords(w: seq<string>): Option<TimeDisplay> {
    if w == ["N/A"] then Some(NA)
    else if |w| == 2 && w[1] == "min" then
      match ParseInt(w[0])
      case Some(m) => Some(Min(m))
      case None => None
    else if |w| == 2 && w[1] == "hr" then
      match ParseInt(w[0])
      case Some(h) => Some(Hr(h))
      case None => None
    else if |w| == 4 && w[1] == "hr" && w[3] == "min" then
      match (ParseInt(w[0]), ParseInt(w[2]))
      case (Some(h), Some(m)) => Some(HrMin(h, m))
      case _ => None
    else None
  }

  lemma RenderRoundTrip(d: TimeDisplay)
    ensures ParseTime(Render(d)) == Some(d)
  {
    match d
    case NA => WordsSingle("N/A");
    case Min(m) => RenderMinRoundTrip(m);
    case Hr(h) => RenderHrRoundTrip(h);
    case HrMin(h, m) => RenderHrMinRoundTrip(h, m);
  }

  lemma RenderMinRoundTrip(m: int)
    ensures ParseTime(Render(Min(m))) == Some(Min(m))
  {
    var ms := IntToString(m);
    assert Words(Render(Min(m))) == [ms, "min"] by {
      assert Render(Min(m)) == ms + " " + "min";
      WordsOfTwo(ms, "min");
    }
    IntToStringRoundTrip(m);
  }

  lemma RenderHrRoundTrip(h: int)
    ensures ParseTime(Render(Hr(h))) == Some(Hr(h))
  {
    var hs := IntToString(h);
    assert Words(Render(Hr(h))) == [hs, "hr"] by {
      assert Render(Hr(h)) == hs + " " + "hr";
      WordsOfTwo(hs, "hr");
    }
    IntToStringRoundTrip(h);
  }

  lemma RenderHrMinRoundTrip(h: int, m: int)
    ensures ParseTime(Render(HrMin(h, m))) == Some(HrMin(h, m))
  {
    var hs, ms := IntToString(h), IntToString(m);
    assert Words(Render(HrMin(h, m))) == [hs, "hr", ms, "min"] by {
      HrMinText(hs, ms);
      WordsOfFour(hs, "hr", ms, "min");
    }
    IntToStringRoundTrip(h);
    IntToStringRoundTrip(m);
  }

  lemma HrMinText(hs: string, ms: string)
    ensures hs + " hr " + ms + " min" == hs + " " + "hr" + " " + ms + " " + "min"
  {
  }

  /** Below an hour, the minutes are written as they are. */
  lemma FormatTimeUnderAnHour(minutes: int)
    requires 0 < minutes < 60
    ensures FormatTime(Some(minutes)) == NatToString(minutes) + " min"
  {
  }

  /**
   * From an hour on, the quotient and remainder by 60 split the minutes into
   * at least one hour and fewer than 60 minutes; a whole number of hours drops
   * the minute part.
   */
  lemma FormatTimeHours(minutes: int)
    requires minutes >= 60
    ensures var hours, mins := minutes / 60, minutes % 60;
      && hours * 60 + mins == minutes && 0 <= mins < 60 && hours >= 1
      && FormatTime(Some(minutes)) ==
         if mins == 0 then NatToString(hours) + " hr"
         else NatToString(hours) + " hr " + NatToString(mins) + " min"
  {
  }

  /** The text is "N/A" exactly for a falsy argument. */
  lemma FormatTimeNotAvailable(minutes: Option<int>)
    ensures FormatTime(minutes) == "N/A" <==> IsFalsyNumber(minutes)
  {
    var d := Classify(minutes);
    RenderRoundTrip(d);
    RenderRoundTrip(NA);
  }

  /** Different non-zero durations never share a text: the text determines the minutes. */
  lemma FormatTimeInjective(a: Option<int>, b: Option<int>)
    requires !IsFalsyNumber(a) && !IsFalsyNumber(b)
    requires FormatTime(a) == FormatTime(b)
    ensures a == b
  {
    RenderRoundTrip(Classify(a));
    RenderRoundTrip(Classify(b));
  }

  // ---------------------------------------------------------------------------
  // calculateTotalTime

  /** `x || 0` for a number that may be `undefined`/`null`. */
  function OrZero(x: Option<int>): (r: int)
    ensures x.Some? ==> r == x.value
    ensures x.None? ==> r == 0
  {
    if IsFalsyNumber(x) then 0 else x.value
  }

  /** `calculateTotalTime(prepTime, cookTime)`. */
  function CalculateTotalTime(prepTime: Option<int>, cookTime: Option<int>): int {
    OrZero(prepTime) + OrZero(cookTime)
  }

  /** A missing time counts as zero, and the order of the two times does not matter. */
  lemma CalculateTotalTimeProperties(prepTime: Option<int>, cookTime: Option<int>)
    ensures CalculateTotalTime(prepTime, cookTime) == CalculateTotalTime(cookTime, prepTime)
    ensures CalculateTotalTime(None, cookTime) == CalculateTotalTime(Some(0), cookTime)
    ensures IsFalsyNumber(prepTime) && IsFalsyNumber(cookTime) ==>
      CalculateTotalTime(prepTime, cookTime) == 0
    ensures IsFalsyNumber(prepTime) && !IsFalsyNumber(cookTime) ==>
      CalculateTotalTime(prepTime, cookTime) == cookTime.value
    ensures !IsFalsyNumber(prepTime) && !IsFalsyNumber(cookTime) ==>
      CalculateTotalTime(prepTime, cookTime) == prepTime.value + cookTime.value
  {
  }

  // ---------------------------------------------------------------------------
  // isValidEmail

  /** `\s` of a JavaScript regular expression: white space and line terminators. */
  predicate IsJsWhitespace(c: char) {
    var k := c as int;
    9 <= k <= 13 || k == 0x20 || k == 0xA0 || k == 0x1680 || 0x2000 <= k <= 0x200A
    || k == 0x2028 || k == 0x2029 || k == 0x202F || k == 0x205F || k == 0x3000 || k == 0xFEFF
  }

  /** The character class `[^\s@]`. */
  predicate IsEmailChar(c: char) {
    !IsJsWhitespace(c) && c != '@'
  }

  /** `[^\s@]+`: a non-empty run of such characters. */
  predicate IsEmailRun(s: string) {
    |s| > 0 && forall k :: 0 <= k < |s| ==> IsEmailChar(s[k])
  }

  /** `s` matches `^[^\s@]+@[^\s@]+\.[^\s@]+$` with the `@` at `i` and the `.` at `j`. */
  ghost predicate EmailSplit(s: string, i: int, j: int) {
    0 <= i < j < |s| && s[i] == '@' && s[j] == '.'
    && IsEmailRun(s[..i]) && IsEmailRun(s[i + 1..j]) && IsEmailRun(s[j + 1..])
  }

  /** The regular expression, read as "some choice of `@` and `.` positions matches". */
  ghost predicate MatchesEmailRegex(s: string) {
    exists i, j :: EmailSplit(s, i, j)
  }

  /** `isValidEmail(email)`, decided without backtracking. */
  function IsValidEmail(email: string): bool {
    && '@' in email
    && (var at := IndexOf(email, '@');
        && 0 < at
        && (forall k :: at < k < |email| ==> email[k] != '@')
        && (forall k :: 0 <= k < |email| ==> !IsJsWhitespace(email[k]))
        && exists j :: at + 1 < j < |email| - 1 && email[j] == '.')
  }

  /** A slice is a run of `[^\s@]` exactly when each of its characters is one. */
  lemma EmailRunSlice(s: string, lo: int, hi: int)
    requires 0 <= lo < hi <= |s|
    ensures IsEmailRun(s[lo..hi]) <==> forall k :: lo <= k < hi ==> IsEmailChar(s[k])
  {
    if forall k :: lo <= k < hi ==> IsEmailChar(s[k]) {
      forall k | 0 <= k < hi - lo
        ensures IsEmailChar(s[lo..hi][k])
      {
        assert s[lo..hi][k] == s[lo + k];
      }
    }
    if IsEmailRun(s[lo..hi]) {
      forall k | lo <= k < hi
        ensures IsEmailChar(s[k])
      {
        assert s[k] == s[lo..hi][k - lo];
      }
    }
  }

  lemma ValidEmailMatchesRegex(email: string)
    requires IsValidEmail(email)
    ensures MatchesEmailRegex(email)
  {
    var at := IndexOf(email, '@');
    var j :| at + 1 < j < |email| - 1 && email[j] == '.';
    EmailRunSlice(email, 0, at);
    EmailRunSlice(email, at + 1, j);
    EmailRunSlice(email, j + 1, |email|);
    assert email[j + 1..|email|] == email[j + 1..];
    assert EmailSplit(email, at, j);
  }

  lemma RegexMatchIsValidEmail(email: string)
    requires MatchesEmailRegex(email)
    ensures IsValidEmail(email)
  {
    var i, j :| EmailSplit(email, i, j);
    EmailRunSlice(email, 0, i);
    EmailRunSlice(email, i + 1, j);
    assert email[j + 1..|email|] == email[j + 1..];
    EmailRunSlice(email, j + 1, |email|);
    IndexOfFirst(email, '@', i);
    forall k | i < k < |email|
      ensures email[k] != '@'
    {
      if k != j {
        assert IsEmailChar(email[k]);
      }
    }
    forall k | 0 <= k < |email|
      ensures !IsJsWhitespace(email[k])
    {
      if k != i && k != j {
        assert IsEmailChar(email[k]);
      }
    }
  }

  /** The check accepts exactly the strings the regular expression matches. */
  lemma IsValidEmailMatchesRegex(email: string)
    ensures IsValidEmail(email) <==> MatchesEmailRegex(email)
  {
    if IsValidEmail(email) {
      ValidEmailMatchesRegex(email);
    }
    if MatchesEmailRegex(email) {
      RegexMatchIsValidEmail(email);
    }
  }

  /**
   * An accepted address has no white space and exactly one `@`, with a
   * non-empty part before it.
   */
  lemma ValidEmailHasOneAt(email: string)
    requires IsValidEmail(email)
    ensures var at := IndexOf(email, '@');
      && 0 < at && email[at] == '@'
      && (forall k :: 0 <= k < |email| && email[k] == '@' ==> k == at)
      && (forall k :: 0 <= k < |email| ==> !IsJsWhitespace(email[k]))
  {
  }

  /**
   * The part after the `@` holds a `.` with a character of `[^\s@]` on each
   * side of it.
   */
  lemma ValidEmailDomainHasDot(email: string)
    requires IsValidEmail(email)
    ensures exists j ::
      && IndexOf(email, '@') + 1 < j < |email| - 1 && email[j] == '.'
      && IsEmailChar(email[j - 1]) && IsEmailChar(email[j + 1])
  {
    var at := IndexOf(email, '@');
    var j :| at + 1 < j < |email| - 1 && email[j] == '.';
    assert IsEmailChar(email[j - 1]) && IsEmailChar(email[j + 1]);
  }

  // ---------------------------------------------------------------------------
  // validatePassword

  /** The `{ valid, message }` record `validatePassword` returns. */
  datatype PasswordCheck = PasswordCheck(valid: bool, message: string)

  const MinPasswordLength := 8
  const PasswordTooShort := "Password must be at least 8 characters"

  /** `validatePassword(password)`: only the length is checked. */
  function ValidatePassword(password: string): (r: PasswordCheck)
    ensures r.valid <==> |password| >= MinPasswordLength
    ensures r.message == (if r.valid then "" else PasswordTooShort)
  {
    if |password| < MinPasswordLength then PasswordCheck(false, PasswordTooShort)
    else PasswordCheck(true, "")
  }

  /** Lengthening an accepted password keeps it accepted; the message is empty exactly then. */
  lemma ValidatePasswordMonotone(password: string, suffix: string)
    ensures ValidatePassword(password).valid ==> ValidatePassword(password + suffix).valid
    ensures ValidatePassword(password).valid <==> ValidatePassword(password).message == ""
  {
  }
}
