/**
 * The form schemas shared by sign-in, sign-up and account confirmation:
 * the password rule, the confirmation-code length and the sign-up
 * refinements, each as the list of issues a form value produces.
 */
module Schema {
  import Js

  const CONFIRMATION_CODE_LENGTH: nat := 6
  const PASSWORD_MIN_LENGTH: nat := 8

  const INVALID_EMAIL: string := "Invalid email address"
  const PASSWORD_TOO_SHORT: string := "Must be 8 or more characters long"
  const PASSWORD_PATTERN: string := "パスワードは英大文字・英小文字・数字・記号をそれぞれ1文字以上含めてください"
  const CODE_LENGTH: string := "6桁の確認コードを入力してください"
  const CONFIRM_REQUIRED: string := "確認用パスワードを入力してください"
  const TERMS_REQUIRED: string := "利用規約への同意が必要です"
  const PASSWORD_MISMATCH: string := "パスワードが一致しません"

  /** A validation issue: the form field it is reported under and its message. */
  datatype Issue = Issue(path: string, message: string)

  predicate IsLower(c: char) { 'a' <= c <= 'z' }
  predicate IsUpper(c: char) { 'A' <= c <= 'Z' }
  predicate IsSymbol(c: char) { c == '@' || c == '$' || c == '!' || c == '%' || c == '*' || c == '?' || c == '&' }

  /** The characters the password pattern admits: `[a-zA-Z\d@$!%*?&]`. */
  predicate IsAllowed(c: char) {
    IsLower(c) || IsUpper(c) || ('0' <= c <= '9') || IsSymbol(c)
  }

  /**
   * The password pattern: a lowercase letter, an uppercase letter and a
   * symbol somewhere (the three look-aheads), and eight or more admitted
   * characters from start to end. A digit is admitted but not required.
   * Every admitted character is one UTF-16 code unit, so the count of
   * characters is the count the pattern engine sees.
   */
  predicate MatchesPasswordPattern(p: string) {
    && Js.Length(p) >= PASSWORD_MIN_LENGTH
    && (exists i :: 0 <= i < |p| && IsLower(p[i]))
    && (exists i :: 0 <= i < |p| && IsUpper(p[i]))
    && (exists i :: 0 <= i < |p| && IsSymbol(p[i]))
    && (forall i :: 0 <= i < |p| ==> IsAllowed(p[i]))
  }

  /**
   * Tests the password pattern in one pass, the way the regular expression
   * engine reads it: remember which classes were seen and stop at the first
   * character outside the admitted set.
   */
  method CheckPasswordPattern(p: string) returns (ok: bool)
    ensures ok <==> MatchesPasswordPattern(p)
  {
    var lower, upper, symbol := false, false, false;
    var i := 0;
    while i < |p|
      invariant 0 <= i <= |p|
      invariant forall k :: 0 <= k < i ==> IsAllowed(p[k])
      invariant lower <==> exists k :: 0 <= k < i && IsLower(p[k])
      invariant upper <==> exists k :: 0 <= k < i && IsUpper(p[k])
      invariant symbol <==> exists k :: 0 <= k < i && IsSymbol(p[k])
    {
      if !IsAllowed(p[i]) {
        return false;
      }
      lower := lower || IsLower(p[i]);
      upper := upper || IsUpper(p[i]);
      symbol := symbol || IsSymbol(p[i]);
      i := i + 1;
    }
    ok := |p| >= PASSWORD_MIN_LENGTH && lower && upper && symbol;
    assert Js.Length(p) == |p|;
  }

  /**
   * The issues of the password field: the minimum length, counted in UTF-16
   * code units as `min` counts them, and the pattern are checked
   * independently, so a short password reports both.
   */
  function PasswordIssues(p: string): (r: seq<Issue>)
    ensures r == [] <==> MatchesPasswordPattern(p)
    ensures forall k :: 0 <= k < |r| ==> r[k].path == "password"
  {
    (if Js.Length(p) < PASSWORD_MIN_LENGTH then [Issue("password", PASSWORD_TOO_SHORT)] else [])
    + (if MatchesPasswordPattern(p) then [] else [Issue("password", PASSWORD_PATTERN)])
  }

  /** The issues of the email field; the address syntax check is a parameter. */
  function EmailIssues(email: string, isEmail: string -> bool): (r: seq<Issue>)
    ensures r == [] <==> isEmail(email)
  {
    if isEmail(email) then [] else [Issue("email", INVALID_EMAIL)]
  }

  /** The sign-in form: an email and a password. */
  datatype UserInfo = UserInfo(email: string, password: string)

  /** `signInInfoSchema`, which is the base schema: sign-in enforces the same password rule as sign-up. */
  function SignInIssues(info: UserInfo, isEmail: string -> bool): (r: seq<Issue>)
    ensures r == [] <==> isEmail(info.email) && MatchesPasswordPattern(info.password)
  {
    EmailIssues(info.email, isEmail) + PasswordIssues(info.password)
  }

  /** The confirmation form: the base fields and the code. */
  datatype ConfirmationInfo = ConfirmationInfo(email: string, password: string, confirmationCode: string)

  /** `confirmationInfoSchema`: the code must have exactly six UTF-16 code units, whatever they are. */
  function ConfirmationIssues(info: ConfirmationInfo, isEmail: string -> bool): (r: seq<Issue>)
    ensures r == [] <==> (isEmail(info.email) && MatchesPasswordPattern(info.password)
                          && Js.Length(info.confirmationCode) == CONFIRMATION_CODE_LENGTH)
  {
    SignInIssues(UserInfo(info.email, info.password), isEmail)
    + (if Js.Length(info.confirmationCode) == CONFIRMATION_CODE_LENGTH then [] else [Issue("confirmationCode", CODE_LENGTH)])
  }

  /** The sign-up form. */
  datatype SignUpInfo = SignUpInfo(email: string, password: string, confirmPassword: string, agreedToTerms: bool)

  /**
   * `signUpInfoSchema`: the base fields, a non-empty confirmation, consent
   * to the terms, and then the equality refinement reported under
   * `confirmPassword`. A failed literal check on `agreedToTerms` aborts the
   * object, so the equality refinement does not run in that case.
   */
  function SignUpIssues(info: SignUpInfo, isEmail: string -> bool): (r: seq<Issue>)
    ensures r == [] <==> (&& isEmail(info.email)
                          && MatchesPasswordPattern(info.password)
                          && Js.Length(info.confirmPassword) >= 1
                          && info.agreedToTerms
                          && info.password == info.confirmPassword)
  {
    var fields := SignInIssues(UserInfo(info.email, info.password), isEmail)
      + (if Js.Length(info.confirmPassword) >= 1 then [] else [Issue("confirmPassword", CONFIRM_REQUIRED)])
      + (if info.agreedToTerms then [] else [Issue("agreedToTerms", TERMS_REQUIRED)]);
    if !info.agreedToTerms then fields
    else fields + (if info.password == info.confirmPassword then [] else [Issue("confirmPassword", PASSWORD_MISMATCH)])
  }

  /** The pattern already demands eight characters, so the minimum-length check never rejects alone. */
  lemma ShortPasswordReportsBoth(p: string)
    requires Js.Length(p) < PASSWORD_MIN_LENGTH
    ensures PasswordIssues(p) == [Issue("password", PASSWORD_TOO_SHORT), Issue("password", PASSWORD_PATTERN)]
  {
  }

  /** A string of admitted characters has one UTF-16 code unit per character. */
  lemma AdmittedAreSingleUnits(p: string)
    requires forall i :: 0 <= i < |p| ==> IsAllowed(p[i])
    ensures Js.Length(p) == |p|
  {
  }

  /** A password with no digit is accepted, although the message asks for one. */
  lemma DigitNotRequired()
    ensures MatchesPasswordPattern("Abcdefg!")
    ensures forall i :: 0 <= i < |"Abcdefg!"| ==> !('0' <= "Abcdefg!"[i] <= '9')
  {
    var p := "Abcdefg!";
    assert IsLower(p[1]) && IsUpper(p[0]) && IsSymbol(p[7]);
    AdmittedAreSingleUnits(p);
  }

  /** A password of admitted characters lacking a symbol is rejected by the pattern alone. */
  lemma SymbolRequired()
    ensures PasswordIssues("Abcdefg1") == [Issue("password", PASSWORD_PATTERN)]
  {
    var p := "Abcdefg1";
    assert forall i :: 0 <= i < |p| ==> !IsSymbol(p[i]);
  }

  /**
   * A mismatched confirmation with everything else valid produces exactly one
   * issue, reported under `confirmPassword`.
   */
  lemma MismatchReportedAtConfirmPassword(info: SignUpInfo, isEmail: string -> bool)
    requires isEmail(info.email) && MatchesPasswordPattern(info.password)
    requires Js.Length(info.confirmPassword) >= 1 && info.agreedToTerms
    requires info.password != info.confirmPassword
    ensures SignUpIssues(info, isEmail) == [Issue("confirmPassword", PASSWORD_MISMATCH)]
  {
  }

  /** Without consent the mismatch is not reported, whatever the passwords. */
  lemma NoMismatchWithoutConsent(info: SignUpInfo, isEmail: string -> bool)
    requires !info.agreedToTerms
    ensures Issue("agreedToTerms", TERMS_REQUIRED) in SignUpIssues(info, isEmail)
    ensures Issue("confirmPassword", PASSWORD_MISMATCH) !in SignUpIssues(info, isEmail)
  {
  }

  /** One emoji outside the Basic Multilingual Plane is two UTF-16 code units. */
  lemma EmojiIsTwoUnits()
    ensures Js.Length("\U{1F600}") == 2
  {
    assert "\U{1F600}"[1..] == "";
  }

  /** A code of four digits and one emoji is five characters but six code units. */
  lemma EmojiCodeHasSixUnits()
    ensures |"1234\U{1F600}"| == 5 && Js.Length("1234\U{1F600}") == CONFIRMATION_CODE_LENGTH
  {
    EmojiIsTwoUnits();
    Js.LengthAppend("1234", "\U{1F600}");
    assert "1234" + "\U{1F600}" == "1234\U{1F600}";
  }

  /** Such a code passes the length rule. */
  lemma EmojiCodePassesLengthRule(isEmail: string -> bool)
    requires isEmail("a@b.c")
    ensures ConfirmationIssues(ConfirmationInfo("a@b.c", "Abcdefg!", "1234\U{1F600}"), isEmail) == []
  {
    EmojiCodeHasSixUnits();
    DigitNotRequired();
  }

  /** Three ASCII characters and three emoji make nine code units: not short, but not admitted by the pattern. */
  lemma EmojiPasswordIsNotShort()
    ensures |"Ab!\U{1F600}\U{1F600}\U{1F600}"| == 6
    ensures PasswordIssues("Ab!\U{1F600}\U{1F600}\U{1F600}") == [Issue("password", PASSWORD_PATTERN)]
  {
    var emoji := "\U{1F600}";
    EmojiIsTwoUnits();
    Js.LengthAppend("Ab!" + emoji + emoji, emoji);
    Js.LengthAppend("Ab!" + emoji, emoji);
    Js.LengthAppend("Ab!", emoji);
    var q := "Ab!" + emoji + emoji + emoji;
    assert q == "Ab!\U{1F600}\U{1F600}\U{1F600}";
    assert !IsAllowed(q[3]);
  }
}
