/**
 * The sign-up screen: the confirmation-code sanitiser, the rule enabling the
 * confirm button, and the two-step flow from the sign-up form to the
 * verification form, through confirmation and sign-in to the app.
 */
module SignUpScreen {
  import opened Base
  import opened Text
  import opened AppErrors
  import AuthHooks
  import Schema
  import Js

  /** What the code input keeps of typed text: its ASCII digits, at most six. */
  function SanitizeCode(s: string): (r: string)
    ensures AllDigits(r) && |r| <= Schema.CONFIRMATION_CODE_LENGTH && Js.Length(r) == |r|
    ensures |r| == if |Digits(s)| < 6 then |Digits(s)| else 6
    ensures r == Digits(s)[..|r|]
  {
    Take(Digits(s), Schema.CONFIRMATION_CODE_LENGTH)
  }

  /** Sanitising twice is sanitising once. */
  lemma SanitizeIdempotent(s: string)
    ensures SanitizeCode(SanitizeCode(s)) == SanitizeCode(s)
  {
    DigitsOfDigits(SanitizeCode(s));
  }

  /** Typing a character that is not a digit leaves the code as it was. */
  lemma NonDigitIgnored(s: string, c: char)
    requires !IsDigit(c)
    ensures SanitizeCode(s + [c]) == SanitizeCode(s)
  {
    DigitsAppend(s, [c]);
    assert Digits([c]) == Digits([c][1..]);
  }

  /** Once six digits are in, anything typed after them is dropped. */
  lemma FullCodeIgnoresMore(s: string, t: string)
    requires |SanitizeCode(s)| == Schema.CONFIRMATION_CODE_LENGTH
    ensures SanitizeCode(s + t) == SanitizeCode(s)
  {
    DigitsAppend(s, t);
    var d := Digits(s);
    assert (d + Digits(t))[..6] == d[..6];
  }

  /** The confirm button is enabled exactly when the code has six UTF-16 code units and nothing is loading. */
  predicate SubmitEnabled(code: string, confirmLoading: bool, signInLoading: bool) {
    Js.Length(code) == Schema.CONFIRMATION_CODE_LENGTH && !confirmLoading && !signInLoading
  }

  /**
   * For a code that went through the input, the button is enabled exactly
   * when the typed text held at least six digits and nothing is loading, and
   * then the code passes the confirmation schema's length rule.
   */
  lemma SubmitEnabledOnSanitized(typed: string, confirmLoading: bool, signInLoading: bool,
                                 email: string, password: string, isEmail: string -> bool)
    ensures var code := SanitizeCode(typed);
      (SubmitEnabled(code, confirmLoading, signInLoading)
       <==> |Digits(typed)| >= 6 && !confirmLoading && !signInLoading)
    ensures var code := SanitizeCode(typed);
      SubmitEnabled(code, confirmLoading, signInLoading) ==>
        Schema.Issue("confirmationCode", Schema.CODE_LENGTH)
          !in Schema.ConfirmationIssues(Schema.ConfirmationInfo(email, password, code), isEmail)
  {
    var code := SanitizeCode(typed);
    if SubmitEnabled(code, confirmLoading, signInLoading) {
      var info := Schema.ConfirmationInfo(email, password, code);
      var base := Schema.SignInIssues(Schema.UserInfo(email, password), isEmail);
      assert Schema.ConfirmationIssues(info, isEmail) == base + [];
      assert forall k :: 0 <= k < |base| ==> base[k].path != "confirmationCode" by {
        assert base == Schema.EmailIssues(email, isEmail) + Schema.PasswordIssues(password);
      }
    }
  }

  datatype Step = SignUpStep | Verification

  /**
   * The two forms, the step showing one of them, and the alert of the panel
   * on screen. Each panel keeps its own alert state, so a step change mounts
   * a panel with no alert.
   */
  datatype Panel = Panel(step: Step, signUp: Schema.SignUpInfo, confirm: Schema.ConfirmationInfo, alert: Option<AppError>)

  /** The screen's starting state: the sign-up step, empty forms, consent preset to true. */
  const INITIAL: Panel :=
    Panel(SignUpStep, Schema.SignUpInfo("", "", "", true), Schema.ConfirmationInfo("", "", ""), None)

  /** What a component does when the state of the hook it watches changes. */
  datatype Effect = NoEffect | GoToVerification | SignInWith(email: string, password: string)
                  | Navigate(path: string) | ShowAlert(error: AppError)

  /** The sign-up panel's reaction to `useSignUp`: success moves on, a real error is shown. */
  function OnSignUpState(s: AuthHooks.State): (e: Effect)
    ensures s.isSuccessful ==> e == GoToVerification
    ensures !s.isSuccessful && IsNoError(s.error) ==> e == NoEffect
    ensures !s.isSuccessful && !IsNoError(s.error) ==> e == ShowAlert(s.error)
  {
    if s.isSuccessful then GoToVerification
    else if IsNoError(s.error) then NoEffect
    else ShowAlert(s.error)
  }

  /** The verification panel's reaction to `useConfirmAccount`: success signs in with the form's credentials. */
  function OnConfirmState(s: AuthHooks.State, form: Schema.ConfirmationInfo): (e: Effect)
    ensures s.isSuccessful ==> e == SignInWith(form.email, form.password)
    ensures !s.isSuccessful ==> e == (if IsNoError(s.error) then NoEffect else ShowAlert(s.error))
  {
    if s.isSuccessful then SignInWith(form.email, form.password)
    else if IsNoError(s.error) then NoEffect
    else ShowAlert(s.error)
  }

  /** The verification panel's reaction to `useSignIn`: success opens the app. */
  function OnSignInState(s: AuthHooks.State): (e: Effect)
    ensures s.isSuccessful ==> e == Navigate("/app")
    ensures !s.isSuccessful ==> e == (if IsNoError(s.error) then NoEffect else ShowAlert(s.error))
  {
    if s.isSuccessful then Navigate("/app")
    else if IsNoError(s.error) then NoEffect
    else ShowAlert(s.error)
  }

  /**
   * Applies an effect to the panel. Reaching the verification step mounts
   * the verification panel with no alert and copies the email and password
   * of the sign-up form into the confirmation form.
   */
  function Apply(p: Panel, e: Effect): (r: Panel)
    ensures e == GoToVerification ==>
      r.step == Verification && r.confirm.email == p.signUp.email && r.confirm.password == p.signUp.password
      && r.alert.None?
    ensures e.ShowAlert? ==> r == p.(alert := Some(e.error))
    ensures r.signUp == p.signUp
  {
    match e
    case GoToVerification =>
      p.(step := Verification, confirm := p.confirm.(email := p.signUp.email, password := p.signUp.password),
         alert := None)
    case ShowAlert(err) => p.(alert := Some(err))
    case _ => p
  }

  /** The "change email" button returns to the sign-up step, mounting the sign-up panel with no alert. */
  function Back(p: Panel): (r: Panel)
    ensures r.step == SignUpStep && r.signUp == p.signUp && r.confirm == p.confirm && r.alert.None?
  {
    p.(step := SignUpStep, alert := None)
  }

  /** Typing into the code input stores the sanitised text. */
  function TypeCode(p: Panel, typed: string): (r: Panel)
    ensures r.confirm.confirmationCode == SanitizeCode(typed)
    ensures r.step == p.step && r.signUp == p.signUp
    ensures r.confirm.email == p.confirm.email && r.confirm.password == p.confirm.password
  {
    p.(confirm := p.confirm.(confirmationCode := SanitizeCode(typed)))
  }

  /**
   * A successful sign-up followed by a successful confirmation signs in with
   * the credentials entered at sign-up, whatever code was typed; the sign-in
   * success then opens "/app".
   */
  lemma FlowSignsInWithSignUpCredentials(p: Panel, typed: string, signUpHook: AuthHooks.State,
                                         confirmHook: AuthHooks.State, signInHook: AuthHooks.State)
    requires signUpHook.isSuccessful && confirmHook.isSuccessful && signInHook.isSuccessful
    ensures var q := TypeCode(Apply(p, OnSignUpState(signUpHook)), typed);
      && q.step == Verification
      && OnConfirmState(confirmHook, q.confirm) == SignInWith(p.signUp.email, p.signUp.password)
      && OnSignInState(signInHook) == Navigate("/app")
  {
  }

  /**
   * A start then a success of `useSignUp` moves the panel to verification;
   * going back restores the step, keeps the sign-up form as typed, and shows
   * no alert, whatever the sign-up panel showed before.
   */
  lemma SuccessThenBack(p: Panel, s: AuthHooks.State)
    requires p.step == SignUpStep
    ensures var hook := AuthHooks.Reduce(AuthHooks.Reduce(s, AuthHooks.Start), AuthHooks.Success);
      var q := Apply(p, OnSignUpState(hook));
      && q.step == Verification && q.alert.None?
      && Back(q) == p.(confirm := q.confirm, alert := None)
  {
  }

  /** A failed sign-up keeps the panel on the sign-up step and shows the error. */
  lemma FailureStaysOnSignUp(p: Panel, s: AuthHooks.State, err: AppError)
    requires !IsNoError(err)
    ensures var hook := AuthHooks.Reduce(AuthHooks.Reduce(s, AuthHooks.Start), AuthHooks.Failure(err));
      Apply(p, OnSignUpState(hook)) == p.(alert := Some(err))
  {
  }
}
