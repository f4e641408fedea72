/**
 * The four authentication hooks `useSignIn`, `useSignUp`,
 * `useConfirmAccount` and `useSignOut`. Their reducers are the same
 * Start/Success/Failure machine under different action names, so it is
 * defined once; each hook's async operation is one attempt of an external
 * Cognito call, given here as an oracle, followed by classification.
 */
module AuthHooks {
  import opened Base
  import opened AppErrors
  import AuthErrors

  /** `{ isLoading, isSuccessful, error }`. */
  datatype State = State(isLoading: bool, isSuccessful: bool, error: AppError)

  /** `initialState`. */
  const INITIAL: State := State(false, false, NO_ERROR)

  /** `*_START`, `*_SUCCESS`, `*_FAILURE`, or an action of any other type. */
  datatype Action = Start | Success | Failure(payload: AppError) | Other

  /** The reducer shared by the four hooks. */
  function Reduce(s: State, a: Action): (r: State)
    ensures a.Other? ==> r == s
    ensures !a.Other? ==> !(r.isLoading && r.isSuccessful)
    ensures r.isLoading || r.isSuccessful ==> r.error == NO_ERROR || r == s
    ensures a.Start? ==> r == State(true, false, NO_ERROR)
    ensures a.Success? ==> r == State(false, true, NO_ERROR)
    ensures a.Failure? ==> r == State(false, false, a.payload)
  {
    match a
    case Start => s.(isLoading := true, isSuccessful := false, error := NO_ERROR)
    case Success => s.(isLoading := false, isSuccessful := true, error := NO_ERROR)
    case Failure(e) => s.(isLoading := false, isSuccessful := false, error := e)
    case Other => s
  }

  /** The states the hook can be observed in. */
  predicate Consistent(s: State) {
    && !(s.isLoading && s.isSuccessful)
    && (s.isSuccessful ==> s.error == NO_ERROR)
    && (s.isLoading ==> s.error == NO_ERROR)
  }

  /**
   * Every state reachable from a consistent one by any actions is
   * consistent: never loading and successful at once, and loading or
   * success carry `NoError`.
   */
  lemma ReachableConsistent(s: State, actions: seq<Action>)
    requires Consistent(s)
    ensures Consistent(Fold(Reduce, s, actions))
  {
    FoldPreserves(Reduce, Consistent, s, actions);
  }

  /** The initial state is consistent, so all reachable ones are. */
  lemma InitialConsistent(actions: seq<Action>)
    ensures Consistent(Fold(Reduce, INITIAL, actions))
  {
    ReachableConsistent(INITIAL, actions);
  }

  /** What the external call did. */
  datatype CallOutcome = Resolved | Rejected(caught: Caught)

  /**
   * One run of a hook's operation: the actions it dispatched, and what
   * escaped it, if the catch block itself threw.
   */
  datatype HookRun = HookRun(dispatched: seq<Action>, escaped: Option<Raised>)

  /** START, the call, then SUCCESS or the classified FAILURE. */
  function Attempt(classify: Caught -> Result<AppError, Raised>, call: CallOutcome): (r: HookRun)
    ensures |r.dispatched| >= 1 && r.dispatched[0] == Start
    ensures r.escaped.None? <==> |r.dispatched| == 2
    ensures call.Resolved? ==> r == HookRun([Start, Success], None)
    ensures call.Rejected? && classify(call.caught).Ok? ==>
      r == HookRun([Start, Failure(classify(call.caught).value)], None)
  {
    match call
    case Resolved => HookRun([Start, Success], None)
    case Rejected(c) =>
      match classify(c)
      case Ok(e) => HookRun([Start, Failure(e)], None)
      case Err(x) => HookRun([Start], Some(x))
  }

  /** A Cognito call taking the username (the email) and a second credential. */
  type CredentialCall = (string, string) -> CallOutcome

  /** `signIn({ email, password })`. */
  function SignIn(email: string, password: string, cognito: CredentialCall): (r: HookRun)
    ensures r.escaped.None? && |r.dispatched| == 2 && r.dispatched[0] == Start
    ensures r.dispatched[1] == Success <==> cognito(email, password).Resolved?
    ensures cognito(email, password).Rejected? ==> (r.dispatched[1].Failure? &&
      (r.dispatched[1].payload.cls == AuthErrorClass <==> Matches(AuthErrors.SIGN_IN_EXCEPTIONS, cognito(email, password).caught)))
  {
    Attempt(AuthErrors.ClassifySignIn, cognito(email, password))
  }

  /** `signUp({ email, password })`. */
  function SignUp(email: string, password: string, cognito: CredentialCall): (r: HookRun)
    ensures r.escaped.None? && |r.dispatched| == 2 && r.dispatched[0] == Start
    ensures r.dispatched[1] == Success <==> cognito(email, password).Resolved?
    ensures cognito(email, password).Rejected? ==> (r.dispatched[1].Failure? &&
      (r.dispatched[1].payload.cls == AuthErrorClass <==> Matches(AuthErrors.SIGN_UP_EXCEPTIONS, cognito(email, password).caught)))
  {
    Attempt(AuthErrors.ClassifySignUp, cognito(email, password))
  }

  /** `confirmAccount({ email, confirmationCode })`. */
  function ConfirmAccount(email: string, confirmationCode: string, cognito: CredentialCall): (r: HookRun)
    ensures r.escaped.None? && |r.dispatched| == 2 && r.dispatched[0] == Start
    ensures r.dispatched[1] == Success <==> cognito(email, confirmationCode).Resolved?
    ensures cognito(email, confirmationCode).Rejected? ==> (r.dispatched[1].Failure? &&
      (r.dispatched[1].payload.cls == AuthErrorClass <==> Matches(AuthErrors.SIGN_UP_EXCEPTIONS, cognito(email, confirmationCode).caught)))
  {
    Attempt(AuthErrors.ClassifySignUp, cognito(email, confirmationCode))
  }

  /** The sign-out call, given whether the sign-out is global. */
  type SignOutCall = bool -> CallOutcome

  /** `signOut()`: always a global sign-out. */
  function SignOut(cognito: SignOutCall): (r: HookRun)
    ensures r.escaped.None? && |r.dispatched| == 2 && r.dispatched[0] == Start
    ensures r.dispatched[1] == Success <==> cognito(true).Resolved?
    ensures cognito(true).Rejected? ==> (r.dispatched[1].Failure? &&
      (r.dispatched[1].payload.cls == AuthErrorClass <==> Matches(AuthErrors.SIGN_IN_EXCEPTIONS, cognito(true).caught)))
  {
    Attempt(AuthErrors.ClassifySignIn, cognito(true))
  }

  /**
   * What a finished operation leaves behind, from any state: success with
   * `NoError` exactly when the call resolved, otherwise a failure carrying
   * an error of the family's class or `UnknownError`.
   */
  predicate Settled(run: HookRun, s: State, call: CallOutcome, family: seq<string>) {
    && run.escaped.None?
    && |run.dispatched| == 2 && run.dispatched[0] == Start
    && var t := Fold(Reduce, s, run.dispatched);
       && !t.isLoading
       && (t.isSuccessful <==> call.Resolved?)
       && (call.Resolved? ==> t.error == NO_ERROR)
       && (call.Rejected? ==> (
         && t.error != NO_ERROR
         && (Matches(family, call.caught) ==> t.error.cls == AuthErrorClass && t.error.code == call.caught.code.value)
         && (!Matches(family, call.caught) ==> t.error == UNKNOWN_ERROR)))
  }

  lemma AttemptSettles(classify: Caught -> Result<AppError, Raised>, family: seq<string>,
                       s: State, call: CallOutcome)
    requires forall c :: classify(c) == Classify(family, AuthErrors.AuthError, c)
    requires forall k :: k in family ==> k in AuthErrors.AuthErrorDefinition()
    ensures Settled(Attempt(classify, call), s, call, family)
  {
    var run := Attempt(classify, call);
    if call.Rejected? {
      assert classify(call.caught).Ok?;
      var e := classify(call.caught).value;
      FoldTwo(Reduce, s, Start, Failure(e));
      if Matches(family, call.caught) {
        assert e.cls == AuthErrorClass;
      } else {
        assert e == UNKNOWN_ERROR;
      }
    } else {
      FoldTwo(Reduce, s, Start, Success);
    }
  }

  /** `signIn` settles, classifying against `SignInException`, with the given credentials. */
  lemma SignInSettles(email: string, password: string, cognito: CredentialCall, s: State)
    ensures Settled(SignIn(email, password, cognito), s, cognito(email, password), AuthErrors.SIGN_IN_EXCEPTIONS)
  {
    AuthErrors.EveryAuthCodeDefined();
    AttemptSettles(AuthErrors.ClassifySignIn, AuthErrors.SIGN_IN_EXCEPTIONS, s, cognito(email, password));
  }

  /** `signUp` settles, classifying against `SignUpException`. */
  lemma SignUpSettles(email: string, password: string, cognito: CredentialCall, s: State)
    ensures Settled(SignUp(email, password, cognito), s, cognito(email, password), AuthErrors.SIGN_UP_EXCEPTIONS)
  {
    AuthErrors.EveryAuthCodeDefined();
    AttemptSettles(AuthErrors.ClassifySignUp, AuthErrors.SIGN_UP_EXCEPTIONS, s, cognito(email, password));
  }

  /** `confirmAccount` settles, classifying against `SignUpException` too. */
  lemma ConfirmAccountSettles(email: string, code: string, cognito: CredentialCall, s: State)
    ensures Settled(ConfirmAccount(email, code, cognito), s, cognito(email, code), AuthErrors.SIGN_UP_EXCEPTIONS)
  {
    AuthErrors.EveryAuthCodeDefined();
    AttemptSettles(AuthErrors.ClassifySignUp, AuthErrors.SIGN_UP_EXCEPTIONS, s, cognito(email, code));
  }

  /** `signOut` settles after asking for a global sign-out, classifying against `SignInException`. */
  lemma SignOutSettles(cognito: SignOutCall, s: State)
    ensures Settled(SignOut(cognito), s, cognito(true), AuthErrors.SIGN_IN_EXCEPTIONS)
  {
    AuthErrors.EveryAuthCodeDefined();
    AttemptSettles(AuthErrors.ClassifySignIn, AuthErrors.SIGN_IN_EXCEPTIONS, s, cognito(true));
  }
}
