/**
 * The authentication error tables and `AuthError`: the two exception enums,
 * the sign-in and sign-up definition tables, their spread merge and the
 * lookup by code that the `AuthError` constructor performs.
 */
module AuthErrors {
  import opened Base
  import opened AppErrors

  /** `Object.values(SignInException)`: every member's value is its name. */
  const SIGN_IN_EXCEPTIONS: seq<string> := [
    "AliasExistsException", "CodeDeliveryFailureException", "CodeMismatchException",
    "ExpiredCodeException", "InternalErrorException", "InvalidParameterException",
    "InvalidPasswordException", "LimitExceededException", "NotAuthorizedException",
    "UnauthorizedException", "UsernameExistsException", "UserNotConfirmedException",
    "UserNotFoundException", "SignInNetworkException"
  ]

  /** `Object.values(SignUpException)`. */
  const SIGN_UP_EXCEPTIONS: seq<string> := [
    "AliasExistsException", "CodeDeliveryFailureException", "InvalidParameterException",
    "LimitExceededException", "UsernameExistsException", "SignUpNetworkException"
  ]


  /** `SIGNIN_ERROR`, in source order; it has no entry for `UsernameExistsException`. */
  const SIGNIN_ERROR: Entries := [
    ("CodeDeliveryFailureException",
     ErrorDefinition("認証エラー", "確認コードの送信に失敗しました。しばらく時間を置いてから再度お試しください。", "CodeDeliveryFailureException", Error)),
    ("InternalErrorException",
     ErrorDefinition("Internal Error", "認証処理で内部エラーが発生しました。", "InternalErrorException", Fatal)),
    ("SignInNetworkException",
     ErrorDefinition("ネットワークエラー",
       "ログイン処理でネットワークエラーが発生しました。利用端末のネットワーク環境を確認してください。解決しない場合は、開発者にお問い合わせください。",
       "SignInNetworkException", Fatal)),
    ("AliasExistsException",
     ErrorDefinition("サインアップエラー", "入力したメールアドレスまたは電話番号は別のアカウントで利用されています。他のメールアドレスまたは電話番号をお試しください。", "AliasExistsException", Error)),
    ("CodeMismatchException",
     ErrorDefinition("認証エラー", "確認コードが間違っています。認証メールに記載されたコードを再度確認してください。",
       "CodeMismatchException", Error)),
    ("ExpiredCodeException",
     ErrorDefinition("認証エラー", "確認コードの有効期限が切れています。再度確認コードを送信してください。",
       "ExpiredCodeException", Error)),
    ("InvalidParameterException",
     ErrorDefinition("認証エラー", "入力された情報が無効です。入力内容を確認してください。", "InvalidParameterException", Error)),
    ("InvalidPasswordException",
     ErrorDefinition("サインアップエラー",
       "入力されたパスワードはセキュリティポリシーを満たしていません。8文字以上で、少なくとも1つの大文字、小文字、数字、および特殊文字を含むパスワードを設定してください。",
       "InvalidPasswordException", Error)),
    ("LimitExceededException",
     ErrorDefinition("認証エラー", "リクエストの制限を超えました。しばらく時間を置いてから再度お試しください。", "LimitExceededException", Error)),
    ("NotAuthorizedException",
     ErrorDefinition("ログインエラー", "メールアドレスまたはパスワードが間違っています", "NotAuthorizedException", Error)),
    ("UnauthorizedException",
     ErrorDefinition("認証エラー", "リクエストが認証されていません。ログインから再度お試しください。",
       "UnauthorizedException", Error)),
    ("UserNotConfirmedException",
     ErrorDefinition("認証エラー", "ユーザーが認証されていません。メールアドレスに送信された確認コードを入力してください。",
       "UserNotConfirmedException", Error)),
    ("UserNotFoundException",
     ErrorDefinition("ログインエラー", "ユーザーが見つかりません。メールアドレスをもう一度確認してください。",
       "UserNotFoundException", Error))
  ]

  /** `SIGNUP_ERROR`, in source order. */
  const SIGNUP_ERROR: Entries := [
    ("AliasExistsException",
     ErrorDefinition("サインアップエラー", "入力したメールアドレスまたは電話番号は別のアカウントで利用されています。他のメールアドレスまたは電話番号をお試しください。", "AliasExistsException", Error)),
    ("CodeDeliveryFailureException",
     ErrorDefinition("認証エラー", "確認コードの送信に失敗しました。しばらく時間を置いてから再度お試しください。", "CodeDeliveryFailureException", Error)),
    ("InvalidParameterException",
     ErrorDefinition("認証エラー", "入力された情報が無効です。入力内容を確認してください。", "InvalidParameterException", Error)),
    ("LimitExceededException",
     ErrorDefinition("認証エラー", "リクエストの制限を超えました。しばらく時間を置いてから再度お試しください。", "LimitExceededException", Error)),
    ("UsernameExistsException",
     ErrorDefinition("サインアップエラー", "メールアドレスがすでに登録されています。別のメールアドレスをお試しください。",
       "UsernameExistsException", Error)),
    ("SignUpNetworkException",
     ErrorDefinition("ネットワークエラー",
       "サインアップ処理でネットワークエラーが発生しました。利用端末のネットワーク環境を確認してください。解決しない場合は、開発者にお問い合わせください。",
       "SignUpNetworkException", Fatal))
  ]

  /** `AUTH_ERROR = { ...SIGNIN_ERROR, ...SIGNUP_ERROR }`: later entries win. */
  const AUTH_ERROR: Entries := SIGNIN_ERROR + SIGNUP_ERROR

  /** `authErrorDefinition`. */
  function AuthErrorDefinition(): map<string, ErrorDefinition> {
    Definitions(AUTH_ERROR)
  }

  /** The codes whose definitions have level "fatal". */
  const FATAL_CODES: set<string> := {"InternalErrorException", "SignInNetworkException", "SignUpNetworkException"}

  /** Facts about the sign-in table, entry by entry. */
  lemma SignInTableFacts()
    ensures KeyedByCode(SIGNIN_ERROR) && FatalExactly(SIGNIN_ERROR, FATAL_CODES)
    ensures KeyAbsent(SIGNIN_ERROR, "UsernameExistsException")
  {
    forall i | 0 <= i < |SIGNIN_ERROR|
      ensures SIGNIN_ERROR[i].0 == SIGNIN_ERROR[i].1.errorCode
      ensures SIGNIN_ERROR[i].1.level == Fatal <==> SIGNIN_ERROR[i].1.errorCode in FATAL_CODES
      ensures SIGNIN_ERROR[i].0 != "UsernameExistsException"
    {
      assert i in {0, 1, 2, 3, 4, 5, 6, 7, 8, 9, 10, 11, 12};
    }
  }

  /** Facts about the sign-up table, entry by entry. */
  lemma SignUpTableFacts()
    ensures KeyedByCode(SIGNUP_ERROR) && FatalExactly(SIGNUP_ERROR, FATAL_CODES)
  {
    forall i | 0 <= i < |SIGNUP_ERROR|
      ensures SIGNUP_ERROR[i].0 == SIGNUP_ERROR[i].1.errorCode
      ensures SIGNUP_ERROR[i].1.level == Fatal <==> SIGNUP_ERROR[i].1.errorCode in FATAL_CODES
    {
      assert i in {0, 1, 2, 3, 4, 5};
    }
  }

  /** The merged lookup object is the union of the two tables, the sign-up one winning. */
  lemma AuthLookupIsMerge()
    ensures AuthErrorDefinition() == ToMap(SIGNIN_ERROR) + ToMap(SIGNUP_ERROR)
    ensures forall k :: k in ToMap(SIGNUP_ERROR) ==> AuthErrorDefinition()[k] == ToMap(SIGNUP_ERROR)[k]
    ensures forall k :: k in AuthErrorDefinition() ==> AuthErrorDefinition()[k].errorCode == k
  {
    SignInTableFacts();
    SignUpTableFacts();
    assert KeyedByCode(AUTH_ERROR);
    ReKeyIdentity(AUTH_ERROR);
    SpreadIsUnion(SIGNIN_ERROR, SIGNUP_ERROR);
  }

  /** Every `SignInException` member is a key of one of the two tables. */
  lemma SignInCodesInTables()
    ensures forall c :: c in SIGN_IN_EXCEPTIONS ==> c in ToMap(SIGNIN_ERROR) + ToMap(SIGNUP_ERROR)
  {
    var m := ToMap(SIGNIN_ERROR);
    var n := ToMap(SIGNUP_ERROR);
    assert SIGNIN_ERROR[0].0 in m && SIGNIN_ERROR[1].0 in m && SIGNIN_ERROR[2].0 in m;
    assert SIGNIN_ERROR[3].0 in m && SIGNIN_ERROR[4].0 in m && SIGNIN_ERROR[5].0 in m;
    assert SIGNIN_ERROR[6].0 in m && SIGNIN_ERROR[7].0 in m && SIGNIN_ERROR[8].0 in m;
    assert SIGNIN_ERROR[9].0 in m && SIGNIN_ERROR[10].0 in m && SIGNIN_ERROR[11].0 in m;
    assert SIGNIN_ERROR[12].0 in m;
    assert SIGNUP_ERROR[4].0 in n;
    forall j | 0 <= j < |SIGN_IN_EXCEPTIONS|
      ensures SIGN_IN_EXCEPTIONS[j] in m + n
    {
      assert j in {0, 1, 2, 3, 4, 5, 6, 7, 8, 9, 10, 11, 12, 13};
    }
  }

  /** Every `SignUpException` member is a key of one of the two tables. */
  lemma SignUpCodesInTables()
    ensures forall c :: c in SIGN_UP_EXCEPTIONS ==> c in ToMap(SIGNIN_ERROR) + ToMap(SIGNUP_ERROR)
  {
    var m := ToMap(SIGNIN_ERROR);
    var n := ToMap(SIGNUP_ERROR);
    assert SIGNUP_ERROR[0].0 in n && SIGNUP_ERROR[1].0 in n && SIGNUP_ERROR[2].0 in n;
    assert SIGNUP_ERROR[3].0 in n && SIGNUP_ERROR[4].0 in n && SIGNUP_ERROR[5].0 in n;
    forall j | 0 <= j < |SIGN_UP_EXCEPTIONS|
      ensures SIGN_UP_EXCEPTIONS[j] in m + n
    {
      assert j in {0, 1, 2, 3, 4, 5};
    }
  }

  /**
   * Every member of either enum has a definition; `UsernameExistsException`
   * gets its definition from the sign-up table only.
   */
  lemma EveryAuthCodeDefined()
    ensures forall c :: c in SIGN_IN_EXCEPTIONS || c in SIGN_UP_EXCEPTIONS ==> c in AuthErrorDefinition()
    ensures "UsernameExistsException" !in ToMap(SIGNIN_ERROR)
  {
    AuthLookupIsMerge();
    SignInCodesInTables();
    SignUpCodesInTables();
    SignInTableFacts();
    KeyAbsentNotInMap(SIGNIN_ERROR, "UsernameExistsException");
  }

  /** Only the internal and the two network errors are fatal. */
  lemma OnlyInternalAndNetworkFatal()
    ensures forall k :: k in AuthErrorDefinition() ==> (AuthErrorDefinition()[k].level == Fatal <==> k in FATAL_CODES)
  {
    SignInTableFacts();
    SignUpTableFacts();
    assert FatalExactly(AUTH_ERROR, FATAL_CODES);
    FatalExactlyInDefinitions(AUTH_ERROR, FATAL_CODES);
  }

  /**
   * `new AuthError(code)` as written: the fields are destructured from the
   * lookup before the missing-definition guard, so a code without a
   * definition throws a `TypeError` and the `UnknownError` branch is dead.
   */
  function AuthErrorAsWritten(code: string): (r: Result<AppError, Raised>)
    ensures r.Ok? <==> code in AuthErrorDefinition()
    ensures r.Err? ==> r.error == DestructuringTypeError
  {
    var defs := AuthErrorDefinition();
    if code !in defs then Err(DestructuringTypeError)
    else Ok(FromDefinition(AuthErrorClass, defs[code]))
  }

  /** A code nobody defined reaches the destructuring error, never the guard. */
  lemma AuthErrorGuardUnreachable()
    ensures AuthErrorAsWritten("NoSuchException") == Err(DestructuringTypeError)
  {
    SignInTableFacts();
    SignUpTableFacts();
    assert KeyAbsent(AUTH_ERROR, "NoSuchException");
    KeyAbsentNotInMap(AUTH_ERROR, "NoSuchException");
    ReKeyIdentity(AUTH_ERROR);
  }

  /** `new AuthError(code)` with the guard before the destructuring, as intended. */
  function AuthError(code: string): (r: Result<AppError, Raised>)
    ensures r.Ok? <==> code in AuthErrorDefinition()
    ensures r.Ok? ==> r.value.cls == AuthErrorClass && r.value.code == code
    ensures r.Ok? ==> ToDefinition(r.value) == AuthErrorDefinition()[code]
    ensures r.Err? ==> r.error == Raised(UNKNOWN_ERROR)
  {
    LookupError(AuthErrorClass, AuthErrorDefinition(), code)
  }

  /** The corrected constructor agrees with the written one wherever that one returns. */
  lemma AuthErrorCorrectedAgrees(code: string)
    ensures AuthErrorAsWritten(code).Ok? ==> AuthError(code) == AuthErrorAsWritten(code)
    ensures !AuthErrorAsWritten(code).Ok? ==> AuthError(code) == Err(Raised(UNKNOWN_ERROR))
    ensures AuthError("NoSuchException") == Err(Raised(UNKNOWN_ERROR))
  {
    AuthErrorGuardUnreachable();
  }

  /** `signIn`/`signOut` catch: classified against `SignInException`. */
  function ClassifySignIn(c: Caught): (r: Result<AppError, Raised>)
    ensures r.Ok?
    ensures r.value.cls == AuthErrorClass <==> Matches(SIGN_IN_EXCEPTIONS, c)
    ensures Matches(SIGN_IN_EXCEPTIONS, c) ==> r.value.code == c.code.value
    ensures !Matches(SIGN_IN_EXCEPTIONS, c) ==> r.value == UNKNOWN_ERROR
  {
    EveryAuthCodeDefined();
    Classify(SIGN_IN_EXCEPTIONS, AuthError, c)
  }

  /** `signUp`/`confirmAccount` catch: classified against `SignUpException`. */
  function ClassifySignUp(c: Caught): (r: Result<AppError, Raised>)
    ensures r.Ok?
    ensures r.value.cls == AuthErrorClass <==> Matches(SIGN_UP_EXCEPTIONS, c)
    ensures Matches(SIGN_UP_EXCEPTIONS, c) ==> r.value.code == c.code.value
    ensures !Matches(SIGN_UP_EXCEPTIONS, c) ==> r.value == UNKNOWN_ERROR
  {
    EveryAuthCodeDefined();
    Classify(SIGN_UP_EXCEPTIONS, AuthError, c)
  }

  /**
   * Classification never throws: a matching code becomes the `AuthError` of
   * that code, anything else `UnknownError`.
   */
  lemma AuthClassification(c: Caught)
    ensures ClassifySignIn(c).Ok? && ClassifySignUp(c).Ok?
    ensures Matches(SIGN_IN_EXCEPTIONS, c) ==>
      ClassifySignIn(c).value == FromDefinition(AuthErrorClass, AuthErrorDefinition()[c.code.value])
    ensures !Matches(SIGN_IN_EXCEPTIONS, c) ==> ClassifySignIn(c).value == UNKNOWN_ERROR
    ensures Matches(SIGN_UP_EXCEPTIONS, c) ==>
      ClassifySignUp(c).value == FromDefinition(AuthErrorClass, AuthErrorDefinition()[c.code.value])
    ensures !Matches(SIGN_UP_EXCEPTIONS, c) ==> ClassifySignUp(c).value == UNKNOWN_ERROR
  {
    EveryAuthCodeDefined();
  }

  /**
   * Confirmation classifies against `SignUpException`, so the two code
   * errors only sign-in knows become `UnknownError`.
   */
  lemma ConfirmationCodeErrorsUnknown(message: string)
    ensures ClassifySignUp(Caught(true, Some("CodeMismatchException"), message)) == Ok(UNKNOWN_ERROR)
    ensures ClassifySignUp(Caught(true, Some("ExpiredCodeException"), message)) == Ok(UNKNOWN_ERROR)
    ensures ClassifySignIn(Caught(true, Some("CodeMismatchException"), message)).Ok?
    ensures ClassifySignIn(Caught(true, Some("CodeMismatchException"), message)).value.cls == AuthErrorClass
  {
    EveryAuthCodeDefined();
  }
}
