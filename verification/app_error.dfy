/**
 * The frontend error classes (`AppError`, `NoError`, `UnknownError` and the
 * subclasses that look their fields up in a definition table), the tables
 * themselves as object-literal entries, and the classification every hook
 * applies to what its external call rejected with.
 */
module AppErrors {
  import opened Base

  /** `errorLevel`; `NoLevel` is `"none"`. */
  datatype Level = Fatal | Error | Warning | Info | Debug | NoLevel

  /** The class that constructed an error; `instanceof` and `name` follow it. */
  datatype ErrorClass =
    | AppErrorClass
    | NoErrorClass
    | UnknownErrorClass
    | AuthErrorClass
    | StorageErrorClass
    | GeneralErrorClass

  /** A constructed `AppError`: the class, then title, message, code and level. */
  datatype AppError = AppError(cls: ErrorClass, title: string, message: string, code: string, level: Level)

  /** `ErrorDefinition<T>`. */
  datatype ErrorDefinition = ErrorDefinition(title: string, message: string, errorCode: string, level: Level)

  /**
   * What a constructor can throw instead of returning: an `AppError`
   * (`throw new UnknownError()`), or the `TypeError` of destructuring
   * `undefined`.
   */
  datatype Raised = Raised(e: AppError) | DestructuringTypeError

  /** `error.name`: a bare `AppError` keeps the inherited `"Error"`. */
  function Name(e: AppError): string {
    match e.cls
    case AppErrorClass => "Error"
    case NoErrorClass => "NoError"
    case UnknownErrorClass => "UnknownError"
    case AuthErrorClass => "AuthError"
    case StorageErrorClass => "StorageError"
    case GeneralErrorClass => "GeneralError"
  }

  /** Telling errors apart by `name` is the same as telling them apart by class. */
  lemma NameIdentifiesClass(a: AppError, b: AppError)
    ensures Name(a) == Name(b) <==> a.cls == b.cls
  {
  }

  /** `new NoError()`. */
  const NO_ERROR: AppError := AppError(NoErrorClass, "", "", "", NoLevel)

  /** `new UnknownError()`. */
  const UNKNOWN_ERROR: AppError :=
    AppError(UnknownErrorClass, "Unknown Error", "An unknown error occurred.", "UnknownException", Error)

  /** `error instanceof NoError`. */
  predicate IsNoError(e: AppError) {
    e.cls == NoErrorClass
  }

  /** The two fixed errors, as the classes construct them. */
  lemma FixedErrors()
    ensures IsNoError(NO_ERROR) && Name(NO_ERROR) == "NoError" && NO_ERROR.level == NoLevel
    ensures NO_ERROR.title == "" && NO_ERROR.message == "" && NO_ERROR.code == ""
    ensures !IsNoError(UNKNOWN_ERROR) && Name(UNKNOWN_ERROR) == "UnknownError" && UNKNOWN_ERROR.level == Error
  {
  }

  /** The `super(title, message, errorCode, level)` call of a table-driven subclass. */
  function FromDefinition(cls: ErrorClass, d: ErrorDefinition): (e: AppError)
    ensures e.cls == cls
  {
    AppError(cls, d.title, d.message, d.errorCode, d.level)
  }

  /** The definition an error's fields spell out. */
  function ToDefinition(e: AppError): ErrorDefinition {
    ErrorDefinition(e.title, e.message, e.code, e.level)
  }

  /** A table-driven error carries exactly its definition's fields. */
  lemma DefinitionRoundTrip(cls: ErrorClass, d: ErrorDefinition)
    ensures ToDefinition(FromDefinition(cls, d)) == d
    ensures FromDefinition(cls, d).code == d.errorCode
  {
  }

  // ---------------------------------------------------------------------
  // Definition tables

  /** An object literal's entries, in source order. */
  type Entries = seq<(string, ErrorDefinition)>

  /**
   * The lookup object built from entries: a key written twice takes its
   * last value, as in an object literal or a spread.
   */
  function ToMap(t: Entries): (m: map<string, ErrorDefinition>)
    ensures forall i :: 0 <= i < |t| ==> t[i].0 in m
    decreases |t|
  {
    if |t| == 0 then map[]
    else
      var m := ToMap(t[..|t| - 1]);
      assert forall i :: 0 <= i < |t| - 1 ==> t[..|t| - 1][i] == t[i];
      m[t[|t| - 1].0 := t[|t| - 1].1]
  }

  /** Every value of the lookup object is the value of an entry with that key. */
  lemma {:induction false} ToMapFromEntries(t: Entries, k: string)
    requires k in ToMap(t)
    ensures exists i :: 0 <= i < |t| && t[i] == (k, ToMap(t)[k])
    decreases |t|
  {
    var last := t[|t| - 1];
    if last.0 != k {
      ToMapFromEntries(t[..|t| - 1], k);
      var i :| 0 <= i < |t| - 1 && t[..|t| - 1][i] == (k, ToMap(t[..|t| - 1])[k]);
      assert t[i] == (k, ToMap(t)[k]);
    } else {
      assert t[|t| - 1] == (k, ToMap(t)[k]);
    }
  }

  /** `Object.entries(t).map(([, value]) => [value.errorCode, value])`. */
  function ReKey(t: Entries): (r: Entries)
    ensures |r| == |t|
    ensures forall i :: 0 <= i < |t| ==> r[i] == (t[i].1.errorCode, t[i].1)
  {
    seq(|t|, i requires 0 <= i < |t| => (t[i].1.errorCode, t[i].1))
  }

  /** `Object.fromEntries(...)` of the re-keyed entries: every key is its definition's code. */
  function Definitions(t: Entries): (m: map<string, ErrorDefinition>)
    ensures forall k :: k in m ==> m[k].errorCode == k
    ensures forall i :: 0 <= i < |t| ==> t[i].1.errorCode in m
  {
    var m := ToMap(ReKey(t));
    assert forall k :: k in m ==> m[k].errorCode == k by {
      forall k | k in m
        ensures m[k].errorCode == k
      {
        ToMapFromEntries(ReKey(t), k);
      }
    }
    m
  }

  /** Every entry's key is its definition's code. */
  predicate KeyedByCode(t: Entries) {
    forall i :: 0 <= i < |t| ==> t[i].0 == t[i].1.errorCode
  }

  /** On a table keyed by code, re-keying changes nothing. */
  lemma ReKeyIdentity(t: Entries)
    requires KeyedByCode(t)
    ensures Definitions(t) == ToMap(t)
  {
    assert ReKey(t) == t;
  }

  /** `{ ...a, ...b }`: the keys of both, with `b`'s value where both have one. */
  lemma {:induction false} SpreadIsUnion(a: Entries, b: Entries)
    ensures ToMap(a + b) == ToMap(a) + ToMap(b)
    decreases |b|
  {
    if |b| == 0 {
      assert a + b == a;
    } else {
      var c := a + b;
      var b' := b[..|b| - 1];
      var last := b[|b| - 1];
      assert c[..|c| - 1] == a + b';
      assert c[|c| - 1] == last;
      SpreadIsUnion(a, b');
      assert ToMap(c) == ToMap(c[..|c| - 1])[c[|c| - 1].0 := c[|c| - 1].1];
      calc {
        ToMap(c);
        ToMap(c[..|c| - 1])[last.0 := last.1];
        ToMap(a + b')[last.0 := last.1];
        (ToMap(a) + ToMap(b'))[last.0 := last.1];
        { MapUpdateUnion(ToMap(a), ToMap(b'), last.0, last.1); }
        ToMap(a) + ToMap(b')[last.0 := last.1];
        ToMap(a) + ToMap(b);
      }
    }
  }

  lemma MapUpdateUnion<K, V>(m: map<K, V>, n: map<K, V>, k: K, v: V)
    ensures (m + n)[k := v] == m + n[k := v]
  {
  }

  /** Whether `k` is no entry's key. */
  predicate KeyAbsent(t: Entries, k: string) {
    forall i :: 0 <= i < |t| ==> t[i].0 != k
  }

  lemma KeyAbsentNotInMap(t: Entries, k: string)
    requires KeyAbsent(t, k)
    ensures k !in ToMap(t)
  {
    if k in ToMap(t) {
      ToMapFromEntries(t, k);
    }
  }

  /** Whether every entry's level is `Fatal` exactly when its code is in `fatal`. */
  predicate FatalExactly(t: Entries, fatal: set<string>) {
    forall i :: 0 <= i < |t| ==> (t[i].1.level == Fatal <==> t[i].1.errorCode in fatal)
  }

  /** Levels carry over from the entries to the lookup object. */
  lemma FatalExactlyInDefinitions(t: Entries, fatal: set<string>)
    requires FatalExactly(t, fatal)
    ensures forall k :: k in Definitions(t) ==> (Definitions(t)[k].level == Fatal <==> k in fatal)
  {
    forall k | k in Definitions(t)
      ensures Definitions(t)[k].level == Fatal <==> k in fatal
    {
      ToMapFromEntries(ReKey(t), k);
      var i :| 0 <= i < |ReKey(t)| && ReKey(t)[i] == (k, Definitions(t)[k]);
      assert t[i].1 == Definitions(t)[k];
    }
  }

  // ---------------------------------------------------------------------
  // Classification in the hooks' catch blocks

  /**
   * What a `catch` block receives, as far as it is read: whether it is an
   * `Error`, its `code` when that is a string, and its `message`.
   */
  datatype Caught = Caught(isError: bool, code: Option<string>, message: string)

  /** `error instanceof Error && Object.values(E).includes(error.code)`. */
  predicate Matches(values: seq<string>, c: Caught) {
    c.isError && c.code.Some? && c.code.value in values
  }

  /**
   * The classifier shared by the hooks: a matching code is passed to the
   * family's constructor (which may throw), anything else is `UnknownError`.
   */
  function Classify(values: seq<string>, construct: string -> Result<AppError, Raised>, c: Caught)
    : (r: Result<AppError, Raised>)
    ensures !Matches(values, c) ==> r == Ok(UNKNOWN_ERROR)
    ensures Matches(values, c) ==> r == construct(c.code.value)
  {
    if Matches(values, c) then construct(c.code.value) else Ok(UNKNOWN_ERROR)
  }

  /**
   * The constructor of a table-driven class whose guard precedes any field
   * access: a code without a definition throws `UnknownError`.
   */
  function LookupError(cls: ErrorClass, defs: map<string, ErrorDefinition>, code: string)
    : (r: Result<AppError, Raised>)
    ensures r.Ok? <==> code in defs
    ensures r.Ok? ==> r.value.cls == cls && ToDefinition(r.value) == defs[code]
    ensures r.Err? ==> r.error == Raised(UNKNOWN_ERROR)
  {
    if code in defs then Ok(FromDefinition(cls, defs[code])) else Err(Raised(UNKNOWN_ERROR))
  }

  // ---------------------------------------------------------------------
  // The general table (`utils/error/const.ts`)

  /** `Object.values(GeneralException)`. */
  const GENERAL_EXCEPTIONS: seq<string> := ["NotAuthorizedException"]

  const GENERAL_ERROR: Entries := [
    ("NotAuthorizedException",
     ErrorDefinition("認証エラー", "認証に失敗しました。再度ログインしてください。", "NotAuthorizedException", Error))
  ]

  /** `generalErrorDefinition`. */
  function GeneralErrorDefinition(): map<string, ErrorDefinition> {
    Definitions(GENERAL_ERROR)
  }

  /** `new GeneralError(code)`, built like the other table-driven classes. */
  function GeneralError(code: string): (r: Result<AppError, Raised>)
    ensures r.Ok? <==> code in GeneralErrorDefinition()
    ensures r.Ok? ==> r.value.cls == GeneralErrorClass && r.value.code == code
    ensures r.Ok? ==> ToDefinition(r.value) == GeneralErrorDefinition()[code]
    ensures r.Err? ==> r.error == Raised(UNKNOWN_ERROR)
  {
    LookupError(GeneralErrorClass, GeneralErrorDefinition(), code)
  }

  /** Every `GeneralException` member has a definition, so construction succeeds. */
  lemma GeneralTableCovers()
    ensures forall c :: c in GENERAL_EXCEPTIONS ==> GeneralError(c).Ok? && GeneralError(c).value.code == c
    ensures GeneralErrorDefinition() == ToMap(GENERAL_ERROR)
  {
    ReKeyIdentity(GENERAL_ERROR);
  }
}
