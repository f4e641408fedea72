/**
 * Errors of the aggregation function: the values a stage can throw, the
 * `AppError(funcName, message)` every decorated method rethrows, and the
 * fixed messages of the configuration constants.
 */
module BackErrors {
  import opened Base
  import Js

  /** The class of a thrown `Error`; `AppError` records the decorated method's name. */
  datatype ErrorKind = PlainError | TypeError | URIError | AppError(funcName: string)

  /** A thrown value: an `Error` instance, or anything else (`throw "x"`). */
  datatype Thrown = JsError(kind: ErrorKind, message: string) | NonError

  /** A call that returns a `T` or throws. */
  type Outcome<T> = Result<T, Thrown>

  const UNKNOWN_ERROR_MESSAGE: string := "想定外のエラーが発生しました。"
  const APPLICATION_ERROR_MESSAGE: string := "アプリケーションエラーが発生しました。"
  const S3_OBJECT_NOT_FOUND: string := "s3バケットから指定のファイルを取得できませんでした"
  const IDENTITY_ID_NOT_FOUND: string := "オブジェクトキーからIdentityIdが見つかりませんでした"
  const INVALID_DATE_FORMAT: string := "日付の形式が正しくありません"
  const EXPENSE_DATA_ARRAY_EMPTY: string := "支出データ配列が空です"

  /** The message V8 gives `decodeURIComponent` for a malformed escape. */
  const URI_MALFORMED: string := "URI malformed"

  /** The text of the `TypeError` V8 raises for reading `property` of `undefined`. */
  function ReadOfUndefined(property: string): string {
    "Cannot read properties of undefined (reading '" + property + "')"
  }

  /** The text of the `TypeError` V8 raises for reading `property` of `null`. */
  function ReadOfNull(property: string): string {
    "Cannot read properties of null (reading '" + property + "')"
  }

  /**
   * The text of the `TypeError` V8 raises for calling a missing method `name`.
   * V8 puts the rendered call expression in front of the method's name; the
   * model keeps the method's name only.
   */
  function NotAFunction(name: string): string {
    name + " is not a function"
  }

  /**
   * The text of the `TypeError` raised by `v.name(...)` for a cell `v`
   * that is not a string: reading `name` of `undefined` or `null`
   * fails, and a number or boolean has no string method to call.
   */
  function MethodOnNonString(v: Js.Value, name: string): (r: string)
    requires !v.Str?
    ensures v.Undefined? ==> r == ReadOfUndefined(name)
    ensures v.Null? ==> r == ReadOfNull(name)
    ensures v.Num? || v.Bool? ==> r == NotAFunction(name)
  {
    match v
    case Undefined => ReadOfUndefined(name)
    case Null => ReadOfNull(name)
    case _ => NotAFunction(name)
  }

  /** `throw new Error(message)`. */
  function Throw<T>(message: string): Outcome<T> {
    Err(JsError(PlainError, message))
  }

  /**
   * The method body `syncFuncDecorator` and `asyncFuncDecorator` install:
   * a normal result passes through; an `Error` is rethrown as
   * `AppError(funcName, error.message)`; any other thrown value as
   * `AppError(funcName, UNKNOWN_ERROR_MESSAGE)`. A rejected promise is
   * treated as a throw, so one definition serves both decorators.
   */
  function Decorate<T>(funcName: string, r: Outcome<T>): (w: Outcome<T>)
    ensures r.Ok? <==> w.Ok?
    ensures r.Ok? ==> w == r
    ensures w.Err? ==> w.error.JsError? && w.error.kind == AppError(funcName)
    ensures r.Err? && r.error.JsError? ==> w.error.message == r.error.message
    ensures r.Err? && r.error.NonError? ==> w.error.message == UNKNOWN_ERROR_MESSAGE
  {
    match r
    case Ok(_) => r
    case Err(JsError(_, m)) => Err(JsError(AppError(funcName), m))
    case Err(NonError) => Err(JsError(AppError(funcName), UNKNOWN_ERROR_MESSAGE))
  }

  /**
   * Nested decorated calls: the innermost failure's message survives and the
   * error names the outermost decorated method.
   */
  lemma NestedDecorationKeepsInnerMessage<T>(inner: string, outer: string, r: Outcome<T>)
    requires r.Err? && r.error.JsError?
    ensures Decorate(outer, Decorate(inner, r)) == Err(JsError(AppError(outer), r.error.message))
  {
  }

  /** Decorating is idempotent in its message: redecorating only renames the method. */
  lemma RedecorateRenames<T>(a: string, b: string, r: Outcome<T>)
    ensures Decorate(b, Decorate(a, r)) == Decorate(b, r) || (r.Err? && r.error.NonError?)
  {
  }
}
