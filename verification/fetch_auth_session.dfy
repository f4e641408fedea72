/**
 * `useFetchAuthSession`: fetches the Amplify session, keeping either the
 * session or the classified error. The session itself is reduced to the
 * fields other hooks read from it.
 */
module FetchAuthSession {
  import opened Base
  import opened AppErrors

  /**
   * An Amplify `AuthSession`: the identity id, the user sub, and the id
   * token's `exp` claim (absent when there are no tokens, no id token or
   * no claim).
   */
  datatype Session = Session(identityId: Option<string>, userSub: Option<string>, exp: Option<int>)

  /** What the external `fetchAuthSession` call did. */
  datatype SessionFetch = Fetched(session: Session) | FetchRejected(caught: Caught)

  /** `{ session, error }`; `None` is `null`. */
  datatype State = State(session: Option<Session>, error: AppError)

  const INITIAL: State := State(None, NO_ERROR)

  datatype Action = Start | Success(payload: Session) | Failure(error: AppError) | Other

  function Reduce(s: State, a: Action): (r: State)
    ensures a.Other? ==> r == s
    ensures a.Start? ==> r == State(None, NO_ERROR)
    ensures a.Success? ==> r == State(Some(a.payload), NO_ERROR)
    ensures a.Failure? ==> r == State(None, a.error)
  {
    match a
    case Start => s.(session := None, error := NO_ERROR)
    case Success(session) => s.(session := Some(session), error := NO_ERROR)
    case Failure(e) => s.(session := None, error := e)
    case Other => s
  }

  /** A held session comes with `NoError`; equivalently, an error comes with no session. */
  predicate Coherent(s: State) {
    s.session.Some? ==> s.error == NO_ERROR
  }

  /** Every state reachable from a coherent one is coherent. */
  lemma ReachableCoherent(s: State, actions: seq<Action>)
    requires Coherent(s)
    ensures Coherent(Fold(Reduce, s, actions))
    ensures Fold(Reduce, s, actions).error != NO_ERROR ==> Fold(Reduce, s, actions).session.None?
  {
    FoldPreserves(Reduce, Coherent, s, actions);
  }

  /** The `catch`: classified against `GeneralException`. */
  function ClassifySession(c: Caught): (r: Result<AppError, Raised>)
    ensures r.Err? ==> Matches(GENERAL_EXCEPTIONS, c) && c.code.value !in GeneralErrorDefinition()
    ensures r.Ok? && Matches(GENERAL_EXCEPTIONS, c) ==> r.value.cls == GeneralErrorClass && r.value.code == c.code.value
    ensures !Matches(GENERAL_EXCEPTIONS, c) ==> r == Ok(UNKNOWN_ERROR)
  {
    Classify(GENERAL_EXCEPTIONS, GeneralError, c)
  }

  /** `fetchAuthSession()`: START, then SUCCESS with the session or the classified FAILURE. */
  function FetchSession(call: SessionFetch): (r: Result<seq<Action>, seq<Action>>)
    ensures r.Ok? ==> |r.value| == 2 && r.value[0] == Start
    ensures call.Fetched? ==> r == Ok([Start, Success(call.session)])
  {
    match call
    case Fetched(session) => Ok([Start, Success(session)])
    case FetchRejected(c) =>
      match ClassifySession(c)
      case Ok(e) => Ok([Start, Failure(e)])
      case Err(_) => Err([Start])
  }

  /**
   * The fetch always completes its two dispatches, and the state it leaves
   * holds the session with `NoError`, or no session with a
   * `GeneralError` for a `GeneralException` code and `UnknownError`
   * otherwise.
   */
  lemma FetchSettles(call: SessionFetch, s: State)
    ensures FetchSession(call).Ok?
    ensures call.Fetched? ==> Fold(Reduce, s, FetchSession(call).value) == State(Some(call.session), NO_ERROR)
    ensures call.FetchRejected? ==> (
      var t := Fold(Reduce, s, FetchSession(call).value);
      && t.session.None?
      && (Matches(GENERAL_EXCEPTIONS, call.caught) ==> t.error.cls == GeneralErrorClass && t.error.code == call.caught.code.value)
      && (!Matches(GENERAL_EXCEPTIONS, call.caught) ==> t.error == UNKNOWN_ERROR))
  {
    GeneralTableCovers();
    var actions := FetchSession(call).value;
    FoldTwo(Reduce, s, actions[0], actions[1]);
    assert actions == [actions[0], actions[1]];
  }
}
