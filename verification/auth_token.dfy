/**
 * `useAuthToken`: one check of whether the id token of the current session
 * has expired. The session fetch and the clock (`Date.now()` in
 * milliseconds) are parameters.
 */
module AuthToken {
  import opened Base
  import opened AppErrors
  import opened FetchAuthSession

  /** The `error` the hook exposes: the caught `Error`, or one it made for a non-`Error` throw. */
  datatype TokenError = TokenError(message: string)

  const GENERIC_MESSAGE: string := "An error occurred. Please try again."

  /** `{ loading, isValid, error }`; `None` is `null`. */
  datatype TokenState = TokenState(loading: bool, isValid: bool, error: Option<TokenError>)

  /** The state before the first check. */
  const INITIAL: TokenState := TokenState(true, false, None)

  /** `Math.floor(Date.now() / 1000)`. */
  function NowSeconds(nowMs: int): (t: int)
    ensures t * 1000 <= nowMs < t * 1000 + 1000
  {
    nowMs / 1000
  }

  /**
   * `expTime && currentTime > expTime`: a missing or zero `exp` never
   * counts as expired.
   */
  predicate Expired(exp: Option<int>, nowMs: int) {
    exp.Some? && exp.value != 0 && NowSeconds(nowMs) > exp.value
  }

  /**
   * `checkTokenExpiration()`, the state after its `finally`: valid unless
   * the token has expired; a failed fetch is invalid and keeps an error.
   */
  function CheckTokenExpiration(fetch: SessionFetch, nowMs: int): (r: TokenState)
    ensures !r.loading
    ensures r.isValid <==> fetch.Fetched? && !Expired(fetch.session.exp, nowMs)
    ensures r.error.Some? <==> fetch.FetchRejected?
    ensures fetch.FetchRejected? && fetch.caught.isError ==> r.error == Some(TokenError(fetch.caught.message))
    ensures fetch.FetchRejected? && !fetch.caught.isError ==> r.error == Some(TokenError(GENERIC_MESSAGE))
  {
    match fetch
    case Fetched(session) =>
      if Expired(session.exp, nowMs) then TokenState(false, false, None)
      else TokenState(false, true, None)
    case FetchRejected(c) =>
      TokenState(false, false, Some(TokenError(if c.isError then c.message else GENERIC_MESSAGE)))
  }

  /**
   * A non-zero `exp` expires at the first millisecond of the second after
   * it: the token is valid up to and including second `exp`.
   */
  lemma ExpiryInstant(exp: int, nowMs: int)
    requires exp != 0
    ensures Expired(Some(exp), nowMs) <==> nowMs >= (exp + 1) * 1000
  {
    var t := NowSeconds(nowMs);
    if t > exp {
      assert t >= exp + 1;
      assert t * 1000 >= (exp + 1) * 1000;
    } else {
      assert t * 1000 + 1000 <= (exp + 1) * 1000;
    }
  }

  /** Once invalid by expiry, a session stays invalid at every later time. */
  lemma ExpiryIsPermanent(session: Session, earlier: int, later: int)
    requires earlier <= later
    requires !CheckTokenExpiration(Fetched(session), earlier).isValid
    ensures !CheckTokenExpiration(Fetched(session), later).isValid
  {
    if session.exp.Some? && session.exp.value != 0 {
      ExpiryInstant(session.exp.value, earlier);
      ExpiryInstant(session.exp.value, later);
    }
  }

  /** A session without tokens, or with a zero `exp`, is valid at any time. */
  lemma MissingExpIsValid(identityId: Option<string>, userSub: Option<string>, nowMs: int)
    ensures CheckTokenExpiration(Fetched(Session(identityId, userSub, None)), nowMs).isValid
    ensures CheckTokenExpiration(Fetched(Session(identityId, userSub, Some(0))), nowMs).isValid
  {
  }
}
