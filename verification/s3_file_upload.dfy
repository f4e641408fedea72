/**
 * `useS3FileUpload`: uploads one file under the caller's private prefix,
 * keeping a loading flag and an error message. The session fetch, the
 * outcome of reading the file and the storage call are parameters.
 */
module S3FileUpload {
  import opened Base
  import opened AppErrors
  import FetchAuthSession
  import HandleS3Event

  /** `{ loading, errMsg }`. */
  datatype State = State(loading: bool, errMsg: string)

  const INITIAL: State := State(false, "")

  datatype Action = SetLoading(flag: bool) | SetError(message: string) | ClearError | Other

  /** The reducer: each action touches one field. */
  function Reduce(s: State, a: Action): (r: State)
    ensures a.SetLoading? ==> r.loading == a.flag && r.errMsg == s.errMsg
    ensures a.SetError? ==> r.errMsg == a.message && r.loading == s.loading
    ensures a.ClearError? ==> r.errMsg == "" && r.loading == s.loading
    ensures a.Other? ==> r == s
  {
    match a
    case SetLoading(flag) => s.(loading := flag)
    case SetError(message) => s.(errMsg := message)
    case ClearError => s.(errMsg := "")
    case Other => s
  }

  const NO_IDENTITY_MESSAGE: string := "No identityId or userSub found in session"
  const GENERIC_MESSAGE: string := "An error occurred. Please try again."

  /** The message the `catch` block stores. */
  function CaughtMessage(c: Caught): string {
    if c.isError then c.message else GENERIC_MESSAGE
  }

  /** What `uploadData` was asked to store: path, text and the "user-id" metadata. */
  datatype UploadRequest = UploadRequest(path: string, data: string, userSub: string)

  /** `uploadData(...)`: `None` when it resolved, otherwise what it rejected with. */
  type UploadCall = UploadRequest -> Option<Caught>

  /** One `upload(file)`: the dispatched actions and the storage request, if one was made. */
  datatype UploadRun = UploadRun(dispatched: seq<Action>, request: Option<UploadRequest>)

  /** A string JavaScript treats as true: present and non-empty. */
  predicate Present(v: Option<string>) {
    v.Some? && |v.value| > 0
  }

  /** `private/${identityId}/${file.name}`. */
  function UploadPath(identityId: string, fileName: string): string {
    HandleS3Event.PRIVATE_PREFIX + identityId + "/" + fileName
  }

  /** A session holding both an identity id and a user sub. */
  predicate Identified(fetch: FetchAuthSession.SessionFetch) {
    fetch.Fetched? && Present(fetch.session.identityId) && Present(fetch.session.userSub)
  }

  /**
   * The step between the two loading updates: fetch the session, check the
   * identity, read the file (`content` is the decoded text or what the read
   * rejected with), then store it; every failure lands in the `catch`.
   */
  function Attempt(fileName: string, content: Result<string, Caught>, fetch: FetchAuthSession.SessionFetch,
                   store: UploadCall): (r: (Action, Option<UploadRequest>))
    ensures r.0.ClearError? || r.0.SetError?
    ensures r.1.Some? <==> Identified(fetch) && content.Ok?
    ensures r.1.Some? ==> r.1.value == UploadRequest(UploadPath(fetch.session.identityId.value, fileName), content.value, fetch.session.userSub.value)
    ensures r.0.ClearError? <==> r.1.Some? && store(r.1.value).None?
    ensures fetch.Fetched? && !Identified(fetch) ==> r.0 == SetError(NO_IDENTITY_MESSAGE)
    ensures fetch.FetchRejected? ==> r.0 == SetError(CaughtMessage(fetch.caught))
    ensures Identified(fetch) && content.Err? ==> r.0 == SetError(CaughtMessage(content.error))
  {
    match fetch
    case FetchRejected(c) => (SetError(CaughtMessage(c)), None)
    case Fetched(session) =>
      if !Present(session.identityId) || !Present(session.userSub) then (SetError(NO_IDENTITY_MESSAGE), None)
      else if content.Err? then (SetError(CaughtMessage(content.error)), None)
      else
        var request := UploadRequest(UploadPath(session.identityId.value, fileName), content.value, session.userSub.value);
        match store(request)
        case None => (ClearError, Some(request))
        case Some(c) => (SetError(CaughtMessage(c)), Some(request))
  }

  /**
   * `upload(file)`: loading is set first and cleared last on every path; in
   * between comes exactly one error update.
   */
  function Upload(fileName: string, content: Result<string, Caught>, fetch: FetchAuthSession.SessionFetch,
                  store: UploadCall): (r: UploadRun)
    ensures |r.dispatched| == 3
    ensures r.dispatched[0] == SetLoading(true) && r.dispatched[2] == SetLoading(false)
    ensures r.dispatched[1].ClearError? || r.dispatched[1].SetError?
    ensures r.request.Some? <==> Identified(fetch) && content.Ok?
    ensures r.dispatched[1].ClearError? <==> r.request.Some? && store(r.request.value).None?
  {
    var (middle, request) := Attempt(fileName, content, fetch, store);
    UploadRun([SetLoading(true), middle, SetLoading(false)], request)
  }

  lemma FoldThree(s: State, a: Action, b: Action, c: Action)
    ensures Fold(Reduce, s, [a, b, c]) == Reduce(Reduce(Reduce(s, a), b), c)
  {
    assert [a, b, c][0] == a && [a, b, c][1..] == [b, c];
    FoldTwo(Reduce, Reduce(s, a), b, c);
  }

  /**
   * From any state, an upload ends not loading, with an empty message
   * exactly when the file was stored; a session without identity or user
   * sub yields the fixed message, and a failed read the read's message,
   * both without any request.
   */
  lemma UploadSettles(fileName: string, content: Result<string, Caught>, fetch: FetchAuthSession.SessionFetch,
                      store: UploadCall, s: State)
    ensures Fold(Reduce, s, Upload(fileName, content, fetch, store).dispatched).loading == false
    ensures var r := Upload(fileName, content, fetch, store);
      r.dispatched[1].ClearError? ==> Fold(Reduce, s, r.dispatched).errMsg == ""
    ensures fetch.Fetched? && !Identified(fetch) ==>
      Fold(Reduce, s, Upload(fileName, content, fetch, store).dispatched).errMsg == NO_IDENTITY_MESSAGE
    ensures fetch.FetchRejected? && !fetch.caught.isError ==>
      Fold(Reduce, s, Upload(fileName, content, fetch, store).dispatched).errMsg == GENERIC_MESSAGE
    ensures Identified(fetch) && content.Err? ==>
      Fold(Reduce, s, Upload(fileName, content, fetch, store).dispatched).errMsg == CaughtMessage(content.error)
  {
    var r := Upload(fileName, content, fetch, store);
    FoldThree(s, r.dispatched[0], r.dispatched[1], r.dispatched[2]);
    assert r.dispatched == [r.dispatched[0], r.dispatched[1], r.dispatched[2]];
  }

  /**
   * The object key the hook writes names the uploader: once the event's key
   * decodes to the uploaded path, the aggregation backend extracts exactly
   * the session's identity id from it.
   */
  lemma UploadKeyNamesUploader(fileName: string, content: Result<string, Caught>, fetch: FetchAuthSession.SessionFetch, store: UploadCall,
                               event: HandleS3Event.S3Event, decode: HandleS3Event.DecodeUri)
    requires Upload(fileName, content, fetch, store).request.Some?
    requires '/' !in fetch.session.identityId.value
    requires |event| > 0 && decode(event[0].key) == Some(Upload(fileName, content, fetch, store).request.value.path)
    ensures HandleS3Event.GetIdentityId(event, decode) == Ok(fetch.session.identityId.value)
  {
    var id := fetch.session.identityId.value;
    HandleS3Event.UploaderKeyYieldsId(event, decode, id, fileName);
  }
}
