/**
 * `HandleS3Event`: reads the uploaded object named by the first record of
 * the S3 notification, and extracts the uploader's identity id from the
 * object key. URL decoding and the object store are parameters.
 */
module HandleS3Event {
  import opened Base
  import opened BackErrors

  /** The bucket name and the still URL-encoded object key of one record. */
  datatype S3Record = S3Record(bucket: string, key: string)

  /** The event's `Records`. */
  type S3Event = seq<S3Record>

  type Bytes = seq<bv8>

  /**
   * The object store: the body of `(bucket, key)` if it has one, `None`
   * when the response carries no body, or a failure of the call.
   */
  type GetObject = (string, string) -> Outcome<Option<Bytes>>

  /** `decodeURIComponent`; `None` for a malformed escape. */
  type DecodeUri = string -> Option<string>

  const PRIVATE_PREFIX: string := "private/"

  /**
   * `decodeURIComponent(Records[0].s3.object.key)`; with no record,
   * `Records[0]` is `undefined` and reading its `s3` throws.
   */
  function DecodedKey(event: S3Event, decode: DecodeUri): (r: Outcome<string>)
    ensures |event| > 0 && decode(event[0].key).Some? <==> r.Ok?
    ensures r.Ok? ==> r.value == decode(event[0].key).value
    ensures |event| == 0 ==> r == Err(JsError(TypeError, ReadOfUndefined("s3")))
    ensures |event| > 0 && decode(event[0].key).None? ==> r == Err(JsError(URIError, URI_MALFORMED))
  {
    if |event| == 0 then Err(JsError(TypeError, ReadOfUndefined("s3")))
    else
      match decode(event[0].key)
      case None => Err(JsError(URIError, URI_MALFORMED))
      case Some(k) => Ok(k)
  }

  /** `getCSVContents()`, decorated: fails only when the call fails or the body is absent. */
  function GetCSVContents(event: S3Event, decode: DecodeUri, getObject: GetObject): (r: Outcome<Bytes>)
    ensures r.Err? ==> r.error.JsError? && r.error.kind == AppError("getCSVContents")
    ensures r.Ok? ==> DecodedKey(event, decode).Ok?
    ensures DecodedKey(event, decode).Ok? && getObject(event[0].bucket, DecodedKey(event, decode).value).Ok? ==>
      var body := getObject(event[0].bucket, DecodedKey(event, decode).value).value;
      (body.None? ==> r == Err(JsError(AppError("getCSVContents"), S3_OBJECT_NOT_FOUND))) &&
      (body.Some? ==> r == Ok(body.value))
  {
    Decorate("getCSVContents",
      var key :- DecodedKey(event, decode);
      var body :- getObject(event[0].bucket, key);
      if body.None? then Throw(S3_OBJECT_NOT_FOUND) else Ok(body.value))
  }

  /**
   * Where `/(?<=private\/)[^\/]+/` can start a match in `s`: right after an
   * occurrence of "private/", at a character that is not '/'.
   */
  predicate IdentityStartAt(s: string, p: nat) {
    8 <= p < |s| && s[p - 8..p] == PRIVATE_PREFIX && s[p] != '/'
  }

  /** The leftmost start at or after `from`. */
  function FirstIdentityStart(s: string, from: nat): (r: Option<nat>)
    ensures r.Some? ==> (
      && from <= r.value && IdentityStartAt(s, r.value)
      && forall j :: from <= j < r.value ==> !IdentityStartAt(s, j))
    ensures r.None? ==> forall j :: from <= j ==> !IdentityStartAt(s, j)
    decreases |s| - from
  {
    if from >= |s| then None
    else if IdentityStartAt(s, from) then Some(from)
    else FirstIdentityStart(s, from + 1)
  }

  /** The end of the run of non-'/' characters starting at `p` (the greedy `[^\/]+`). */
  function RunEnd(s: string, p: nat): (e: nat)
    requires p <= |s|
    ensures p <= e <= |s|
    ensures forall i :: p <= i < e ==> s[i] != '/'
    ensures e == |s| || s[e] == '/'
    decreases |s| - p
  {
    if p == |s| || s[p] == '/' then p else RunEnd(s, p + 1)
  }

  /** `key.match(regex)?.[0]`. */
  function MatchIdentity(s: string): (r: Option<string>)
    ensures r.Some? ==> |r.value| > 0 && '/' !in r.value
    ensures r.Some? ==> exists p: nat :: (
      && IdentityStartAt(s, p) && r.value == s[p..RunEnd(s, p)]
      && forall j :: 0 <= j < p ==> !IdentityStartAt(s, j))
    ensures r.None? <==> forall p :: !IdentityStartAt(s, p)
  {
    match FirstIdentityStart(s, 0)
    case None => None
    case Some(p) =>
      var e := RunEnd(s, p);
      assert forall i :: 0 <= i < e - p ==> s[p..e][i] == s[p + i];
      Some(s[p..e])
  }

  /** `getIdentityId()`, decorated. */
  function GetIdentityId(event: S3Event, decode: DecodeUri): (r: Outcome<string>)
    ensures r.Err? ==> r.error.JsError? && r.error.kind == AppError("getIdentityId")
    ensures r.Ok? ==> |r.value| > 0 && '/' !in r.value
    ensures DecodedKey(event, decode).Ok? ==>
      (r.Ok? <==> exists p :: IdentityStartAt(DecodedKey(event, decode).value, p))
    ensures DecodedKey(event, decode).Ok? && r.Err? ==>
      r == Err(JsError(AppError("getIdentityId"), IDENTITY_ID_NOT_FOUND))
  {
    Decorate("getIdentityId",
      var key :- DecodedKey(event, decode);
      match MatchIdentity(key)
      case None => Throw(IDENTITY_ID_NOT_FOUND)
      case Some(id) => Ok(id))
  }

  /** For the key shape the uploader writes, "private/<id>/<file>", the identity is `<id>`. */
  lemma UploaderKeyYieldsId(event: S3Event, decode: DecodeUri, id: string, file: string)
    requires |event| > 0 && decode(event[0].key) == Some(PRIVATE_PREFIX + id + "/" + file)
    requires |id| > 0 && '/' !in id
    ensures GetIdentityId(event, decode) == Ok(id)
  {
    var s := PRIVATE_PREFIX + id + "/" + file;
    assert s[0..8] == PRIVATE_PREFIX;
    assert s[8] == id[0];
    assert IdentityStartAt(s, 8);
    assert forall j :: 0 <= j < 8 ==> !IdentityStartAt(s, j);
    assert FirstIdentityStart(s, 0) == Some(8) by {
      var k := 0;
      while k < 8
        invariant 0 <= k <= 8
        invariant FirstIdentityStart(s, 0) == FirstIdentityStart(s, k)
      {
        k := k + 1;
      }
    }
    assert forall i :: 8 <= i < 8 + |id| ==> s[i] == id[i - 8];
    assert s[8 + |id|] == '/';
    assert RunEnd(s, 8) == 8 + |id|;
    assert s[8..8 + |id|] == id;
  }

  /** The "private/" marker need not start a path segment. */
  lemma MarkerInsideSegment(event: S3Event, decode: DecodeUri)
    requires |event| > 0 && decode(event[0].key) == Some("xprivate/abc")
    ensures GetIdentityId(event, decode) == Ok("abc")
  {
    var s := "xprivate/abc";
    assert s[1..9] == PRIVATE_PREFIX;
    assert IdentityStartAt(s, 9);
    assert !IdentityStartAt(s, 8);
    assert FirstIdentityStart(s, 0) == Some(9) by {
      var k := 0;
      while k < 9
        invariant 0 <= k <= 9
        invariant FirstIdentityStart(s, 0) == FirstIdentityStart(s, k)
      {
        k := k + 1;
      }
    }
    assert RunEnd(s, 9) == 12;
    assert s[9..12] == "abc";
  }

  /** Only the first record is read, by both operations. */
  lemma FirstRecordOnly(event: S3Event, other: S3Event, decode: DecodeUri, getObject: GetObject)
    requires |event| > 0 && |other| > 0 && event[0] == other[0]
    ensures GetIdentityId(event, decode) == GetIdentityId(other, decode)
    ensures GetCSVContents(event, decode, getObject) == GetCSVContents(other, decode, getObject)
  {
  }
}
