/**
 * The file-upload error table and `StorageError`, whose constructor checks
 * for a missing definition before reading any field.
 */
module StorageErrors {
  import opened Base
  import opened AppErrors

  /** `Object.values(FileUploadException)`. */
  const FILE_UPLOAD_EXCEPTIONS: seq<string> := ["NoCredentials", "ObjectIsTooLarge", "UploadFailed"]

  /** `FILE_UPLOAD_ERROR`, in source order. */
  const FILE_UPLOAD_ERROR: Entries := [
    ("NoCredentials",
     ErrorDefinition("認証エラー", "認証情報がありません。再度ログインしてください。", "NoCredentials", Error)),
    ("ObjectIsTooLarge",
     ErrorDefinition("オブジェクトサイズエラー", "アップロードするオブジェクトが大きすぎます。", "ObjectIsTooLarge", Error)),
    ("UploadFailed",
     ErrorDefinition("アップロード失敗", "アップロードに失敗しました。", "UploadFailed", Error))
  ]

  /** `STORAGE_ERROR = { ...FILE_UPLOAD_ERROR }`. */
  const STORAGE_ERROR: Entries := FILE_UPLOAD_ERROR

  /** `storageErrorDefinition`. */
  function StorageErrorDefinition(): map<string, ErrorDefinition> {
    Definitions(STORAGE_ERROR)
  }

  /**
   * The table is keyed by code, every level is "error", and every
   * `FileUploadException` member has a definition carrying its own code.
   */
  lemma StorageTableFacts()
    ensures KeyedByCode(FILE_UPLOAD_ERROR)
    ensures StorageErrorDefinition() == ToMap(FILE_UPLOAD_ERROR)
    ensures forall k :: k in StorageErrorDefinition() ==> StorageErrorDefinition()[k].level == Error
    ensures forall c :: c in FILE_UPLOAD_EXCEPTIONS ==> (
      && c in StorageErrorDefinition()
      && StorageErrorDefinition()[c].errorCode == c)
  {
    forall i | 0 <= i < |FILE_UPLOAD_ERROR|
      ensures FILE_UPLOAD_ERROR[i].0 == FILE_UPLOAD_ERROR[i].1.errorCode
      ensures FILE_UPLOAD_ERROR[i].1.level == Error
    {
      assert i in {0, 1, 2};
    }
    ReKeyIdentity(FILE_UPLOAD_ERROR);
    var m := StorageErrorDefinition();
    forall k | k in m
      ensures m[k].level == Error
    {
      ToMapFromEntries(FILE_UPLOAD_ERROR, k);
    }
    assert FILE_UPLOAD_ERROR[0].0 in m && FILE_UPLOAD_ERROR[1].0 in m && FILE_UPLOAD_ERROR[2].0 in m;
    forall j | 0 <= j < |FILE_UPLOAD_EXCEPTIONS|
      ensures FILE_UPLOAD_EXCEPTIONS[j] in m
    {
      assert j in {0, 1, 2};
    }
  }

  /** `new StorageError(code)`: a missing definition throws `UnknownError` first. */
  function StorageError(code: string): (r: Result<AppError, Raised>)
    ensures r.Ok? <==> code in StorageErrorDefinition()
    ensures r.Ok? ==> r.value.cls == StorageErrorClass && r.value.code == code
    ensures r.Ok? ==> ToDefinition(r.value) == StorageErrorDefinition()[code]
    ensures r.Err? ==> r.error == Raised(UNKNOWN_ERROR)
  {
    LookupError(StorageErrorClass, StorageErrorDefinition(), code)
  }

  /** The `upload` catch: classified against `FileUploadException`. */
  function ClassifyUpload(c: Caught): (r: Result<AppError, Raised>)
    ensures r.Err? ==> Matches(FILE_UPLOAD_EXCEPTIONS, c) && c.code.value !in StorageErrorDefinition()
    ensures r.Ok? && Matches(FILE_UPLOAD_EXCEPTIONS, c) ==> r.value.cls == StorageErrorClass && r.value.code == c.code.value
    ensures !Matches(FILE_UPLOAD_EXCEPTIONS, c) ==> r == Ok(UNKNOWN_ERROR)
  {
    Classify(FILE_UPLOAD_EXCEPTIONS, StorageError, c)
  }

  /**
   * Classification never throws: a `FileUploadException` code becomes the
   * `StorageError` of that code, with level "error"; anything else is
   * `UnknownError`.
   */
  lemma UploadClassification(c: Caught)
    ensures ClassifyUpload(c).Ok?
    ensures Matches(FILE_UPLOAD_EXCEPTIONS, c) ==> (
      && ClassifyUpload(c).value.cls == StorageErrorClass
      && ClassifyUpload(c).value.code == c.code.value
      && ClassifyUpload(c).value.level == Error)
    ensures !Matches(FILE_UPLOAD_EXCEPTIONS, c) ==> ClassifyUpload(c).value == UNKNOWN_ERROR
  {
    StorageTableFacts();
  }
}
