/**
 * `useCSVFileUpload`: uploads several files one after another, keeping one
 * status entry per file name. The session snapshot, the outcome of
 * reading each file and the storage call are parameters.
 */
module CsvFileUpload {
  import opened Base
  import opened AppErrors
  import StorageErrors
  import FetchAuthSession

  /** `FileState`. */
  datatype FileState = FileState(fileName: string, isLoading: bool, isSuccessful: bool, error: AppError)

  type Files = seq<FileState>

  /** The file names, in list order. */
  function Names(files: Files): (r: seq<string>)
    ensures |r| == |files| && forall i :: 0 <= i < |files| ==> r[i] == files[i].fileName
  {
    seq(|files|, i requires 0 <= i < |files| => files[i].fileName)
  }

  /** Whether `files` has an entry named `fileName`. */
  predicate HasName(files: Files, fileName: string) {
    exists i :: 0 <= i < |files| && files[i].fileName == fileName
  }

  /** An appended entry adds exactly its own name. */
  lemma HasNameAppend(files: Files, entry: FileState, fileName: string)
    ensures HasName(files + [entry], fileName) <==> HasName(files, fileName) || entry.fileName == fileName
  {
    var all := files + [entry];
    if HasName(files, fileName) {
      var i :| 0 <= i < |files| && files[i].fileName == fileName;
      assert all[i] == files[i];
    }
    if entry.fileName == fileName {
      assert all[|files|] == entry;
    }
    if HasName(all, fileName) && entry.fileName != fileName {
      var i :| 0 <= i < |all| && all[i].fileName == fileName;
      assert i < |files| && files[i] == all[i];
    }
  }

  /**
   * `upsertFileState(files, fileName, updater)`: the first entry with that
   * name is replaced in place; without one, the new entry is appended.
   */
  function Upsert(files: Files, fileName: string, entry: FileState): (r: Files)
    ensures HasName(files, fileName) ==> |r| == |files|
    ensures !HasName(files, fileName) ==> r == files + [entry]
    ensures HasName(files, fileName) ==> exists i :: (
      && 0 <= i < |files| && files[i].fileName == fileName
      && (forall j :: 0 <= j < i ==> files[j].fileName != fileName)
      && r == files[i := entry])
  {
    match FindIndex(files, (f: FileState) => f.fileName == fileName)
    case Some(i) => files[i := entry]
    case None => files + [entry]
  }

  /** An upsert of an entry carrying the upserted name keeps names pairwise distinct. */
  lemma UpsertKeepsDistinct(files: Files, entry: FileState)
    requires Distinct(Names(files))
    ensures Distinct(Names(Upsert(files, entry.fileName, entry)))
    ensures entry in Upsert(files, entry.fileName, entry)
  {
    var r := Upsert(files, entry.fileName, entry);
    if !HasName(files, entry.fileName) {
      assert r[|files|] == entry;
    } else {
      var i :| 0 <= i < |files| && files[i].fileName == entry.fileName && r == files[i := entry];
      assert r[i] == entry;
    }
  }

  /** The upserted entry is the first entry carrying its name. */
  lemma UpsertPutsEntryFirst(files: Files, entry: FileState) returns (k: nat)
    ensures var r := Upsert(files, entry.fileName, entry);
      k < |r| && r[k] == entry && forall j :: 0 <= j < k ==> r[j].fileName != entry.fileName
  {
    var n := entry.fileName;
    var r := Upsert(files, n, entry);
    if HasName(files, n) {
      var i :| 0 <= i < |files| && files[i].fileName == n
        && (forall j :: 0 <= j < i ==> files[j].fileName != n) && r == files[i := entry];
      k := i;
    } else {
      forall j | 0 <= j < |files| ensures r[j].fileName != n {
        assert r[j] == files[j];
      }
      k := |files|;
    }
  }

  /** Upserting an entry that is already the first one with its name changes nothing. */
  lemma UpsertAtFirstIsIdentity(r: Files, entry: FileState, k: nat)
    requires k < |r| && r[k] == entry
    requires forall j :: 0 <= j < k ==> r[j].fileName != entry.fileName
    ensures Upsert(r, entry.fileName, entry) == r
  {
    var n := entry.fileName;
    assert HasName(r, n);
    var i :| 0 <= i < |r| && r[i].fileName == n
      && (forall j :: 0 <= j < i ==> r[j].fileName != n) && Upsert(r, n, entry) == r[i := entry];
    assert i == k;
  }

  /** Upserting the same entry twice is the same as once. */
  lemma UpsertIdempotent(files: Files, entry: FileState)
    ensures Upsert(Upsert(files, entry.fileName, entry), entry.fileName, entry) == Upsert(files, entry.fileName, entry)
  {
    var k := UpsertPutsEntryFirst(files, entry);
    UpsertAtFirstIsIdentity(Upsert(files, entry.fileName, entry), entry, k);
  }


  /** `FailurePayload`: one name, or an array of names (`isBatchFailurePayload`). */
  datatype FailurePayload = Single(fileName: string, error: AppError) | Batch(fileNames: seq<string>, error: AppError)

  datatype Action = Init | Start(name: string) | Success(name: string) | Failure(payload: FailurePayload) | Other

  /** `handleFileUploadFailure`: a batch replaces the list, a single failure is upserted. */
  function HandleFailure(files: Files, payload: FailurePayload): (r: Files)
    ensures payload.Batch? ==> Names(r) == payload.fileNames
    ensures payload.Batch? ==> forall i :: 0 <= i < |r| ==> !r[i].isLoading && !r[i].isSuccessful && r[i].error == payload.error
    ensures payload.Single? ==> r == Upsert(files, payload.fileName, FileState(payload.fileName, false, false, payload.error))
  {
    match payload
    case Batch(names, e) => seq(|names|, i requires 0 <= i < |names| => FileState(names[i], false, false, e))
    case Single(name, e) => Upsert(files, name, FileState(name, false, false, e))
  }

  /** The reducer. */
  function Reduce(files: Files, a: Action): (r: Files)
    ensures a.Init? ==> r == []
    ensures a.Start? ==> r == Upsert(files, a.name, FileState(a.name, true, false, NO_ERROR))
    ensures a.Success? ==> r == Upsert(files, a.name, FileState(a.name, false, true, NO_ERROR))
    ensures a.Failure? ==> r == HandleFailure(files, a.payload)
    ensures a.Other? ==> r == files
  {
    match a
    case Init => []
    case Start(name) => Upsert(files, name, FileState(name, true, false, NO_ERROR))
    case Success(name) => Upsert(files, name, FileState(name, false, true, NO_ERROR))
    case Failure(payload) => HandleFailure(files, payload)
    case Other => files
  }

  /** An action that cannot bring a name in twice. */
  predicate WellFormed(a: Action) {
    a.Failure? && a.payload.Batch? ==> Distinct(a.payload.fileNames)
  }

  /** Entry names stay pairwise distinct under any actions whose batches are duplicate-free. */
  lemma {:induction false} ReachableDistinct(files: Files, actions: seq<Action>)
    requires Distinct(Names(files))
    requires forall k :: 0 <= k < |actions| ==> WellFormed(actions[k])
    ensures Distinct(Names(Fold(Reduce, files, actions)))
    decreases |actions|
  {
    if |actions| > 0 {
      var a := actions[0];
      var next := Reduce(files, a);
      if a.Start? {
        UpsertKeepsDistinct(files, FileState(a.name, true, false, NO_ERROR));
      } else if a.Success? {
        UpsertKeepsDistinct(files, FileState(a.name, false, true, NO_ERROR));
      } else if a.Failure? && a.payload.Single? {
        UpsertKeepsDistinct(files, FileState(a.payload.fileName, false, false, a.payload.error));
      } else if a.Failure? {
        assert WellFormed(actions[0]);
      }
      assert Distinct(Names(next));
      assert forall k :: 0 <= k < |actions[1..]| ==> actions[1..][k] == actions[k + 1];
      ReachableDistinct(next, actions[1..]);
    }
  }

  // ---------------------------------------------------------------------
  // upload

  /** A selected file, with the text `readFileAsUTF8` produced for it. */
  datatype LocalFile = LocalFile(name: string, text: string)

  /**
   * A file as selected: its name, and what reading and decoding it gives,
   * the decoded text or the value `file.arrayBuffer()` rejected with.
   */
  datatype SelectedFile = SelectedFile(name: string, content: Result<string, Caught>)

  /**
   * `readFileAsUTF8(files)`: the files are read one after another, and the
   * first rejected read rejects the whole call.
   */
  function ReadAll(selected: seq<SelectedFile>): (r: Result<seq<LocalFile>, Caught>)
    ensures r.Ok? <==> forall k :: 0 <= k < |selected| ==> selected[k].content.Ok?
    ensures r.Ok? ==> |r.value| == |selected| && forall k :: 0 <= k < |selected| ==>
      r.value[k] == LocalFile(selected[k].name, selected[k].content.value)
    ensures r.Err? ==> exists k :: (0 <= k < |selected| && selected[k].content == Err(r.error)
      && forall j :: 0 <= j < k ==> selected[j].content.Ok?)
    decreases |selected|
  {
    if |selected| == 0 then Ok([])
    else
      match selected[0].content
      case Err(c) => Err(c)
      case Ok(text) =>
        var rest := ReadAll(selected[1..]);
        if rest.Err? then
          var k :| (0 <= k < |selected[1..]| && selected[1..][k].content == Err(rest.error)
            && forall j :: 0 <= j < k ==> selected[1..][j].content.Ok?);
          assert selected[k + 1].content == Err(rest.error);
          assert forall j :: 0 <= j < k + 1 ==> selected[j].content.Ok? by {
            forall j | 0 <= j < k + 1 ensures selected[j].content.Ok? {
              if j > 0 { assert selected[j] == selected[1..][j - 1]; }
            }
          }
          Err(rest.error)
        else
          assert forall k :: 1 <= k < |selected| ==> selected[k] == selected[1..][k - 1];
          Ok([LocalFile(selected[0].name, text)] + rest.value)
  }

  /** `uploadData({ path, data, options: { metadata: { "user-id": ... } } })`: `None` when it resolved. */
  type UploadCall = (string, string, string) -> Option<Caught>

  /** `${session?.identityId}`: an absent session or id prints as "undefined". */
  function IdentityText(session: Option<FetchAuthSession.Session>): string {
    if session.Some? && session.value.identityId.Some? then session.value.identityId.value else "undefined"
  }

  /** `session?.userSub ?? ""`. */
  function UserSubText(session: Option<FetchAuthSession.Session>): string {
    if session.Some? && session.value.userSub.Some? then session.value.userSub.value else ""
  }

  function UploadPath(session: Option<FetchAuthSession.Session>, name: string): string {
    "private/" + IdentityText(session) + "/" + name
  }

  /** The store's verdict on one file. */
  function Store(f: LocalFile, session: Option<FetchAuthSession.Session>, store: UploadCall): Option<Caught> {
    store(UploadPath(session, f.name), f.text, UserSubText(session))
  }

  /**
   * The two actions dispatched for `f`: START, then SUCCESS exactly when the
   * store accepted it, and otherwise a single-file FAILURE for that name.
   */
  predicate Answered(f: LocalFile, session: Option<FetchAuthSession.Session>, store: UploadCall, first: Action, second: Action) {
    && first == Start(f.name)
    && (second == Success(f.name) <==> Store(f, session, store).None?)
    && (second.Failure? <==> Store(f, session, store).Some?)
    && (second.Failure? ==> second.payload.Single? && second.payload.fileName == f.name)
  }

  /**
   * One loop iteration: START, then SUCCESS or the classified FAILURE. The
   * classifier never throws for this family, so nothing escapes.
   */
  function FileStep(f: LocalFile, session: Option<FetchAuthSession.Session>, store: UploadCall)
    : (r: (seq<Action>, Option<Raised>))
    ensures r.1.None? && |r.0| == 2
    ensures Answered(f, session, store, r.0[0], r.0[1])
  {
    match Store(f, session, store)
    case None => ([Start(f.name), Success(f.name)], None)
    case Some(c) =>
      StorageErrors.UploadClassification(c);
      ([Start(f.name), Failure(Single(f.name, StorageErrors.ClassifyUpload(c).value))], None)
  }

  /**
   * The `for` loop over the files: it never throws, and dispatches START
   * then exactly one of SUCCESS or FAILURE for each file in order.
   */
  function Loop(files: seq<LocalFile>, session: Option<FetchAuthSession.Session>, store: UploadCall)
    : (r: (seq<Action>, Option<Raised>))
    ensures r.1.None?
    ensures |r.0| == 2 * |files|
    ensures forall k :: 0 <= k < |files| ==> Answered(files[k], session, store, r.0[2 * k], r.0[2 * k + 1])
    decreases |files|
  {
    if |files| == 0 then ([], None)
    else
      var (head, _) := FileStep(files[0], session, store);
      var (rest, escapedLater) := Loop(files[1..], session, store);
      LoopStep(files, session, store, head, rest);
      (head + rest, escapedLater)
  }

  /** Prepending the first file's two actions to the rest's keeps every file answered. */
  lemma LoopStep(files: seq<LocalFile>, session: Option<FetchAuthSession.Session>, store: UploadCall,
                 head: seq<Action>, rest: seq<Action>)
    requires |files| > 0 && |head| == 2 && Answered(files[0], session, store, head[0], head[1])
    requires |rest| == 2 * (|files| - 1)
    requires forall k :: 0 <= k < |files| - 1 ==> Answered(files[1..][k], session, store, rest[2 * k], rest[2 * k + 1])
    ensures forall k :: 0 <= k < |files| ==> Answered(files[k], session, store, (head + rest)[2 * k], (head + rest)[2 * k + 1])
  {
    forall k | 0 <= k < |files|
      ensures Answered(files[k], session, store, (head + rest)[2 * k], (head + rest)[2 * k + 1])
    {
      if k > 0 {
        assert files[k] == files[1..][k - 1];
        assert (head + rest)[2 * k] == rest[2 * (k - 1)];
        assert (head + rest)[2 * k + 1] == rest[2 * (k - 1) + 1];
      }
    }
  }

  /**
   * `upload(files)`: INIT, then nothing more unless the authentication
   * error captured when `upload` was created is `NoError`. The files are
   * then read outside any `try`, so a rejected read escapes `upload` right
   * after INIT; otherwise the loop runs and nothing escapes.
   */
  function Upload(selected: seq<SelectedFile>, authError: AppError, session: Option<FetchAuthSession.Session>,
                  store: UploadCall): (r: (seq<Action>, Option<Caught>))
    ensures |r.0| > 0 && r.0[0] == Init
    ensures !IsNoError(authError) ==> r == ([Init], None)
    ensures IsNoError(authError) && ReadAll(selected).Err? ==> r == ([Init], Some(ReadAll(selected).error))
    ensures IsNoError(authError) && ReadAll(selected).Ok? ==>
      && r.1.None?
      && r.0 == [Init] + Loop(ReadAll(selected).value, session, store).0
      && |r.0| == 1 + 2 * |selected|
  {
    if !IsNoError(authError) then ([Init], None)
    else
      match ReadAll(selected)
      case Err(c) => ([Init], Some(c))
      case Ok(files) =>
        var (actions, _) := Loop(files, session, store);
        ([Init] + actions, None)
  }

  /** A rejected read leaves the list empty, with no START for any file. */
  lemma ReadFailureLeavesNoEntries(s: Files, selected: seq<SelectedFile>, authError: AppError,
                                   session: Option<FetchAuthSession.Session>, store: UploadCall)
    requires IsNoError(authError) && ReadAll(selected).Err?
    ensures Upload(selected, authError, session, store).1 == Some(ReadAll(selected).error)
    ensures Fold(Reduce, s, Upload(selected, authError, session, store).0) == []
  {
    assert [Init][1..] == [];
  }

  /** The entry a file ends with; it stays loading only if classifying its failure threw. */
  function Settled(f: LocalFile, session: Option<FetchAuthSession.Session>, store: UploadCall): FileState {
    match Store(f, session, store)
    case None => FileState(f.name, false, true, NO_ERROR)
    case Some(c) =>
      match StorageErrors.ClassifyUpload(c)
      case Ok(e) => FileState(f.name, false, false, e)
      case Err(_) => FileState(f.name, true, false, NO_ERROR)
  }

  /** The settled entry of each file, in order. */
  function SettledAll(files: seq<LocalFile>, session: Option<FetchAuthSession.Session>, store: UploadCall)
    : seq<FileState>
  {
    seq(|files|, k requires 0 <= k < |files| => Settled(files[k], session, store))
  }

  /** The first file's settled entry followed by the rest's is every file's. */
  lemma SettledAllCons(prefix: Files, files: seq<LocalFile>, session: Option<FetchAuthSession.Session>, store: UploadCall)
    requires |files| > 0
    ensures prefix + [Settled(files[0], session, store)] + SettledAll(files[1..], session, store)
      == prefix + SettledAll(files, session, store)
  {
    var tail := SettledAll(files[1..], session, store);
    assert forall k :: 0 <= k < |tail| ==> tail[k] == Settled(files[k + 1], session, store);
    assert [Settled(files[0], session, store)] + tail == SettledAll(files, session, store);
  }

  /** One iteration for a name not yet listed appends that file's settled entry. */
  lemma FileStepResult(prefix: Files, f: LocalFile, session: Option<FetchAuthSession.Session>, store: UploadCall)
    requires !HasName(prefix, f.name)
    ensures FileStep(f, session, store).1.None?
    ensures Fold(Reduce, prefix, FileStep(f, session, store).0) == prefix + [Settled(f, session, store)]
  {
    var c := Store(f, session, store);
    if c.Some? {
      StorageErrors.UploadClassification(c.value);
    }
    var head := FileStep(f, session, store).0;
    var started := Reduce(prefix, Start(f.name));
    assert started == prefix + [FileState(f.name, true, false, NO_ERROR)];
    assert started[|prefix|].fileName == f.name;
    var settled := Reduce(started, head[1]);
    var i :| 0 <= i < |started| && started[i].fileName == f.name
      && (forall j :: 0 <= j < i ==> started[j].fileName != f.name) && settled == started[i := Settled(f, session, store)];
    assert i == |prefix|;
    FoldTwo(Reduce, prefix, head[0], head[1]);
    assert head == [head[0], head[1]];
  }

  /** Once the first file is settled, the remaining files' names are still unlisted. */
  lemma RestUnlisted(prefix: Files, files: seq<LocalFile>, session: Option<FetchAuthSession.Session>, store: UploadCall)
    requires |files| > 0
    requires forall k, l :: 0 <= k < l < |files| ==> files[k].name != files[l].name
    requires forall k :: 0 <= k < |files| ==> !HasName(prefix, files[k].name)
    ensures forall k :: 0 <= k < |files[1..]| ==> !HasName(prefix + [Settled(files[0], session, store)], files[1..][k].name)
  {
    forall k | 0 <= k < |files[1..]|
      ensures !HasName(prefix + [Settled(files[0], session, store)], files[1..][k].name)
    {
      assert files[1..][k] == files[k + 1];
      HasNameAppend(prefix, Settled(files[0], session, store), files[k + 1].name);
    }
  }

  /**
   * From entries that do not mention the files' (distinct) names, the loop
   * leaves those entries in front, followed by one settled entry per file in
   * order.
   */
  lemma {:induction false} LoopResult(prefix: Files, files: seq<LocalFile>,
                                      session: Option<FetchAuthSession.Session>, store: UploadCall)
    requires forall k, l :: 0 <= k < l < |files| ==> files[k].name != files[l].name
    requires forall k :: 0 <= k < |files| ==> !HasName(prefix, files[k].name)
    ensures Fold(Reduce, prefix, Loop(files, session, store).0) == prefix + SettledAll(files, session, store)
    decreases |files|
  {
    if |files| == 0 {
      assert prefix + SettledAll(files, session, store) == prefix;
    } else {
      var f := files[0];
      FileStepResult(prefix, f, session, store);
      var head := FileStep(f, session, store).0;
      var rest := Loop(files[1..], session, store).0;
      assert Loop(files, session, store).0 == head + rest;
      FoldAppend(Reduce, prefix, head, rest);
      var prefix' := prefix + [Settled(f, session, store)];
      RestUnlisted(prefix, files, session, store);
      LoopResult(prefix', files[1..], session, store);
      SettledAllCons(prefix, files, session, store);
    }
  }

  /**
   * After an `upload` of files with distinct names that passed the snapshot
   * check, the list holds exactly one entry per file, in order, none
   * loading, successful exactly when the store accepted it.
   */
  lemma UploadFinalState(s: Files, selected: seq<SelectedFile>, files: seq<LocalFile>, authError: AppError,
                         session: Option<FetchAuthSession.Session>, store: UploadCall)
    requires IsNoError(authError) && ReadAll(selected) == Ok(files)
    requires forall k, l :: 0 <= k < l < |files| ==> files[k].name != files[l].name
    ensures var r := Fold(Reduce, s, Upload(selected, authError, session, store).0);
      && |r| == |files|
      && forall k :: 0 <= k < |files| ==> (
        && r[k].fileName == files[k].name && !r[k].isLoading
        && (r[k].isSuccessful <==> Store(files[k], session, store).None?))
  {
    var (loop, _) := Loop(files, session, store);
    var expected := SettledAll(files, session, store);
    FoldAppend(Reduce, s, [Init], loop);
    assert Fold(Reduce, s, [Init]) == [] by {
      assert [Init][1..] == [];
    }
    LoopResult([], files, session, store);
    assert [] + expected == expected;
    var r := Fold(Reduce, s, Upload(selected, authError, session, store).0);
    assert r == expected;
    forall k | 0 <= k < |files|
      ensures r[k].fileName == files[k].name && !r[k].isLoading
      ensures r[k].isSuccessful <==> Store(files[k], session, store).None?
    {
      var c := Store(files[k], session, store);
      if c.Some? {
        StorageErrors.UploadClassification(c.value);
      }
      assert r[k] == Settled(files[k], session, store);
    }
  }
}
